/** seq.c: a sequence kept in a circular buffer that doubles when it is full.

    Index i lives at (head + i) % capacity.  Lines 80, 106, 207 and 226 of the source write
    head + 1 where the comment above and the otherwise unused i say head + i, and line 186 leaves
    the store out; the evident intent is modelled. */
module Sequences {
  import opened Machine

  /** Where index i is, for a buffer of this capacity. */
  function Place(head: nat, i: nat, capacity: nat): (p: nat)
    requires capacity > 0
    ensures p < capacity
  {
    (head + i) % capacity
  }

  lemma PlaceIs(head: nat, i: nat, capacity: nat)
    requires head < capacity && i <= capacity
    ensures Place(head, i, capacity) == if head + i < capacity then head + i else head + i - capacity
  {
  }

  /** Different indices live in different places. */
  lemma PlacesDiffer(head: nat, i: nat, j: nat, capacity: nat)
    requires head < capacity && i < capacity && j < capacity && i != j
    ensures Place(head, i, capacity) != Place(head, j, capacity)
  {
    PlaceIs(head, i, capacity);
    PlaceIs(head, j, capacity);
  }

  /** The values of a buffer, read from head. */
  function Unrolled<V>(buf: seq<V>, head: nat, length: nat): (s: seq<V>)
    requires head < |buf| && length <= |buf|
    ensures |s| == length
  {
    seq(length, i requires 0 <= i < length => buf[Place(head, i, |buf|)])
  }

  /** Doubling a full buffer: with the part from head on moved up to the end of the new half, the
      values read from the moved head are the same. */
  lemma DoubledUnrolls<V>(buf: seq<V>, big: seq<V>, head: nat)
    requires head < |buf| && |big| == 2 * |buf|
    requires forall i :: 0 <= i < (if head == 0 then |buf| else head) ==> big[i] == buf[i]
    requires head > 0 ==> forall i :: head <= i < |buf| ==> big[i + |buf|] == buf[i]
    ensures Unrolled(big, if head == 0 then 0 else head + |buf|, |buf|) == Unrolled(buf, head, |buf|)
  {
    var n := |buf|;
    var h := if head == 0 then 0 else head + n;
    forall i | 0 <= i < n ensures big[Place(h, i, 2 * n)] == buf[Place(head, i, n)] {
      PlaceIs(h, i, 2 * n);
      PlaceIs(head, i, n);
      if head > 0 && head + i < n { assert big[head + i + n] == buf[head + i]; }
    }
  }

  /** Storing x in front of head, head having moved down around the buffer. */
  lemma LowerUnrolls<V>(buf: seq<V>, head: nat, length: nat, x: V)
    requires head < |buf| && length < |buf|
    ensures var h := if head == 0 then |buf| - 1 else head - 1;
            Unrolled(buf[h := x], h, length + 1) == [x] + Unrolled(buf, head, length)
  {
    var h := if head == 0 then |buf| - 1 else head - 1;
    PlaceIs(h, 0, |buf|);
    forall j | 0 <= j < length ensures Place(h, j + 1, |buf|) == Place(head, j, |buf|) != h {
      PlaceIs(head, j, |buf|);
      PlaceIs(h, j + 1, |buf|);
    }
    hide Place;
  }

  class Sequence<V(0)> {
    var buf: array<V>
    var length: nat
    var head: int

    ghost predicate Valid()
      reads this, buf
    {
      0 <= head < buf.Length && length <= buf.Length
    }

    ghost function Contents(): (s: seq<V>)
      requires Valid()
      reads this, buf
      ensures |s| == length
    {
      Unrolled(buf[..], head, length)
    }

    /** Seq_new: hint is a guess of how many values there will be. */
    constructor (hint: nat)
      ensures Valid() && fresh(buf) && Contents() == []
      ensures buf.Length == if hint == 0 then 16 else hint
    {
      buf := new V[if hint == 0 then 16 else hint];
      length, head := 0, 0;
    }

    /** expand: called when the buffer is full. */
    method Expand()
      requires Valid() && length == buf.Length
      modifies this
      ensures Valid() && fresh(buf) && buf.Length == 2 * old(buf.Length)
      ensures Contents() == old(Contents()) && length == old(length)
    {
      hide Unrolled, Place;
      ghost var before := buf[..];
      var n := buf.Length;
      Resize(2 * n);
      assert forall i :: 0 <= i < n ==> buf[i] == before[i] by {
        assert forall i :: 0 <= i < n ==> buf[..n][i] == before[..n][i];
      }
      if head > 0 {
        SlideTail(n);
        head := head + n;
      }
      DoubledUnrolls(before, buf[..], old(head));
    }

    /** Lines 50-51: the part of the old buffer from head on goes to the end of the new half. */
    method SlideTail(n: nat)
      requires 0 < head < n && buf.Length == 2 * n
      modifies buf
      ensures forall i :: 0 <= i < n ==> buf[i] == old(buf[i])
      ensures forall i :: head <= i < n ==> buf[i + n] == old(buf[i])
    {
      // memcpy may not overlap: the tail moves to where nothing of it was.
      assert n <= head + n && (n - head) + (head + n) == buf.Length;
      forall i | head <= i < n {
        buf[i + n] := buf[i];
      }
    }

    /** Array_resize: as many of the old elements are kept as there is room for. */
    method Resize(capacity: nat)
      modifies this`buf
      ensures fresh(buf) && buf.Length == capacity
      ensures buf[..Min(capacity, old(buf.Length))] == old(buf[..Min(capacity, buf.Length)])
    {
      var a := new V[capacity];
      forall i | 0 <= i < Min(capacity, buf.Length) {
        a[i] := buf[i];
      }
      buf := a;
    }

    /** Seq_addhi. */
    method AddHi(x: V) returns (y: V)
      requires Valid()
      modifies this, buf
      ensures Valid() && (buf == old(buf) || fresh(buf))
      ensures Contents() == old(Contents()) + [x] && y == x
    {
      if length == buf.Length {
        Expand();
      }
      var i := length;
      length := length + 1;
      forall j | 0 <= j < i ensures Place(head, j, buf.Length) != Place(head, i, buf.Length) {
        PlacesDiffer(head, j, i, buf.Length);
      }
      buf[(head + i) % buf.Length] := x;
      y := x;
    }

    /** Seq_addlo. */
    method AddLo(x: V) returns (y: V)
      requires Valid()
      modifies this, buf
      ensures Valid() && (buf == old(buf) || fresh(buf))
      ensures Contents() == [x] + old(Contents()) && y == x
    {
      if length == buf.Length {
        Expand();
      }
      LowerUnrolls(buf[..], head, length, x);
      ghost var b := buf[..];
      head := head - 1;
      if head < 0 {
        head := buf.Length - 1;
      }
      length := length + 1;
      PlaceIs(head, 0, buf.Length);
      buf[(head + 0) % buf.Length] := x;
      assert buf[..] == b[head := x];
      y := x;
    }

    /** Seq_get. */
    method Get(i: nat) returns (x: V)
      requires Valid() && i < length
      ensures x == Contents()[i]
    {
      x := buf[(head + i) % buf.Length];
    }

    /** Seq_put. */
    method Put(i: nat, x: V) returns (prev: V)
      requires Valid() && i < length
      modifies buf
      ensures Valid() && prev == old(Contents())[i] && Contents() == old(Contents())[i := x]
    {
      forall j | 0 <= j < length && j != i ensures Place(head, j, buf.Length) != Place(head, i, buf.Length) {
        PlacesDiffer(head, j, i, buf.Length);
      }
      prev := buf[(head + i) % buf.Length];
      buf[(head + i) % buf.Length] := x;
    }

    /** Seq_remhi. */
    method RemHi() returns (x: V)
      requires Valid() && length > 0
      modifies this
      ensures Valid() && buf == old(buf) && old(Contents()) == Contents() + [x]
    {
      length := length - 1;
      var i := length;
      x := buf[(head + i) % buf.Length];
    }

    /** Seq_remlo. */
    method RemLo() returns (x: V)
      requires Valid() && length > 0
      modifies this
      ensures Valid() && buf == old(buf) && old(Contents()) == [x] + Contents()
    {
      x := buf[(head + 0) % buf.Length];
      forall j | 0 <= j < length - 1
        ensures Place(Place(head, 1, buf.Length), j, buf.Length) == Place(head, j + 1, buf.Length)
      {
        PlaceIs(head, 1, buf.Length);
        PlaceIs(Place(head, 1, buf.Length), j, buf.Length);
        PlaceIs(head, j + 1, buf.Length);
      }
      head := (head + 1) % buf.Length;
      length := length - 1;
    }
  }
}

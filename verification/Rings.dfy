/** ring.c: a sequence of values kept in a circular doubly linked list.

    `nodes` are the nodes from head rightwards.  The blocks that ring.c repeats in several
    functions, finding the ith node, inserting to the left of a node and deleting a node, are
    methods here. */
module Rings {
  class Node<V> {
    var llink: Node?<V>
    var rlink: Node?<V>
    var value: V

    constructor (x: V)
      ensures value == x
    {
      llink, rlink, value := null, null, x;
    }
  }

  ghost predicate Distinct<V>(s: seq<Node<V>>)
  {
    forall i, j :: 0 <= i < j < |s| ==> s[i] != s[j]
  }

  /** b is next to a, in both directions. */
  ghost predicate Linked<V>(a: Node<V>, b: Node<V>)
    reads a, b
  {
    a.rlink == b && b.llink == a
  }

  /** The links go once around s. */
  ghost predicate Cycle<V>(s: seq<Node<V>>)
    reads s
  {
    && Distinct(s)
    && (forall i, j :: 0 <= i && j == i + 1 && j < |s| ==> Linked(s[i], s[j]))
    && (s != [] ==> Linked(s[|s| - 1], s[0]))
  }

  /** The same circle seen from its kth node. */
  lemma CycleFrom<V>(s: seq<Node<V>>, k: nat)
    requires Cycle(s) && k <= |s|
    ensures Cycle(s[k..] + s[..k])
  {
    var r := s[k..] + s[..k];
    assert forall i :: 0 <= i < |s| - k ==> r[i] == s[i + k];
    assert forall i :: |s| - k <= i < |s| ==> r[i] == s[i + k - |s|];
    forall i, j | 0 <= i && j == i + 1 && j < |r| ensures Linked(r[i], r[j]) {
      if i == |s| - k - 1 { assert r[i] == s[|s| - 1] && r[j] == s[0]; }
    }
  }

  /** p put between the node before the kth and the kth, or between the last and the first. */
  lemma Inserted<V>(s: seq<Node<V>>, k: nat, p: Node<V>)
    requires 1 <= k <= |s| && Distinct(s) && p !in s
    requires forall i, j :: 0 <= i && j == i + 1 && j < |s| && j != k ==> Linked(s[i], s[j])
    requires k < |s| ==> Linked(s[|s| - 1], s[0])
    requires Linked(s[k - 1], p) && Linked(p, s[if k == |s| then 0 else k])
    ensures Cycle(s[..k] + [p] + s[k..])
  {
    var r := s[..k] + [p] + s[k..];
    assert forall i :: 0 <= i < k ==> r[i] == s[i];
    assert forall i :: k < i < |r| ==> r[i] == s[i - 1];
    forall i, j | 0 <= i && j == i + 1 && j < |r| ensures Linked(r[i], r[j]) {
    }
  }

  /** The kth node taken out. */
  lemma Removed<V>(s: seq<Node<V>>, k: nat)
    requires k < |s| && Distinct(s)
    requires forall i, j :: 0 <= i && j == i + 1 && j < |s| && i != k && j != k ==> Linked(s[i], s[j])
    requires 0 < k < |s| - 1 ==> Linked(s[k - 1], s[k + 1]) && Linked(s[|s| - 1], s[0])
    requires k == 0 && |s| > 1 ==> Linked(s[|s| - 1], s[1])
    requires k == |s| - 1 && |s| > 1 ==> Linked(s[|s| - 2], s[0])
    ensures Cycle(s[..k] + s[k + 1..])
  {
    var r := s[..k] + s[k + 1..];
    assert forall i :: 0 <= i < k ==> r[i] == s[i];
    assert forall i :: k <= i < |r| ==> r[i] == s[i + 1];
    forall i, j | 0 <= i && j == i + 1 && j < |r| ensures Linked(r[i], r[j]) {
    }
  }

  ghost function Values<V>(s: seq<Node<V>>): (r: seq<V>)
    reads s
    ensures |r| == |s|
  {
    seq(|s|, i requires 0 <= i < |s| reads s => s[i].value)
  }

  lemma ValuesInserted<V>(s: seq<Node<V>>, k: nat, p: Node<V>)
    requires k <= |s|
    ensures Values(s[..k] + [p] + s[k..]) == Values(s)[..k] + [p.value] + Values(s)[k..]
  {
  }

  lemma ValuesRemoved<V>(s: seq<Node<V>>, k: nat)
    requires k < |s|
    ensures Values(s[..k] + s[k + 1..]) == Values(s)[..k] + Values(s)[k + 1..]
  {
  }

  lemma SameEnds<V>(a: seq<V>, x: V, b: seq<V>, y: V)
    requires a + [x] == b + [y]
    ensures a == b && x == y
  {
    assert a == (a + [x])[..|a|] && b == (b + [y])[..|a|];
    assert (a + [x])[|a|] == (b + [y])[|a|];
  }

  class Ring<V> {
    var head: Node?<V>
    var length: int
    ghost var nodes: seq<Node<V>>

    ghost predicate Valid()
      reads this, nodes
    {
      && length == |nodes| && (head == null <==> nodes == []) && (nodes != [] ==> head == nodes[0])
      && Cycle(nodes)
    }

    ghost function Contents(): (s: seq<V>)
      reads this, nodes
      ensures |s| == |nodes|
    {
      Values(nodes)
    }

    /** Ring_new. */
    constructor ()
      ensures Valid() && Contents() == []
    {
      head, length, nodes := null, 0, [];
    }

    /** q <- ith node: the shorter way round is taken. */
    method Find(i: nat) returns (q: Node<V>)
      requires Valid() && i < length
      ensures q == nodes[i]
    {
      q := head;
      if i <= length / 2 {
        var n := i;
        while n > 0
          invariant 0 <= n <= i && q == nodes[i - n]
        {
          assert Linked(nodes[i - n], nodes[i - n + 1]);
          q := q.rlink;
          n := n - 1;
        }
      } else {
        var n := length - i;
        while n > 0
          invariant 0 <= n <= length - i && q == nodes[if i + n == length then 0 else i + n]
        {
          assert if i + n == length then Linked(nodes[length - 1], nodes[0])
              else Linked(nodes[i + n - 1], nodes[i + n]);
          q := q.llink;
          n := n - 1;
        }
      }
    }

    /** Ring_get. */
    method Get(i: nat) returns (x: V)
      requires Valid() && i < length
      ensures x == Contents()[i]
    {
      var q := Find(i);
      x := q.value;
    }

    /** Ring_put. */
    method Put(i: nat, x: V) returns (prev: V)
      requires Valid() && i < length
      modifies nodes
      ensures Valid() && nodes == old(nodes) && length == old(length)
      ensures prev == old(Contents())[i] && Contents() == old(Contents())[i := x]
    {
      var q := Find(i);
      prev := q.value;
      q.value := x;
    }

    /** Insert a new node p to the left of the kth, or at the end when k is the length. */
    method InsertLeft(ghost k: nat, q: Node<V>, x: V) returns (p: Node<V>)
      requires Valid() && 1 <= k <= length && q == nodes[if k == length then 0 else k]
      modifies this, nodes
      ensures fresh(p) && nodes == old(nodes[..k] + [p] + nodes[k..]) && head == old(head)
      ensures Valid() && Contents() == old(Contents()[..k] + [x] + Contents()[k..])
    {
      assert Linked(nodes[k - 1], q) && q.llink == nodes[k - 1];
      p := new Node(x);
      p.llink := q.llink;
      q.llink.rlink := p;
      p.rlink := q;
      q.llink := p;
      length := length + 1;
      Inserted(nodes, k, p);
      ghost var s := nodes;
      nodes := s[..k] + [p] + s[k..];
      assert Values(s) == old(Values(nodes));
      hide Cycle;
      ValuesInserted(s, k, p);
    }

    /** Delete the kth node. */
    method Unlink(ghost k: nat, q: Node<V>)
      requires Cycle(nodes) && k < |nodes| == length && q == nodes[k] && (k > 0 ==> head == nodes[0])
          && (k == 0 ==> head == nodes[if length == 1 then 0 else 1])
      modifies this, nodes
      ensures nodes == old(nodes[..k] + nodes[k + 1..])
      ensures Valid() && Contents() == old(Contents()[..k] + Contents()[k + 1..])
    {
      ghost var l, r := if k == 0 then |nodes| - 1 else k - 1, if k == |nodes| - 1 then 0 else k + 1;
      assert Linked(nodes[l], q) && Linked(q, nodes[r]);
      q.llink.rlink := q.rlink;
      q.rlink.llink := q.llink;
      length := length - 1;
      if length == 0 {
        head := null;
      }
      Removed(nodes, k);
      ghost var s := nodes;
      nodes := s[..k] + s[k + 1..];
      assert Values(s) == old(Values(nodes));
      hide Cycle;
      ValuesRemoved(s, k);
    }

    /** Ring_addhi. */
    method AddHi(x: V) returns (y: V)
      requires Valid()
      modifies this, nodes
      ensures Valid() && Contents() == old(Contents()) + [x] && y == x
      ensures forall v :: v in nodes ==> v in old(nodes) || fresh(v)
    {
      if head != null {
        assert Contents()[..length] == Contents() && Contents()[length..] == [];
        var p := InsertLeft(length, head, x);
      } else {
        var p := new Node(x);
        head, p.llink, p.rlink := p, p, p;
        length := length + 1;
        nodes := [p];
      }
      y := x;
    }

    /** Ring_addlo. */
    method AddLo(x: V) returns (y: V)
      requires Valid()
      modifies this, nodes
      ensures Valid() && Contents() == [x] + old(Contents()) && y == x
      ensures forall v :: v in nodes ==> v in old(nodes) || fresh(v)
    {
      var z := AddHi(x);
      TurnedContents(length - 1);
      assert Contents()[length - 1..] == [x] && Contents()[..length - 1] == old(Contents());
      assert Linked(nodes[length - 1], nodes[0]);
      head := head.llink;
      nodes := nodes[length - 1..] + nodes[..length - 1];
      y := x;
    }

    /** Ring_add: the positions 1 to length + 1 count from the left, 0 to -length from the right. */
    method Add(pos: int, x: V) returns (y: V)
      requires Valid() && -length <= pos <= length + 1
      modifies this, nodes
      ensures Valid() && y == x
      ensures var k: int := if pos > 0 then pos - 1 else old(length) + pos;
              Contents() == old(Contents()[..k] + [x] + Contents()[k..])
      ensures forall v :: v in nodes ==> v in old(nodes) || fresh(v)
    {
      if pos == 1 || pos == -length {
        y := AddLo(x);
      } else if pos == 0 || pos == length + 1 {
        y := AddHi(x);
      } else {
        var i: int := if pos < 0 then pos + length else pos - 1;
        var q := Find(i);
        var p := InsertLeft(i, q, x);
        y := x;
      }
    }

    /** Ring_remhi. */
    method RemHi() returns (x: V)
      requires Valid() && length > 0
      modifies this, nodes
      ensures Valid() && old(Contents()) == Contents() + [x]
      ensures forall v :: v in nodes ==> v in old(nodes)
    {
      assert Linked(nodes[length - 1], nodes[0]);
      var q := head.llink;
      x := q.value;
      assert Contents() == Contents()[..length - 1] + [x] + Contents()[length..];
      Unlink(length - 1, q);
    }

    /** Ring_remlo. */
    method RemLo() returns (x: V)
      requires Valid() && length > 0
      modifies this, nodes
      ensures Valid() && old(Contents()) == [x] + Contents()
      ensures forall v :: v in nodes ==> v in old(nodes)
    {
      assert if length == 1 then Linked(nodes[0], nodes[0]) else Linked(nodes[0], nodes[1]);
      ghost var c := Contents();
      TurnedContents(1);
      head := head.rlink;
      nodes := nodes[1..] + nodes[..1];
      assert Contents() == c[1..] + [c[0]] && c == [c[0]] + c[1..];
      x := RemHi();
      SameEnds(c[1..], c[0], Contents(), x);
    }

    /** Ring_remove. */
    method Remove(i: nat) returns (x: V)
      requires Valid() && i < length
      modifies this, nodes
      ensures Valid() && x == old(Contents())[i] && Contents() == old(Contents()[..i] + Contents()[i + 1..])
      ensures forall v :: v in nodes ==> v in old(nodes)
    {
      var q := Find(i);
      if i == 0 {
        assert if length == 1 then Linked(nodes[0], nodes[0]) else Linked(nodes[0], nodes[1]);
        head := head.rlink;
      }
      x := q.value;
      Unlink(i, q);
    }

    /** Ring_rotate, on a ring that is not empty: the source divides by the length. */
    method Rotate(n: int)
      requires Valid() && length > 0 && -length <= n <= length
      modifies this
      ensures Valid() && length == old(length) && Contents() == Turned(old(Contents()), n)
      ensures forall v :: v in nodes <==> v in old(nodes)
    {
      var i: int := if n >= 0 then n % length else n + length;
      ghost var m := TurnedPart(Contents(), n, i);
      hide Turned;
      var q := Find(i);
      TurnedContents(i);
      hide Cycle;
      head := q;
      nodes := nodes[i..] + nodes[..i];
    }

    /** The circle from its kth node has the values from the kth. */
    lemma TurnedContents(k: nat)
      requires Valid() && k <= |nodes|
      ensures Cycle(nodes[k..] + nodes[..k])
      ensures Values(nodes[k..] + nodes[..k]) == Contents()[k..] + Contents()[..k]
    {
      CycleFrom(nodes, k);
    }
  }

  /** The index n places on from i around a circle of this length. */
  function Around(len: nat, i: nat, n: int): (j: nat)
    requires len > 0
    ensures j < len
  {
    (i + n) % len
  }

  /** s turned left by n: index i holds what index i + n held, modulo the length. */
  function Turned<V>(s: seq<V>, n: int): (r: seq<V>)
    ensures |r| == |s|
  {
    if s == [] then s else seq(|s|, i requires 0 <= i < |s| => s[Around(|s|, i, n)])
  }

  lemma Mod(len: nat, n: int)
    requires len > 0
    ensures n == (n / len) * len + n % len
  {
  }

  lemma Distribute(len: nat, k: int, m: int)
    ensures (k + m) * len == k * len + m * len
  {
  }

  /** Euclid's remainder is the only one. */
  lemma ModUnique(len: nat, n: int, m: int, r: nat)
    requires r < len && n == m * len + r
    ensures n % len == r
  {
    var d := n / len - m;
    Mod(len, n);
    Distribute(len, n / len, -m);
    assert d * len == r - n % len;
    if d >= 1 {
      AtLeast(len, d);
    } else if d <= -1 {
      AtLeast(len, -d);
      Distribute(len, d, -d);
    }
  }

  lemma AtLeast(len: nat, d: int)
    requires d >= 1
    ensures d * len >= len
  {
    Distribute(len, d - 1, 1);
  }

  lemma AroundIs(len: nat, i: nat, n: int, m: int, r: nat)
    requires r < len && i + n == m * len + r
    ensures Around(len, i, n) == r
  {
    ModUnique(len, i + n, m, r);
  }

  lemma AroundTwice(len: nat, i: nat, m: int, n: int)
    requires i < len
    ensures Around(len, Around(len, i, n), m) == Around(len, i, m + n)
  {
    var j := Around(len, i, n);
    Mod(len, i + n);
    Mod(len, j + m);
    Distribute(len, (i + n) / len, (j + m) / len);
    AroundIs(len, i, m + n, (i + n) / len + (j + m) / len, Around(len, j, m));
  }

  /** Rotations compose additively. */
  lemma TurnedTwice<V>(s: seq<V>, m: int, n: int)
    ensures Turned(Turned(s, m), n) == Turned(s, m + n)
  {
    forall i | 0 <= i < |s| ensures Around(|s|, Around(|s|, i, n), m) == Around(|s|, i, m + n) {
      AroundTwice(|s|, i, m, n);
    }
    hide Around;
  }

  /** So rotating back undoes rotating, and rotating by the length changes nothing. */
  lemma TurnedBack<V>(s: seq<V>, n: int)
    ensures Turned(Turned(s, n), -n) == s && Turned(s, |s|) == s && Turned(s, -|s|) == s
  {
    hide Turned, Around;
    TurnedTwice(s, n, -n);
    assert n + -n == 0 && s[0..] + s[..0] == s;
    TurnedBlocks(s, 0, 0, 0);
    TurnedBlocks(s, |s|, 1, 0);
    TurnedBlocks(s, -|s|, -1, 0);
  }

  lemma TurnedPart<V>(s: seq<V>, n: int, i: int) returns (m: int)
    requires s != [] && -|s| <= n <= |s| && i == if n >= 0 then n % |s| else n + |s|
    ensures 0 <= i < |s| && Turned(s, n) == s[i..] + s[..i]
  {
    Mod(|s|, n);
    m := if n >= 0 then n / |s| else -1;
    TurnedBlocks(s, n, m, i);
  }

  /** Rotating left by n moves as many values to the end as n leaves modulo the length. */
  lemma TurnedBlocks<V>(s: seq<V>, n: int, m: int, k: nat)
    requires k <= |s| && n == m * |s| + k
    ensures Turned(s, n) == s[k..] + s[..k]
  {
    forall i | 0 <= i < |s| ensures Around(|s|, i, n) == if i + k < |s| then i + k else i + k - |s| {
      Distribute(|s|, m, 1);
      if i + k < |s| { AroundIs(|s|, i, n, m, i + k); } else { AroundIs(|s|, i, n, m + 1, i + k - |s|); }
    }
    hide Around;
  }
}

/** set.c: sets as hash tables with chains, for any comparison and hash the client gives.

    A chain is the sequence of its members, first member first.  cmp(x, y) stands for the
    client's comparison returning 0. */
module HashSets {
  import opened Machine
  import opened Wrappers

  /** What the client owes: an equivalence, and a hash that does not tell equivalents apart. */
  ghost predicate Respects<E(!new)>(cmp: (E, E) -> bool, hash: E -> nat)
  {
    && (forall x :: cmp(x, x))
    && (forall x, y :: cmp(x, y) ==> cmp(y, x) && hash(x) == hash(y))
    && (forall x, y, z :: cmp(x, y) && cmp(y, z) ==> cmp(x, z))
  }

  /** cmpatom and hashatom, the defaults: pointers are compared and hashed as they are. */
  function SameAtom(x: nat, y: nat): bool { x == y }

  function HashAtom(x: nat): nat { x / 4 }

  lemma AtomsRespect()
    ensures Respects(SameAtom, HashAtom)
  {
  }

  ghost function Elements<E(!new)>(b: seq<seq<E>>): set<E>
  {
    set i, m | 0 <= i < |b| && m in b[i] :: m
  }

  /** x is in s up to cmp. */
  ghost predicate In<E(!new)>(cmp: (E, E) -> bool, x: E, s: set<E>)
  {
    exists m :: m in s && cmp(x, m)
  }

  /** The chain for x in a table of this size. */
  function Slot<E>(hash: E -> nat, x: E, size: nat): (h: nat)
    requires size > 0
    ensures h < size
  {
    hash(x) % size
  }

  /** Every member is in the chain its hash says. */
  ghost predicate WellPlaced<E>(hash: E -> nat, b: seq<seq<E>>)
  {
    forall i, j :: 0 <= i < |b| && 0 <= j < |b[i]| ==> Slot(hash, b[i][j], |b|) == i
  }

  /** No chain holds two equivalents. */
  ghost predicate NoTwins<E>(cmp: (E, E) -> bool, c: seq<E>)
  {
    forall j, k :: 0 <= j < k < |c| ==> !cmp(c[j], c[k]) && !cmp(c[k], c[j])
  }

  ghost predicate Table<E(!new)>(cmp: (E, E) -> bool, hash: E -> nat, b: seq<seq<E>>)
  {
    && Respects(cmp, hash) && |b| > 0 && WellPlaced(hash, b)
    && forall i :: 0 <= i < |b| ==> NoTwins(cmp, b[i])
  }

  /** The members of a table are pairwise inequivalent. */
  lemma Representatives<E(!new)>(cmp: (E, E) -> bool, hash: E -> nat, b: seq<seq<E>>, m: E, n: E)
    requires Table(cmp, hash, b) && m in Elements(b) && n in Elements(b) && cmp(m, n)
    ensures m == n
  {
    var i, j :| 0 <= i < |b| && m in b[i] && 0 <= j < |b| && n in b[j];
    var k, l :| 0 <= k < |b[i]| && b[i][k] == m && 0 <= l < |b[j]| && b[j][l] == n;
    assert Slot(hash, b[i][k], |b|) == i && Slot(hash, b[j][l], |b|) == j;
    assert i == j && NoTwins(cmp, b[i]);
    assert cmp(b[i][k], b[i][l]);
  }

  /** Looking in the one chain is enough. */
  lemma OneChain<E(!new)>(cmp: (E, E) -> bool, hash: E -> nat, b: seq<seq<E>>, x: E)
    requires Table(cmp, hash, b)
    ensures In(cmp, x, Elements(b)) <==> exists j ::
        0 <= j < |b[Slot(hash, x, |b|)]| && cmp(x, b[Slot(hash, x, |b|)][j])
  {
    var h := Slot(hash, x, |b|);
    if In(cmp, x, Elements(b)) {
      var m :| m in Elements(b) && cmp(x, m);
      var i :| 0 <= i < |b| && m in b[i];
      var j :| 0 <= j < |b[i]| && b[i][j] == m;
      assert Slot(hash, b[i][j], |b|) == i;
    }
    if j :| 0 <= j < |b[h]| && cmp(x, b[h][j]) {
      assert b[h][j] in b[h];
      assert b[h][j] in Elements(b);
    }
  }

  ghost function Chain<E(!new)>(c: seq<E>): set<E> { set m | m in c :: m }

  /** One chain changes. */
  lemma ChainChanged<E(!new)>(cmp: (E, E) -> bool, hash: E -> nat, b: seq<seq<E>>, h: nat, c: seq<E>)
    requires Table(cmp, hash, b) && h < |b| && NoTwins(cmp, c)
        && forall k :: 0 <= k < |c| ==> Slot(hash, c[k], |b|) == h
    ensures Table(cmp, hash, b[h := c])
    ensures Elements(b[h := c]) == (Elements(b) - Chain(b[h])) + Chain(c) && Chain(b[h]) <= Elements(b)
  {
    var b' := b[h := c];
    assert forall i :: 0 <= i < |b'| ==> b'[i] == if i == h then c else b[i];
    forall y ensures y in Elements(b') <==> (y in Elements(b) && y !in b[h]) || y in c {
      if y in Elements(b') {
        var i :| 0 <= i < |b'| && y in b'[i];
        if i != h { OwnChain(cmp, hash, b, i, y); }
      }
      if y in Elements(b) && y !in b[h] {
        var i :| 0 <= i < |b| && y in b[i];
        assert y in b'[i];
      }
      assert y in c ==> y in b'[h];
    }
    forall y | y in Chain(b[h]) ensures y in Elements(b) { assert y in b[h]; }
  }

  lemma OwnChain<E(!new)>(cmp: (E, E) -> bool, hash: E -> nat, b: seq<seq<E>>, i: nat, y: E)
    requires Table(cmp, hash, b) && i < |b| && y in b[i]
    ensures Slot(hash, y, |b|) == i && y in Elements(b) && forall k :: 0 <= k < |b| && k != i ==> y !in b[k]
  {
    var j :| 0 <= j < |b[i]| && b[i][j] == y;
    assert Slot(hash, b[i][j], |b|) == i;
    forall k | 0 <= k < |b| && y in b[k] ensures k == i {
      var l :| 0 <= l < |b[k]| && b[k][l] == y;
      assert Slot(hash, b[k][l], |b|) == k;
    }
  }

  /** A new member at the front of its chain. */
  lemma Prepended<E(!new)>(cmp: (E, E) -> bool, hash: E -> nat, b: seq<seq<E>>, x: E)
    requires Table(cmp, hash, b) && !In(cmp, x, Elements(b))
    ensures var h := Slot(hash, x, |b|); var b' := b[h := [x] + b[h]];
            && Table(cmp, hash, b') && Elements(b') == Elements(b) + {x} && x !in Elements(b)
            && |Elements(b')| == |Elements(b)| + 1
  {
    var h := Slot(hash, x, |b|);
    var c := [x] + b[h];
    assert x !in Elements(b) by { assert cmp(x, x); }
    forall j | 0 <= j < |b[h]| ensures !cmp(x, b[h][j]) && !cmp(b[h][j], x) && Slot(hash, b[h][j], |b|) == h {
      assert b[h][j] in b[h];
      assert b[h][j] in Elements(b);
    }
    assert NoTwins(cmp, b[h]);
    assert forall k :: 0 < k < |c| ==> c[k] == b[h][k - 1];
    ChainChanged(cmp, hash, b, h, c);
    PrependChain(b[h], x);
    assert Elements(b[h := c]) == Elements(b) + {x};
  }

  lemma PrependChain<E(!new)>(c: seq<E>, x: E)
    ensures Chain([x] + c) == Chain(c) + {x}
  {
    assert ([x] + c)[0] == x;
    forall y ensures y in Chain([x] + c) <==> y == x || y in Chain(c) {
      assert y in [x] + c <==> y == x || y in c;
    }
  }

  /** The members of a chain are different. */
  lemma ChainOnce<E(!new)>(cmp: (E, E) -> bool, hash: E -> nat, c: seq<E>, j: nat)
    requires Respects(cmp, hash) && NoTwins(cmp, c) && j < |c|
    ensures forall k :: 0 <= k < |c| && k != j ==> c[k] != c[j]
  {
    assert cmp(c[j], c[j]);
  }

  lemma AppendChain<E(!new)>(c: seq<E>, x: E)
    ensures Chain(c + [x]) == Chain(c) + {x}
  {
    assert (c + [x])[|c|] == x;
    forall y ensures y in Chain(c + [x]) <==> y == x || y in Chain(c) {
      assert y in c + [x] <==> y == x || y in c;
    }
  }

  /** A member replaced by an equivalent in its place. */
  lemma Replaced<E(!new)>(cmp: (E, E) -> bool, hash: E -> nat, b: seq<seq<E>>, h: nat, j: nat, x: E)
    requires Table(cmp, hash, b) && h < |b| && j < |b[h]| && h == Slot(hash, x, |b|) && cmp(x, b[h][j])
    ensures var b' := b[h := b[h][j := x]];
            && Table(cmp, hash, b') && Elements(b') == Elements(b) - {b[h][j]} + {x}
            && |Elements(b')| == |Elements(b)|
  {
    hide Slot;
    var m, c := b[h][j], b[h][j := x];
    assert NoTwins(cmp, b[h]);
    assert m in b[h] && m in Elements(b);
    assert forall k :: 0 <= k < |b[h]| ==> Slot(hash, b[h][k], |b|) == h;
    ReplaceTwins(cmp, hash, b[h], j, x);
    ChainOnce(cmp, hash, b[h], j);
    assert m in Chain(b[h]);
    assert forall k :: 0 <= k < |c| ==> Slot(hash, c[k], |b|) == h;
    hide *;
    ReplaceChain(b[h], j, x);
    ChainChanged(cmp, hash, b, h, c);
    ReplacedSize(cmp, hash, b, m, x);
    SwapIn(Elements(b), Chain(b[h]), m, x);
  }

  lemma SwapIn<E>(all: set<E>, part: set<E>, m: E, x: E)
    requires part <= all && m in part
    ensures (all - part) + (part - {m} + {x}) == all - {m} + {x}
  {
  }

  lemma ReplaceTwins<E(!new)>(cmp: (E, E) -> bool, hash: E -> nat, c: seq<E>, j: nat, x: E)
    requires Respects(cmp, hash) && NoTwins(cmp, c) && j < |c| && cmp(x, c[j])
    ensures NoTwins(cmp, c[j := x])
  {
    forall k | 0 <= k < |c| && k != j ensures !cmp(x, c[k]) && !cmp(c[k], x) {
      assert cmp(c[j], x);
      assert !cmp(c[j], c[k]) && !cmp(c[k], c[j]);
    }
  }

  lemma ReplaceChain<E(!new)>(c: seq<E>, j: nat, x: E)
    requires j < |c| && forall k :: 0 <= k < |c| && k != j ==> c[k] != c[j]
    ensures Chain(c[j := x]) == Chain(c) - {c[j]} + {x}
  {
    var d := c[j := x];
    forall y ensures y in Chain(d) <==> y == x || (y in Chain(c) && y != c[j]) {
      assert d[j] == x;
      if y in d && y != x {
        var k :| 0 <= k < |d| && d[k] == y;
        assert c[k] == y;
      }
      if y in c && y != c[j] {
        var k :| 0 <= k < |c| && c[k] == y;
        assert d[k] == y;
      }
    }
  }

  lemma ReplacedSize<E(!new)>(cmp: (E, E) -> bool, hash: E -> nat, b: seq<seq<E>>, m: E, x: E)
    requires Table(cmp, hash, b) && m in Elements(b) && cmp(x, m)
    ensures |Elements(b) - {m} + {x}| == |Elements(b)| && (x in Elements(b) ==> x == m)
  {
    if x in Elements(b) { Representatives(cmp, hash, b, x, m); }
  }

  /** A member taken out of its chain. */
  lemma TakenOut<E(!new)>(cmp: (E, E) -> bool, hash: E -> nat, b: seq<seq<E>>, h: nat, j: nat)
    requires Table(cmp, hash, b) && h < |b| && j < |b[h]|
    ensures var b' := b[h := b[h][..j] + b[h][j + 1..]];
            && Table(cmp, hash, b') && Elements(b') == Elements(b) - {b[h][j]} && |Elements(b')| == |Elements(b)| - 1
  {
    var m, c := b[h][j], b[h][..j] + b[h][j + 1..];
    assert NoTwins(cmp, b[h]);
    assert m in b[h] && m in Elements(b);
    assert forall k :: 0 <= k < j ==> c[k] == b[h][k];
    assert forall k :: j <= k < |c| ==> c[k] == b[h][k + 1];
    assert NoTwins(cmp, c);
    ChainOnce(cmp, hash, b[h], j);
    assert forall k :: 0 <= k < |c| ==> Slot(hash, c[k], |b|) == h;
    assert m in Chain(b[h]);
    hide *;
    CutChain(b[h], j, c);
    ChainChanged(cmp, hash, b, h, c);
    TakeFrom(Elements(b), Chain(b[h]), m);
  }

  lemma TakeFrom<E>(all: set<E>, part: set<E>, m: E)
    requires part <= all && m in part
    ensures (all - part) + (part - {m}) == all - {m} && |all - {m}| == |all| - 1
  {
  }

  lemma CutChain<E(!new)>(c: seq<E>, j: nat, d: seq<E>)
    requires j < |c| && d == c[..j] + c[j + 1..] && forall k :: 0 <= k < |c| && k != j ==> c[k] != c[j]
    ensures Chain(d) == Chain(c) - {c[j]}
  {
    assert forall k :: 0 <= k < j ==> d[k] == c[k];
    assert forall k :: j <= k < |d| ==> d[k] == c[k + 1];
    forall y ensures y in Chain(d) <==> y in Chain(c) && y != c[j] {
      if y in d {
        var k :| 0 <= k < |d| && d[k] == y;
        assert c[if k < j then k else k + 1] == y;
      }
      if y in c && y != c[j] {
        var k :| 0 <= k < |c| && c[k] == y;
        assert d[if k < j then k else k - 1] == y;
      }
    }
  }

  lemma EmptyTable<E(!new)>(cmp: (E, E) -> bool, hash: E -> nat, b: seq<seq<E>>)
    requires Respects(cmp, hash) && |b| > 0 && forall i :: 0 <= i < |b| ==> b[i] == []
    ensures Table(cmp, hash, b) && Elements(b) == {}
  {
  }

  /** The bucket counts Set_new chooses from. */
  const SIZES: seq<nat> := [509, 509, 1021, 2053, 4093, 8191, 16381, 32771, 65521, 0x7FFF_FFFF]

  /** size is the largest bucket count below hint, or 509. */
  predicate SizedFor(size: nat, hint: nat)
  {
    && size in SIZES
    && if hint <= 509 then size == 509 else size < hint && forall p :: p in SIZES && p < hint ==> p <= size
  }

  class HashSet<E(!new)> {
    var length: nat
    var timestamp: nat
    const cmp: (E, E) -> bool
    const hash: E -> nat
    const buckets: array<seq<E>>

    ghost predicate Valid()
      reads this, buckets
    {
      && Table(cmp, hash, buckets[..]) && length == |Members()| && buckets.Length <= 65521
    }

    ghost function Members(): set<E>
      reads this, buckets
    {
      Elements(buckets[..])
    }

    /** x is in the set, up to cmp. */
    ghost predicate Has(x: E)
      reads this, buckets
    {
      In(cmp, x, Members())
    }

    /** Set_new.  hint is an int, so the loop ends at INT_MAX at the latest. */
    constructor (hint: nat, cmp: (E, E) -> bool, hash: E -> nat)
      requires Respects(cmp, hash) && hint <= 0x7FFF_FFFF
      ensures Valid() && fresh(buckets) && Members() == {} && this.cmp == cmp && this.hash == hash
      ensures SizedFor(buckets.Length, hint) && timestamp == 0
    {
      var i := 1;
      while SIZES[i] < hint
        invariant 1 <= i < |SIZES|
        invariant i > 1 ==> SIZES[i - 1] < hint
        invariant forall k :: 0 <= k < i ==> SIZES[k] <= SIZES[i - 1]
        decreases |SIZES| - i
      {
        i := i + 1;
      }
      this.cmp, this.hash, length, timestamp := cmp, hash, 0, 0;
      buckets := new seq<E>[SIZES[i - 1]](_ => []);
      new;
      EmptyTable(cmp, hash, buckets[..]);
    }

    /** <search set for member>: where in its chain x is, or the length of the chain. */
    method Search(x: E) returns (h: nat, j: nat)
      requires Valid()
      ensures h == Slot(hash, x, buckets.Length) && j <= |buckets[h]|
      ensures if Has(x) then j < |buckets[h]| && cmp(x, buckets[h][j]) else j == |buckets[h]|
    {
      h := hash(x) % buckets.Length;
      j := 0;
      while j < |buckets[h]| && !cmp(x, buckets[h][j])
        invariant j <= |buckets[h]|
        invariant forall k :: 0 <= k < j ==> !cmp(x, buckets[h][k])
      {
        j := j + 1;
      }
      OneChain(cmp, hash, buckets[..], x);
    }

    /** Set_member. */
    method Member(x: E) returns (r: bool)
      requires Valid()
      ensures r <==> Has(x)
    {
      var h, j := Search(x);
      r := j < |buckets[h]|;
    }

    /** <add member to set>, which several functions do without looking whether it is there. */
    method Add(x: E)
      requires Valid() && !Has(x)
      modifies this`length, buckets
      ensures Valid() && Members() == old(Members()) + {x}
    {
      Prepended(cmp, hash, buckets[..], x);
      var i := hash(x) % buckets.Length;
      ghost var b := buckets[..];
      buckets[i] := [x] + buckets[i];
      assert buckets[..] == b[i := [x] + b[i]];
      length := length + 1;
    }

    /** Set_put: x takes the place of an equivalent member. */
    method Put(x: E)
      requires Valid()
      modifies this`length, this`timestamp, buckets
      ensures Valid() && timestamp == old(timestamp) + 1
      ensures forall m :: m in Members() <==> m == x || (m in old(Members()) && !cmp(x, m))
      ensures length == old(length) + if old(Has(x)) then 0 else 1
    {
      var h, j := Search(x);
      if j == |buckets[h]| {
        Add(x);
      } else {
        ghost var b, m := buckets[..], buckets[h][j];
        Replaced(cmp, hash, b, h, j, x);
        buckets[h] := buckets[h][j := x];
        assert buckets[..] == b[h := b[h][j := x]];
      }
      timestamp := timestamp + 1;
    }

    /** Set_remove. */
    method Remove(x: E) returns (r: Option<E>)
      requires Valid()
      modifies this`length, this`timestamp, buckets
      ensures Valid() && timestamp == old(timestamp) + 1
      ensures if old(Has(x)) then r.Some? && r.value in old(Members()) && cmp(x, r.value)
          && Members() == old(Members()) - {r.value} && !Has(x)
              else r == None && Members() == old(Members())
    {
      timestamp := timestamp + 1;
      var h, j := Search(x);
      if j < |buckets[h]| {
        ghost var b := buckets[..];
        TakenOut(cmp, hash, b, h, j);
        r := Some(buckets[h][j]);
        buckets[h] := buckets[h][..j] + buckets[h][j + 1..];
        assert buckets[..] == b[h := b[h][..j] + b[h][j + 1..]];
        length := length - 1;
      } else {
        r := None;
      }
    }

    /** The inner loop of AddThose, over chain i of t. */
    method AddFrom(t: HashSet<E>, i: nat, s: HashSet<E>, wanted: bool, ghost was: set<E>)
      requires Valid() && t.Valid() && s.Valid() && Alike(t, this) && Alike(s, this) && i < t.buckets.Length
      requires this != t && this != s && buckets != t.buckets && buckets != s.buckets
      requires forall q, m :: q in t.Members() && m in was && cmp(q, m) ==> s.Has(q) != wanted
      requires Members() == was + Those(Visited(t.buckets[..], i, 0), cmp, s.Members(), wanted)
      modifies this`length, buckets
      ensures Valid() && Members() == was + Those(Visited(t.buckets[..], i, |t.buckets[i]|), cmp, s.Members(), wanted)
    {
      hide Elements, In, Those, Visited, Table, Slot;
      ghost var b, all, sm := t.buckets[..], t.Members(), s.Members();
      var j := 0;
      while j < |t.buckets[i]|
        invariant j <= |t.buckets[i]| && Valid() && t.buckets[..] == b && s.Members() == sm
        invariant Members() == was + Those(Visited(b, i, j), cmp, sm, wanted)
      {
        var q := t.buckets[i][j];
        VisitedNext(t.cmp, t.hash, b, i, j);
        var r := s.Member(q);
        NotYet(cmp, q, was, Visited(b, i, j), all, sm, wanted);
        if r == wanted {
          Add(q);
        }
        ThoseNext(Visited(b, i, j), q, cmp, sm, wanted);
        j := j + 1;
      }
    }

    /** <for each member q in t> if (Set_member(s, q->member) == wanted) <add q->member to set>. */
    method AddThose(t: HashSet<E>, s: HashSet<E>, wanted: bool)
      requires Valid() && t.Valid() && s.Valid() && Alike(t, this) && Alike(s, this)
      requires this != t && this != s && buckets != t.buckets && buckets != s.buckets
      requires forall q, m :: q in t.Members() && m in Members() && cmp(q, m) ==> s.Has(q) != wanted
      modifies this`length, buckets
      ensures Valid() && Members() == old(Members()) + Those(t.Members(), cmp, s.Members(), wanted)
    {
      hide Elements, In, Those, Visited, Table, Slot;
      ghost var b, sm := t.buckets[..], s.Members();
      var i := 0;
      ElementsNone(b);
      ThoseNone(cmp, sm, wanted);
      while i < t.buckets.Length
        invariant i <= t.buckets.Length && Valid() && t.buckets[..] == b && s.Members() == sm
        invariant Members() == old(Members()) + Those(Elements(b[..i]), cmp, sm, wanted)
      {
        VisitedStart(b, i);
        AddFrom(t, i, s, wanted, old(Members()));
        VisitedEnd(b, i);
        i := i + 1;
      }
      assert b[..i] == b;
    }

    /** The inner loop of Copy, over chain i of t. */
    method CopyFrom(t: HashSet<E>, i: nat)
      requires Valid() && t.Valid() && Alike(t, this) && i < t.buckets.Length
      requires this != t && buckets != t.buckets && Members() == Visited(t.buckets[..], i, 0)
      modifies this`length, buckets
      ensures Valid() && Members() == Visited(t.buckets[..], i, |t.buckets[i]|)
    {
      hide Elements, Visited, Table, Slot;
      ghost var b := t.buckets[..];
      var j := 0;
      while j < |t.buckets[i]|
        invariant j <= |t.buckets[i]| && Valid() && t.buckets[..] == b && Members() == Visited(b, i, j)
      {
        VisitedNext(t.cmp, t.hash, b, i, j);
        Add(t.buckets[i][j]);
        j := j + 1;
      }
    }

    /** The loop of Union. */
    method PutAll(t: HashSet<E>)
      requires Valid() && t.Valid() && Alike(t, this) && this != t && buckets != t.buckets
      modifies this`length, this`timestamp, buckets
      ensures Valid() && Members() == Merged(old(Members()), cmp, t.Members())
    {
      hide Elements, Visited, Table, Slot, In, Merged;
      ghost var b, first := t.buckets[..], Members();
      var i := 0;
      ElementsNone(b);
      MergedNone(first, cmp);
      while i < t.buckets.Length
        invariant i <= t.buckets.Length && Valid() && t.buckets[..] == b
            && Members() == Merged(first, cmp, Elements(b[..i]))
      {
        VisitedStart(b, i);
        PutFrom(t, i, first);
        VisitedEnd(b, i);
        i := i + 1;
      }
      assert b[..i] == b;
    }

    /** The inner loop of PutAll, over chain i of t; `first` are the members of the other operand. */
    method PutFrom(t: HashSet<E>, i: nat, ghost first: set<E>)
      requires Valid() && t.Valid() && Alike(t, this) && i < t.buckets.Length
      requires this != t && buckets != t.buckets && Members() == Merged(first, cmp, Visited(t.buckets[..], i, 0))
      modifies this`length, this`timestamp, buckets
      ensures Valid() && Members() == Merged(first, cmp, Visited(t.buckets[..], i, |t.buckets[i]|))
    {
      hide Elements, Visited, Table, Slot, In, Merged;
      ghost var b := t.buckets[..];
      var j := 0;
      while j < |t.buckets[i]|
        invariant j <= |t.buckets[i]| && Valid() && t.buckets[..] == b
            && Members() == Merged(first, cmp, Visited(b, i, j))
      {
        var q := t.buckets[i][j];
        VisitedNext(t.cmp, t.hash, b, i, j);
        MergedNext(cmp, hash, first, Visited(b, i, j), q) by { TableRespects(t.cmp, t.hash, b); }
        Put(q);
        j := j + 1;
      }
    }
  }

  /** Two sets of the same client. */
  ghost predicate Alike<E(!new)>(s: HashSet<E>, t: HashSet<E>)
  {
    s.cmp == t.cmp && s.hash == t.hash
  }

  /** The members of t that are (or are not) in s up to cmp. */
  ghost function Those<E(!new)>(t: set<E>, cmp: (E, E) -> bool, s: set<E>, wanted: bool): set<E>
  {
    set q | q in t && In(cmp, q, s) == wanted
  }

  lemma ThoseNext<E(!new)>(t: set<E>, q: E, cmp: (E, E) -> bool, s: set<E>, wanted: bool)
    ensures Those(t + {q}, cmp, s, wanted) == Those(t, cmp, s, wanted) + if In(cmp, q, s) == wanted then {q} else {}
  {
    hide In;
  }

  /** The members before place j of chain i. */
  ghost function Visited<E(!new)>(b: seq<seq<E>>, i: nat, j: nat): set<E>
    requires i < |b| && j <= |b[i]|
  {
    Elements(b[..i]) + Chain(b[i][..j])
  }

  lemma ThoseNone<E(!new)>(cmp: (E, E) -> bool, s: set<E>, wanted: bool)
    ensures Those({}, cmp, s, wanted) == {}
  {
  }

  lemma VisitedStart<E(!new)>(b: seq<seq<E>>, i: nat)
    requires i < |b|
    ensures Visited(b, i, 0) == Elements(b[..i])
  {
  }

  lemma VisitedNext<E(!new)>(cmp: (E, E) -> bool, hash: E -> nat, b: seq<seq<E>>, i: nat, j: nat)
    requires Table(cmp, hash, b) && i < |b| && j < |b[i]|
    ensures Visited(b, i, j + 1) == Visited(b, i, j) + {b[i][j]}
    ensures b[i][j] !in Visited(b, i, j) && b[i][j] in Elements(b) && Visited(b, i, j) <= Elements(b)
    ensures forall m :: m in Visited(b, i, j) ==> !cmp(b[i][j], m)
  {
    var q := b[i][j];
    assert b[i][..j + 1] == b[i][..j] + [q];
    AppendChain(b[i][..j], q);
    forall m | m in Visited(b, i, j) ensures m in Elements(b) {
      if m in Elements(b[..i]) {
        var k :| 0 <= k < i && m in b[..i][k];
        assert m in b[k];
      } else {
        assert m in b[i];
      }
    }
    assert q in b[i];
    OwnChain(cmp, hash, b, i, q);
    ChainOnce(cmp, hash, b[i], j);
    assert q !in b[i][..j];
    assert q !in Visited(b, i, j);
    forall m | m in Visited(b, i, j) ensures !cmp(q, m) {
      if cmp(q, m) { Representatives(cmp, hash, b, q, m); }
    }
  }

  lemma VisitedEnd<E(!new)>(b: seq<seq<E>>, i: nat)
    requires i < |b|
    ensures Visited(b, i, |b[i]|) == Elements(b[..i + 1])
  {
    assert b[i][..|b[i]|] == b[i] && b[..i + 1] == b[..i] + [b[i]];
    ElementsAppend(b[..i], b[i]);
  }

  lemma ElementsAppend<E(!new)>(b: seq<seq<E>>, c: seq<E>)
    ensures Elements(b + [c]) == Elements(b) + Chain(c)
  {
    var d := b + [c];
    forall m ensures m in Elements(d) <==> m in Elements(b) || m in c {
      if m in Elements(b) {
        var i :| 0 <= i < |b| && m in b[i];
        assert m in d[i];
      }
      assert m in c ==> m in d[|b|];
    }
  }

  /** A member that is about to be added is not there. */
  lemma NotYet<E(!new)>(cmp: (E, E) -> bool, q: E, was: set<E>, visited: set<E>, all: set<E>, s: set<E>, wanted: bool)
    requires q in all && forall m :: m in visited ==> !cmp(q, m)
    requires forall x, m :: x in all && m in was && cmp(x, m) ==> In(cmp, x, s) != wanted
    ensures In(cmp, q, s) == wanted ==> !In(cmp, q, was + Those(visited, cmp, s, wanted))
  {
  }

  lemma TableRespects<E(!new)>(cmp: (E, E) -> bool, hash: E -> nat, b: seq<seq<E>>)
    requires Table(cmp, hash, b)
    ensures Respects(cmp, hash)
  {
  }

  /** The members of t, and those of s that are not in t up to cmp. */
  ghost function Merged<E(!new)>(s: set<E>, cmp: (E, E) -> bool, t: set<E>): set<E> { t + Those(s, cmp, t, false) }

  lemma MergedNone<E(!new)>(s: set<E>, cmp: (E, E) -> bool)
    ensures Merged(s, cmp, {}) == s
  {
  }

  lemma MergedNext<E(!new)>(cmp: (E, E) -> bool, hash: E -> nat, s: set<E>, t: set<E>, q: E)
    requires Respects(cmp, hash) && forall m :: m in t ==> !cmp(q, m)
    ensures forall m :: m in Merged(s, cmp, t + {q}) <==> m == q || (m in Merged(s, cmp, t) && !cmp(q, m))
  {
    forall m ensures In(cmp, m, t + {q}) <==> In(cmp, m, t) || cmp(q, m) {
      assert cmp(m, q) == cmp(q, m);
      assert q in t + {q};
    }
    assert cmp(q, q);
  }

  ghost function MembersOf<E(!new)>(s: HashSet?<E>): set<E>
    reads if s == null then {} else {s, s.buckets}
  {
    if s == null then {} else s.Members()
  }

  /** Two operands of one client; at least one is not null. */
  ghost predicate Operands<E(!new)>(s: HashSet?<E>, t: HashSet?<E>)
    reads if s == null then {} else {s, s.buckets}, if t == null then {} else {t, t.buckets}
  {
    && (s != null || t != null) && (s != null ==> s.Valid()) && (t != null ==> t.Valid())
    && (s != null && t != null ==> Alike(s, t))
  }

  /** The size of the operand that is there, or the smaller or larger of both. */
  function SizeOf<E(!new)>(s: HashSet?<E>, t: HashSet?<E>, larger: bool): nat
  {
    if s == null && t == null then 0
    else if s == null then t.buckets.Length
    else if t == null then s.buckets.Length
    else if larger then Max(s.buckets.Length, t.buckets.Length) else Min(s.buckets.Length, t.buckets.Length)
  }

  /** copy. */
  method Copy<E(!new)>(t: HashSet<E>, hint: nat) returns (r: HashSet<E>)
    requires t.Valid() && hint <= 65521
    ensures fresh(r) && fresh(r.buckets) && r.Valid() && Alike(r, t) && r.Members() == t.Members()
    ensures SizedFor(r.buckets.Length, hint)
  {
    r := new HashSet(hint, t.cmp, t.hash) by { TableRespects(t.cmp, t.hash, t.buckets[..]); }
    hide Elements, Visited, Table, Slot;
    ghost var b := t.buckets[..];
    var i := 0;
    ElementsNone(b);
    while i < t.buckets.Length
      invariant i <= t.buckets.Length && r.Valid() && t.Valid() && t.buckets[..] == b && r.Members() == Elements(b[..i])
    {
      VisitedStart(b, i);
      r.CopyFrom(t, i);
      VisitedEnd(b, i);
      i := i + 1;
    }
    assert b[..i] == b;
  }

  lemma ElementsNone<E(!new)>(b: seq<seq<E>>)
    ensures Elements(b[..0]) == {}
  {
  }

  /** Set_minus(t, s).  (The operands are in this order.) */
  method Minus<E(!new)>(t: HashSet?<E>, s: HashSet?<E>) returns (r: HashSet<E>)
    requires Operands(s, t)
    ensures fresh(r) && fresh(r.buckets) && r.Valid() && (s != null ==> Alike(r, s)) && (t != null ==> Alike(r, t))
    ensures SizedFor(r.buckets.Length, SizeOf(s, t, false))
    ensures r.Members() == Those(MembersOf(t), r.cmp, MembersOf(s), false)
  {
    if t == null {
      r := Empty(s, s.buckets.Length);
      ThoseNone(r.cmp, s.Members(), false);
    } else if s == null {
      r := Copy(t, t.buckets.Length);
      ThoseAll(t.Members(), r.cmp);
    } else {
      r := Empty(s, Min(s.buckets.Length, t.buckets.Length));
      r.AddThose(t, s, false);
    }
  }

  /** Set_inter: the members come from the operand with fewer.  Line 179 of the source has kept
      the negation of Set_minus; intersection is meant. */
  method Inter<E(!new)>(s: HashSet?<E>, t: HashSet?<E>) returns (r: HashSet<E>)
    requires Operands(s, t)
    ensures fresh(r) && fresh(r.buckets) && r.Valid() && (s != null ==> Alike(r, s)) && (t != null ==> Alike(r, t))
    ensures SizedFor(r.buckets.Length, SizeOf(s, t, false))
    ensures r.Members() == if s != null && t != null
        && s.length < t.length then Those(s.Members(), r.cmp, t.Members(), true)
                           else Those(MembersOf(t), r.cmp, MembersOf(s), true)
    decreases if s != null && t != null && s.length < t.length then 1 else 0
  {
    if s == null {
      r := Empty(t, t.buckets.Length);
      ThoseNobody(t.Members(), r.cmp);
    } else if t == null {
      r := Empty(s, s.buckets.Length);
      ThoseNone(r.cmp, s.Members(), true);
    } else if s.length < t.length {
      r := Inter(t, s);
    } else {
      r := Empty(s, Min(s.buckets.Length, t.buckets.Length));
      r.AddThose(t, s, true);
    }
  }

  /** Set_diff: what is in one and not in the other. */
  method Diff<E(!new)>(s: HashSet?<E>, t: HashSet?<E>) returns (r: HashSet<E>)
    requires Operands(s, t)
    ensures fresh(r) && fresh(r.buckets) && r.Valid() && (s != null ==> Alike(r, s)) && (t != null ==> Alike(r, t))
    ensures SizedFor(r.buckets.Length, SizeOf(s, t, false))
    ensures r.Members() == Those(MembersOf(t), r.cmp, MembersOf(s), false) + Those(MembersOf(s), r.cmp, MembersOf(t),
        false)
  {
    hide Elements, In, Those, Table, Slot, Respects;
    if s == null {
      r := Copy(t, t.buckets.Length);
      ThoseAll(t.Members(), r.cmp);
      ThoseNone(r.cmp, t.Members(), false);
    } else if t == null {
      r := Copy(s, s.buckets.Length);
      ThoseAll(s.Members(), r.cmp);
      ThoseNone(r.cmp, s.Members(), false);
    } else {
      r := Empty(s, Min(s.buckets.Length, t.buckets.Length));
      r.AddThose(t, s, false);
      OtherHalf(r.cmp, r.hash, s.Members(), t.Members()) by { TableRespects(s.cmp, s.hash, s.buckets[..]); }
      r.AddThose(s, t, false);
    }
  }

  /** Set_union: of two equivalent members it keeps the one from t. */
  method Union<E(!new)>(s: HashSet?<E>, t: HashSet?<E>) returns (r: HashSet<E>)
    requires Operands(s, t)
    ensures fresh(r) && fresh(r.buckets) && r.Valid() && (s != null ==> Alike(r, s)) && (t != null ==> Alike(r, t))
    ensures SizedFor(r.buckets.Length, SizeOf(s, t, true))
    ensures r.Members() == Merged(MembersOf(s), r.cmp, MembersOf(t))
  {
    hide Elements, In, Those, Table, Slot, Respects;
    if s == null {
      r := Copy(t, t.buckets.Length);
      ThoseNone(r.cmp, t.Members(), false);
    } else if t == null {
      r := Copy(s, s.buckets.Length);
      ThoseAll(s.Members(), r.cmp);
    } else {
      r := Copy(s, Max(s.buckets.Length, t.buckets.Length));
      r.PutAll(t);
    }
  }

  method Empty<E(!new)>(s: HashSet<E>, hint: nat) returns (r: HashSet<E>)
    requires s.Valid() && hint <= 65521
    ensures fresh(r) && fresh(r.buckets) && r.Valid() && Alike(r, s) && r.Members() == {}
    ensures SizedFor(r.buckets.Length, hint)
  {
    r := new HashSet(hint, s.cmp, s.hash) by { TableRespects(s.cmp, s.hash, s.buckets[..]); }
  }

  /** Nobody is in the empty set. */
  lemma ThoseAll<E(!new)>(t: set<E>, cmp: (E, E) -> bool)
    ensures Those(t, cmp, {}, false) == t
  {
  }

  lemma ThoseNobody<E(!new)>(t: set<E>, cmp: (E, E) -> bool)
    ensures Those(t, cmp, {}, true) == {}
  {
  }

  /** After the first loop of Set_diff nothing in the result is equivalent to what the second adds. */
  lemma OtherHalf<E(!new)>(cmp: (E, E) -> bool, hash: E -> nat, s: set<E>, t: set<E>)
    requires Respects(cmp, hash)
    ensures forall q, m :: q in s && m in Those(t, cmp, s, false) && cmp(q, m) ==> In(cmp, q, t)
  {
    forall q, m | q in s && m in Those(t, cmp, s, false) && cmp(q, m) ensures In(cmp, q, t) {
    }
  }

  // ---------------------------------------------------------------- membership and cardinality

  /** What the operations promise, up to cmp. */
  lemma Memberships<E(!new)>(cmp: (E, E) -> bool, hash: E -> nat, s: set<E>, t: set<E>, x: E)
    requires Respects(cmp, hash)
    ensures In(cmp, x, Merged(s, cmp, t)) <==> In(cmp, x, s) || In(cmp, x, t)
    ensures In(cmp, x, Those(t, cmp, s, true)) <==> In(cmp, x, s) && In(cmp, x, t)
    ensures In(cmp, x, Those(t, cmp, s, false)) <==> In(cmp, x, t) && !In(cmp, x, s)
    ensures In(cmp, x, Those(t, cmp, s, false) + Those(s, cmp, t, false)) <==> In(cmp, x, t) != In(cmp, x, s)
  {
    ThoseMembership(cmp, hash, s, t, x, true);
    ThoseMembership(cmp, hash, s, t, x, false);
    ThoseMembership(cmp, hash, t, s, x, false);
    InEither(cmp, x, t, Those(s, cmp, t, false));
    InEither(cmp, x, Those(t, cmp, s, false), Those(s, cmp, t, false));
  }

  /** Of equivalent members a union keeps those of t; what the others keep are members of t too. */
  lemma WhoseMembers<E(!new)>(cmp: (E, E) -> bool, s: set<E>, t: set<E>, wanted: bool)
    ensures t <= Merged(s, cmp, t) && Those(t, cmp, s, wanted) <= t
    ensures forall m :: m in Merged(s, cmp, t) && m !in t ==> m in s && !In(cmp, m, t)
  {
  }

  lemma InEither<E(!new)>(cmp: (E, E) -> bool, x: E, a: set<E>, b: set<E>)
    ensures In(cmp, x, a + b) <==> In(cmp, x, a) || In(cmp, x, b)
  {
    if In(cmp, x, a) { var m :| m in a && cmp(x, m); assert m in a + b; }
    if In(cmp, x, b) { var m :| m in b && cmp(x, m); assert m in a + b; }
  }

  lemma ThoseMembership<E(!new)>(cmp: (E, E) -> bool, hash: E -> nat, s: set<E>, t: set<E>, x: E, wanted: bool)
    requires Respects(cmp, hash)
    ensures In(cmp, x, Those(t, cmp, s, wanted)) <==> In(cmp, x, t) && In(cmp, x, s) == wanted
  {
    if m :| m in t && cmp(x, m) {
      Equivalents(cmp, hash, x, m, s);
      forall n | n in t && cmp(x, n) ensures In(cmp, n, s) == In(cmp, x, s) { Equivalents(cmp, hash, x, n, s); }
    }
  }

  lemma Equivalents<E(!new)>(cmp: (E, E) -> bool, hash: E -> nat, x: E, y: E, s: set<E>)
    requires Respects(cmp, hash) && cmp(x, y)
    ensures In(cmp, x, s) == In(cmp, y, s)
  {
    forall m | m in s ensures cmp(x, m) == cmp(y, m) { assert cmp(y, x); }
  }

  /** No two members are equivalent, as in every table. */
  ghost predicate Inequivalent<E(!new)>(cmp: (E, E) -> bool, s: set<E>)
  {
    forall m, n :: m in s && n in s && cmp(m, n) ==> m == n
  }

  /** Sets with the same members up to cmp are equally large: length is the cardinality. */
  lemma {:induction false} SameSize<E(!new)>(cmp: (E, E) -> bool, hash: E -> nat, s: set<E>, t: set<E>)
    requires Respects(cmp, hash) && Inequivalent(cmp, s) && Inequivalent(cmp, t)
    requires (forall m :: m in s ==> In(cmp, m, t)) && (forall n :: n in t ==> In(cmp, n, s))
    ensures |s| == |t|
  {
    hide In, Respects, Inequivalent;
    if s == {} {
      Nobody(cmp, t);
    } else {
      var m :| m in s;
      var n := Partner(cmp, hash, m, t);
      OneFewer(cmp, hash, s, t, m, n);
      OneFewer(cmp, hash, t, s, n, m);
      SameSize(cmp, hash, s - {m}, t - {n});
    }
  }

  lemma Nobody<E(!new)>(cmp: (E, E) -> bool, t: set<E>)
    requires forall n :: n in t ==> In(cmp, n, {})
    ensures t == {}
  {
  }

  lemma Partner<E(!new)>(cmp: (E, E) -> bool, hash: E -> nat, m: E, t: set<E>) returns (n: E)
    requires Respects(cmp, hash) && In(cmp, m, t)
    ensures n in t && cmp(m, n) && cmp(n, m)
  {
    n :| n in t && cmp(m, n);
  }

  lemma OneFewer<E(!new)>(cmp: (E, E) -> bool, hash: E -> nat, s: set<E>, t: set<E>, m: E, n: E)
    requires Respects(cmp, hash) && Inequivalent(cmp, s) && m in s && n in t && cmp(m, n)
    requires forall x :: x in s ==> In(cmp, x, t)
    ensures Inequivalent(cmp, s - {m}) && forall x :: x in s - {m} ==> In(cmp, x, t - {n})
  {
    assert cmp(n, m);
    forall x | x in s - {m} ensures In(cmp, x, t - {n}) {
      var y := Partner(cmp, hash, x, t);
      assert cmp(x, n) ==> cmp(x, m);
      assert y in t - {n};
    }
  }

  /** The sizes of union, intersection and difference fit together. */
  lemma Sizes<E(!new)>(cmp: (E, E) -> bool, hash: E -> nat, s: set<E>, t: set<E>)
    requires Respects(cmp, hash) && Inequivalent(cmp, s) && Inequivalent(cmp, t)
    ensures |Merged(s, cmp, t)| + |Those(t, cmp, s, true)| == |s| + |t|
    ensures |Those(t, cmp, s, false) + Those(s, cmp, t, false)| + 2 * |Those(t, cmp, s, true)| == |s| + |t|
    ensures |Those(t, cmp, s, true)| == |Those(s, cmp, t, true)|
  {
    Halves(cmp, hash, s, t);
    Halves(cmp, hash, t, s);
    forall m | m in Those(s, cmp, t, true) ensures In(cmp, m, Those(t, cmp, s, true)) { Paired(cmp, hash, s, t, m); }
    forall m | m in Those(t, cmp, s, true) ensures In(cmp, m, Those(s, cmp, t, true)) { Paired(cmp, hash, t, s, m); }
    SameSize(cmp, hash, Those(s, cmp, t, true), Those(t, cmp, s, true));
    assert t !! Those(s, cmp, t, false) by {
      forall m | m in t ensures In(cmp, m, t) { assert cmp(m, m); }
    }
  }

  lemma Halves<E(!new)>(cmp: (E, E) -> bool, hash: E -> nat, s: set<E>, t: set<E>)
    ensures |Those(t, cmp, s, true)| + |Those(t, cmp, s, false)| == |t|
    ensures Those(t, cmp, s, true) <= t && Those(t, cmp, s, false) <= t
  {
    hide In;
    assert Those(t, cmp, s, true) + Those(t, cmp, s, false) == t;
    assert Those(t, cmp, s, true) !! Those(t, cmp, s, false);
  }

  lemma Paired<E(!new)>(cmp: (E, E) -> bool, hash: E -> nat, s: set<E>, t: set<E>, m: E)
    requires Respects(cmp, hash) && m in Those(s, cmp, t, true)
    ensures In(cmp, m, Those(t, cmp, s, true))
  {
    var n :| n in t && cmp(m, n);
    assert cmp(n, m);
    assert In(cmp, n, s);
  }
}

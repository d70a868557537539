/** atom.c: unique copies of byte sequences, kept in a hash table of chains.

    An Atom object stands for the pointer the client gets; its fields never change once it is
    made, so its chain is there for good.  The scatter table is left open: any 256 numbers do. */
module Atoms {
  import opened Machine
  import opened Numerals

  const BUCKETS: nat := 2048

  class Atom {
    const link: Atom?
    const len: nat
    /** The copy with the null character that Atom_new puts behind it. */
    const str: seq<byte>

    constructor (link: Atom?, len: nat, str: seq<byte>)
      ensures this.link == link && this.len == len && this.str == str
    {
      this.link, this.len, this.str := link, len, str;
    }

    predicate WellMade() { |str| == len + 1 && str[len] == 0 }

    /** The bytes of the atom. */
    function Text(): seq<byte>
      requires WellMade()
    {
      str[..len]
    }
  }

  /** The hash value as the loop computes it, before the remainder is taken; unsigned long has
      some number of values that 2048 divides. */
  function Scattered(scatter: seq<nat>, word: nat, str: seq<byte>): (h: nat)
    requires |scatter| == 256 && word > 0
    ensures h < word
  {
    if str == [] then 0 else (2 * Scattered(scatter, word, str[..|str| - 1]) + scatter[str[|str| - 1]]) % word
  }

  /** p is the head of the chain c. */
  ghost predicate Chain(p: Atom?, c: seq<Atom>)
  {
    if c == [] then p == null else p == c[0] && Chain(c[0].link, c[1..])
  }

  lemma {:induction false} ChainAt(p: Atom?, c: seq<Atom>, i: nat)
    requires Chain(p, c) && i <= |c|
    ensures Chain(if i == |c| then null else c[i], c[i..])
    ensures i < |c| ==> c[i].link == if i + 1 == |c| then null else c[i + 1]
  {
    if i > 0 {
      ChainAt(c[0].link, c[1..], i - 1);
      assert c[1..][i - 1..] == c[i..];
    } else if |c| > 1 {
      assert c[1..][0] == c[1];
    }
  }

  predicate Scatters(scatter: seq<nat>, word: nat) { |scatter| == 256 && word > 0 && word % BUCKETS == 0 }

  function Hash(scatter: seq<nat>, word: nat, str: seq<byte>): (h: nat)
    requires Scatters(scatter, word)
    ensures h < BUCKETS
  {
    Scattered(scatter, word, str) % BUCKETS
  }

  ghost predicate Linked(b: seq<Atom?>, c: seq<seq<Atom>>)
  {
    |b| == BUCKETS == |c| && forall h :: 0 <= h < BUCKETS ==> Chain(b[h], c[h])
  }

  /** Every atom is in the chain of its hash value, and no two in a chain are equal. */
  ghost predicate Placed(scatter: seq<nat>, word: nat, c: seq<seq<Atom>>)
  {
    && Scatters(scatter, word)
    && (forall h, i ::
         0 <= h < |c| && 0 <= i < |c[h]| ==> c[h][i].WellMade() && Hash(scatter, word, c[h][i].Text()) == h)
    && (forall h, i, j :: 0 <= h < |c| && 0 <= i < j < |c[h]| ==> c[h][i].Text() != c[h][j].Text())
  }

  ghost function Members(c: seq<seq<Atom>>): set<Atom>
  {
    set h, i | 0 <= h < |c| && 0 <= i < |c[h]| :: c[h][i]
  }

  lemma LinkedHas(b: seq<Atom?>, c: seq<seq<Atom>>)
    requires Linked(b, c)
    ensures |b| == |c| == BUCKETS
  {
  }

  /** Two atoms with the same bytes are the same atom. */
  lemma SameText(scatter: seq<nat>, word: nat, c: seq<seq<Atom>>, a: Atom, b: Atom)
    requires Placed(scatter, word, c) && a in Members(c) && b in Members(c)
    ensures a.WellMade() && b.WellMade() && (a.Text() == b.Text() <==> a == b)
  {
    var h, i :| 0 <= h < |c| && 0 <= i < |c[h]| && c[h][i] == a;
    var g, j :| 0 <= g < |c| && 0 <= j < |c[g]| && c[g][j] == b;
    assert Hash(scatter, word, c[h][i].Text()) == h && Hash(scatter, word, c[g][j].Text()) == g;
    if a.Text() == b.Text() {
      assert g == h;
    }
  }

  /** A new atom in front of its chain. */
  lemma Added(scatter: seq<nat>, word: nat, b: seq<Atom?>, c: seq<seq<Atom>>, h: nat, p: Atom)
    requires Linked(b, c) && Placed(scatter, word, c) && h < BUCKETS
    requires p.WellMade() && Hash(scatter, word, p.Text()) == h && p.link == b[h]
    requires forall i :: 0 <= i < |c[h]| ==> c[h][i].Text() != p.Text()
    ensures Linked(b[h := p], c[h := [p] + c[h]]) && Placed(scatter, word, c[h := [p] + c[h]])
    ensures Members(c[h := [p] + c[h]]) == Members(c) + {p}
  {
    var d := c[h := [p] + c[h]];
    hide Hash;
    assert d[h][1..] == c[h];
    assert forall i :: 0 < i < |d[h]| ==> d[h][i] == c[h][i - 1];
    assert d[h][0] == p;
    forall a ensures a in Members(d) <==> a in Members(c) || a == p {
      if a in Members(c) {
        var g, i :| 0 <= g < |c| && 0 <= i < |c[g]| && c[g][i] == a;
        assert d[g][if g == h then i + 1 else i] == a;
      }
      if a in Members(d) && a != p {
        var g, i :| 0 <= g < |d| && 0 <= i < |d[g]| && d[g][i] == a;
        assert c[g][if g == h then i - 1 else i] == a;
      }
    }
  }

  class AtomTable {
    const scatter: seq<nat>
    const word: nat
    const buckets: array<Atom?>
    ghost var chains: seq<seq<Atom>>

    ghost predicate Valid()
      reads this, buckets
    {
      Scatters(scatter, word) && Linked(buckets[..], chains) && Placed(scatter, word, chains)
    }

    /** All atoms. */
    ghost function All(): set<Atom>
      reads this
    {
      Members(chains)
    }

    constructor (scatter: seq<nat>, word: nat)
      requires Scatters(scatter, word)
      ensures Valid() && All() == {} && fresh(buckets)
    {
      this.scatter, this.word := scatter, word;
      buckets := new Atom?[BUCKETS](_ => null);
      chains := seq(BUCKETS, _ => []);
    }

    /** The loop of Atom_new that hashes str. */
    method HashOf(str: seq<byte>) returns (h: nat)
      requires Scatters(scatter, word)
      ensures h == Hash(scatter, word, str) < BUCKETS
    {
      h := 0;
      for i := 0 to |str|
        invariant h == Scattered(scatter, word, str[..i])
      {
        assert str[..i + 1][..i] == str[..i];
        h := (2 * h + scatter[str[i]]) % word;
      }
      assert str[..|str|] == str;
      h := h % BUCKETS;
    }

    /** The loop of Atom_new that looks for str in its chain. */
    method Find(h: nat, str: seq<byte>) returns (p: Atom?)
      requires Valid() && h < BUCKETS
      ensures if p == null then forall i :: 0 <= i < |chains[h]| ==> chains[h][i].Text() != str
              else p in All() && p.WellMade() && p.Text() == str
    {
      p := buckets[h];
      ghost var c, k := chains[h], 0;
      while p != null
        invariant k <= |c| && Chain(p, c[k..])
        invariant forall i :: 0 <= i < k ==> c[i].Text() != str
        decreases |c| - k
      {
        assert p == c[k] && c[k..][1..] == c[k + 1..];
        assert c[k].WellMade();
        if |str| == p.len {
          var i := 0;
          while i < |str| && p.str[i] == str[i]
            invariant i <= |str| && p.str[..i] == str[..i]
          {
            i := i + 1;
          }
          if i == |str| {
            return p;
          }
          assert p.Text()[i] != str[i];
        }
        p := p.link;
        k := k + 1;
      }
    }

    /** Atom_new: the bytes of str decide which atom it is, and no other atom changes. */
    method New(str: seq<byte>) returns (a: Atom)
      requires Valid()
      modifies this, buckets
      ensures Valid() && Interned(a, str)
      ensures All() == old(All()) + {a} && (fresh(a) || a in old(All()))
      ensures forall b :: b in old(All()) && b.WellMade() && b.Text() == str ==> a == b
    {
      hide Placed, Linked, Members;
      var h := HashOf(str);
      var q := Find(h, str);
      if q != null {
        forall b | b in All() && b.WellMade() && b.Text() == str ensures q == b {
          SameText(scatter, word, chains, q, b);
        }
        return q;
      }
      LinkedHas(buckets[..], chains);
      a := new Atom(buckets[h], |str|, str + [0]);
      assert a.Text() == str;
      Added(scatter, word, buckets[..], chains, h, a);
      ghost var b := buckets[..];
      buckets[h] := a;
      assert buckets[..] == b[h := a];
      chains := chains[h := [a] + chains[h]];
      forall b | b in old(All()) && b.WellMade() && b.Text() == str ensures a == b {
        SameText(scatter, word, chains, a, b);
      }
    }

    /** Atom_int: the atom of the decimal text, for every long; LONG_MIN is not negated. */
    method Int(n: int) returns (a: Atom)
      requires Valid() && -0x8000_0000_0000_0000 <= n < 0x8000_0000_0000_0000
      modifies this, buckets
      ensures Valid() && Interned(a, Decimal(n))
      ensures All() == old(All()) + {a} && (fresh(a) || a in old(All()))
      ensures forall b :: b in old(All()) && b.WellMade() && b.Text() == Decimal(n) ==> a == b
    {
      hide Placed, Linked, Members, Numeral;
      var m: nat;
      if n == -0x8000_0000_0000_0000 {
        m := 0x7FFF_FFFF_FFFF_FFFF + 1;
      } else if n < 0 {
        m := -n;
      } else {
        m := n;
      }
      var str := new byte[43];
      var s := Fill(m, 10, str);
      if n < 0 {
        ghost var digits := str[s..];
        s := s - 1;
        str[s] := MINUS;
        assert str[s..] == [MINUS] + digits;
      }
      a := New(str[s..]);
    }

    /** Atom_string: the bytes before the first null character. */
    method String(str: seq<byte>) returns (a: Atom)
      requires Valid() && 0 in str
      modifies this, buckets
      ensures Valid() && a in All() && a.WellMade()
      ensures a.Text() <= str && |a.Text()| < |str| && str[|a.Text()|] == 0 && 0 !in a.Text()
      ensures All() == old(All()) + {a} && (fresh(a) || a in old(All()))
      ensures forall b :: b in old(All()) && b.WellMade() && b.Text() == a.Text() ==> a == b
    {
      var n := 0;
      while str[n] != 0
        invariant n < |str| && 0 !in str[..n] && 0 in str[n..]
        decreases |str| - n
      {
        assert str[n..] == [str[n]] + str[n + 1..];
        assert str[..n + 1] == str[..n] + [str[n]];
        n := n + 1;
      }
      a := New(str[..n]);
    }

    /** a is the atom of the bytes str. */
    ghost predicate Interned(a: Atom, str: seq<byte>)
      reads this
    {
      a in All() && a.WellMade() && a.Text() == str
    }

    /** Atom_length: the search through all chains finds the atom. */
    method Length(a: Atom) returns (n: nat)
      requires Valid() && a in All() && a.WellMade()
      ensures n == |a.Text()|
    {
      for h := 0 to BUCKETS
        invariant forall g, i :: 0 <= g < h && 0 <= i < |chains[g]| ==> chains[g][i] != a
      {
        var p := buckets[h];
        ghost var k := 0;
        while p != null
          invariant k <= |chains[h]| && Chain(p, chains[h][k..])
          invariant forall i :: 0 <= i < k ==> chains[h][i] != a
          decreases |chains[h]| - k
        {
          assert p == chains[h][k] && chains[h][k..][1..] == chains[h][k + 1..];
          if p == a {
            return p.len;
          }
          p := p.link;
          k := k + 1;
        }
      }
      assert false;
    }
  }

  /** Atoms of integers, minus the smallest long included, are different for different integers;
      and they are the atoms of the texts. */
  lemma IntAtoms(scatter: seq<nat>, word: nat, c: seq<seq<Atom>>, a: Atom, b: Atom, m: int, n: int)
    requires Placed(scatter, word, c) && a in Members(c) && b in Members(c) && a.WellMade() && b.WellMade()
    requires a.Text() == Decimal(m) && b.Text() == Decimal(n)
    ensures a == b <==> m == n
  {
    SameText(scatter, word, c, a, b);
    if a == b { DecimalInjective(m, n); }
  }

  /** The chain does not depend on how wide unsigned long is. */
  lemma {:induction false} WidthDoesNotMatter(scatter: seq<nat>, v: nat, w: nat, str: seq<byte>)
    requires Scatters(scatter, v) && Scatters(scatter, w)
    ensures Hash(scatter, v, str) == Hash(scatter, w, str)
  {
    if str != [] {
      var rest, x := str[..|str| - 1], scatter[str[|str| - 1]];
      WidthDoesNotMatter(scatter, v, w, rest);
      var a, b := Scattered(scatter, v, rest), Scattered(scatter, w, rest);
      Wrap(2 * a + x, v);
      Wrap(2 * b + x, w);
      Even(a, b, x);
    }
  }

  /** One more byte doubles the hash value and adds what is scattered for the byte, all modulo the number
      of chains; the wrap-around of unsigned long does not show. */
  lemma HashGrows(scatter: seq<nat>, word: nat, str: seq<byte>, c: byte)
    requires Scatters(scatter, word)
    ensures Hash(scatter, word, []) == 0
    ensures Hash(scatter, word, str + [c]) == (2 * Hash(scatter, word, str) + scatter[c]) % BUCKETS
  {
    var a := Scattered(scatter, word, str);
    assert (str + [c])[..|str + [c]| - 1] == str;
    Wrap(2 * a + scatter[c], word);
    Even(a, a % BUCKETS, scatter[c]);
  }

  /** A number and what is left of it after wrapping have the same remainder. */
  lemma Wrap(x: nat, w: nat)
    requires w > 0 && w % BUCKETS == 0
    ensures x % w % BUCKETS == x % BUCKETS
  {
    var q, k := x / w, w / BUCKETS;
    Quotient(x, w);
    Quotient(w, BUCKETS);
    Regroup(q, k, w);
    Multiple(q * k, x % w);
  }

  lemma Quotient(x: nat, w: nat)
    requires w > 0
    ensures x == x / w * w + x % w
  {
  }

  lemma Regroup(q: nat, k: nat, w: nat)
    requires w == k * BUCKETS
    ensures q * w == q * k * BUCKETS
  {
  }

  lemma Multiple(m: nat, r: nat)
    ensures (m * BUCKETS + r) % BUCKETS == r % BUCKETS
  {
  }

  lemma Even(a: nat, b: nat, x: nat)
    requires a % BUCKETS == b % BUCKETS
    ensures (2 * a + x) % BUCKETS == (2 * b + x) % BUCKETS
  {
    var p, q, r := a / BUCKETS, b / BUCKETS, a % BUCKETS;
    assert a == p * BUCKETS + r && b == q * BUCKETS + r;
    assert 2 * a + x == (2 * p) * BUCKETS + (2 * r + x) && 2 * b + x == (2 * q) * BUCKETS + (2 * r + x);
    Multiple(2 * p, 2 * r + x);
    Multiple(2 * q, 2 * r + x);
  }
}

/** Prime numbers by trial division: the independent reference for the sieve. */
module Primes {
  ghost predicate IsPrime(x: int)
  {
    x >= 2 && forall d :: 2 <= d < x ==> x % d != 0
  }

  /** The primes up to m, ascending. */
  ghost function UpTo(m: int): seq<int>
    decreases m
  {
    if m < 2 then [] else UpTo(m - 1) + (if IsPrime(m) then [m] else [])
  }

  lemma {:induction false} UpToContains(m: int, p: int)
    ensures p in UpTo(m) <==> IsPrime(p) && p <= m
    decreases m
  {
    if m >= 2 {
      UpToContains(m - 1, p);
    }
  }

  lemma {:induction false} UpToAscending(m: int)
    ensures forall i, j :: 0 <= i < j < |UpTo(m)| ==> UpTo(m)[i] < UpTo(m)[j]
    decreases m
  {
    if m >= 2 {
      UpToAscending(m - 1);
      var ps := UpTo(m - 1);
      forall i | 0 <= i < |ps| ensures ps[i] < m {
        UpToContains(m - 1, ps[i]);
      }
    }
  }

  /** Passing over numbers that are not prime adds nothing. */
  lemma {:induction false} UpToSkips(a: int, b: int)
    requires a <= b && forall c :: a < c <= b ==> !IsPrime(c)
    ensures UpTo(a) == UpTo(b)
    decreases b - a
  {
    if a < b {
      UpToSkips(a, b - 1);
    }
  }

  lemma {:induction false} UpToPrefix(a: int, b: int)
    requires a <= b
    ensures UpTo(a) <= UpTo(b)
    decreases b - a
  {
    if a < b {
      UpToPrefix(a, b - 1);
    }
  }

  lemma {:induction false} MultipleOfMultiple(x: int, d: int, p: int)
    requires d >= 2 && p >= 2 && x % d == 0 && d % p == 0
    ensures x % p == 0
  {
    var a, b := x / d, d / p;
    assert x == a * (b * p) == (a * b) * p;
    ModOfProduct(a * b, p);
  }

  lemma ModOfProduct(k: int, p: int)
    requires p >= 2
    ensures (k * p) % p == 0
  {
    var q, r := (k * p) / p, (k * p) % p;
    assert k * p == q * p + r && 0 <= r < p;
    assert (k - q) * p == k * p - q * p;
    MulApart(k - q, p);
  }

  lemma MulApart(d: int, p: int)
    requires p >= 1
    ensures d >= 1 ==> d * p >= p
    ensures d <= -1 ==> d * p <= -p
  {
  }

  /** A proper divisor has a prime divisor that is no larger. */
  lemma {:induction false} PrimeDivisor(x: int, d: int) returns (p: int)
    requires 2 <= d < x && x % d == 0
    ensures IsPrime(p) && p <= d && x % p == 0
    decreases d
  {
    if IsPrime(d) {
      p := d;
    } else {
      var e :| 2 <= e < d && d % e == 0;
      MultipleOfMultiple(x, d, e);
      p := PrimeDivisor(x, e);
    }
  }

  /** A number that no smaller prime divides is prime. */
  lemma NoPrimeDivisor(x: int)
    requires x >= 2 && forall p :: IsPrime(p) && p < x ==> x % p != 0
    ensures IsPrime(x)
  {
    forall d | 2 <= d < x ensures x % d != 0 {
      if x % d == 0 {
        var p := PrimeDivisor(x, d);
        assert false;
      }
    }
  }

  function Product(ps: seq<int>): int
  {
    if ps == [] then 1 else ps[0] * Product(ps[1..])
  }

  lemma {:induction false} ProductPositive(ps: seq<int>)
    requires forall i :: 0 <= i < |ps| ==> ps[i] >= 2
    ensures Product(ps) >= 1
  {
    if ps != [] {
      ProductPositive(ps[1..]);
    }
  }

  lemma {:induction false} DividesProduct(ps: seq<int>, p: int)
    requires p in ps && p >= 2
    ensures Product(ps) % p == 0
  {
    assert Product(ps) == ps[0] * Product(ps[1..]);
    var rest := Product(ps[1..]);
    hide Product;
    if ps[0] == p {
      ModOfProduct(rest, p);
      Swap(p, rest);
    } else {
      assert p in ps[1..];
      DividesProduct(ps[1..], p);
      MultipleTimes(ps[0], rest, p);
    }
  }

  lemma Swap(a: int, b: int)
    ensures a * b == b * a
  {
  }

  /** An endless supply of odd numbers that no prime up to m divides. */
  ghost function Untouched(m: int, k: nat): int
  {
    k * (2 * Product(UpTo(m))) + 1
  }

  lemma UntouchedBy(m: int, k: nat, p: int)
    requires IsPrime(p) && p <= m
    ensures Untouched(m, k) % p != 0 && Untouched(m, k) % 2 != 0
  {
    var q := 2 * Product(UpTo(m));
    UpToContains(m, p);
    DividesProduct(UpTo(m), p);
    MultipleTimes(2, Product(UpTo(m)), p);
    MultipleTimes(k, q, p);
    MultipleTimes(k, q, 2);
    NextIsNoMultiple(k * q, p);
    NextIsNoMultiple(k * q, 2);
  }

  lemma MultipleTimes(k: int, q: int, p: int)
    requires p >= 2 && q % p == 0
    ensures (k * q) % p == 0
  {
    var r := q / p;
    assert k * (r * p) == (k * r) * p;
    ModOfProduct(k * r, p);
  }

  lemma NextIsNoMultiple(x: int, p: int)
    requires p >= 2 && x % p == 0
    ensures (x + 1) % p == 1
  {
    OneMore(x / p, p);
  }

  lemma OneMore(a: int, p: int)
    requires p >= 2
    ensures (a * p + 1) % p == 1
  {
    var q, r := (a * p + 1) / p, (a * p + 1) % p;
    assert a * p + 1 == q * p + r && 0 <= r < p;
    assert (a - q) * p == a * p - q * p;
    MulApart(a - q, p);
  }

  lemma UntouchedGrows(m: int, k: nat)
    ensures 1 <= Untouched(m, k) < Untouched(m, k + 1)
  {
    var ps := UpTo(m);
    forall i | 0 <= i < |ps| ensures ps[i] >= 2 { UpToContains(m, ps[i]); }
    ProductPositive(ps);
    assert (k + 1) * (2 * Product(ps)) == k * (2 * Product(ps)) + 2 * Product(ps);
    assert k * (2 * Product(ps)) >= 0;
  }

  /** There is a prime above m, at most one more than the doubled product of those up to m. */
  lemma PrimeAbove(m: int) returns (p: int)
    ensures IsPrime(p) && m < p <= Untouched(m, 1)
  {
    var x := Untouched(m, 1);
    UntouchedGrows(m, 0);
    assert x >= 2;
    if IsPrime(x) {
      p := x;
    } else {
      var d :| 2 <= d < x && x % d == 0;
      p := PrimeDivisor(x, d);
    }
    if p <= m { UntouchedBy(m, 1, p); }
  }
}

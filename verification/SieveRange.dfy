/** How far the numbers in the pipeline of sieve.c get beyond last, so that an int can hold them. */
module SieveRange {
  import opened Primes
  import opened Sieve

  /** Between two nodes lies no prime, so from the sink up each node is at most one prime further on. */
  lemma {:induction false} PrimesAhead(s: State, k: nat)
    requires Inv(s) && k < |s.nodes|
    ensures Sink(s).seen <= s.nodes[k].seen && |UpTo(s.nodes[k].seen - 1)| <= |UpTo(s.last)| + |s.nodes| - 1 - k
    decreases |s.nodes| - k
  {
    var x := s.nodes[k].seen;
    if k == |s.nodes| - 1 {
      PrintedAtMost(s);
      UpToPrefix(x - 1, Reached(s));
    } else {
      PrimesAhead(s, k + 1);
      var y := s.nodes[k + 1].seen;
      assert Flow(s, k);
      if y < x {
        forall c | y < c <= x - 1 ensures !IsPrime(c) {
          assert Dropped(s, k + 1, c);
          assert Dropped(s, |s.nodes| - 1, c);
          DroppedIsComposite(s, c);
        }
        UpToSkips(y, x - 1);
        assert |UpTo(y)| <= |UpTo(y - 1)| + 1;
      }
    }
  }

  /** When there are twice as many primes up to hi as up to last, and two more, no number in the
      pipeline gets past hi. */
  lemma SeenAtMost(s: State, k: nat, hi: int)
    requires Inv(s) && k < |s.nodes| && |UpTo(hi)| >= 2 * |UpTo(s.last)| + 2
    ensures 1 <= s.nodes[k].seen <= hi
  {
    PrintedAtMost(s);
    PrimesAhead(s, k);
    if s.nodes[k].seen > hi { UpToPrefix(hi, s.nodes[k].seen - 1); }
    AllBelowHorizon(s);
  }
}

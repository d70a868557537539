/** sort.c: quicksort that forks a thread for every large enough half, interleaved at the
    granularity of the loop iterations of partition.

    A thread is inside one call of quick (`top`) and still owes the right halves of the calls
    below it on its stack (`owed`).  `args` is the struct that p points to: recursive calls
    share it, Thread_new copies it.  Line 44 of the C code looks at a[i] before it tests i < j;
    here the bound is tested first, with the same outcome. */
module ConcurrentSort {
  datatype Args = Args(lb: int, ub: int)

  datatype Top =
    | Enter                                              // at the start of quick
    | Loop(lb: int, ub: int, i: int, j: int, v: int)     // at while (i < j)
    | Up(lb: int, ub: int, i: int, j: int, v: int)       // at while (a[i] < v && i < j)
    | Down(lb: int, ub: int, i: int, j: int, v: int)     // at while (a[j] > v)
    | Swap(lb: int, ub: int, i: int, j: int, v: int)     // at if (i < j)
    | Last(lb: int, ub: int, j: int, v: int)             // at the swap of a[k] and a[j]
    | Left(lb: int, ub: int, k: int)                     // partition returned k
    | Right(k: int, ub: int)                             // behind the left half
    | Gone

  datatype Half = Half(k: int, ub: int)

  datatype Thread = Thread(args: Args, owed: seq<Half>, top: Top)

  datatype State = State(a: seq<int>, cutoff: int, threads: seq<Thread>, joined: bool)

  datatype Label = Run(t: nat) | Join

  predicate Initial(s: State)
  {
    s.threads == [Thread(Args(0, |s.a| - 1), [], Enter)] && !s.joined
  }

  // ---------------------------------------------------------------- the steps

  predicate Index(s: State, x: int) { 0 <= x < |s.a| }

  /** The accesses of the next step lie inside the array. */
  predicate InBounds(s: State, top: Top, args: Args)
  {
    match top
    case Enter => args.lb < args.ub ==> Index(s, args.lb)
    case Up(_, _, i, j, _) => i < j ==> Index(s, i)
    case Down(_, _, _, j, _) => Index(s, j)
    case Swap(_, _, i, j, _) => i < j ==> Index(s, i) && Index(s, j)
    case Last(lb, _, j, _) => Index(s, lb) && Index(s, j)
    case _ => true
  }

  predicate Enabled(s: State, l: Label)
  {
    match l
    case Run(t) => t < |s.threads| && s.threads[t].top != Gone && InBounds(s, s.threads[t].top, s.threads[t].args)
    // Thread_join(NULL) of the first thread, once it has returned from quick
    case Join => !s.joined && forall t :: 0 <= t < |s.threads| ==> s.threads[t].top == Gone
  }

  function Exchange(a: seq<int>, x: int, y: int): (b: seq<int>)
    requires 0 <= x < |a| && 0 <= y < |a|
    ensures |b| == |a|
  {
    a[x := a[y]][y := a[x]]
  }

  function Put(s: State, t: nat, th: Thread): State
    requires t < |s.threads|
  {
    s.(threads := s.threads[t := th])
  }

  function Go(s: State, t: nat, top: Top): State
    requires t < |s.threads|
  {
    Put(s, t, s.threads[t].(top := top))
  }

  /** quick returns: to the right half owed by the caller, or the thread ends. */
  function Return(th: Thread): Thread
  {
    if th.owed == [] then th.(top := Gone)
    else var h := th.owed[|th.owed| - 1]; th.(owed := th.owed[..|th.owed| - 1], top := Right(h.k, h.ub))
  }

  function Apply(s: State, l: Label): State
    requires Enabled(s, l)
  {
    match l
    case Join => s.(joined := true)
    case Run(t) =>
      var th := s.threads[t];
      match th.top
      case Enter =>
        var lb, ub := th.args.lb, th.args.ub;
        if lb < ub then Go(s, t, Loop(lb, ub, lb, ub + 1, s.a[lb])) else Put(s, t, Return(th))
      case Loop(lb, ub, i, j, v) => Go(s, t, if i < j then Up(lb, ub, i + 1, j, v) else Last(lb, ub, j, v))
      case Up(lb, ub, i, j, v) =>
        Go(s, t, if i < j && s.a[i] < v then Up(lb, ub, i + 1, j, v) else Down(lb, ub, i, j - 1, v))
      case Down(lb, ub, i, j, v) =>
        Go(s, t, if s.a[j] > v then Down(lb, ub, i, j - 1, v) else Swap(lb, ub, i, j, v))
      case Swap(lb, ub, i, j, v) =>
        Go(s.(a := if i < j then Exchange(s.a, i, j) else s.a), t, Loop(lb, ub, i, j, v))
      case Last(lb, ub, j, v) => Go(s.(a := Exchange(s.a, lb, j)), t, Left(lb, ub, j))
      case Left(lb, ub, k) =>
        var args := Args(lb, k - 1);
        if k - lb > s.cutoff
        then s.(threads := s.threads[t := Thread(args, th.owed, Right(k, ub))] + [Thread(args, [], Enter)])
        else Put(s, t, Thread(args, th.owed + [Half(k, ub)], Enter))
      case Right(k, ub) =>
        var args := Args(k + 1, ub);
        if ub - k > s.cutoff
        then s.(threads := s.threads[t := Return(th.(args := args))] + [Thread(args, [], Enter)])
        else Put(s, t, Thread(args, th.owed, Enter))
      case Gone => s
  }

  // ---------------------------------------------------------------- who may touch what

  /** The positions lo..hi but for gap; what lies on either side of the gap is already apart. */
  datatype Seg = Seg(lo: int, hi: int, gap: int)

  predicate In(g: Seg, x: int) { g.lo <= x <= g.hi && x != g.gap }

  predicate Same(g: Seg, x: int, y: int) { In(g, x) && In(g, y) && (x < g.gap <==> y < g.gap) }

  function Whole(lo: int, hi: int): Seg { Seg(lo, hi, lo - 1) }

  function TopSeg(th: Thread): Seg
  {
    match th.top
    case Enter => Whole(th.args.lb, th.args.ub)
    case Loop(lb, ub, _, _, _) => Whole(lb, ub)
    case Up(lb, ub, _, _, _) => Whole(lb, ub)
    case Down(lb, ub, _, _, _) => Whole(lb, ub)
    case Swap(lb, ub, _, _, _) => Whole(lb, ub)
    case Last(lb, ub, _, _) => Whole(lb, ub)
    case Left(lb, ub, k) => Seg(lb, ub, k)
    case Right(k, ub) => Whole(k + 1, ub)
    case Gone => Whole(0, -1)
  }

  /** Segment g of thread t: one for each right half owed, and one for the call it is in. */
  function SegOf(s: State, t: nat, g: nat): Seg
    requires t < |s.threads| && g <= |s.threads[t].owed|
  {
    var th := s.threads[t];
    if g < |th.owed| then Whole(th.owed[g].k + 1, th.owed[g].ub) else TopSeg(th)
  }

  predicate Slot(s: State, t: int, g: int) { 0 <= t < |s.threads| && 0 <= g <= |s.threads[t].owed| }

  ghost predicate Disjoint(s: State)
  {
    forall t, g, u, h, x ::
        Slot(s, t, g) && Slot(s, u, h) && In(SegOf(s, t, g), x) && In(SegOf(s, u, h), x) ==> t == u && g == h
  }

  ghost predicate Inside(s: State)
  {
    forall t, g, x :: Slot(s, t, g) && In(SegOf(s, t, g), x) ==> 0 <= x < |s.a|
  }

  ghost predicate Pending(s: State, x: int, y: int)
  {
    exists t, g :: Slot(s, t, g) && Same(SegOf(s, t, g), x, y)
  }

  predicate Inverted(a: seq<int>, x: int, y: int) { 0 <= x < y < |a| && a[x] > a[y] }

  /** Two positions are in order unless they still belong to one segment. */
  ghost predicate Ordered(s: State)
  {
    forall x, y :: Inverted(s.a, x, y) ==> Pending(s, x, y)
  }

  // ---------------------------------------------------------------- the loops of partition

  predicate Low(a: seq<int>, lo: int, hi: int, v: int)
  {
    forall x :: lo <= x < hi && 0 <= x < |a| ==> a[x] <= v
  }

  predicate High(a: seq<int>, lo: int, hi: int, v: int)
  {
    forall x :: lo <= x < hi && 0 <= x < |a| ==> a[x] >= v
  }

  predicate TopOk(s: State, th: Thread)
  {
    match th.top
    case Loop(lb, ub, i, j, v) =>
      && 0 <= lb < ub < |s.a| && s.a[lb] == v
      && if i < j then lb <= i && j <= ub + 1 && Low(s.a, lb + 1, i + 1, v) && High(s.a, j, ub + 1, v)
         else lb <= j <= ub && i <= j + 1 && Low(s.a, lb + 1, j + 1, v) && High(s.a, j + 1, ub + 1, v)
    case Up(lb, ub, i, j, v) =>
      && 0 <= lb < ub < |s.a| && s.a[lb] == v
      && lb < i <= j <= ub + 1 && Low(s.a, lb + 1, i, v) && High(s.a, j, ub + 1, v)
    case Down(lb, ub, i, j, v) =>
      && 0 <= lb < ub < |s.a| && s.a[lb] == v
      && lb < i <= j + 1 <= ub + 1 && Low(s.a, lb + 1, i, v) && High(s.a, j + 1, ub + 1, v) && (i <= ub ==> s.a[i] >= v)
    case Swap(lb, ub, i, j, v) =>
      && 0 <= lb < ub < |s.a| && s.a[lb] == v
      && lb < i <= j + 1 <= ub + 1 && Low(s.a, lb + 1, i, v) && High(s.a, j + 1, ub + 1, v) && (i <= ub ==> s.a[i] >= v)
      && s.a[j] <= v
    case Last(lb, ub, j, v) =>
      && 0 <= lb < ub < |s.a| && s.a[lb] == v
      && lb <= j <= ub && Low(s.a, lb + 1, j + 1, v) && High(s.a, j + 1, ub + 1, v)
    case Left(lb, ub, k) => 0 <= lb <= k <= ub < |s.a|
    case _ => true
  }

  ghost predicate Inv(s: State)
  {
    && Disjoint(s) && Inside(s) && Ordered(s)
    && (forall t :: 0 <= t < |s.threads| ==> TopOk(s, s.threads[t]))
    && (s.joined ==> forall t :: 0 <= t < |s.threads| ==> s.threads[t].top == Gone && s.threads[t].owed == [])
    && (forall t :: 0 <= t < |s.threads| && s.threads[t].top == Gone ==> s.threads[t].owed == [])
  }

  lemma InitialInv(s: State)
    requires Initial(s)
    ensures Inv(s)
  {
    forall x, y | Inverted(s.a, x, y) ensures Pending(s, x, y) {
      assert Slot(s, 0, 0) && Same(SegOf(s, 0, 0), x, y);
    }
  }

  lemma NeverOutOfBounds(s: State, t: nat)
    requires Inv(s) && t < |s.threads| && s.threads[t].top != Gone
    ensures Enabled(s, Run(t))
  {
    var th := s.threads[t];
    assert TopOk(s, th);
    if th.top == Enter && th.args.lb < th.args.ub {
      assert Slot(s, t, |th.owed|) && In(SegOf(s, t, |th.owed|), th.args.lb);
    }
  }

  // ---------------------------------------------------------------- the segments after a step

  /** The segment of s that segment g of thread u comes from when thread t has made a step. */
  function Origin(s: State, t: nat, u: nat, g: nat): (nat, nat)
    requires t < |s.threads|
  {
    if u == |s.threads| || (u == t && g > |s.threads[t].owed|) then (t, |s.threads[t].owed|) else (u, g)
  }

  /** Segments only shrink, and those that split off one segment share nothing. */
  ghost predicate Derived(s: State, s': State, t: nat)
    requires t < |s.threads|
  {
    && |s'.a| == |s.a| && |s'.threads| <= |s.threads| + 1
    && (forall u, g :: Slot(s', u, g) ==>
          var o := Origin(s, t, u, g);
          Slot(s, o.0, o.1) && forall x :: In(SegOf(s', u, g), x) ==> In(SegOf(s, o.0, o.1), x))
    && (forall u, g, u', g', x ::
          (Slot(s', u, g) && Slot(s', u', g') && Origin(s, t, u, g) == Origin(s, t, u', g') && In(SegOf(s', u, g), x)
              && In(SegOf(s', u', g'), x))
          ==> u == u' && g == g')
  }

  lemma DerivedKeeps(s: State, s': State, t: nat)
    requires t < |s.threads| && Disjoint(s) && Inside(s) && Derived(s, s', t)
    ensures Disjoint(s') && Inside(s')
  {
    forall u, g, u', g', x | Slot(s', u, g) && Slot(s', u', g') && In(SegOf(s', u, g), x) && In(SegOf(s', u', g'), x)
      ensures u == u' && g == g'
    {
      var o, o' := Origin(s, t, u, g), Origin(s, t, u', g');
      assert In(SegOf(s, o.0, o.1), x) && In(SegOf(s, o'.0, o'.1), x);
      assert o == o';
    }
    forall u, g, x | Slot(s', u, g) && In(SegOf(s', u, g), x) ensures 0 <= x < |s'.a| {
      var o := Origin(s, t, u, g);
      assert In(SegOf(s, o.0, o.1), x);
    }
  }

  /** Without a change to the array it is enough that every pair of one segment stays together,
      if it is out of order. */
  lemma OrderKeeps(s: State, s': State)
    requires Ordered(s) && s'.a == s.a
    requires forall t, g, x, y ::
        Slot(s, t, g) && Same(SegOf(s, t, g), x, y) && Inverted(s.a, x, y) ==> Pending(s', x, y)
    ensures Ordered(s')
  {
    forall x, y | Inverted(s'.a, x, y) ensures Pending(s', x, y) {
      assert Pending(s, x, y);
    }
  }

  ghost predicate Agree(a: seq<int>, b: seq<int>, lo: int, hi: int)
  {
    |a| == |b| && forall x :: lo <= x <= hi && 0 <= x < |a| ==> a[x] == b[x]
  }

  lemma BoundsKeep(a: seq<int>, b: seq<int>, lb: int, ub: int, v: int)
    requires Agree(a, b, lb, ub)
    ensures forall lo, hi :: lb <= lo && hi <= ub + 1 && Low(a, lo, hi, v) ==> Low(b, lo, hi, v)
    ensures forall lo, hi :: lb <= lo && hi <= ub + 1 && High(a, lo, hi, v) ==> High(b, lo, hi, v)
  {
  }

  /** What a thread knows about its own segment survives changes elsewhere. */
  lemma TopOkKeeps(s: State, s': State, th: Thread)
    requires TopOk(s, th) && |s'.a| == |s.a| && forall x :: In(TopSeg(th), x) && 0 <= x < |s.a| ==> s'.a[x] == s.a[x]
    ensures TopOk(s', th)
  {
    match th.top
    case Loop(lb, ub, _, _, v) =>
      assert forall x :: lb <= x <= ub ==> In(TopSeg(th), x);
      BoundsKeep(s.a, s'.a, lb, ub, v);
    case Up(lb, ub, _, _, v) =>
      assert forall x :: lb <= x <= ub ==> In(TopSeg(th), x);
      BoundsKeep(s.a, s'.a, lb, ub, v);
    case Down(lb, ub, _, _, v) =>
      assert forall x :: lb <= x <= ub ==> In(TopSeg(th), x);
      BoundsKeep(s.a, s'.a, lb, ub, v);
    case Swap(lb, ub, i, j, v) =>
      assert forall x :: lb <= x <= ub ==> In(TopSeg(th), x);
      BoundsKeep(s.a, s'.a, lb, ub, v);
    case Last(lb, ub, _, v) =>
      assert forall x :: lb <= x <= ub ==> In(TopSeg(th), x);
      BoundsKeep(s.a, s'.a, lb, ub, v);
    case _ =>
  }

  /** Thread t goes on in the same segments. */
  lemma Regroup(s: State, s': State, t: nat, top: Top)
    requires t < |s.threads| && s' == Go(s, t, top) && TopSeg(s'.threads[t]) == TopSeg(s.threads[t])
    requires Disjoint(s) && Inside(s) && Ordered(s)
    ensures Disjoint(s') && Inside(s') && Ordered(s')
  {
    forall u, g | Slot(s, u, g) ensures Slot(s', u, g) && SegOf(s', u, g) == SegOf(s, u, g) {}
    assert Derived(s, s', t);
    DerivedKeeps(s, s', t);
    forall u, g, x, y | Slot(s, u, g) && Same(SegOf(s, u, g), x, y) && Inverted(s.a, x, y) ensures Pending(s', x, y) {
      assert Slot(s', u, g) && SegOf(s', u, g) == SegOf(s, u, g);
    }
    OrderKeeps(s, s');
  }

  /** ... and leaves the array alone. */
  lemma LocalStep(s: State, s': State, t: nat, top: Top)
    requires Inv(s) && t < |s.threads| && s' == Go(s, t, top) && !s.joined
    requires top != Gone && TopSeg(s'.threads[t]) == TopSeg(s.threads[t]) && TopOk(s', s'.threads[t])
    ensures Inv(s')
  {
    Regroup(s, s', t, top);
    forall u | 0 <= u < |s'.threads| ensures TopOk(s', s'.threads[u]) {
      if u != t { TopOkKeeps(s, s', s.threads[u]); }
    }
  }

  /** Exchanging two elements of its segment: pairs with one end elsewhere stay in order. */
  lemma ExchangeStep(s: State, s': State, t: nat, p: int, q: int)
    requires Inv(s) && t < |s.threads| && 0 <= p < |s.a| && 0 <= q < |s.a|
    requires In(TopSeg(s.threads[t]), p) && In(TopSeg(s.threads[t]), q)
    requires TopSeg(s.threads[t]).gap < TopSeg(s.threads[t]).lo
    requires s' == s.(a := Exchange(s.a, p, q))
    ensures Disjoint(s') && Inside(s') && Ordered(s') && multiset(s'.a) == multiset(s.a)
    ensures forall u :: 0 <= u < |s.threads| && u != t ==> TopOk(s', s.threads[u])
  {
    forall u, h | Slot(s, u, h) ensures Slot(s', u, h) && SegOf(s', u, h) == SegOf(s, u, h) {}
    forall x, y | Inverted(s'.a, x, y) ensures Pending(s', x, y) { ExchangePending(s, s', t, p, q, x, y); }
    forall u | 0 <= u < |s.threads| && u != t ensures TopOk(s', s.threads[u]) {
      assert Slot(s, u, |s.threads[u].owed|) && Slot(s, t, |s.threads[t].owed|);
      TopOkKeeps(s, s', s.threads[u]);
    }
    hide TopOk, Same;
  }

  /** An exchange within the segment of t's call brings nothing out of order anywhere else. */
  lemma ExchangePending(s: State, s': State, t: nat, p: int, q: int, x: int, y: int)
    requires Disjoint(s) && Ordered(s) && t < |s.threads| && 0 <= p < |s.a| && 0 <= q < |s.a|
    requires In(TopSeg(s.threads[t]), p) && In(TopSeg(s.threads[t]), q)
    requires TopSeg(s.threads[t]).gap < TopSeg(s.threads[t]).lo
    requires s' == s.(a := Exchange(s.a, p, q)) && Inverted(s'.a, x, y)
    ensures Pending(s', x, y)
  {
    var g, seg := |s.threads[t].owed|, TopSeg(s.threads[t]);
    assert Slot(s, t, g) && SegOf(s, t, g) == seg;
    if In(seg, x) && In(seg, y) {
      assert Slot(s', t, g) && Same(SegOf(s', t, g), x, y);
    } else {
      var x0 := if x == p then q else if x == q then p else x;
      var y0 := if y == p then q else if y == q then p else y;
      assert s.a[x0] == s'.a[x] && s.a[y0] == s'.a[y];
      assert Inverted(s.a, x0, y0);
      var u, h :| Slot(s, u, h) && Same(SegOf(s, u, h), x0, y0);
      assert u != t || h != g;
      assert x0 == x && y0 == y;
      assert Slot(s', u, h) && Same(SegOf(s', u, h), x, y);
    }
  }

  // ---------------------------------------------------------------- one lemma a kind of step

  /** Only where thread t is in its segment changes, and what it then knows is true. */
  predicate Moves(s: State, s': State, t: nat)
    requires t < |s.threads|
  {
    && |s'.threads| == |s.threads| && s' == Go(s, t, s'.threads[t].top) && s'.threads[t].top != Gone
    && TopSeg(s'.threads[t]) == TopSeg(s.threads[t]) && TopOk(s', s'.threads[t])
  }

  // partition's indices: what is passed on the left is no larger than v, on the right no smaller

  lemma LoopOk(s: State, t: nat)
    requires Enabled(s, Run(t)) && s.threads[t].top.Loop? && TopOk(s, s.threads[t])
    ensures Moves(s, Apply(s, Run(t)), t)
  {
  }

  lemma UpOk(s: State, t: nat)
    requires Enabled(s, Run(t)) && s.threads[t].top.Up? && TopOk(s, s.threads[t])
    ensures Moves(s, Apply(s, Run(t)), t)
  {
  }

  lemma DownOk(s: State, t: nat)
    requires Enabled(s, Run(t)) && s.threads[t].top.Down? && TopOk(s, s.threads[t])
    ensures Moves(s, Apply(s, Run(t)), t)
  {
  }

  lemma SwapOk(s: State, th: Thread)
    requires TopOk(s, th) && th.top.Swap? && InBounds(s, th.top, th.args)
    ensures var Swap(lb, ub, i, j, v) := th.top;
            TopOk(s.(a := if i < j then Exchange(s.a, i, j) else s.a), th.(top := Loop(lb, ub, i, j, v)))
  {
  }

  lemma StepScan(s: State, t: nat)
    requires Inv(s) && Enabled(s, Run(t)) && Moves(s, Apply(s, Run(t)), t)
    ensures Inv(Apply(s, Run(t)))
  {
    var s' := Apply(s, Run(t));
    LocalStep(s, s', t, s'.threads[t].top);
  }

  lemma StepSwap(s: State, t: nat)
    requires Inv(s) && Enabled(s, Run(t)) && s.threads[t].top.Swap?
    ensures Inv(Apply(s, Run(t))) && multiset(Apply(s, Run(t)).a) == multiset(s.a)
  {
    var th := s.threads[t];
    assert TopOk(s, th);
    SwapOk(s, th);
    var Swap(lb, ub, i, j, v) := th.top;
    if i < j {
      SwapInv(s, t, i, j, Loop(lb, ub, i, j, v));
    } else {
      LocalStep(s, Go(s, t, Loop(lb, ub, i, j, v)), t, Loop(lb, ub, i, j, v));
    }
  }

  lemma SwapInv(s: State, t: nat, i: int, j: int, top: Top)
    requires Inv(s) && t < |s.threads| && s.threads[t].top != Gone && top != Gone && 0 <= i < |s.a| && 0 <= j < |s.a|
    requires In(TopSeg(s.threads[t]), i) && In(TopSeg(s.threads[t]), j)
        && TopSeg(s.threads[t]).gap < TopSeg(s.threads[t]).lo
    requires TopSeg(s.threads[t].(top := top)) == TopSeg(s.threads[t])
    requires TopOk(s.(a := Exchange(s.a, i, j)), s.threads[t].(top := top))
    ensures var s' := Go(s.(a := Exchange(s.a, i, j)), t, top); Inv(s') && multiset(s'.a) == multiset(s.a)
  {
    var s1 := s.(a := Exchange(s.a, i, j));
    var s' := Go(s1, t, top);
    ExchangeStep(s, s1, t, i, j);
    Regroup(s1, s', t, top);
    forall u | 0 <= u < |s'.threads| ensures TopOk(s', s'.threads[u]) {
      TopOkKeeps(s1, s', s'.threads[u]);
    }
  }

  /** The pivot goes to its final place, between what is no larger and what is no smaller. */
  lemma StepLast(s: State, t: nat)
    requires Inv(s) && Enabled(s, Run(t)) && s.threads[t].top.Last?
    ensures Inv(Apply(s, Run(t))) && multiset(Apply(s, Run(t)).a) == multiset(s.a)
  {
    var th := s.threads[t];
    assert TopOk(s, th);
    var Last(lb, ub, j, v) := th.top;
    var s1 := s.(a := Exchange(s.a, lb, j));
    ExchangeStep(s, s1, t, lb, j);
    PivotApart(s1, t, v);
    var s' := Go(s1, t, Left(lb, ub, j));
    forall u | 0 <= u < |s'.threads| ensures TopOk(s', s'.threads[u]) {
      if u != t { assert TopOk(s1, s.threads[u]); TopOkKeeps(s1, s', s.threads[u]); }
    }
  }

  /** With the pivot at j the two sides are apart for good. */
  lemma PivotApart(s: State, t: nat, v: int)
    requires Disjoint(s) && Inside(s) && Ordered(s) && t < |s.threads| && s.threads[t].top.Last?
    requires var Last(lb, ub, j, _) := s.threads[t].top;
             0 <= lb <= j <= ub < |s.a| && s.a[j] == v && Low(s.a, lb, j, v) && High(s.a, j + 1, ub + 1, v)
    ensures var Last(lb, ub, j, _) := s.threads[t].top;
            var s' := Go(s, t, Left(lb, ub, j)); Disjoint(s') && Inside(s') && Ordered(s')
  {
    var Last(lb, ub, j, _) := s.threads[t].top;
    var s' := Go(s, t, Left(lb, ub, j));
    forall u, g | Slot(s, u, g)
        ensures Slot(s', u, g) && (forall x :: In(SegOf(s', u, g), x) ==> In(SegOf(s, u, g), x)) {}
    assert Derived(s, s', t);
    DerivedKeeps(s, s', t);
    forall u, g, x, y | Slot(s, u, g) && Same(SegOf(s, u, g), x, y) && Inverted(s.a, x, y) ensures Pending(s', x, y) {
      assert Slot(s', u, g);
      if u == t && g == |s.threads[t].owed| {
        assert Same(SegOf(s', u, g), x, y);
      } else {
        assert SegOf(s', u, g) == SegOf(s, u, g);
      }
    }
    OrderKeeps(s, s');
  }

  lemma StepEnter(s: State, t: nat)
    requires Inv(s) && Enabled(s, Run(t)) && s.threads[t].top.Enter?
    ensures Inv(Apply(s, Run(t)))
  {
    var s', th := Apply(s, Run(t)), s.threads[t];
    if th.args.lb < th.args.ub {
      assert Slot(s, t, |th.owed|) && In(SegOf(s, t, |th.owed|), th.args.lb) && In(SegOf(s, t, |th.owed|), th.args.ub);
      LocalStep(s, s', t, s'.threads[t].top);
    } else {
      assert s' == Put(s, t, Return(th));
      StepReturn(s, s', t);
    }
  }

  /** A range of at most one element needs nothing more. */
  lemma StepReturn(s: State, s': State, t: nat)
    requires Inv(s) && t < |s.threads| && s' == Put(s, t, Return(s.threads[t])) && s.threads[t].top != Gone
    requires forall x, y :: x < y ==> !Same(TopSeg(s.threads[t]), x, y)
    ensures Inv(s')
  {
    var th, th' := s.threads[t], s'.threads[t];
    forall u, g | Slot(s', u, g)
        ensures (u == t && th.owed == []) || (Slot(s, u, g) && SegOf(s', u, g) == SegOf(s, u, g)) {}
    assert Derived(s, s', t);
    DerivedKeeps(s, s', t);
    forall u, g, x, y | Slot(s, u, g) && Same(SegOf(s, u, g), x, y) && Inverted(s.a, x, y) ensures Pending(s', x, y) {
      assert u != t || g < |th.owed|;
      assert Slot(s', u, g) && SegOf(s', u, g) == SegOf(s, u, g);
    }
    OrderKeeps(s, s');
    forall u | 0 <= u < |s'.threads| ensures TopOk(s', s'.threads[u]) {
      if u != t { TopOkKeeps(s, s', s.threads[u]); }
    }
  }

  /** The left half goes to a new thread or to a call; the right half is owed. */
  lemma StepLeft(s: State, t: nat)
    requires Inv(s) && Enabled(s, Run(t)) && s.threads[t].top.Left?
    ensures Inv(Apply(s, Run(t)))
  {
    var k, m := s.threads[t].top.k, |s.threads[t].owed|;
    assert TopOk(s, s.threads[t]);
    if k - s.threads[t].top.lb > s.cutoff {
      SplitStep(s, Apply(s, Run(t)), t, |s.threads|, 0);
    } else {
      SplitStep(s, Apply(s, Run(t)), t, t, m + 1);
    }
  }

  /** Threads other than t go on as they were, and thread t has forked at most one. */
  ghost predicate OnlyMoves(s: State, s': State, t: nat)
  {
    && t < |s.threads| && s'.a == s.a && !s'.joined && !s.joined
    && |s.threads| <= |s'.threads| <= |s.threads| + 1
    && (forall u :: 0 <= u < |s.threads| && u != t ==> s'.threads[u] == s.threads[u])
    && (forall u :: 0 <= u < |s'.threads| && (u == t || u == |s.threads|) ==> TopOk(s', s'.threads[u]))
    && (forall u ::
         0 <= u < |s'.threads| && (u == t || u == |s.threads|) && s'.threads[u].top == Gone ==>
         s'.threads[u].owed == [])
  }

  /** What threads know of their own segments stays true. */
  lemma TopsKeep(s: State, s': State, t: nat)
    requires OnlyMoves(s, s', t) && forall u :: 0 <= u < |s.threads| ==> TopOk(s, s.threads[u])
    ensures forall u :: 0 <= u < |s'.threads| ==> TopOk(s', s'.threads[u])
  {
    forall u | 0 <= u < |s'.threads| ensures TopOk(s', s'.threads[u]) {
      if u != t && u < |s.threads| { TopOkKeeps(s, s', s.threads[u]); }
    }
  }

  /** The segment of the call t is in becomes segment m of t, right of k, and segment lg of
      thread lt, left of k. */
  ghost predicate Splits(s: State, s': State, t: nat, lt: nat, lg: nat)
  {
    && OnlyMoves(s, s', t) && s.threads[t].top.Left?
    && var m, Left(lb, ub, k) := |s.threads[t].owed|, s.threads[t].top;
       && (lt, lg) in {(t, m + 1), (|s.threads|, 0)}
       && Slot(s', lt, lg) && SegOf(s', lt, lg) == Whole(lb, k - 1)
       && Slot(s', t, m) && SegOf(s', t, m) == Whole(k + 1, ub)
       && (|s'.threads| > |s.threads| ==> lt == |s.threads|)
       && s.threads[t].owed <= s'.threads[t].owed
       && |s'.threads[t].owed| == (if lt == t then m + 1 else m)
       && (lt != t ==> s'.threads[lt].owed == [])
  }

  /** Every other segment is as it was. */
  lemma SplitRest(s: State, s': State, t: nat, lt: nat, lg: nat, u: int, g: int)
    requires Splits(s, s', t, lt, lg) && Slot(s', u, g)
    requires !(u == lt && g == lg) && !(u == t && g == |s.threads[t].owed|)
    ensures Slot(s, u, g) && SegOf(s', u, g) == SegOf(s, u, g)
    ensures Origin(s, t, u, g) == (u, g) && (u, g) != (t, |s.threads[t].owed|)
  {
  }

  lemma SplitDerived(s: State, s': State, t: nat, lt: nat, lg: nat)
    requires Splits(s, s', t, lt, lg) && TopOk(s, s.threads[t])
    ensures Derived(s, s', t)
  {
    var m := |s.threads[t].owed|;
    assert SegOf(s, t, m) == Seg(s.threads[t].top.lb, s.threads[t].top.ub, s.threads[t].top.k);
    assert Origin(s, t, lt, lg) == (t, m) == Origin(s, t, t, m) && Slot(s, t, m);
    forall u, g | Slot(s', u, g) && !(u == lt && g == lg) && !(u == t && g == m)
      ensures Slot(s, u, g) && SegOf(s', u, g) == SegOf(s, u, g)
      ensures Origin(s, t, u, g) == (u, g) && (u, g) != (t, m)
    {
      SplitRest(s, s', t, lt, lg, u, g);
    }
  }

  /** What is out of order within a segment of s is so within one segment of s'. */
  lemma SplitPending(s: State, s': State, t: nat, lt: nat, lg: nat, u: int, g: int, x: int, y: int)
    requires Splits(s, s', t, lt, lg) && Slot(s, u, g) && Same(SegOf(s, u, g), x, y) && Inverted(s.a, x, y)
    ensures Pending(s', x, y)
  {
    var m := |s.threads[t].owed|;
    if u == t && g == m {
      if x < s.threads[t].top.k {
        assert Same(SegOf(s', lt, lg), x, y);
      } else {
        assert Same(SegOf(s', t, m), x, y);
      }
    } else {
      assert Slot(s', u, g) && SegOf(s', u, g) == SegOf(s, u, g);
    }
  }

  lemma SplitStep(s: State, s': State, t: nat, lt: nat, lg: nat)
    requires Inv(s) && Splits(s, s', t, lt, lg)
    ensures Inv(s')
  {
    hide TopOk, SegOf, Same, Disjoint, Inside, Ordered, Pending, Derived;
    SplitDerived(s, s', t, lt, lg);
    DerivedKeeps(s, s', t);
    TopsKeep(s, s', t);
    forall u, g, x, y | Slot(s, u, g) && Same(SegOf(s, u, g), x, y) && Inverted(s.a, x, y) ensures Pending(s', x, y) {
      SplitPending(s, s', t, lt, lg, u, g, x, y);
    }
    OrderKeeps(s, s');
  }

  /** The right half goes on in thread rt. */
  ghost predicate Resumes(s: State, s': State, t: nat, rt: nat, rg: nat)
  {
    && OnlyMoves(s, s', t) && s.threads[t].top.Right?
    && var m, Right(k, ub) := |s.threads[t].owed|, s.threads[t].top;
       && (rt, rg) in {(t, m), (|s.threads|, 0)}
       && Slot(s', rt, rg) && SegOf(s', rt, rg) == Whole(k + 1, ub)
       && (|s'.threads| > |s.threads| <==> rt == |s.threads|)
       && (forall u, g ::
            Slot(s', u, g) && (u == t || u == |s.threads|) && !(u == rt && g == rg) ==>
            (u == t && s'.threads[t].top == Gone) || (u == t && g < m && SegOf(s', u, g) == SegOf(s, u, g)))
       && (forall g :: 0 <= g < m ==> Slot(s', t, g) && SegOf(s', t, g) == SegOf(s, t, g))
  }

  lemma ResumeDerived(s: State, s': State, t: nat, rt: nat, rg: nat)
    requires Resumes(s, s', t, rt, rg)
    ensures Derived(s, s', t)
  {
    var m := |s.threads[t].owed|;
    assert SegOf(s, t, m) == Whole(s.threads[t].top.k + 1, s.threads[t].top.ub);
    forall u, g | Slot(s', u, g) && !(u == rt && g == rg)
      ensures (u == t && s'.threads[t].top == Gone)
          || (Slot(s, u, g) && SegOf(s', u, g) == SegOf(s, u, g) && Origin(s, t, u, g) == (u, g) && (u, g) != (t, m))
    {
    }
  }

  lemma ResumePending(s: State, s': State, t: nat, rt: nat, rg: nat, u: int, g: int, x: int, y: int)
    requires Resumes(s, s', t, rt, rg) && Slot(s, u, g) && Same(SegOf(s, u, g), x, y) && Inverted(s.a, x, y)
    ensures Pending(s', x, y)
  {
    if u == t && g == |s.threads[t].owed| {
      assert Same(SegOf(s', rt, rg), x, y);
    } else {
      assert Slot(s', u, g) && SegOf(s', u, g) == SegOf(s, u, g);
    }
  }

  lemma RightStep(s: State, s': State, t: nat, rt: nat, rg: nat)
    requires Inv(s) && Resumes(s, s', t, rt, rg)
    ensures Inv(s')
  {
    hide TopOk, SegOf, Same, Disjoint, Inside, Ordered, Pending, Derived;
    ResumeDerived(s, s', t, rt, rg);
    DerivedKeeps(s, s', t);
    TopsKeep(s, s', t);
    forall u, g, x, y | Slot(s, u, g) && Same(SegOf(s, u, g), x, y) && Inverted(s.a, x, y) ensures Pending(s', x, y) {
      ResumePending(s, s', t, rt, rg, u, g, x, y);
    }
    OrderKeeps(s, s');
  }

  lemma StepRight(s: State, t: nat)
    requires Inv(s) && Enabled(s, Run(t)) && s.threads[t].top.Right?
    ensures Inv(Apply(s, Run(t)))
  {
    var s', th := Apply(s, Run(t)), s.threads[t];
    var Right(k, ub) := th.top;
    if ub - k > s.cutoff {
      RightStep(s, s', t, |s.threads|, 0);
    } else {
      RightStep(s, s', t, t, |th.owed|);
    }
  }

  lemma StepInv(s: State, l: Label)
    requires Inv(s) && Enabled(s, l)
    ensures Inv(Apply(s, l)) && multiset(Apply(s, l).a) == multiset(s.a)
  {
    match l
    case Join => Joined(s);
    case Run(t) =>
      assert TopOk(s, s.threads[t]);
      match s.threads[t].top
      case Enter => StepEnter(s, t);
      case Swap(_, _, _, _, _) => StepSwap(s, t);
      case Last(_, _, _, _) => StepLast(s, t);
      case Left(_, _, _) => StepLeft(s, t);
      case Right(_, _) => StepRight(s, t);
      case Gone => assert false;
      case Loop(_, _, _, _, _) => LoopOk(s, t); StepScan(s, t);
      case Up(_, _, _, _, _) => UpOk(s, t); StepScan(s, t);
      case Down(_, _, _, _, _) => DownOk(s, t); StepScan(s, t);
  }

  /** When every thread has returned nothing is out of order. */
  lemma NothingInverted(s: State, x: int, y: int)
    requires Inv(s) && Enabled(s, Join)
    ensures !Inverted(s.a, x, y)
  {
    forall t, g | Slot(s, t, g) ensures !Same(SegOf(s, t, g), x, y) {}
  }

  lemma Joined(s: State)
    requires Inv(s) && Enabled(s, Join)
    ensures Inv(Apply(s, Join))
  {
    var s' := Apply(s, Join);
    forall u, g | Slot(s, u, g) ensures Slot(s', u, g) && SegOf(s', u, g) == SegOf(s, u, g) {}
    forall x, y ensures !Inverted(s'.a, x, y) { NothingInverted(s, x, y); }
    forall u | 0 <= u < |s'.threads| ensures TopOk(s', s'.threads[u]) { TopOkKeeps(s, s', s.threads[u]); }
  }

  // ---------------------------------------------------------------- runs

  ghost predicate Runs(s: State, ls: seq<Label>)
    decreases |ls|
  {
    ls == [] || (Enabled(s, ls[0]) && Runs(Apply(s, ls[0]), ls[1..]))
  }

  function Exec(s: State, ls: seq<Label>): State
    requires Runs(s, ls)
    decreases |ls|
  {
    if ls == [] then s else Exec(Apply(s, ls[0]), ls[1..])
  }

  lemma {:induction false} RunInv(s: State, ls: seq<Label>)
    requires Inv(s) && Runs(s, ls)
    ensures Inv(Exec(s, ls)) && multiset(Exec(s, ls).a) == multiset(s.a)
    decreases |ls|
  {
    if ls != [] {
      StepInv(s, ls[0]);
      RunInv(Apply(s, ls[0]), ls[1..]);
    }
  }

  ghost predicate Sorted(a: seq<int>)
  {
    forall x, y :: 0 <= x < y < |a| ==> a[x] <= a[y]
  }

  /** Whatever the cutoff and the schedule: once the join has returned the array is sorted. */
  lemma JoinedIsSorted(s: State, ls: seq<Label>)
    requires Initial(s) && Runs(s, ls) && Exec(s, ls).joined
    ensures Sorted(Exec(s, ls).a) && multiset(Exec(s, ls).a) == multiset(s.a)
  {
    InitialInv(s);
    RunInv(s, ls);
    var e := Exec(s, ls);
    forall x, y | 0 <= x < y < |e.a| ensures e.a[x] <= e.a[y] {
      assert !Inverted(e.a, x, y);
    }
  }

  // ---------------------------------------------------------------- final places

  /** How many elements are below v, or equal to it as well. */
  function CountBelow(a: seq<int>, v: int, orEqual: bool): nat
  {
    if a == [] then 0
    else CountBelow(a[..|a| - 1], v, orEqual) + (if a[|a| - 1] < v || (orEqual && a[|a| - 1] == v) then 1 else 0)
  }

  lemma {:induction false} CountDrop(a: seq<int>, x: nat, v: int, e: bool)
    requires x < |a|
    ensures CountBelow(a, v, e) == CountBelow(a[..x] + a[x + 1..], v, e) + (if a[x] < v
        || (e && a[x] == v) then 1 else 0)
    decreases |a|
  {
    var n := |a| - 1;
    if x == n {
      assert a[..x] + a[x + 1..] == a[..n];
    } else {
      CountDrop(a[..n], x, v, e);
      var b := a[..x] + a[x + 1..];
      assert b[..|b| - 1] == a[..n][..x] + a[..n][x + 1..];
      assert b[|b| - 1] == a[n];
    }
  }

  lemma RemoveOne(b: seq<int>, x: nat)
    requires x < |b|
    ensures multiset(b[..x] + b[x + 1..]) == multiset(b) - multiset{b[x]}
  {
    assert b == b[..x] + [b[x]] + b[x + 1..];
    assert multiset(b) == multiset(b[..x]) + multiset{b[x]} + multiset(b[x + 1..]);
  }

  /** Counting does not depend on the order. */
  lemma {:induction false} CountPermutes(a: seq<int>, b: seq<int>, v: int, e: bool)
    requires multiset(a) == multiset(b)
    ensures CountBelow(a, v, e) == CountBelow(b, v, e)
    decreases |a|
  {
    assert |multiset(a)| == |a| && |multiset(b)| == |b|;
    if a != [] {
      var n := |a| - 1;
      assert a[n] in multiset(b);
      var x :| 0 <= x < |b| && b[x] == a[n];
      RemoveOne(a, n);
      RemoveOne(b, x);
      assert a[..n] + a[n + 1..] == a[..n];
      CountDrop(b, x, v, e);
      CountPermutes(a[..n], b[..x] + b[x + 1..], v, e);
    }
  }

  /** At least n elements count when the first n do. */
  lemma {:induction false} CountAtLeast(a: seq<int>, n: nat, v: int, e: bool)
    requires n <= |a| && forall x :: 0 <= x < n ==> a[x] < v || (e && a[x] == v)
    ensures CountBelow(a, v, e) >= n
    decreases |a|
  {
    if a != [] {
      CountAtLeast(a[..|a| - 1], if n < |a| then n else n - 1, v, e);
    }
  }

  /** At most n elements count when none behind the first n does. */
  lemma {:induction false} CountAtMost(a: seq<int>, n: nat, v: int, e: bool)
    requires n <= |a| && forall x :: n <= x < |a| ==> !(a[x] < v || (e && a[x] == v))
    ensures CountBelow(a, v, e) <= n
    decreases |a|
  {
    if a != [] {
      CountAtMost(a[..|a| - 1], if n < |a| then n else n - 1, v, e);
    }
  }

  /** An element that everything before it does not exceed, and everything behind it does not
      undercut, is where sorting puts it. */
  lemma PlacedRight(a: seq<int>, b: seq<int>, z: nat)
    requires multiset(a) == multiset(b) && Sorted(b) && z < |a|
    requires forall x :: 0 <= x < z ==> a[x] <= a[z]
    requires forall x :: z < x < |a| ==> a[z] <= a[x]
    ensures z < |b| && b[z] == a[z]
  {
    assert |multiset(a)| == |a| && |multiset(b)| == |b|;
    var v := a[z];
    CountAtLeast(a, z + 1, v, true);
    CountAtMost(a, z, v, false);
    CountPermutes(a, b, v, true);
    CountPermutes(a, b, v, false);
    if b[z] > v {
      CountAtMost(b, z, v, true);
    } else if b[z] < v {
      CountAtLeast(b, z + 1, v, false);
    }
  }

  /** At every moment: what no thread still owns is in its final place. */
  lemma FinalPlaces(s: State, ls: seq<Label>, z: nat, sorted: seq<int>)
    requires Initial(s) && Runs(s, ls) && z < |s.a|
    requires multiset(sorted) == multiset(s.a) && Sorted(sorted)
    requires forall t, g :: Slot(Exec(s, ls), t, g) ==> !In(SegOf(Exec(s, ls), t, g), z)
    ensures z < |Exec(s, ls).a| && z < |sorted| && Exec(s, ls).a[z] == sorted[z]
  {
    InitialInv(s);
    RunInv(s, ls);
    var e := Exec(s, ls);
    assert |multiset(e.a)| == |e.a| && |multiset(s.a)| == |s.a|;
    forall x | 0 <= x < z ensures e.a[x] <= e.a[z] {
      assert !Inverted(e.a, x, z);
    }
    forall x | z < x < |e.a| ensures e.a[z] <= e.a[x] {
      assert !Inverted(e.a, z, x);
    }
    PlacedRight(e.a, sorted, z);
  }

  // ---------------------------------------------------------------- every run ends

  function Size(lo: int, hi: int): nat { if lo <= hi then hi - lo + 1 else 0 }

  /** Steps enough for quick on m elements. */
  function Cost(m: nat): nat { 4 * (m + 1) * (m + 1) }

  lemma CostSplits(l: nat, r: nat)
    ensures Cost(l) + Cost(r) + 8 * (l + r + 1) <= Cost(l + r + 1)
  {
    var x, y := l + 1, r + 1;
    assert (x - 1) * (y - 1) >= 0;
    assert (x + y) * (x + y) == x * x + 2 * (x * y) + y * y;
    assert x * y >= x + y - 1;
  }

  /** Cost of what follows partition on m elements, whatever it returns. */
  function AfterCost(m: nat): int { Cost(m) - 8 * m + 3 }

  function Ahead(top: Top, args: Args): int
  {
    match top
    case Enter => Cost(Size(args.lb, args.ub))
    case Loop(lb, ub, i, j, _) => 3 * (j - i + 1) + 2 + AfterCost(Size(lb, ub))
    case Up(lb, ub, i, j, _) => 3 * (j - i + 1) + 4 + AfterCost(Size(lb, ub))
    case Down(lb, ub, i, j, _) => 3 * (j - i + 1) + 4 + AfterCost(Size(lb, ub))
    case Swap(lb, ub, i, j, _) => 3 * (j - i + 1) + 3 + AfterCost(Size(lb, ub))
    case Last(lb, ub, _, _) => 1 + AfterCost(Size(lb, ub))
    case Left(lb, ub, k) => 3 + Cost(Size(lb, k - 1)) + Cost(Size(k + 1, ub))
    case Right(k, ub) => 1 + Cost(Size(k + 1, ub))
    case Gone => 0
  }

  function OwedCost(owed: seq<Half>): nat
  {
    if owed == [] then 0
    else OwedCost(owed[..|owed| - 1]) + 1 + Cost(Size(owed[|owed| - 1].k + 1, owed[|owed| - 1].ub))
  }

  function ThreadCost(th: Thread): int { Ahead(th.top, th.args) + OwedCost(th.owed) }

  function Total(ths: seq<Thread>): int
  {
    if ths == [] then 0 else Total(ths[..|ths| - 1]) + ThreadCost(ths[|ths| - 1])
  }

  lemma {:induction false} TotalUpdate(ths: seq<Thread>, t: nat, th: Thread)
    requires t < |ths|
    ensures Total(ths[t := th]) == Total(ths) - ThreadCost(ths[t]) + ThreadCost(th)
    decreases |ths|
  {
    var n := |ths| - 1;
    if t < n {
      TotalUpdate(ths[..n], t, th);
      assert ths[t := th][..n] == ths[..n][t := th];
    } else {
      assert ths[t := th][..n] == ths[..n];
    }
  }

  lemma TotalAppend(ths: seq<Thread>, th: Thread)
    ensures Total(ths + [th]) == Total(ths) + ThreadCost(th)
  {
    assert (ths + [th])[..|ths|] == ths;
  }

  function Measure(s: State): int { Total(s.threads) + if s.joined then 0 else 1 }

  lemma ReturnCost(th: Thread)
    ensures ThreadCost(Return(th)) == OwedCost(th.owed)
  {
  }

  /** Steps inside partition bring its indices together. */
  lemma ScanCost(th: Thread, top: Top)
    requires match th.top
             case Loop(lb, ub, i, j, v) => (i < j && top == Up(lb, ub, i + 1, j, v))
                 || (j + 1 >= i && top == Last(lb, ub, j, v))
             case Up(lb, ub, i, j, v) => top == Up(lb, ub, i + 1, j, v) || top == Down(lb, ub, i, j - 1, v)
             case Down(lb, ub, i, j, v) => top == Down(lb, ub, i, j - 1, v) || top == Swap(lb, ub, i, j, v)
             case Swap(lb, ub, i, j, v) => top == Loop(lb, ub, i, j, v)
             case _ => false
    ensures ThreadCost(th.(top := top)) < ThreadCost(th)
  {
  }

  lemma EnterCost(th: Thread, v: int)
    requires th.top == Enter && th.args.lb < th.args.ub
    ensures ThreadCost(th.(top := Loop(th.args.lb, th.args.ub, th.args.lb, th.args.ub + 1, v))) < ThreadCost(th)
  {
  }

  lemma LastCost(th: Thread)
    requires th.top.Last? && th.top.lb <= th.top.j <= th.top.ub
    ensures ThreadCost(th.(top := Left(th.top.lb, th.top.ub, th.top.j))) < ThreadCost(th)
  {
    CostSplits(Size(th.top.lb, th.top.j - 1), Size(th.top.j + 1, th.top.ub));
  }

  lemma LeftCost(th: Thread)
    requires th.top.Left?
    ensures var Left(lb, ub, k) := th.top;
            var args := Args(lb, k - 1);
            && ThreadCost(Thread(args, th.owed, Right(k, ub))) + ThreadCost(Thread(args, [], Enter)) < ThreadCost(th)
            && ThreadCost(Thread(args, th.owed + [Half(k, ub)], Enter)) < ThreadCost(th)
  {
    var owed := th.owed + [Half(th.top.k, th.top.ub)];
    assert owed[..|owed| - 1] == th.owed;
  }

  lemma RightCost(th: Thread)
    requires th.top.Right?
    ensures var Right(k, ub) := th.top;
            var args := Args(k + 1, ub);
            && ThreadCost(Return(th.(args := args))) + ThreadCost(Thread(args, [], Enter)) < ThreadCost(th)
            && ThreadCost(Thread(args, th.owed, Enter)) < ThreadCost(th)
  {
    ReturnCost(th.(args := Args(th.top.k + 1, th.top.ub)));
  }

  /** Only thread t moves, and it forks at most one. */
  lemma StepShape(s: State, t: nat)
    requires Enabled(s, Run(t))
    ensures var s' := Apply(s, Run(t));
            && |s.threads| <= |s'.threads| <= |s.threads| + 1 && s'.joined == s.joined
            && s'.threads[..|s.threads|] == s.threads[t := s'.threads[t]]
            && (|s'.threads| > |s.threads| ==> s.threads[t].top.Left? || s.threads[t].top.Right?)
  {
  }

  function ForkCost(s: State, s': State): int
  {
    if |s'.threads| > |s.threads| then ThreadCost(s'.threads[|s.threads|]) else 0
  }

  /** The work of a thread, with that of the thread it forks, goes down at every step. */
  lemma ThreadSteps(s: State, t: nat)
    requires t < |s.threads| && TopOk(s, s.threads[t]) && Enabled(s, Run(t))
    ensures var s' := Apply(s, Run(t));
            |s'.threads| >= |s.threads| && ThreadCost(s'.threads[t]) + ForkCost(s, s') < ThreadCost(s.threads[t])
  {
    StepShape(s, t);
    if s.threads[t].top.Left? || s.threads[t].top.Right? {
      HalfSteps(s, t);
    } else {
      PlainSteps(s, t);
      hide Apply, Enabled, TopOk, ThreadCost;
    }
  }

  lemma HalfSteps(s: State, t: nat)
    requires t < |s.threads| && TopOk(s, s.threads[t]) && Enabled(s, Run(t))
    requires s.threads[t].top.Left? || s.threads[t].top.Right?
    ensures var s' := Apply(s, Run(t));
            |s'.threads| >= |s.threads| && ThreadCost(s'.threads[t]) + ForkCost(s, s') < ThreadCost(s.threads[t])
  {
    if s.threads[t].top.Left? { LeftCost(s.threads[t]); } else { RightCost(s.threads[t]); }
    hide ThreadCost;
  }

  lemma PlainSteps(s: State, t: nat)
    requires t < |s.threads| && TopOk(s, s.threads[t]) && Enabled(s, Run(t)) && !s.threads[t].top.Left?
        && !s.threads[t].top.Right?
    ensures var s' := Apply(s, Run(t));
            |s'.threads| == |s.threads| && ThreadCost(s'.threads[t]) < ThreadCost(s.threads[t])
  {
    var th := s.threads[t];
    if th.top == Enter {
      if th.args.lb < th.args.ub { EnterCost(th, s.a[th.args.lb]); } else { ReturnCost(th); }
    } else if th.top.Last? {
      LastCost(th);
    } else {
      ScanCost(th, Apply(s, Run(t)).threads[t].top);
    }
  }

  lemma MeasureDecreases(s: State, l: Label)
    requires Inv(s) && Enabled(s, l)
    ensures Measure(Apply(s, l)) < Measure(s)
  {
    if l.Run? {
      assert TopOk(s, s.threads[l.t]);
      ThreadSteps(s, l.t);
      StepShape(s, l.t);
      var s' := Apply(s, l);
      TotalUpdate(s.threads, l.t, s'.threads[l.t]);
      if |s'.threads| > |s.threads| {
        var q := s'.threads[|s.threads|];
        assert s'.threads == s.threads[l.t := s'.threads[l.t]] + [q];
        TotalAppend(s.threads[l.t := s'.threads[l.t]], q);
      } else {
        assert s'.threads == s.threads[l.t := s'.threads[l.t]];
      }
    }
  }

  lemma {:induction false} TotalNonNegative(s: State, n: nat)
    requires Inv(s) && n <= |s.threads|
    ensures Total(s.threads[..n]) >= 0
  {
    if n > 0 {
      TotalNonNegative(s, n - 1);
      assert s.threads[..n][..n - 1] == s.threads[..n - 1];
      AheadNonNegative(s, s.threads[n - 1]);
    }
  }

  lemma AheadNonNegative(s: State, th: Thread)
    requires TopOk(s, th)
    ensures Ahead(th.top, th.args) >= 0
  {
    match th.top
    case Loop(lb, ub, _, _, _) => CostSplits(ub - lb, 0);
    case Up(lb, ub, _, _, _) => CostSplits(ub - lb, 0);
    case Down(lb, ub, _, _, _) => CostSplits(ub - lb, 0);
    case Swap(lb, ub, _, _, _) => CostSplits(ub - lb, 0);
    case Last(lb, ub, _, _) => CostSplits(ub - lb, 0);
    case _ =>
  }

  lemma {:induction false} RunsAreShort(s: State, ls: seq<Label>)
    requires Inv(s) && Runs(s, ls)
    ensures |ls| <= Measure(s)
    decreases |ls|
  {
    TotalNonNegative(s, |s.threads|);
    assert s.threads[..|s.threads|] == s.threads;
    if ls != [] {
      StepInv(s, ls[0]);
      MeasureDecreases(s, ls[0]);
      RunsAreShort(Apply(s, ls[0]), ls[1..]);
    }
  }

  lemma NeverStuck(s: State, ls: seq<Label>)
    requires Initial(s) && Runs(s, ls) && !Exec(s, ls).joined
    ensures exists l :: Enabled(Exec(s, ls), l)
  {
    InitialInv(s);
    RunInv(s, ls);
    var e := Exec(s, ls);
    if t :| 0 <= t < |e.threads| && e.threads[t].top != Gone {
      NeverOutOfBounds(e, t);
    } else {
      assert Enabled(e, Join);
    }
  }

  /** Total correctness over all schedules: a run on n elements has at most 4(n+1)^2 + 1 steps,
      and one that cannot be prolonged has joined with the array sorted. */
  lemma EveryScheduleSorts(s: State, ls: seq<Label>)
    requires Initial(s) && Runs(s, ls)
    ensures |ls| <= 4 * (|s.a| + 1) * (|s.a| + 1) + 1
    ensures (forall l :: !Enabled(Exec(s, ls), l)) ==>
              Exec(s, ls).joined && Sorted(Exec(s, ls).a) && multiset(Exec(s, ls).a) == multiset(s.a)
  {
    InitialInv(s);
    RunsAreShort(s, ls);
    assert s.threads[..0] == [];
    assert Total(s.threads) == Total([]) + ThreadCost(s.threads[0]);
    if forall l :: !Enabled(Exec(s, ls), l) {
      if !Exec(s, ls).joined { NeverStuck(s, ls); }
      JoinedIsSorted(s, ls);
    }
  }
}

/** spin.c: the second half of main and the workers it starts, as a whole program on the scheduler.

    Every thread runs its own statements one at a time; *p->ip = *p->ip + 1 is a load and a store.
    Between any two steps outside thread.c the interrupt handler may switch (Preempt).  The
    program is its code, so the only choice is when to preempt: a schedule is a sequence of
    steps, each an interrupt or the next step of the running thread. */
module Spin {
  import opened Semaphores
  import opened ThreadQueues
  import opened Scheduler
  import opened SchedulerRuns

  const MUTEX: SemId := 0

  /** Where a thread is: in main, or in safe, or past its end. */
  datatype PC = Prepare | Create(i: nat) | Report | Leaving
              | Test(i: nat) | Load(i: nat) | Store(i: nat, reg: int) | Unlock(i: nat) | Done

  /** `workers` and `bumps` are m and NBUMP. */
  datatype World = World(workers: int, bumps: nat, s: State, pc: map<Tid, PC>, n: int, printed: seq<int>)

  datatype Choice = Interrupt | Go

  function Pc(w: World, t: Tid): PC { if t in w.pc then w.pc[t] else Done }

  function Workers(w: World): nat { if w.workers < 0 then 0 else w.workers }

  /** The call into thread.c that is next, if the next step is one. */
  function Next(w: World): (l: seq<Label>)
  {
    if Pend(w.s, w.s.current) != Nothing then [Resume]
    else
      match Pc(w, w.s.current)
      case Prepare => [Init(1)]
      case Create(i) => if i < w.workers then [New] else [JoinAll]
      case Report => []
      case Leaving => [Exit(0)]
      case Test(i) => if i < w.bumps then [Wait(MUTEX)] else [Exit(0)]
      case Load(i) => []
      case Store(i, r) => []
      case Unlock(i) => [Signal(MUTEX)]
      case Done => []
  }

  function Goto(w: World, pc: PC): World { w.(pc := w.pc[w.s.current := pc]) }

  /** Where the running thread is after its step, and what the step does to n and the output. */
  function Local(w: World): World
  {
    if Pend(w.s, w.s.current) != Nothing then w
    else
      match Pc(w, w.s.current)
      case Prepare => Goto(w, Create(0)).(n := 0)
      case Create(i) =>
        if i < w.workers then w.(pc := w.pc[w.s.current := Create(i + 1)][w.s.next := Test(0)])
        else Goto(w, Report)
      case Report => Goto(w, Leaving).(printed := w.printed + [w.n])
      case Leaving => Goto(w, Done)
      case Test(i) => if i < w.bumps then Goto(w, Load(i)) else Goto(w, Done)
      case Load(i) => Goto(w, Store(i, w.n))
      case Store(i, r) => Goto(w, Unlock(i)).(n := r + 1)
      case Unlock(i) => Goto(w, Test(i + 1))
      case Done => w
  }

  predicate CanTake(w: World, c: Choice)
  {
    match c
    case Interrupt => Enabled(w.s, Preempt)
    case Go => w.s.status == Running && Pc(w, w.s.current) != Done && (Next(w) != [] ==> Enabled(w.s, Next(w)[0]))
  }

  function Take(w: World, c: Choice): World
    requires CanTake(w, c)
  {
    match c
    case Interrupt => w.(s := Apply(w.s, Preempt))
    case Go => if Next(w) == [] then Local(w) else Local(w).(s := Apply(w.s, Next(w)[0]))
  }

  predicate Start(w: World)
  {
    Initial(w.s) && w.pc == map[ROOT := Prepare] && w.printed == []
  }

  // ---------------------------------------------------------------- the invariant

  predicate Inside(p: PC) { p.Load? || p.Store? || p.Unlock? }

  predicate AtWork(p: PC) { p.Test? || Inside(p) }

  /** Thread t is between LOCK and END_LOCK: it has come out of Sem_wait. */
  predicate Holds(w: World, t: Tid) { t in w.s.live && Inside(Pc(w, t)) && t !in Q(w.s, SemOf(MUTEX)) }

  /** How often a thread has stored. */
  function Bumped(bumps: nat, p: PC): nat
  {
    match p
    case Test(i) => i
    case Load(i) => i
    case Store(i, _) => i
    case Unlock(i) => i + 1
    case _ => bumps
  }

  /** The loop runs for i below bumps. */
  predicate Fits(bumps: nat, p: PC)
  {
    match p
    case Test(i) => i <= bumps
    case Load(i) => i < bumps
    case Store(i, _) => i < bumps
    case Unlock(i) => i < bumps
    case _ => true
  }

  /** How often the threads before k have stored. */
  function Total(bumps: nat, pc: map<Tid, PC>, k: nat): nat
  {
    if k <= 1 then 0 else Total(bumps, pc, k - 1) + Bumped(bumps, if k - 1 in pc then pc[k - 1] else Done)
  }

  ghost predicate Crew(w: World)
  {
    && (forall t ::
         1 <= t < w.s.next ==>
         t in w.pc && (t in w.s.live <==> w.pc[t] != Done) && (w.pc[t] == Done || AtWork(w.pc[t])))
    && (forall t :: t in w.s.live ==> t < w.s.next)
    && (forall t :: 1 <= t < w.s.next ==> Pend(w.s, t) == Nothing || (Pend(w.s, t) == InWait(MUTEX) && Pc(w, t).Load?))
    && w.s.alerted == {}
    && (forall t :: 1 <= t < w.s.next ==> Fits(w.bumps, w.pc[t]))
  }

  ghost predicate Root(w: World)
  {
    && w.s.next >= 1 && ROOT in w.pc && (ROOT in w.s.live <==> w.pc[ROOT] != Done) && !AtWork(w.pc[ROOT])
    && (w.pc[ROOT] == Prepare ==> w.s.sems == [] && w.s.next == 1)
    && (w.pc[ROOT] != Prepare ==> Armed(w.s))
    && (w.pc[ROOT].Create? ==> w.s.next == w.pc[ROOT].i + 1 && w.pc[ROOT].i <= Workers(w))
    && (w.pc[ROOT] == Report ==> w.s.next == Workers(w) + 1 && (Pend(w.s, ROOT) == Nothing ==> w.s.live == {ROOT}))
    && (Pend(w.s, ROOT) == Nothing || (w.pc[ROOT] == Report && Pend(w.s, ROOT) == InJoinAll))
    && (w.pc[ROOT] == Leaving ==> w.s.live == {ROOT})
    && (w.pc[ROOT] == Done ==> w.s.live == {})
    && w.printed == if AtStart(w.pc[ROOT]) then [] else [w.bumps * Workers(w)]
  }

  predicate AtStart(p: PC) { p.Prepare? || p.Create? || p.Report? }

  predicate Armed(s: State) { |s.sems| == 1 && s.sems[MUTEX].initial == 1 }

  /** The lock and what it protects. */
  ghost predicate Locked(w: World)
  {
    && (forall t, u :: Holds(w, t) && Holds(w, u) ==> t == u)
    && (forall t :: t in Q(w.s, SemOf(MUTEX)) ==> Pc(w, t).Load?)
    && (forall t :: Holds(w, t) && Pc(w, t).Store? ==> Pc(w, t).reg == w.n)
    && (w.s.sems != [] ==> 0 <= w.s.sems[0].count <= 1 && (w.s.sems[0].count == 0 <==> exists t :: Holds(w, t)))
  }

  ghost predicate Counted(w: World)
  {
    Pc(w, ROOT) != Prepare ==> w.n == Total(w.bumps, w.pc, w.s.next)
  }

  ghost predicate Good(w: World)
  {
    && Inv(w.s) && w.s.status != Stuck && Crew(w) && Root(w) && Locked(w)
    && Counted(w)
  }

  lemma StartGood(w: World)
    requires Start(w)
    ensures Good(w)
  {
    InitialInv(w.s);
  }

  // ---------------------------------------------------------------- what the calls do, as far as this program can tell

  /** Nothing this program looks at changed, except who runs. */
  ghost predicate Same(s: State, r: State)
  {
    && r.live == s.live && r.next == s.next && r.pend == s.pend && r.alerted == s.alerted && r.sems == s.sems
    && Q(r, SemOf(MUTEX)) == Q(s, SemOf(MUTEX))
  }

  lemma PreemptSame(s: State)
    requires s.status == Running
    ensures var r := RunNext(Put(s, s.current, Ready)); Same(s, r) && r.status == Running
  {
  }

  lemma BlockSame(s: State, q: QueueId, p: Pending)
    requires s.status == Running && q != Ready
    ensures var r := Block(s, q, p); 
            && Same(s.(pend := s.pend[s.current := p], queues := s.queues[q := Q(s, q) + [s.current]]), r)
            && (Q(s, Ready) != [] ==> r.status == Running)
  {
  }

  lemma NewSame(s: State)
    ensures var r := ThreadNew(s);
            Same(s.(live := s.live + {s.next}, next := s.next + 1, pend := s.pend[s.next := Nothing]), r)
            && r.status == s.status && r.current == s.current
  {
  }

  lemma ExitSame(s: State)
    requires Inv(s) && s.status == Running && s.alerted == {}
    requires s.nthreads == 1 || Q(s, Ready) != [] || (Q(s, Join0) != [] && s.nthreads == 2)
    ensures var r := ThreadExit(s, 0); Same(s.(live := s.live - {s.current}), r) && r.status != Stuck
  {
    ExitChanges(s, 0);
    ExitNext(s, 0);
    assert |s.live| >= 1 by { assert s.current in s.live; }
    if s.nthreads > 1 {
      ExitRuns(s, 0);
    } else {
      ExitLast(s, 0);
    }
  }

  // ---------------------------------------------------------------- preemption

  lemma SameGood(w: World, v: World)
    requires Crew(w) && Root(w) && Locked(w) && Counted(w)
    requires v == w.(s := v.s) && Same(w.s, v.s)
    ensures Crew(v) && Root(v) && Locked(v) && Counted(v)
  {
    assert forall t :: Pend(v.s, t) == Pend(w.s, t);
    assert forall t :: Holds(v, t) <==> Holds(w, t);
  }

  lemma InterruptGood(w: World)
    requires Good(w) && CanTake(w, Interrupt)
    ensures Good(Take(w, Interrupt))
  {
    StepInv(w.s, Preempt);
    PreemptSame(w.s);
    hide Inv, Crew, Root, Locked, Counted;
    SameGood(w, Take(w, Interrupt));
  }

  // ---------------------------------------------------------------- somebody can always run

  /** Where a live worker that does not run is. */
  lemma WhereWorker(w: World, t: Tid)
    requires Inv(w.s) && w.s.status == Running && Crew(w) && t in w.s.live && t >= 1 && t != w.s.current
    ensures t in Q(w.s, Ready) || t in Q(w.s, SemOf(MUTEX))
  {
    InLive(w.s, t);
    QueuedAt(w.s, w.s.inq[t]);
    assert Blocked(w.s, t, w.s.inq[t]);
    assert Pend(w.s, t) != Nothing ==> Pend(w.s, t) == InWait(MUTEX);
  }

  lemma WhereRoot(w: World)
    requires Inv(w.s) && w.s.status == Running && Root(w) && ROOT in w.s.live && ROOT != w.s.current
    ensures ROOT in Q(w.s, Ready) || ROOT in Q(w.s, Join0)
  {
    InLive(w.s, ROOT);
    QueuedAt(w.s, w.s.inq[ROOT]);
    assert Blocked(w.s, ROOT, w.s.inq[ROOT]);
  }

  /** If another thread holds the lock, it is ready. */
  lemma HolderReady(w: World, h: Tid)
    requires Inv(w.s) && w.s.status == Running && Crew(w) && Root(w) && Holds(w, h) && h != w.s.current
    ensures Q(w.s, Ready) != []
  {
    assert h != ROOT;
    WhereWorker(w, h);
    assert h in Q(w.s, Ready);
  }

  /** Another worker is left and the running thread does not hold the lock: somebody is ready. */
  lemma SomeoneReady(w: World, t: Tid)
    requires Inv(w.s) && w.s.status == Running && Crew(w) && Root(w) && Locked(w)
    requires t in w.s.live && t >= 1 && t != w.s.current && !Holds(w, w.s.current)
    ensures Q(w.s, Ready) != []
  {
    assert t < w.s.next;
    WhereWorker(w, t);
    if t in Q(w.s, SemOf(MUTEX)) {
      assert w.pc[ROOT] != Prepare;
      CountAt(w.s, MUTEX);
      assert w.s.sems[0].count == 0;
      var h :| Holds(w, h);
      HolderReady(w, h);
    } else {
      assert Q(w.s, Ready) != [] by { assert t in Q(w.s, Ready); }
    }
  }

  // ---------------------------------------------------------------- sums

  lemma {:induction false} TotalSame(bumps: nat, pc: map<Tid, PC>, pd: map<Tid, PC>, k: nat)
    requires forall t :: 1 <= t < k ==> t in pc && t in pd && Bumped(bumps, pc[t]) == Bumped(bumps, pd[t])
    ensures Total(bumps, pc, k) == Total(bumps, pd, k)
  {
    if k > 1 { TotalSame(bumps, pc, pd, k - 1); }
  }

  lemma {:induction false} TotalAt(bumps: nat, pc: map<Tid, PC>, pd: map<Tid, PC>, k: nat, u: Tid)
    requires forall t :: 1 <= t < k ==> t in pc && t in pd && (t != u ==> pc[t] == pd[t])
    requires 1 <= u < k
    ensures Total(bumps, pd, k) == Total(bumps, pc, k) - Bumped(bumps, pc[u]) + Bumped(bumps, pd[u])
  {
    if k - 1 == u { TotalSame(bumps, pc, pd, u); } else { TotalAt(bumps, pc, pd, k - 1, u); }
  }

  lemma {:induction false} TotalDone(bumps: nat, pc: map<Tid, PC>, k: nat)
    requires k >= 1 && forall t :: 1 <= t < k ==> t in pc && pc[t] == Done
    ensures Total(bumps, pc, k) == bumps * (k - 1)
  {
    if k > 1 {
      TotalDone(bumps, pc, k - 1);
      assert bumps * (k - 1) == bumps * (k - 2) + bumps;
    }
  }

  // ---------------------------------------------------------------- one thread moves

  /** The running thread c moves to pc b, in ways only its own entries tell. */
  ghost predicate Moves(w: World, v: World, c: Tid, b: PC)
  {
    && v.pc == w.pc[c := b] && v.bumps == w.bumps && v.workers == w.workers && c in w.s.live
    && v.s.next == w.s.next && v.s.alerted == w.s.alerted
    && v.s.live == (if b == Done then w.s.live - {c} else w.s.live)
    && forall t :: t != c ==> Pend(v.s, t) == Pend(w.s, t)
  }

  lemma CrewMove(w: World, v: World, c: Tid, b: PC)
    requires Crew(w) && Moves(w, v, c, b)
    requires c >= 1 ==>
        (b == Done || AtWork(b)) && Fits(w.bumps, b)
        && (Pend(v.s, c) == Nothing || (Pend(v.s, c) == InWait(MUTEX) && b.Load?))
    ensures Crew(v)
  {
  }

  /** A worker's step is nothing to main. */
  lemma RootWorker(w: World, v: World, c: Tid, b: PC)
    requires Root(w) && Moves(w, v, c, b) && c >= 1 && v.printed == w.printed && (Armed(w.s) ==> Armed(v.s))
    requires w.s.next > 1
    ensures Root(v)
  {
    assert w.s.live != {ROOT} by { assert c in w.s.live; }
  }

  /** A step that neither takes nor leaves the lock. */
  lemma LockedMove(w: World, v: World, c: Tid, b: PC)
    requires Locked(w) && Moves(w, v, c, b) && c !in Q(w.s, SemOf(MUTEX))
    requires Q(v.s, SemOf(MUTEX)) == Q(w.s, SemOf(MUTEX)) && v.s.sems == w.s.sems
    requires Inside(Pc(w, c)) == Inside(b) && (b.Store? ==> b.reg == v.n) && (v.n == w.n || Inside(b))
    ensures Locked(v)
  {
    assert Inside(b) ==> Holds(w, c);
    assert forall t :: Holds(v, t) <==> Holds(w, t);
    assert forall t :: t != c ==> Pc(v, t) == Pc(w, t);
  }

  lemma CountedMove(w: World, v: World, c: Tid, b: PC)
    requires Crew(w) && Root(w) && Counted(w) && Moves(w, v, c, b) && Pc(w, ROOT) != Prepare
    requires if c == ROOT then v.n == w.n else v.n - w.n == Bumped(w.bumps, b) - Bumped(w.bumps, Pc(w, c))
    ensures Counted(v)
  {
    if c == ROOT {
      TotalSame(w.bumps, w.pc, v.pc, w.s.next);
    } else {
      TotalAt(w.bumps, w.pc, v.pc, w.s.next, c);
    }
  }

  /** Who runs: main or a worker, in no queue, not in the middle of a call it cannot be in. */
  lemma Runner(w: World)
    requires Good(w) && w.s.status == Running
    ensures w.s.current in w.s.live && w.s.current !in Q(w.s, SemOf(MUTEX)) && w.s.current < w.s.next
    ensures w.s.alerted == {} && (w.s.current >= 1 <==> AtWork(Pc(w, w.s.current))) && Pc(w, w.s.current) != Done
    ensures w.s.current >= 1 ==>
        Pc(w, ROOT) != Prepare && Armed(w.s) && Fits(w.bumps, Pc(w, w.s.current)) && ROOT in w.s.live
        && w.pc[ROOT] != Leaving
    ensures w.s.current == ROOT ==> Pc(w, ROOT) == Prepare || Armed(w.s)
  {
    InQueueNot(w.s, SemOf(MUTEX));
    assert w.s.current in w.s.live;
    if w.s.current >= 1 {
      assert w.s.live != {ROOT} && w.s.live != {};
    }
  }

  // ---------------------------------------------------------------- the steps of main

  lemma PrepareGood(w: World)
    requires Good(w) && CanTake(w, Go) && Pend(w.s, w.s.current) == Nothing && Pc(w, w.s.current) == Prepare
    ensures Good(Take(w, Go))
    ensures Moves(w, Take(w, Go), w.s.current, Create(0))
  {
    hide Inv, Crew, Root, Locked, Counted, Take, Apply, Enabled, Next, Local;
    Runner(w);
    AtBegin(w);
    PrepareTake(w);
    StepInv(w.s, Init(1));
    NobodyWaits(w.s, MUTEX);
    var v := Take(w, Go);
    assert Q(v.s, SemOf(MUTEX)) == Q(w.s, SemOf(MUTEX));
    PrepareParts(w, v);
  }

  lemma AtBegin(w: World)
    requires Good(w) && w.s.status == Running && Pc(w, w.s.current) == Prepare
    ensures w.s.current == ROOT && w.s.sems == [] && w.s.next == 1
    ensures Queued(w.s) && Waiting(w.s)
  {
  }

  lemma PrepareTake(w: World)
    requires CanTake(w, Go) && Pend(w.s, w.s.current) == Nothing && Pc(w, w.s.current) == Prepare && w.s.sems == []
    ensures Enabled(w.s, Init(1)) && Apply(w.s, Init(1)) == w.s.(sems := [Semaphore(1, 1, 0, 0)])
    ensures Take(w, Go) == w.(s := Apply(w.s, Init(1)), pc := w.pc[w.s.current := Create(0)], n := 0)
  {
  }

  lemma PrepareParts(w: World, v: World)
    requires Crew(w) && Root(w) && Pc(w, ROOT) == Prepare && ROOT in w.s.live && Q(v.s, SemOf(MUTEX)) == []
    requires v == w.(s := w.s.(sems := [Semaphore(1, 1, 0, 0)]), pc := w.pc[ROOT := Create(0)], n := 0)
    ensures Crew(v) && Root(v) && Locked(v) && Counted(v) && Moves(w, v, ROOT, Create(0))
  {
    assert forall t :: Pend(v.s, t) == Pend(w.s, t);
    CrewMove(w, v, ROOT, Create(0));
    PrepareLocked(w, v);
    hide Crew, Locked;
  }

  lemma PrepareLocked(w: World, v: World)
    requires Crew(v) && !AtWork(Pc(v, ROOT)) && v.s.next == 1 && Q(v.s, SemOf(MUTEX)) == []
        && v.s.sems == [Semaphore(1, 1, 0, 0)]
    ensures Locked(v)
  {
    assert forall t :: !Holds(v, t);
  }

  lemma CreateGood(w: World)
    requires Good(w) && CanTake(w, Go) && Pend(w.s, w.s.current) == Nothing && Pc(w, w.s.current).Create?
        && Pc(w, w.s.current).i < w.workers
    ensures Good(Take(w, Go))
  {
    hide Inv, ThreadNew, Crew, Root, Locked, Counted, Take, Apply, Enabled, Next, Local;
    Runner(w);
    CreateTake(w);
    StepInv(w.s, New);
    NewNobody(w);
    NewSame(w.s);
    CreateParts(w, Take(w, Go));
  }

  lemma CreateTake(w: World)
    requires CanTake(w, Go) && Pend(w.s, w.s.current) == Nothing && Pc(w, w.s.current).Create?
        && Pc(w, w.s.current).i < w.workers
    ensures Enabled(w.s, New) && Take(w, Go) == w.(s := Apply(w.s, New),
        pc := w.pc[w.s.current := Create(Pc(w, w.s.current).i + 1)][w.s.next := Test(0)])
    ensures Apply(w.s, New) == ThreadNew(w.s)
  {
    hide ThreadNew;
  }

  lemma CreateParts(w: World, v: World)
    requires Crew(w) && Root(w) && Locked(w) && Counted(w)
    requires w.s.next !in Q(w.s, SemOf(MUTEX)) && w.s.next !in w.s.live && ROOT in w.pc && w.pc[ROOT].Create?
        && w.pc[ROOT].i < w.workers
    requires v == w.(s := v.s, pc := w.pc[ROOT := Create(w.pc[ROOT].i + 1)][w.s.next := Test(0)])
    requires Same(w.s.(live := w.s.live + {w.s.next}, next := w.s.next + 1, pend := w.s.pend[w.s.next := Nothing]), v.s)
    ensures Crew(v) && Root(v) && Locked(v) && Counted(v)
  {
    assert forall t :: t != w.s.next ==> Pend(v.s, t) == Pend(w.s, t);
    assert forall t :: t != ROOT && t != w.s.next ==> Pc(v, t) == Pc(w, t);
    CreateCounted(w, v);
    CreateRoot(w, v);
    hide Locked, Crew, Counted, Root;
    CreateCrew(w, v);
    CreateLocked(w, v);
  }

  lemma CreateRoot(w: World, v: World)
    requires Root(w) && ROOT in w.pc && w.pc[ROOT].Create? && w.pc[ROOT].i < w.workers && w.s.next !in w.s.live
    requires v == w.(s := v.s, pc := w.pc[ROOT := Create(w.pc[ROOT].i + 1)][w.s.next := Test(0)])
    requires Same(w.s.(live := w.s.live + {w.s.next}, next := w.s.next + 1, pend := w.s.pend[w.s.next := Nothing]), v.s)
    ensures Root(v)
  {
    assert Pend(v.s, ROOT) == Pend(w.s, ROOT);
  }

  lemma CreateCounted(w: World, v: World)
    requires Crew(w) && Root(w) && Counted(w) && ROOT in w.pc && w.pc[ROOT].Create? && v.s.next == w.s.next + 1
    requires v == w.(s := v.s, pc := w.pc[ROOT := Create(w.pc[ROOT].i + 1)][w.s.next := Test(0)])
    ensures Counted(v)
  {
    assert forall t :: 1 <= t < w.s.next ==> t in w.pc && v.pc[t] == w.pc[t];
    TotalSame(w.bumps, w.pc, v.pc, w.s.next);
  }

  lemma CreateCrew(w: World, v: World)
    requires Crew(w) && ROOT != w.s.next && v.bumps == w.bumps
    requires forall t :: t != w.s.next ==> Pend(v.s, t) == Pend(w.s, t)
    requires ROOT in v.pc && v.pc == w.pc[ROOT := v.pc[ROOT]][w.s.next := Test(0)]
    requires Same(w.s.(live := w.s.live + {w.s.next}, next := w.s.next + 1, pend := w.s.pend[w.s.next := Nothing]), v.s)
    ensures Crew(v)
  {
  }

  lemma CreateLocked(w: World, v: World)
    requires Locked(w) && w.s.next !in Q(w.s, SemOf(MUTEX)) && w.s.next !in w.s.live && v.n == w.n
    requires forall t :: t != ROOT && t != w.s.next ==> Pc(v, t) == Pc(w, t)
    requires Pc(v, w.s.next) == Test(0) && Pc(v, ROOT).Create? && Pc(w, ROOT).Create?
    requires Q(v.s, SemOf(MUTEX)) == Q(w.s, SemOf(MUTEX)) && v.s.sems == w.s.sems && v.s.live == w.s.live + {w.s.next}
    ensures Locked(v)
  {
    assert forall t :: Holds(v, t) <==> Holds(w, t);
  }

  /** The thread that is next to be made is nowhere yet. */
  lemma NewNobody(w: World)
    requires Inv(w.s) && w.s.status == Running
    ensures w.s.next !in Q(w.s, SemOf(MUTEX)) && w.s.next !in w.s.live
  {
    InQueue(w.s, SemOf(MUTEX), w.s.next);
    Fresh(w.s);
  }

  lemma JoinGood(w: World)
    requires Good(w) && CanTake(w, Go) && Pend(w.s, w.s.current) == Nothing && Pc(w, w.s.current).Create?
        && Pc(w, w.s.current).i >= w.workers
    ensures Good(Take(w, Go))
    ensures Moves(w, Take(w, Go), w.s.current, Report)
  {
    hide Inv, Block, Crew, Root, Locked, Counted, Take, Apply, Enabled, Next, Local;
    Runner(w);
    JoinTake(w);
    var v := Take(w, Go);
    StepInv(w.s, JoinAll);
    OnlyRoot(w.s);
    if w.s.nthreads > 1 {
      var t :| t in w.s.live && t != ROOT;
      SomeoneReady(w, t);
      BlockSame(w.s, Join0, InJoinAll);
    }
    JoinRoot(w, v);
    assert forall t :: t != ROOT ==> Pend(v.s, t) == Pend(w.s, t);
    assert Moves(w, v, ROOT, Report);
    CrewMove(w, v, ROOT, Report);
    LockedMove(w, v, ROOT, Report);
    CountedMove(w, v, ROOT, Report);
  }

  lemma JoinTake(w: World)
    requires CanTake(w, Go) && Pend(w.s, w.s.current) == Nothing && Pc(w, w.s.current).Create?
        && Pc(w, w.s.current).i >= w.workers
    requires w.s.alerted == {}
    ensures Enabled(w.s, JoinAll) && Take(w, Go) == w.(s := Apply(w.s, JoinAll), pc := w.pc[w.s.current := Report])
    ensures Apply(w.s, JoinAll) == if w.s.nthreads > 1 then Block(w.s, Join0, InJoinAll) else w.s
  {
    hide Block;
  }

  lemma JoinRoot(w: World, v: World)
    requires Root(w) && Pc(w, ROOT).Create? && Pc(w, ROOT).i >= w.workers && ROOT in w.s.live
    requires v == w.(s := v.s, pc := w.pc[ROOT := Report]) && v.s.live == w.s.live && v.s.sems == w.s.sems
        && v.s.next == w.s.next
    requires v.s.pend == w.s.pend[ROOT := InJoinAll] || (v.s.pend == w.s.pend && w.s.live == {ROOT})
    ensures Root(v)
  {
  }

  lemma OnlyRoot(s: State)
    requires Inv(s) && s.status == Running && s.current == ROOT
    ensures s.nthreads > 1 ==> exists t :: t in s.live && t != ROOT
    ensures s.nthreads <= 1 ==> s.live == {ROOT}
  {
    assert ROOT in s.live && s.nthreads == |s.live|;
    if s.nthreads > 1 {
      assert |s.live - {ROOT}| > 0;
      var t :| t in s.live - {ROOT};
    } else {
      assert |s.live - {ROOT}| == 0;
    }
  }

  lemma ReportGood(w: World)
    requires Good(w) && CanTake(w, Go) && Pend(w.s, w.s.current) == Nothing && Pc(w, w.s.current) == Report
    ensures Good(Take(w, Go))
    ensures Moves(w, Take(w, Go), w.s.current, Leaving)
  {
    hide Inv, Crew, Root, Locked, Counted, Take, Apply, Enabled, Next, Local;
    Runner(w);
    ReportTake(w);
    AllDone(w);
    var v := Take(w, Go);
    ReportRoot(w, v);
    CrewMove(w, v, ROOT, Leaving);
    LockedMove(w, v, ROOT, Leaving);
    CountedMove(w, v, ROOT, Leaving);
  }

  lemma ReportTake(w: World)
    requires CanTake(w, Go) && Pend(w.s, w.s.current) == Nothing && Pc(w, w.s.current) == Report
    ensures Take(w, Go) == w.(pc := w.pc[w.s.current := Leaving], printed := w.printed + [w.n])
  {
  }

  /** When main is back from Thread_join every worker has stored as often as it should. */
  lemma AllDone(w: World)
    requires Crew(w) && Root(w) && Counted(w) && Pc(w, ROOT) == Report && Pend(w.s, ROOT) == Nothing
    ensures w.n == w.bumps * Workers(w) && w.s.live == {ROOT}
  {
    TotalDone(w.bumps, w.pc, w.s.next);
  }

  lemma ReportRoot(w: World, v: World)
    requires Root(w) && Pc(w, ROOT) == Report && Pend(w.s, ROOT) == Nothing && w.n == w.bumps * Workers(w)
    requires v == w.(pc := w.pc[ROOT := Leaving], printed := w.printed + [w.n])
    ensures Root(v)
  {
  }

  lemma LeaveGood(w: World)
    requires Good(w) && CanTake(w, Go) && Pend(w.s, w.s.current) == Nothing && Pc(w, w.s.current) == Leaving
    ensures Good(Take(w, Go))
    ensures Moves(w, Take(w, Go), w.s.current, Done)
  {
    hide Inv, ThreadExit, Crew, Root, Locked, Counted, Take, Apply, Enabled, Next, Local;
    Runner(w);
    QuitTake(w);
    LeaveLast(w);
    var v := Take(w, Go);
    StepInv(w.s, Exit(0));
    ExitSame(w.s);
    assert forall t :: Pend(v.s, t) == Pend(w.s, t);
    LeaveRoot(w, v);
    CrewMove(w, v, ROOT, Done);
    LockedMove(w, v, ROOT, Done);
    CountedMove(w, v, ROOT, Done);
  }

  lemma LeaveLast(w: World)
    requires Inv(w.s) && w.s.status == Running && Root(w) && Pc(w, ROOT) == Leaving
    ensures w.s.nthreads == 1 && w.s.live == {ROOT} && w.s.current == ROOT
  {
    assert w.s.current in w.s.live;
    OnlyRoot(w.s);
  }

  lemma LeaveRoot(w: World, v: World)
    requires Root(w) && Pc(w, ROOT) == Leaving && v == w.(s := v.s, pc := w.pc[ROOT := Done])
    requires Same(w.s.(live := w.s.live - {ROOT}), v.s)
    ensures Root(v)
  {
    assert Pend(v.s, ROOT) == Pend(w.s, ROOT);
  }

  /** The end of a Thread_join or Sem_wait that blocked. */
  lemma ResumeGood(w: World)
    requires Good(w) && CanTake(w, Go) && Pend(w.s, w.s.current) != Nothing
    ensures Good(Take(w, Go))
    ensures Moves(w, Take(w, Go), w.s.current, Pc(w, w.s.current)) && Pend(Take(w, Go).s, w.s.current) == Nothing
  {
    hide Inv, Crew, Root, Locked, Counted, Take, Apply, Enabled, Next, Local;
    Runner(w);
    ResumeTake(w);
    StepInv(w.s, Resume);
    RunningJoined(w.s);
    ResumeParts(w, Take(w, Go));
  }

  lemma RunningJoined(s: State)
    requires Inv(s) && s.status == Running
    ensures Joined(s, s.current)
  {
    assert s.current in s.live && s.current !in s.inq;
  }

  lemma ResumeTake(w: World)
    requires CanTake(w, Go) && Pend(w.s, w.s.current) != Nothing && w.s.alerted == {}
    ensures Enabled(w.s, Resume) && Take(w, Go) == w.(s := Apply(w.s, Resume))
        && Apply(w.s, Resume) == w.s.(pend := w.s.pend[w.s.current := Nothing])
  {
  }

  lemma ResumeParts(w: World, v: World)
    requires Crew(w) && Root(w) && Locked(w) && Counted(w)
        && v == w.(s := w.s.(pend := w.s.pend[w.s.current := Nothing]))
    requires Joined(w.s, w.s.current) && w.s.current in w.s.live
    ensures Crew(v) && Root(v) && Locked(v) && Counted(v)
  {
    assert forall t :: t != w.s.current ==> Pend(v.s, t) == Pend(w.s, t);
    assert Q(v.s, SemOf(MUTEX)) == Q(w.s, SemOf(MUTEX));
    assert forall t :: Holds(v, t) <==> Holds(w, t);
    assert Crew(v) by { hide Root, Locked, Counted; }
    assert Root(v) by { hide Crew, Locked, Counted; }
    assert Locked(v) by { hide Root, Crew, Counted; }
  }

  // ---------------------------------------------------------------- the steps of a worker

  /** The loop test fails and the worker returns from safe. */
  lemma QuitGood(w: World)
    requires Good(w) && CanTake(w, Go) && Pend(w.s, w.s.current) == Nothing && Pc(w, w.s.current).Test?
        && Pc(w, w.s.current).i >= w.bumps
    ensures Good(Take(w, Go))
    ensures Moves(w, Take(w, Go), w.s.current, Done)
  {
    hide Inv, ThreadExit, Crew, Root, Locked, Counted, Take, Apply, Enabled, Next, Local;
    Runner(w);
    QuitTake(w);
    StepInv(w.s, Exit(0));
    SomeoneStays(w);
    ExitSame(w.s);
    var c, v := w.s.current, Take(w, Go);
    assert forall t :: Pend(v.s, t) == Pend(w.s, t);
    CrewMove(w, v, c, Done);
    RootWorker(w, v, c, Done);
    LockedMove(w, v, c, Done);
    CountedMove(w, v, c, Done);
  }

  lemma QuitTake(w: World)
    requires CanTake(w, Go) && Pend(w.s, w.s.current) == Nothing
    requires Pc(w, w.s.current) == Leaving || (Pc(w, w.s.current).Test? && Pc(w, w.s.current).i >= w.bumps)
    ensures Enabled(w.s, Exit(0)) && Take(w, Go) == w.(s := ThreadExit(w.s, 0), pc := w.pc[w.s.current := Done])
    ensures Apply(w.s, Exit(0)) == ThreadExit(w.s, 0)
  {
    hide ThreadExit;
  }

  /** When a worker leaves, somebody can run: a ready thread, or main, which waits for all. */
  lemma SomeoneStays(w: World)
    requires Good(w) && w.s.status == Running && w.s.current >= 1 && Pc(w, w.s.current).Test?
    ensures Q(w.s, Ready) != [] || (Q(w.s, Join0) != [] && w.s.nthreads == 2)
  {
    Runner(w);
    WhereRoot(w);
    var c := w.s.current;
    if t :| t in w.s.live && t != c && t != ROOT {
      SomeoneReady(w, t);
    } else {
      assert w.s.live == {ROOT, c};
      assert w.s.nthreads == 2;
      Present(w.s, Ready, ROOT);
      Present(w.s, Join0, ROOT);
    }
  }

  lemma Present(s: State, q: QueueId, t: Tid)
    ensures t in Q(s, q) ==> Q(s, q) != []
  {
  }

  /** LOCK. */
  lemma LockGood(w: World)
    requires Good(w) && CanTake(w, Go) && Pend(w.s, w.s.current) == Nothing && Pc(w, w.s.current).Test?
        && Pc(w, w.s.current).i < w.bumps
    ensures Good(Take(w, Go))
    ensures Moves(w, Take(w, Go), w.s.current, Load(Pc(w, w.s.current).i))
  {
    hide Inv, Crew, Root, Locked, Counted, Take, Apply, Enabled, Next, Local, Block;
    Runner(w);
    LockTake(w);
    StepInv(w.s, Wait(MUTEX));
    var c, v, b := w.s.current, Take(w, Go), Load(Pc(w, w.s.current).i);
    if w.s.sems[MUTEX].count <= 0 {
      LockHolder(w);
      BlockSame(w.s, SemOf(MUTEX), InWait(MUTEX));
      assert Moves(w, v, c, b) by { assert forall t :: t != c ==> Pend(v.s, t) == Pend(w.s, t); }
      assert Pend(v.s, c) == InWait(MUTEX);
      LockedBlock(w, v, c, b);
    } else {
      assert Moves(w, v, c, b) by { assert forall t :: t != c ==> Pend(v.s, t) == Pend(w.s, t); }
      assert Q(v.s, SemOf(MUTEX)) == Q(w.s, SemOf(MUTEX));
      LockFree(w);
      LockedTake(w, v, c, b);
    }
    CrewMove(w, v, c, b);
    RootWorker(w, v, c, b);
    CountedMove(w, v, c, b);
  }

  /** A lock that is taken is held by another thread, and that thread is ready. */
  lemma LockHolder(w: World)
    requires Good(w) && w.s.status == Running && |w.s.sems| == 1 && w.s.sems[MUTEX].count <= 0
        && !Inside(Pc(w, w.s.current))
    ensures Q(w.s, Ready) != []
  {
    var h :| Holds(w, h);
    HolderReady(w, h);
  }

  lemma LockFree(w: World)
    requires Locked(w) && w.s.sems != [] && w.s.sems[MUTEX].count > 0
    ensures w.s.sems[MUTEX].count == 1
  {
  }

  lemma LockTake(w: World)
    requires CanTake(w, Go) && Pend(w.s, w.s.current) == Nothing && Pc(w, w.s.current).Test?
        && Pc(w, w.s.current).i < w.bumps && w.s.alerted == {}
    ensures Enabled(w.s, Wait(MUTEX)) && Take(w, Go) == w.(s := Apply(w.s, Wait(MUTEX)),
        pc := w.pc[w.s.current := Load(Pc(w, w.s.current).i)])
    ensures var sem := w.s.sems[MUTEX];
            Apply(w.s, Wait(MUTEX)) == if sem.count <= 0 then Block(w.s, SemOf(MUTEX), InWait(MUTEX))
                                       else w.s.(sems := w.s.sems[MUTEX := sem.(count := sem.count - 1,
                                           grants := sem.grants + 1)])
  {
    hide Block;
  }

  lemma LockedBlock(w: World, v: World, c: Tid, b: PC)
    requires Locked(w) && Moves(w, v, c, b) && b.Load? && !Inside(Pc(w, c))
    requires Q(v.s, SemOf(MUTEX)) == Q(w.s, SemOf(MUTEX)) + [c] && v.s.sems == w.s.sems && v.n == w.n
    ensures Locked(v)
  {
    assert forall t :: Holds(v, t) <==> Holds(w, t);
    assert forall t :: t != c ==> Pc(v, t) == Pc(w, t);
  }

  lemma LockedTake(w: World, v: World, c: Tid, b: PC)
    requires Locked(w) && Moves(w, v, c, b) && b.Load? && c !in Q(w.s, SemOf(MUTEX))
    requires Q(v.s, SemOf(MUTEX)) == Q(w.s, SemOf(MUTEX)) && |v.s.sems| == |w.s.sems| > 0 && w.s.sems[0].count == 1
        && v.s.sems[0].count == 0 && v.n == w.n
    ensures Locked(v)
  {
    assert Holds(v, c);
    assert forall t :: !Holds(w, t);
    assert forall t :: t != c ==> Pc(v, t) == Pc(w, t);
    assert forall t :: Holds(v, t) && t != c ==> Holds(w, t);
  }

  /** END_LOCK. */
  lemma UnlockGood(w: World)
    requires Good(w) && CanTake(w, Go) && Pend(w.s, w.s.current) == Nothing && Pc(w, w.s.current).Unlock?
    ensures Good(Take(w, Go))
    ensures Moves(w, Take(w, Go), w.s.current, Test(Pc(w, w.s.current).i + 1))
  {
    hide Inv, SemSignal, Crew, Root, Locked, Counted, Take, Apply, Enabled, Next, Local;
    Runner(w);
    UnlockTake(w);
    StepInv(w.s, Signal(MUTEX));
    SignalWaiters(w.s, MUTEX, MUTEX);
    SignalPend(w.s, MUTEX);
    var c, v, b := w.s.current, Take(w, Go), Test(Pc(w, w.s.current).i + 1);
    SignalSems(w.s);
    assert Moves(w, v, c, b) by { assert forall t :: t != c ==> Pend(v.s, t) == Pend(w.s, t); }
    QueueHeads(w);
    LockedLeave(w, v, c, b);
    CrewMove(w, v, c, b);
    RootWorker(w, v, c, b);
    CountedMove(w, v, c, b);
  }

  lemma QueueHeads(w: World)
    requires Inv(w.s) && w.s.status == Running
    ensures forall t :: t in Q(w.s, SemOf(MUTEX)) ==> t in w.s.live && t != w.s.current
    ensures NoDup(Q(w.s, SemOf(MUTEX)))
  {
    InQueue(w.s, SemOf(MUTEX), w.s.current);
    forall t | t in Q(w.s, SemOf(MUTEX)) ensures t in w.s.live && t != w.s.current { InQueue(w.s, SemOf(MUTEX), t); }
  }

  lemma UnlockTake(w: World)
    requires CanTake(w, Go) && Pend(w.s, w.s.current) == Nothing && Pc(w, w.s.current).Unlock?
    ensures Enabled(w.s, Signal(MUTEX)) && Take(w, Go) == w.(s := Apply(w.s, Signal(MUTEX)),
        pc := w.pc[w.s.current := Test(Pc(w, w.s.current).i + 1)])
    ensures Apply(w.s, Signal(MUTEX)) == SemSignal(w.s, MUTEX)
  {
    hide SemSignal;
  }

  lemma SignalSems(s: State)
    requires |s.sems| == 1
    ensures var r := SemSignal(s, MUTEX);
            && |r.sems| == 1 && r.sems[0].initial == s.sems[0].initial && r.next == s.next && r.status == s.status
            && r.current == s.current
            && r.sems[0].count == if s.sems[0].count == 0 && Q(s, SemOf(MUTEX)) != [] then 0 else s.sems[0].count + 1
  {
  }

  lemma LockedLeave(w: World, v: World, c: Tid, b: PC)
    requires Locked(w) && Moves(w, v, c, b) && b.Test? && Pc(w, c).Unlock? && c !in Q(w.s, SemOf(MUTEX))
        && NoDup(Q(w.s, SemOf(MUTEX)))
    requires forall t :: t in Q(w.s, SemOf(MUTEX)) ==> t in w.s.live
    requires |w.s.sems| == |v.s.sems| == 1 && v.n == w.n
    requires Q(v.s, SemOf(MUTEX)) ==
        if w.s.sems[0].count == 0 && Q(w.s, SemOf(MUTEX)) != [] then Q(w.s, SemOf(MUTEX))[1..]
        else Q(w.s, SemOf(MUTEX))
    requires v.s.sems[0].count ==
        if w.s.sems[0].count == 0 && Q(w.s, SemOf(MUTEX)) != [] then 0 else w.s.sems[0].count + 1
    ensures Locked(v)
  {
    var q := Q(w.s, SemOf(MUTEX));
    assert Holds(w, c);
    assert forall t :: t != c ==> Pc(v, t) == Pc(w, t);
    assert forall t :: Holds(v, t) ==> t != c;
    if q == [] {
      assert forall t :: Holds(v, t) ==> Holds(w, t);
      assert forall t :: !Holds(v, t);
    } else {
      TailMembers(q);
      assert Holds(v, q[0]);
      assert forall t :: Holds(v, t) && t !in q ==> Holds(w, t);
      assert forall t :: Holds(v, t) ==> t == q[0];
    }
  }

  /** Load and store. */
  lemma BumpGood(w: World)
    requires Good(w) && CanTake(w, Go) && Pend(w.s, w.s.current) == Nothing
        && (Pc(w, w.s.current).Load? || Pc(w, w.s.current).Store?)
    ensures Good(Take(w, Go))
    ensures Moves(w, Take(w, Go), w.s.current, if Pc(w, w.s.current).Load? then Store(Pc(w, w.s.current).i, w.n)
        else Unlock(Pc(w, w.s.current).i))
  {
    hide Inv, Crew, Root, Locked, Counted, Take, Apply, Enabled, Next, Local;
    Runner(w);
    BumpTake(w);
    var c, v, a := w.s.current, Take(w, Go), Pc(w, w.s.current);
    var b := if a.Load? then Store(a.i, w.n) else Unlock(a.i);
    CrewMove(w, v, c, b);
    RootWorker(w, v, c, b);
    LockedMove(w, v, c, b);
    CountedMove(w, v, c, b);
  }

  lemma BumpTake(w: World)
    requires Locked(w) && CanTake(w, Go) && Pend(w.s, w.s.current) == Nothing && w.s.current in w.s.live
        && w.s.current !in Q(w.s, SemOf(MUTEX))
    requires Pc(w, w.s.current).Load? || Pc(w, w.s.current).Store?
    ensures var a := Pc(w, w.s.current);
            Take(w, Go) == w.(pc := w.pc[w.s.current := if a.Load? then Store(a.i, w.n) else Unlock(a.i)],
                n := if a.Load? then w.n else w.n + 1)
  {
    assert Holds(w, w.s.current);
  }

  // ---------------------------------------------------------------- every step

  lemma TakeGood(w: World, ch: Choice)
    requires Good(w) && CanTake(w, ch)
    ensures Good(Take(w, ch))
  {
    Runner(w);
    hide Good, Take, Holds;
    if ch == Interrupt {
      InterruptGood(w);
    } else if Pend(w.s, w.s.current) != Nothing {
      ResumeGood(w);
    } else {
      match Pc(w, w.s.current)
      case Prepare => PrepareGood(w);
      case Create(i) => if i < w.workers { CreateGood(w); } else { JoinGood(w); }
      case Report => ReportGood(w);
      case Leaving => LeaveGood(w);
      case Test(i) => if i < w.bumps { LockGood(w); } else { QuitGood(w); }
      case Load(_) => BumpGood(w);
      case Store(_, _) => BumpGood(w);
      case Unlock(_) => UnlockGood(w);
      case Done => assert false;
    }
  }

  // ---------------------------------------------------------------- every run

  ghost predicate Runs(w: World, cs: seq<Choice>)
    decreases |cs|
  {
    cs == [] || (CanTake(w, cs[0]) && Runs(Take(w, cs[0]), cs[1..]))
  }

  function Run(w: World, cs: seq<Choice>): World
    requires Runs(w, cs)
    decreases |cs|
  {
    if cs == [] then w else Run(Take(w, cs[0]), cs[1..])
  }

  lemma {:induction false} RunGood(w: World, cs: seq<Choice>)
    requires Good(w) && Runs(w, cs)
    ensures Good(Run(w, cs)) && Run(w, cs).bumps == w.bumps && Run(w, cs).workers == w.workers
    decreases |cs|
  {
    if cs != [] {
      TakeGood(w, cs[0]);
      hide Good;
      SameProgram(w, cs[0]);
      hide Take, CanTake;
      RunGood(Take(w, cs[0]), cs[1..]);
    }
  }

  lemma SameProgram(w: World, c: Choice)
    requires CanTake(w, c)
    ensures Take(w, c).bumps == w.bumps && Take(w, c).workers == w.workers
  {
    hide Enabled, Apply, Next;
  }

  /** At most one thread is between LOCK and END_LOCK, whatever the schedule. */
  lemma MutualExclusion(w: World, cs: seq<Choice>, t: Tid, u: Tid)
    requires Start(w) && Runs(w, cs) && Holds(Run(w, cs), t) && Holds(Run(w, cs), u)
    ensures t == u
  {
    StartGood(w);
    RunGood(w, cs);
  }

  /** What a thread read under the lock is still the value of n when it writes. */
  lemma NoLostUpdate(w: World, cs: seq<Choice>, t: Tid)
    requires Start(w) && Runs(w, cs) && t in Run(w, cs).s.live && Pc(Run(w, cs), t).Store?
    ensures Pc(Run(w, cs), t).reg == Run(w, cs).n
  {
    StartGood(w);
    RunGood(w, cs);
    var v := Run(w, cs);
    assert t in Q(v.s, SemOf(MUTEX)) ==> Pc(v, t).Load?;
    assert Holds(v, t);
  }

  /** Until the program has ended the running thread can take its next step: run() never finds
      ready empty and no checked error of thread.c occurs. */
  lemma NeverStuck(w: World, cs: seq<Choice>)
    requires Start(w) && Runs(w, cs)
    ensures Run(w, cs).s.status.Exited? || CanTake(Run(w, cs), Go)
  {
    StartGood(w);
    RunGood(w, cs);
    hide Good, CanTake;
    CanGo(Run(w, cs));
  }

  lemma CanGo(w: World)
    requires Good(w)
    ensures w.s.status.Exited? || CanTake(w, Go)
  {
    if w.s.status == Running {
      Runner(w);
      if w.s.current == ROOT { NobodyInJoin0(w); }
      hide Inv;
    }
  }

  lemma NobodyInJoin0(w: World)
    requires Inv(w.s) && w.s.status == Running && w.s.current == ROOT && Crew(w)
    ensures Q(w.s, Join0) == []
  {
    forall t ensures t !in Q(w.s, Join0) {
      InQueue(w.s, Join0, t);
      assert t in w.s.inq ==> Blocked(w.s, t, w.s.inq[t]);
    }
    NoMembers(Q(w.s, Join0));
  }

  /** When main is back from Thread_join(NULL) every worker is done and n is what main expects;
      and that is what it prints. */
  lemma JoinedCount(w: World, cs: seq<Choice>)
    requires Start(w) && Runs(w, cs)
    ensures var v := Run(w, cs);
            && (Pc(v, ROOT) == Report && Pend(v.s, ROOT) == Nothing ==>
                 v.n == w.bumps * Workers(w) && v.s.live == {ROOT})
            && (v.s.status != Running ==> v.printed == [w.bumps * Workers(w)])
  {
    StartGood(w);
    RunGood(w, cs);
    var v := Run(w, cs);
    if Pc(v, ROOT) == Report && Pend(v.s, ROOT) == Nothing {
      AllDone(v);
    }
    assert v.s.status != Running ==> ROOT !in v.s.live;
  }

  // ---------------------------------------------------------------- every schedule comes to the end

  /** The most steps a thread still has to take; a blocked call has one to go when it is resumed. */
  function Rest(w: World, t: Tid): int
  {
    var blocked := if Pend(w.s, t) == Nothing then 0 else 1;
    match Pc(w, t)
    case Test(i) => 5 * (w.bumps - i) + 1
    case Load(i) => 5 * (w.bumps - i) - 1 + blocked
    case Store(i, _) => 5 * (w.bumps - i) - 2
    case Unlock(i) => 5 * (w.bumps - i) - 3
    case Prepare => Workers(w) * (5 * w.bumps + 2) + 5
    case Create(i) => (Workers(w) - i) * (5 * w.bumps + 2) + 4
    case Report => 2 + blocked
    case Leaving => 1
    case Done => 0
  }

  /** The steps the threads before k still have to take. */
  function Ahead(w: World, k: nat): int
  {
    if k == 0 then 0 else Ahead(w, k - 1) + Rest(w, k - 1)
  }

  lemma {:induction false} AheadSame(w: World, v: World, k: nat)
    requires forall t :: 0 <= t < k ==> Rest(v, t) == Rest(w, t)
    ensures Ahead(v, k) == Ahead(w, k)
  {
    if k > 0 { AheadSame(w, v, k - 1); }
  }

  lemma {:induction false} AheadLess(w: World, v: World, k: nat, c: Tid)
    requires c < k && Rest(v, c) < Rest(w, c) && forall t :: 0 <= t < k && t != c ==> Rest(v, t) == Rest(w, t)
    ensures Ahead(v, k) < Ahead(w, k)
  {
    if k - 1 == c { AheadSame(w, v, c); } else { AheadLess(w, v, k - 1, c); }
  }

  lemma {:induction false} AheadPositive(w: World, k: nat)
    requires Crew(w) && Root(w) && k <= w.s.next
    ensures Ahead(w, k) >= 0
  {
    if k > 0 {
      AheadPositive(w, k - 1);
      RestPositive(w, k - 1);
    }
  }

  lemma RestPositive(w: World, t: Tid)
    requires Crew(w) && Root(w) && t < w.s.next
    ensures Rest(w, t) >= 0
  {
    assert t != ROOT ==> Fits(w.bumps, w.pc[t]) && (w.pc[t] == Done || AtWork(w.pc[t]));
    if Pc(w, t).Create? {
      Nonnegative(Workers(w) - Pc(w, t).i, 5 * w.bumps + 2);
    } else {
      Nonnegative(Workers(w), 5 * w.bumps + 2);
    }
  }

  lemma Nonnegative(a: int, b: int)
    requires a >= 0 && b >= 0
    ensures a * b >= 0
  {
  }

  /** One step may lead from a to b, or a blocked call at a is over. */
  predicate Follows(w: World, a: PC, b: PC)
  {
    match a
    case Test(i) => b == Done || b == Load(i)
    case Load(i) => b.Store? && b.i == i
    case Store(i, _) => b == Unlock(i)
    case Unlock(i) => b == Test(i + 1)
    case Prepare => b == Create(0)
    case Create(i) => b == Report
    case Report => b == Leaving
    case Leaving => b == Done
    case Done => false
  }

  lemma RestLess(w: World, v: World, c: Tid, b: PC)
    requires Moves(w, v, c, b) && Fits(w.bumps, Pc(w, c)) && (Pc(w, c).Create? ==> Pc(w, c).i <= Workers(w))
    requires Follows(w, Pc(w, c), b) || (b == Pc(w, c) && (b.Load? || b.Report?) && Pend(w.s, c) != Nothing
        && Pend(v.s, c) == Nothing)
    ensures Rest(v, c) < Rest(w, c)
  {
    match Pc(w, c)
    case Create(i) => Nonnegative(Workers(w) - i, 5 * w.bumps + 2);
    case _ =>
  }

  lemma MovesLess(w: World, v: World, c: Tid, b: PC)
    requires Moves(w, v, c, b) && c < w.s.next && Fits(w.bumps, Pc(w, c))
        && (Pc(w, c).Create? ==> Pc(w, c).i <= Workers(w))
    requires Follows(w, Pc(w, c), b) || (b == Pc(w, c) && (b.Load? || b.Report?) && Pend(w.s, c) != Nothing
        && Pend(v.s, c) == Nothing)
    ensures Ahead(v, v.s.next) < Ahead(w, w.s.next)
  {
    forall t | 0 <= t < w.s.next && t != c ensures Rest(v, t) == Rest(w, t) {
      assert Pend(v.s, t) == Pend(w.s, t);
      assert Pc(v, t) == Pc(w, t);
    }
    RestLess(w, v, c, b);
    hide Rest;
    AheadLess(w, v, w.s.next, c);
  }

  lemma CreateLess(w: World)
    requires Good(w) && CanTake(w, Go) && Pend(w.s, w.s.current) == Nothing && Pc(w, w.s.current).Create?
        && Pc(w, w.s.current).i < w.workers
    ensures Ahead(Take(w, Go), Take(w, Go).s.next) < Ahead(w, w.s.next)
  {
    hide Inv, ThreadNew, Crew, Root, Locked, Counted, Take, Apply, Enabled, Next, Local, Rest;
    Runner(w);
    CreateTake(w);
    NewSame(w.s);
    NewRests(w, Take(w, Go));
    AheadBut(w, Take(w, Go), w.s.next);
  }

  lemma NewRests(w: World, v: World)
    requires Pc(w, ROOT).Create? && Pc(w, ROOT).i < w.workers && w.s.next >= 1
    requires v == w.(s := v.s, pc := w.pc[ROOT := Create(Pc(w, ROOT).i + 1)][w.s.next := Test(0)])
    requires v.s.pend == w.s.pend[w.s.next := Nothing]
    ensures forall t :: 0 < t < w.s.next ==> Rest(v, t) == Rest(w, t)
    ensures Rest(v, ROOT) + Rest(v, w.s.next) < Rest(w, ROOT)
  {
    forall t | 0 < t < w.s.next ensures Rest(v, t) == Rest(w, t) {
      assert Pend(v.s, t) == Pend(w.s, t);
      assert Pc(v, t) == Pc(w, t);
    }
    OneLess(Workers(w) - Pc(w, ROOT).i, 5 * w.bumps + 2);
  }

  lemma OneLess(a: int, b: int)
    ensures (a - 1) * b == a * b - b
  {
  }

  lemma {:induction false} AheadBut(w: World, v: World, k: nat)
    requires k >= 1 && forall t :: 0 < t < k ==> Rest(v, t) == Rest(w, t)
    ensures Ahead(v, k) - Rest(v, ROOT) == Ahead(w, k) - Rest(w, ROOT)
  {
    if k > 1 { AheadBut(w, v, k - 1); }
  }

  lemma RootLess(w: World)
    requires Good(w) && CanTake(w, Go) && Pend(w.s, w.s.current) == Nothing && !AtWork(Pc(w, w.s.current))
    ensures Ahead(Take(w, Go), Take(w, Go).s.next) < Ahead(w, w.s.next)
  {
    Runner(w);
    RunnerFits(w);
    var c, v := w.s.current, Take(w, Go);
    hide Good, Take, Ahead, Moves, Next, Enabled;
    match Pc(w, c)
    case Prepare => PrepareGood(w); MovesLess(w, v, c, Create(0));
    case Create(i) => if i < w.workers { CreateLess(w); } else { JoinGood(w); MovesLess(w, v, c, Report); }
    case Report => ReportGood(w); MovesLess(w, v, c, Leaving);
    case Leaving => LeaveGood(w); MovesLess(w, v, c, Done);
    case Done => assert false;
  }

  lemma TestLess(w: World)
    requires Good(w) && CanTake(w, Go) && Pend(w.s, w.s.current) == Nothing && Pc(w, w.s.current).Test?
    ensures Ahead(Take(w, Go), Take(w, Go).s.next) < Ahead(w, w.s.next)
  {
    Runner(w);
    RunnerFits(w);
    var c, v, i := w.s.current, Take(w, Go), Pc(w, w.s.current).i;
    hide Good, Take, Ahead, Moves, Next, Enabled, Local;
    if i < w.bumps { LockGood(w); MovesLess(w, v, c, Load(i)); } else { QuitGood(w); MovesLess(w, v, c, Done); }
  }

  lemma UnlockLess(w: World)
    requires Good(w) && CanTake(w, Go) && Pend(w.s, w.s.current) == Nothing && Pc(w, w.s.current).Unlock?
    ensures Ahead(Take(w, Go), Take(w, Go).s.next) < Ahead(w, w.s.next)
  {
    Runner(w);
    RunnerFits(w);
    var a, c := Pc(w, w.s.current), w.s.current;
    assert Follows(w, a, Test(a.i + 1));
    hide Good, Take, CanTake, Ahead, Moves, Next, Enabled, Local, Pc, Pend, Fits, Follows;
    UnlockGood(w);
    MovesLess(w, Take(w, Go), c, Test(a.i + 1));
  }

  lemma BumpLess(w: World)
    requires Good(w) && CanTake(w, Go) && Pend(w.s, w.s.current) == Nothing
        && (Pc(w, w.s.current).Load? || Pc(w, w.s.current).Store?)
    ensures Ahead(Take(w, Go), Take(w, Go).s.next) < Ahead(w, w.s.next)
  {
    Runner(w);
    RunnerFits(w);
    var a := Pc(w, w.s.current);
    var b := if a.Load? then Store(a.i, w.n) else Unlock(a.i);
    hide Good, Take, Ahead, Moves, Next, Enabled, Local, Pc;
    BumpGood(w);
    MovesLess(w, Take(w, Go), w.s.current, b);
  }

  /** Every step of the program is one step fewer to go. */
  lemma GoLess(w: World)
    requires Good(w) && CanTake(w, Go)
    ensures Ahead(Take(w, Go), Take(w, Go).s.next) < Ahead(w, w.s.next)
  {
    if Pend(w.s, w.s.current) != Nothing {
      Runner(w);
      RunnerFits(w);
      hide Good, Take, Ahead, Moves, Next, Enabled;
      PendingAt(w);
      ResumeGood(w);
      MovesLess(w, Take(w, Go), w.s.current, Pc(w, w.s.current));
    } else if Pc(w, w.s.current).Test? {
      TestLess(w);
    } else if Pc(w, w.s.current).Unlock? {
      UnlockLess(w);
    } else if AtWork(Pc(w, w.s.current)) {
      BumpLess(w);
    } else {
      RootLess(w);
    }
  }

  lemma RunnerFits(w: World)
    requires Good(w) && w.s.status == Running
    ensures Fits(w.bumps, Pc(w, w.s.current)) && (Pc(w, w.s.current).Create? ==> Pc(w, w.s.current).i <= Workers(w))
  {
    Runner(w);
    hide Inv, Locked, Counted;
  }

  /** Only main in Thread_join and a worker in LOCK are ever in the middle of a call. */
  lemma PendingAt(w: World)
    requires Good(w) && w.s.status == Running && Pend(w.s, w.s.current) != Nothing
    ensures Pc(w, w.s.current) == Report || Pc(w, w.s.current).Load?
  {
    Runner(w);
    hide Inv, Locked, Counted;
  }

  function Goes(cs: seq<Choice>): nat
  {
    if cs == [] then 0 else Goes(cs[1..]) + if cs[0] == Go then 1 else 0
  }

  lemma {:induction false} RunLess(w: World, cs: seq<Choice>)
    requires Good(w) && Runs(w, cs)
    ensures Ahead(Run(w, cs), Run(w, cs).s.next) + Goes(cs) <= Ahead(w, w.s.next)
    decreases |cs|
  {
    if cs != [] {
      TakeGood(w, cs[0]);
      if cs[0] == Go { GoLess(w); } else { InterruptKeeps(w); }
      hide Good, Take, CanTake;
      RunLess(Take(w, cs[0]), cs[1..]);
    }
  }

  lemma InterruptKeeps(w: World)
    requires Good(w) && CanTake(w, Interrupt)
    ensures Ahead(Take(w, Interrupt), Take(w, Interrupt).s.next) == Ahead(w, w.s.next)
  {
    hide Good, Inv, Put, RunNext;
    var v := Take(w, Interrupt);
    PreemptSame(w.s);
    assert forall t :: Pend(v.s, t) == Pend(w.s, t);
    assert forall t :: Rest(v, t) == Rest(w, t);
    AheadSame(w, v, w.s.next);
  }

  /** Total correctness over all schedules: whatever the interrupts, no run has more than
      workers * (5 * bumps + 2) + 5 steps of the program's own, and a run in which the program cannot
      go on has ended and printed the one right number. */
  lemma EveryScheduleCounts(w: World, cs: seq<Choice>)
    requires Start(w) && Runs(w, cs)
    ensures Goes(cs) <= Workers(w) * (5 * w.bumps + 2) + 5
    ensures !CanTake(Run(w, cs), Go) <==> Run(w, cs).s.status.Exited?
    ensures !CanTake(Run(w, cs), Go) ==> Run(w, cs).printed == [w.bumps * Workers(w)]
  {
    StartGood(w);
    StartAhead(w);
    hide Good, Start, Take, Ahead, Rest;
    RunGood(w, cs);
    RunLess(w, cs);
    JoinedCount(w, cs);
    CanGo(Run(w, cs));
    Left(Run(w, cs));
  }

  /** From wherever the interrupts have led, the program's own steps lead to the end: interrupts can
      delay it but not prevent it. */
  lemma EndInReach(w: World, cs: seq<Choice>) returns (ds: seq<Choice>)
    requires Start(w) && Runs(w, cs)
    ensures Goes(ds) == |ds| <= Workers(w) * (5 * w.bumps + 2) + 5 - Goes(cs)
    ensures Runs(Run(w, cs), ds) && Run(Run(w, cs), ds).s.status.Exited?
    ensures Run(Run(w, cs), ds).printed == [w.bumps * Workers(w)]
  {
    StartGood(w);
    StartAhead(w);
    RunGood(w, cs);
    RunLess(w, cs);
    hide Good, Start, Take, Ahead, Rest;
    var v := Run(w, cs);
    ds := GoOn(v);
    RunGood(v, ds);
    EndPrinted(Run(v, ds));
  }

  lemma {:induction false} GoOn(w: World) returns (ds: seq<Choice>)
    requires Good(w)
    ensures Runs(w, ds) && Run(w, ds).s.status.Exited? && Goes(ds) == |ds| <= Ahead(w, w.s.next)
    decreases Ahead(w, w.s.next)
  {
    CanGo(w);
    Left(w);
    if w.s.status.Exited? {
      ds := [];
    } else {
      TakeGood(w, Go);
      GoLess(w);
      Left(Take(w, Go));
      hide Good, Take, CanTake, Ahead;
      var es := GoOn(Take(w, Go));
      ds := [Go] + es;
      assert ds[1..] == es;
    }
  }

  lemma EndPrinted(w: World)
    requires Good(w) && w.s.status.Exited?
    ensures w.printed == [w.bumps * Workers(w)]
  {
    hide Crew, Locked, Counted;
    assert ROOT !in w.s.live;
  }

  lemma StartAhead(w: World)
    requires Start(w)
    ensures Ahead(w, w.s.next) == Workers(w) * (5 * w.bumps + 2) + 5
  {
    assert Ahead(w, 1) == Rest(w, ROOT);
  }

  lemma Left(w: World)
    requires Good(w)
    ensures Ahead(w, w.s.next) >= 0
  {
    AheadPositive(w, w.s.next);
  }
}

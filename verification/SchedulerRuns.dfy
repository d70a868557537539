/** What holds in every run of the scheduler: every sequence of calls and preemptions. */
module SchedulerRuns {
  import opened Wrappers
  import opened Semaphores
  import opened ThreadQueues
  import opened Scheduler

  ghost predicate Runs(s: State, ls: seq<Label>)
    decreases |ls|
  {
    ls == [] || (Enabled(s, ls[0]) && Runs(Apply(s, ls[0]), ls[1..]))
  }

  function Exec(s: State, ls: seq<Label>): State
    requires Runs(s, ls)
    decreases |ls|
  {
    if ls == [] then s else Exec(Apply(s, ls[0]), ls[1..])
  }

  lemma {:induction false} InvAfter(s: State, ls: seq<Label>)
    requires Inv(s) && Runs(s, ls)
    ensures Inv(Exec(s, ls))
    decreases |ls|
  {
    hide Inv;
    if ls != [] {
      StepInv(s, ls[0]);
      InvAfter(Apply(s, ls[0]), ls[1..]);
    }
  }

  /** A run is a run up to each of its steps, and its next label is then enabled. */
  lemma {:induction false} Cut(s: State, ls: seq<Label>, i: nat)
    requires Runs(s, ls) && i <= |ls|
    ensures Runs(s, ls[..i])
    ensures i < |ls| ==>
        Enabled(Exec(s, ls[..i]), ls[i]) && Runs(s, ls[..i + 1])
        && Exec(s, ls[..i + 1]) == Apply(Exec(s, ls[..i]), ls[i])
    ensures i == |ls| ==> Exec(s, ls[..i]) == Exec(s, ls)
    decreases |ls|
  {
    assert ls[..|ls|] == ls;
    if i > 0 {
      Cut(Apply(s, ls[0]), ls[1..], i - 1);
      assert ls[..i][1..] == ls[1..][..i - 1];
      if i < |ls| {
        assert ls[..i + 1][1..] == ls[1..][..i];
      }
    } else if ls != [] {
      assert ls[..1][1..] == [] && Runs(Apply(s, ls[0]), []);
    }
  }

  /** The state in which step i of a run is taken. */
  function At(s: State, ls: seq<Label>, i: nat): State
    requires Runs(s, ls) && i <= |ls|
  {
    Cut(s, ls, i);
    Exec(s, ls[..i])
  }

  lemma AtStep(s: State, ls: seq<Label>, i: nat)
    requires Runs(s, ls) && i < |ls|
    ensures Enabled(At(s, ls, i), ls[i]) && At(s, ls, i + 1) == Apply(At(s, ls, i), ls[i]) && At(s, ls, 0) == s
        && At(s, ls, |ls|) == Exec(s, ls)
  {
    Cut(s, ls, i);
    assert ls[..0] == [] && ls[..|ls|] == ls;
  }

  lemma InvAt(s: State, ls: seq<Label>, i: nat)
    requires Inv(s) && Runs(s, ls) && i <= |ls|
    ensures Inv(At(s, ls, i))
  {
    Cut(s, ls, i);
    InvAfter(s, ls[..i]);
  }

  // ---------------------------------------------------------------- assertions

  /** The assertion in put: the thread is in no queue. */
  predicate PutHolds(s: State, t: Tid) { t !in s.inq }

  /** The assertions in get. */
  predicate GetHolds(s: State, q: QueueId) { Q(s, q) != [] && Q(s, q)[0] in s.inq && s.inq[Q(s, q)[0]] == q }

  /** The assertions in delete, and that the search of the circular list ends. */
  predicate DeleteHolds(s: State, t: Tid, q: QueueId) { t in s.inq && s.inq[t] == q && t in Q(s, q) }

  /** The assertions on the way through lines 186-190. */
  predicate WakingHolds(s: State, t: Tid, code: int)
    decreases |Q(s, JoinOf(t))|
  {
    Q(s, JoinOf(t)) == [] ||
    var u := Q(s, JoinOf(t))[0];
    && GetHolds(s, JoinOf(t)) && PutHolds(Get(s, JoinOf(t)), u)
    && WakingHolds(Put(Get(s, JoinOf(t)).(code := s.code[u := code]), u, Ready), t, code)
  }

  /** Every assertion a step evaluates, except that run() finds somebody ready. */
  predicate Asserts(s: State, l: Label)
    requires Enabled(s, l)
  {
    Raises(s, l) ||
    match l
    case New => PutHolds(Created(s), s.next)
    case Pause => PutHolds(s, s.current) && GetHolds(Put(s, s.current, Ready), Ready)
    case Preempt => PutHolds(s, s.current) && GetHolds(Put(s, s.current, Ready), Ready)
    case Exit(code) =>
      var s1 := Leave(s, code);
      && WakingHolds(Departed(s, code), s.current, code)
      && (Q(s1, Join0) != [] && s1.nthreads == 2 ==>
           Q(s1, Ready) == [] && GetHolds(s1, Join0) && PutHolds(Get(s1, Join0), Q(s1, Join0)[0]))
    case Join(t) => t in s.live ==> PutHolds(s, s.current)
    case JoinAll => s.nthreads > 1 ==> PutHolds(s, s.current)
    case Alert(t) => t in s.inq ==> DeleteHolds(s, t, s.inq[t]) && PutHolds(Delete(s, t), t)
    case Init(_) => true
    case Signal(x) =>
      s.sems[x].count == 0 && Q(s, SemOf(x)) != [] ==>
        GetHolds(s, SemOf(x)) && Q(s, SemOf(x))[0] !in s.alerted && PutHolds(Get(s, SemOf(x)), Q(s, SemOf(x))[0])
    case Wait(x) => s.sems[x].count <= 0 ==> PutHolds(s, s.current)
    case Resume => true
  }

  lemma {:induction false} WakingAsserts(s: State, t: Tid, code: int)
    requires Leaving(s, t, code)
    ensures WakingHolds(s, t, code)
    decreases |Q(s, JoinOf(t))|
  {
    if Q(s, JoinOf(t)) != [] {
      GetQueued(s, JoinOf(t));
      WakeOne(s, t, code);
      var u := Q(s, JoinOf(t))[0];
      hide Leaving;
      WakingAsserts(Put(Get(s, JoinOf(t)).(code := s.code[u := code]), u, Ready), t, code);
    }
  }

  lemma ExitAsserts(s: State, code: int)
    requires Inv(s) && s.status == Running
    ensures WakingHolds(Departed(s, code), s.current, code)
    ensures var s1 := Leave(s, code);
            Q(s1, Join0) != [] && s1.nthreads == 2 ==>
                Q(s1, Ready) == [] && GetHolds(s1, Join0) && PutHolds(Get(s1, Join0), Q(s1, Join0)[0])
  {
    hide WakingHolds, Leave;
    LeaveStart(s, code);
    WakingAsserts(Departed(s, code), s.current, code);
    LeaveLeaves(s, code);
    var s1 := Leave(s, code);
    if Q(s1, Join0) != [] && s1.nthreads == 2 {
      LastIsInJoin0(s1, s.current, code);
      GetQueued(s1, Join0);
    }
  }

  lemma StepAsserts(s: State, l: Label)
    requires Inv(s) && Enabled(s, l)
    ensures Asserts(s, l)
  {
    assert s.current !in s.inq;
    match l
    case Exit(code) => ExitAsserts(s, code);
    case Alert(t) => if t in s.inq { QueuedAt(s, s.inq[t]); }
    case Signal(x) =>
      if Q(s, SemOf(x)) != [] {
        GetQueued(s, SemOf(x));
      }
    case Pause => PutQueued(s, s.current, Ready);  GetQueued(Put(s, s.current, Ready), Ready);
    case Preempt => PutQueued(s, s.current, Ready);  GetQueued(Put(s, s.current, Ready), Ready);
    case _ =>
  }

  /** In no run does an assertion fail: not those of put, get and delete on inqueue, not that
      ready is empty when Thread_exit wakes the thread in join0, not that a thread handed a
      semaphore is not alerted. */
  lemma AssertionsHold(s: State, ls: seq<Label>, i: nat)
    requires Initial(s) && Runs(s, ls) && i < |ls|
    ensures Enabled(At(s, ls, i), ls[i]) && Asserts(At(s, ls, i), ls[i])
  {
    hide Asserts, Enabled;
    InitialInv(s);
    InvAt(s, ls, i);
    AtStep(s, ls, i);
    StepAsserts(At(s, ls, i), ls[i]);
  }

  // ---------------------------------------------------------------- queues partition the threads

  /** The lengths of all queues. */
  ghost function TotalLength(m: map<QueueId, seq<Tid>>): nat
  {
    if m == map[] then 0 else var q :| q in m; |m[q]| + TotalLength(m - {q})
  }

  ghost function In(inq: map<Tid, QueueId>, q: QueueId): set<Tid> { set t | t in inq && inq[t] == q }

  lemma {:induction false} Members(q: seq<Tid>, m: set<Tid>)
    requires NoDup(q) && forall t :: t in m <==> t in q
    ensures |q| == |m|
  {
    if q == [] {
      assert m == {};
    } else {
      TailMembers(q);
      Members(q[1..], m - {q[0]});
    }
  }

  /** inq says for every thread which queue it is in. */
  ghost predicate Places(m: map<QueueId, seq<Tid>>, inq: map<Tid, QueueId>)
  {
    && (forall q :: q in m ==> NoDup(m[q]))
    && (forall q, t :: q in m ==> (t in m[q] <==> t in inq && inq[t] == q))
    && (forall t :: t in inq ==> inq[t] in m)
  }

  lemma CountIn(inq: map<Tid, QueueId>, q: QueueId)
    ensures |inq.Keys| == |In(inq, q)| + |(inq - In(inq, q)).Keys|
  {
    assert (inq - In(inq, q)).Keys == inq.Keys - In(inq, q) && In(inq, q) <= inq.Keys;
  }

  lemma PlacesBut(m: map<QueueId, seq<Tid>>, inq: map<Tid, QueueId>, q: QueueId)
    requires Places(m, inq) && q in m
    ensures Places(m - {q}, inq - In(inq, q)) && |m[q]| == |In(inq, q)|
  {
    hide NoDup;
    Members(m[q], In(inq, q));
    var n, rest := m - {q}, inq - In(inq, q);
    assert forall t :: t in rest <==> t in inq && inq[t] != q;
    forall p, t | p in n ensures NoDup(n[p]) && (t in n[p] <==> t in rest && rest[t] == p) {
      assert t in m[p] <==> t in inq && inq[t] == p;
    }
  }

  lemma {:induction false} LengthsAddUp(m: map<QueueId, seq<Tid>>, inq: map<Tid, QueueId>)
    requires Places(m, inq)
    ensures TotalLength(m) == |inq.Keys|
  {
    if m == map[] {
      assert inq.Keys == {};
    } else {
      hide Places;
      var q :| q in m && TotalLength(m) == |m[q]| + TotalLength(m - {q});
      PlacesBut(m, inq, q);
      CountIn(inq, q);
      LengthsAddUp(m - {q}, inq - In(inq, q));
    }
  }

  /** Each live thread but the current one is in exactly one queue, the current one is in none,
      and no thread that has gone is in any. */
  ghost predicate Partitioned(s: State)
  {
    && s.current in s.live
    && (forall q :: s.current !in Q(s, q) && NoDup(Q(s, q)))
    && (forall t :: t in s.live && t != s.current ==> exists q :: t in Q(s, q))
    && (forall t, p, q :: t in Q(s, p) && t in Q(s, q) ==> p == q)
    && (forall t, q :: t in Q(s, q) ==> t in s.live)
  }

  /** At every switch point the queues partition the threads, and nthreads is one more than the
      lengths of all queues together. */
  lemma ThreadsAreQueued(s: State, ls: seq<Label>)
    requires Initial(s) && Runs(s, ls) && Exec(s, ls).status == Running
    ensures Partitioned(Exec(s, ls))
    ensures var r := Exec(s, ls); r.nthreads == |r.live| == 1 + TotalLength(r.queues)
  {
    InitialInv(s);
    InvAfter(s, ls);
    hide Partitioned;
    var r := Exec(s, ls);
    PartitionAt(r);
    QueueMap(r);
    LengthsAddUp(r.queues, r.inq);
    OneMore(r);
  }

  lemma OneMore(s: State)
    requires Inv(s) && s.status == Running
    ensures s.nthreads == |s.live| == 1 + |s.inq.Keys|
  {
    assert s.live == s.inq.Keys + {s.current};
  }

  lemma InLive(s: State, t: Tid)
    requires Inv(s) && s.status == Running
    ensures t in s.inq <==> t in s.live && t != s.current
    ensures s.current in s.live
  {
    assert t in s.inq <==> t in s.inq.Keys;
  }

  lemma InQueue(s: State, q: QueueId, t: Tid)
    requires Inv(s) && s.status == Running
    ensures t in Q(s, q) <==> t in s.live && t != s.current && t in s.inq && s.inq[t] == q
    ensures NoDup(Q(s, q)) && s.current in s.live && s.current !in Q(s, q)
  {
    QueuedAt(s, q);
    InLive(s, t);
  }

  lemma PartitionAt(s: State)
    requires Inv(s) && s.status == Running
    ensures Partitioned(s)
  {
    hide Inv, NoDup, Q;
    InQueue(s, Ready, s.current);
    forall q ensures NoDup(Q(s, q)) && s.current !in Q(s, q) { InQueue(s, q, s.current); }
    forall t, p, q | t in Q(s, p) && t in Q(s, q) ensures p == q {
      InQueue(s, p, t);
      InQueue(s, q, t);
    }
    forall t, q | t in Q(s, q) ensures t in s.live { InQueue(s, q, t); }
    forall t | t in s.live && t != s.current ensures exists q :: t in Q(s, q) {
      InLive(s, t);
      InQueue(s, s.inq[t], t);
      assert t in Q(s, s.inq[t]);
    }
  }

  lemma QueueMap(s: State)
    requires Queued(s)
    ensures Places(s.queues, s.inq)
  {
    forall q ensures NoDup(Q(s, q)) { QueuedAt(s, q); }
    hide Queued, NoDup;
    forall q | q in s.queues ensures NoDup(s.queues[q]) {
      assert Q(s, q) == s.queues[q];
    }
    forall q, t ensures t in Q(s, q) <==> t in s.inq && s.inq[t] == q { QueuedAt(s, q); }
    forall q, t | q in s.queues ensures t in s.queues[q] <==> t in s.inq && s.inq[t] == q {
      assert Q(s, q) == s.queues[q];
    }
    forall t | t in s.inq ensures s.inq[t] in s.queues {
      assert t in Q(s, s.inq[t]);
    }
  }

  // ---------------------------------------------------------------- what a step changes

  /** Nothing but queues, who runs and the bookkeeping of exits changed. */
  ghost predicate Alike(s: State, s': State)
  {
    && s'.exits == s.exits && s'.sems == s.sems && s'.pend == s.pend && s'.alerted == s.alerted
    && s'.freelist == s.freelist && s'.live == s.live && forall x :: Q(s', SemOf(x)) == Q(s, SemOf(x))
  }

  lemma RunAlike(s: State)
    ensures Alike(s, RunNext(s))
  {
  }

  lemma WakeAllAlike(s: State)
    ensures Alike(s, WakeJoinAll(s))
  {
  }

  lemma WakeJoinersAlike(s: State, t: Tid, code: int)
    requires Leaving(s, t, code)
    ensures Alike(s, WakeJoiners(s, t, code))
  {
    hide Leaving, WakeJoiners;
    WakeAll(s, t, code);
  }

  /** Thread_exit changes no semaphore queue and no pending call. */
  lemma ExitChanges(s: State, code: int)
    requires Inv(s) && s.status == Running
    ensures Alike(Departed(s, code), ThreadExit(s, code))
  {
    LeaveStart(s, code);
    hide Inv, Leaving, WakeJoinAll, WakeJoiners, Departed, RunNext;
    WakeJoinersAlike(Departed(s, code), s.current, code);
    WakeAllAlike(Leave(s, code));
    ExitRest(s, WakeJoinAll(Leave(s, code)), code);
  }

  lemma ExitRest(s: State, s1: State, code: int)
    requires s1 == WakeJoinAll(Leave(s, code))
    ensures Alike(s1, ThreadExit(s, code))
  {
    hide WakeJoinAll, Leave, RunNext;
    RunAlike(s1.(nthreads := s1.nthreads - 1));
    assert forall x :: Q(s1.(nthreads := s1.nthreads - 1), SemOf(x)) == Q(s1, SemOf(x));
    assert forall x :: Q(ThreadExit(s, code), SemOf(x)) == Q(s1, SemOf(x));
  }

  /** The thread a step gives one of semaphore x's tokens to: by passing at once, or by hand. */
  function Grant(s: State, l: Label, x: SemId): (t: seq<Tid>)
    requires Enabled(s, l)
  {
    if l == Signal(x) && s.sems[x].count == 0 && Q(s, SemOf(x)) != [] then [Q(s, SemOf(x))[0]]
    else if l == Wait(x) && !Raises(s, l) && s.sems[x].count > 0 then [s.current]
    else []
  }

  /** The queue of semaphore x after a step. */
  function Waiters(s: State, l: Label, x: SemId): seq<Tid>
    requires Enabled(s, l)
  {
    var q := Q(s, SemOf(x));
    match l
    case Alert(t) => if t in s.inq && s.inq[t] == SemOf(x) then Remove(q, t) else q
    case Signal(y) => if Grant(s, l, x) != [] then q[1..] else q
    case Wait(y) => if y == x && !Raises(s, l) && s.sems[x].count <= 0 then q + [s.current] else q
    case _ => q
  }

  lemma AlertWaiters(s: State, t: Tid, x: SemId)
    ensures Q(ThreadAlert(s, t), SemOf(x)) == if t in s.inq
        && s.inq[t] == SemOf(x) then Remove(Q(s, SemOf(x)), t) else Q(s, SemOf(x))
  {
    hide Remove;
    if t in s.inq { DeleteQ(s.(alerted := s.alerted + {t}), t); }
  }

  lemma SignalWaiters(s: State, y: SemId, x: SemId)
    requires y < |s.sems|
    ensures Q(SemSignal(s, y), SemOf(x)) ==
            if y == x && s.sems[x].count == 0 && Q(s, SemOf(x)) != [] then Q(s, SemOf(x))[1..] else Q(s, SemOf(x))
  {
  }

  lemma WaitWaiters(s: State, y: SemId, x: SemId)
    requires y < |s.sems|
    ensures Q(SemWait(s, y), SemOf(x)) == if y == x
        && s.sems[x].count <= 0 then Q(s, SemOf(x)) + [s.current] else Q(s, SemOf(x))
  {
  }

  lemma ExitWaiters(s: State, code: int, x: SemId)
    requires Inv(s) && s.status == Running
    ensures Q(ThreadExit(s, code), SemOf(x)) == Q(s, SemOf(x))
  {
    hide Inv, ThreadExit;
    ExitChanges(s, code);
  }

  lemma RunWaiters(s: State, q: QueueId, p: Pending, x: SemId)
    ensures Q(Block(s, q, p), SemOf(x)) == if q == SemOf(x) then Q(s, q) + [s.current] else Q(s, SemOf(x))
    ensures Q(RunNext(Put(s, s.current, Ready)), SemOf(x)) == Q(s, SemOf(x)) == Q(ThreadNew(s), SemOf(x))
  {
  }

  lemma StepWaiters(s: State, l: Label, x: SemId)
    requires Inv(s) && Enabled(s, l)
    ensures Q(Apply(s, l), SemOf(x)) == Waiters(s, l, x)
  {
    hide Inv, Remove, ThreadExit, ThreadAlert, ThreadNew, SemSignal, SemWait, Departed, Block, RunNext, Put;
    match l
    case New => RunWaiters(s, Ready, Nothing, x);
    case Pause => RunWaiters(s, Ready, Nothing, x);
    case Preempt => RunWaiters(s, Ready, Nothing, x);
    case Exit(code) => ExitWaiters(s, code, x);
    case Join(t) => RunWaiters(s, JoinOf(t), InJoin(t), x);
    case JoinAll => RunWaiters(s, Join0, InJoinAll, x);
    case Alert(t) => AlertWaiters(s, t, x);
    case Init(n) =>
    case Signal(y) => SignalWaiters(s, y, x);
    case Wait(y) => WaitWaiters(s, y, x);
    case Resume =>
  }

  /** Nothing but queues, who runs, calls and alerts changed. */
  predicate SameBooks(s: State, r: State) { r.exits == s.exits && r.sems == s.sems }

  lemma AlertPend(s: State, t: Tid)
    ensures ThreadAlert(s, t).pend == s.pend && ThreadAlert(s, t).alerted == s.alerted + {t}
    ensures ThreadAlert(s, t).live == s.live && SameBooks(s, ThreadAlert(s, t))
  {
    hide Remove;
  }

  lemma BlockPend(s: State, q: QueueId, p: Pending)
    ensures var r := Block(s, q, p);
            r.pend == s.pend[s.current := p] && r.alerted == s.alerted && r.live == s.live && SameBooks(s, r)
  {
  }

  lemma SignalPend(s: State, x: SemId)
    requires x < |s.sems|
    ensures var r := SemSignal(s, x);
            r.pend == s.pend && r.alerted == s.alerted && r.live == s.live && r.exits == s.exits
  {
  }

  lemma NewPend(s: State)
    ensures var r := ThreadNew(s);
            r.pend == s.pend[s.next := Nothing] && r.alerted == s.alerted && r.live == s.live + {s.next}
            && SameBooks(s, r)
    ensures var r := RunNext(Put(s, s.current, Ready));
            r.pend == s.pend && r.alerted == s.alerted && r.live == s.live && SameBooks(s, r)
  {
  }

  lemma StepExits(s: State, l: Label)
    requires Inv(s) && Enabled(s, l)
    ensures Apply(s, l).exits == if l.Exit? then s.exits[s.current := l.code] else s.exits
  {
    hide Inv, ThreadExit, ThreadAlert, ThreadNew, SemSignal, Block, RunNext, Put;
    match l
    case New => NewPend(s);
    case Pause => NewPend(s);
    case Preempt => NewPend(s);
    case Exit(code) => ExitChanges(s, code);
    case Join(t) => BlockPend(s, JoinOf(t), InJoin(t));
    case JoinAll => BlockPend(s, Join0, InJoinAll);
    case Alert(u) => AlertPend(s, u);
    case Init(n) =>
    case Signal(x) => SignalPend(s, x);
    case Wait(x) => BlockPend(s, SemOf(x), InWait(x));
    case Resume =>
  }

  // ---------------------------------------------------------------- joining and leaving

  /** Thread t exited with this code at step i. */
  ghost predicate ExitedAt(s: State, ls: seq<Label>, i: nat, t: Tid, code: int)
    requires Runs(s, ls)
  {
    i < |ls| && ls[i] == Exit(code) && At(s, ls, i).current == t
  }

  /** The run without its last step. */
  lemma ButLast(s: State, ls: seq<Label>, i: nat)
    requires Runs(s, ls) && i < |ls|
    ensures var front := ls[..|ls| - 1];
            && Runs(s, front) && At(s, front, i) == At(s, ls, i) && Exec(s, front) == At(s, ls, |ls| - 1)
            && Enabled(Exec(s, front), ls[|ls| - 1]) && Exec(s, ls) == Apply(Exec(s, front), ls[|ls| - 1])
  {
    var front := ls[..|ls| - 1];
    Cut(s, ls, |ls| - 1);
    AtStep(s, ls, |ls| - 1);
    assert front[..i] == ls[..i];
  }

  lemma {:induction false} ExitsAreExits(s: State, ls: seq<Label>, t: Tid)
    requires Initial(s) && Runs(s, ls) && t in Exec(s, ls).exits
    ensures exists i :: ExitedAt(s, ls, i, t, Exec(s, ls).exits[t])
    decreases |ls|
  {
    if ls != [] {
      var front, n := ls[..|ls| - 1], |ls| - 1;
      ButLast(s, ls, n);
      InitialInv(s);
      InvAfter(s, front);
      StepExits(Exec(s, front), ls[n]);
      hide Inv, Initial, Apply, Enabled, Runs, At;
      var code := Exec(s, ls).exits[t];
      if ls[n].Exit? && Exec(s, front).current == t {
        assert ExitedAt(s, ls, n, t, code);
      } else {
        ExitsAreExits(s, front, t);
        var i :| ExitedAt(s, front, i, t, code);
        ButLast(s, ls, i);
        assert ExitedAt(s, ls, i, t, code);
      }
    }
  }

  /** A Thread_join(t) that blocks and returns normally returns the code t passed to
      Thread_exit. */
  lemma JoinReturnsTheCode(s: State, ls: seq<Label>, t: Tid)
    requires Initial(s) && Runs(s, ls)
    requires var r := Exec(s, ls); Enabled(r, Resume) && Pend(r, r.current) == InJoin(t) && !Raises(r, Resume)
    ensures var r := Exec(s, ls); r.current in r.code && exists i :: ExitedAt(s, ls, i, t, r.code[r.current])
  {
    InitialInv(s);
    InvAfter(s, ls);
    var r := Exec(s, ls);
    assert r.current in r.live && r.current !in r.inq;
    assert Joined(r, r.current);
    ExitsAreExits(s, ls, t);
  }

  /** A Thread_join(NULL) that blocks and returns normally returns to the last thread. */
  lemma JoinAllReturnsLast(s: State, ls: seq<Label>)
    requires Initial(s) && Runs(s, ls)
    requires var r := Exec(s, ls); Enabled(r, Resume) && Pend(r, r.current) == InJoinAll && !Raises(r, Resume)
    ensures var r := Exec(s, ls); r.live == {r.current} && r.nthreads == 1
  {
    InitialInv(s);
    InvAfter(s, ls);
    var r := Exec(s, ls);
    assert r.current in r.live && r.current !in r.inq;
    assert Joined(r, r.current);
  }

  /** Threads only ever wait to join a live thread. */
  lemma JoinersOfLive(s: State, ls: seq<Label>, t: Tid)
    requires Initial(s) && Runs(s, ls) && Q(Exec(s, ls), JoinOf(t)) != []
    ensures t in Exec(s, ls).live
  {
    InitialInv(s);
    InvAfter(s, ls);
    var r := Exec(s, ls);
    QueuedAt(r, JoinOf(t));
    var u := Q(r, JoinOf(t))[0];
    assert u in Q(r, JoinOf(t)) && u in r.inq;
    assert Blocked(r, u, JoinOf(t));
  }

  lemma {:induction false} ExitsStay(s: State, ls: seq<Label>, t: Tid)
    requires Inv(s) && Runs(s, ls) && t in s.exits
    ensures t in Exec(s, ls).exits
    decreases |ls|
  {
    if ls != [] {
      StepInv(s, ls[0]);
      StepExits(s, ls[0]);
      ExitsStay(Apply(s, ls[0]), ls[1..], t);
    }
  }

  /** A thread that is or was on the free list never runs again and is never queued again. */
  lemma FreedNeverRuns(s: State, ls: seq<Label>, ms: seq<Label>, t: Tid)
    requires Initial(s) && Runs(s, ls) && t in Exec(s, ls).freelist && Runs(Exec(s, ls), ms)
    ensures var r := Exec(Exec(s, ls), ms);
            t !in r.live && t !in r.inq && (forall q :: t !in Q(r, q)) && (r.status == Running ==> r.current != t)
  {
    InitialInv(s);
    InvAfter(s, ls);
    ExitsStay(Exec(s, ls), ms, t);
    InvAfter(Exec(s, ls), ms);
    GoneAt(Exec(Exec(s, ls), ms), t);
  }

  lemma GoneAt(s: State, t: Tid)
    requires Inv(s) && t in s.exits
    ensures t !in s.live && t !in s.inq && (forall q :: t !in Q(s, q)) && (s.status == Running ==> s.current != t)
  {
    assert t !in s.live;
    assert t in s.inq <==> t in s.inq.Keys;
    forall q ensures t !in Q(s, q) { QueuedAt(s, q); }
  }

  // ---------------------------------------------------------------- semaphores

  /** How often x is signalled in a run. */
  function Signals(ls: seq<Label>, x: SemId): nat
  {
    if ls == [] then 0 else Signals(ls[1..], x) + if ls[0] == Signal(x) then 1 else 0
  }

  /** How many of x's tokens a run gives out. */
  function Grants(s: State, ls: seq<Label>, x: SemId): nat
    requires Runs(s, ls)
    decreases |ls|
  {
    if ls == [] then 0 else |Grant(s, ls[0], x)| + Grants(Apply(s, ls[0]), ls[1..], x)
  }

  lemma SignalSems(s: State, y: SemId, x: SemId)
    requires y < |s.sems| && x < |s.sems|
    ensures var r := SemSignal(s, y);
            && |r.sems| == |s.sems| && r.sems[x].initial == s.sems[x].initial
            && r.sems[x].count ==
               s.sems[x].count + if y == x && !(s.sems[x].count == 0 && Q(s, SemOf(x)) != []) then 1 else 0
  {
    if s.sems[y].count == 0 && Q(s, SemOf(y)) != [] {
      HandOffSems(s, y);
    }
    hide Put, Get;
  }

  lemma HandOffSems(s: State, y: SemId)
    requires y < |s.sems| && s.sems[y].count == 0 && Q(s, SemOf(y)) != []
    ensures var a := s.sems[y];
            SemSignal(s, y).sems == s.sems[y := a.(signals := a.signals + 1, grants := a.grants + 1)]
  {
  }

  lemma StepSems(s: State, l: Label, x: SemId)
    requires Inv(s) && Enabled(s, l) && x < |s.sems|
    ensures var s' := Apply(s, l);
            && x < |s'.sems| && s'.sems[x].initial == s.sems[x].initial
            && s'.sems[x].count == s.sems[x].count + (if l == Signal(x) then 1 else 0) - |Grant(s, l, x)|
  {
    hide Inv, ThreadExit, ThreadAlert, ThreadNew, SemSignal, Block, RunNext, Put;
    match l
    case New => NewPend(s);
    case Pause => NewPend(s);
    case Preempt => NewPend(s);
    case Exit(code) => ExitBooks(s, code);
    case Join(t) => BlockPend(s, JoinOf(t), InJoin(t));
    case JoinAll => BlockPend(s, Join0, InJoinAll);
    case Alert(u) => AlertPend(s, u);
    case Init(n) =>
    case Signal(y) => SignalSems(s, y, x);
    case Wait(y) => BlockPend(s, SemOf(y), InWait(y));
    case Resume =>
  }

  lemma ExitBooks(s: State, code: int)
    requires Inv(s) && s.status == Running
    ensures ThreadExit(s, code).sems == s.sems
  {
    hide Inv, ThreadExit;
    ExitChanges(s, code);
  }

  /** The count of a semaphore is what it was, plus the signals, minus the grants. */
  lemma {:induction false} TokensAreConserved(s: State, ls: seq<Label>, x: SemId)
    requires Inv(s) && Runs(s, ls) && x < |s.sems|
    ensures var r := Exec(s, ls);
            x < |r.sems| && r.sems[x].count == s.sems[x].count + Signals(ls, x) - Grants(s, ls, x)
            && r.sems[x].initial == s.sems[x].initial
    decreases |ls|
  {
    if ls != [] {
      StepSems(s, ls[0], x);
      StepInv(s, ls[0]);
      hide Inv, Apply, Enabled, Grant;
      TokensAreConserved(Apply(s, ls[0]), ls[1..], x);
    }
  }

  /** A semaphore that started at no less than zero never falls below, and while anybody waits
      on it its count is zero. */
  lemma WaitersMeanZero(s: State, ls: seq<Label>, x: SemId)
    requires Initial(s) && Runs(s, ls) && x < |Exec(s, ls).sems| && Exec(s, ls).sems[x].initial >= 0
    ensures var r := Exec(s, ls); r.sems[x].count >= 0 && (Q(r, SemOf(x)) != [] ==> r.sems[x].count == 0)
  {
    InitialInv(s);
    InvAfter(s, ls);
    CountAt(Exec(s, ls), x);
  }

  /** The part of a queue in front of a thread. */
  function Before(q: seq<Tid>, t: Tid): seq<Tid>
  {
    if q == [] || q[0] == t then [] else [q[0]] + Before(q[1..], t)
  }

  lemma {:induction false} BeforeAppend(q: seq<Tid>, t: Tid, u: Tid)
    requires t in q
    ensures Before(q + [u], t) == Before(q, t)
  {
    if q[0] != t {
      assert (q + [u])[1..] == q[1..] + [u];
      BeforeAppend(q[1..], t, u);
    }
  }

  lemma {:induction false} BeforeRemove(q: seq<Tid>, t: Tid, u: Tid)
    requires t in q && u != t
    ensures t in Remove(q, u)
    ensures Before(Remove(q, u), t) == Remove(Before(q, t), u)
  {
    if q[0] == u {
      assert q[1..] == Remove(q, u);
    } else if q[0] != t {
      BeforeRemove(q[1..], t, u);
    }
  }

  lemma {:induction false} RemoveFewer(q: seq<Tid>, u: Tid)
    ensures |Remove(q, u)| <= |q| && forall t :: t in Remove(q, u) ==> t in q
  {
    if q != [] && q[0] != u { RemoveFewer(q[1..], u); }
  }

  /** While t waits on x, is not alerted and is not granted, every grant takes one thread from in
      front of it, and nobody joins in front. */
  lemma StepInFront(s: State, l: Label, x: SemId, t: Tid)
    requires Inv(s) && Enabled(s, l) && x < |s.sems| && s.sems[x].initial >= 0 && t in Q(s, SemOf(x))
    requires l != Alert(t) && Grant(s, l, x) != [t]
    ensures var q, q' := Before(Q(s, SemOf(x)), t), Before(Q(Apply(s, l), SemOf(x)), t);
            && t in Q(Apply(s, l), SemOf(x))
            && (forall u :: u in q' ==> u in q) && (forall u :: u in Grant(s, l, x) ==> u in q)
            && |q'| + |Grant(s, l, x)| <= |q|
            && |Grant(s, l, x)| == if l == Signal(x) then 1 else 0
  {
    CountAt(s, x);
    StepWaiters(s, l, x);
    hide Inv, Apply, Remove;
    var q := Q(s, SemOf(x));
    match l
    case Wait(y) => BeforeAppend(q, t, s.current);
    case Alert(u) =>
      if u in s.inq && s.inq[u] == SemOf(x) {
        BeforeRemove(q, t, u);
        RemoveFewer(Before(q, t), u);
      }
    case _ =>
  }

  /** Semaphores are fair.  As long as a waiting thread is neither alerted nor granted, every
      grant goes to a thread that was in front of it, and there are no more signals than there
      were threads in front: the next one after those is for this thread. */
  lemma {:induction false} GrantsInOrder(s: State, ls: seq<Label>, x: SemId, t: Tid)
    requires Inv(s) && Runs(s, ls) && x < |s.sems| && s.sems[x].initial >= 0 && t in Q(s, SemOf(x))
    requires Alert(t) !in ls && forall i: nat :: i < |ls| ==> !GrantedAt(s, ls, i, x, t)
    ensures var q, q' := Before(Q(s, SemOf(x)), t), Before(Q(Exec(s, ls), SemOf(x)), t);
            && t in Q(Exec(s, ls), SemOf(x)) && |q'| + Signals(ls, x) <= |q| && (forall u :: u in q' ==> u in q)
    ensures forall i: nat, u: Tid :: i < |ls| && GrantedAt(s, ls, i, x, u) ==> u in Before(Q(s, SemOf(x)), t)
    decreases |ls|
  {
    if ls != [] {
      var s', rest := Apply(s, ls[0]), ls[1..];
      forall i: nat, u: Tid | i < |rest| ensures GrantedAt(s', rest, i, x, u) == GrantedAt(s, ls, i + 1, x, u) {
        LaterGrant(s, ls, i, x, u);
      }
      forall u: Tid ensures GrantedAt(s, ls, 0, x, u) == (Grant(s, ls[0], x) == [u]) {
        AtStep(s, ls, 0);
      }
      StepInFront(s, ls[0], x, t);
      StepSems(s, ls[0], x);
      StepInv(s, ls[0]);
      hide Inv, Apply, Enabled, Grant, GrantedAt, Before;
      GrantsInOrder(s', rest, x, t);
      forall i: nat, u: Tid | i < |ls| && GrantedAt(s, ls, i, x, u) ensures u in Before(Q(s, SemOf(x)), t) {
        if i > 0 {
          assert GrantedAt(s', rest, i - 1, x, u);
        } else {
          assert u in Grant(s, ls[0], x);
        }
      }
    }
  }

  /** Step i of a run gives thread t a token of x. */
  ghost predicate GrantedAt(s: State, ls: seq<Label>, i: nat, x: SemId, t: Tid)
    requires Runs(s, ls)
  {
    i < |ls| && (AtStep(s, ls, i); Grant(At(s, ls, i), ls[i], x) == [t])
  }

  lemma LaterAt(s: State, ls: seq<Label>, i: nat)
    requires Runs(s, ls) && i < |ls|
    ensures At(s, ls, i + 1) == At(Apply(s, ls[0]), ls[1..], i)
  {
    AtStep(s, ls, i);
    Cut(Apply(s, ls[0]), ls[1..], i);
    assert ls[..i + 1][0] == ls[0];
    assert ls[..i + 1][1..] == ls[1..][..i];
  }

  lemma LaterGrant(s: State, ls: seq<Label>, i: nat, x: SemId, t: Tid)
    requires Runs(s, ls) && i + 1 < |ls|
    ensures GrantedAt(Apply(s, ls[0]), ls[1..], i, x, t) == GrantedAt(s, ls, i + 1, x, t)
  {
    hide Apply, Enabled, Grant;
    LaterAt(s, ls, i);
    AtStep(s, ls, i + 1);
    AtStep(Apply(s, ls[0]), ls[1..], i);
  }

  // ---------------------------------------------------------------- every return from Sem_wait has its token

  /** Since step i of the run thread t has not run. */
  ghost predicate IdleSince(s: State, ls: seq<Label>, i: nat, t: Tid)
    requires Runs(s, ls)
  {
    forall k: nat :: i < k < |ls| ==> At(s, ls, k).current != t
  }

  /** Step i is a call of Sem_wait(x) by t, which has not run since. */
  ghost predicate WaitsSince(s: State, ls: seq<Label>, i: nat, x: SemId, t: Tid)
    requires Runs(s, ls)
  {
    i < |ls| && ls[i] == Wait(x) && At(s, ls, i).current == t && IdleSince(s, ls, i, t)
  }

  /** Thread t began to wait on x at step i, and then was given a token, before anything else
      happened to it. */
  ghost predicate Served(s: State, ls: seq<Label>, i: nat, x: SemId, t: Tid)
    requires Runs(s, ls)
  {
    WaitsSince(s, ls, i, x, t) && exists k: nat :: i < k < |ls| && GrantedAt(s, ls, k, x, t)
  }

  lemma ExitPend(s: State, code: int)
    requires Inv(s) && s.status == Running
    ensures var r := ThreadExit(s, code);
            r.pend == s.pend && r.alerted == s.alerted - {s.current} && r.live == s.live - {s.current}
  {
    hide Inv, ThreadExit;
    ExitChanges(s, code);
  }

  /** What a step does to the calls threads are in. */
  function Pends(s: State, l: Label): map<Tid, Pending>
    requires Enabled(s, l)
  {
    if Raises(s, l) then s.pend[s.current := Nothing]
    else
      match l
      case New => s.pend[s.next := Nothing]
      case Join(t) => if t in s.live then s.pend[s.current := InJoin(t)] else s.pend
      case JoinAll => if s.nthreads > 1 then s.pend[s.current := InJoinAll] else s.pend
      case Wait(x) => if s.sems[x].count <= 0 then s.pend[s.current := InWait(x)] else s.pend
      case Resume => s.pend[s.current := Nothing]
      case _ => s.pend
  }

  lemma StepPends(s: State, l: Label)
    requires Inv(s) && Enabled(s, l)
    ensures Apply(s, l).pend == Pends(s, l)
  {
    hide Inv, ThreadExit, ThreadAlert, ThreadNew, SemSignal, Block, RunNext, Put, Departed;
    match l
    case New => NewPend(s);
    case Pause => NewPend(s);
    case Preempt => NewPend(s);
    case Exit(code) => ExitPend(s, code);
    case Join(t) => BlockPend(s, JoinOf(t), InJoin(t));
    case JoinAll => BlockPend(s, Join0, InJoinAll);
    case Alert(u) => AlertPend(s, u);
    case Init(n) =>
    case Signal(x) => SignalPend(s, x);
    case Wait(x) => BlockPend(s, SemOf(x), InWait(x));
    case Resume =>
  }

  /** What a step does to who is live and who is alerted. */
  lemma StepLives(s: State, l: Label)
    requires Inv(s) && Enabled(s, l)
    ensures var s' := Apply(s, l);
            && (if l == New then s'.live == s.live + {s.next} else s'.live <= s.live) && s.live - {s.current} <= s'.live
            && s.alerted - {s.current} <= s'.alerted && (l.Alert? ==> l.t in s'.alerted)
  {
    hide Inv, ThreadExit, ThreadAlert, ThreadNew, SemSignal, Block, RunNext, Put, Departed;
    match l
    case New => NewPend(s);
    case Pause => NewPend(s);
    case Preempt => NewPend(s);
    case Exit(code) => ExitPend(s, code);
    case Join(t) => BlockPend(s, JoinOf(t), InJoin(t));
    case JoinAll => BlockPend(s, Join0, InJoinAll);
    case Alert(u) => AlertPend(s, u);
    case Init(n) =>
    case Signal(x) => SignalPend(s, x);
    case Wait(x) => BlockPend(s, SemOf(x), InWait(x));
    case Resume =>
  }

  lemma StepPend(s: State, l: Label, t: Tid)
    requires Inv(s) && Enabled(s, l) && t != s.current
    ensures var s' := Apply(s, l);
            t in s'.live && Pend(s', t) != Nothing ==>
              t in s.live && Pend(s', t) == Pend(s, t) && (t in s.alerted ==> t in s'.alerted)
  {
    StepPends(s, l);
    StepLives(s, l);
    hide Inv, Apply;
  }

  /** Only a call of Sem_wait leaves the caller waiting. */
  lemma StepOwnPend(s: State, l: Label, x: SemId)
    requires Inv(s) && Enabled(s, l) && s.current in Apply(s, l).live && Pend(Apply(s, l), s.current) == InWait(x)
    ensures l == Wait(x) && !Raises(s, l) && x < |s.sems| && s.sems[x].count <= 0
  {
    StepPends(s, l);
    StepLives(s, l);
    hide Inv, Apply;
  }

  lemma Fresh(s: State)
    requires Inv(s)
    ensures s.next !in s.live
  {
  }

  lemma StepFromQueue(s: State, l: Label, x: SemId, t: Tid)
    requires Inv(s) && Enabled(s, l) && t in Q(s, SemOf(x))
    ensures t in Q(Apply(s, l), SemOf(x)) || t in Apply(s, l).alerted || Grant(s, l, x) == [t]
  {
    StepWaiters(s, l, x);
    QueuedAt(s, SemOf(x));
    hide Inv, Apply, Remove;
    match l
    case Alert(u) =>
      RemoveMembers(Q(s, SemOf(x)), u);
      assert u == t ==> t in Apply(s, l).alerted by { AlertMarks(s, u); }
    case _ =>
  }

  lemma AlertMarks(s: State, t: Tid)
    requires Enabled(s, Alert(t))
    ensures t in Apply(s, Alert(t)).alerted
  {
    hide Remove;
  }

  lemma {:induction false} WaitersSince(s: State, ls: seq<Label>, x: SemId, t: Tid)
    requires Initial(s) && Runs(s, ls) && t in Exec(s, ls).live && Pend(Exec(s, ls), t) == InWait(x)
    ensures exists i ::
        WaitsSince(s, ls, i, x, t) && (t in Q(Exec(s, ls), SemOf(x)) || t in Exec(s, ls).alerted
        || Served(s, ls, i, x, t))
    decreases |ls|
  {
    InitialInv(s);
    if ls == [] {
      assert false;
    } else {
      var front, n := ls[..|ls| - 1], |ls| - 1;
      ButLast(s, ls, n);
      InvAfter(s, front);
      var r := Exec(s, front);
      if r.current == t {
        StepOwnPend(r, ls[n], x);
        StepWaiters(r, ls[n], x);
        assert WaitsSince(s, ls, n, x, t);
      } else {
        StepPend(r, ls[n], t);
        WaitersSince(s, front, x, t);
        var i :| WaitsSince(s, front, i, x, t) && (t in Q(r, SemOf(x)) || t in r.alerted || Served(s, front, i, x, t));
        LongerWait(s, ls, i, x, t);
        if t in Q(r, SemOf(x)) {
          StepFromQueue(r, ls[n], x, t);
        }
        if Served(s, front, i, x, t) || Grant(r, ls[n], x) == [t] {
          LongerService(s, ls, i, x, t);
        }
      }
    }
  }

  lemma LongerGrant(s: State, ls: seq<Label>, k: nat, x: SemId, t: Tid)
    requires ls != [] && Runs(s, ls) && Runs(s, ls[..|ls| - 1]) && GrantedAt(s, ls[..|ls| - 1], k, x, t)
    ensures GrantedAt(s, ls, k, x, t)
  {
    hide Enabled, Apply, Grant;
    AtStep(s, ls, k);
    AtStep(s, ls[..|ls| - 1], k);
    ButLast(s, ls, k);
  }

  lemma LastGrant(s: State, ls: seq<Label>, x: SemId, t: Tid)
    requires ls != [] && Runs(s, ls) && Runs(s, ls[..|ls| - 1]) && Enabled(Exec(s, ls[..|ls| - 1]), ls[|ls| - 1])
    requires Grant(Exec(s, ls[..|ls| - 1]), ls[|ls| - 1], x) == [t]
    ensures GrantedAt(s, ls, |ls| - 1, x, t)
  {
    hide Enabled, Apply, Grant;
    AtStep(s, ls, |ls| - 1);
    ButLast(s, ls, |ls| - 1);
  }

  lemma LongerWait(s: State, ls: seq<Label>, i: nat, x: SemId, t: Tid)
    requires ls != [] && Runs(s, ls) && Runs(s, ls[..|ls| - 1])
    requires WaitsSince(s, ls[..|ls| - 1], i, x, t) && Exec(s, ls[..|ls| - 1]).current != t
    ensures WaitsSince(s, ls, i, x, t)
  {
    var front, n := ls[..|ls| - 1], |ls| - 1;
    hide Enabled, Apply, At, Runs;
    ButLast(s, ls, i);
    forall k: nat | i < k < |ls| ensures At(s, ls, k).current != t {
      ButLast(s, ls, k);
      ButLast(s, ls, n);
      assert k < n ==> At(s, front, k).current != t;
    }
  }

  lemma LongerService(s: State, ls: seq<Label>, i: nat, x: SemId, t: Tid)
    requires ls != [] && Runs(s, ls) && Runs(s, ls[..|ls| - 1]) && Enabled(Exec(s, ls[..|ls| - 1]), ls[|ls| - 1])
    requires WaitsSince(s, ls, i, x, t) && i < |ls| - 1
    requires Served(s, ls[..|ls| - 1], i, x, t) || Grant(Exec(s, ls[..|ls| - 1]), ls[|ls| - 1], x) == [t]
    ensures Served(s, ls, i, x, t)
  {
    var front, n := ls[..|ls| - 1], |ls| - 1;
    hide Enabled, Apply, Grant, GrantedAt, At, Runs, WaitsSince;
    if Grant(Exec(s, front), ls[n], x) == [t] {
      LastGrant(s, ls, x, t);
    } else {
      var k: nat :| i < k < |front| && GrantedAt(s, front, k, x, t);
      LongerGrant(s, ls, k, x, t);
    }
  }

  /** Whoever returns normally from a Sem_wait that blocked was given a token since it called. */
  lemma WaitReturnsServed(s: State, ls: seq<Label>, x: SemId)
    requires Initial(s) && Runs(s, ls)
    requires var r := Exec(s, ls); Enabled(r, Resume) && Pend(r, r.current) == InWait(x) && !Raises(r, Resume)
    ensures exists i :: Served(s, ls, i, x, Exec(s, ls).current)
  {
    InitialInv(s);
    InvAfter(s, ls);
    var r := Exec(s, ls);
    assert r.current in r.live;
    InQueueNot(r, SemOf(x));
    WaitersSince(s, ls, x, r.current);
  }

  lemma InQueueNot(s: State, q: QueueId)
    requires Inv(s) && s.status == Running
    ensures s.current !in Q(s, q)
  {
    InQueue(s, q, s.current);
  }

  // ---------------------------------------------------------------- a grant to an alerted waiter is spent

  /** A thread that does not run stays in the call it is in, and stays alerted. */
  lemma StepIdle(s: State, l: Label, t: Tid)
    requires Inv(s) && Enabled(s, l) && t in s.live && t != s.current
    ensures var s' := Apply(s, l);
            && t in s'.live && Pend(s', t) == Pend(s, t) && (t in s.alerted || l == Alert(t) ==> t in s'.alerted)
  {
    StepPends(s, l);
    StepLives(s, l);
    Fresh(s);
    hide Inv, Apply;
  }

  /** From step j to step k thread t stays in the call it is in; an alert by then has marked it. */
  lemma {:induction false} StaysIn(s: State, ls: seq<Label>, j: nat, k: nat, t: Tid, p: Pending)
    requires Inv(s) && Runs(s, ls) && j <= k <= |ls| && t in At(s, ls, j).live && Pend(At(s, ls, j), t) == p
    requires forall m: nat :: j <= m < k ==> At(s, ls, m).current != t
    ensures t in At(s, ls, k).live && Pend(At(s, ls, k), t) == p
    ensures t in At(s, ls, j).alerted || Alert(t) in ls[j..k] ==> t in At(s, ls, k).alerted
    decreases k - j
  {
    hide Inv, Apply, Enabled, At, Pend;
    if j < k {
      StaysIn(s, ls, j, k - 1, t, p);
      InvAt(s, ls, k - 1);
      AtStep(s, ls, k - 1);
      StepIdle(At(s, ls, k - 1), ls[k - 1], t);
      assert ls[j..k] == ls[j..k - 1] + [ls[k - 1]];
    }
  }

  /** A hand-off takes the waiter out of its queue but not out of its Sem_wait. */
  lemma HandedOff(s: State, x: SemId, t: Tid)
    requires Inv(s) && Enabled(s, Signal(x)) && Grant(s, Signal(x), x) == [t]
    ensures var r := Apply(s, Signal(x)); t in r.live && Pend(r, t) == InWait(x) && t != s.current
  {
    var q := Q(s, SemOf(x));
    assert t in q;
    InQueue(s, SemOf(x), t);
    assert Blocked(s, t, SemOf(x));
    SignalPend(s, x);
  }

  /** A waiter that was handed a token and is alerted before it runs raises when it runs: its call
      of Sem_wait does not return.  The grant is spent all the same: raising gives nothing back. */
  lemma AlertedWaiterRaises(s: State, ls: seq<Label>, i: nat, k: nat, x: SemId, t: Tid)
    requires Initial(s) && Runs(s, ls) && i < k < |ls| && ls[i] == Signal(x) && GrantedAt(s, ls, i, x, t)
        && ls[k] == Alert(t)
    requires forall m: nat :: i < m < |ls| ==> At(s, ls, m).current != t
    requires Exec(s, ls).status == Running && Exec(s, ls).current == t
    ensures var r := Exec(s, ls);
            && Pend(r, t) == InWait(x) && Enabled(r, Resume) && Raises(r, Resume)
            && Pend(Apply(r, Resume), t) == Nothing
            && Apply(r, Resume).sems == r.sems && Grant(r, Resume, x) == []
    ensures Grants(s, ls, x) >= 1
  {
    InitialInv(s);
    InvAt(s, ls, i);
    AtStep(s, ls, i);
    AtStep(s, ls, |ls| - 1);
    GrantCounted(s, ls, i, x, t);
    assert Grant(At(s, ls, i), Signal(x), x) == [t];
    hide Inv, Initial, Apply, Enabled, At, Pend, Grant, Grants, GrantedAt;
    HandedOff(At(s, ls, i), x, t);
    assert ls[i + 1..|ls|][k - i - 1] == ls[k];
    StaysIn(s, ls, i + 1, |ls|, t, InWait(x));
    ResumeRaises(Exec(s, ls), x, t);
  }

  lemma ResumeRaises(s: State, x: SemId, t: Tid)
    requires s.status == Running && s.current == t && Pend(s, t) == InWait(x) && t in s.alerted
    ensures Enabled(s, Resume) && Raises(s, Resume) && Pend(Apply(s, Resume), t) == Nothing
    ensures Apply(s, Resume).sems == s.sems && Grant(s, Resume, x) == []
  {
  }

  lemma {:induction false} GrantCounted(s: State, ls: seq<Label>, i: nat, x: SemId, t: Tid)
    requires Runs(s, ls) && GrantedAt(s, ls, i, x, t)
    ensures Grants(s, ls, x) >= 1
    decreases |ls|
  {
    hide Enabled, Apply, Grant, At;
    if i == 0 {
      AtStep(s, ls, 0);
    } else {
      LaterGrant(s, ls, i - 1, x, t);
      GrantCounted(Apply(s, ls[0]), ls[1..], i - 1, x, t);
    }
  }

  /** What the clients see of a semaphore. */
  function View(s: State, x: SemId): Sem
    requires x < |s.sems|
  {
    Sem(s.sems[x].count, Q(s, SemOf(x)))
  }

  /** Sem_wait and Sem_signal do to count and queue what module Semaphores, on which the clients
      are modelled, says they do. */
  lemma WaitView(s: State, x: SemId)
    requires x < |s.sems|
    ensures |SemWait(s, x).sems| == |s.sems| && View(SemWait(s, x), x) == Semaphores.Wait(View(s, x), s.current).0
    ensures Semaphores.Wait(View(s, x), s.current).1 <==> SemWait(s, x) == s.(sems := SemWait(s, x).sems)
    ensures !Semaphores.Wait(View(s, x), s.current).1 ==>
              Pend(SemWait(s, x), s.current) == InWait(x)
                  && if Q(s, Ready) == [] then SemWait(s, x).status == Stuck
                       else SemWait(s, x).current == Q(s, Ready)[0]
  {
    var r := SemWait(s, x);
    if s.sems[x].count <= 0 {
      assert r.sems == s.sems;
      assert Q(r, SemOf(x)) == Q(s, SemOf(x)) + [s.current];
    }
  }

  lemma SignalView(s: State, x: SemId)
    requires x < |s.sems|
    ensures |SemSignal(s, x).sems| == |s.sems| && View(SemSignal(s, x), x) == Semaphores.Signal(View(s, x)).0
    ensures match Semaphores.Signal(View(s, x)).1
            case None => SemSignal(s, x).queues == s.queues
            case Some(t) => Q(SemSignal(s, x), Ready) == Q(s, Ready) + [t]
  {
    SignalWaiters(s, x, x);
    SignalSems(s, x, x);
    SignalReady(s, x);
    hide SemSignal, Q;
  }

  lemma SignalReady(s: State, x: SemId)
    requires x < |s.sems|
    ensures if s.sems[x].count == 0 && Q(s, SemOf(x)) != [] then
              Q(SemSignal(s, x), Ready) == Q(s, Ready) + [Q(s, SemOf(x))[0]]
            else SemSignal(s, x).queues == s.queues
  {
  }

  // ---------------------------------------------------------------- when somebody is ready

  /** Thread_exit finds somebody to run when somebody is ready, or when the one other thread
      waits for all. */
  lemma ExitRuns(s: State, code: int)
    requires Inv(s) && s.status == Running && s.nthreads > 1
    requires Q(s, Ready) != [] || (Q(s, Join0) != [] && s.nthreads == 2)
    ensures ThreadExit(s, code).status == Running
  {
    LeaveReady(s, code);
    hide Inv, Leave;
    WokenRuns(Leave(s, code));
    hide WakeJoinAll;
  }

  /** The state before the test for threads in join0: the joiners are ready, in order. */
  lemma LeaveReady(s: State, code: int)
    requires Inv(s) && s.status == Running
    ensures var r := Leave(s, code);
            && Q(r, Ready) == Q(s, Ready) + Q(s, JoinOf(s.current)) && Q(r, Join0) == Q(s, Join0)
            && r.nthreads == s.nthreads && r.status == Running
  {
    LeaveStart(s, code);
    var s0 := Departed(s, code);
    assert forall q :: Q(s0, q) == Q(s, q);
    hide Inv, WakeJoiners;
    WakeAll(s0, s.current, code);
    StillRunning(Leave(s, code), s.current, code);
  }

  lemma StillRunning(s: State, t: Tid, code: int)
    requires Leaving(s, t, code)
    ensures s.status == Running
  {
  }

  lemma WokenRuns(s: State)
    requires Q(s, Ready) != [] || (Q(s, Join0) != [] && s.nthreads == 2)
    ensures var r := WakeJoinAll(s); Q(r, Ready) != [] && r.nthreads == s.nthreads && r.status == s.status
  {
  }

  lemma ExitNext(s: State, code: int)
    requires Inv(s) && s.status == Running
    ensures ThreadExit(s, code).next == s.next
  {
    LeaveStart(s, code);
    hide Inv, Leaving;
    WakeAll(Departed(s, code), s.current, code);
  }

  /** The last thread's exit ends the program. */
  lemma ExitLast(s: State, code: int)
    requires Inv(s) && s.status == Running && s.nthreads == 1
    ensures ThreadExit(s, code).status == Exited(code)
  {
    LeaveStart(s, code);
    hide Inv, Leaving;
    WakeAll(Departed(s, code), s.current, code);
  }

  // ---------------------------------------------------------------- the ready queue is fair

  /** The step ends in run(). */
  predicate Switches(s: State, l: Label)
    requires Enabled(s, l)
  {
    !Raises(s, l) &&
    match l
    case Pause => true
    case Preempt => true
    case Exit(_) => s.nthreads > 1
    case Join(t) => t in s.live
    case JoinAll => s.nthreads > 1
    case Wait(x) => s.sems[x].count <= 0
    case _ => false
  }

  /** What step l does to a ready thread t that is not the one alerted: it comes one nearer to
      the front with every switch, and runs when it is at the front. */
  ghost predicate Nearer(s: State, s': State, t: Tid, switch: bool)
  {
    if switch && Before(Q(s, Ready), t) == [] then s'.current == t && s'.status == Running
    else t in Q(s', Ready) && |Before(Q(s', Ready), t)| + (if switch then 1 else 0) <= |Before(Q(s, Ready), t)|
  }

  lemma {:induction false} BeforeMore(q: seq<Tid>, e: seq<Tid>, t: Tid)
    requires t in q
    ensures t in q + e && Before(q + e, t) == Before(q, t)
  {
    if q[0] != t {
      assert (q + e)[1..] == q[1..] + e;
      BeforeMore(q[1..], e, t);
    }
  }

  /** More threads at the end, then a switch. */
  lemma RunNearer(s: State, s1: State, e: seq<Tid>, t: Tid)
    requires t in Q(s, Ready) && Q(s1, Ready) == Q(s, Ready) + e && s1.status == Running
    ensures Nearer(s, RunNext(s1), t, true)
  {
    BeforeMore(Q(s, Ready), e, t);
    var q := Q(s1, Ready);
    assert q[0] != t ==> t in q[1..] && Before(q, t) == [q[0]] + Before(q[1..], t);
  }

  lemma AppendNearer(s: State, s': State, e: seq<Tid>, t: Tid)
    requires t in Q(s, Ready) && Q(s', Ready) == Q(s, Ready) + e
    ensures Nearer(s, s', t, false)
  {
    BeforeMore(Q(s, Ready), e, t);
  }

  lemma AlertNearer(s: State, u: Tid, t: Tid)
    requires Queued(s) && t in Q(s, Ready) && u != t
    ensures Nearer(s, ThreadAlert(s, u), t, false)
  {
    var s1, q := s.(alerted := s.alerted + {u}), Q(s, Ready);
    if u in s.inq {
      DeleteQ(s1, u);
      if s.inq[u] == Ready {
        BeforeRemove(q, t, u);
        RemoveFewer(Before(q, t), u);
        BeforeMore(Remove(q, u), [u], t);
      } else {
        hide Remove;
        BeforeMore(q, [u], t);
      }
    }
  }

  lemma ExitNearer(s: State, code: int, t: Tid)
    requires Inv(s) && s.status == Running && t in Q(s, Ready)
    ensures s.nthreads > 1 && Nearer(s, ThreadExit(s, code), t, true)
  {
    TwoLive(s, t);
    LeaveReady(s, code);
    hide Inv, Leave;
    LeftNearer(s, Leave(s, code), Q(s, JoinOf(s.current)), t);
  }

  lemma LeftNearer(s: State, s1: State, e: seq<Tid>, t: Tid)
    requires t in Q(s, Ready) && Q(s1, Ready) == Q(s, Ready) + e && s1.status == Running
    ensures var s2 := WakeJoinAll(s1); Nearer(s, RunNext(s2.(nthreads := s2.nthreads - 1)), t, true)
  {
    hide Nearer, Before, WakeJoinAll, RunNext;
    var f := JoinAllReady(s1);
    var s2 := WakeJoinAll(s1);
    assert Q(s2, Ready) == Q(s, Ready) + (e + f);
    RunNearer(s, s2.(nthreads := s2.nthreads - 1), e + f, t);
  }

  /** Waking the thread in join0 appends it to ready, if it does anything. */
  lemma JoinAllReady(s: State) returns (e: seq<Tid>)
    ensures var r := WakeJoinAll(s); Q(r, Ready) == Q(s, Ready) + e && r.nthreads == s.nthreads && r.status == s.status
  {
    e := if Q(s, Join0) != [] && s.nthreads == 2 then [Q(s, Join0)[0]] else [];
  }

  lemma TwoLive(s: State, t: Tid)
    requires Inv(s) && s.status == Running && t in Q(s, Ready)
    ensures s.nthreads > 1
  {
    InQueue(s, Ready, t);
    assert {t, s.current} <= s.live;
    assert |{t, s.current}| == 2;
    SubsetSize({t, s.current}, s.live);
  }

  lemma SubsetSize(a: set<Tid>, b: set<Tid>)
    requires a <= b
    ensures |a| <= |b|
  {
    assert |b - a| == |b| - |a|;
  }

  lemma StepNearer(s: State, l: Label, t: Tid)
    requires Inv(s) && Enabled(s, l) && t in Q(s, Ready) && l != Alert(t)
    ensures Nearer(s, Apply(s, l), t, Switches(s, l))
  {
    assert s.status == Running;
    if Raises(s, l) {
      AppendNearer(s, Apply(s, l), [], t);
    } else {
      match l
      case New => AppendNearer(s, ThreadNew(s), [s.next], t);
      case Pause => RunNearer(s, Put(s, s.current, Ready), [s.current], t);
      case Preempt => RunNearer(s, Put(s, s.current, Ready), [s.current], t);
      case Exit(code) => ExitNearer(s, code, t);
      case Join(u) => if u in s.live { BlockNearer(s, JoinOf(u), InJoin(u), t); } else { AppendNearer(s, s, [], t); }
      case JoinAll => if s.nthreads > 1 { BlockNearer(s, Join0, InJoinAll, t); } else { AppendNearer(s, s, [], t); }
      case Alert(u) => AlertNearer(s, u, t);
      case Init(n) => AppendNearer(s, Apply(s, l), [], t);
      case Signal(x) => SignalNearer(s, x, t);
      case Wait(x) => if s.sems[x].count <= 0 { BlockNearer(s, SemOf(x), InWait(x), t); }
          else { AppendNearer(s, SemWait(s, x), [], t); }
      case Resume => AppendNearer(s, Apply(s, l), [], t);
    }
  }

  lemma BlockNearer(s: State, q: QueueId, p: Pending, t: Tid)
    requires t in Q(s, Ready) && s.status == Running && q != Ready
    ensures Nearer(s, Block(s, q, p), t, true)
  {
    RunNearer(s, Put(s.(pend := s.pend[s.current := p]), s.current, q), [], t);
  }

  lemma SignalNearer(s: State, x: SemId, t: Tid)
    requires t in Q(s, Ready) && x < |s.sems|
    ensures Nearer(s, SemSignal(s, x), t, false)
  {
    AppendNearer(s, SemSignal(s, x), if s.sems[x].count == 0
        && Q(s, SemOf(x)) != [] then [Q(s, SemOf(x))[0]] else [], t);
  }

  /** How often a run switches. */
  function SwitchCount(s: State, ls: seq<Label>): nat
    requires Runs(s, ls)
    decreases |ls|
  {
    if ls == [] then 0 else (if Switches(s, ls[0]) then 1 else 0) + SwitchCount(Apply(s, ls[0]), ls[1..])
  }

  /** Thread t is not switched to in the run. */
  ghost predicate NotRun(s: State, ls: seq<Label>, t: Tid)
    requires Runs(s, ls)
    decreases |ls|
  {
    ls == [] || (Apply(s, ls[0]).current != t && NotRun(Apply(s, ls[0]), ls[1..], t))
  }

  /** As long as a ready thread is neither alerted nor run there are no more switches than there
      were threads in front of it: the next one after those is to this thread.  (Alerting a ready
      thread moves it to the end of the queue.) */
  lemma {:induction false} ReadyIsFair(s: State, ls: seq<Label>, t: Tid)
    requires Inv(s) && Runs(s, ls) && t in Q(s, Ready) && Alert(t) !in ls && NotRun(s, ls, t)
    ensures var r := Exec(s, ls);
            t in Q(r, Ready) && |Before(Q(r, Ready), t)| + SwitchCount(s, ls) <= |Before(Q(s, Ready), t)|
    decreases |ls|
  {
    if ls != [] {
      StepNearer(s, ls[0], t);
      StepInv(s, ls[0]);
      hide Inv, Apply, Enabled, Switches, Before;
      ReadyIsFair(Apply(s, ls[0]), ls[1..], t);
    }
  }
}

/** What the calls of thread.c promise their callers, over every run: an alert is raised once,
    joins wait, a semaphore has the tokens it was made with, and threads take turns. */
module SchedulerCalls {
  import opened Semaphores
  import opened ThreadQueues
  import opened Scheduler
  import opened SchedulerRuns
  import Rings

  // ---------------------------------------------------------------- alerts

  /** The thread that runs at step i of a run. */
  function Who(s: State, ls: seq<Label>, i: nat): Tid
    requires Runs(s, ls) && i <= |ls|
  {
    At(s, ls, i).current
  }

  /** At step i thread t finds that it is alerted, and raises. */
  ghost predicate RaisesAt(s: State, ls: seq<Label>, i: nat, t: Tid)
    requires Runs(s, ls)
  {
    i < |ls| && Who(s, ls, i) == t && Raises(At(s, ls, i), ls[i])
  }

  /** The calls that begin with testalert, and the way out of run() in them. */
  predicate Tests(l: Label) { l.Join? || l.JoinAll? || l.Wait? || l.Resume? }

  function Alerted(s: State, l: Label): set<Tid>
  {
    match l
    case Alert(t) => s.alerted + {t}
    case Exit(_) => s.alerted - {s.current}
    case _ => if Tests(l) then s.alerted - {s.current} else s.alerted
  }

  lemma StepAlerted(s: State, l: Label)
    requires Inv(s) && Enabled(s, l)
    ensures Apply(s, l).alerted == Alerted(s, l)
  {
    hide Inv, ThreadExit, ThreadAlert, ThreadNew, SemSignal, Block, RunNext, Put, Departed;
    match l
    case New => NewPend(s);
    case Pause => NewPend(s);
    case Preempt => NewPend(s);
    case Exit(code) => ExitPend(s, code);
    case Join(t) => BlockPend(s, JoinOf(t), InJoin(t));
    case JoinAll => BlockPend(s, Join0, InJoinAll);
    case Alert(u) => AlertPend(s, u);
    case Init(n) =>
    case Signal(x) => SignalPend(s, x);
    case Wait(x) => BlockPend(s, SemOf(x), InWait(x));
    case Resume =>
  }

  /** From step i to step j nobody alerts t, which is not alerted at step i. */
  lemma {:induction false} StaysUnalerted(s: State, ls: seq<Label>, i: nat, j: nat, t: Tid)
    requires Inv(s) && Runs(s, ls) && i <= j <= |ls| && t !in At(s, ls, i).alerted && Alert(t) !in ls[i..j]
    ensures t !in At(s, ls, j).alerted
    decreases j - i
  {
    hide Inv, Apply, Enabled, At;
    if i < j {
      assert ls[i..j] == ls[i..j - 1] + [ls[j - 1]];
      StaysUnalerted(s, ls, i, j - 1, t);
      InvAt(s, ls, j - 1);
      AtStep(s, ls, j - 1);
      StepAlerted(At(s, ls, j - 1), ls[j - 1]);
    }
  }

  lemma UsedUp(s: State, ls: seq<Label>, i: nat, t: Tid)
    requires Inv(s) && Runs(s, ls) && RaisesAt(s, ls, i, t)
    ensures t !in At(s, ls, i + 1).alerted
  {
    InvAt(s, ls, i);
    AtStep(s, ls, i);
    StepAlerted(At(s, ls, i), ls[i]);
    hide Inv, Apply, Enabled, At;
  }

  /** Raising uses the alert up: between two raises of a thread it is alerted. */
  lemma AlertBetweenRaises(s: State, ls: seq<Label>, i: nat, j: nat, t: Tid)
    requires Inv(s) && Runs(s, ls) && i < j && RaisesAt(s, ls, i, t) && RaisesAt(s, ls, j, t)
    ensures Alert(t) in ls[i + 1..j]
  {
    UsedUp(s, ls, i, t);
    hide Inv, At, Enabled;
    if Alert(t) !in ls[i + 1..j] {
      StaysUnalerted(s, ls, i + 1, j, t);
    }
  }

  function AlertCount(ls: seq<Label>, t: Tid): nat
  {
    if ls == [] then 0 else AlertCount(ls[1..], t) + if ls[0] == Alert(t) then 1 else 0
  }

  function RaiseCount(s: State, ls: seq<Label>, t: Tid): nat
    requires Runs(s, ls)
    decreases |ls|
  {
    if ls == [] then 0
    else RaiseCount(Apply(s, ls[0]), ls[1..], t) + if s.current == t && Raises(s, ls[0]) then 1 else 0
  }

  function Open(s: State, t: Tid): nat { if t in s.alerted then 1 else 0 }

  lemma {:induction false} RaisesAndOpen(s: State, ls: seq<Label>, t: Tid)
    requires Inv(s) && Runs(s, ls)
    ensures RaiseCount(s, ls, t) + Open(Exec(s, ls), t) <= AlertCount(ls, t) + Open(s, t)
    decreases |ls|
  {
    if ls != [] {
      StepInv(s, ls[0]);
      StepAlerted(s, ls[0]);
      hide Inv, Apply, Enabled;
      RaisesAndOpen(Apply(s, ls[0]), ls[1..], t);
    }
  }

  /** A thread raises no more often than it has been alerted. */
  lemma RaisesAtMostAlerts(s: State, ls: seq<Label>, t: Tid)
    requires Initial(s) && Runs(s, ls)
    ensures RaiseCount(s, ls, t) <= AlertCount(ls, t)
  {
    InitialInv(s);
    RaisesAndOpen(s, ls, t);
  }

  /** An alert lasts until its thread raises. */
  lemma {:induction false} StaysAlerted(s: State, ls: seq<Label>, i: nat, j: nat, t: Tid)
    requires Inv(s) && Runs(s, ls) && i <= j <= |ls| && t in At(s, ls, i).alerted && t in At(s, ls, j).live
    requires forall m: nat :: i <= m < j ==> !RaisesAt(s, ls, m, t)
    ensures t in At(s, ls, j).alerted
    decreases j - i
  {
    hide Inv, Apply, Enabled, At;
    if i < j {
      InvAt(s, ls, j - 1);
      AtStep(s, ls, j - 1);
      InvAt(s, ls, i);
      AlertedIsLive(At(s, ls, i), t);
      LiveBefore(s, ls, i, j - 1, t);
      StaysAlerted(s, ls, i, j - 1, t);
      StepAlerted(At(s, ls, j - 1), ls[j - 1]);
      if ls[j - 1].Exit? { LeavesBy(At(s, ls, j - 1), ls[j - 1]); }
      assert !RaisesAt(s, ls, j - 1, t);
    }
  }

  lemma AlertedIsLive(s: State, t: Tid)
    requires Inv(s) && t in s.alerted
    ensures t in s.live && t < s.next
  {
  }

  lemma LeavesBy(s: State, l: Label)
    requires Inv(s) && Enabled(s, l) && l.Exit?
    ensures s.current !in Apply(s, l).live
  {
    ExitPend(s, l.code);
    hide Inv, Apply;
  }

  /** Only new threads become live. */
  lemma {:induction false} LiveBefore(s: State, ls: seq<Label>, i: nat, j: nat, t: Tid)
    requires Inv(s) && Runs(s, ls) && i <= j < |ls| && t < At(s, ls, i).next && t in At(s, ls, j + 1).live
    ensures t in At(s, ls, j).live && At(s, ls, i).next <= At(s, ls, j).next
    decreases j - i
  {
    hide Inv, Apply, Enabled, At;
    NextGrows(s, ls, i, j);
    InvAt(s, ls, j);
    AtStep(s, ls, j);
    StepLives(At(s, ls, j), ls[j]);
  }

  lemma {:induction false} NextGrows(s: State, ls: seq<Label>, i: nat, j: nat)
    requires Inv(s) && Runs(s, ls) && i <= j <= |ls|
    ensures At(s, ls, i).next <= At(s, ls, j).next
    decreases j - i
  {
    hide Inv, Apply, Enabled, At;
    if i < j {
      NextGrows(s, ls, i, j - 1);
      InvAt(s, ls, j - 1);
      AtStep(s, ls, j - 1);
      StepNext(At(s, ls, j - 1), ls[j - 1]);
    }
  }

  lemma StepNext(s: State, l: Label)
    requires Inv(s) && Enabled(s, l)
    ensures Apply(s, l).next >= s.next
  {
    hide Inv, ThreadExit, ThreadAlert, ThreadNew, SemSignal, Block, RunNext, Put;
    match l
    case New => RunsOn(s, Ready, Nothing);
    case Pause => RunsOn(s, Ready, Nothing);
    case Preempt => RunsOn(s, Ready, Nothing);
    case Exit(code) => ExitNext(s, code);
    case Join(t) => RunsOn(s, JoinOf(t), InJoin(t));
    case JoinAll => RunsOn(s, Join0, InJoinAll);
    case Alert(u) => AlertNext(s, u);
    case Init(n) =>
    case Signal(x) => SignalNext(s, x);
    case Wait(x) => RunsOn(s, SemOf(x), InWait(x));
    case Resume =>
  }

  lemma RunsOn(s: State, q: QueueId, p: Pending)
    ensures Block(s, q, p).next == s.next && RunNext(Put(s, s.current, Ready)).next == s.next
    ensures ThreadNew(s).next == s.next + 1
  {
  }

  lemma AlertNext(s: State, t: Tid)
    ensures ThreadAlert(s, t).next == s.next
  {
    hide Remove;
  }

  lemma SignalNext(s: State, x: SemId)
    requires x < |s.sems|
    ensures SemSignal(s, x).next == s.next
  {
  }

  /** An alert is not lost: the next call of the alerted thread that tests for it raises. */
  lemma NextTestRaises(s: State, ls: seq<Label>, i: nat, j: nat, t: Tid)
    requires Inv(s) && Runs(s, ls) && i < j < |ls| && ls[i] == Alert(t) && Who(s, ls, j) == t && Tests(ls[j])
    requires forall m: nat :: i < m < j ==> !RaisesAt(s, ls, m, t)
    ensures RaisesAt(s, ls, j, t)
  {
    InvAt(s, ls, i);
    AtStep(s, ls, i);
    StepAlerted(At(s, ls, i), ls[i]);
    InvAt(s, ls, j);
    AtStep(s, ls, j);
    CurrentIsLive(At(s, ls, j));
    hide Inv, Apply, At, Enabled, Runs;
    StaysAlerted(s, ls, i + 1, j, t);
  }

  lemma CurrentIsLive(s: State)
    requires Inv(s) && s.status == Running
    ensures s.current in s.live
  {
  }

  /** Sem_wait(x) returns at once, with a token, and nothing else happens. */
  predicate Passes(s: State, s': State, x: SemId)
  {
    && x < |s.sems| == |s'.sems| && s'.sems[x].count == s.sems[x].count - 1
    && s'.status == Running && s'.current == s.current && s'.queues == s.queues && s'.live == s.live
    && Pend(s', s.current) == Nothing && s'.alerted == s.alerted
    && forall y :: 0 <= y < |s.sems| && y != x ==> s'.sems[y] == s.sems[y]
  }

  /** Sem_wait(x) does not return: the caller waits at the end of x's queue and somebody else runs. */
  predicate Blocks(s: State, s': State, x: SemId)
  {
    && s'.sems == s.sems && Pend(s', s.current) == InWait(x) && Q(s', SemOf(x)) == Q(s, SemOf(x)) + [s.current]
    && (s'.status == Running ==> s'.current != s.current)
  }

  /** A Sem_wait that does not raise passes exactly when there is a token, and blocks otherwise. */
  lemma WaitOutcome(s: State, x: SemId)
    requires Inv(s) && Enabled(s, Wait(x)) && !Raises(s, Wait(x))
    ensures if s.sems[x].count > 0 then Passes(s, Apply(s, Wait(x)), x) else Blocks(s, Apply(s, Wait(x)), x)
  {
    if s.sems[x].count <= 0 {
      BlockedWait(s, x);
    } else {
      hide Inv, Q;
    }
  }

  lemma BlockedWait(s: State, x: SemId)
    requires Inv(s) && Enabled(s, Wait(x)) && !Raises(s, Wait(x)) && s.sems[x].count <= 0
    ensures Blocks(s, Apply(s, Wait(x)), x)
  {
    hide Inv, Q, RunNext, Put;
    StepInv(s, Wait(x));
    StepWaiters(s, Wait(x), x);
    BlockPend(s, SemOf(x), InWait(x));
    var s' := Apply(s, Wait(x));
    assert Q(s', SemOf(x)) == Q(s, SemOf(x)) + [s.current];
    hide Block, Apply, Waiters;
    if s'.status == Running { InQueueNot(s', SemOf(x)); }
  }

  /** Having raised, a thread that is not alerted anew takes the token that is there. */
  lemma UnalertedWaitPasses(s: State, ls: seq<Label>, i: nat, j: nat, t: Tid, x: SemId)
    requires Inv(s) && Runs(s, ls) && i < j < |ls| && RaisesAt(s, ls, i, t) && Alert(t) !in ls[i + 1..j]
    requires ls[j] == Wait(x) && Who(s, ls, j) == t && x < |At(s, ls, j).sems| && At(s, ls, j).sems[x].count > 0
    ensures !RaisesAt(s, ls, j, t) && Passes(At(s, ls, j), At(s, ls, j + 1), x)
  {
    hide Inv, Apply, Enabled, Passes, Runs;
    UsedUp(s, ls, i, t);
    InvAt(s, ls, j);
    AtStep(s, ls, j);
    hide At;
    StaysUnalerted(s, ls, i + 1, j, t);
    UnalertedPasses(At(s, ls, j), x);
  }

  lemma UnalertedPasses(s: State, x: SemId)
    requires Inv(s) && Enabled(s, Wait(x)) && s.current !in s.alerted && x < |s.sems| && s.sems[x].count > 0
    ensures !Raises(s, Wait(x)) && Passes(s, Apply(s, Wait(x)), x)
  {
    WaitOutcome(s, x);
    hide Inv, Passes, Apply;
  }

  // ---------------------------------------------------------------- semaphores as they were made

  /** The part of a run between two steps is a run. */
  lemma {:induction false} Between(s: State, ls: seq<Label>, i: nat, j: nat)
    requires Runs(s, ls) && i <= j <= |ls|
    ensures Runs(At(s, ls, i), ls[i..j]) && Exec(At(s, ls, i), ls[i..j]) == At(s, ls, j)
    decreases i
  {
    hide Apply, Enabled;
    if i == 0 {
      Cut(s, ls, j);
      assert ls[0..j] == ls[..j] && ls[..0] == [];
    } else {
      LaterAt(s, ls, i - 1);
      LaterAt(s, ls, j - 1);
      Between(Apply(s, ls[0]), ls[1..], i - 1, j - 1);
      SliceOfRest(ls, i, j);
    }
  }

  lemma SliceOfRest(ls: seq<Label>, i: nat, j: nat)
    requires 1 <= i <= j <= |ls|
    ensures ls[1..][i - 1..j - 1] == ls[i..j]
  {
  }

  /** Step i makes semaphore x with n tokens. */
  ghost predicate MadeAt(s: State, ls: seq<Label>, i: nat, x: SemId, n: int)
    requires Runs(s, ls)
  {
    i < |ls| && ls[i] == Init(n) && x == |At(s, ls, i).sems|
  }

  lemma MadeWith(s: State, ls: seq<Label>, i: nat, x: SemId, n: int)
    requires Inv(s) && Runs(s, ls) && MadeAt(s, ls, i, x, n)
    ensures var r := At(s, ls, i + 1);
            x < |r.sems| && r.sems[x].count == r.sems[x].initial == n && Q(r, SemOf(x)) == []
  {
    AtStep(s, ls, i);
    InvAt(s, ls, i);
    NobodyWaits(At(s, ls, i), x);
  }

  lemma NobodyWaits(s: State, x: SemId)
    requires Inv(s)
    ensures Q(s, SemOf(x)) != [] ==> x < |s.sems|
  {
    if Q(s, SemOf(x)) != [] {
      var t := Q(s, SemOf(x))[0];
      assert t in Q(s, SemOf(x));
      QueuedAt(s, SemOf(x));
      assert Blocked(s, t, s.inq[t]);
    }
  }

  /** A semaphore holds the count that Sem_init was given, plus the signals since, minus the tokens
      given out since; made with no less than zero it stays so, and is at zero while anybody waits. */
  lemma CountSinceInit(s: State, ls: seq<Label>, i: nat, j: nat, x: SemId, n: int)
    requires Initial(s) && Runs(s, ls) && MadeAt(s, ls, i, x, n) && i < j <= |ls|
    ensures Runs(At(s, ls, i + 1), ls[i + 1..j]) && x < |At(s, ls, j).sems|
    ensures At(s, ls, j).sems[x].count
            == n + Signals(ls[i + 1..j], x) - Grants(At(s, ls, i + 1), ls[i + 1..j], x)
    ensures n >= 0 ==> At(s, ls, j).sems[x].count >= 0
    ensures n >= 0 && Q(At(s, ls, j), SemOf(x)) != [] ==> At(s, ls, j).sems[x].count == 0
  {
    InitialInv(s);
    InvAt(s, ls, i + 1);
    InvAt(s, ls, j);
    Between(s, ls, i + 1, j);
    MadeWith(s, ls, i, x, n);
    hide Inv, Initial, At, Runs, Exec, Enabled, Apply, Grants;
    TokensAreConserved(At(s, ls, i + 1), ls[i + 1..j], x);
    CountAt(At(s, ls, j), x);
  }

  /** The calls of Sem_wait(x) in a run that do not raise. */
  function WaitCount(s: State, ls: seq<Label>, x: SemId): nat
    requires Runs(s, ls)
    decreases |ls|
  {
    if ls == [] then 0
    else WaitCount(Apply(s, ls[0]), ls[1..], x) + if ls[0] == Wait(x) && !Raises(s, ls[0]) then 1 else 0
  }

  function Least(a: int, b: nat): nat { if a < 0 then 0 else if a < b then a else b }

  lemma {:induction false} GrantsWithoutSignals(s: State, ls: seq<Label>, x: SemId)
    requires Inv(s) && Runs(s, ls) && x < |s.sems| && Signal(x) !in ls
    ensures Grants(s, ls, x) == Least(s.sems[x].count, WaitCount(s, ls, x))
    decreases |ls|
  {
    if ls != [] {
      StepSems(s, ls[0], x);
      StepInv(s, ls[0]);
      assert |Grant(s, ls[0], x)| == if ls[0] == Wait(x) && !Raises(s, ls[0]) && s.sems[x].count > 0 then 1 else 0;
      hide Inv, Apply, Enabled, Grant, Raises;
      GrantsWithoutSignals(Apply(s, ls[0]), ls[1..], x);
    }
  }

  /** As long as nobody signals x, so many calls of Sem_wait return at once as there are tokens. */
  lemma TokensPass(s: State, ls: seq<Label>, x: SemId)
    requires Inv(s) && Runs(s, ls) && x < |s.sems| && Signal(x) !in ls
    requires Enabled(Exec(s, ls), Wait(x)) && !Raises(Exec(s, ls), Wait(x))
    ensures var r := Exec(s, ls);
            if WaitCount(s, ls, x) < s.sems[x].count then Passes(r, Apply(r, Wait(x)), x)
            else Blocks(r, Apply(r, Wait(x)), x)
  {
    hide Inv, Apply, Grants, WaitCount, Passes, Blocks, Signals;
    InvAfter(s, ls);
    TokensAreConserved(s, ls, x);
    GrantsWithoutSignals(s, ls, x);
    NoSignals(ls, x);
    WaitOutcome(Exec(s, ls), x);
  }

  /** As long as nobody signals a semaphore made with n tokens, the first n calls of Sem_wait on it
      return at once and every further one blocks. */
  lemma FirstWaitsPass(s: State, ls: seq<Label>, i: nat, j: nat, x: SemId, n: int)
    requires Initial(s) && Runs(s, ls) && MadeAt(s, ls, i, x, n) && i < j < |ls|
    requires Signal(x) !in ls[i + 1..j] && ls[j] == Wait(x) && !RaisesAt(s, ls, j, Who(s, ls, j))
    ensures Runs(At(s, ls, i + 1), ls[i + 1..j])
    ensures if WaitCount(At(s, ls, i + 1), ls[i + 1..j], x) < n then Passes(At(s, ls, j), At(s, ls, j + 1), x)
            else Blocks(At(s, ls, j), At(s, ls, j + 1), x)
  {
    InitialInv(s);
    InvAt(s, ls, i + 1);
    AtStep(s, ls, j);
    MadeWith(s, ls, i, x, n);
    Between(s, ls, i + 1, j);
    hide Inv, Initial, At, Runs, Exec, Enabled, Apply, WaitCount, Passes, Blocks;
    TokensPass(At(s, ls, i + 1), ls[i + 1..j], x);
  }

  lemma {:induction false} NoSignals(ls: seq<Label>, x: SemId)
    requires Signal(x) !in ls
    ensures Signals(ls, x) == 0
  {
    if ls != [] { NoSignals(ls[1..], x); }
  }

  // ---------------------------------------------------------------- joins

  lemma JoinBegins(s: State, l: Label)
    requires Inv(s) && Enabled(s, l) && !Raises(s, l)
    requires (l.Join? && l.t in s.live) || (l.JoinAll? && s.nthreads > 1)
    ensures var s' := Apply(s, l);
            && s.current in s'.live && s.current !in s'.alerted
            && Pend(s', s.current) == if l.JoinAll? then InJoinAll else InJoin(l.t)
  {
    if l.Join? { BlockPend(s, JoinOf(l.t), InJoin(l.t)); } else { BlockPend(s, Join0, InJoinAll); }
    CurrentIsLive(s);
    hide Inv, Block;
  }

  /** A thread that begins to join at step i and is first running again at step j was let go by what
      it waited for, or has been alerted. */
  lemma JoinEnds(s: State, ls: seq<Label>, i: nat, j: nat, c: Tid)
    requires Inv(s) && Runs(s, ls) && i < j <= |ls| && Who(s, ls, i) == c && !RaisesAt(s, ls, i, c)
    requires (ls[i].Join? && ls[i].t in At(s, ls, i).live) || (ls[i].JoinAll? && At(s, ls, i).nthreads > 1)
    requires Who(s, ls, j) == c && At(s, ls, j).status == Running
    requires forall m: nat :: i < m < j ==> Who(s, ls, m) != c
    ensures Alert(c) in ls[i + 1..j]
        || if ls[i].JoinAll? then At(s, ls, j).live == {c} else ls[i].t in At(s, ls, j).exits
  {
    InvAt(s, ls, i);
    AtStep(s, ls, i);
    InvAt(s, ls, j);
    var p, r := if ls[i].JoinAll? then InJoinAll else InJoin(ls[i].t), At(s, ls, j);
    forall m: nat | i + 1 <= m < j ensures At(s, ls, m).current != c { assert Who(s, ls, m) != c; }
    JoinBegins(At(s, ls, i), ls[i]);
    hide Inv, Apply, Enabled, At, Runs, Raises;
    StaysIn(s, ls, i + 1, j, c, p);
    JoinReturns(r);
    if c in r.alerted && Alert(c) !in ls[i + 1..j] {
      StaysUnalerted(s, ls, i + 1, j, c);
    }
  }

  lemma JoinReturns(s: State)
    requires Inv(s) && s.status == Running
    ensures s.current in s.alerted ||
            match Pend(s, s.current)
            case InJoin(t) => t in s.exits
            case InJoinAll => s.live == {s.current}
            case _ => true
  {
    assert s.current in s.live && s.current !in s.inq;
    assert Joined(s, s.current);
  }

  lemma ExitedSince(s: State, ls: seq<Label>, i: nat, j: nat, t: Tid)
    requires Initial(s) && Runs(s, ls) && i < j <= |ls| && !ls[i].Exit? && t in At(s, ls, i).live
        && t in At(s, ls, j).exits
    ensures exists k: nat :: i < k < j && ls[k].Exit? && Who(s, ls, k) == t
  {
    InitialInv(s);
    Cut(s, ls, j);
    hide Inv, Initial, Apply, Enabled, Runs;
    var code := At(s, ls, j).exits[t];
    ExitsAreExits(s, ls[..j], t);
    var k: nat :| ExitedAt(s, ls[..j], k, t, code);
    SameStart(s, ls, j, k);
    assert ls[k].Exit? && Who(s, ls, k) == t;
    hide At;
    if k < i {
      GoneBy(s, ls, k, i, t);
    }
  }

  lemma SameStart(s: State, ls: seq<Label>, j: nat, k: nat)
    requires Runs(s, ls) && k <= j <= |ls|
    ensures Runs(s, ls[..j]) && At(s, ls[..j], k) == At(s, ls, k)
  {
    Cut(s, ls, j);
    assert ls[..j][..k] == ls[..k];
  }

  /** A thread that has exited is gone. */
  lemma GoneBy(s: State, ls: seq<Label>, k: nat, i: nat, t: Tid)
    requires Inv(s) && Runs(s, ls) && k < i <= |ls| && ls[k].Exit? && Who(s, ls, k) == t
    ensures t !in At(s, ls, i).live
  {
    hide Apply, Enabled;
    InvAt(s, ls, k);
    AtStep(s, ls, k);
    StepExits(At(s, ls, k), ls[k]);
    InvAt(s, ls, k + 1);
    Between(s, ls, k + 1, i);
    ExitsStay(At(s, ls, k + 1), ls[k + 1..i], t);
    InvAt(s, ls, i);
    GoneAt(At(s, ls, i), t);
  }

  /** Thread_join(t) of a live thread waits: until its caller runs again t has called Thread_exit,
      or the caller has been alerted. */
  lemma {:induction false} JoinWaits(s: State, ls: seq<Label>, i: nat, j: nat, t: Tid, c: Tid)
    requires Initial(s) && Runs(s, ls) && i < j <= |ls| && ls[i] == Join(t) && Who(s, ls, i) == c
    requires !RaisesAt(s, ls, i, c) && t in At(s, ls, i).live
    requires Who(s, ls, j) == c && At(s, ls, j).status == Running
    ensures Alert(c) in ls[i + 1..j] || exists k: nat :: i < k < j && ls[k].Exit? && Who(s, ls, k) == t
    decreases j
  {
    hide Apply, Initial, Inv, At, Runs, Raises;
    if m: nat :| i < m < j && Who(s, ls, m) == c {
      AtStep(s, ls, m);
      JoinWaits(s, ls, i, m, t, c);
      assert Alert(c) in ls[i + 1..m] ==> Alert(c) in ls[i + 1..j] by { assert ls[i + 1..m] <= ls[i + 1..j]; }
    } else {
      InitialInv(s);
      JoinEnds(s, ls, i, j, c);
      if Alert(c) !in ls[i + 1..j] { ExitedSince(s, ls, i, j, t); }
    }
  }

  /** Thread_join(NULL) waits too: until its caller runs again it has been alone, or alerted. */
  lemma {:induction false} JoinAllWaits(s: State, ls: seq<Label>, i: nat, j: nat, c: Tid)
    requires Initial(s) && Runs(s, ls) && i < j <= |ls| && ls[i] == JoinAll && Who(s, ls, i) == c
    requires !RaisesAt(s, ls, i, c) && At(s, ls, i).nthreads > 1
    requires Who(s, ls, j) == c && At(s, ls, j).status == Running
    ensures Alert(c) in ls[i + 1..j] || exists m: nat :: i < m <= j && Who(s, ls, m) == c && At(s, ls, m).live == {c}
    decreases j
  {
    hide Apply, Initial, Inv, At, Runs, Raises;
    if m: nat :| i < m < j && Who(s, ls, m) == c {
      AtStep(s, ls, m);
      JoinAllWaits(s, ls, i, m, c);
      assert Alert(c) in ls[i + 1..m] ==> Alert(c) in ls[i + 1..j] by { assert ls[i + 1..m] <= ls[i + 1..j]; }
    } else {
      InitialInv(s);
      JoinEnds(s, ls, i, j, c);
    }
  }

  /** Thread_join of a thread that has exited returns at once. */
  lemma JoinOfGone(s: State, ls: seq<Label>, k: nat, i: nat, t: Tid)
    requires Initial(s) && Runs(s, ls) && k < i < |ls| && ls[k].Exit? && Who(s, ls, k) == t && ls[i] == Join(t)
    requires !RaisesAt(s, ls, i, Who(s, ls, i))
    ensures At(s, ls, i + 1) == At(s, ls, i)
  {
    InitialInv(s);
    GoneBy(s, ls, k, i, t);
    AtStep(s, ls, i);
  }

  // ---------------------------------------------------------------- turns

  /** The thread that runs and those that are ready, in order. */
  function Order(s: State): seq<Tid> { [s.current] + Q(s, Ready) }

  /** How often a run pauses, by Thread_pause or by an interrupt. */
  function Pauses(ls: seq<Label>): nat
  {
    if ls == [] then 0 else Pauses(ls[1..]) + if ls[0] == Pause || ls[0] == Preempt then 1 else 0
  }

  /** While threads only pause, and go on in the calls they come back to, they take turns: each runs
      when all others that are ready have, in the same order again and again. */
  lemma {:induction false} TakeTurns(s: State, ls: seq<Label>)
    requires s.status == Running && Runs(s, ls) && OnlyPauses(ls)
    ensures Exec(s, ls).status == Running && Order(Exec(s, ls)) == Rings.Turned(Order(s), Pauses(ls))
    decreases |ls|
  {
    if ls == [] {
      Rings.TurnedBlocks(Order(s), 0, 0, 0);
      assert Order(s)[0..] + Order(s)[..0] == Order(s);
    } else {
      OnePause(s, ls[0]);
      var k := if ls[0] == Resume then 0 else 1;
      assert OnlyPauses(ls[1..]) && Pauses(ls) == Pauses(ls[1..]) + k;
      hide Apply, Enabled, Rings.Turned, Order, OnlyPauses, Pauses;
      assert Exec(s, ls) == Exec(Apply(s, ls[0]), ls[1..]);
      TakeTurns(Apply(s, ls[0]), ls[1..]);
      hide Runs, Exec;
      Rings.TurnedTwice(Order(s), k, Pauses(ls[1..]));
    }
  }

  predicate OnlyPauses(ls: seq<Label>)
  {
    forall i :: 0 <= i < |ls| ==> ls[i] == Pause || ls[i] == Preempt || ls[i] == Resume
  }

  lemma OnePause(s: State, l: Label)
    requires Enabled(s, l) && (l == Pause || l == Preempt || l == Resume)
    ensures Apply(s, l).status == Running
    ensures Order(Apply(s, l)) == Rings.Turned(Order(s), if l == Resume then 0 else 1)
  {
    var q := Order(s);
    if l == Resume {
      assert q[0..] + q[..0] == q;
      Rings.TurnedBlocks(q, 0, 0, 0);
    } else {
      PauseTurns(s);
      assert q[1..] == Q(s, Ready) && q[..1] == [s.current];
      Rings.TurnedBlocks(q, 1, 0, 1);
    }
  }

  lemma PauseTurns(s: State)
    requires s.status == Running
    ensures var r := RunNext(Put(s, s.current, Ready));
            r.status == Running && Order(r) == Q(s, Ready) + [s.current]
  {
    var q := Q(s, Ready) + [s.current];
    assert q == [q[0]] + q[1..];
  }

  /** The program ends when its last thread leaves, and with that thread's code. */
  lemma LastExitEnds(s: State, ls: seq<Label>, i: nat, code: int)
    requires Initial(s) && Runs(s, ls) && i < |ls| && ls[i] == Exit(code)
    ensures At(s, ls, i).live == {Who(s, ls, i)} <==> At(s, ls, i + 1).status == Exited(code)
    ensures At(s, ls, i + 1).live == At(s, ls, i).live - {Who(s, ls, i)}
  {
    hide Inv, Initial, Apply, Enabled;
    InitialInv(s);
    InvAt(s, ls, i);
    AtStep(s, ls, i);
    hide At;
    ExitStatus(At(s, ls, i), code);
  }

  lemma ExitStatus(s: State, code: int)
    requires Inv(s) && Enabled(s, Exit(code))
    ensures var s' := Apply(s, Exit(code));
            (s.live == {s.current} <==> s'.status == Exited(code)) && s'.live == s.live - {s.current}
  {
    hide Inv, ThreadExit;
    ExitPend(s, code);
    ExitInv(s, code);
    CurrentIsLive(s);
    OneAlone(s);
    EndedIsEmpty(ThreadExit(s, code));
    if s.nthreads == 1 { ExitLast(s, code); }
  }

  lemma EndedIsEmpty(s: State)
    requires Inv(s)
    ensures s.status.Exited? ==> s.live == {}
  {
  }

  lemma OneAlone(s: State)
    requires Inv(s) && s.status == Running
    ensures s.nthreads == 1 <==> s.live == {s.current}
  {
    if s.nthreads == 1 {
      SubsetSize({s.current}, s.live);
      assert |s.live - {s.current}| == 0;
    }
  }

  /** A new thread, which never was one before, is the last that is ready. */
  lemma NewIsLast(s: State, ls: seq<Label>, i: nat)
    requires Inv(s) && Runs(s, ls) && i < |ls| && ls[i] == New
    ensures var r, r', t := At(s, ls, i), At(s, ls, i + 1), At(s, ls, i).next;
            && t !in r.live && t !in r.exits && r'.live == r.live + {t} && Q(r', Ready) == Q(r, Ready) + [t]
            && r'.current == r.current && Before(Q(r', Ready), t) == Q(r, Ready)
  {
    InvAt(s, ls, i);
    AtStep(s, ls, i);
    NewStep(At(s, ls, i));
    hide Inv, Apply, At;
  }

  lemma NewStep(s: State)
    requires Inv(s) && Enabled(s, New)
    ensures var r := Apply(s, New);
            && s.next !in s.live && s.next !in s.exits && r.live == s.live + {s.next} && r.current == s.current
            && Q(r, Ready) == Q(s, Ready) + [s.next] && Before(Q(r, Ready), s.next) == Q(s, Ready)
  {
    if s.next in Q(s, Ready) { InQueue(s, Ready, s.next); }
    BeforeNew(Q(s, Ready), s.next);
  }

  lemma {:induction false} BeforeNew(q: seq<Tid>, t: Tid)
    requires t !in q
    ensures Before(q + [t], t) == q
  {
    if q != [] {
      assert (q + [t])[1..] == q[1..] + [t];
      BeforeNew(q[1..], t);
    }
  }

  /** So it runs, at the latest, after as many switches as there were ready threads, unless it is
      alerted first. */
  lemma NewcomerRuns(s: State, ls: seq<Label>, i: nat, j: nat)
    requires Inv(s) && Runs(s, ls) && i < j <= |ls| && ls[i] == New && Alert(At(s, ls, i).next) !in ls[i + 1..j]
    ensures Runs(At(s, ls, i + 1), ls[i + 1..j])
    ensures NotRun(At(s, ls, i + 1), ls[i + 1..j], At(s, ls, i).next) ==>
        SwitchCount(At(s, ls, i + 1), ls[i + 1..j]) <= |Q(At(s, ls, i), Ready)|
  {
    NewIsLast(s, ls, i);
    InvAt(s, ls, i + 1);
    Between(s, ls, i + 1, j);
    var r, t := At(s, ls, i + 1), At(s, ls, i).next;
    hide Inv, At, Apply, Enabled, Runs, Exec, Before;
    if NotRun(r, ls[i + 1..j], t) {
      assert t in Q(r, Ready);
      ReadyIsFair(r, ls[i + 1..j], t);
    }
  }

  /** An alerted thread is the last that is ready, wherever it was, unless it is the one that runs;
      no other thread moves. */
  lemma AlertMovesToReady(s: State, ls: seq<Label>, i: nat, t: Tid)
    requires Inv(s) && Runs(s, ls) && i < |ls| && ls[i] == Alert(t)
    ensures var r, r' := At(s, ls, i), At(s, ls, i + 1);
            && (forall q :: q != Ready ==> Q(r', q) == Remove(Q(r, q), t)) && r'.current == r.current
            && Q(r', Ready) == Remove(Q(r, Ready), t) + if t == r.current then [] else [t]
  {
    InvAt(s, ls, i);
    AtStep(s, ls, i);
    AlertStep(At(s, ls, i), t);
    hide Inv, Apply, At;
  }

  lemma AlertStep(s: State, t: Tid)
    requires Inv(s) && Enabled(s, Alert(t))
    ensures var r := Apply(s, Alert(t));
            && (forall q :: q != Ready ==> Q(r, q) == Remove(Q(s, q), t)) && r.current == s.current
            && Q(r, Ready) == Remove(Q(s, Ready), t) + if t == s.current then [] else [t]
  {
    InLive(s, t);
    hide Inv, Remove, Q;
    forall q ensures Q(ThreadAlert(s, t), q) == Remove(Q(s, q), t) + if t in s.inq && q == Ready then [t] else [] {
      AlertQueue(s, t, q);
    }
    hide ThreadAlert;
    AlertCurrent(s, t);
  }

  lemma AlertCurrent(s: State, t: Tid)
    ensures ThreadAlert(s, t).current == s.current
  {
    hide Remove;
  }

  lemma AlertQueue(s: State, t: Tid, q: QueueId)
    requires Inv(s)
    ensures Q(ThreadAlert(s, t), q) == Remove(Q(s, q), t) + if t in s.inq && q == Ready then [t] else []
  {
    QueuedAt(s, q);
    hide Inv, Remove;
    if t !in Q(s, q) { RemoveNone(Q(s, q), t); }
    var s1 := s.(alerted := s.alerted + {t});
    assert Q(s1, q) == Q(s, q);
    if t in s.inq {
      DeleteQ(s1, t);
      hide Delete, Q;
      PutPlace(Delete(s1, t), t, q);
    }
  }

  lemma PutPlace(s: State, t: Tid, q: QueueId)
    ensures Q(Put(s, t, Ready), q) == Q(s, q) + if q == Ready then [t] else []
  {
  }

  lemma {:induction false} RemoveNone(q: seq<Tid>, t: Tid)
    requires t !in q
    ensures Remove(q, t) == q
  {
    if q != [] { RemoveNone(q[1..], t); }
  }

  // ---------------------------------------------------------------- the free list

  predicate Releases(l: Label) { l == New || l.Exit? }

  lemma StepFreelist(s: State, l: Label)
    requires Inv(s) && Enabled(s, l)
    ensures Apply(s, l).freelist ==
            if l == New || (l.Exit? && s.current == ROOT) then [] else if l.Exit? then [s.current] else s.freelist
  {
    hide Inv, ThreadExit, Remove;
    if l.Exit? { ExitFrees(s, l.code); }
  }

  lemma ExitFrees(s: State, code: int)
    requires Inv(s) && s.status == Running
    ensures ThreadExit(s, code).freelist == if s.current == ROOT then [] else [s.current]
  {
    ExitChanges(s, code);
    hide ThreadExit, Inv;
  }

  /** The memory of a thread that leaves is freed by the next Thread_new or Thread_exit and not
      before; that of the root never. */
  lemma {:induction false} FreedByTheNext(s: State, ls: seq<Label>, i: nat, j: nat)
    requires Inv(s) && Runs(s, ls) && i < j <= |ls| && Releases(ls[i])
    requires forall k: nat :: i < k < j ==> !Releases(ls[k])
    ensures At(s, ls, j).freelist == if ls[i].Exit? && Who(s, ls, i) != ROOT then [Who(s, ls, i)] else []
    decreases j
  {
    hide Inv, Apply, Enabled, At;
    InvAt(s, ls, j - 1);
    AtStep(s, ls, j - 1);
    StepFreelist(At(s, ls, j - 1), ls[j - 1]);
    if i < j - 1 {
      assert !Releases(ls[j - 1]);
      FreedByTheNext(s, ls, i, j - 1);
    }
  }
}

/** thread.c: the scheduler, its queues, joins, alerts and semaphores, as a step system.

    Functions of thread.c run inside the monitor, so each is one step of the running thread; a
    thread that comes back out of run() finishes the call it was in (Resume) before it does
    anything else, also inside the monitor.  Preempt is the interrupt handler.  What threads do
    is otherwise arbitrary: a schedule is any sequence of labels.

    `queues` gives the contents of every queue in order, as module ThreadQueues proves the
    circular lists to behave, and `inq` is the field inqueue.  A thread is live while its handle
    is its own; thread ids are never reused.  `pend` is the call a thread is blocked in, and
    `exits`, `signals` and `grants` keep history. */
module Scheduler {
  import opened Semaphores
  import opened ThreadQueues

  type SemId = nat

  datatype QueueId = Ready | Join0 | JoinOf(t: Tid) | SemOf(x: SemId)

  datatype Pending = Nothing | InJoin(t: Tid) | InJoinAll | InWait(x: SemId)

  datatype Semaphore = Semaphore(count: int, initial: int, signals: nat, grants: nat)

  /** Stuck: run() found ready empty and its assertion failed. */
  datatype Status = Running | Stuck | Exited(code: int)

  datatype State = State(
    status: Status, current: Tid, queues: map<QueueId, seq<Tid>>, inq: map<Tid, QueueId>,
    live: set<Tid>, nthreads: int, next: Tid, freelist: seq<Tid>, alerted: set<Tid>,
    pend: map<Tid, Pending>, code: map<Tid, int>, exits: map<Tid, int>, sems: seq<Semaphore>)

  datatype Label = New | Pause | Preempt | Exit(code: int) | Join(t: Tid) | JoinAll | Alert(t: Tid)
                 | Init(count: int) | Signal(x: SemId) | Wait(x: SemId) | Resume

  /** The id of the root thread. */
  const ROOT: Tid := 0

  // ---------------------------------------------------------------- queues

  function Q(s: State, q: QueueId): seq<Tid> { if q in s.queues then s.queues[q] else [] }

  function Put(s: State, t: Tid, q: QueueId): State
  {
    s.(queues := s.queues[q := Q(s, q) + [t]], inq := s.inq[t := q])
  }

  function Get(s: State, q: QueueId): State
    requires Q(s, q) != []
  {
    s.(queues := s.queues[q := Q(s, q)[1..]], inq := s.inq - {Q(s, q)[0]})
  }

  function Delete(s: State, t: Tid): State
    requires t in s.inq
  {
    s.(queues := s.queues[s.inq[t] := Remove(Q(s, s.inq[t]), t)], inq := s.inq - {t})
  }

  // ---------------------------------------------------------------- the functions of thread.c

  /** run: the first ready thread becomes the current one. */
  function RunNext(s: State): State
  {
    if Q(s, Ready) == [] then s.(status := Stuck)
    else Get(s, Ready).(current := Q(s, Ready)[0])
  }

  /** release: what is on the free list is gone. */
  function Release(s: State): State { s.(freelist := []) }

  /** Lines 275-347: the new thread, not yet in a queue. */
  function Created(s: State): State
  {
    Release(s).(nthreads := s.nthreads + 1, live := s.live + {s.next}, pend := s.pend[s.next := Nothing],
        next := s.next + 1)
  }

  function ThreadNew(s: State): State { Put(Created(s), s.next, Ready) }

  /** Lines 186-190. */
  function WakeJoiners(s: State, t: Tid, code: int): State
    decreases |Q(s, JoinOf(t))|
  {
    if Q(s, JoinOf(t)) == [] then s
    else
      var u := Q(s, JoinOf(t))[0];
      WakeJoiners(Put(Get(s, JoinOf(t)).(code := s.code[u := code]), u, Ready), t, code)
  }

  /** Lines 179-184: the current thread is gone, its joiners are still to be woken. */
  function Departed(s: State, code: int): State
  {
    Release(s).(freelist := if s.current != ROOT then [s.current] else [],
                live := s.live - {s.current}, exits := s.exits[s.current := code],
                alerted := s.alerted - {s.current})
  }

  function Leave(s: State, code: int): State { WakeJoiners(Departed(s, code), s.current, code) }

  function WakeJoinAll(s: State): State
  {
    if Q(s, Join0) != [] && s.nthreads == 2 then Put(Get(s, Join0), Q(s, Join0)[0], Ready) else s
  }

  function ThreadExit(s: State, code: int): State
  {
    var s1 := WakeJoinAll(Leave(s, code));
    var s2 := s1.(nthreads := s1.nthreads - 1);
    if s2.nthreads == 0 then s2.(status := Exited(code)) else RunNext(s2)
  }

  function Block(s: State, q: QueueId, p: Pending): State
  {
    RunNext(Put(s.(pend := s.pend[s.current := p]), s.current, q))
  }

  function ThreadAlert(s: State, t: Tid): State
  {
    var s1 := s.(alerted := s.alerted + {t});
    if t in s.inq then Put(Delete(s1, t), t, Ready) else s1
  }

  function SemSignal(s: State, x: SemId): State
    requires x < |s.sems|
  {
    var sem := s.sems[x];
    if sem.count == 0 && Q(s, SemOf(x)) != [] then
      Put(Get(s.(sems := s.sems[x := sem.(signals := sem.signals + 1, grants := sem.grants + 1)]), SemOf(x)),
          Q(s, SemOf(x))[0], Ready)
    else s.(sems := s.sems[x := sem.(count := sem.count + 1, signals := sem.signals + 1)])
  }

  function SemWait(s: State, x: SemId): State
    requires x < |s.sems|
  {
    var sem := s.sems[x];
    if sem.count <= 0 then Block(s, SemOf(x), InWait(x))
    else s.(sems := s.sems[x := sem.(count := sem.count - 1, grants := sem.grants + 1)])
  }

  function Pend(s: State, t: Tid): Pending { if t in s.pend then s.pend[t] else Nothing }

  /** What callers owe: the runtime errors thread.c checks for on its arguments. */
  predicate Enabled(s: State, l: Label)
  {
    && s.status == Running
    && (l == Resume <==> Pend(s, s.current) != Nothing)
    && match l
       case Join(t) => t != s.current
       case JoinAll => s.current in s.alerted || Q(s, Join0) == []
       case Alert(t) => t in s.live
       case Signal(x) => x < |s.sems|
       case Wait(x) => x < |s.sems|
       case _ => true
  }

  /** testalert raises. */
  predicate Raises(s: State, l: Label)
  {
    (l.Join? || l.JoinAll? || l.Wait? || l.Resume?) && s.current in s.alerted
  }

  function Apply(s: State, l: Label): State
    requires Enabled(s, l)
  {
    if Raises(s, l) then s.(alerted := s.alerted - {s.current}, pend := s.pend[s.current := Nothing])
    else
      match l
      case New => ThreadNew(s)
      case Pause => RunNext(Put(s, s.current, Ready))
      case Preempt => RunNext(Put(s, s.current, Ready))
      case Exit(code) => ThreadExit(s, code)
      case Join(t) => if t in s.live then Block(s, JoinOf(t), InJoin(t)) else s
      case JoinAll => if s.nthreads > 1 then Block(s, Join0, InJoinAll) else s
      case Alert(t) => ThreadAlert(s, t)
      case Init(n) => s.(sems := s.sems + [Semaphore(n, n, 0, 0)])
      case Signal(x) => SemSignal(s, x)
      case Wait(x) => SemWait(s, x)
      case Resume => s.(pend := s.pend[s.current := Nothing])
  }

  /** Thread_init. */
  predicate Initial(s: State)
  {
    && s.status == Running && s.current == ROOT && s.queues == map[] && s.inq == map[]
    && s.live == {ROOT} && s.nthreads == 1 && s.next == 1 && s.freelist == [] && s.alerted == {}
    && s.pend == map[] && s.code == map[] && s.exits == map[] && s.sems == []
  }

  // ---------------------------------------------------------------- queues are consistent

  /** inqueue names the one queue a thread is in. */
  ghost predicate Queued(s: State)
  {
    && (forall q :: NoDup(Q(s, q)))
    && (forall q, t :: t in Q(s, q) <==> t in s.inq && s.inq[t] == q)
  }

  lemma PutQueued(s: State, t: Tid, q: QueueId)
    requires Queued(s) && t !in s.inq
    ensures Queued(Put(s, t, q))
    ensures forall p :: Q(Put(s, t, q), p) == if p == q then Q(s, q) + [t] else Q(s, p)
  {
    var s' := Put(s, t, q);
    forall p ensures NoDup(Q(s', p)) {
      assert NoDup(Q(s, p));
      if p == q { assert t !in Q(s, q); }
    }
    forall p, u ensures u in Q(s', p) <==> u in s'.inq && s'.inq[u] == p {
      assert u in Q(s, p) <==> u in s.inq && s.inq[u] == p;
    }
  }

  lemma {:induction false} TailMembers(q: seq<Tid>)
    requires NoDup(q) && q != []
    ensures NoDup(q[1..]) && forall u :: u in q[1..] <==> u in q && u != q[0]
  {
    assert q == [q[0]] + q[1..];
  }

  lemma GetQueued(s: State, q: QueueId)
    requires Queued(s) && Q(s, q) != []
    ensures Queued(Get(s, q)) && Q(s, q)[0] in s.inq && s.inq[Q(s, q)[0]] == q
    ensures forall p :: Q(Get(s, q), p) == if p == q then Q(s, q)[1..] else Q(s, p)
  {
    var h, s' := Q(s, q)[0], Get(s, q);
    assert NoDup(Q(s, q));
    TailMembers(Q(s, q));
    assert h in Q(s, q);
    forall p ensures NoDup(Q(s', p)) {
      assert NoDup(Q(s, p));
    }
    forall p, u ensures u in Q(s', p) <==> u in s'.inq && s'.inq[u] == p {
      assert u in Q(s, p) <==> u in s.inq && s.inq[u] == p;
    }
  }

  lemma ConsMembers(h: Tid, r: seq<Tid>)
    requires NoDup(r) && h !in r
    ensures NoDup([h] + r) && forall u :: u in [h] + r <==> u == h || u in r
  {
  }

  lemma {:induction false} RemoveMembers(q: seq<Tid>, t: Tid)
    requires NoDup(q)
    ensures NoDup(Remove(q, t)) && forall u :: u in Remove(q, t) <==> u in q && u != t
  {
    if q != [] {
      TailMembers(q);
      if q[0] != t {
        RemoveMembers(q[1..], t);
        ConsMembers(q[0], Remove(q[1..], t));
      }
    }
  }

  /** Queues and inqueue fields that are consistent but for one queue are consistent. */
  lemma QueuedBut(s: State, s': State, q: QueueId)
    requires Queued(s) && NoDup(Q(s', q)) && forall p :: p != q ==> Q(s', p) == Q(s, p)
    requires forall u :: u in Q(s', q) <==> u in s'.inq && s'.inq[u] == q
    requires forall u :: u in s.inq && s.inq[u] != q ==> u in s'.inq && s'.inq[u] == s.inq[u]
    requires forall u :: u in s'.inq && s'.inq[u] != q ==> u in s.inq && s.inq[u] == s'.inq[u]
    ensures Queued(s')
  {
    forall p ensures NoDup(Q(s', p)) {
      assert NoDup(Q(s, p));
    }
    forall p, u ensures u in Q(s', p) <==> u in s'.inq && s'.inq[u] == p {
      assert u in Q(s, p) <==> u in s.inq && s.inq[u] == p;
    }
  }

  lemma QueuedAt(s: State, q: QueueId)
    requires Queued(s)
    ensures NoDup(Q(s, q)) && forall u :: u in Q(s, q) <==> u in s.inq && s.inq[u] == q
  {
  }

  lemma DeleteQ(s: State, t: Tid)
    requires t in s.inq
    ensures forall p :: Q(Delete(s, t), p) == if p == s.inq[t] then Remove(Q(s, p), t) else Q(s, p)
  {
    hide Remove;
  }

  lemma DeleteQueued(s: State, t: Tid)
    requires Queued(s) && t in s.inq
    ensures Queued(Delete(s, t))
    ensures forall p :: Q(Delete(s, t), p) == if p == s.inq[t] then Remove(Q(s, p), t) else Q(s, p)
  {
    hide Queued, NoDup, Remove;
    var s', q := Delete(s, t), s.inq[t];
    QueuedAt(s, q);
    RemoveMembers(Q(s, q), t);
    DeleteQ(s, t);
    QueuedBut(s, s', q);
  }

  /** Only queues and inqueue fields matter. */
  lemma SameQueued(s: State, s': State)
    requires Queued(s) && s'.queues == s.queues && s'.inq == s.inq
    ensures Queued(s') && forall q :: Q(s', q) == Q(s, q)
  {
    assert forall q :: Q(s', q) == Q(s, q);
    forall p ensures NoDup(Q(s', p)) {
      assert NoDup(Q(s, p));
    }
    forall p, u ensures u in Q(s', p) <==> u in s'.inq && s'.inq[u] == p {
      assert u in Q(s, p) <==> u in s.inq && s.inq[u] == p;
    }
  }

  // ---------------------------------------------------------------- the invariant

  /** A thread blocked in queue q is in the call that put it there. */
  predicate Blocked(s: State, t: Tid, q: QueueId)
  {
    match q
    case Ready => true
    case Join0 => Pend(s, t) == InJoinAll
    case JoinOf(u) => Pend(s, t) == InJoin(u) && u in s.live
    case SemOf(x) => Pend(s, t) == InWait(x) && x < |s.sems|
  }

  /** A joiner that has been woken is alerted, or holds the code its target exited with, or is
      the last thread when it waited for all. */
  predicate Joined(s: State, t: Tid)
  {
    match Pend(s, t)
    case InJoin(u) => t in s.alerted || (u in s.exits && t in s.code && s.code[t] == s.exits[u])
    case InJoinAll => t in s.alerted || s.live == {t}
    case _ => true
  }

  ghost predicate Threads(s: State)
  {
    && (forall t :: t in s.live ==> t < s.next && t !in s.exits)
    && (forall t :: t in s.exits ==> t < s.next)
    && (forall t :: t in s.alerted ==> t in s.live)
    && (forall t :: t in s.freelist ==> t in s.exits)
    && s.nthreads == |s.live|
  }

  ghost predicate Waiting(s: State)
  {
    && (forall t :: t in s.inq ==> Blocked(s, t, s.inq[t]))
    && (forall t :: t in s.inq && s.inq[t] != Ready ==> t !in s.alerted)
    && (forall t :: t in s.live && (t !in s.inq || s.inq[t] == Ready) ==> Joined(s, t))
    && |Q(s, Join0)| <= 1
  }

  ghost predicate Sems(s: State)
  {
    forall x :: 0 <= x < |s.sems| ==>
          var sem := s.sems[x];
          && sem.count == sem.initial + sem.signals - sem.grants
          && (sem.initial >= 0 ==> sem.count >= 0 && (Q(s, SemOf(x)) != [] ==> sem.count == 0))
  }

  ghost predicate Inv(s: State)
  {
    && Queued(s) && Threads(s) && Waiting(s) && Sems(s)
    && match s.status
       case Running => s.current in s.live && s.inq.Keys == s.live - {s.current}
       case Stuck => s.inq.Keys == s.live && Q(s, Ready) == []
       case Exited(_) => s.live == {} && s.inq == map[]
  }

  lemma InitialInv(s: State)
    requires Initial(s)
    ensures Inv(s)
  {
  }

  /** Putting a thread into a queue, when it is in the call that goes with the queue. */
  lemma PutWaits(s: State, t: Tid, q: QueueId)
    requires Queued(s) && Threads(s) && Waiting(s) && Sems(s) && t !in s.inq && t in s.live && Blocked(s, t, q)
    requires q != Ready ==> t !in s.alerted
    requires q == Join0 ==> Q(s, Join0) == []
    requires q.SemOf? ==> s.sems[q.x].initial >= 0 ==> s.sems[q.x].count == 0
    ensures Keeps(Put(s, t, q))
  {
    PutQueued(s, t, q);
    assert forall u :: Pend(Put(s, t, q), u) == Pend(s, u);
  }

  /** The part of the invariant that does not depend on who is running. */
  ghost predicate Keeps(s: State)
  {
    Queued(s) && Threads(s) && Waiting(s) && Sems(s)
  }

  /** Who runs does not matter for what is waited for. */
  lemma SameWaits(s: State, s': State)
    requires Waiting(s) && Sems(s) && s' == s.(status := s'.status, current := s'.current)
    ensures Waiting(s') && Sems(s')
  {
    assert forall q :: Q(s', q) == Q(s, q);
    assert forall u :: Pend(s', u) == Pend(s, u);
  }

  lemma RunWaits(s: State, s': State)
    requires Waiting(s) && Sems(s) && s'.inq == s.inq - {s'.current} && s'.current in s.inq
        && s.inq[s'.current] == Ready
    requires s' == s.(queues := s'.queues, inq := s'.inq, current := s'.current)
    requires forall q :: q != Ready ==> Q(s', q) == Q(s, q)
    ensures Waiting(s') && Sems(s')
  {
    assert forall u :: Pend(s', u) == Pend(s, u);
  }

  /** run keeps everything: it only moves the first ready thread out of its queue. */
  lemma RunInv(s: State)
    requires Keeps(s) && s.inq.Keys == s.live && s.status == Running
    ensures Inv(RunNext(s))
  {
    hide Queued;
    var s' := RunNext(s);
    if Q(s, Ready) != [] {
      var s1 := Get(s, Ready);
      GetQueued(s, Ready);
      SameQueued(s1, s');
      assert s'.inq == s.inq - {s'.current};
      RunWaits(s, s');
    } else {
      SameQueued(s, s');
      SameWaits(s, s');
    }
  }

  lemma BlockWaits(s: State, s': State, q: QueueId, p: Pending)
    requires Waiting(s) && Sems(s) && s.current !in s.inq && s.current !in s.alerted
    requires s' == s.(pend := s.pend[s.current := p], queues := s'.queues, inq := s.inq[s.current := q])
    requires Blocked(s', s.current, q) && q != Ready
    requires forall r :: Q(s', r) == if r == q then Q(s, q) + [s.current] else Q(s, r)
    requires q == Join0 ==> Q(s, Join0) == []
    requires q.SemOf? ==> s.sems[q.x].initial >= 0 ==> s.sems[q.x].count == 0
    ensures Waiting(s') && Sems(s')
  {
    assert forall u :: u != s.current ==> Pend(s', u) == Pend(s, u);
  }

  lemma BlockInv(s: State, q: QueueId, p: Pending)
    requires Inv(s) && s.status == Running && s.current !in s.alerted && Pend(s, s.current) == Nothing
    requires Blocked(s.(pend := s.pend[s.current := p]), s.current, q) && q != Ready
    requires q == Join0 ==> Q(s, Join0) == []
    requires q.SemOf? ==> s.sems[q.x].initial >= 0 ==> s.sems[q.x].count == 0
    ensures Inv(Block(s, q, p))
  {
    var s1 := s.(pend := s.pend[s.current := p]);
    assert s.current !in s.inq;
    hide Queued, Waiting, Sems, Threads;
    SameQueued(s, s1);
    PutQueued(s1, s.current, q);
    var s2 := Put(s1, s.current, q);
    BlockWaits(s, s2, q, p);
    SameThreads(s, s2);
    RunInv(s2);
  }

  lemma PauseInv(s: State)
    requires Inv(s) && s.status == Running
    ensures Inv(RunNext(Put(s, s.current, Ready)))
  {
    PutWaits(s, s.current, Ready);
    RunInv(Put(s, s.current, Ready));
  }

  lemma NewWaits(s: State, s': State, t: Tid)
    requires Waiting(s) && Sems(s) && t !in s.inq && s.current in s.live && Pend(s, s.current) == Nothing
    requires s'.inq == s.inq[t := Ready] && s'.pend == s.pend[t := Nothing] && s'.live == s.live + {t}
    requires s'.alerted == s.alerted && s'.code == s.code && s'.exits == s.exits && s'.sems == s.sems
    requires forall q :: q != Ready ==> Q(s', q) == Q(s, q)
    ensures Waiting(s') && Sems(s')
  {
    assert forall u :: u != t ==> Pend(s', u) == Pend(s, u);
  }

  lemma NewInv(s: State)
    requires Inv(s) && s.status == Running && Pend(s, s.current) == Nothing
    ensures Inv(ThreadNew(s))
  {
    var t := s.next;
    var s1 := Created(s);
    assert t !in s.inq && t !in s.live;
    NewThreads(s, s1);
    hide Queued, Waiting, Sems, Threads, Created;
    SameQueued(s, s1);
    PutQueued(s1, t, Ready);
    NewRest(s, s1, Put(s1, t, Ready), t);
  }

  lemma NewRest(s: State, s1: State, s': State, t: Tid)
    requires Inv(s) && s.status == Running && Pend(s, s.current) == Nothing && t !in s.live && s1 == Created(s)
        && s' == Put(s1, t, Ready) && t == s.next
    requires Queued(s') && Threads(s1) && forall q :: q != Ready ==> Q(s', q) == Q(s, q)
    ensures Inv(s')
  {
    hide Queued, Waiting, Sems, Threads;
    NewWaits(s, s', t);
    assert s'.inq.Keys == s'.live - {s'.current};
    SameThreads(s1, s');
  }

  lemma NewThreads(s: State, s': State)
    requires Threads(s) && s' == Created(s)
    ensures Threads(s')
  {
    assert s.next !in s.live;
  }

  lemma AlertWaits(s: State, s': State, t: Tid)
    requires Waiting(s) && Sems(s)
    requires s' == s.(alerted := s.alerted + {t}, queues := s'.queues, inq := s'.inq)
    requires s'.inq == s.inq || (t in s.inq && s'.inq == s.inq[t := Ready])
    requires t in s.inq ==> t in s'.inq && s'.inq[t] == Ready
    requires forall q :: q != Ready ==> |Q(s', q)| <= |Q(s, q)|
    ensures Waiting(s') && Sems(s')
  {
    assert forall u :: Pend(s', u) == Pend(s, u);
    forall x | 0 <= x < |s.sems| ensures Q(s', SemOf(x)) != [] ==> Q(s, SemOf(x)) != [] {}
  }

  lemma AlertInv(s: State, t: Tid)
    requires Inv(s) && s.status == Running && t in s.live
    ensures Inv(ThreadAlert(s, t))
  {
    var s1 := s.(alerted := s.alerted + {t});
    hide Queued, Remove, Waiting, Sems;
    SameQueued(s, s1);
    if t in s.inq {
      AlertMoves(s, s1, t);
    } else {
      AlertWaits(s, s1, t);
    }
  }

  /** The thread alerted goes from the queue it is in to the end of ready. */
  lemma AlertMoves(s: State, s1: State, t: Tid)
    requires Inv(s) && s.status == Running && t in s.live && t in s.inq
    requires s1 == s.(alerted := s.alerted + {t}) && Queued(s1) && forall q :: Q(s1, q) == Q(s, q)
    ensures Inv(Put(Delete(s1, t), t, Ready))
  {
    hide Queued, Remove, Waiting, Sems, Threads;
    DeleteQueued(s1, t);
    var s2 := Delete(s1, t);
    PutQueued(s2, t, Ready);
    var s3 := Put(s2, t, Ready);
    forall q | q != Ready ensures |Q(s3, q)| <= |Q(s, q)| { RemoveShorter(Q(s, q), t); }
    assert s3.inq == s.inq[t := Ready] && s3.inq.Keys == s.inq.Keys;
    AlertWaits(s, s3, t);
    AlertThreads(s, s3, t);
  }

  lemma AlertThreads(s: State, s': State, t: Tid)
    requires Threads(s) && t in s.live
    requires s' == s.(alerted := s.alerted + {t}, queues := s'.queues, inq := s'.inq)
    ensures Threads(s')
  {
  }

  lemma {:induction false} RemoveShorter(q: seq<Tid>, t: Tid)
    ensures |Remove(q, t)| <= |q|
  {
    if q != [] { RemoveShorter(q[1..], t); }
  }

  lemma SignalWaits(s: State, s': State, x: SemId, h: Tid)
    requires Waiting(s) && Sems(s) && x < |s.sems| && s.sems[x].count == 0 && Q(s, SemOf(x)) != []
    requires h in s.inq && s.inq[h] == SemOf(x)
    requires s' == s.(sems := s.sems[x := s.sems[x].(signals := s.sems[x].signals + 1,
        grants := s.sems[x].grants + 1)], queues := s'.queues, inq := s.inq[h := Ready])
    requires forall q :: q != Ready && q != SemOf(x) ==> Q(s', q) == Q(s, q)
    ensures Waiting(s') && Sems(s')
  {
    assert forall u :: Pend(s', u) == Pend(s, u);
  }

  lemma CountWaits(s: State, s': State, x: SemId)
    requires Waiting(s) && Sems(s) && x < |s.sems|
    requires |s'.sems| == |s.sems| && s' == s.(sems := s.sems[x := s'.sems[x]])
    requires var a, b := s.sems[x], s'.sems[x];
             && b.initial == a.initial && b.count - b.signals + b.grants == a.count - a.signals + a.grants
             && (a.initial >= 0 ==> b.count >= 0 && Q(s, SemOf(x)) == [])
    ensures Waiting(s') && Sems(s')
  {
    assert forall u :: Pend(s', u) == Pend(s, u);
    assert forall q :: Q(s', q) == Q(s, q);
  }

  lemma CountAt(s: State, x: SemId)
    requires Sems(s) && x < |s.sems|
    ensures s.sems[x].initial >= 0 ==> s.sems[x].count >= 0 && (Q(s, SemOf(x)) != [] ==> s.sems[x].count == 0)
  {
  }

  /** A token handed to the first waiter. */
  lemma HandOffInv(s: State, x: SemId)
    requires Inv(s) && s.status == Running && x < |s.sems| && s.sems[x].count == 0 && Q(s, SemOf(x)) != []
    ensures Inv(SemSignal(s, x))
  {
    hide Queued, Waiting, Sems, Threads;
    var sem, h := s.sems[x], Q(s, SemOf(x))[0];
    var s1 := s.(sems := s.sems[x := sem.(signals := sem.signals + 1, grants := sem.grants + 1)]);
    SameQueued(s, s1);
    GetQueued(s1, SemOf(x));
    var s2 := Get(s1, SemOf(x));
    PutQueued(s2, h, Ready);
    var s' := Put(s2, h, Ready);
    assert s' == SemSignal(s, x);
    assert s'.inq == s.inq[h := Ready];
    SignalWaits(s, s', x, h);
    SameThreads(s, s');
  }

  lemma SameThreads(s: State, s': State)
    requires Threads(s) && s'.live == s.live && s'.next == s.next && s'.exits == s.exits
    requires s'.alerted <= s.alerted && s'.freelist == s.freelist && s'.nthreads == s.nthreads
    ensures Threads(s')
  {
  }

  lemma SignalInv(s: State, x: SemId)
    requires Inv(s) && s.status == Running && x < |s.sems|
    ensures Inv(SemSignal(s, x))
  {
    var sem, s' := s.sems[x], SemSignal(s, x);
    if sem.count == 0 && Q(s, SemOf(x)) != [] {
      HandOffInv(s, x);
    } else {
      hide Queued, Waiting, Sems, Threads;
      SameQueued(s, s');
      SameThreads(s, s');
      CountAt(s, x);
      CountWaits(s, s', x);
    }
  }

  lemma WaitInv(s: State, x: SemId)
    requires Inv(s) && s.status == Running && x < |s.sems| && Pend(s, s.current) == Nothing && s.current !in s.alerted
    ensures Inv(SemWait(s, x))
  {
    CountAt(s, x);
    if s.sems[x].count <= 0 {
      BlockInv(s, SemOf(x), InWait(x));
    } else {
      hide Queued, Waiting, Sems, Threads;
      var s' := SemWait(s, x);
      SameQueued(s, s');
      SameThreads(s, s');
      CountWaits(s, s', x);
    }
  }

  /** The running thread forgets the call it was in, raising if it was alerted. */
  lemma ClearInv(s: State, s': State)
    requires Inv(s) && s.status == Running
    requires s' == s.(alerted := s.alerted - {s.current}, pend := s.pend[s.current := Nothing])
    ensures Inv(s')
  {
    assert s.current !in s.inq;
    hide Queued;
    SameQueued(s, s');
    assert forall u :: u != s.current ==> Pend(s', u) == Pend(s, u);
  }

  lemma InitInv(s: State, n: int)
    requires Inv(s) && s.status == Running
    ensures Inv(s.(sems := s.sems + [Semaphore(n, n, 0, 0)]))
  {
    var s' := s.(sems := s.sems + [Semaphore(n, n, 0, 0)]);
    NobodyWaits(s, |s.sems|);
    hide Queued;
    SameQueued(s, s');
    assert forall u :: Pend(s', u) == Pend(s, u);
  }

  lemma NoMembers(q: seq<Tid>)
    requires forall t :: t !in q
    ensures q == []
  {
    if q != [] { SomeMember(q); }
  }

  lemma SomeMember(q: seq<Tid>)
    requires q != []
    ensures exists t :: t in q
  {
    assert q[0] in q;
  }

  /** Nobody waits on a semaphore that does not exist, or for a thread that is not live. */
  lemma NobodyWaits(s: State, x: SemId)
    requires Queued(s) && Waiting(s) && x >= |s.sems|
    ensures Q(s, SemOf(x)) == []
  {
    forall t ensures t !in Q(s, SemOf(x)) {
      assert t in Q(s, SemOf(x)) <==> t in s.inq && s.inq[t] == SemOf(x);
    }
    NoMembers(Q(s, SemOf(x)));
  }

  // ---------------------------------------------------------------- Thread_exit

  /** While t leaves: as the invariant, but that t itself is already gone and its joiners are
      still to be woken. */
  ghost predicate Leaving(s: State, t: Tid, code: int)
  {
    Queued(s) && Sems(s) && s.status == Running && LeavingThreads(s, t, code) && LeavingWaits(s, t)
  }

  ghost predicate LeavingThreads(s: State, t: Tid, code: int)
  {
    && t !in s.live && t in s.exits && s.exits[t] == code && s.inq.Keys == s.live
    && (forall u :: u in s.live ==> u < s.next && u !in s.exits)
    && (forall u :: u in s.exits ==> u < s.next)
    && (forall u :: u in s.alerted ==> u in s.live)
    && (forall u :: u in s.freelist ==> u in s.exits)
    && s.nthreads == |s.live| + 1
  }

  ghost predicate LeavingWaits(s: State, t: Tid)
  {
    && (forall u :: u in s.inq ==> if s.inq[u] == JoinOf(t) then Pend(s, u) == InJoin(t) else Blocked(s, u, s.inq[u]))
    && (forall u :: u in s.inq && s.inq[u] != Ready ==> u !in s.alerted)
    && (forall u :: u in s.inq && s.inq[u] == Ready ==> Joined(s, u))
    && |Q(s, Join0)| <= 1
  }

  lemma LeaveThreads(s: State, s': State, code: int)
    requires Threads(s) && s.current in s.live && s.inq.Keys == s.live - {s.current}
    requires s' == s.(freelist := if s.current != ROOT then [s.current] else [],
                      live := s.live - {s.current}, exits := s.exits[s.current := code],
                      alerted := s.alerted - {s.current})
    ensures LeavingThreads(s', s.current, code)
  {
  }

  lemma LeaveWaits(s: State, s': State, code: int)
    requires Waiting(s) && s.inq.Keys == s.live - {s.current} && s.current !in s.exits
    requires s' == s.(freelist := s'.freelist, live := s.live - {s.current}, exits := s.exits[s.current := code],
                      alerted := s.alerted - {s.current})
    ensures LeavingWaits(s', s.current)
  {
    assert forall u :: Pend(s', u) == Pend(s, u);
    assert forall q :: Q(s', q) == Q(s, q);
  }

  lemma LeaveStart(s: State, code: int)
    requires Inv(s) && s.status == Running
    ensures Leaving(Departed(s, code), s.current, code)
  {
    var s' := Departed(s, code);
    LeaveThreads(s, s', code);
    LeaveWaits(s, s', code);
    hide Queued, LeavingThreads, LeavingWaits, Threads, Waiting, Sems;
    SameQueued(s, s');
    SameSems(s, s');
  }

  lemma WakeThreads(s: State, s': State, t: Tid, code: int, u: Tid)
    requires LeavingThreads(s, t, code) && u in s.inq
    requires s' == s.(queues := s'.queues, inq := s.inq[u := Ready], code := s.code[u := code])
    ensures LeavingThreads(s', t, code)
  {
  }

  lemma WakeWaits(s: State, s': State, t: Tid, code: int, u: Tid)
    requires LeavingWaits(s, t) && LeavingThreads(s, t, code) && u in s.inq && s.inq[u] == JoinOf(t)
    requires s' == s.(queues := s'.queues, inq := s.inq[u := Ready], code := s.code[u := code])
    requires Q(s', Join0) == Q(s, Join0)
    ensures LeavingWaits(s', t)
  {
    assert forall v :: Pend(s', v) == Pend(s, v);
  }

  lemma WakeOne(s: State, t: Tid, code: int)
    requires Leaving(s, t, code) && Q(s, JoinOf(t)) != []
    ensures var u := Q(s, JoinOf(t))[0];
            var s' := Put(Get(s, JoinOf(t)).(code := s.code[u := code]), u, Ready);
            Leaving(s', t, code) && s'.current == s.current && s'.live == s.live && s'.sems == s.sems
                && s'.exits == s.exits
            && s'.nthreads == s.nthreads && s'.freelist == s.freelist && s'.pend == s.pend && s'.alerted == s.alerted
            && s'.next == s.next
            && (forall q :: q != Ready && q != JoinOf(t) ==> Q(s', q) == Q(s, q))
            && Q(s', Ready) == Q(s, Ready) + [u] && Q(s', JoinOf(t)) == Q(s, JoinOf(t))[1..]
  {
    hide Queued, Sems, LeavingThreads, LeavingWaits;
    var u := Q(s, JoinOf(t))[0];
    GetQueued(s, JoinOf(t));
    var s1 := Get(s, JoinOf(t));
    var s2 := s1.(code := s.code[u := code]);
    SameQueued(s1, s2);
    PutQueued(s2, u, Ready);
    var s' := Put(s2, u, Ready);
    assert s'.inq == s.inq[u := Ready];
    SameSems(s, s');
    WakeThreads(s, s', t, code, u);
    WakeWaits(s, s', t, code, u);
  }

  lemma SameSems(s: State, s': State)
    requires Sems(s) && s'.sems == s.sems
        && forall x :: 0 <= x < |s.sems| && Q(s', SemOf(x)) != [] ==> Q(s, SemOf(x)) != []
    ensures Sems(s')
  {
  }

  lemma {:induction false} WakeAll(s: State, t: Tid, code: int)
    requires Leaving(s, t, code)
    ensures var s' := WakeJoiners(s, t, code);
            Leaving(s', t, code) && s'.current == s.current && s'.live == s.live && s'.sems == s.sems
                && s'.exits == s.exits
            && s'.nthreads == s.nthreads && s'.freelist == s.freelist && s'.pend == s.pend && s'.alerted == s.alerted
            && s'.next == s.next
            && Q(s', JoinOf(t)) == [] && Q(s', Ready) == Q(s, Ready) + Q(s, JoinOf(t))
            && (forall q :: q != Ready && q != JoinOf(t) ==> Q(s', q) == Q(s, q))
    decreases |Q(s, JoinOf(t))|
  {
    hide Leaving, Put, Get, Q;
    if Q(s, JoinOf(t)) != [] {
      WakeOne(s, t, code);
      var u := Q(s, JoinOf(t))[0];
      var s1 := Put(Get(s, JoinOf(t)).(code := s.code[u := code]), u, Ready);
      WakeAll(s1, t, code);
    }
  }

  /** The two-thread case: with the other thread in join0, nobody is ready (line 193). */
  lemma LastIsInJoin0(s: State, t: Tid, code: int)
    requires Leaving(s, t, code) && Q(s, Join0) != [] && s.nthreads == 2
    ensures Q(s, Ready) == []
  {
    QueuedAt(s, Join0);
    QueuedAt(s, Ready);
    var h := Q(s, Join0)[0];
    assert h in s.live;
    OnlyOne(s, t, code, h);
    forall u ensures u !in Q(s, Ready) {
      assert u in Q(s, Ready) ==> u == h;
    }
    NoMembers(Q(s, Ready));
  }

  lemma WakeJoinAllKeeps(s: State, t: Tid, code: int)
    requires Leaving(s, t, code) && Q(s, JoinOf(t)) == []
    ensures Leaving(WakeJoinAll(s), t, code) && Q(WakeJoinAll(s), JoinOf(t)) == []
  {
    hide Queued, Sems, LeavingThreads, LeavingWaits;
    if Q(s, Join0) != [] && s.nthreads == 2 {
      var h := Q(s, Join0)[0];
      GetQueued(s, Join0);
      PutQueued(Get(s, Join0), h, Ready);
      var s' := WakeJoinAll(s);
      assert s'.inq == s.inq[h := Ready];
      SameSems(s, s');
      JoinAllThreads(s, s', t, code, h);
      OneInJoin0(s, t);
      OnlyOne(s, t, code, h);
      JoinAllWaits(s, s', t, h);
    }
  }

  lemma OnlyOne(s: State, t: Tid, code: int, h: Tid)
    requires LeavingThreads(s, t, code) && h in s.inq && s.nthreads == 2
    ensures s.live == {h}
  {
    assert |s.live - {h}| == 0;
  }

  lemma OneInJoin0(s: State, t: Tid)
    requires LeavingWaits(s, t)
    ensures |Q(s, Join0)| <= 1
  {
  }

  lemma JoinAllThreads(s: State, s': State, t: Tid, code: int, h: Tid)
    requires LeavingThreads(s, t, code) && h in s.inq && s' == s.(queues := s'.queues, inq := s.inq[h := Ready])
    ensures LeavingThreads(s', t, code)
  {
  }

  lemma JoinAllWaits(s: State, s': State, t: Tid, h: Tid)
    requires LeavingWaits(s, t) && h in s.inq && s.inq[h] == Join0 && s.live == {h}
    requires s' == s.(queues := s'.queues, inq := s.inq[h := Ready]) && |Q(s', Join0)| <= 1
    ensures LeavingWaits(s', t)
  {
    assert forall v :: Pend(s', v) == Pend(s, v);
  }

  /** With its joiners woken the thread has left, and the invariant holds again. */
  lemma Left(s: State, t: Tid, code: int)
    requires Leaving(s, t, code) && Q(s, JoinOf(t)) == []
    ensures Keeps(s.(nthreads := s.nthreads - 1))
  {
    var s' := s.(nthreads := s.nthreads - 1);
    QueuedAt(s, JoinOf(t));
    hide Queued;
    SameQueued(s, s');
    SameSems(s, s');
    assert forall v :: Pend(s', v) == Pend(s, v);
  }

  lemma LeaveLeaves(s: State, code: int)
    requires Inv(s) && s.status == Running
    ensures Leaving(Leave(s, code), s.current, code) && Q(Leave(s, code), JoinOf(s.current)) == []
  {
    LeaveStart(s, code);
    hide Inv, Leaving;
    WakeAll(Departed(s, code), s.current, code);
    assert Leave(s, code) == WakeJoiners(Departed(s, code), s.current, code);
  }

  lemma ExitInv(s: State, code: int)
    requires Inv(s) && s.status == Running
    ensures Inv(ThreadExit(s, code))
  {
    LeaveLeaves(s, code);
    var s2 := WakeJoinAll(Leave(s, code));
    hide Inv, Leaving, Leave, WakeJoinAll;
    WakeJoinAllKeeps(Leave(s, code), s.current, code);
    LeftInv(s2, s.current, code);
  }

  lemma LeftInv(s: State, t: Tid, code: int)
    requires Leaving(s, t, code) && Q(s, JoinOf(t)) == []
    ensures var s' := s.(nthreads := s.nthreads - 1);
            if s'.nthreads == 0 then Inv(s'.(status := Exited(code))) else Inv(RunNext(s'))
  {
    hide Queued, Sems, Leaving, Waiting, Threads;
    Left(s, t, code);
    LeavingIs(s, t, code);
    var s' := s.(nthreads := s.nthreads - 1);
    if s'.nthreads == 0 {
      var s4 := s'.(status := Exited(code));
      SameQueued(s', s4);
      SameWaits(s', s4);
      SameThreads(s', s4);
    } else {
      RunInv(s');
    }
  }

  lemma LeavingIs(s: State, t: Tid, code: int)
    requires Leaving(s, t, code)
    ensures s.status == Running && s.inq.Keys == s.live && s.nthreads == |s.live| + 1
        && (s.nthreads == 1 ==> s.live == {})
  {
  }

  // ---------------------------------------------------------------- every step

  lemma StepInv(s: State, l: Label)
    requires Inv(s) && Enabled(s, l)
    ensures Inv(Apply(s, l))
  {
    hide Queued, Sems, Threads, Waiting;
    if Raises(s, l) {
      ClearInv(s, Apply(s, l));
    } else {
      match l
      case New => NewInv(s);
      case Pause => PauseInv(s);
      case Preempt => PauseInv(s);
      case Exit(code) => ExitInv(s, code);
      case Join(t) => if t in s.live { BlockInv(s, JoinOf(t), InJoin(t)); }
      case JoinAll => if s.nthreads > 1 { BlockInv(s, Join0, InJoinAll); }
      case Alert(t) => AlertInv(s, t);
      case Init(n) => InitInv(s, n);
      case Signal(x) => SignalInv(s, x);
      case Wait(x) => WaitInv(s, x);
      case Resume => ClearAlerts(s); ClearInv(s, Apply(s, l));
    }
  }

  lemma ClearAlerts(s: State)
    requires Inv(s) && s.status == Running && s.current !in s.alerted
    ensures s.alerted - {s.current} == s.alerted
  {
  }
}

/** chan.c: the three-semaphore rendezvous, as a step system under arbitrary preemption.

    Every statement of Chan_send and Chan_receive is one step of one party; a schedule is a
    sequence of labels.  `ptr` and `size` hold the party whose buffer and whose parameter
    `size` the C pointers refer to, so the receiver really reads and writes the sender's
    variable.  `owner`, `offers`, `takes` and `turn` are bookkeeping: who holds the slot, the
    messages put into it, and what was copied out of it, in order. */
module Channel {
  import opened Machine
  import opened Wrappers
  import opened Semaphores
  import opened Rendezvous

  datatype SenderPc = SIdle | SWantSend | SInSend | SSetPtr | SSetSize | SSignalRecv
                    | SWantSync | SInSync | SReturn

  datatype ReceiverPc = RIdle | RWantRecv | RInRecv | RRead | RCut | RStore | RCopy
                      | RSignalSync | RSignalSend | RReturn

  datatype Party =
    | Sender(spc: SenderPc, data: seq<byte>, count: nat, turn: nat)
    | Receiver(rpc: ReceiverPc, cap: nat, n: nat, buf: seq<byte>, turn: nat)

  datatype Take = Take(cap: nat, bytes: seq<byte>)

  datatype Owner = Free | Held(who: Tid) | Filled

  datatype State = State(ptr: Tid, size: Tid, send: Sem, recv: Sem, sync: Sem,
                         parties: seq<Party>, owner: Owner,
                         offers: seq<seq<byte>>, takes: seq<Take>)

  datatype Label = StartSend(t: Tid, msg: seq<byte>) | StartReceive(t: Tid, room: nat) | Run(t: Tid)

  // ---------------------------------------------------------------- the steps

  predicate Blocked(p: Party)
  {
    match p
    case Sender(pc, _, _, _) => pc == SInSend || pc == SInSync
    case Receiver(pc, _, _, _, _) => pc == RInRecv
  }

  predicate Idle(p: Party)
  {
    match p
    case Sender(pc, _, _, _) => pc == SIdle
    case Receiver(pc, _, _, _, _) => pc == RIdle
  }

  predicate Enabled(s: State, l: Label)
  {
    && l.t < |s.parties|
    && match l
       case StartSend(t, _) => s.parties[t].Sender? && Idle(s.parties[t])
       case StartReceive(t, _) => s.parties[t].Receiver? && Idle(s.parties[t])
       case Run(t) =>
         && !Idle(s.parties[t]) && !Blocked(s.parties[t])
         // the pointers the receiver follows refer to a send in progress
         && (s.parties[t].Receiver? && s.parties[t].rpc in {RRead, RStore} ==>
               s.size < |s.parties| && s.parties[s.size].Sender?)
         && (s.parties[t].Receiver? && s.parties[t].rpc == RCopy ==>
               s.ptr < |s.parties| && s.parties[s.ptr].Sender? && s.parties[t].n <= |s.parties[s.ptr].data|)
  }

  /** The party a signal wakes goes on behind the Sem_wait it was blocked in. */
  function Awake(p: Party): Party
  {
    match p
    case Sender(pc, _, _, _) =>
      if pc == SInSend then p.(spc := SSetPtr) else if pc == SInSync then p.(spc := SReturn) else p
    case Receiver(pc, _, _, _, _) => if pc == RInRecv then p.(rpc := RRead) else p
  }

  function Wake(parties: seq<Party>, w: Option<Tid>): (r: seq<Party>)
    ensures |r| == |parties|
  {
    if w.Some? && w.value < |parties| then parties[w.value := Awake(parties[w.value])] else parties
  }

  function Set(s: State, t: Tid, p: Party): State
    requires t < |s.parties|
  {
    s.(parties := s.parties[t := p])
  }

  /** Chan_send, statement by statement (chan.c 53-58). */
  function SenderStep(s: State, t: Tid): State
    requires Enabled(s, Run(t)) && s.parties[t].Sender?
  {
    var p := s.parties[t];
    match p.spc
    case SWantSend =>
      var (sem, ok) := Wait(s.send, t);
      var s1 := s.(send := sem);
      if ok then Set(s1, t, p.(spc := SSetPtr)).(owner := Held(t)) else Set(s1, t, p.(spc := SInSend))
    case SSetPtr => Set(s.(ptr := t), t, p.(spc := SSetSize))
    case SSetSize => Set(s.(size := t), t, p.(spc := SSignalRecv))
    case SSignalRecv =>
      var (sem, w) := Signal(s.recv);
      var s1 := Set(s, t, p.(spc := SWantSync, turn := |s.offers|));
      s1.(recv := sem, parties := Wake(s1.parties, w), offers := s.offers + [p.data],
          owner := if w.Some? then Held(w.value) else Filled)
    case SWantSync =>
      var (sem, ok) := Wait(s.sync, t);
      Set(s.(sync := sem), t, p.(spc := if ok then SReturn else SInSync))
    case SReturn => Set(s, t, p.(spc := SIdle))
    case SIdle => s
    case SInSend => s
    case SInSync => s
  }

  /** Chan_receive, statement by statement (chan.c 34-45). */
  function ReceiverStep(s: State, t: Tid): State
    requires Enabled(s, Run(t)) && s.parties[t].Receiver?
  {
    var p := s.parties[t];
    match p.rpc
    case RWantRecv =>
      var (sem, ok) := Wait(s.recv, t);
      var s1 := s.(recv := sem);
      if ok then Set(s1, t, p.(rpc := RRead)).(owner := Held(t)) else Set(s1, t, p.(rpc := RInRecv))
    case RRead => Set(s, t, p.(rpc := RCut, n := s.parties[s.size].count))
    case RCut => Set(s, t, p.(rpc := RStore, n := Min(p.cap, p.n)))
    case RStore =>
      Set(s.(parties := s.parties[s.size := s.parties[s.size].(count := p.n)]), t, p.(rpc := RCopy))
    case RCopy =>
      var bytes := s.parties[s.ptr].data[..p.n];
      Set(s, t, p.(rpc := RSignalSync, buf := bytes, turn := |s.takes|)).(takes := s.takes + [Take(p.cap, bytes)])
    case RSignalSync =>
      var (sem, w) := Signal(s.sync);
      var s1 := Set(s, t, p.(rpc := RSignalSend));
      s1.(sync := sem, parties := Wake(s1.parties, w))
    case RSignalSend =>
      var (sem, w) := Signal(s.send);
      var s1 := Set(s, t, p.(rpc := RReturn));
      s1.(send := sem, parties := Wake(s1.parties, w), owner := if w.Some? then Held(w.value) else Free)
    case RReturn => Set(s, t, p.(rpc := RIdle))
    case RIdle => s
    case RInRecv => s
  }

  function Apply(s: State, l: Label): State
    requires Enabled(s, l)
  {
    match l
    case StartSend(t, msg) =>
      Set(s, t, s.parties[t].(spc := SWantSend, data := msg, count := |msg|))
    case StartReceive(t, room) => Set(s, t, s.parties[t].(rpc := RWantRecv, cap := room))
    case Run(t) => if s.parties[t].Sender? then SenderStep(s, t) else ReceiverStep(s, t)
  }

  /** Chan_new with any set of idle parties around it. */
  predicate Initial(s: State)
  {
    && s.send == Sem(1, []) && s.recv == Sem(0, []) && s.sync == Sem(0, [])
    && s.owner == Free && s.offers == [] && s.takes == []
    && forall t :: 0 <= t < |s.parties| ==> Idle(s.parties[t])
  }

  // ---------------------------------------------------------------- invariants

  /** Between its Sem_wait(send) and the end of its Sem_wait(sync). */
  predicate Sending(p: Party)
  {
    p.Sender? && p.spc in {SSetPtr, SSetSize, SSignalRecv, SWantSync, SInSync}
  }

  predicate Holder(p: Party)
  {
    match p
    case Sender(pc, _, _, _) => pc in {SSetPtr, SSetSize, SSignalRecv}
    case Receiver(pc, _, _, _, _) => pc in {RRead, RCut, RStore, RCopy, RSignalSync, RSignalSend}
  }

  /** At most one sender is past the send semaphore: what one sender, or no preemption, gives. */
  ghost predicate Exclusive(s: State)
  {
    forall t, u ::
        0 <= t < |s.parties| && 0 <= u < |s.parties| && Sending(s.parties[t]) && Sending(s.parties[u]) ==> t == u
  }

  datatype Place = AtSend | AtRecv | AtSync | Elsewhere

  /** The queue a party is blocked on. */
  function Where(p: Party): Place
  {
    match p
    case Sender(pc, _, _, _) => if pc == SInSend then AtSend else if pc == SInSync then AtSync else Elsewhere
    case Receiver(pc, _, _, _, _) => if pc == RInRecv then AtRecv else Elsewhere
  }

  /** `q` lists exactly the parties blocked at `place`, each once. */
  ghost predicate Lists(ps: seq<Party>, q: seq<Tid>, place: Place)
  {
    && NoDup(q)
    && (forall i :: 0 <= i < |q| ==> q[i] < |ps| && Where(ps[q[i]]) == place)
    && (forall t :: 0 <= t < |ps| && Where(ps[t]) == place ==> t in q)
  }

  ghost predicate Queues(s: State)
  {
    && Lists(s.parties, s.send.queue, AtSend) && Lists(s.parties, s.recv.queue, AtRecv)
    && Lists(s.parties, s.sync.queue, AtSync)
    && (s.send.queue != [] ==> s.send.count == 0)
    && (s.recv.queue != [] ==> s.recv.count == 0)
    && (s.sync.queue != [] ==> s.sync.count == 0)
  }

  /** Exactly one of: a token in `send`, a token in `recv`, one party holding the slot. */
  ghost predicate Slot(s: State)
  {
    && s.send.count == (if s.owner == Free then 1 else 0)
    && s.recv.count == (if s.owner == Filled then 1 else 0)
    && (s.owner.Held? ==> s.owner.who < |s.parties|)
    && forall t :: 0 <= t < |s.parties| ==> (Holder(s.parties[t]) <==> s.owner == Held(t))
  }

  /** A message is in the slot and `sync` has not been signalled for it. */
  predicate Outstanding(s: State)
  {
    || s.owner == Filled
    || (s.owner.Held? && s.owner.who < |s.parties| && s.parties[s.owner.who].Receiver?
        && s.parties[s.owner.who].rpc != RSignalSend)
  }

  /** ... and it has been copied out. */
  predicate Copied(s: State)
  {
    s.owner.Held? && s.owner.who < |s.parties| && s.parties[s.owner.who].Receiver?
    && s.parties[s.owner.who].rpc == RSignalSync
  }

  /** The party that put in the outstanding message is still inside its Chan_send. */
  ghost predicate Offer(s: State)
  {
    Outstanding(s) ==>
      && s.ptr == s.size && s.ptr < |s.parties| && s.offers != []
      && var w := s.parties[s.ptr];
         && w.Sender? && (w.spc == SWantSync || w.spc == SInSync)
         && w.turn == |s.offers| - 1 && w.data == s.offers[w.turn]
         && s.sync.count == 0
         && (s.owner == Filled ==> w.count == |w.data|)
         && (s.owner.Held? ==>
               var r := s.parties[s.owner.who];
               && (r.rpc in {RRead, RCut, RStore} ==> w.count == |w.data|)
               && (r.rpc == RCut ==> r.n == w.count)
               && (r.rpc == RStore ==> r.n == Min(r.cap, |w.data|))
               && (r.rpc in {RCopy, RSignalSync} ==> w.count == r.n == Min(r.cap, |w.data|)))
  }

  /** A sender that still has to return knows the count of its own message. */
  ghost predicate Acks(s: State)
  {
    && (s.sync.count == 0 || s.sync.count == 1)
    && (forall t :: 0 <= t < |s.parties| && s.parties[t].Sender? ==>
          var w := s.parties[t];
          && (w.spc in {SWantSync, SInSync} && !Outstanding(s) ==>
                w.spc == SWantSync && s.sync.count == 1 && Acked(s, w))
          && (w.spc in {SWantSend, SInSend, SSetPtr, SSetSize, SSignalRecv} ==> w.count == |w.data|)
          && (w.spc in {SSetPtr, SSetSize, SSignalRecv} ==> s.sync.count == 0)
          && (w.spc in {SSetSize, SSignalRecv} ==> s.ptr == t)
          && (w.spc == SSignalRecv ==> s.size == t)
          && (w.spc == SReturn ==> Acked(s, w)))
    && (s.sync.count == 1 ==> exists t :: 0 <= t < |s.parties| && s.parties[t].Sender? && s.parties[t].spc == SWantSync)
  }

  predicate Acked(s: State, w: Party)
  {
    w.Sender? && w.turn < |s.takes| && w.turn < |s.offers| && w.data == s.offers[w.turn]
        && w.count == |s.takes[w.turn].bytes|
  }

  /** The k-th message copied out is the k-th put in, cut to the room of its receiver. */
  ghost predicate History(s: State)
  {
    && |s.offers| == |s.takes| + (if Outstanding(s) && !Copied(s) then 1 else 0)
    && (forall k :: 0 <= k < |s.takes| ==>
          s.takes[k].bytes == s.offers[k][..Min(s.takes[k].cap, |s.offers[k]|)])
    && (forall t ::
         0 <= t < |s.parties| && s.parties[t].Receiver? && s.parties[t].rpc in {RSignalSync, RSignalSend, RReturn} ==>
          var r := s.parties[t];
          r.turn < |s.takes| && r.n == |r.buf| && s.takes[r.turn] == Take(r.cap, r.buf)
          && (r.rpc == RSignalSync ==> r.turn == |s.takes| - 1))
  }

  ghost predicate Inv(s: State)
  {
    Queues(s) && Core(s)
  }

  ghost predicate Core(s: State)
  {
    Slot(s) && Offer(s) && Acks(s) && History(s)
  }

  lemma InitialInv(s: State)
    requires Initial(s)
    ensures Inv(s) && Exclusive(s)
  {
  }

  lemma ListsKeep(ps: seq<Party>, q: seq<Tid>, place: Place, t: Tid, p: Party)
    requires Lists(ps, q, place) && t < |ps| && Where(ps[t]) != place && Where(p) != place
    ensures Lists(ps[t := p], q, place)
  {
  }

  lemma ListsPush(ps: seq<Party>, q: seq<Tid>, place: Place, t: Tid, p: Party)
    requires Lists(ps, q, place) && t < |ps| && Where(ps[t]) != place && Where(p) == place
    ensures Lists(ps[t := p], q + [t], place)
  {
    var q' := q + [t];
    forall u | 0 <= u < |ps| && Where(ps[t := p][u]) == place ensures u in q' {
      if u != t { assert u in q; }
    }
  }

  lemma ListsPop(ps: seq<Party>, q: seq<Tid>, place: Place, p: Party)
    requires Lists(ps, q, place) && q != [] && Where(p) != place
    ensures q[0] < |ps| && Lists(ps[q[0] := p], q[1..], place)
  {
    forall u | 0 <= u < |ps| && Where(ps[q[0] := p][u]) == place ensures u in q[1..] {
      assert u in q && u != q[0];
    }
  }

  /** A step that neither blocks nor wakes anyone. */
  lemma QueuesPlain(s: State, t: Tid, p: Party)
    requires Queues(s) && t < |s.parties| && Where(s.parties[t]) == Elsewhere == Where(p)
    ensures Queues(Set(s, t, p))
  {
    ListsKeep(s.parties, s.send.queue, AtSend, t, p);
    ListsKeep(s.parties, s.recv.queue, AtRecv, t, p);
    ListsKeep(s.parties, s.sync.queue, AtSync, t, p);
  }

  lemma QueuesWait(s: State, l: Label)
    requires Inv(s) && Enabled(s, l) && l.Run?
    requires match s.parties[l.t]
             case Sender(pc, _, _, _) => pc in {SWantSend, SWantSync}
             case Receiver(pc, _, _, _, _) => pc == RWantRecv
    ensures Queues(Apply(s, l))
  {
    hide Offer, History, Lists;
    var s', t := Apply(s, l), l.t;
    var p := s'.parties[t];
    assert s'.parties == s.parties[t := p];
    if Where(p) == AtSend {
      ListsPush(s.parties, s.send.queue, AtSend, t, p);
    } else {
      ListsKeep(s.parties, s.send.queue, AtSend, t, p);
    }
    if Where(p) == AtRecv {
      ListsPush(s.parties, s.recv.queue, AtRecv, t, p);
    } else {
      ListsKeep(s.parties, s.recv.queue, AtRecv, t, p);
    }
    if Where(p) == AtSync {
      ListsPush(s.parties, s.sync.queue, AtSync, t, p);
    } else {
      ListsKeep(s.parties, s.sync.queue, AtSync, t, p);
    }
  }

  /** Waking the head of the queue at `place`, or nobody. */
  lemma QueuesWake(s: State, place: Place)
    requires Queues(s) && place != Elsewhere
    ensures var q := if place == AtSend then s.send.queue else if place == AtRecv then s.recv.queue else s.sync.queue;
            q != [] ==>
              && q[0] < |s.parties|
              && var ps := s.parties[q[0] := Awake(s.parties[q[0]])];
                 && Lists(ps, if place == AtSend then q[1..] else s.send.queue, AtSend)
                 && Lists(ps, if place == AtRecv then q[1..] else s.recv.queue, AtRecv)
                 && Lists(ps, if place == AtSync then q[1..] else s.sync.queue, AtSync)
  {
    var q := if place == AtSend then s.send.queue else if place == AtRecv then s.recv.queue else s.sync.queue;
    if q != [] {
      var p := Awake(s.parties[q[0]]);
      if place == AtSend {
        ListsPop(s.parties, q, AtSend, p);
      } else {
        ListsKeep(s.parties, s.send.queue, AtSend, q[0], p);
      }
      if place == AtRecv {
        ListsPop(s.parties, q, AtRecv, p);
      } else {
        ListsKeep(s.parties, s.recv.queue, AtRecv, q[0], p);
      }
      if place == AtSync {
        ListsPop(s.parties, q, AtSync, p);
      } else {
        ListsKeep(s.parties, s.sync.queue, AtSync, q[0], p);
      }
    }
  }

  lemma QueuesSignalAt(s: State, s': State, t: Tid, p: Party, place: Place)
    requires Queues(s) && t < |s.parties| && Where(s.parties[t]) == Elsewhere == Where(p) && place != Elsewhere
    requires var sem := if place == AtSend then s.send else if place == AtRecv then s.recv else s.sync;
             var (sem', w) := Signal(sem);
             && s'.parties == Wake(s.parties[t := p], w)
             && s'.send == (if place == AtSend then sem' else s.send)
             && s'.recv == (if place == AtRecv then sem' else s.recv)
             && s'.sync == (if place == AtSync then sem' else s.sync)
    ensures Queues(s')
  {
    QueuesPlain(s, t, p);
    var s1 := Set(s, t, p);
    QueuesWake(s1, place);
  }

  lemma QueuesSignal(s: State, l: Label)
    requires Inv(s) && Enabled(s, l) && l.Run?
    requires match s.parties[l.t]
             case Sender(pc, _, _, _) => pc == SSignalRecv
             case Receiver(pc, _, _, _, _) => pc in {RSignalSync, RSignalSend}
    ensures Queues(Apply(s, l))
  {
    hide Core, Lists;
    var s', t := Apply(s, l), l.t;
    if s.parties[t].Sender? {
      QueuesSignalAt(s, s', t, s.parties[t].(spc := SWantSync, turn := |s.offers|), AtRecv);
    } else if s.parties[t].rpc == RSignalSync {
      QueuesSignalAt(s, s', t, s.parties[t].(rpc := RSignalSend), AtSync);
    } else {
      QueuesSignalAt(s, s', t, s.parties[t].(rpc := RReturn), AtSend);
    }
  }

  /** A party outside the protocol, or one that joins or leaves it, leaves the rest as it is. */
  lemma CoreQuiet(s: State, s': State, t: Tid)
    requires Core(s) && t < |s.parties| && |s'.parties| == |s.parties|
    requires s' == s.(parties := s.parties[t := s'.parties[t]], send := s'.send, recv := s'.recv, sync := s'.sync)
    requires s'.send.count == s.send.count && s'.recv.count == s.recv.count && s'.sync.count == s.sync.count
    requires var p, p' := s.parties[t], s'.parties[t];
             && p.Sender? == p'.Sender? && !Holder(p) && !Holder(p') && !Sending(p) && !Sending(p')
             && (p'.Sender? ==> p'.spc == SIdle || (p'.spc in {SWantSend, SInSend} && p'.count == |p'.data|))
             && (p'.Receiver? ==> p'.rpc in {RIdle, RWantRecv, RInRecv})
    ensures Core(s')
  {
    assert Slot(s') by { hide Offer, Acks, History; }
    assert Outstanding(s') == Outstanding(s) && Copied(s') == Copied(s);
    assert Offer(s') by { hide Acks, History; }
    assert History(s') by { hide Acks, Offer, Slot; }
    QuietAcks(s, s', t);
  }

  lemma QuietAcks(s: State, s': State, t: Tid)
    requires Acks(s) && t < |s.parties| && |s'.parties| == |s.parties| && Outstanding(s') == Outstanding(s)
    requires s' == s.(parties := s.parties[t := s'.parties[t]], send := s'.send, recv := s'.recv, sync := s'.sync)
    requires s'.sync.count == s.sync.count && !Sending(s.parties[t]) && !Sending(s'.parties[t])
    requires s'.parties[t].Sender? == s.parties[t].Sender?
    requires s'.parties[t].Sender? ==>
        s'.parties[t].spc == SIdle
        || (s'.parties[t].spc in {SWantSend, SInSend} && s'.parties[t].count == |s'.parties[t].data|)
    ensures Acks(s')
  {
    hide Outstanding;
    if s.sync.count == 1 {
      var u :| 0 <= u < |s.parties| && s.parties[u].Sender? && s.parties[u].spc == SWantSync;
      assert s'.parties[u] == s.parties[u];
    }
  }

  lemma SameCounts(s: State, t: Tid)
    requires s.send.count <= 0
    ensures Wait(s.send, t).0.count == s.send.count
  {
  }

  /** When the send semaphore is passed, no sender has still to take its sync token: it would be
      the second one past that semaphore. */
  lemma NoAckLeft(s: State, s': State, t: Tid)
    requires Acks(s) && Exclusive(s') && t < |s.parties| && s.parties[t].Sender? && s.parties[t].spc == SWantSend
    requires s'.parties == s.parties[t := s.parties[t].(spc := SSetPtr)]
    ensures s.sync.count == 0
  {
    hide Exclusive;
    if s.sync.count == 1 {
      var u :| 0 <= u < |s.parties| && s.parties[u].Sender? && s.parties[u].spc == SWantSync;
      TheSameSender(s', u, t);
    }
  }

  lemma TheSameSender(s: State, t: Tid, u: Tid)
    requires Exclusive(s) && t < |s.parties| && u < |s.parties| && Sending(s.parties[t]) && Sending(s.parties[u])
    ensures t == u
  {
  }

  lemma CoreSWantSend(s: State, t: Tid)
    requires Core(s) && Exclusive(s) && Enabled(s, Run(t)) && s.parties[t].Sender? && s.parties[t].spc == SWantSend
    requires Exclusive(Apply(s, Run(t)))
    ensures Core(Apply(s, Run(t)))
  {
    if s.send.count <= 0 {
      SameCounts(s, t);
      SendBlocks(s, t);
    } else {
      SendPasses(s, t);
    }
  }

  lemma SendBlocks(s: State, t: Tid)
    requires Core(s) && Enabled(s, Run(t)) && s.parties[t].Sender? && s.parties[t].spc == SWantSend && s.send.count <= 0
    requires Wait(s.send, t).0.count == s.send.count
    ensures Core(Apply(s, Run(t)))
  {
    var s' := Set(s.(send := Wait(s.send, t).0), t, s.parties[t].(spc := SInSend));
    assert Apply(s, Run(t)) == s';
    hide Wait;
    assert s.parties[t].count == |s.parties[t].data|;
    hide Core, Apply, Enabled, SenderStep;
    CoreQuiet(s, s', t);
  }

  lemma SendPasses(s: State, t: Tid)
    requires Core(s) && Enabled(s, Run(t)) && s.parties[t].Sender? && s.parties[t].spc == SWantSend && s.send.count > 0
    requires Exclusive(Apply(s, Run(t)))
    ensures Core(Apply(s, Run(t)))
  {
    var s', p := Apply(s, Run(t)), s.parties[t];
    assert s' == Set(s.(send := s.send.(count := s.send.count - 1)), t, p.(spc := SSetPtr)).(owner := Held(t));
    hide Apply, Enabled, SenderStep, Exclusive;
    assert s.owner == Free && !Outstanding(s) && !Outstanding(s') && !Copied(s');
    NoAckLeft(s, s', t);
    assert Slot(s') by { hide Offer, Acks, History; }
    assert Offer(s');
    assert Acks(s') by { hide Offer, History, Slot; }
    assert History(s') by { hide Acks, Slot; }
  }

  lemma CoreSSetPtr(s: State, t: Tid)
    requires Core(s) && Exclusive(s) && Enabled(s, Run(t)) && s.parties[t].Sender? && s.parties[t].spc == SSetPtr
    requires Exclusive(Apply(s, Run(t)))
    ensures Core(Apply(s, Run(t)))
  {
  }

  lemma CoreSSetSize(s: State, t: Tid)
    requires Core(s) && Exclusive(s) && Enabled(s, Run(t)) && s.parties[t].Sender? && s.parties[t].spc == SSetSize
    requires Exclusive(Apply(s, Run(t)))
    ensures Core(Apply(s, Run(t)))
  {
  }

  lemma CoreSSignalRecv(s: State, t: Tid)
    requires Core(s) && Exclusive(s) && Enabled(s, Run(t)) && s.parties[t].Sender? && s.parties[t].spc == SSignalRecv
    requires s.recv.queue != [] ==>
        s.recv.queue[0] < |s.parties| && s.recv.count == 0 && s.parties[s.recv.queue[0]].Receiver?
        && s.parties[s.recv.queue[0]].rpc == RInRecv
    requires Exclusive(Apply(s, Run(t)))
    ensures Core(Apply(s, Run(t)))
  {
    var s', p := Apply(s, Run(t)), s.parties[t].(spc := SWantSync, turn := |s.offers|);
    assert s.owner == Held(t) && !Outstanding(s) && !Copied(s);
    if s.recv.queue == [] {
      assert s' == Set(s.(recv := s.recv.(count := s.recv.count + 1)), t, p)
                   .(owner := Filled, offers := s.offers + [p.data]);
    } else {
      var u := s.recv.queue[0];
      assert s' == Set(Set(s.(recv := s.recv.(queue := s.recv.queue[1..])), t, p), u, s.parties[u].(rpc := RRead))
                   .(owner := Held(u), offers := s.offers + [p.data]);
    }
    hide Apply, Enabled, SenderStep;
    assert Outstanding(s') && !Copied(s');
    assert Slot(s') by { hide Offer, Acks, History, Exclusive; }
    assert Offer(s') by { hide History, Exclusive; }
    assert Acks(s') by { hide Offer, History, Slot; }
    assert History(s') by { hide Acks, Slot, Exclusive; }
  }

  lemma CoreSWantSync(s: State, t: Tid)
    requires Core(s) && Exclusive(s) && Enabled(s, Run(t)) && s.parties[t].Sender? && s.parties[t].spc == SWantSync
    requires Exclusive(Apply(s, Run(t)))
    ensures Core(Apply(s, Run(t)))
  {
    var s', p := Apply(s, Run(t)), s.parties[t];
    var s1 := s.(sync := Wait(s.sync, t).0);
    assert s' == Set(s1, t, p.(spc := if s.sync.count > 0 then SReturn else SInSync));
    hide Apply, Enabled, SenderStep;
    assert Outstanding(s') == Outstanding(s) && Copied(s') == Copied(s);
    if s.sync.count <= 0 {
      assert Outstanding(s);
    }
    assert Slot(s');
    assert History(s');
    assert Offer(s');
    assert Acks(s');
  }

  lemma CoreSReturn(s: State, t: Tid)
    requires Core(s) && Exclusive(s) && Enabled(s, Run(t)) && s.parties[t].Sender? && s.parties[t].spc == SReturn
    requires Exclusive(Apply(s, Run(t)))
    ensures Core(Apply(s, Run(t)))
  {
    CoreQuiet(s, Apply(s, Run(t)), t);
  }

  lemma CoreRWantRecv(s: State, t: Tid)
    requires Core(s) && Exclusive(s) && Enabled(s, Run(t)) && s.parties[t].Receiver? && s.parties[t].rpc == RWantRecv
    requires Exclusive(Apply(s, Run(t)))
    ensures Core(Apply(s, Run(t)))
  {
    if s.recv.count <= 0 {
      CoreQuiet(s, Apply(s, Run(t)), t);
    } else {
      ReceivePasses(s, t);
    }
  }

  lemma ReceivePasses(s: State, t: Tid)
    requires Core(s) && Enabled(s, Run(t)) && s.parties[t].Receiver? && s.parties[t].rpc == RWantRecv
        && s.recv.count > 0
    ensures Core(Apply(s, Run(t)))
  {
    var s', p := Apply(s, Run(t)), s.parties[t];
    assert s' == Set(s.(recv := s.recv.(count := s.recv.count - 1)), t, p.(rpc := RRead)).(owner := Held(t));
    hide Apply, Enabled, ReceiverStep;
    assert s.owner == Filled && s'.owner == Held(t);
    assert Outstanding(s') && !Copied(s');
    assert Slot(s') by { hide Offer, Acks, History; }
    assert Offer(s') by { hide Acks, History; }
    assert Acks(s') by { hide Offer, History, Slot; }
    assert History(s') by { hide Acks, Slot, Offer; }
  }

  lemma CoreRRead(s: State, t: Tid)
    requires Core(s) && Exclusive(s) && Enabled(s, Run(t)) && s.parties[t].Receiver? && s.parties[t].rpc == RRead
    requires Exclusive(Apply(s, Run(t)))
    ensures Core(Apply(s, Run(t)))
  {
  }

  lemma CoreRCut(s: State, t: Tid)
    requires Core(s) && Exclusive(s) && Enabled(s, Run(t)) && s.parties[t].Receiver? && s.parties[t].rpc == RCut
    requires Exclusive(Apply(s, Run(t)))
    ensures Core(Apply(s, Run(t)))
  {
  }

  lemma CoreRStore(s: State, t: Tid)
    requires Core(s) && Exclusive(s) && Enabled(s, Run(t)) && s.parties[t].Receiver? && s.parties[t].rpc == RStore
    requires Exclusive(Apply(s, Run(t)))
    ensures Core(Apply(s, Run(t)))
  {
  }

  lemma CoreRCopy(s: State, t: Tid)
    requires Core(s) && Exclusive(s) && Enabled(s, Run(t)) && s.parties[t].Receiver? && s.parties[t].rpc == RCopy
    requires Exclusive(Apply(s, Run(t)))
    ensures Core(Apply(s, Run(t)))
  {
    var s', p := Apply(s, Run(t)), s.parties[t];
    var bytes := s.parties[s.ptr].data[..p.n];
    assert s' == Set(s, t, p.(rpc := RSignalSync, buf := bytes,
        turn := |s.takes|)).(takes := s.takes + [Take(p.cap, bytes)]);
    assert s.owner == Held(t) && Outstanding(s) && !Copied(s) && Outstanding(s') && Copied(s');
    hide Apply, Enabled, ReceiverStep, Exclusive;
    assert Slot(s') by { hide Offer, Acks, History; }
    assert Offer(s') by { hide Acks, History; }
    assert Acks(s') by { hide Offer, History, Slot; }
    assert History(s') by { hide Acks, Slot; }
  }

  lemma CoreRSignalSync(s: State, t: Tid)
    requires Core(s) && Exclusive(s) && Enabled(s, Run(t)) && s.parties[t].Receiver? && s.parties[t].rpc == RSignalSync
    requires s.sync.queue != [] ==>
        s.sync.queue[0] < |s.parties| && s.sync.count == 0 && s.parties[s.sync.queue[0]].Sender?
        && s.parties[s.sync.queue[0]].spc == SInSync
    requires s.sync.queue == [] ==> forall u :: 0 <= u < |s.parties| ==> Where(s.parties[u]) != AtSync
    requires Exclusive(Apply(s, Run(t)))
    ensures Core(Apply(s, Run(t)))
  {
    var s', p := Apply(s, Run(t)), s.parties[t].(rpc := RSignalSend);
    var w := s.ptr;
    assert s.owner == Held(t) && Outstanding(s) && Copied(s) && Sending(s.parties[w]);
    assert forall u :: 0 <= u < |s.parties| && Sending(s.parties[u]) ==> u == w;
    if s.sync.queue == [] {
      assert s' == Set(s.(sync := s.sync.(count := s.sync.count + 1)), t, p);
      assert s.parties[w].spc == SWantSync by { assert Where(s.parties[w]) != AtSync; }
    } else {
      assert s.sync.queue[0] == w;
      assert s' == Set(Set(s.(sync := s.sync.(queue := s.sync.queue[1..])), t, p), w, s.parties[w].(spc := SReturn));
    }
    hide Apply, Enabled, ReceiverStep, Exclusive;
    SignalledSync(s, s', t, w);
  }

  /** With the message copied and its sender told so, nothing is outstanding. */
  lemma SignalledSync(s: State, s': State, t: Tid, w: Tid)
    requires Core(s) && t < |s.parties| && s.parties[t].Receiver? && s.parties[t].rpc == RSignalSync
        && s.owner == Held(t) && w == s.ptr
    requires forall u :: 0 <= u < |s.parties| && Sending(s.parties[u]) ==> u == w
    requires var p := s.parties[t].(rpc := RSignalSend);
             || (s' == Set(s.(sync := s.sync.(count := s.sync.count + 1)), t, p) && w < |s.parties|
                  && s.parties[w].Sender? && s.parties[w].spc == SWantSync)
             || (s.sync.queue != [] && w < |s.parties| && s.parties[w].Sender?
                 && s' == Set(Set(s.(sync := s.sync.(queue := s.sync.queue[1..])), t, p), w,
                      s.parties[w].(spc := SReturn)))
    ensures Core(s')
  {
    assert Outstanding(s) && Copied(s) && !Outstanding(s') && !Copied(s');
    assert Acked(s', s.parties[w]);
    assert Slot(s') by { hide Acks, History, Offer; }
    assert Offer(s');
    assert History(s') by { hide Acks, Slot; }
    assert Acks(s') by { hide History; }
  }

  lemma CoreRSignalSend(s: State, t: Tid)
    requires Core(s) && Exclusive(s) && Enabled(s, Run(t)) && s.parties[t].Receiver? && s.parties[t].rpc == RSignalSend
    requires s.send.queue != [] ==>
        s.send.queue[0] < |s.parties| && s.send.count == 0 && s.parties[s.send.queue[0]].Sender?
        && s.parties[s.send.queue[0]].spc == SInSend
    requires Exclusive(Apply(s, Run(t)))
    ensures Core(Apply(s, Run(t)))
  {
    var s', p := Apply(s, Run(t)), s.parties[t].(rpc := RReturn);
    assert s.owner == Held(t) && !Outstanding(s) && !Copied(s);
    if s.send.queue == [] {
      assert s' == Set(s.(send := s.send.(count := s.send.count + 1)), t, p).(owner := Free);
    } else {
      var w := s.send.queue[0];
      assert s' == Set(Set(s.(send := s.send.(queue := s.send.queue[1..])), t, p), w,
          s.parties[w].(spc := SSetPtr)).(owner := Held(w));
    }
    hide Apply, Enabled, ReceiverStep;
    assert !Outstanding(s') && !Copied(s');
    assert Slot(s') by { hide Offer, Acks, History, Exclusive; }
    assert Offer(s') by { hide Acks, History, Slot, Exclusive; }
    assert Acks(s') by { hide Offer, History, Slot; }
    assert History(s') by { hide Acks, Slot, Exclusive; }
  }

  lemma CoreRReturn(s: State, t: Tid)
    requires Core(s) && Exclusive(s) && Enabled(s, Run(t)) && s.parties[t].Receiver? && s.parties[t].rpc == RReturn
    requires Exclusive(Apply(s, Run(t)))
    ensures Core(Apply(s, Run(t)))
  {
    CoreQuiet(s, Apply(s, Run(t)), t);
  }

  lemma CoreStart(s: State, l: Label)
    requires Core(s) && Enabled(s, l) && !l.Run?
    ensures Core(Apply(s, l))
  {
    CoreQuiet(s, Apply(s, l), l.t);
  }

  // ---------------------------------------------------------------- every step keeps the invariant

  lemma StepInv(s: State, l: Label)
    requires Inv(s) && Exclusive(s) && Enabled(s, l) && Exclusive(Apply(s, l))
    ensures Inv(Apply(s, l))
  {
    var t := l.t;
    var p := s.parties[t];
    if !l.Run? {
      CoreStart(s, l);
      QueuesPlain(s, t, Apply(s, l).parties[t]);
    } else if p.Sender? {
      SenderInv(s, t);
    } else {
      ReceiverInv(s, t);
    }
  }

  lemma SenderInv(s: State, t: Tid)
    requires Inv(s) && Exclusive(s) && Enabled(s, Run(t)) && Exclusive(Apply(s, Run(t))) && s.parties[t].Sender?
    ensures Inv(Apply(s, Run(t)))
  {
    hide Slot, Offer, Acks, History, Exclusive;
    match s.parties[t].spc
    case SWantSend => QueuesWait(s, Run(t)); CoreSWantSend(s, t);
    case SSetPtr => QueuesPlain(s, t, s.parties[t].(spc := SSetSize)); CoreSSetPtr(s, t);
    case SSetSize => QueuesPlain(s, t, s.parties[t].(spc := SSignalRecv)); CoreSSetSize(s, t);
    case SSignalRecv => QueuesSignal(s, Run(t)); CoreSSignalRecv(s, t);
    case SWantSync => QueuesWait(s, Run(t)); CoreSWantSync(s, t);
    case SReturn => QueuesPlain(s, t, s.parties[t].(spc := SIdle)); CoreSReturn(s, t);
    case _ => assert false;
  }

  lemma ReceiverInv(s: State, t: Tid)
    requires Inv(s) && Exclusive(s) && Enabled(s, Run(t)) && Exclusive(Apply(s, Run(t))) && s.parties[t].Receiver?
    ensures Inv(Apply(s, Run(t)))
  {
    hide Slot, Offer, Acks, History, Exclusive;
    var p' := Apply(s, Run(t)).parties[t];
    match s.parties[t].rpc
    case RWantRecv => QueuesWait(s, Run(t)); CoreRWantRecv(s, t);
    case RRead => QueuesPlain(s, t, p'); CoreRRead(s, t);
    case RCut => QueuesPlain(s, t, p'); CoreRCut(s, t);
    case RStore =>
      var w := s.parties[s.size].(count := s.parties[t].n);
      QueuesStore(s, s.size, w);
      QueuesPlain(Set(s, s.size, w), t, s.parties[t].(rpc := RCopy));
      CoreRStore(s, t);
    case RCopy => QueuesPlain(s, t, p'); CoreRCopy(s, t);
    case RSignalSync => QueuesSignal(s, Run(t)); CoreRSignalSync(s, t);
    case RSignalSend => QueuesSignal(s, Run(t)); CoreRSignalSend(s, t);
    case RReturn => QueuesPlain(s, t, p'); CoreRReturn(s, t);
    case _ => assert false;
  }

  /** Writing a party's variable moves nobody between queues. */
  lemma QueuesStore(s: State, u: Tid, p: Party)
    requires Queues(s) && u < |s.parties| && Where(s.parties[u]) == Where(p)
    ensures Queues(Set(s, u, p))
  {
  }

  // ---------------------------------------------------------------- runs

  ghost predicate Runs(s: State, ls: seq<Label>)
    decreases |ls|
  {
    ls == [] || (Enabled(s, ls[0]) && Runs(Apply(s, ls[0]), ls[1..]))
  }

  function Exec(s: State, ls: seq<Label>): State
    requires Runs(s, ls)
    decreases |ls|
  {
    if ls == [] then s else Exec(Apply(s, ls[0]), ls[1..])
  }

  /** No state of the run has two senders between Sem_wait(send) and the end of Sem_wait(sync). */
  ghost predicate ExclusiveRun(s: State, ls: seq<Label>)
    requires Runs(s, ls)
    decreases |ls|
  {
    Exclusive(s) && (ls == [] || ExclusiveRun(Apply(s, ls[0]), ls[1..]))
  }

  lemma {:induction false} RunInv(s: State, ls: seq<Label>)
    requires Inv(s) && Runs(s, ls) && ExclusiveRun(s, ls)
    ensures Inv(Exec(s, ls))
    decreases |ls|
  {
    if ls != [] {
      assert Exclusive(Apply(s, ls[0]));
      StepInv(s, ls[0]);
      RunInv(Apply(s, ls[0]), ls[1..]);
    }
  }

  function Cut(msg: seq<byte>, room: nat): seq<byte>
  {
    msg[..Min(room, |msg|)]
  }

  /** What a client relies on: messages arrive in the order they were put in, cut to the room
      of their receiver; both calls return the length of what was copied; and a send is at its
      return only once its own message has been copied. */
  ghost predicate Delivers(s: State)
  {
    && |s.takes| <= |s.offers| <= |s.takes| + 1
    && (forall k :: 0 <= k < |s.takes| ==> s.takes[k].bytes == Cut(s.offers[k], s.takes[k].cap))
    && (forall t :: 0 <= t < |s.parties| && s.parties[t].Sender? && s.parties[t].spc == SReturn ==>
          var w := s.parties[t];
          w.turn < |s.takes| && w.data == s.offers[w.turn] && w.count == |s.takes[w.turn].bytes|)
    && (forall t :: 0 <= t < |s.parties| && s.parties[t].Receiver? && s.parties[t].rpc == RReturn ==>
          var r := s.parties[t];
          r.turn < |s.takes| && s.takes[r.turn] == Take(r.cap, r.buf) && r.n == |r.buf|)
  }

  function Holders(s: State): set<Tid>
  {
    set t | 0 <= t < |s.parties| && Holder(s.parties[t])
  }

  lemma TokenConservation(s: State)
    requires Inv(s)
    ensures s.send.count + s.recv.count + |Holders(s)| == 1
  {
    if s.owner.Held? {
      assert Holders(s) == {s.owner.who};
    } else {
      assert Holders(s) == {};
    }
  }

  /** The exact reach of the protocol: any schedule, any number of parties, as long as no two
      senders are past the send semaphore at once. */
  lemma ExclusiveRunsDeliver(s: State, ls: seq<Label>)
    requires Initial(s) && Runs(s, ls) && ExclusiveRun(s, ls)
    ensures Delivers(Exec(s, ls))
    ensures var e := Exec(s, ls); e.send.count + e.recv.count + |Holders(e)| == 1
  {
    InitialInv(s);
    RunInv(s, ls);
    TokenConservation(Exec(s, ls));
  }

  // ---------------------------------------------------------------- one sender, any preemption

  ghost predicate OneSender(s: State)
  {
    forall t, u ::
        0 <= t < |s.parties| && 0 <= u < |s.parties| && s.parties[t].Sender? && s.parties[u].Sender? ==> t == u
  }

  /** The steps a party still has to make in its call, at most. */
  function Left(p: Party): nat
  {
    match p
    case Sender(pc, _, _, _) =>
      (match pc
       case SWantSend => 6
       case SInSend => 5
       case SSetPtr => 5
       case SSetSize => 4
       case SSignalRecv => 3
       case SWantSync => 2
       case SInSync => 1
       case SReturn => 1
       case SIdle => 0)
    case Receiver(pc, _, _, _, _) =>
      (match pc
       case RWantRecv => 8
       case RInRecv => 7
       case RRead => 7
       case RCut => 6
       case RStore => 5
       case RCopy => 4
       case RSignalSync => 3
       case RSignalSend => 2
       case RReturn => 1
       case RIdle => 0)
  }

  /** Same parties, in the same roles. */
  ghost predicate SameRoles(ps: seq<Party>, qs: seq<Party>)
  {
    |qs| == |ps| && forall t :: 0 <= t < |ps| ==> qs[t].Sender? == ps[t].Sender?
  }

  /** Party t comes nearer to the end of its call, no other is taken back, and all keep their roles. */
  ghost predicate Onward(ps: seq<Party>, qs: seq<Party>, t: Tid)
  {
    && SameRoles(ps, qs) && t < |ps| && Left(qs[t]) < Left(ps[t])
    && forall u :: 0 <= u < |ps| ==> Left(qs[u]) <= Left(ps[u])
  }

  lemma SetOnward(ps: seq<Party>, t: Tid, p: Party)
    requires t < |ps| && p.Sender? == ps[t].Sender? && Left(p) < Left(ps[t])
    ensures Onward(ps, ps[t := p], t)
  {
    hide Left;
  }

  /** Waking takes nobody back. */
  lemma WakeOnward(ps: seq<Party>, qs: seq<Party>, t: Tid, w: Option<Tid>)
    requires Onward(ps, qs, t)
    ensures Onward(ps, Wake(qs, w), t)
  {
    if w.Some? && w.value < |qs| {
      assert Left(Awake(qs[w.value])) <= Left(qs[w.value]);
      hide Left, Awake;
    }
  }

  /** Neither does storing into a sender's variable. */
  lemma StoreOnward(ps: seq<Party>, t: Tid, p: Party, u: Tid, count: nat)
    requires t < |ps| && u < |ps| && ps[u].Sender? && p.Receiver? && ps[t].Receiver? && Left(p) < Left(ps[t])
    ensures Onward(ps, ps[u := ps[u].(count := count)][t := p], t)
  {
    assert Left(ps[u].(count := count)) == Left(ps[u]);
    hide Left;
  }

  lemma SenderOnward(s: State, t: Tid)
    requires Enabled(s, Run(t)) && s.parties[t].Sender?
    ensures Onward(s.parties, SenderStep(s, t).parties, t)
  {
    var p, q := s.parties[t], SenderStep(s, t);
    hide Wait, Signal, Onward, Wake;
    if p.spc == SSignalRecv {
      SetOnward(s.parties, t, p.(spc := SWantSync, turn := |s.offers|));
      WakeOnward(s.parties, s.parties[t := p.(spc := SWantSync, turn := |s.offers|)], t, Signal(s.recv).1);
    } else {
      assert q.parties == s.parties[t := q.parties[t]];
      SetOnward(s.parties, t, q.parties[t]);
    }
  }

  lemma ReceiverOnward(s: State, t: Tid)
    requires Enabled(s, Run(t)) && s.parties[t].Receiver?
    ensures Onward(s.parties, ReceiverStep(s, t).parties, t)
  {
    var p := s.parties[t];
    hide Wait, Signal, Onward, Wake;
    match p.rpc
    case RSignalSync =>
      SetOnward(s.parties, t, p.(rpc := RSignalSend));
      WakeOnward(s.parties, s.parties[t := p.(rpc := RSignalSend)], t, Signal(s.sync).1);
    case RSignalSend =>
      SetOnward(s.parties, t, p.(rpc := RReturn));
      WakeOnward(s.parties, s.parties[t := p.(rpc := RReturn)], t, Signal(s.send).1);
    case RStore => StoreOnward(s.parties, t, p.(rpc := RCopy), s.size, p.n);
    case RWantRecv => SetOnward(s.parties, t, ReceiverStep(s, t).parties[t]);
    case RRead => SetOnward(s.parties, t, ReceiverStep(s, t).parties[t]);
    case RCut => SetOnward(s.parties, t, ReceiverStep(s, t).parties[t]);
    case RCopy => SetOnward(s.parties, t, ReceiverStep(s, t).parties[t]);
    case RReturn => SetOnward(s.parties, t, ReceiverStep(s, t).parties[t]);
    case RIdle =>
    case RInRecv =>
  }

  lemma KeepsRoles(s: State, l: Label)
    requires Enabled(s, l)
    ensures SameRoles(s.parties, Apply(s, l).parties)
  {
    hide SenderStep, ReceiverStep;
    match l
    case StartSend(_, _) =>
    case StartReceive(_, _) =>
    case Run(t) => if s.parties[t].Sender? { SenderOnward(s, t); } else { ReceiverOnward(s, t); }
  }

  lemma {:induction false} OneSenderExclusive(s: State, ls: seq<Label>)
    requires OneSender(s) && Runs(s, ls)
    ensures ExclusiveRun(s, ls)
    decreases |ls|
  {
    if ls != [] {
      KeepsRoles(s, ls[0]);
      OneSenderExclusive(Apply(s, ls[0]), ls[1..]);
    }
  }

  lemma OneSenderDelivers(s: State, ls: seq<Label>)
    requires Initial(s) && OneSender(s) && Runs(s, ls)
    ensures Delivers(Exec(s, ls))
  {
    OneSenderExclusive(s, ls);
    ExclusiveRunsDeliver(s, ls);
  }

  // ---------------------------------------------------------------- many senders, no preemption

  /** Threads change only when the running one is blocked, or outside any channel call. */
  ghost predicate Cooperative(s: State, cur: Tid, ls: seq<Label>)
    requires Runs(s, ls)
    decreases |ls|
  {
    ls == [] ||
    (var l := ls[0];
     && (l.t == cur || cur >= |s.parties| || Idle(s.parties[cur]) || Blocked(s.parties[cur]))
     && Cooperative(Apply(s, l), l.t, ls[1..]))
  }

  /** Where a thread that is not running can be. */
  predicate AtSwitch(p: Party)
  {
    match p
    case Sender(pc, _, _, _) => pc in {SIdle, SInSend, SInSync, SSetPtr, SReturn}
    case Receiver(pc, _, _, _, _) => pc in {RIdle, RInRecv, RRead}
  }

  ghost predicate OthersAtSwitch(s: State, cur: Tid)
  {
    forall t :: 0 <= t < |s.parties| && t != cur ==> AtSwitch(s.parties[t])
  }

  lemma CooperativeStep(s: State, l: Label)
    requires Inv(s) && Exclusive(s) && Enabled(s, l) && OthersAtSwitch(s, l.t)
    ensures Exclusive(Apply(s, l)) && OthersAtSwitch(Apply(s, l), l.t)
  {
    if l.Run? {
      if s.parties[l.t].Sender? { CooperativeSender(s, l.t); } else { CooperativeReceiver(s, l.t); }
    }
  }

  /** Only the holder of the slot is Sending unless a message is in it. */
  lemma NobodyElseSending(s: State, cur: Tid)
    requires Slot(s) && Acks(s) && OthersAtSwitch(s, cur) && !Outstanding(s)
    ensures forall u :: 0 <= u < |s.parties| && u != cur && Sending(s.parties[u]) ==> s.owner == Held(u)
  {
  }

  lemma CooperativeSender(s: State, t: Tid)
    requires Slot(s) && Acks(s) && Queues(s) && Exclusive(s) && Enabled(s, Run(t)) && OthersAtSwitch(s, t)
        && s.parties[t].Sender?
    ensures Exclusive(Apply(s, Run(t))) && OthersAtSwitch(Apply(s, Run(t)), t)
  {
    if s.parties[t].spc == SSignalRecv {
      var s' := Apply(s, Run(t));
      if s.recv.queue != [] { HeadWaits(s); }
      hide Slot, Acks, Queues;
      assert forall u :: 0 <= u < |s.parties| && u != t ==> s'.parties[u] == s.parties[u] || s'.parties[u].Receiver?;
      hide Apply, Enabled;
    } else {
      if s.parties[t].spc == SWantSend && s.send.count > 0 {
        NobodyElseSending(s, t);
      }
      hide Slot, Acks, Queues;
      OwnStep(s, t);
      hide Apply, Enabled;
    }
  }

  /** A sender's step that signals nobody changes that sender only. */
  lemma OwnStep(s: State, t: Tid)
    requires Enabled(s, Run(t)) && s.parties[t].Sender? && s.parties[t].spc != SSignalRecv
    ensures var s', p := Apply(s, Run(t)), s.parties[t];
            && |s'.parties| == |s.parties| && s'.parties == s.parties[t := s'.parties[t]] && s'.parties[t].Sender?
            && (Sending(s'.parties[t]) ==> Sending(p) || (p.spc == SWantSend && s.send.count > 0))
  {
  }

  /** A receiver's step outside the semaphores changes nobody else but for the count it stores. */
  lemma ReceiverLocal(s: State, t: Tid)
    requires Slot(s) && Enabled(s, Run(t)) && s.parties[t].Receiver? && s.parties[t].rpc !in {RSignalSync, RSignalSend}
    ensures var s' := Apply(s, Run(t));
            && |s'.parties| == |s.parties| && s'.parties[t].Receiver? && s'.offers == s.offers
            && Outstanding(s') == Outstanding(s)
            && forall u :: 0 <= u < |s.parties| && u != t ==>
                 || s'.parties[u] == s.parties[u]
                 || (s.parties[u].Sender? && s'.parties[u] == s.parties[u].(count := s.parties[t].n)
                     && s.parties[t].rpc == RStore && u == s.size)
  {
  }

  lemma CooperativeReceiver(s: State, t: Tid)
    requires Slot(s) && Acks(s) && Queues(s) && Exclusive(s) && Enabled(s, Run(t)) && OthersAtSwitch(s, t)
        && s.parties[t].Receiver?
    ensures Exclusive(Apply(s, Run(t))) && OthersAtSwitch(Apply(s, Run(t)), t)
  {
    var pc := s.parties[t].rpc;
    if pc == RSignalSend {
      CooperativeSignalSend(s, t);
    } else if pc == RSignalSync {
      CooperativeSignalSync(s, t);
    } else {
      ReceiverLocal(s, t);
      hide Slot, Acks, Queues, Apply, Enabled;
    }
  }

  lemma CooperativeSignalSync(s: State, t: Tid)
    requires Queues(s) && Exclusive(s) && Enabled(s, Run(t)) && OthersAtSwitch(s, t)
    requires s.parties[t].Receiver? && s.parties[t].rpc == RSignalSync
    ensures Exclusive(Apply(s, Run(t))) && OthersAtSwitch(Apply(s, Run(t)), t)
  {
    var s' := Apply(s, Run(t));
    forall u | 0 <= u < |s.parties| && u != t
      ensures s'.parties[u] == s.parties[u] || (s'.parties[u].Sender? && s'.parties[u].spc == SReturn) {}
  }

  lemma CooperativeSignalSend(s: State, t: Tid)
    requires Slot(s) && Acks(s) && Queues(s) && Exclusive(s) && Enabled(s, Run(t)) && OthersAtSwitch(s, t)
    requires s.parties[t].Receiver? && s.parties[t].rpc == RSignalSend
    ensures Exclusive(Apply(s, Run(t))) && OthersAtSwitch(Apply(s, Run(t)), t)
  {
    var s' := Apply(s, Run(t));
    NobodyElseSending(s, t);
    forall u | 0 <= u < |s.parties| && u != t
      ensures s'.parties[u] == s.parties[u] || (s.send.queue != [] && u == s.send.queue[0] && s'.parties[u].Sender?
          && s'.parties[u].spc == SSetPtr) {}
    forall u | 0 <= u < |s.parties| && Sending(s'.parties[u]) ensures s.send.queue != [] && u == s.send.queue[0] {
      assert !Sending(s.parties[u]);
    }
  }

  lemma {:induction false} CooperativeExclusive(s: State, cur: Tid, ls: seq<Label>)
    requires Inv(s) && Exclusive(s) && OthersAtSwitch(s, cur)
    requires Runs(s, ls) && Cooperative(s, cur, ls)
    ensures ExclusiveRun(s, ls)
    decreases |ls|
  {
    if ls != [] {
      assert OthersAtSwitch(s, ls[0].t);
      CooperativeStep(s, ls[0]);
      StepInv(s, ls[0]);
      CooperativeExclusive(Apply(s, ls[0]), ls[0].t, ls[1..]);
    }
  }

  lemma CooperativeDelivers(s: State, cur: Tid, ls: seq<Label>)
    requires Initial(s) && Runs(s, ls) && Cooperative(s, cur, ls)
    ensures Delivers(Exec(s, ls))
  {
    InitialInv(s);
    CooperativeExclusive(s, cur, ls);
    ExclusiveRunsDeliver(s, ls);
  }

  // ---------------------------------------------------------------- two senders, preemption

  /** One more step at the end of a run. */
  lemma {:induction false} Extend(s: State, ls: seq<Label>, e: State, l: Label) returns (ls': seq<Label>, e': State)
    requires Runs(s, ls) && Exec(s, ls) == e && Enabled(e, l)
    ensures e' == Apply(e, l) && Runs(s, ls') && Exec(s, ls') == e'
    ensures ls' == ls + [l]
    decreases |ls|
  {
    ls', e' := ls + [l], Apply(e, l);
    if ls != [] {
      var _, _ := Extend(Apply(s, ls[0]), ls[1..], e, l);
      assert ls'[1..] == ls[1..] + [l];
    } else {
      assert ls' == [l] && ls'[1..] == [];
    }
  }

  /** Party t has taken the send token for a message of one byte. */
  function Entered(e: State, t: Tid, b: byte): State
    requires t < |e.parties| && e.parties[t].Sender?
  {
    e.(send := Sem(0, []), owner := Held(t), parties := e.parties[t := Sender(SSetPtr, [b], 1, e.parties[t].turn)])
  }

  /** ... and has put it in; it is preempted before it waits on `sync`. */
  function Offered(e: State, t: Tid, b: byte): State
    requires t < |e.parties|
  {
    e.(ptr := t, size := t, send := Sem(0, []), recv := Sem(1, []), owner := Filled, offers := e.offers + [[b]],
       parties := e.parties[t := Sender(SWantSync, [b], 1, |e.offers|)])
  }

  lemma SendEnters(s: State, ls0: seq<Label>, e0: State, t: Tid, b: byte) returns (ls: seq<Label>)
    requires Runs(s, ls0) && Exec(s, ls0) == e0 && t < |e0.parties| && e0.parties[t].Sender? && Idle(e0.parties[t])
        && e0.send == Sem(1, [])
    ensures Runs(s, ls) && Exec(s, ls) == Entered(e0, t, b)
  {
    var e;
    ls, e := Extend(s, ls0, e0, StartSend(t, [b]));
    assert e.parties[t] == Sender(SWantSend, [b], 1, e0.parties[t].turn);
    ls, e := Extend(s, ls, e, Run(t));
  }

  lemma SendOffers(s: State, ls0: seq<Label>, e0: State, t: Tid, b: byte) returns (ls: seq<Label>)
    requires t < |e0.parties| && e0.parties[t].Sender? && e0.recv == Sem(0, [])
    requires Runs(s, ls0) && Exec(s, ls0) == Entered(e0, t, b)
    ensures Runs(s, ls) && Exec(s, ls) == Offered(e0, t, b)
  {
    var e;
    ls, e := Extend(s, ls0, Entered(e0, t, b), Run(t));
    ls, e := Extend(s, ls, e, Run(t));
    assert e.parties[t] == Sender(SSignalRecv, [b], 1, e0.parties[t].turn);
    ls, e := Extend(s, ls, e, Run(t));
  }

  /** Party r has the recv token and has read how long the message of party t is. */
  function Reading(e: State, r: Tid): State
    requires r < |e.parties| && e.parties[r].Receiver?
  {
    e.(recv := Sem(0, []), owner := Held(r),
        parties := e.parties[r := Receiver(RStore, 1, 1, e.parties[r].buf, e.parties[r].turn)])
  }

  lemma ReceiveReads(s: State, ls0: seq<Label>, e0: State, t: Tid, r: Tid, b: byte) returns (ls: seq<Label>)
    requires Runs(s, ls0) && Exec(s, ls0) == e0 && t < |e0.parties| && r < |e0.parties| && e0.recv == Sem(1, [])
        && e0.size == t
    requires e0.parties[t] == Sender(SWantSync, [b], 1, 0) && e0.parties[r].Receiver? && Idle(e0.parties[r])
    ensures Runs(s, ls) && Exec(s, ls) == Reading(e0, r)
  {
    var e;
    ls, e := Extend(s, ls0, e0, StartReceive(r, 1));
    ls, e := Extend(s, ls, e, Run(r));
    assert e == e0.(recv := Sem(0, []), owner := Held(r),
        parties := e0.parties[r := e0.parties[r].(rpc := RRead, cap := 1)]);
    ls, e := Extend(s, ls, e, Run(r));
    ls, e := Extend(s, ls, e, Run(r));
  }

  /** The message of party t is copied, and `sync` signalled while nobody waits on it. */
  function Taken1(e: State, r: Tid, b: byte): State
    requires r < |e.parties|
  {
    e.(recv := Sem(0, []), send := Sem(1, []), sync := Sem(1, []), owner := Free, takes := e.takes + [Take(1, [b])],
       parties := e.parties[r := Receiver(RReturn, 1, 1, [b], |e.takes|)])
  }

  lemma ReceiveCopies(s: State, ls0: seq<Label>, e0: State, t: Tid, r: Tid, b: byte) returns (ls: seq<Label>, e: State)
    requires t < |e0.parties| && r < |e0.parties| && e0.size == e0.ptr == t && e0.sync == Sem(0, [])
        && e0.send == Sem(0, [])
    requires e0.parties[t] == Sender(SWantSync, [b], 1, 0) && e0.parties[r].Receiver?
    requires Runs(s, ls0) && Exec(s, ls0) == Reading(e0, r)
    ensures Runs(s, ls) && Exec(s, ls) == e
    ensures e == Reading(e0, r).(takes := e0.takes + [Take(1, [b])],
        parties := e0.parties[r := Receiver(RSignalSync, 1, 1, [b], |e0.takes|)])
  {
    ls, e := Extend(s, ls0, Reading(e0, r), Run(r));
    assert e.parties[t] == e0.parties[t];
    ls, e := Extend(s, ls, e, Run(r));
    assert [b][..1] == [b];
    assert e.parties == e0.parties[r := Receiver(RSignalSync, 1, 1, [b], |e0.takes|)];
  }

  lemma ReceiveTakes(s: State, ls0: seq<Label>, e0: State, t: Tid, r: Tid, b: byte) returns (ls: seq<Label>)
    requires t < |e0.parties| && r < |e0.parties| && e0.size == e0.ptr == t && e0.sync == Sem(0, [])
        && e0.send == Sem(0, [])
    requires e0.parties[t] == Sender(SWantSync, [b], 1, 0) && e0.parties[r].Receiver?
    requires Runs(s, ls0) && Exec(s, ls0) == Reading(e0, r)
    ensures Runs(s, ls) && Exec(s, ls) == Taken1(e0, r, b)
  {
    var e;
    ls, e := ReceiveCopies(s, ls0, e0, t, r, b);
    ls, e := Extend(s, ls, e, Run(r));
    ls, e := Extend(s, ls, e, Run(r));
  }

  /** With two senders and a receiver the promise is false: sender t is preempted before it waits
      on `sync`; the receiver takes its message; sender u puts its own in and passes `sync` on the
      token meant for t, so that u is at its return although its message is still in the slot. */
  lemma PreemptedSendersFail(s: State, t: Tid, u: Tid, r: Tid) returns (ls: seq<Label>)
    requires Initial(s) && t < |s.parties| && u < |s.parties| && r < |s.parties| && t != u
    requires s.parties[t].Sender? && s.parties[u].Sender? && s.parties[r].Receiver?
    ensures Runs(s, ls) && !Delivers(Exec(s, ls))
  {
    ls := SendEnters(s, [], s, t, 1);
    ls := SendOffers(s, ls, s, t, 1);
    var e1 := Offered(s, t, 1);
    ls := ReceiveReads(s, ls, e1, t, r, 1);
    ls := ReceiveTakes(s, ls, e1, t, r, 1);
    var e2 := Taken1(e1, r, 1);
    ls := SendEnters(s, ls, e2, u, 2);
    ls := SendOffers(s, ls, e2, u, 2);
    ls := Steals(s, ls, Offered(e2, u, 2), u);
  }

  lemma Steals(s: State, ls0: seq<Label>, e0: State, u: Tid) returns (ls: seq<Label>)
    requires Runs(s, ls0) && Exec(s, ls0) == e0 && u < |e0.parties| && e0.sync == Sem(1, [])
    requires e0.parties[u].Sender? && e0.parties[u].spc == SWantSync && e0.parties[u].turn >= |e0.takes|
    ensures Runs(s, ls) && !Delivers(Exec(s, ls))
  {
    var e;
    ls, e := Extend(s, ls0, e0, Run(u));
    assert e.parties[u] == e0.parties[u].(spc := SReturn) && e.takes == e0.takes;
  }

  ghost predicate NoReceiver(s: State)
  {
    forall t :: 0 <= t < |s.parties| ==> s.parties[t].Sender?
  }

  /** A sender's step when no receiver waits changes that sender only. */
  lemma SenderMoves(s: State, t: Tid)
    requires Enabled(s, Run(t)) && s.parties[t].Sender? && s.recv.queue == []
    ensures var s', p := Apply(s, Run(t)), s.parties[t];
            && |s'.parties| == |s.parties| && s'.parties == s.parties[t := s'.parties[t]] && s'.parties[t].Sender?
            && s'.takes == s.takes
            && (Sending(s'.parties[t]) ==> Sending(p) || (p.spc == SWantSend && s.send.count > 0))
  {
  }

  lemma HeadWaits(s: State)
    requires Queues(s) && s.recv.queue != []
    ensures s.recv.queue[0] < |s.parties| && Where(s.parties[s.recv.queue[0]]) == AtRecv
  {
  }

  /** Without a receiver the first sender never gets past `sync`, so there is no second. */
  lemma AloneStep(s: State, l: Label)
    requires Inv(s) && Exclusive(s) && NoReceiver(s) && s.takes == [] && Enabled(s, l)
    ensures Exclusive(Apply(s, l)) && NoReceiver(Apply(s, l)) && Apply(s, l).takes == []
  {
    if l.Run? {
      AloneSender(s, l.t);
    } else {
      hide Inv;
    }
  }

  lemma AloneSender(s: State, t: Tid)
    requires Inv(s) && Exclusive(s) && NoReceiver(s) && s.takes == [] && Enabled(s, Run(t))
    ensures Exclusive(Apply(s, Run(t))) && NoReceiver(Apply(s, Run(t))) && Apply(s, Run(t)).takes == []
  {
    if s.recv.queue != [] { HeadWaits(s); }
    if s.parties[t].spc == SWantSend && s.send.count > 0 {
      assert s.owner == Free;
      forall u | 0 <= u < |s.parties| ensures !Sending(s.parties[u]) { NobodySends(s, u); }
    }
    hide Inv, Queues, Core, Apply, Sending;
    SenderMoves(s, t);
    hide Enabled;
    var s' := Apply(s, Run(t));
    assert forall u :: 0 <= u < |s.parties| && u != t ==> s'.parties[u] == s.parties[u];
  }

  lemma NobodySends(s: State, u: Tid)
    requires Slot(s) && Acks(s) && s.takes == [] && s.owner == Free && u < |s.parties| && NoReceiver(s)
    ensures !Sending(s.parties[u])
  {
    assert !Outstanding(s);
  }

  lemma {:induction false} AloneExclusive(s: State, ls: seq<Label>)
    requires Inv(s) && Exclusive(s) && NoReceiver(s) && s.takes == [] && Runs(s, ls)
    ensures ExclusiveRun(s, ls)
    decreases |ls|
  {
    if ls != [] {
      AloneStep(s, ls[0]);
      StepInv(s, ls[0]);
      AloneExclusive(Apply(s, ls[0]), ls[1..]);
    }
  }

  /** Exactly when a channel keeps its promise under arbitrary preemption: when it has at most one
      sender, or nobody to receive. */
  lemma DeliversExactly(s: State)
    requires Initial(s)
    ensures (forall ls :: Runs(s, ls) ==> Delivers(Exec(s, ls))) <==> OneSender(s) || NoReceiver(s)
  {
    InitialInv(s);
    if OneSender(s) {
      forall ls | Runs(s, ls) ensures Delivers(Exec(s, ls)) { OneSenderDelivers(s, ls); }
    } else if NoReceiver(s) {
      forall ls | Runs(s, ls) ensures Delivers(Exec(s, ls)) {
        AloneExclusive(s, ls);
        ExclusiveRunsDeliver(s, ls);
      }
    } else {
      var t, u :| 0 <= t < |s.parties| && 0 <= u < |s.parties| && s.parties[t].Sender? && s.parties[u].Sender?
          && t != u;
      var r :| 0 <= r < |s.parties| && !s.parties[r].Sender?;
      var ls := PreemptedSendersFail(s, t, u, r);
    }
  }

  // ---------------------------------------------------------------- progress and refinement

  /** The send of party w, its message in the slot, has not come back from its Sem_wait(sync). */
  predicate InProgress(s: State, w: Tid)
  {
    w < |s.parties| && s.parties[w].Sender? && s.parties[w].spc in {SWantSync, SInSync}
  }

  /** The pointers in the channel never dangle: what a receiver follows `size` or `ptr` to belongs to a
      send in progress, which stays so until the receiver signals it.  So a party that is not idle or
      blocked can go on. */
  lemma NeverDangles(s: State, t: Tid)
    requires Inv(s) && t < |s.parties| && !Idle(s.parties[t]) && !Blocked(s.parties[t])
    ensures Enabled(s, Run(t))
    ensures s.parties[t].Receiver? && s.parties[t].rpc in {RRead, RCut, RStore, RCopy, RSignalSync} ==>
        InProgress(s, s.size) && InProgress(s, s.ptr) && s.size == s.ptr
  {
  }

  /** While a send and a receive are in progress some party can go on. */
  lemma NeverStuck(s: State, t: Tid, u: Tid)
    requires Inv(s) && t < |s.parties| && u < |s.parties|
    requires s.parties[t].Sender? && !Idle(s.parties[t]) && s.parties[u].Receiver? && !Idle(s.parties[u])
    ensures exists v :: 0 <= v < |s.parties| && Enabled(s, Run(v))
  {
    if s.owner.Held? {
      NeverDangles(s, s.owner.who);
    } else if !Blocked(s.parties[t]) {
      NeverDangles(s, t);
    } else if !Blocked(s.parties[u]) {
      NeverDangles(s, u);
    } else {
      assert false;
    }
  }

  function TotalLeft(ps: seq<Party>): nat
  {
    if ps == [] then 0 else Left(ps[0]) + TotalLeft(ps[1..])
  }

  lemma {:induction false} TotalSmaller(ps: seq<Party>, qs: seq<Party>)
    requires |qs| == |ps| && forall t :: 0 <= t < |ps| ==> Left(qs[t]) <= Left(ps[t])
    ensures TotalLeft(qs) <= TotalLeft(ps)
    ensures (exists t :: 0 <= t < |ps| && Left(qs[t]) < Left(ps[t])) ==> TotalLeft(qs) < TotalLeft(ps)
  {
    if ps != [] {
      TotalSmaller(ps[1..], qs[1..]);
      if t :| 0 <= t < |ps| && Left(qs[t]) < Left(ps[t]) {
        assert t > 0 ==> ps[1..][t - 1] == ps[t] && qs[1..][t - 1] == qs[t];
      }
    }
  }

  /** No new call begins in the run. */
  predicate OnlyRuns(ls: seq<Label>)
  {
    forall i :: 0 <= i < |ls| ==> ls[i].Run?
  }

  /** Calls in progress need a bounded number of steps, whatever the schedule and the blocking. */
  lemma {:induction false} CallsAreShort(s: State, ls: seq<Label>)
    requires Runs(s, ls) && OnlyRuns(ls)
    ensures |ls| + TotalLeft(Exec(s, ls).parties) <= TotalLeft(s.parties)
    decreases |ls|
  {
    if ls != [] {
      var t := ls[0].t;
      hide SenderStep, ReceiverStep;
      if s.parties[t].Sender? { SenderOnward(s, t); } else { ReceiverOnward(s, t); }
      TotalSmaller(s.parties, Apply(s, ls[0]).parties);
      hide Apply, Enabled, Left;
      CallsAreShort(Apply(s, ls[0]), ls[1..]);
    }
  }

  lemma {:induction false} LeftAtMost(ps: seq<Party>)
    ensures TotalLeft(ps) <= 8 * |ps|
  {
    if ps != [] { LeftAtMost(ps[1..]); }
  }

  /** When no further call begins, at most eight steps for each party are possible, and a run that
      cannot be prolonged has completed all sends or all receives: of a send and a receive in
      progress one at least has returned. */
  lemma CallsFinish(s: State, ls: seq<Label>)
    requires Inv(s) && Runs(s, ls) && ExclusiveRun(s, ls) && OnlyRuns(ls)
    ensures |ls| <= 8 * |s.parties|
    ensures var e := Exec(s, ls);
            (forall v :: 0 <= v < |e.parties| ==> !Enabled(e, Run(v))) ==>
              || (forall t :: 0 <= t < |e.parties| && e.parties[t].Sender? ==> Idle(e.parties[t]))
              || (forall u :: 0 <= u < |e.parties| && e.parties[u].Receiver? ==> Idle(e.parties[u]))
  {
    CallsAreShort(s, ls);
    LeftAtMost(s.parties);
    RunInv(s, ls);
    var e := Exec(s, ls);
    hide Enabled, Inv, Runs, Exec, ExclusiveRun;
    forall t, u | 0 <= t < |e.parties| && 0 <= u < |e.parties| && e.parties[t].Sender? && !Idle(e.parties[t])
                  && e.parties[u].Receiver? && !Idle(e.parties[u])
      ensures exists v :: 0 <= v < |e.parties| && Enabled(e, Run(v))
    {
      NeverStuck(e, t, u);
    }
  }

  /** The slot that the parties see when `w` is the only sender. */
  function Abs(s: State, w: Tid): Slot<seq<byte>>
    requires w < |s.parties| && s.parties[w].Sender?
  {
    if Outstanding(s) && s.offers != [] then Full(s.offers[|s.offers| - 1])
    else if s.parties[w].spc in {SWantSync, SReturn} then Taken(s.parties[w].count)
    else Empty
  }

  /** What a step of `l` may do to the slot: w puts its message into the empty slot, a receiver
      replaces it by the length it copied, w takes that length away and returns it, or nothing. */
  predicate SlotStep(a: Slot<seq<byte>>, b: Slot<seq<byte>>, l: Label, p: Party, w: Tid)
  {
    if l == Run(w) && p.Sender? && p.spc == SSignalRecv then a == Empty && b == Full(p.data)
    else if l == Run(w) && p.Sender? && p.spc == SReturn then a == Taken(p.count) && b == Empty
    else if l.Run? && p.Receiver? && p.rpc == RSignalSync then
      a.Full? && b == Taken(|Cut(a.msg, p.cap)|) && p.buf == Cut(a.msg, p.cap)
    else a == b
  }

  lemma RefinesSlot(s: State, l: Label, w: Tid)
    requires Inv(s) && OneSender(s) && w < |s.parties| && s.parties[w].Sender? && Enabled(s, l)
    ensures var s' := Apply(s, l);
            && w < |s'.parties| && s'.parties[w].Sender?
            && SlotStep(Abs(s, w), Abs(s', w), l, s.parties[l.t], w)
  {
    if l.Run? {
      if l.t == w { RefinesSender(s, w); } else { RefinesReceiver(s, l.t, w); }
    } else {
      StartKeepsSlot(s, l, w);
    }
  }

  lemma StartKeepsSlot(s: State, l: Label, w: Tid)
    requires Slot(s) && w < |s.parties| && s.parties[w].Sender? && Enabled(s, l) && !l.Run?
    ensures var s' := Apply(s, l); w < |s'.parties| && s'.parties[w].Sender? && Abs(s, w) == Abs(s', w)
  {
    var s' := Apply(s, l);
    assert Outstanding(s') == Outstanding(s);
    assert s'.parties[w].spc in {SWantSync, SReturn} <==> s.parties[w].spc in {SWantSync, SReturn};
  }

  lemma RefinesSender(s: State, w: Tid)
    requires Inv(s) && OneSender(s) && Enabled(s, Run(w)) && s.parties[w].Sender?
    ensures var s' := Apply(s, Run(w));
            && w < |s'.parties| && s'.parties[w].Sender?
            && SlotStep(Abs(s, w), Abs(s', w), Run(w), s.parties[w], w)
  {
    SenderFacts(s, w);
    if s.parties[w].spc == SSignalRecv {
      hide Inv, OneSender, Outstanding;
      RefinesOffer(s, w);
    } else {
      hide Inv, Queues, Core, OneSender;
      RefinesOwn(s, w);
    }
  }

  /** What a channel's only sender knows. */
  lemma SenderFacts(s: State, w: Tid)
    requires Inv(s) && OneSender(s) && w < |s.parties| && s.parties[w].Sender?
    ensures Outstanding(s) ==> s.parties[w].spc in {SWantSync, SInSync} && s.sync.count == 0 && s.offers != []
    ensures s.parties[w].spc == SWantSync && !Outstanding(s) ==> s.sync.count == 1
    ensures s.parties[w].spc == SWantSend && s.send.count > 0 ==> s.owner == Free
    ensures Holder(s.parties[w]) ==> s.owner == Held(w)
    ensures s.recv.queue != [] ==>
        s.recv.queue[0] < |s.parties| && s.parties[s.recv.queue[0]].Receiver?
        && s.parties[s.recv.queue[0]].rpc == RInRecv
  {
    if s.recv.queue != [] { HeadWaits(s); }
  }

  lemma RefinesOffer(s: State, w: Tid)
    requires Enabled(s, Run(w)) && s.parties[w].Sender? && s.parties[w].spc == SSignalRecv && !Outstanding(s)
    requires s.recv.queue != [] ==>
        s.recv.queue[0] < |s.parties| && s.parties[s.recv.queue[0]].Receiver?
        && s.parties[s.recv.queue[0]].rpc == RInRecv
    ensures var s' := Apply(s, Run(w));
            && w < |s'.parties| && s'.parties[w].Sender? && Abs(s, w) == Empty && Abs(s', w) == Full(s.parties[w].data)
  {
    assert Outstanding(Apply(s, Run(w)));
  }

  lemma RefinesOwn(s: State, w: Tid)
    requires Enabled(s, Run(w)) && s.parties[w].Sender? && s.parties[w].spc != SSignalRecv
    requires Outstanding(s) ==> s.parties[w].spc in {SWantSync, SInSync} && s.sync.count == 0 && s.offers != []
    requires s.parties[w].spc == SWantSync && !Outstanding(s) ==> s.sync.count == 1
    requires s.parties[w].spc == SWantSend && s.send.count > 0 ==> s.owner == Free
    ensures var s' := Apply(s, Run(w));
            && w < |s'.parties| && s'.parties[w].Sender?
            && SlotStep(Abs(s, w), Abs(s', w), Run(w), s.parties[w], w)
  {
    OwnStep(s, w);
    assert Outstanding(Apply(s, Run(w))) == Outstanding(s);
  }

  lemma RefinesReceiver(s: State, t: Tid, w: Tid)
    requires Inv(s) && OneSender(s) && w < |s.parties| && s.parties[w].Sender? && Enabled(s, Run(t))
        && s.parties[t].Receiver?
    ensures var s' := Apply(s, Run(t));
            && w < |s'.parties| && s'.parties[w].Sender?
            && SlotStep(Abs(s, w), Abs(s', w), Run(t), s.parties[t], w)
  {
    var p := s.parties[t];
    if p.rpc == RSignalSync {
      RefinesTake(s, t, w);
    } else if p.rpc == RSignalSend {
      RefinesFree(s, t, w);
    } else {
      RefinesLocal(s, t, w);
    }
  }

  lemma RefinesLocal(s: State, t: Tid, w: Tid)
    requires Slot(s) && w < |s.parties| && s.parties[w].Sender? && Enabled(s, Run(t))
    requires s.parties[t].Receiver? && s.parties[t].rpc !in {RSignalSync, RSignalSend}
    requires s.parties[t].rpc == RStore ==> s.offers != []
    ensures Apply(s, Run(t)).parties[w].Sender? && Abs(s, w) == Abs(Apply(s, Run(t)), w)
  {
    ReceiverLocal(s, t);
    assert s.parties[t].rpc == RStore ==> Outstanding(s);
  }

  lemma RefinesFree(s: State, t: Tid, w: Tid)
    requires Slot(s) && Queues(s) && w < |s.parties| && s.parties[w].Sender? && Enabled(s, Run(t))
    requires s.parties[t].Receiver? && s.parties[t].rpc == RSignalSend
    ensures Apply(s, Run(t)).parties[w].Sender? && Abs(s, w) == Abs(Apply(s, Run(t)), w)
  {
    var s' := Apply(s, Run(t));
    assert !Outstanding(s) && !Outstanding(s');
    assert s'.parties[w] == s.parties[w] || (s.parties[w].spc == SInSend && s'.parties[w].spc == SSetPtr);
  }

  lemma RefinesTake(s: State, t: Tid, w: Tid)
    requires Inv(s) && OneSender(s) && w < |s.parties| && s.parties[w].Sender? && Enabled(s, Run(t))
    requires s.parties[t].Receiver? && s.parties[t].rpc == RSignalSync
    ensures var s' := Apply(s, Run(t));
            && w < |s'.parties| && s'.parties[w].Sender?
            && SlotStep(Abs(s, w), Abs(s', w), Run(t), s.parties[t], w)
  {
    TakeFacts(s, t, w);
    hide Slot, Offer, Acks, History, Queues, OneSender;
    var s' := Apply(s, Run(t));
    if s.sync.queue == [] {
      assert s'.parties[w] == s.parties[w];
    } else {
      assert s'.parties[w] == s.parties[w].(spc := SReturn);
    }
    assert !Outstanding(s');
  }

  lemma TakeFacts(s: State, t: Tid, w: Tid)
    requires Inv(s) && OneSender(s) && w < |s.parties| && s.parties[w].Sender? && Enabled(s, Run(t))
    requires s.parties[t].Receiver? && s.parties[t].rpc == RSignalSync
    ensures s.owner == Held(t) && Outstanding(s) && s.offers != [] && s.parties[w].data == s.offers[|s.offers| - 1]
    ensures s.parties[t].buf == Cut(s.parties[w].data, s.parties[t].cap) && s.parties[w].count == |s.parties[t].buf|
    ensures s.sync.count == 0
    ensures if s.sync.queue == [] then s.parties[w].spc == SWantSync
            else s.sync.queue[0] == w && s.parties[w].spc == SInSync
  {
    hide Apply;
    assert s.ptr == w;
    assert s.sync.queue == [] ==> s.parties[w].spc == SWantSync by {
      assert Where(s.parties[w]) == AtSync ==> w in s.sync.queue;
    }
  }
}

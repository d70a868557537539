/** A channel of chan.c between one sender, party 0, and one receiver, party 1: what each statement of
    theirs does to the slot that the two see, and when they can go on. */
module Links {
  import opened Machine
  import opened Wrappers
  import opened Semaphores
  import opened Rendezvous
  import C = Channel

  predicate Ends(c: C.State)
  {
    |c.parties| == 2 && c.parties[0].Sender? && c.parties[1].Receiver?
  }

  /** A channel with its sender and its receiver. */
  ghost predicate Link(c: C.State)
  {
    C.Inv(c) && Ends(c)
  }

  /** The sender has put its message in. */
  predicate Late(p: C.Party) { p.Sender? && p.spc in {C.SWantSync, C.SInSync, C.SReturn} }

  /** The receiver has taken the message and told the sender. */
  predicate Past(q: C.Party) { q.Receiver? && q.rpc in {C.RSignalSend, C.RReturn} }

  function View(c: C.State): Slot<seq<byte>>
    requires |c.parties| == 2 && c.parties[0].Sender?
  {
    C.Abs(c, 0)
  }

  lemma LinkAlone(c: C.State)
    requires Link(c)
    ensures C.OneSender(c) && C.Exclusive(c)
  {
  }

  lemma LinkKeeps(c: C.State, l: C.Label)
    requires Link(c) && C.Enabled(c, l)
    ensures Link(C.Apply(c, l)) && C.SlotStep(View(c), View(C.Apply(c, l)), l, c.parties[l.t], 0)
  {
    LinkAlone(c);
    C.KeepsRoles(c, l);
    C.RefinesSlot(c, l, 0);
    hide C.Inv, C.Apply, C.Enabled, C.Abs, C.SlotStep;
    Lone(C.Apply(c, l));
    C.StepInv(c, l);
  }

  lemma Lone(c: C.State)
    requires |c.parties| == 2 && c.parties[1].Receiver?
    ensures C.Exclusive(c)
  {
  }

  /** The message in the slot is that of the sender, which is waiting for its count. */
  lemma FullIs(c: C.State)
    requires Link(c) && View(c).Full?
    ensures View(c).msg == c.parties[0].data && Late(c.parties[0])
  {
  }

  /** What a step of the sender does. */
  ghost predicate SenderMoves(c: C.State, c': C.State)
    requires |c.parties| == 2 && c.parties[0].Sender? && |c'.parties| == 2 && c'.parties[0].Sender?
  {
    var p, q, p', q' := c.parties[0], c.parties[1], c'.parties[0], c'.parties[1];
    && p'.data == p.data && C.Left(p') < C.Left(p) && C.Left(q') <= C.Left(q)
    && (q' == q || (q.Receiver? && q.rpc == C.RInRecv && q' == q.(rpc := C.RRead)))
    && if p.spc == C.SReturn then p'.spc == C.SIdle && View(c) == Taken(p.count) && View(c') == Empty
       else if p.spc == C.SSignalRecv then Late(p') && View(c) == Empty && View(c') == Full(p.data)
       else p'.spc != C.SIdle && Late(p') == Late(p) && View(c') == View(c)
  }

  lemma SenderMove(c: C.State)
    requires Link(c) && C.Enabled(c, C.Run(0))
    ensures Link(C.Apply(c, C.Run(0))) && SenderMoves(c, C.Apply(c, C.Run(0)))
  {
    LinkKeeps(c, C.Run(0));
    SenderLeft(c);
    if c.recv.queue != [] { C.HeadWaits(c); }
    hide C.Inv, C.Abs, C.Left;
    SenderParties(c);
    hide C.Apply, C.Enabled;
  }

  lemma SenderLeft(c: C.State)
    requires Link(c) && C.Enabled(c, C.Run(0))
    ensures C.Onward(c.parties, C.Apply(c, C.Run(0)).parties, 0)
  {
    C.SenderOnward(c, 0);
    hide C.SenderStep, C.Onward;
  }

  lemma SenderParties(c: C.State)
    requires |c.parties| == 2 && c.parties[0].Sender? && c.parties[1].Receiver? && C.Enabled(c, C.Run(0))
    requires c.recv.queue != [] ==> c.recv.queue[0] < 2 && C.Where(c.parties[c.recv.queue[0]]) == C.AtRecv
    ensures var c' := C.Apply(c, C.Run(0));
            && |c'.parties| == 2 && c'.parties[0].Sender?
            && var p, q, p', q' := c.parties[0], c.parties[1], c'.parties[0], c'.parties[1];
               && p'.data == p.data
               && (q' == q || (q.rpc == C.RInRecv && q' == q.(rpc := C.RRead)))
               && if p.spc == C.SReturn then p'.spc == C.SIdle
                  else if p.spc == C.SSignalRecv then Late(p')
                  else p'.spc != C.SIdle && Late(p') == Late(p)
  {
    hide C.Left;
  }

  /** What a step of the receiver does. */
  ghost predicate ReceiverMoves(c: C.State, c': C.State)
    requires |c.parties| == 2 && c.parties[0].Sender? && |c'.parties| == 2 && c'.parties[0].Sender?
    requires c.parties[1].Receiver? && c'.parties[1].Receiver?
  {
    var p, q, p', q' := c.parties[0], c.parties[1], c'.parties[0], c'.parties[1];
    && q'.cap == q.cap && C.Left(q') < C.Left(q) && C.Left(p') <= C.Left(p)
    && p'.data == p.data && Late(p') == Late(p) && C.Idle(p') == C.Idle(p)
    && if q.rpc == C.RReturn then q'.rpc == C.RIdle && View(c') == View(c)
       else if q.rpc == C.RSignalSync then
         Past(q') && q'.buf == q.buf && View(c).Full? && q.buf == C.Cut(View(c).msg, q.cap)
             && View(c') == Taken(|q.buf|)
       else q'.rpc != C.RIdle && Past(q') == Past(q) && (Past(q) ==> q'.buf == q.buf) && View(c') == View(c)
  }

  lemma ReceiverMove(c: C.State)
    requires Link(c) && C.Enabled(c, C.Run(1))
    ensures Link(C.Apply(c, C.Run(1))) && ReceiverMoves(c, C.Apply(c, C.Run(1)))
  {
    LinkKeeps(c, C.Run(1));
    ReceiverLeft(c);
    WaitersAre(c);
    hide C.Inv, C.Abs, C.Left;
    ReceiverParties(c);
    hide C.Apply, C.Enabled;
  }

  lemma ReceiverLeft(c: C.State)
    requires Link(c) && C.Enabled(c, C.Run(1))
    ensures C.Onward(c.parties, C.Apply(c, C.Run(1)).parties, 1)
  {
    C.ReceiverOnward(c, 1);
    hide C.ReceiverStep, C.Onward;
  }

  lemma ReceiverParties(c: C.State)
    requires |c.parties| == 2 && c.parties[0].Sender? && c.parties[1].Receiver? && C.Enabled(c, C.Run(1))
    requires c.send.queue != [] ==> c.send.queue[0] == 0 && c.parties[0].spc == C.SInSend
    requires c.sync.queue != [] ==> c.sync.queue[0] == 0 && c.parties[0].spc == C.SInSync
    requires c.parties[1].rpc == C.RStore ==> c.size == 0
    ensures var c' := C.Apply(c, C.Run(1));
            && |c'.parties| == 2 && c'.parties[0].Sender? && c'.parties[1].Receiver?
            && var p, q, p', q' := c.parties[0], c.parties[1], c'.parties[0], c'.parties[1];
               && p'.data == p.data && Late(p') == Late(p) && C.Idle(p') == C.Idle(p) && q'.cap == q.cap
               && if q.rpc == C.RReturn then q'.rpc == C.RIdle
                  else if q.rpc == C.RSignalSync then Past(q') && q'.buf == q.buf
                  else q'.rpc != C.RIdle && Past(q') == Past(q) && (Past(q) ==> q'.buf == q.buf)
  {
    if c.parties[1].rpc in {C.RSignalSync, C.RSignalSend} {
      ReceiverSignals(c);
    } else {
      ReceiverOwn(c);
    }
    hide C.Apply, C.Enabled;
  }

  lemma ReceiverOwn(c: C.State)
    requires |c.parties| == 2 && c.parties[0].Sender? && c.parties[1].Receiver? && C.Enabled(c, C.Run(1))
    requires c.parties[1].rpc !in {C.RSignalSync, C.RSignalSend} && (c.parties[1].rpc == C.RStore ==> c.size == 0)
    ensures var c' := C.Apply(c, C.Run(1));
            && |c'.parties| == 2 && c'.parties[1].Receiver?
            && c'.parties[0] == c.parties[0].(count := c'.parties[0].count)
            && var q, q' := c.parties[1], c'.parties[1];
               && q'.cap == q.cap
               && !Past(q')
               && (q'.rpc == C.RIdle <==> q.rpc == C.RReturn)
  {
  }

  lemma ReceiverSignals(c: C.State)
    requires |c.parties| == 2 && c.parties[0].Sender? && c.parties[1].Receiver? && C.Enabled(c, C.Run(1))
    requires c.parties[1].rpc in {C.RSignalSync, C.RSignalSend}
    requires c.send.queue != [] ==> c.send.queue[0] == 0 && c.parties[0].spc == C.SInSend
    requires c.sync.queue != [] ==> c.sync.queue[0] == 0 && c.parties[0].spc == C.SInSync
    ensures var c' := C.Apply(c, C.Run(1));
            && |c'.parties| == 2 && c'.parties[0].Sender?
            && var p, p', q := c.parties[0], c'.parties[0], c.parties[1];
               && p'.data == p.data && Late(p') == Late(p) && C.Idle(p') == C.Idle(p)
               && c'.parties[1] == q.(rpc := if q.rpc == C.RSignalSync then C.RSignalSend else C.RReturn)
  {
  }

  /** Whoever waits to send or for its count is the sender. */
  lemma WaitersAre(c: C.State)
    requires Link(c)
    ensures c.send.queue != [] ==> c.send.queue[0] == 0 && c.parties[0].spc == C.SInSend
    ensures c.sync.queue != [] ==> c.sync.queue[0] == 0 && c.parties[0].spc == C.SInSync
    ensures c.parties[1].rpc == C.RStore ==> c.size == 0
  {
    assert c.send.queue != [] ==> C.Where(c.parties[c.send.queue[0]]) == C.AtSend;
    assert c.sync.queue != [] ==> C.Where(c.parties[c.sync.queue[0]]) == C.AtSync;
  }

  lemma SenderStarts(c: C.State, msg: seq<byte>)
    requires Link(c) && C.Idle(c.parties[0])
    ensures C.Enabled(c, C.StartSend(0, msg))
    ensures var c' := C.Apply(c, C.StartSend(0, msg));
            && Link(c') && View(c') == View(c) && c'.parties[1] == c.parties[1]
            && var p := c'.parties[0]; p.spc == C.SWantSend && p.data == msg
  {
    LinkKeeps(c, C.StartSend(0, msg));
    hide C.Inv, C.Abs;
  }

  lemma ReceiverStarts(c: C.State, room: nat)
    requires Link(c) && C.Idle(c.parties[1])
    ensures C.Enabled(c, C.StartReceive(1, room))
    ensures var c' := C.Apply(c, C.StartReceive(1, room));
            && Link(c') && View(c') == View(c) && c'.parties[0] == c.parties[0]
            && var q := c'.parties[1]; q.rpc == C.RWantRecv && q.cap == room
  {
    LinkKeeps(c, C.StartReceive(1, room));
    hide C.Inv, C.Abs;
  }

  /** Chan_new, before either end has used the channel. */
  function Fresh(): C.State
  {
    C.State(0, 0, Sem(1, []), Sem(0, []), Sem(0, []),
            [C.Sender(C.SIdle, [], 0, 0), C.Receiver(C.RIdle, 0, 0, [], 0)], C.Free, [], [])
  }

  lemma FreshLinks()
    ensures Link(Fresh()) && View(Fresh()) == Empty
  {
    C.InitialInv(Fresh());
  }

  /** A sender whose message can go in, or whose count is there, goes on once the receiver has left. */
  lemma SenderGoes(c: C.State)
    requires Link(c) && !C.Idle(c.parties[0])
    requires if Late(c.parties[0]) then View(c).Taken? else View(c) == Empty
    ensures C.Enabled(c, C.Run(0)) || (!C.Idle(c.parties[1]) && C.Enabled(c, C.Run(1)))
  {
    if !C.Blocked(c.parties[0]) {
      C.NeverDangles(c, 0);
    } else {
      assert c.parties[0].spc == C.SInSend;
      assert C.Where(c.parties[0]) == C.AtSend;
      assert c.owner == C.Held(1);
      C.NeverDangles(c, 1);
    }
  }

  /** A receiver goes on when there is a message, and when it has taken one. */
  lemma ReceiverGoes(c: C.State)
    requires Link(c) && !C.Idle(c.parties[1]) && (View(c).Full? || Past(c.parties[1]))
    ensures C.Enabled(c, C.Run(1))
  {
    if !C.Blocked(c.parties[1]) {
      C.NeverDangles(c, 1);
    }
  }

  /** The statements that are left until the slot changes next, with room for a new call. */
  function Ahead(p: C.Party): nat
  {
    if p.Sender? then (if C.Idle(p) then 9 else C.Left(p))
    else if C.Idle(p) then 15 else if Past(p) then 20 + C.Left(p) else C.Left(p)
  }

  function Effort(c: C.State): nat
    requires Ends(c)
  {
    Ahead(c.parties[0]) + Ahead(c.parties[1])
  }
}

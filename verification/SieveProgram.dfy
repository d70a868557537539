/** sieve.c with the statements of chan.c interleaved: the pipeline of module Sieve over channels as
    module Channel has them, every statement of Chan_send and Chan_receive a step of its own.

    A node is at a place in sieve.c; whether it is inside a channel call, and where, its party on that
    channel says.  On channel c node c is the sender, party 0, and node c + 1 the receiver, party 1.
    Every run of this is, step for step but for steps inside calls that nobody sees, a run of module
    Sieve, so what Sieve proves of its runs holds at the grain of chan.c. */
module SieveProgram {
  import opened Machine
  import opened Rendezvous
  import opened Primes
  import opened SieveChannels
  import SieveRange
  import opened Links
  import S = Sieve
  import C = Channel

  /** As in module Sieve, but no node is ever Waiting: whether it is, its party says. */
  datatype State = State(last: int, n: nat, nodes: seq<S.Node>, chans: seq<C.State>, out: seq<int>)

  /** A label is the number of the node whose thread runs its next statement. */
  type Label = nat

  predicate Initial(s: State)
  {
    && 1 <= s.n <= 255
    && s.nodes == [S.Node(S.Sending, 2, []), S.Node(S.Receiving, 1, [])]
    && s.chans == [Fresh()] && s.out == []
  }

  // ---------------------------------------------------------------- the steps

  predicate Wired(s: State)
  {
    |s.chans| == |s.nodes| - 1 && forall c :: 0 <= c < |s.chans| ==> Ends(s.chans[c])
  }

  predicate Takes(p: S.Node) { p.pc == S.Receiving || p.pc == S.Draining }

  /** The size passed to Chan_receive. */
  function Room(p: S.Node): nat { if p.pc == S.Draining then 0 else S.INT_SIZE }

  /** The next statement of a node that sends: it begins the call or goes on in it. */
  function SendLabel(code: Code, p: S.Node, c: C.State): C.Label
    requires Ends(c)
  {
    if C.Idle(c.parties[0]) then C.StartSend(0, code.bytes(p.seen)) else C.Run(0)
  }

  function ReceiveLabel(p: S.Node, c: C.State): C.Label
    requires Ends(c)
  {
    if C.Idle(c.parties[1]) then C.StartReceive(1, Room(p)) else C.Run(1)
  }

  predicate Enabled(code: Code, s: State, k: Label)
  {
    && k < |s.nodes| && Wired(s)
    && match s.nodes[k].pc
       case Scanning(_) => true
       case Sending => k < |s.chans| && C.Enabled(s.chans[k], SendLabel(code, s.nodes[k], s.chans[k]))
       case Receiving => k > 0 && C.Enabled(s.chans[k - 1], ReceiveLabel(s.nodes[k], s.chans[k - 1]))
       case Draining => k > 0 && C.Enabled(s.chans[k - 1], ReceiveLabel(s.nodes[k], s.chans[k - 1]))
       case Waiting => false
       case Done => false
  }

  /** Where a node goes on when its Chan_send returns; the source is node 0. */
  function AfterSend(p: S.Node, isSource: bool, count: nat): S.Node
  {
    if isSource then (if count == 0 then p.(pc := S.Done) else S.Node(S.Sending, S.Next(p.seen), p.primes))
    else p.(pc := if count == 0 then S.Draining else S.Receiving)
  }

  /** ... and when its Chan_receive returns. */
  function AfterReceive(code: Code, p: S.Node, buf: seq<byte>): S.Node
  {
    if p.pc == S.Draining then p.(pc := S.Done) else S.Node(S.Scanning(0), code.number(buf), p.primes)
  }

  /** A node with a channel it sends on, after its next statement. */
  function Sends(code: Code, p: S.Node, isSource: bool, c: C.State): (S.Node, C.State)
    requires Ends(c) && C.Enabled(c, SendLabel(code, p, c))
  {
    var u := c.parties[0];
    (if u.spc == C.SReturn then AfterSend(p, isSource, u.count) else p, C.Apply(c, SendLabel(code, p, c)))
  }

  function Receives(code: Code, p: S.Node, c: C.State): (S.Node, C.State)
    requires Ends(c) && C.Enabled(c, ReceiveLabel(p, c))
  {
    var v := c.parties[1];
    (if v.rpc == C.RReturn then AfterReceive(code, p, v.buf) else p, C.Apply(c, ReceiveLabel(p, c)))
  }

  /** The statements between the calls are those of module Sieve. */
  function Scan(s: State, k: nat, j: nat): State
    requires k < |s.nodes|
  {
    var r := S.Scan(S.State(s.last, s.n, s.nodes, [], s.out), k, j);
    State(s.last, s.n, r.nodes, if |r.nodes| > |s.nodes| then s.chans + [Fresh()] else s.chans, r.out)
  }

  function Receive(code: Code, s: State, k: Label): State
    requires Enabled(code, s, k) && Takes(s.nodes[k])
  {
    var (p', c') := Receives(code, s.nodes[k], s.chans[k - 1]);
    s.(nodes := s.nodes[k := p'], chans := s.chans[k - 1 := c'])
  }

  function Apply(code: Code, s: State, k: Label): State
    requires Enabled(code, s, k)
  {
    var p := s.nodes[k];
    match p.pc
    case Scanning(j) => Scan(s, k, j)
    case Sending =>
      var (p', c') := Sends(code, p, k == 0, s.chans[k]);
      s.(nodes := s.nodes[k := p'], chans := s.chans[k := c'])
    case Receiving => Receive(code, s, k)
    case Draining => Receive(code, s, k)
    case Waiting => s
    case Done => s
  }

  // ---------------------------------------------------------------- the state of module Sieve

  /** The slot of module Sieve. */
  function Slots(code: Code, c: C.State): Slot<int>
    requires Ends(c)
  {
    match View(c)
    case Empty => Empty
    case Full(m) => Full(code.number(m))
    case Taken(n) => Taken(n)
  }

  /** A node that sends on c: once its message is in, it waits. */
  function Sender(p: S.Node, c: C.State): S.Node
    requires Ends(c)
  {
    if Late(c.parties[0]) then p.(pc := S.Waiting) else p
  }

  /** A node that receives on c: once it has signalled the sender, it is beyond its call. */
  function Receiver(code: Code, p: S.Node, c: C.State): S.Node
    requires Ends(c)
  {
    if Past(c.parties[1]) then AfterReceive(code, p, c.parties[1].buf) else p
  }

  function NodeOf(code: Code, s: State, k: nat): S.Node
    requires Wired(s) && k < |s.nodes|
  {
    var p := s.nodes[k];
    if p.pc == S.Sending && k < |s.chans| then Sender(p, s.chans[k])
    else if Takes(p) && k > 0 then Receiver(code, p, s.chans[k - 1])
    else p
  }

  function Abs(code: Code, s: State): (a: S.State)
    requires Wired(s)
    ensures |a.nodes| == |s.nodes| && |a.chans| == |s.chans|
  {
    S.State(s.last, s.n, seq(|s.nodes|, k requires 0 <= k < |s.nodes| => NodeOf(code, s, k)),
            seq(|s.chans|, c requires 0 <= c < |s.chans| => Slots(code, s.chans[c])), s.out)
  }

  // ---------------------------------------------------------------- the invariant

  /** A call in progress is one that the node is at. */
  ghost predicate SenderFits(code: Code, p: S.Node, c: C.State)
    requires Ends(c)
  {
    C.Idle(c.parties[0]) || (p.pc == S.Sending && c.parties[0].data == code.bytes(p.seen))
  }

  ghost predicate ReceiverFits(p: S.Node, c: C.State)
    requires Ends(c)
  {
    C.Idle(c.parties[1]) || (Takes(p) && c.parties[1].cap == Room(p))
  }

  ghost predicate Joint(code: Code, s: State, c: nat)
    requires Wired(s) && c < |s.chans|
  {
    Link(s.chans[c]) && SenderFits(code, s.nodes[c], s.chans[c]) && ReceiverFits(s.nodes[c + 1], s.chans[c])
  }

  /** Every number that can turn up is an int. */
  ghost predicate InRange(last: int)
  {
    |UpTo(INT_MAX)| >= 2 * |UpTo(last)| + 2
  }

  ghost predicate Inv(code: Code, s: State)
  {
    && Wired(s) && InRange(s.last) && S.Inv(Abs(code, s))
    && (forall c :: 0 <= c < |s.chans| ==> Joint(code, s, c))
    && (forall k :: 0 <= k < |s.nodes| ==> s.nodes[k].pc != S.Waiting)
  }

  lemma InitialInv(code: Code, s: State)
    requires Initial(s) && InRange(s.last)
    ensures Inv(code, s) && S.Initial(Abs(code, s))
  {
    FreshLinks();
    var a := Abs(code, s);
    assert a.chans == [Empty];
    assert a.nodes == s.nodes;
    S.InitialInv(a);
  }

  // ---------------------------------------------------------------- a statement of a call

  /** What one statement of a sending node does to it, to the node it sends to and to the slot:
      nothing, or a step of module Sieve. */
  ghost predicate SendSteps(code: Code, p: S.Node, q: S.Node, isSource: bool, c: C.State, p': S.Node, c': C.State)
    requires Ends(c) && Ends(c')
  {
    && (Takes(q) ==> Receiver(code, q, c') == Receiver(code, q, c))
    && if c.parties[0].spc == C.SReturn then
         && Slots(code, c).Taken? && Slots(code, c') == Empty && p' == AfterSend(p, isSource, Slots(code, c).count)
         && !Late(c'.parties[0]) && Late(c.parties[0]) && Effort(c') <= Effort(c) + 9
       else if c.parties[0].spc == C.SSignalRecv then
         && Slots(code, c) == Empty && Slots(code, c') == Full(p.seen) && p' == p
         && !Late(c.parties[0]) && Late(c'.parties[0]) && Effort(c') < Effort(c)
       else
         && Slots(code, c') == Slots(code, c) && p' == p && Late(c'.parties[0]) == Late(c.parties[0])
         && Effort(c') < Effort(c)
  }

  lemma SendStep(code: Code, p: S.Node, q: S.Node, isSource: bool, c: C.State)
    requires Codes(code) && 0 <= p.seen <= INT_MAX && Link(c)
    requires p.pc == S.Sending && SenderFits(code, p, c) && ReceiverFits(q, c) && C.Enabled(c, SendLabel(code, p, c))
    ensures var (p', c') := Sends(code, p, isSource, c);
            && Link(c') && SenderFits(code, p', c') && ReceiverFits(q, c')
            && SendSteps(code, p, q, isSource, c, p', c')
  {
    var (p', c') := Sends(code, p, isSource, c);
    if C.Idle(c.parties[0]) {
      SenderStarts(c, code.bytes(p.seen));
      hide Link, View, C.Enabled, C.Apply;
    } else {
      SenderMove(c);
      hide Link, View, SenderMoves, SendSteps, C.Enabled, C.Apply;
      SendMoved(code, p, q, isSource, c, c');
    }
  }

  lemma SendMoved(code: Code, p: S.Node, q: S.Node, isSource: bool, c: C.State, c': C.State)
    requires Codes(code) && 0 <= p.seen <= INT_MAX && Ends(c) && Ends(c') && SenderMoves(c, c')
    requires p.pc == S.Sending && !C.Idle(c.parties[0]) && SenderFits(code, p, c) && ReceiverFits(q, c)
    ensures var p' := if c.parties[0].spc == C.SReturn then AfterSend(p, isSource, c.parties[0].count) else p;
            && SenderFits(code, p', c') && ReceiverFits(q, c') && SendSteps(code, p, q, isSource, c, p', c')
  {
    hide View, AfterSend, AfterReceive;
  }

  ghost predicate ReceiveSteps(code: Code, q: S.Node, c: C.State, q': S.Node, c': C.State)
    requires Ends(c) && Ends(c')
  {
    && Late(c'.parties[0]) == Late(c.parties[0])
    && if c.parties[1].rpc == C.RSignalSync then
         && Slots(code, c).Full? && Slots(code, c') == Taken(Room(q)) && q' == q && !Past(c.parties[1])
         && Past(c'.parties[1]) && (q.pc == S.Receiving ==> code.number(c'.parties[1].buf) == Slots(code, c).msg)
         && Effort(c') <= Effort(c) + 25
       else
         && Slots(code, c') == Slots(code, c) && Effort(c') < Effort(c)
         && if c.parties[1].rpc == C.RReturn then q' == Receiver(code, q, c)
            else q' == q && Receiver(code, q, c') == Receiver(code, q, c)
  }

  lemma ReceiveStep(code: Code, p: S.Node, q: S.Node, c: C.State)
    requires Codes(code) && Link(c)
    requires Takes(q) && SenderFits(code, p, c) && ReceiverFits(q, c) && C.Enabled(c, ReceiveLabel(q, c))
    ensures var (q', c') := Receives(code, q, c);
            && Link(c') && SenderFits(code, p, c') && ReceiverFits(q', c')
            && ReceiveSteps(code, q, c, q', c')
  {
    var (q', c') := Receives(code, q, c);
    if C.Idle(c.parties[1]) {
      ReceiverStarts(c, Room(q));
      hide Link, View, C.Enabled, C.Apply;
    } else {
      ReceiverMove(c);
      if View(c).Full? { FullIs(c); }
      hide Link, View, ReceiverMoves, ReceiveSteps, C.Enabled, C.Apply;
      ReceiveMoved(code, p, q, c, c');
    }
  }

  lemma ReceiveMoved(code: Code, p: S.Node, q: S.Node, c: C.State, c': C.State)
    requires Codes(code) && Ends(c) && Ends(c') && ReceiverMoves(c, c')
    requires Takes(q) && !C.Idle(c.parties[1]) && SenderFits(code, p, c) && ReceiverFits(q, c)
    requires View(c).Full? ==> View(c).msg == c.parties[0].data && Late(c.parties[0])
    ensures var q' := if c.parties[1].rpc == C.RReturn then AfterReceive(code, q, c.parties[1].buf) else q;
            && SenderFits(code, p, c') && ReceiverFits(q', c') && ReceiveSteps(code, q, c, q', c')
  {
    hide View;
    if c.parties[1].rpc == C.RSignalSync {
      var m := c.parties[0].data;
      assert m == code.bytes(p.seen) && |m| == S.INT_SIZE;
      assert C.Cut(m, Room(q)) == if q.pc == S.Draining then [] else m;
    }
    hide AfterReceive;
  }

  // ---------------------------------------------------------------- every statement, seen from module Sieve

  function Efforts(cs: seq<C.State>): nat
    requires forall c :: 0 <= c < |cs| ==> Ends(cs[c])
  {
    if cs == [] then 0 else Effort(cs[0]) + Efforts(cs[1..])
  }

  lemma {:induction false} EffortsUpdate(cs: seq<C.State>, i: nat, c: C.State)
    requires i < |cs| && Ends(c) && forall j :: 0 <= j < |cs| ==> Ends(cs[j])
    ensures Efforts(cs[i := c]) == Efforts(cs) - Effort(cs[i]) + Effort(c)
  {
    if i > 0 {
      assert cs[i := c][1..] == cs[1..][i - 1 := c];
      EffortsUpdate(cs[1..], i - 1, c);
    } else {
      assert cs[i := c][1..] == cs[1..];
    }
  }

  lemma {:induction false} EffortsAppend(cs: seq<C.State>, c: C.State)
    requires Ends(c) && forall j :: 0 <= j < |cs| ==> Ends(cs[j])
    ensures Efforts(cs + [c]) == Efforts(cs) + Effort(c)
  {
    if cs != [] {
      assert (cs + [c])[1..] == cs[1..] + [c];
      EffortsAppend(cs[1..], c);
    } else {
      assert cs + [c] == [c] && [c][1..] == [];
    }
  }

  /** A statement of node k is a step of module Sieve, or nothing that module sees. */
  ghost predicate Follows(code: Code, s: State, s': State, k: Label)
  {
    && Wired(s) && Wired(s')
    && var a, a' := Abs(code, s), Abs(code, s');
       || (a' == a && Efforts(s'.chans) < Efforts(s.chans))
       || (S.Enabled(a, k) && a' == S.Apply(a, k) && Efforts(s'.chans) <= Efforts(s.chans) + 29)
  }

  ghost predicate Joints(code: Code, s: State)
  {
    && Wired(s) && (forall c :: 0 <= c < |s.chans| ==> Joint(code, s, c))
    && (forall k :: 0 <= k < |s.nodes| ==> s.nodes[k].pc != S.Waiting)
  }

  /** State s after node k, at its channel c, has become p and the channel ch. */
  function After(s: State, k: nat, c: nat, p: S.Node, ch: C.State): State
    requires k < |s.nodes| && c < |s.chans|
  {
    s.(nodes := s.nodes[k := p], chans := s.chans[c := ch])
  }

  /** Node k with its channel c changes nothing else. */
  lemma JointsKeep(code: Code, s: State, k: nat, c: nat, p: S.Node, ch: C.State)
    requires Joints(code, s) && k < |s.nodes| && c < |s.chans| && (k == c || k == c + 1) && Ends(ch)
    requires p.pc != S.Waiting && (if k == c then s.nodes[k].pc == S.Sending else Takes(s.nodes[k]))
    requires Link(ch) && SenderFits(code, if k == c then p else s.nodes[c], ch)
    requires ReceiverFits(if k == c then s.nodes[c + 1] else p, ch)
    ensures Joints(code, After(s, k, c, p, ch))
  {
    hide Link;
    var s' := After(s, k, c, p, ch);
    forall i | 0 <= i < |s'.chans| ensures Joint(code, s', i) {
      assert Joint(code, s, i);
    }
  }

  /** Module Sieve sees at most node k and the slot change. */
  lemma ViewOf(code: Code, s: State, k: nat, c: nat, p: S.Node, ch: C.State)
    requires Wired(s) && k < |s.nodes| && c < |s.chans| && (k == c || k == c + 1) && Ends(ch)
    requires k == c && Takes(s.nodes[k + 1]) ==>
        Receiver(code, s.nodes[k + 1], ch) == Receiver(code, s.nodes[k + 1], s.chans[k])
    requires k == c + 1 ==> Late(ch.parties[0]) == Late(s.chans[c].parties[0])
    ensures Wired(After(s, k, c, p, ch))
    ensures var a, s' := Abs(code, s), After(s, k, c, p, ch);
            Abs(code, s') == a.(nodes := a.nodes[k := NodeOf(code, s', k)], chans := a.chans[c := Slots(code, ch)])
  {
    hide Receiver, Late, Past, Slots;
    var a, s' := Abs(code, s), After(s, k, c, p, ch);
    var a' := Abs(code, s');
    assert a'.chans == a.chans[c := Slots(code, ch)];
    forall i | 0 <= i < |s.nodes| && i != k ensures a'.nodes[i] == a.nodes[i] {
      assert NodeOf(code, s', i) == NodeOf(code, s, i);
    }
  }

  lemma SendFollows(code: Code, s: State, k: Label)
    requires Enabled(code, s, k) && s.nodes[k].pc == S.Sending && Codes(code) && Inv(code, s)
    ensures Joints(code, Apply(code, s, k)) && Follows(code, s, Apply(code, s, k), k)
  {
    hide Inv, Codes, Apply, Follows, Joints, Joint, Link, SenderFits, ReceiverFits, SendSteps, C.Enabled, S.Apply;
    Around(code, s, k);
    var p, ch := SendsFit(code, s, k);
    JointsKeep(code, s, k, k, p, ch);
    SendSeen(code, s, k, p, ch);
  }

  lemma SendsFit(code: Code, s: State, k: Label) returns (p: S.Node, ch: C.State)
    requires Enabled(code, s, k) && s.nodes[k].pc == S.Sending && Codes(code) && Inv(code, s)
    ensures Apply(code, s, k) == After(s, k, k, p, ch) && p.pc != S.Waiting
    ensures Ends(ch) && Link(ch) && SenderFits(code, p, ch) && ReceiverFits(s.nodes[k + 1], ch)
    ensures SendSteps(code, s.nodes[k], s.nodes[k + 1], k == 0, s.chans[k], p, ch)
  {
    hide Inv, C.Enabled, C.Apply, C.Inv, SendSteps, SenderFits, ReceiverFits;
    Around(code, s, k);
    SeenIsInt(code, s, k);
    SendStep(code, s.nodes[k], s.nodes[k + 1], k == 0, s.chans[k]);
    var (p', c') := Sends(code, s.nodes[k], k == 0, s.chans[k]);
    p, ch := p', c';
  }

  /** What the invariant says of the channels of node k. */
  lemma Around(code: Code, s: State, k: nat)
    requires Inv(code, s) && k < |s.nodes|
    ensures Joints(code, s)
    ensures k > 0 ==> Joint(code, s, k - 1) && (Takes(s.nodes[k]) || C.Idle(s.chans[k - 1].parties[1]))
    ensures k < |s.chans| ==> Joint(code, s, k) && (s.nodes[k].pc == S.Sending || C.Idle(s.chans[k].parties[0]))
  {
    hide S.Inv, Link;
    assert k > 0 ==> Joint(code, s, k - 1);
  }

  lemma SeenIsInt(code: Code, s: State, k: nat)
    requires Inv(code, s) && k < |s.nodes| && s.nodes[k].pc == S.Sending
    ensures 0 <= s.nodes[k].seen <= INT_MAX
  {
    SieveRange.SeenAtMost(Abs(code, s), k, INT_MAX);
    assert Abs(code, s).nodes[k].seen == s.nodes[k].seen;
  }

  lemma SendSeen(code: Code, s: State, k: nat, p: S.Node, ch: C.State)
    requires Wired(s) && k < |s.chans| && Ends(ch) && s.nodes[k].pc == S.Sending
    requires k > 0 ==> C.Idle(s.chans[k - 1].parties[1])
    requires SendSteps(code, s.nodes[k], s.nodes[k + 1], k == 0, s.chans[k], p, ch)
    ensures Follows(code, s, After(s, k, k, p, ch), k)
  {
    var a, s' := Abs(code, s), After(s, k, k, p, ch);
    ViewOf(code, s, k, k, p, ch);
    EffortsUpdate(s.chans, k, ch);
    assert a.nodes[k] == Sender(s.nodes[k], s.chans[k]) && a.chans[k] == Slots(code, s.chans[k]);
    assert NodeOf(code, s', k) == if p.pc == S.Sending then Sender(p, ch) else p;
    hide Receiver, Slots, Effort, Abs, NodeOf, Wired;
    if s.chans[k].parties[0].spc in {C.SReturn, C.SSignalRecv} {
      assert Abs(code, s') == S.Apply(a, k);
    } else {
      assert a.nodes[k] == NodeOf(code, s', k);
      assert Abs(code, s') == a;
    }
  }

  lemma ReceiveFollows(code: Code, s: State, k: Label)
    requires Enabled(code, s, k) && Takes(s.nodes[k]) && Codes(code) && Inv(code, s)
    ensures Joints(code, Apply(code, s, k)) && Follows(code, s, Apply(code, s, k), k)
  {
    hide Inv, Codes, Apply, Follows, Joints, Joint, Link, SenderFits, ReceiverFits, ReceiveSteps, C.Enabled, S.Apply;
    Around(code, s, k);
    var p, ch := ReceivesFit(code, s, k);
    JointsKeep(code, s, k, k - 1, p, ch);
    ReceiveSeen(code, s, k, p, ch);
  }

  lemma ReceivesFit(code: Code, s: State, k: Label) returns (p: S.Node, ch: C.State)
    requires Enabled(code, s, k) && Takes(s.nodes[k]) && Codes(code) && Inv(code, s)
    ensures k > 0 && Apply(code, s, k) == After(s, k, k - 1, p, ch) && p.pc != S.Waiting
    ensures Ends(ch) && Link(ch) && SenderFits(code, s.nodes[k - 1], ch) && ReceiverFits(p, ch)
    ensures ReceiveSteps(code, s.nodes[k], s.chans[k - 1], p, ch)
  {
    hide Inv, C.Enabled, C.Apply, C.Inv, ReceiveSteps, SenderFits, ReceiverFits;
    Around(code, s, k);
    ReceiveStep(code, s.nodes[k - 1], s.nodes[k], s.chans[k - 1]);
    var (p', c') := Receives(code, s.nodes[k], s.chans[k - 1]);
    p, ch := p', c';
  }

  lemma ReceiveSeen(code: Code, s: State, k: nat, p: S.Node, ch: C.State)
    requires Wired(s) && 0 < k < |s.nodes| && Ends(ch) && Takes(s.nodes[k])
    requires ReceiveSteps(code, s.nodes[k], s.chans[k - 1], p, ch)
    ensures Follows(code, s, After(s, k, k - 1, p, ch), k)
  {
    var a, s' := Abs(code, s), After(s, k, k - 1, p, ch);
    ViewOf(code, s, k, k - 1, p, ch);
    EffortsUpdate(s.chans, k - 1, ch);
    assert a.nodes[k] == Receiver(code, s.nodes[k], s.chans[k - 1]) && a.chans[k - 1] == Slots(code, s.chans[k - 1]);
    assert NodeOf(code, s', k) == if Takes(p) then Receiver(code, p, ch) else p;
    hide Slots, Effort, Abs, NodeOf, Wired, S.Apply;
    if s.chans[k - 1].parties[1].rpc == C.RSignalSync {
      TakeOf(a, k);
    } else {
      assert a.nodes[k] == NodeOf(code, s', k);
      assert Abs(code, s') == a;
    }
  }

  /** The step of module Sieve that takes a number, or shuts the channel. */
  lemma TakeOf(a: S.State, k: nat)
    requires 0 < k < |a.nodes| && |a.chans| == |a.nodes| - 1 && Takes(a.nodes[k]) && a.chans[k - 1].Full?
    ensures S.Enabled(a, k)
    ensures var p := a.nodes[k];
            S.Apply(a, k) ==
            a.(nodes := a.nodes[k := if p.pc == S.Draining then p.(pc := S.Done)
                                     else S.Node(S.Scanning(0), a.chans[k - 1].msg, p.primes)],
               chans := a.chans[k - 1 := Taken(Room(p))])
  {
  }

  lemma ScanFollows(code: Code, s: State, k: Label)
    requires Enabled(code, s, k) && s.nodes[k].pc.Scanning? && Inv(code, s)
    ensures Joints(code, Apply(code, s, k)) && Follows(code, s, Apply(code, s, k), k)
  {
    Around(code, s, k);
    FreshLinks();
    hide Inv, Link, View, Apply, Follows, Joint;
    ScanJoints(code, s, k);
    ScanSeen(code, s, k);
  }

  lemma ScanJoints(code: Code, s: State, k: Label)
    requires Joints(code, s) && Enabled(code, s, k) && s.nodes[k].pc.Scanning? && Link(Fresh())
    ensures Joints(code, Apply(code, s, k))
  {
    hide Link;
    var s' := Apply(code, s, k);
    forall i | 0 <= i < |s'.chans| ensures Joint(code, s', i) {
      if i < |s.chans| { assert Joint(code, s, i); }
    }
  }

  lemma ScanSeen(code: Code, s: State, k: Label)
    requires Wired(s) && Enabled(code, s, k) && s.nodes[k].pc.Scanning? && Wired(Apply(code, s, k))
    requires k > 0 ==> C.Idle(s.chans[k - 1].parties[1])
    requires k < |s.chans| ==> C.Idle(s.chans[k].parties[0])
    requires View(Fresh()) == Empty
    ensures Follows(code, s, Apply(code, s, k), k)
  {
    var a, s' := Abs(code, s), Apply(code, s, k);
    assert a.nodes[k] == s.nodes[k];
    ScanNodes(code, s, k);
    assert S.Enabled(a, k);
    var b, a' := S.Apply(a, k), Abs(code, s');
    assert |s'.nodes| > |s.nodes| ==> s'.chans == s.chans + [Fresh()];
    assert b.chans == if |s'.nodes| > |s.nodes| then a.chans + [Empty] else a.chans;
    hide View, S.Apply, S.Scan, NodeOf;
    assert a'.chans == b.chans;
    assert a' == b;
    if |s'.nodes| > |s.nodes| { EffortsAppend(s.chans, Fresh()); }
  }

  lemma ScanNodes(code: Code, s: State, k: Label)
    requires Wired(s) && Enabled(code, s, k) && s.nodes[k].pc.Scanning? && Wired(Apply(code, s, k))
    requires k > 0 ==> C.Idle(s.chans[k - 1].parties[1])
    requires k < |s.chans| ==> C.Idle(s.chans[k].parties[0])
    ensures S.Enabled(Abs(code, s), k) && Abs(code, Apply(code, s, k)).nodes == S.Apply(Abs(code, s), k).nodes
    ensures Abs(code, Apply(code, s, k)).out == S.Apply(Abs(code, s), k).out
  {
    var a, s' := Abs(code, s), Apply(code, s, k);
    assert a.nodes[k] == s.nodes[k];
    ScanAlike(S.State(s.last, s.n, s.nodes, [], s.out), a, k, s.nodes[k].pc.j);
    hide Slots, S.Scan, NodeOf, C.Idle;
    var b, a' := S.Apply(a, k), Abs(code, s');
    forall i | 0 <= i < |s'.nodes| ensures a'.nodes[i] == b.nodes[i] {
      if i < |s.nodes| && i != k {
        SameNode(code, s, s', i);
      } else {
        OwnNode(code, s', i);
      }
    }
  }

  /** A node whose channels are the same is seen as it was. */
  lemma SameNode(code: Code, s: State, s': State, i: nat)
    requires Wired(s) && Wired(s') && i < |s.nodes| <= |s'.nodes| && s'.nodes[i] == s.nodes[i]
    requires s.chans <= s'.chans && (i == |s.nodes| - 1 ==> s.nodes[i].pc != S.Sending || |s'.chans| == |s.chans|)
    ensures NodeOf(code, s', i) == NodeOf(code, s, i)
  {
  }

  /** A node in no call that module Sieve could miss is seen as it is. */
  lemma OwnNode(code: Code, s: State, i: nat)
    requires Wired(s) && i < |s.nodes|
    requires s.nodes[i].pc == S.Sending && i < |s.chans| ==> C.Idle(s.chans[i].parties[0])
    requires Takes(s.nodes[i]) && i > 0 ==> C.Idle(s.chans[i - 1].parties[1])
    ensures NodeOf(code, s, i) == s.nodes[i]
  {
  }

  /** What the scan of node k does depends on that node alone. */
  lemma ScanAlike(s: S.State, a: S.State, k: nat, j: nat)
    requires k < |s.nodes| == |a.nodes| && s.nodes[k] == a.nodes[k] && s.n == a.n && s.last == a.last && s.out == a.out
    ensures var r, b := S.Scan(s, k, j), S.Scan(a, k, j);
            && |s.nodes| <= |r.nodes| == |b.nodes| <= |s.nodes| + 1 && r.out == b.out
            && r.nodes[k] == b.nodes[k] && r.nodes[k].pc != S.Waiting
            && (forall i :: 0 <= i < |s.nodes| && i != k ==> r.nodes[i] == s.nodes[i] && b.nodes[i] == a.nodes[i])
            && (|r.nodes| > |s.nodes| ==>
                  r.nodes[|s.nodes|] == b.nodes[|s.nodes|] && r.nodes[|s.nodes|].pc == S.Receiving)
  {
  }

  lemma LastStays(code: Code, s: State, k: Label)
    requires Enabled(code, s, k)
    ensures Apply(code, s, k).last == s.last
  {
  }

  /** Every statement keeps the invariant and is a step of module Sieve or nothing that it sees. */
  lemma StepInv(code: Code, s: State, k: Label)
    requires Enabled(code, s, k) && Codes(code) && Inv(code, s)
    ensures Inv(code, Apply(code, s, k)) && Follows(code, s, Apply(code, s, k), k)
  {
    Moves(code, s, k);
    LastStays(code, s, k);
    hide S.Inv, S.Apply, S.Enabled, Apply, Enabled, Codes, Joint, Abs;
    var a := Abs(code, s);
    if S.Enabled(a, k) { S.StepInv(a, k); }
  }

  lemma Moves(code: Code, s: State, k: Label)
    requires Enabled(code, s, k) && Codes(code) && Inv(code, s)
    ensures Joints(code, Apply(code, s, k)) && Follows(code, s, Apply(code, s, k), k)
  {
    hide Inv, Apply, Codes, Joints, Follows, C.Enabled;
    if s.nodes[k].pc.Scanning? {
      ScanFollows(code, s, k);
    } else if s.nodes[k].pc == S.Sending {
      SendFollows(code, s, k);
    } else {
      ReceiveFollows(code, s, k);
    }
  }

  // ---------------------------------------------------------------- runs

  ghost predicate Runs(code: Code, s: State, ls: seq<Label>)
    decreases |ls|
  {
    ls == [] || (Enabled(code, s, ls[0]) && Runs(code, Apply(code, s, ls[0]), ls[1..]))
  }

  function Exec(code: Code, s: State, ls: seq<Label>): State
    requires Runs(code, s, ls)
    decreases |ls|
  {
    if ls == [] then s else Exec(code, Apply(code, s, ls[0]), ls[1..])
  }

  /** The steps of module Sieve still to come, and the statements between two of them. */
  ghost function Cost(code: Code, s: State): int
    requires Wired(s)
  {
    30 * S.Measure(Abs(code, s)) + Efforts(s.chans)
  }

  lemma CostFalls(code: Code, s: State, k: Label)
    requires Enabled(code, s, k) && Codes(code) && Inv(code, s)
    ensures Wired(Apply(code, s, k)) && Cost(code, Apply(code, s, k)) < Cost(code, s)
  {
    StepInv(code, s, k);
    hide S.Inv, S.Apply, S.Enabled, S.Measure, Apply, Enabled, Codes, Joint, Abs, Efforts;
    var a := Abs(code, s);
    if S.Enabled(a, k) { S.MeasureDecreases(a, k); }
  }

  /** Every run interleaved at the statements of chan.c is a run of module Sieve: the one made up of
      those of its statements that are steps there. */
  lemma {:induction false} RefinesSieve(code: Code, s: State, ls: seq<Label>) returns (ms: seq<S.Label>)
    requires Codes(code) && Inv(code, s) && Runs(code, s, ls)
    ensures Inv(code, Exec(code, s, ls)) && Exec(code, s, ls).last == s.last
    ensures S.Runs(Abs(code, s), ms) && S.Exec(Abs(code, s), ms) == Abs(code, Exec(code, s, ls))
    ensures |ls| + Cost(code, Exec(code, s, ls)) <= Cost(code, s)
    decreases |ls|
  {
    if ls == [] {
      ms := [];
    } else {
      var k, s' := ls[0], Apply(code, s, ls[0]);
      StepInv(code, s, k);
      CostFalls(code, s, k);
      LastStays(code, s, k);
      var rest := RefinesSieve(code, s', ls[1..]);
      hide Inv, S.Apply, S.Enabled, Apply, Enabled, Codes, Abs, Cost;
      if Abs(code, s') == Abs(code, s) {
        ms := rest;
      } else {
        ms := [k] + rest;
        assert ms[1..] == rest;
      }
    }
  }

  // ---------------------------------------------------------------- nothing gets stuck

  /** When module Sieve can take a step at node m, some thread can go on. */
  lemma GoesOn(code: Code, s: State, m: nat) returns (k: Label)
    requires Inv(code, s) && S.Enabled(Abs(code, s), m)
    ensures Enabled(code, s, k)
  {
    assert m < |s.nodes| && Wired(s);
    hide S.Inv, S.Enabled, Joint, Enabled;
    Around(code, s, m);
    hide Inv, Abs;
    k := m;
    if s.nodes[m].pc == S.Sending {
      SlotForSender(code, s, m);
      k := SenderOn(code, s, m);
    } else if Takes(s.nodes[m]) {
      SlotForReceiver(code, s, m);
      ReceiverOn(code, s, m);
    } else {
      ScanOn(code, s, m);
    }
  }

  lemma SlotForSender(code: Code, s: State, m: nat)
    requires Wired(s) && m < |s.nodes| && s.nodes[m].pc == S.Sending && S.Enabled(Abs(code, s), m)
    ensures m < |s.chans|
    ensures if Late(s.chans[m].parties[0]) then View(s.chans[m]).Taken? else View(s.chans[m]) == Empty
  {
    hide Late, View;
    assert Abs(code, s).nodes[m] == NodeOf(code, s, m);
    assert m < |s.chans| ==> Abs(code, s).chans[m] == Slots(code, s.chans[m]);
  }

  lemma SlotForReceiver(code: Code, s: State, m: nat)
    requires Wired(s) && m < |s.nodes| && Takes(s.nodes[m]) && S.Enabled(Abs(code, s), m)
    ensures m > 0 && (Past(s.chans[m - 1].parties[1]) || View(s.chans[m - 1]).Full?)
  {
    hide Past, View;
    assert Abs(code, s).nodes[m] == NodeOf(code, s, m);
    assert m > 0 ==> Abs(code, s).chans[m - 1] == Slots(code, s.chans[m - 1]);
  }

  lemma ScanOn(code: Code, s: State, m: nat)
    requires Wired(s) && m < |s.nodes| && s.nodes[m].pc != S.Sending && !Takes(s.nodes[m])
    requires s.nodes[m].pc != S.Waiting && S.Enabled(Abs(code, s), m)
    ensures Enabled(code, s, m)
  {
    assert Abs(code, s).nodes[m] == s.nodes[m];
  }

  lemma SenderOn(code: Code, s: State, m: nat) returns (k: Label)
    requires Wired(s) && m < |s.chans| && s.nodes[m].pc == S.Sending && Joint(code, s, m)
    requires if Late(s.chans[m].parties[0]) then View(s.chans[m]).Taken? else View(s.chans[m]) == Empty
    ensures Enabled(code, s, k)
  {
    hide C.Inv, View, C.Enabled;
    k := m;
    if C.Idle(s.chans[m].parties[0]) {
      SenderStarts(s.chans[m], code.bytes(s.nodes[m].seen));
    } else {
      SenderGoes(s.chans[m]);
      if !C.Enabled(s.chans[m], C.Run(0)) { k := m + 1; }
    }
  }

  lemma ReceiverOn(code: Code, s: State, m: nat)
    requires Wired(s) && 0 < m < |s.nodes| && Takes(s.nodes[m]) && Joint(code, s, m - 1)
    requires Past(s.chans[m - 1].parties[1]) || View(s.chans[m - 1]).Full?
    ensures Enabled(code, s, m)
  {
    hide C.Inv, View, C.Enabled;
    var c := s.chans[m - 1];
    if C.Idle(c.parties[1]) {
      ReceiverStarts(c, Room(s.nodes[m]));
    } else {
      ReceiverGoes(c);
    }
  }

  predicate Finished(s: State)
  {
    forall k :: 0 <= k < |s.nodes| ==> s.nodes[k].pc == S.Done
  }

  /** Until every thread has returned some thread can go on. */
  lemma NeverStuck(code: Code, s: State)
    requires Inv(code, s) && !Finished(s)
    ensures exists k :: Enabled(code, s, k)
  {
    var a := Abs(code, s);
    var k :| 0 <= k < |s.nodes| && s.nodes[k].pc != S.Done;
    hide S.Inv;
    if S.Finished(a) {
      Around(code, s, k);
      assert a.nodes[k] == NodeOf(code, s, k);
      hide Inv;
      ReceiverOn(code, s, k);
    } else {
      var i :| 0 <= i < |a.nodes| && a.nodes[i].pc != S.Done;
      ShapeOf(a);
      var j := S.LastNotDone(a, i);
      var m := S.SomebodyMoves(a, j);
      k := GoesOn(code, s, m);
    }
  }

  lemma ShapeOf(a: S.State)
    requires S.Inv(a)
    ensures S.Shape(a)
  {
  }

  lemma InitialCost(code: Code, s: State)
    requires Initial(s) && InRange(s.last)
    ensures Wired(s) && Cost(code, s) <= 9000 * (|UpTo(s.last)| + 2) * (S.Horizon(s.last) + 1) + 24
  {
    hide InRange;
    InitialInv(code, s);
    InitialEffort(s);
    var a, n, h := Abs(code, s), |UpTo(s.last)| + 2, S.Horizon(s.last) + 1;
    hide *;
    S.BoundOfInitial(a);
    assert 30 * (300 * n * h) == 9000 * n * h;
  }

  lemma InitialEffort(s: State)
    requires Initial(s)
    ensures Wired(s) && Efforts(s.chans) == 24
  {
    assert s.chans[1..] == [];
  }

  /** Total correctness at the grain of chan.c: under every schedule of the statements of sieve.c and of
      its channel calls the output is at all times the first so many primes, runs are bounded, and one
      that cannot be prolonged has returned from every thread and printed the primes up to last. */
  lemma EveryInterleavingPrintsThePrimes(code: Code, s: State, ls: seq<Label>)
    requires Codes(code) && Initial(s) && InRange(s.last) && Runs(code, s, ls)
    ensures Exec(code, s, ls).out <= UpTo(s.last)
    ensures |ls| <= 9000 * (|UpTo(s.last)| + 2) * (S.Horizon(s.last) + 1) + 24
    ensures (forall k :: !Enabled(code, Exec(code, s, ls), k)) ==>
        Finished(Exec(code, s, ls)) && Exec(code, s, ls).out == UpTo(s.last)
  {
    InitialInv(code, s);
    InitialCost(code, s);
    var ms := RefinesSieve(code, s, ls);
    var e := Exec(code, s, ls);
    var a := Abs(code, e);
    S.PrintedAtMost(a);
    S.MeasureNonNegative(a);
    if forall k :: !Enabled(code, e, k) {
      if !Finished(e) { NeverStuck(code, e); }
      FinishedPrints(code, e);
    }
  }

  lemma FinishedPrints(code: Code, s: State)
    requires Inv(code, s) && Finished(s)
    ensures s.out == UpTo(s.last)
  {
    var a := Abs(code, s);
    assert S.Sink(a).pc == S.Done;
  }
}

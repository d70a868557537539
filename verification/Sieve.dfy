/** sieve.c: the pipeline of prime filters, under every interleaving of its threads.

    nodes[0] is the source, the last node is the sink, those between are filters; chans[k]
    runs from nodes[k] to nodes[k+1] and is the slot that module Channel proves chan.c to be.
    `primes` holds what precedes the terminating 0 of the C array.  `seen` is the variable x
    (the source's i); before a node has received anything it is bookkeeping: the number up to
    which its producer has already accounted for everything.

    The loop over primes[j] that filter has (lines 48-50) is missing in sink; it is meant there
    as well.  The field of struct args that the code uses as n is declared t. */
module Sieve {
  import opened Rendezvous
  import opened Primes

  /** sizeof x */
  const INT_SIZE: nat := 4

  datatype Pc = Receiving | Scanning(j: nat) | Sending | Waiting | Draining | Done

  datatype Node = Node(pc: Pc, seen: int, primes: seq<int>)

  datatype State = State(last: int, n: nat, nodes: seq<Node>, chans: seq<Slot<int>>, out: seq<int>)

  /** A label is the number of the node that runs its next statement. */
  type Label = nat

  predicate Initial(s: State)
  {
    && 1 <= s.n <= 255
    && s.nodes == [Node(Sending, 2, []), Node(Receiving, 1, [])]
    && s.chans == [Empty] && s.out == []
  }

  predicate Divides(p: int, x: int) { p != 0 && x % p == 0 }

  // ---------------------------------------------------------------- the steps

  predicate IsSink(s: State, k: nat) { k == |s.nodes| - 1 }

  /** A node can go on unless it is done or waits for the other end of a channel. */
  predicate Enabled(s: State, k: Label)
  {
    && k < |s.nodes| && |s.chans| == |s.nodes| - 1
    && match s.nodes[k].pc
       case Receiving => k > 0 && s.chans[k - 1].Full?
       case Draining => k > 0 && s.chans[k - 1].Full?
       case Scanning(_) => true
       case Sending => k < |s.chans| && s.chans[k] == Empty
       case Waiting => k < |s.chans| && s.chans[k].Taken?
       case Done => false
  }

  /** The number after i: 2, then the odd numbers. */
  function Next(i: int): int { if i == 2 then 3 else i + 2 }

  function Go(s: State, k: nat, pc: Pc): State
    requires k < |s.nodes|
  {
    s.(nodes := s.nodes[k := s.nodes[k].(pc := pc)])
  }

  /** One turn of the loop over primes[j], or what follows it. */
  function Scan(s: State, k: nat, j: nat): State
    requires k < |s.nodes|
  {
    var p := s.nodes[k];
    if j < |p.primes| && !Divides(p.primes[j], p.seen) then Go(s, k, Scanning(j + 1))
    else if j < |p.primes| then Go(s, k, Receiving)
    else if !IsSink(s, k) then Go(s, k, Sending)
    else if p.seen > s.last then Go(s, k, Draining)
    else
      var s1 := s.(nodes := s.nodes[k := Node(Receiving, p.seen, p.primes + [p.seen])], out := s.out + [p.seen]);
      if |p.primes| + 1 == s.n
      then s1.(nodes := s1.nodes + [Node(Receiving, p.seen, [])], chans := s.chans + [Empty])
      else s1
  }

  function Apply(s: State, k: Label): State
    requires Enabled(s, k)
  {
    var p := s.nodes[k];
    match p.pc
    case Receiving =>
      s.(nodes := s.nodes[k := Node(Scanning(0), s.chans[k - 1].msg, p.primes)],
          chans := s.chans[k - 1 := Taken(INT_SIZE)])
    case Scanning(j) => Scan(s, k, j)
    case Sending => Go(s, k, Waiting).(chans := s.chans[k := Full(p.seen)])
    case Waiting =>
      var s1 := s.(chans := s.chans[k := Empty]);
      if k == 0 then
        if s.chans[k].count == 0 then Go(s1, 0, Done)
        else s1.(nodes := s.nodes[0 := Node(Sending, Next(p.seen), p.primes)])
      else Go(s1, k, if s.chans[k].count == 0 then Draining else Receiving)
    case Draining => Go(s, k, Done).(chans := s.chans[k - 1 := Taken(0)])
    case Done => s
  }

  // ---------------------------------------------------------------- invariants

  predicate Closed(p: Node) { p.pc == Draining || p.pc == Done }

  /** No prime of a node before k divides x. */
  ghost predicate Survives(s: State, k: nat, x: int)
  {
    forall i, j :: 0 <= i < k && i < |s.nodes| && 0 <= j < |s.nodes[i].primes| ==> !Divides(s.nodes[i].primes[j], x)
  }

  /** c never reaches node k: a node before it drops it, or the source skips it. */
  ghost predicate Dropped(s: State, k: nat, c: int)
  {
    (c % 2 == 0 && c > 2) || exists i, j ::
        0 <= i < k && i < |s.nodes| && 0 <= j < |s.nodes[i].primes| && Divides(s.nodes[i].primes[j], c)
  }

  /** Who stands where at the two ends of chans[k]. */
  predicate Control(s: State, k: nat)
    requires k < |s.chans| == |s.nodes| - 1
  {
    var u, c, v := s.nodes[k], s.chans[k], s.nodes[k + 1];
    && (u.pc == Waiting <==> c != Empty)
    && (c.Taken? ==> (c.count == 0 <==> v.pc == Done))
    && (Closed(u) ==> v.pc == Done)
    && (v.pc == Done ==> Closed(u) || c == Taken(0))
    && (k > 0 ==> |u.primes| == s.n)
  }

  ghost predicate Shape(s: State)
  {
    && 1 <= s.n <= 255
    && |s.nodes| >= 2 && |s.chans| == |s.nodes| - 1
    && (s.nodes[0].pc in {Sending, Waiting, Done}) && s.nodes[0].primes == []
    && (s.nodes[|s.nodes| - 1].pc !in {Sending, Waiting}) && |s.nodes[|s.nodes| - 1].primes| < s.n
    && (forall k :: 0 <= k < |s.chans| ==> Control(s, k))
  }

  /** What lies between the numbers that node k+1 and node k are at will never reach k+1. */
  ghost predicate Gap(s: State, k: nat)
    requires k < |s.chans| == |s.nodes| - 1
  {
    1 <= s.nodes[k + 1].seen <= s.nodes[k].seen
    && forall x {:trigger Dropped(s, k + 1, x)} :: s.nodes[k + 1].seen < x < s.nodes[k].seen ==> Dropped(s, k + 1, x)
  }

  /** Until node k+1 has returned: what becomes of the number that node k is at. */
  ghost predicate Flow(s: State, k: nat)
    requires k < |s.chans| == |s.nodes| - 1
  {
    var u, c, v := s.nodes[k], s.chans[k], s.nodes[k + 1];
    && Gap(s, k)
    && (v.pc != Done ==>
          && (u.pc == Receiving ==> u.seen == v.seen || Dropped(s, k + 1, u.seen))
          && (u.pc.Scanning? || u.pc == Sending || c.Full? ==> v.seen < u.seen)
          && (u.pc == Waiting && c.Taken? ==> v.seen == u.seen)
          && (c.Full? ==> c.msg == u.seen)
          && (u.pc == Sending || c.Full? ==> Survives(s, k + 1, u.seen)))
  }

  ghost predicate Work(s: State, k: nat)
    requires 0 < k < |s.nodes|
  {
    var p := s.nodes[k];
    && (p.pc.Scanning? ==>
          && p.seen >= 2 && Survives(s, k, p.seen) && p.pc.j <= |p.primes|
          && forall i :: 0 <= i < p.pc.j ==> !Divides(p.primes[i], p.seen))
    && forall j :: 0 <= j < |p.primes| ==> p.primes[j] >= 2 && p.primes[j] in s.out
  }

  ghost predicate Owned(s: State, p: int)
  {
    exists i, j :: 0 <= i < |s.nodes| && 0 <= j < |s.nodes[i].primes| && s.nodes[i].primes[j] == p
  }

  function Sink(s: State): Node
    requires |s.nodes| > 0
  {
    s.nodes[|s.nodes| - 1]
  }

  ghost predicate Pipe(s: State)
    requires |s.nodes| >= 2 && |s.chans| == |s.nodes| - 1
  {
    && (forall k :: 0 <= k < |s.chans| ==> Flow(s, k))
    && (forall k :: 0 < k < |s.nodes| ==> Work(s, k))
    && (s.nodes[0].seen == 2 || (s.nodes[0].seen >= 3 && s.nodes[0].seen % 2 == 1))
    && (forall p :: p in s.out ==> p <= s.last && Owned(s, p))
    && |s.nodes| <= |s.out| + 2
  }

  /** The number up to which the sink has printed every prime. */
  function Reached(s: State): int
    requires |s.nodes| > 0
  {
    if Sink(s).pc == Receiving then Sink(s).seen else Sink(s).seen - 1
  }

  ghost predicate Inv(s: State)
  {
    && Shape(s) && Pipe(s)
    && s.out == UpTo(Reached(s))
    && (Closed(Sink(s)) ==> s.out == UpTo(s.last))
  }

  lemma InitialInv(s: State)
    requires Initial(s)
    ensures Inv(s)
  {
    assert UpTo(1) == [];
  }

  // ---------------------------------------------------------------- control

  lemma ShapeStep(s: State, k: Label)
    requires Shape(s) && Enabled(s, k)
    ensures Shape(Apply(s, k))
  {
    var s' := Apply(s, k);
    assert |s'.chans| == |s'.nodes| - 1;
    forall i | 0 <= i < |s'.chans| ensures Control(s', i) {
      ControlStep(s, k, i);
    }
    hide Control;
  }

  lemma ControlStep(s: State, k: Label, i: nat)
    requires Shape(s) && Enabled(s, k) && i < |Apply(s, k).chans|
    ensures |Apply(s, k).chans| == |Apply(s, k).nodes| - 1 && Control(Apply(s, k), i)
  {
    if i < |s.chans| { assert Control(s, i); }
  }

  // ---------------------------------------------------------------- flow

  /** Only the sink's primes grow, so nothing changes for what reaches the nodes there are. */
  lemma SameDrops(s: State, s': State, k: nat)
    requires k <= |s.nodes| <= |s'.nodes| && forall i :: 0 <= i < k ==> s.nodes[i].primes == s'.nodes[i].primes
    ensures forall x :: Survives(s, k, x) <==> Survives(s', k, x)
    ensures forall x :: Dropped(s, k, x) <==> Dropped(s', k, x)
  {
  }

  /** A link whose two ends and whose earlier primes are as before flows as before. */
  lemma FlowKeep(s: State, s': State, i: nat)
    requires |s.chans| == |s.nodes| - 1 && |s'.chans| == |s'.nodes| - 1 && i < |s.chans| <= |s'.chans|
    requires Flow(s, i) && forall m :: 0 <= m <= i ==> s.nodes[m].primes == s'.nodes[m].primes
    requires s.nodes[i].pc == s'.nodes[i].pc && s.nodes[i].seen == s'.nodes[i].seen
    requires s.chans[i] == s'.chans[i] && s.nodes[i + 1].seen == s'.nodes[i + 1].seen
    requires s.nodes[i + 1].pc == Done ==> s'.nodes[i + 1].pc == Done
    ensures Flow(s', i)
  {
    SameDrops(s, s', i + 1);
  }

  lemma WorkKeep(s: State, s': State, i: nat)
    requires 0 < i < |s.nodes| <= |s'.nodes| && Work(s, i) && s.out <= s'.out
    requires forall m :: 0 <= m <= i ==> s.nodes[m].primes == s'.nodes[m].primes
    requires s.nodes[i] == s'.nodes[i]
    ensures Work(s', i)
  {
    SameDrops(s, s', i);
  }

  lemma OwnedKeep(s: State, s': State, p: int)
    requires |s.nodes| <= |s'.nodes| && Owned(s, p)
    requires forall m :: 0 <= m < |s.nodes| ==> s.nodes[m].primes <= s'.nodes[m].primes
    ensures Owned(s', p)
  {
    var i, j :| 0 <= i < |s.nodes| && 0 <= j < |s.nodes[i].primes| && s.nodes[i].primes[j] == p;
    assert s'.nodes[i].primes[j] == p;
  }

  /** What is dropped before the sink is no prime beyond those printed. */
  lemma DroppedIsComposite(s: State, c: int)
    requires Inv(s) && Dropped(s, |s.nodes| - 1, c) && c > Sink(s).seen
    ensures !IsPrime(c)
  {
    if c % 2 == 0 && c > 2 {
    } else {
      var i, j :| 0 <= i < |s.nodes| - 1 && 0 <= j < |s.nodes[i].primes| && Divides(s.nodes[i].primes[j], c);
      var p := s.nodes[i].primes[j];
      assert Work(s, i);
      UpToContains(Reached(s), p);
      assert 2 <= p < c && c % p == 0;
    }
  }

  /** A number that passes every filter and the sink's own primes is prime. */
  lemma SurvivorIsPrime(s: State)
    requires Inv(s) && Sink(s).pc.Scanning? && Sink(s).pc.j == |Sink(s).primes|
    ensures IsPrime(Sink(s).seen)
  {
    var k, x := |s.nodes| - 1, Sink(s).seen;
    assert Work(s, k);
    forall p | IsPrime(p) && p < x ensures x % p != 0 {
      UpToContains(x - 1, p);
      assert Owned(s, p);
      var i, j :| 0 <= i < |s.nodes| && 0 <= j < |s.nodes[i].primes| && s.nodes[i].primes[j] == p;
      assert !Divides(s.nodes[i].primes[j], x);
    }
    NoPrimeDivisor(x);
  }

  // ---------------------------------------------------------------- one lemma a kind of step

  lemma DropsGrow(s: State, k: nat, c: int)
    requires Dropped(s, k, c)
    ensures Dropped(s, k + 1, c)
  {
  }

  lemma PipeReceive(s: State, k: Label)
    requires Inv(s) && Enabled(s, k) && s.nodes[k].pc == Receiving
    ensures Inv(Apply(s, k))
  {
    var s' := Apply(s, k);
    ShapeStep(s, k);
    var x := s.chans[k - 1].msg;
    assert Flow(s, k - 1) && Work(s, k) && Control(s, k - 1);
    forall i | 0 <= i < |s'.chans| ensures Flow(s', i) {
      if i != k - 1 && i != k { assert Flow(s, i); FlowKeep(s, s', i); }
      if i == k - 1 { SameDrops(s, s', k); }
      if i == k { FlowReceived(s, k); }
    }
    forall i | 0 < i < |s'.nodes| ensures Work(s', i) {
      assert Work(s, i);
      if i != k { WorkKeep(s, s', i); } else { SameDrops(s, s', k); }
    }
    forall p | p in s'.out ensures Owned(s', p) { OwnedKeep(s, s', p); }
    if IsSink(s, k) {
      forall c | s.nodes[k].seen < c <= x - 1 ensures !IsPrime(c) {
        assert Dropped(s, k, c);
        DroppedIsComposite(s, c);
      }
      UpToSkips(s.nodes[k].seen, x - 1);
    }
  }

  /** A number that goes by node k without being sent to it is dropped before node k+1 as well. */
  lemma FlowReceived(s: State, k: Label)
    requires Shape(s) && Enabled(s, k) && s.nodes[k].pc == Receiving && k < |s.chans|
    requires Flow(s, k - 1) && Flow(s, k) && Control(s, k - 1) && Control(s, k)
    ensures |Apply(s, k).chans| == |Apply(s, k).nodes| - 1 == |s.chans| && Flow(Apply(s, k), k)
  {
    var s' := Apply(s, k);
    var lo, x := s.nodes[k + 1].seen, s.chans[k - 1].msg;
    SameDrops(s, s', k + 1);
    forall c {:trigger Dropped(s', k + 1, c)} | lo < c < x ensures Dropped(s', k + 1, c) {
      if c > s.nodes[k].seen {
        assert Dropped(s, k, c);
        DropsGrow(s, k, c);
      }
    }
  }

  /** A step that leaves out, the primes and the number of every node but the source alone,
      and starts no scan. */
  lemma PipeQuiet(s: State, s': State)
    requires Inv(s) && |s'.nodes| == |s.nodes| && s'.out == s.out && s'.last == s.last
    requires forall i :: 0 <= i < |s.nodes| ==> s'.nodes[i].primes == s.nodes[i].primes
    requires forall i ::
        0 < i < |s.nodes| ==>
        s'.nodes[i].seen == s.nodes[i].seen && (s'.nodes[i].pc.Scanning? ==> s'.nodes[i].pc == s.nodes[i].pc)
    ensures forall k :: 0 < k < |s'.nodes| ==> Work(s', k)
    ensures forall p :: p in s'.out ==> Owned(s', p)
  {
    forall i | 0 < i < |s'.nodes| ensures Work(s', i) {
      assert Work(s, i);
      SameDrops(s, s', i);
    }
    forall p | p in s'.out ensures Owned(s', p) { OwnedKeep(s, s', p); }
  }

  lemma PipeChannels(s: State, k: Label)
    requires Inv(s) && Enabled(s, k) && s.nodes[k].pc in {Sending, Waiting, Draining}
    ensures Inv(Apply(s, k))
  {
    var s' := Apply(s, k);
    ShapeStep(s, k);
    PipeQuiet(s, s');
    forall i | 0 <= i < |s'.chans| ensures Flow(s', i) {
      assert Flow(s, i) && Control(s, i) && Control(s', i);
      ChannelFlow(s, k, i);
    }
    hide Flow, Control, Work;
  }

  lemma ChannelFlow(s: State, k: Label, i: nat)
    requires Shape(s) && Enabled(s, k) && s.nodes[k].pc in {Sending, Waiting, Draining} && i < |s.chans|
    requires |Apply(s, k).chans| == |Apply(s, k).nodes| - 1 == |s.chans|
    requires Flow(s, i) && Control(s, i) && Control(Apply(s, k), i)
    requires s.nodes[0].seen == 2 || (s.nodes[0].seen >= 3 && s.nodes[0].seen % 2 == 1)
    ensures Flow(Apply(s, k), i)
  {
    SameDrops(s, Apply(s, k), i + 1);
  }

  /** A node that moves on its own leaves every link but its outgoing one as it was. */
  lemma PipeGo(s: State, s': State, k: Label, pc: Pc)
    requires Inv(s) && 0 < k < |s.nodes| && s' == Go(s, k, pc) && s.nodes[k].pc != Done
    requires Work(s', k) && (k < |s.chans| ==> Flow(s', k))
    ensures Pipe(s')
  {
    forall i | 0 <= i < |s'.chans| ensures Flow(s', i) {
      assert Flow(s, i);
      if i != k { FlowKeep(s, s', i); }
    }
    forall i | 0 < i < |s'.nodes| ensures Work(s', i) {
      assert Work(s, i);
      if i != k { WorkKeep(s, s', i); }
    }
    forall q | q in s'.out ensures Owned(s', q) { OwnedKeep(s, s', q); }
  }

  lemma PipeScan(s: State, k: Label)
    requires Inv(s) && Enabled(s, k) && s.nodes[k].pc.Scanning?
    requires !(IsSink(s, k) && s.nodes[k].pc.j == |s.nodes[k].primes|)
    ensures Inv(Apply(s, k))
  {
    ScanGoes(s, k);
    var s' := Apply(s, k);
    ShapeStep(s, k);
    ScanWork(s, k);
    ScanReached(s, k);
    if k < |s.chans| {
      assert Flow(s, k) && Control(s, k) && Work(s, k);
      FlowScanned(s, k);
    }
    hide Apply, Enabled, Work, Flow, Control;
    PipeGo(s, s', k, s'.nodes[k].pc);
  }

  lemma ScanGoes(s: State, k: Label)
    requires Inv(s) && Enabled(s, k) && s.nodes[k].pc.Scanning?
    requires !(IsSink(s, k) && s.nodes[k].pc.j == |s.nodes[k].primes|)
    ensures k > 0 && k < |Apply(s, k).nodes| && Apply(s, k) == Go(s, k, Apply(s, k).nodes[k].pc)
  {
    assert k > 0;
    assert Work(s, k);
  }

  lemma ScanWork(s: State, k: Label)
    requires Inv(s) && Enabled(s, k) && s.nodes[k].pc.Scanning? && 0 < k < |Apply(s, k).nodes|
    requires !(IsSink(s, k) && s.nodes[k].pc.j == |s.nodes[k].primes|)
    ensures Work(Apply(s, k), k)
  {
    assert Work(s, k);
    SameDrops(s, Apply(s, k), k);
  }

  /** Scanning prints nothing, and the sink goes past a number only when that is no prime. */
  lemma ScanReached(s: State, k: Label)
    requires Inv(s) && Enabled(s, k) && s.nodes[k].pc.Scanning? && k > 0
    requires Apply(s, k) == Go(s, k, Apply(s, k).nodes[k].pc)
    requires !(IsSink(s, k) && s.nodes[k].pc.j == |s.nodes[k].primes|)
    ensures var s' := Apply(s, k);
            |s'.nodes| > 0 && s'.out == UpTo(Reached(s')) && (Closed(Sink(s')) ==> s'.out == UpTo(s'.last))
  {
    assert Work(s, k);
    if IsSink(s, k) && Apply(s, k).nodes[k].pc == Receiving {
      SinkDrops(s, k);
    }
  }

  /** A number that one of the sink's own primes divides is no prime. */
  lemma SinkDrops(s: State, k: nat)
    requires 0 < k < |s.nodes| && Work(s, k) && s.nodes[k].pc.Scanning? && s.nodes[k].pc.j < |s.nodes[k].primes|
    requires Divides(s.nodes[k].primes[s.nodes[k].pc.j], s.nodes[k].seen) && s.out == UpTo(s.nodes[k].seen - 1)
    ensures s.out == UpTo(s.nodes[k].seen)
  {
    var x, q := s.nodes[k].seen, s.nodes[k].primes[s.nodes[k].pc.j];
    assert q in s.out && q >= 2;
    UpToContains(x - 1, q);
    assert !IsPrime(x);
    UpToSkips(x - 1, x);
  }

  /** What a filter lets pass survives its primes too; what it does not is dropped. */
  lemma FlowScanned(s: State, k: Label)
    requires Shape(s) && Enabled(s, k) && s.nodes[k].pc.Scanning? && 0 < k < |s.chans|
    requires Flow(s, k) && Work(s, k) && Control(s, k)
    ensures |Apply(s, k).chans| == |Apply(s, k).nodes| - 1 == |s.chans| && Flow(Apply(s, k), k)
  {
    var s', p, j := Apply(s, k), s.nodes[k], s.nodes[k].pc.j;
    SameDrops(s, s', k + 1);
    if j < |p.primes| && Divides(p.primes[j], p.seen) {
      assert Divides(s.nodes[k].primes[j], p.seen);
      assert Dropped(s, k + 1, p.seen);
    } else if j == |p.primes| {
      assert Survives(s, k + 1, p.seen);
    }
  }

  lemma PipePrint(s: State, k: Label)
    requires Inv(s) && Enabled(s, k) && s.nodes[k].pc.Scanning?
    requires IsSink(s, k) && s.nodes[k].pc.j == |s.nodes[k].primes| && s.nodes[k].seen <= s.last
    ensures Inv(Apply(s, k))
  {
    var s', p := Apply(s, k), s.nodes[k];
    ShapeStep(s, k);
    SurvivorIsPrime(s);
    assert s'.out == UpTo(p.seen);
    forall i | 0 <= i < |s'.chans| ensures Flow(s', i) { PrintFlow(s, k, i); }
    forall i | 0 < i < |s'.nodes| ensures Work(s', i) { PrintWork(s, k, i); }
    forall q | q in s'.out ensures q <= s'.last && Owned(s', q) {
      if q in s.out {
        OwnedKeep(s, s', q);
      } else {
        assert q == p.seen && s'.nodes[k].primes[|p.primes|] == q;
      }
    }
    hide Shape, Flow, Work, Owned;
  }

  lemma PrintFlow(s: State, k: Label, i: nat)
    requires Inv(s) && Enabled(s, k) && s.nodes[k].pc.Scanning? && i < |Apply(s, k).chans|
    requires IsSink(s, k) && s.nodes[k].pc.j == |s.nodes[k].primes| && s.nodes[k].seen <= s.last
    ensures |Apply(s, k).chans| == |Apply(s, k).nodes| - 1 && Flow(Apply(s, k), i)
  {
    assert Work(s, k);
    if i < |s.chans| {
      assert Flow(s, i);
      SameDrops(s, Apply(s, k), i + 1);
    }
  }

  lemma PrintWork(s: State, k: Label, i: nat)
    requires Inv(s) && Enabled(s, k) && s.nodes[k].pc.Scanning? && 0 < i < |Apply(s, k).nodes|
    requires IsSink(s, k) && s.nodes[k].pc.j == |s.nodes[k].primes| && s.nodes[k].seen <= s.last
    ensures Work(Apply(s, k), i)
  {
    assert Work(s, k);
    if i < k {
      assert Work(s, i);
      WorkKeep(s, Apply(s, k), i);
    }
  }

  /** The sink leaves its loop exactly when everything up to last has been printed. */
  lemma PipeLeave(s: State, k: Label)
    requires Inv(s) && Enabled(s, k) && s.nodes[k].pc.Scanning?
    requires IsSink(s, k) && s.nodes[k].pc.j == |s.nodes[k].primes| && s.nodes[k].seen > s.last
    ensures Inv(Apply(s, k))
  {
    var s' := Apply(s, k);
    ShapeStep(s, k);
    var b := s.nodes[k].seen - 1;
    forall c | s.last < c <= b ensures !IsPrime(c) { UpToContains(b, c); }
    UpToSkips(s.last, b);
    PipeQuiet(s, s');
    forall i | 0 <= i < |s'.chans| ensures Flow(s', i) { assert Flow(s, i); FlowKeep(s, s', i); }
  }

  lemma StepInv(s: State, k: Label)
    requires Inv(s) && Enabled(s, k)
    ensures Inv(Apply(s, k))
  {
    var p := s.nodes[k];
    match p.pc
    case Receiving => PipeReceive(s, k);
    case Scanning(j) =>
      assert k > 0;
      assert Work(s, k);
      if IsSink(s, k) && j == |p.primes| {
        if p.seen > s.last { PipeLeave(s, k); } else { PipePrint(s, k); }
      } else {
        PipeScan(s, k);
      }
    case Done => assert false;
    case _ => PipeChannels(s, k);
  }

  // ---------------------------------------------------------------- runs

  ghost predicate Runs(s: State, ls: seq<Label>)
    decreases |ls|
  {
    ls == [] || (Enabled(s, ls[0]) && Runs(Apply(s, ls[0]), ls[1..]))
  }

  function Exec(s: State, ls: seq<Label>): State
    requires Runs(s, ls)
    decreases |ls|
  {
    if ls == [] then s else Exec(Apply(s, ls[0]), ls[1..])
  }

  lemma {:induction false} RunInv(s: State, ls: seq<Label>)
    requires Inv(s) && Runs(s, ls)
    ensures Inv(Exec(s, ls)) && Exec(s, ls).last == s.last
    decreases |ls|
  {
    if ls != [] {
      StepInv(s, ls[0]);
      RunInv(Apply(s, ls[0]), ls[1..]);
    }
  }

  /** What has been printed are the first so many primes up to last. */
  lemma PrintedAtMost(s: State)
    requires Inv(s)
    ensures s.out <= UpTo(s.last)
  {
    var b := Reached(s);
    if b <= s.last {
      UpToPrefix(b, s.last);
    } else {
      forall c | s.last < c <= b ensures !IsPrime(c) { UpToContains(b, c); }
      UpToSkips(s.last, b);
    }
  }

  /** In every state of every run the printed numbers are the first so many primes up to last. */
  lemma PrintsPrimes(s: State, ls: seq<Label>)
    requires Initial(s) && Runs(s, ls)
    ensures Exec(s, ls).out <= UpTo(s.last)
  {
    InitialInv(s);
    RunInv(s, ls);
    PrintedAtMost(Exec(s, ls));
  }

  /** The sink's stores to primes[i++] and primes[i] stay inside its 256 elements. */
  lemma ArrayFits(s: State, ls: seq<Label>, k: nat)
    requires Initial(s) && Runs(s, ls) && k < |Exec(s, ls).nodes|
    ensures |Exec(s, ls).nodes[k].primes| + 1 <= 256
  {
    InitialInv(s);
    RunInv(s, ls);
    if k < |Exec(s, ls).chans| { assert Control(Exec(s, ls), k); }
  }

  predicate SinkLeft(s: State)
  {
    |s.nodes| > 0 && Closed(Sink(s))
  }

  /** Once the sink has left its loop the whole list is out, whatever the schedule was. */
  lemma PrintsAllPrimes(s: State, ls: seq<Label>)
    requires Initial(s) && Runs(s, ls) && SinkLeft(Exec(s, ls))
    ensures Exec(s, ls).out == UpTo(s.last)
  {
    InitialInv(s);
    RunInv(s, ls);
  }

  predicate Finished(s: State)
  {
    forall k :: 0 <= k < |s.nodes| ==> s.nodes[k].pc == Done
  }

  /** Looking upstream from a node that waits for input, somebody can go on. */
  lemma {:induction false} UpstreamMoves(s: State, k: nat) returns (m: Label)
    requires Shape(s) && 0 < k < |s.nodes| && s.nodes[k].pc in {Receiving, Draining}
    ensures Enabled(s, m)
    decreases k
  {
    assert Control(s, k - 1);
    if s.chans[k - 1].Full? {
      m := k;
    } else if s.chans[k - 1].Taken? || s.nodes[k - 1].pc.Scanning? || s.nodes[k - 1].pc == Sending {
      m := k - 1;
    } else {
      m := UpstreamMoves(s, k - 1);
    }
  }

  /** The most downstream node that is not done, or somebody upstream of it, can go on. */
  lemma {:induction false} SomebodyMoves(s: State, k: nat) returns (m: Label)
    requires Shape(s) && k < |s.nodes| && s.nodes[k].pc != Done
    requires forall i :: k < i < |s.nodes| ==> s.nodes[i].pc == Done
    ensures Enabled(s, m)
  {
    if k < |s.chans| { assert Control(s, k); }
    if s.nodes[k].pc in {Receiving, Draining} {
      m := UpstreamMoves(s, k);
    } else {
      m := k;
    }
  }

  lemma {:induction false} LastNotDone(s: State, k: nat) returns (m: nat)
    requires k < |s.nodes| && s.nodes[k].pc != Done
    ensures k <= m < |s.nodes| && s.nodes[m].pc != Done && forall i :: m < i < |s.nodes| ==> s.nodes[i].pc == Done
    decreases |s.nodes| - k
  {
    if i :| k < i < |s.nodes| && s.nodes[i].pc != Done {
      m := LastNotDone(s, i);
    } else {
      m := k;
    }
  }

  /** No run ever gets stuck: some thread can go on until all of them have returned, also while
      zero-size receives shut the pipeline down. */
  lemma NeverStuck(s: State, ls: seq<Label>)
    requires Initial(s) && Runs(s, ls) && !Finished(Exec(s, ls))
    ensures exists m :: Enabled(Exec(s, ls), m)
  {
    InitialInv(s);
    RunInv(s, ls);
    var e := Exec(s, ls);
    var k :| 0 <= k < |e.nodes| && e.nodes[k].pc != Done;
    var k' := LastNotDone(e, k);
    var m := SomebodyMoves(e, k');
  }

  // ---------------------------------------------------------------- every run ends

  /** No node gets past this number. */
  ghost function Horizon(last: int): int
  {
    Untouched(last, |UpTo(last)| + 2)
  }

  /** Numbers that no prime up to last divides are never dropped. */
  lemma UntouchedNotDropped(s: State, k: nat, m: nat)
    requires Inv(s) && k < |s.nodes|
    ensures !Dropped(s, k, Untouched(s.last, m))
  {
    var x := Untouched(s.last, m);
    assert x == (m * Product(UpTo(s.last))) * 2 + 1;
    OneMore(m * Product(UpTo(s.last)), 2);
    if Dropped(s, k, x) {
      var i, j :| 0 <= i < k && 0 <= j < |s.nodes[i].primes| && Divides(s.nodes[i].primes[j], x);
      assert Work(s, i);
      var p := s.nodes[i].primes[j];
      UpToContains(Reached(s), p);
      UntouchedBy(s.last, m, p);
    }
  }

  lemma SinkBounded(s: State)
    requires Inv(s)
    ensures Sink(s).seen <= Untouched(s.last, 1)
  {
    var p := PrimeAbove(s.last);
    UpToContains(Reached(s), p);
  }

  lemma {:induction false} SeenBounded(s: State, k: nat)
    requires Inv(s) && k < |s.nodes|
    ensures s.nodes[k].seen <= Untouched(s.last, |s.nodes| - k)
    decreases |s.nodes| - k
  {
    if k == |s.nodes| - 1 {
      SinkBounded(s);
    } else {
      SeenBounded(s, k + 1);
      var m := |s.nodes| - k;
      UntouchedGrows(s.last, m - 1);
      UntouchedNotDropped(s, k + 1, m);
      assert Flow(s, k);
      assert !Dropped(s, k + 1, Untouched(s.last, m));
    }
  }

  lemma {:induction false} UntouchedMonotone(m: int, i: nat, j: nat)
    requires i <= j
    ensures 1 <= Untouched(m, i) <= Untouched(m, j)
    decreases j
  {
    UntouchedGrows(m, i);
    if i < j {
      UntouchedMonotone(m, i, j - 1);
      UntouchedGrows(m, j - 1);
    }
  }

  lemma FewNodes(s: State)
    requires Inv(s)
    ensures |s.nodes| <= |UpTo(s.last)| + 2
  {
    PrintedAtMost(s);
  }

  ghost predicate Below(s: State, h: int)
  {
    forall k :: 0 <= k < |s.nodes| ==> 1 <= s.nodes[k].seen <= h
  }

  lemma AllBelowHorizon(s: State)
    requires Inv(s)
    ensures Below(s, Horizon(s.last))
  {
    forall k | 0 <= k < |s.nodes| ensures 1 <= s.nodes[k].seen <= Horizon(s.last) {
      SeenBounded(s, k);
      FewNodes(s);
      UntouchedMonotone(s.last, |s.nodes| - k, |UpTo(s.last)| + 2);
      if k > 0 { assert Flow(s, k - 1); }
    }
  }

  /** How much a node still has ahead of it. */
  function Rank(p: Node, h: int): int
  {
    (h - p.seen) * 300 +
    match p.pc
    case Scanning(j) => 299 - j
    case Sending => 4
    case Waiting => 3
    case Receiving => 2
    case Draining => 1
    case Done => 0
  }

  function Total(nodes: seq<Node>, h: int): int
  {
    if nodes == [] then 0 else Rank(nodes[0], h) + Total(nodes[1..], h)
  }

  lemma {:induction false} TotalUpdate(nodes: seq<Node>, h: int, k: nat, p: Node)
    requires k < |nodes|
    ensures Total(nodes[k := p], h) == Total(nodes, h) - Rank(nodes[k], h) + Rank(p, h)
  {
    if k > 0 {
      TotalUpdate(nodes[1..], h, k - 1, p);
      assert nodes[k := p][1..] == nodes[1..][k - 1 := p];
    } else {
      assert nodes[k := p][1..] == nodes[1..];
    }
  }

  lemma {:induction false} TotalAppend(nodes: seq<Node>, h: int, p: Node)
    ensures Total(nodes + [p], h) == Total(nodes, h) + Rank(p, h)
  {
    if nodes != [] {
      TotalAppend(nodes[1..], h, p);
      assert (nodes + [p])[1..] == nodes[1..] + [p];
    } else {
      assert nodes + [p] == [p] && [p][1..] == [];
    }
  }

  /** Room for nodes that are still to come. */
  function Spare(more: int, h: int): int
  {
    more * (300 * h + 300)
  }

  lemma SpareSteps(more: int, h: int)
    requires h >= 1
    ensures Spare(more - 1, h) == Spare(more, h) - (300 * h + 300)
    ensures more >= 0 ==> Spare(more, h) >= 0
  {
    assert (more - 1) * (300 * h + 300) == more * (300 * h + 300) - (300 * h + 300);
  }

  /** The steps that are left at most: those of the nodes there are and of those to come. */
  ghost function Measure(s: State): int
  {
    Total(s.nodes, Horizon(s.last)) + Spare(|UpTo(s.last)| + 2 - |s.nodes|, Horizon(s.last))
  }

  lemma {:induction false} TotalNonNegative(nodes: seq<Node>, h: int)
    requires forall k :: 0 <= k < |nodes| ==> nodes[k].seen <= h && (nodes[k].pc.Scanning? ==> nodes[k].pc.j <= 255)
    ensures Total(nodes, h) >= 0
  {
    if nodes != [] {
      TotalNonNegative(nodes[1..], h);
    }
  }

  lemma MeasureNonNegative(s: State)
    requires Inv(s)
    ensures Measure(s) >= 0
  {
    AllBelowHorizon(s);
    FewNodes(s);
    forall k | 0 <= k < |s.nodes| && s.nodes[k].pc.Scanning? ensures s.nodes[k].pc.j <= 255 {
      if k < |s.chans| { assert Control(s, k); }
      assert Work(s, k);
    }
    TotalNonNegative(s.nodes, Horizon(s.last));
    SpareSteps(|UpTo(s.last)| + 2 - |s.nodes|, Horizon(s.last));
  }

  lemma MeasureDecreases(s: State, k: Label)
    requires Inv(s) && Enabled(s, k)
    ensures Measure(Apply(s, k)) < Measure(s)
  {
    var s' := Apply(s, k);
    RankDecreases(s, k);
    if |s'.nodes| > |s.nodes| { Spawned(s, k); }
    assert s'.nodes[..|s.nodes|] == s.nodes[k := s'.nodes[k]];
    assert |s'.nodes| <= |s.nodes| + 1 && s'.last == s.last;
    hide Inv, Apply, Enabled, Rank, Horizon;
    MeasureLess(s, s', k);
  }

  /** The node that a step adds. */
  lemma Spawned(s: State, k: Label)
    requires Inv(s) && Enabled(s, k) && |Apply(s, k).nodes| > |s.nodes|
    ensures Rank(Apply(s, k).nodes[|s.nodes|], Horizon(s.last)) < 300 * Horizon(s.last) + 300 && Horizon(s.last) >= 1
  {
    AllBelowHorizon(s);
    assert 1 <= s.nodes[k].seen <= Horizon(s.last);
  }

  /** The rank of one node falls, and a node that is added takes up less than was set aside for it. */
  lemma MeasureLess(s: State, s': State, k: nat)
    requires k < |s.nodes| <= |s'.nodes| <= |s.nodes| + 1 && s'.last == s.last
    requires s'.nodes[..|s.nodes|] == s.nodes[k := s'.nodes[k]]
        && Rank(s'.nodes[k], Horizon(s.last)) < Rank(s.nodes[k], Horizon(s.last))
    requires |s'.nodes| > |s.nodes| ==>
        Horizon(s.last) >= 1 && Rank(s'.nodes[|s.nodes|], Horizon(s.last)) < 300 * Horizon(s.last) + 300
    ensures Measure(s') < Measure(s)
  {
    hide Rank, Horizon, Total, Spare;
    var h, m := Horizon(s.last), s.nodes[k := s'.nodes[k]];
    TotalUpdate(s.nodes, h, k, s'.nodes[k]);
    if |s'.nodes| > |s.nodes| {
      var q := s'.nodes[|s.nodes|];
      assert s'.nodes == m + [q];
      TotalAppend(m, h, q);
      SpareSteps(|UpTo(s.last)| + 2 - |s.nodes|, h);
    } else {
      assert s'.nodes == m;
    }
  }

  lemma RankDecreases(s: State, k: Label)
    requires Inv(s) && Enabled(s, k)
    ensures Rank(Apply(s, k).nodes[k], Horizon(s.last)) < Rank(s.nodes[k], Horizon(s.last))
  {
    if k < |s.chans| { assert Control(s, k); }
    if k > 0 { assert Work(s, k) && Flow(s, k - 1) && Control(s, k - 1); }
  }

  lemma {:induction false} RunsAreShort(s: State, ls: seq<Label>)
    requires Inv(s) && Runs(s, ls)
    ensures |ls| <= Measure(s)
    decreases |ls|
  {
    MeasureNonNegative(s);
    if ls != [] {
      StepInv(s, ls[0]);
      MeasureDecreases(s, ls[0]);
      RunsAreShort(Apply(s, ls[0]), ls[1..]);
    }
  }

  /** Total correctness over all schedules: no run is longer than a bound that depends on last
      alone, and a run that cannot be prolonged has returned from every thread and printed
      exactly the primes up to last. */
  lemma EverySchedulePrintsThePrimes(s: State, ls: seq<Label>)
    requires Initial(s) && Runs(s, ls)
    ensures |ls| <= 300 * (|UpTo(s.last)| + 2) * (Horizon(s.last) + 1)
    ensures (forall k :: !Enabled(Exec(s, ls), k)) ==> Finished(Exec(s, ls)) && Exec(s, ls).out == UpTo(s.last)
  {
    InitialInv(s);
    RunsAreShort(s, ls);
    BoundOfInitial(s);
    if forall k :: !Enabled(Exec(s, ls), k) {
      if !Finished(Exec(s, ls)) { NeverStuck(s, ls); }
      RunInv(s, ls);
    }
  }

  lemma BoundOfInitial(s: State)
    requires Initial(s)
    ensures Measure(s) <= 300 * (|UpTo(s.last)| + 2) * (Horizon(s.last) + 1)
  {
    var h, m := Horizon(s.last), |UpTo(s.last)|;
    hide Horizon;
    var sink := [s.nodes[1]];
    assert s.nodes[1..] == sink && sink[1..] == [];
    assert Total(sink, h) == Rank(s.nodes[1], h) + Total([], h) == 300 * h - 298;
    assert Total(s.nodes, h) == Rank(s.nodes[0], h) + Total(sink, h);
    hide Total, Rank;
    Bracket(m, h);
  }

  lemma Bracket(m: int, h: int)
    ensures Spare(m, h) + 600 * (h + 1) == 300 * (m + 2) * (h + 1)
  {
    assert (m + 2) * (h + 1) == m * (h + 1) + 2 * (h + 1);
    assert m * (300 * h + 300) == m * (300 * (h + 1)) == 300 * (m * (h + 1));
  }
}

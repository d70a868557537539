/** The pipeline of sieve.c uses its channels as chan.c lets them be used: what a step of module Sieve
    does to a channel is what module Channel proves a step of a sender or a receiver to do.

    On a channel the numbers are the bytes of an int. */
module SieveChannels {
  import opened Machine
  import opened Rendezvous
  import opened Sieve
  import C = Channel

  /** How numbers are stored in an int: their bytes, and the number that so many bytes are. */
  datatype Code = Code(bytes: int -> seq<byte>, number: seq<byte> -> int)

  const INT_MAX: int := 0x7fff_ffff

  /** sizeof x bytes always; they stand for the number as far as an int reaches. */
  ghost predicate Codes(code: Code)
  {
    && (forall x: int :: |code.bytes(x)| == INT_SIZE)
    && (forall x: int :: 0 <= x <= INT_MAX ==> code.number(code.bytes(x)) == x)
  }

  function Digits(x: int): (r: seq<byte>)
    ensures |r| == INT_SIZE
  {
    [x % 0x100, x / 0x100 % 0x100, x / 0x1_0000 % 0x100, x / 0x100_0000 % 0x100]
  }

  function Value(b: seq<byte>): int
  {
    if |b| == INT_SIZE then
      var b0: int, b1: int, b2: int, b3: int := b[0], b[1], b[2], b[3];
      b0 + 0x100 * (b1 + 0x100 * (b2 + 0x100 * b3))
    else 0
  }

  /** An int with its low byte first is such a code. */
  lemma LittleEndian()
    ensures Codes(Code(Digits, Value))
  {
    forall x: int | 0 <= x <= INT_MAX ensures Value(Digits(x)) == x {
      assert x / 0x1_0000 == x / 0x100 / 0x100 && x / 0x100_0000 == x / 0x1_0000 / 0x100;
    }
  }

  /** The slot as Channel sees it. */
  function Wire(code: Code, c: Slot<int>): Slot<seq<byte>>
  {
    match c
    case Empty => Empty
    case Full(x) => Full(code.bytes(x))
    case Taken(n) => Taken(n)
  }

  /** Node k uses channel c next: as its sender, or as its receiver. */
  predicate Uses(s: State, k: nat, c: nat)
    requires k < |s.nodes|
  {
    || (k == c && (s.nodes[k].pc == Sending || s.nodes[k].pc == Waiting))
    || (k == c + 1 && (s.nodes[k].pc == Receiving || s.nodes[k].pc == Draining))
  }

  /** Node k as a party of channel c, at the statement of chan.c at which its step meets the slot. */
  function PartyOf(code: Code, s: State, k: nat, c: nat): C.Party
    requires k < |s.nodes| && c < |s.chans|
  {
    var x, room := code.bytes(s.nodes[k].seen), if s.nodes[k].pc == Draining then 0 else INT_SIZE;
    if !Uses(s, k, c) then C.Receiver(C.RIdle, 0, 0, [], 0)
    else if s.nodes[k].pc == Sending then C.Sender(C.SSignalRecv, x, INT_SIZE, 0)
    else if s.nodes[k].pc == Waiting then C.Sender(C.SReturn, x, if s.chans[c].Taken? then s.chans[c].count else 0, 0)
    else C.Receiver(C.RSignalSync, room, room, if s.chans[c].Full? then C.Cut(code.bytes(s.chans[c].msg), room)
        else [], 0)
  }

  /** Each step does to each channel what SlotStep allows its sender, node c, and its receiver. */
  lemma MovesAreSlotSteps(code: Code, s: State, k: nat, c: nat)
    requires Codes(code) && Enabled(s, k) && c < |s.chans|
    ensures c < |Apply(s, k).chans|
    ensures C.SlotStep(Wire(code, s.chans[c]), Wire(code, Apply(s, k).chans[c]), C.Run(k), PartyOf(code, s, k, c), c)
  {
    if k == c + 1 && s.nodes[k].pc == Receiving {
      var x := s.chans[c].msg;
      assert |code.bytes(x)| == INT_SIZE;
    }
  }

  /** A node at a channel operation can go on exactly when SlotStep allows it something, and then does
      just that. */
  lemma MovesExactly(code: Code, s: State, k: nat, c: nat, b: Slot<seq<byte>>)
    requires Codes(code) && k < |s.nodes| && c < |s.chans| == |s.nodes| - 1 && Uses(s, k, c)
    requires C.SlotStep(Wire(code, s.chans[c]), b, C.Run(k), PartyOf(code, s, k, c), c)
    ensures Enabled(s, k) && b == Wire(code, Apply(s, k).chans[c])
  {
    MovesAreSlotSteps(code, s, k, c);
  }

  /** What the calls give back is what the nodes go on with: the number received is the one whose
      bytes were copied, and a send that returns zero ends the node's loop. */
  lemma CallsGive(code: Code, s: State, k: nat, c: nat)
    requires Codes(code) && Enabled(s, k) && c < |s.chans| && Uses(s, k, c)
    ensures var p, q := PartyOf(code, s, k, c), Apply(s, k).nodes[k];
            && (s.nodes[k].pc == Receiving ==> p.buf == code.bytes(q.seen))
            && (s.nodes[k].pc == Receiving && 0 <= q.seen <= INT_MAX ==> q.seen == code.number(p.buf))
            && (s.nodes[k].pc == Draining ==> p.buf == [])
            && (s.nodes[k].pc == Waiting ==> (p.count == 0 <==> Closed(q)))
  {
    if s.nodes[k].pc == Receiving {
      var m := code.bytes(s.chans[c].msg);
      assert |m| == INT_SIZE && m[..INT_SIZE] == m;
    }
  }
}

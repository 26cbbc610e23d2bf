/**
 The RTP forwarder, src/rtp/rtp_forwarder.cc, and the runs of frames and responses on one connection.
 */
module Forwarder {
  import opened Bytes
  import opened Builder
  import opened Framing
  import opened Transport
  import opened Connections

  datatype ForwardStatus = Forwarded | InvalidPacket | ConnectionClosed | PacketTooLarge | SendFailed

  predicate ValidPacket(p: Packet) {
    0 < |p.data| <= MAX_PACKET
  }

  function FrameVectors(p: Packet): seq<Bytes> {
    [HeaderBytes(p.streamIndex, |p.data|), p.data]
  }

  /** As src/rtp/rtp_forwarder.cc:14-50 on an open connection. */
  function ForwardOutcome(p: Packet, buffered: nat, cap: nat, k: Kernel): (Sent, ForwardStatus)
    requires buffered <= cap
  {
    if p.data == [] then (Sent(0, 0, 0), InvalidPacket)
    else if |p.data| > MAX_PACKET then (Sent(0, 0, 0), PacketTooLarge)
    else
      var s := SendVOutcome(FrameVectors(p), buffered, cap, k);
      (s, if s.ret < 0 then SendFailed else Forwarded)
  }

  lemma FrameIsJoined(p: Packet)
    ensures Join(FrameVectors(p)) == FrameBytes(p)
  {
    JoinTwo(HeaderBytes(p.streamIndex, |p.data|), p.data);
  }

  method ForwardTcp(conn: Connection, packet: Packet, k: Kernel) returns (status: ForwardStatus)
    requires conn.Valid()
    modifies conn`wire, conn.writeBuffer, conn.writeBuffer.data
    ensures conn.Valid()
    ensures conn.IsClosed() ==>
              conn.Stream() == old(conn.Stream())
              && status == if packet.data == [] then InvalidPacket else ConnectionClosed
    ensures !conn.IsClosed() ==>
              var r := ForwardOutcome(packet, old(conn.writeBuffer.readable), conn.writeBuffer.capacity, k);
              && r.0.taken <= r.0.kept <= |FrameBytes(packet)|
              && conn.Stream() == Deliver(old(conn.Stream()), FrameBytes(packet), r.0)
              && status == r.1
    ensures status == PacketTooLarge <==> !conn.IsClosed() && 2048 < |packet.data|
    ensures status == InvalidPacket <==> packet.data == []
  {
    if |packet.data| == 0 {
      return InvalidPacket;
    }
    if conn.IsClosed() {
      return ConnectionClosed;
    }
    if |packet.data| > MAX_PACKET {
      return PacketTooLarge;
    }
    var header := new char[HEADER_SIZE];
    BuildInterleavedHeader(header, packet.streamIndex, |packet.data|);
    FrameIsJoined(packet);
    var iov := [header[..], packet.data];
    var ret := conn.SendV(iov, HEADER_SIZE + |packet.data|, k);
    if ret < 0 {
      return SendFailed;
    }
    return Forwarded;
  }

  // ----- Tearing -----

  /** The frame goes to the buffer vector by vector, and only its header fits: the forward is rejected. */
  predicate HeaderOnly(p: Packet, buffered: nat, cap: nat, k: Kernel) {
    (buffered > 0 || k == Room(0)) && HEADER_SIZE <= cap - buffered < |FrameBytes(p)|
  }

  /** The kernel takes part of the frame, and an empty buffer cannot hold the rest: the forward succeeds. */
  predicate CutShort(p: Packet, buffered: nat, cap: nat, k: Kernel) {
    buffered == 0 && k.Room? && 0 < k.bytes < |FrameBytes(p)| && cap < |FrameBytes(p)| - k.bytes
  }

  /**
   Which forwards tear their frame, for every capacity, and what the status tells: a rejected forward left
   nothing or the header, and a successful one its whole frame unless it was cut short.
   */
  lemma ForwardTornExactly(p: Packet, buffered: nat, cap: nat, k: Kernel)
    requires buffered <= cap && ValidPacket(p)
    ensures var (s, status) := ForwardOutcome(p, buffered, cap, k);
            var total := |FrameBytes(p)|;
            && (Torn(total, s) <==> HeaderOnly(p, buffered, cap, k) || CutShort(p, buffered, cap, k))
            && (status == Forwarded <==> s.kept == total || CutShort(p, buffered, cap, k))
            && (status != Forwarded ==>
                  s.taken == 0 && s.kept == if HeaderOnly(p, buffered, cap, k) then HEADER_SIZE else 0)
  {
    hide SendVOutcome;
    FrameTornExactly(HeaderBytes(p.streamIndex, |p.data|), p.data, buffered, cap, k);
    FrameOutcome(HeaderBytes(p.streamIndex, |p.data|), p.data, buffered, cap, k);
  }

  /** Tearing is silent exactly when the kernel takes part of a frame whose rest exceeds an empty buffer. */
  lemma SilentlyTornExactly(p: Packet, buffered: nat, cap: nat, k: Kernel)
    requires buffered <= cap && ValidPacket(p)
    ensures var (s, status) := ForwardOutcome(p, buffered, cap, k);
            var total := |FrameBytes(p)|;
            Torn(total, s) && status == Forwarded
            <==> buffered == 0 && k.Room? && 0 < k.bytes < total && cap < total - k.bytes
  {
    ForwardTornExactly(p, buffered, cap, k);
  }

  /**
   A rejected forward starts a queue, in a buffer that was empty, exactly when the kernel takes nothing and the
   buffer is large enough for the header and too small for the frame.
   */
  lemma StrandedExactly(p: Packet, cap: nat, k: Kernel)
    requires ValidPacket(p)
    ensures var (s, status) := ForwardOutcome(p, 0, cap, k);
            status != Forwarded && s.taken < s.kept <==> k == Room(0) && HEADER_SIZE <= cap < |FrameBytes(p)|
  {
    ForwardTornExactly(p, 0, cap, k);
  }

  // ----- Runs of one connection -----

  /** One critical section on the outgoing stream: an item offered, or a flush. */
  datatype Op = Offer(item: Item, k: Kernel) | FlushOp(k: Kernel)

  function CallOf(op: Op, sessionId: string): Call {
    match op
    case FlushOp(k) => Flush(k)
    case Offer(Response(r), k) => Call.Send(ReplyBytes(r, sessionId), k)
    case Offer(Media(p), k) => Call.SendV(FrameVectors(p), k)
  }

  lemma CallData(op: Op, sessionId: string)
    ensures CallOf(op, sessionId).Data() == if op.Offer? then ItemBytes(op.item, sessionId) else []
  {
    if op.Offer? && op.item.Media? {
      FrameIsJoined(op.item.packet);
    }
  }

  predicate OpAllowed(op: Op) {
    op.Offer? && op.item.Media? ==> ValidPacket(op.item.packet)
  }

  function Step(o: Out, cap: nat, op: Op, sessionId: string): (n: Out)
    requires |o.buf| <= cap
    ensures |n.buf| <= cap
  {
    PerformConserves(o, cap, CallOf(op, sessionId));
    Perform(o, cap, CallOf(op, sessionId))
  }

  function Kept(o: Out, cap: nat, op: Op, sessionId: string): nat
    requires |o.buf| <= cap
  {
    CallOf(op, sessionId).Outcome(|o.buf|, cap).kept
  }

  /** Bytes of the operation's item. */
  function Size(op: Op, sessionId: string): nat {
    if op.Offer? then |ItemBytes(op.item, sessionId)| else 0
  }

  function RunOps(o: Out, cap: nat, ops: seq<Op>, sessionId: string): (n: Out)
    requires |o.buf| <= cap
    ensures |n.buf| <= cap
    decreases |ops|
  {
    if ops == [] then o else Step(RunOps(o, cap, ops[..|ops| - 1], sessionId), cap, ops[|ops| - 1], sessionId)
  }

  /** Did operation `i` of the run put a proper part of its item into the stream? */
  predicate TornAt(o: Out, cap: nat, ops: seq<Op>, sessionId: string, i: nat)
    requires |o.buf| <= cap && i < |ops|
  {
    var before := RunOps(o, cap, ops[..i], sessionId);
    0 < Kept(before, cap, ops[i], sessionId) < Size(ops[i], sessionId)
  }

  /** The items that entered the stream whole, in order. */
  function WholeItems(o: Out, cap: nat, ops: seq<Op>, sessionId: string): seq<Item>
    requires |o.buf| <= cap
    decreases |ops|
  {
    if ops == [] then []
    else
      var n := |ops| - 1;
      var before := RunOps(o, cap, ops[..n], sessionId);
      WholeItems(o, cap, ops[..n], sessionId)
      + if ops[n].Offer? && Kept(before, cap, ops[n], sessionId) == Size(ops[n], sessionId) then [ops[n].item] else []
  }

  /** What tears operation `i`, for every capacity. */
  lemma TornAtExactly(o: Out, cap: nat, ops: seq<Op>, sessionId: string, i: nat)
    requires |o.buf| <= cap && i < |ops| && OpAllowed(ops[i])
    ensures var before := RunOps(o, cap, ops[..i], sessionId);
            TornAt(o, cap, ops, sessionId, i) <==>
              match ops[i] {
                case FlushOp(_) => false
                case Offer(Media(p), k) => HeaderOnly(p, |before.buf|, cap, k) || CutShort(p, |before.buf|, cap, k)
                case Offer(Response(_), k) =>
                  && before.buf == [] && k.Room? && 0 < k.bytes < Size(ops[i], sessionId)
                  && cap < Size(ops[i], sessionId) - k.bytes
              }
  {
    hide SendVOutcome, SendOutcome, ReplyBytes, RunOps;
    var before := RunOps(o, cap, ops[..i], sessionId);
    match ops[i]
    case FlushOp(_) =>
    case Offer(Media(p), k) => ForwardTornExactly(p, |before.buf|, cap, k);
    case Offer(Response(r), k) => SendTornExactly(|ReplyBytes(r, sessionId)|, |before.buf|, cap, k);
  }

  lemma {:induction false} StreamAppend(a: seq<Item>, b: seq<Item>, sessionId: string)
    ensures StreamBytes(a + b, sessionId) == StreamBytes(a, sessionId) + StreamBytes(b, sessionId)
  {
    hide ItemBytes;
    if a == [] {
      assert a + b == b;
    } else {
      assert (a + b)[1..] == a[1..] + b;
      StreamAppend(a[1..], b, sessionId);
      AppendAssociates(ItemBytes(a[0], sessionId), StreamBytes(a[1..], sessionId), StreamBytes(b, sessionId));
    }
  }

  /** In a run that tears nothing, the stream is a concatenation of whole items. */
  lemma {:induction false} WholeRun(o: Out, cap: nat, ops: seq<Op>, sessionId: string)
    requires |o.buf| <= cap
    requires forall i: nat :: i < |ops| ==> !TornAt(o, cap, ops, sessionId, i)
    ensures RunOps(o, cap, ops, sessionId).All()
         == o.All() + StreamBytes(WholeItems(o, cap, ops, sessionId), sessionId)
    decreases |ops|
  {
    hide ItemBytes, Call.Outcome;
    if ops == [] {
      assert o.All() + [] == o.All();
    } else {
      var n := |ops| - 1;
      var front, op := ops[..n], ops[n];
      var before, items := RunOps(o, cap, front, sessionId), WholeItems(o, cap, front, sessionId);
      forall i: nat | i < n ensures !TornAt(o, cap, front, sessionId, i) {
        assert front[..i] == ops[..i];
        assert !TornAt(o, cap, ops, sessionId, i);
      }
      WholeRun(o, cap, front, sessionId);
      assert !TornAt(o, cap, ops, sessionId, n);
      WholeStep(o, before, cap, op, items, sessionId);
    }
  }

  lemma WholeStep(o: Out, before: Out, cap: nat, op: Op, items: seq<Item>, sessionId: string)
    requires |before.buf| <= cap && before.All() == o.All() + StreamBytes(items, sessionId)
    requires !(0 < Kept(before, cap, op, sessionId) < Size(op, sessionId))
    ensures var whole := op.Offer? && Kept(before, cap, op, sessionId) == Size(op, sessionId);
            Step(before, cap, op, sessionId).All()
            == o.All() + StreamBytes(items + if whole then [op.item] else [], sessionId)
  {
    hide ItemBytes, Perform, Call.Outcome, CallOf;
    var call := CallOf(op, sessionId);
    PerformConserves(before, cap, call);
    CallData(op, sessionId);
    var c := Contribution(before, cap, call);
    if op.Offer? && Kept(before, cap, op, sessionId) == Size(op, sessionId) {
      assert c == ItemBytes(op.item, sessionId);
      StreamAppend(items, [op.item], sessionId);
      assert StreamBytes([op.item], sessionId) == c + [];
      AppendAssociates(o.All(), StreamBytes(items, sessionId), c);
    } else {
      assert c == [];
      assert items + [] == items;
    }
  }

  /** The items of a run are among those offered. */
  lemma {:induction false} WholeItemsAreSendable(o: Out, cap: nat, ops: seq<Op>, sessionId: string)
    requires |o.buf| <= cap && forall op :: op in ops ==> OpAllowed(op)
    ensures forall item :: item in WholeItems(o, cap, ops, sessionId) ==> Sendable(item)
    decreases |ops|
  {
    hide Kept, Size, RunOps;
    if ops != [] {
      var op := ops[|ops| - 1];
      assert op in ops && OpAllowed(op);
      WholeItemsAreSendable(o, cap, ops[..|ops| - 1], sessionId);
    }
  }

  /**
   End to end: in every run from a fresh connection that tears nothing, a receiver decodes `wire + buf` to
   exactly the items accepted whole, in order, and at any earlier time decodes a prefix of them.
   */
  lemma ReceiverGetsWholeItems(cap: nat, ops: seq<Op>, sessionId: string)
    requires '\n' !in sessionId && forall op :: op in ops ==> OpAllowed(op)
    requires forall i: nat :: i < |ops| ==> !TornAt(Out([], []), cap, ops, sessionId, i)
    ensures var o := RunOps(Out([], []), cap, ops, sessionId);
            var items := WholeItems(Out([], []), cap, ops, sessionId);
            && Decode(o.All()) == (AllReceived(items, sessionId), [])
            && Decode(o.wire).0 <= AllReceived(items, sessionId)
  {
    hide Decode, WholeItems, RunOps, TornAt, StreamBytes, AllReceived;
    var start := Out([], []);
    WholeRun(start, cap, ops, sessionId);
    WholeItemsAreSendable(start, cap, ops, sessionId);
    var o, items := RunOps(start, cap, ops, sessionId), WholeItems(start, cap, ops, sessionId);
    assert start.All() + StreamBytes(items, sessionId) == StreamBytes(items, sessionId);
    DecodeRecovers(items, sessionId);
    DecodePrefix(o.wire, o.buf);
  }
}

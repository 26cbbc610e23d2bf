/**
 What a client decodes at the end of any run of the server.
 */
module Delivered {
  import opened Bytes
  import opened Builder
  import opened Transport
  import opened Framing
  import opened Forwarder
  import opened Server
  import opened ServerDelivery
  import opened ServerRuns
  import RoundTrips
  import ReplyLaws
  import L = ServerLimits
  import P = Parser

  /** The packets among items. */
  function MediaItems(items: seq<Item>): seq<Packet> {
    if items == [] then []
    else
      var last := items[|items| - 1];
      MediaItems(items[..|items| - 1]) + if last.Media? then [last.packet] else []
  }

  lemma MediaItemsAppend(items: seq<Item>, item: Item)
    ensures MediaItems(items + [item]) == MediaItems(items) + if item.Media? then [item.packet] else []
  {
    assert (items + [item])[..|items|] == items;
  }

  /** Of the offered packets' numbers, those of the packets that entered the stream whole. */
  function WholeNumbers(o: Out, cap: nat, ops: seq<Op>, sessionId: string, ns: seq<nat>): seq<nat>
    requires |o.buf| <= cap && |ns| == |MediaOf(ops)|
    decreases |ops|
  {
    if ops == [] then []
    else
      var n := |ops| - 1;
      if IsMedia(ops[n]) then
        var m := |ns| - 1;
        WholeNumbers(o, cap, ops[..n], sessionId, ns[..m])
        + if WholeAt(o, cap, ops, sessionId, n) then [ns[m]] else []
      else WholeNumbers(o, cap, ops[..n], sessionId, ns)
  }

  /** Did operation `j` put its whole item into the stream? */
  predicate WholeAt(o: Out, cap: nat, ops: seq<Op>, sessionId: string, j: nat)
    requires |o.buf| <= cap && j < |ops|
  {
    ops[j].Offer? && Kept(RunOps(o, cap, ops[..j], sessionId), cap, ops[j], sessionId) == Size(ops[j], sessionId)
  }

  /** The packets in the stream are the broadcast packets with those numbers, in increasing order. */
  lemma {:induction false} WholeNumbersFollow(cap: nat, ops: seq<Op>, sessionId: string, ns: seq<nat>,
                                              packets: seq<Packet>)
    requires Increasing(ns) && Below(ns, |packets|) && MediaOf(ops) == Pick(packets, ns)
    ensures var ws := WholeNumbers(EMPTY, cap, ops, sessionId, ns);
            && Increasing(ws) && Below(ws, |packets|)
            && (forall w :: w in ws ==> w in ns)
            && MediaItems(WholeItems(EMPTY, cap, ops, sessionId)) == Pick(packets, ws)
    decreases |ops|
  {
    hide Kept, Size, RunOps;
    if ops != [] {
      var n := |ops| - 1;
      var front, items := ops[..n], WholeItems(EMPTY, cap, ops[..n], sessionId);
      if IsMedia(ops[n]) {
        var m := |ns| - 1;
        LastPicked(packets, ns, MediaOf(front), ops[n].item.packet);
        WholeNumbersFollow(cap, front, sessionId, ns[..m], packets);
        var ws := WholeNumbers(EMPTY, cap, front, sessionId, ns[..m]);
        if WholeAt(EMPTY, cap, ops, sessionId, n) {
          MediaItemsAppend(items, ops[n].item);
          BelowLast(ws, ns);
          PickAppend(packets, ws, ns[m]);
        } else {
          assert items + [] == items && ws + [] == ws;
        }
      } else {
        assert MediaOf(ops) == MediaOf(front) + [];
        WholeNumbersFollow(cap, front, sessionId, ns, packets);
        if WholeAt(EMPTY, cap, ops, sessionId, n) {
          MediaItemsAppend(items, ops[n].item);
        } else {
          assert items + [] == items;
        }
      }
    }
  }

  lemma LastPicked(packets: seq<Packet>, ns: seq<nat>, front: seq<Packet>, p: Packet)
    requires Increasing(ns) && Below(ns, |packets|) && Pick(packets, ns) == front + [p]
    ensures |ns| > 0
    ensures var m := |ns| - 1;
            && Increasing(ns[..m]) && Below(ns[..m], |packets|)
            && Pick(packets, ns[..m]) == front && packets[ns[m]] == p
  {
    var m := |ns| - 1;
    assert |front + [p]| == |ns|;
    assert Pick(packets, ns)[m] == p;
    assert forall i :: 0 <= i < m ==> Pick(packets, ns)[i] == front[i];
  }

  lemma BelowLast(ws: seq<nat>, ns: seq<nat>)
    requires |ns| > 0 && Increasing(ns) && forall w :: w in ws ==> w in ns[..|ns| - 1]
    ensures Below(ws, ns[|ns| - 1])
  {
    forall i | 0 <= i < |ws| ensures ws[i] < ns[|ns| - 1] {
      assert ws[i] in ws;
    }
  }

  /**
   Whole-run delivery: under any interleaving, the packets offered to a session are an order-preserving and
   duplicate-free selection of those broadcast, and each comes after the send of a response to PLAY; no packet
   precedes an accepted PLAY response in the stream exactly if each follows one that found room.
   */
  lemma OfferedInOrder(c: Config, s: World, sid: Sid)
    requires Reachable(c, s) && sid in s.objs
    ensures var x := s.objs[sid];
            && x.out == RunOps(EMPTY, c.capacity, x.ops, x.id)
            && Increasing(x.offered) && Below(x.offered, |s.packets|)
            && MediaOf(x.ops) == Pick(s.packets, x.offered)
            && PlayFirst(x.ops)
    ensures var x := s.objs[sid];
            PlayLeads(WholeItems(EMPTY, c.capacity, x.ops, x.id)) <==> PlayAcceptedFirst(c.capacity, x.ops, x.id)
  {
    hide RunOps, PlayFirst, WholeItems, PlayLeads, PlayAcceptedFirst;
    PlayLeadsExactly(c.capacity, s.objs[sid].ops, s.objs[sid].id);
    var states, actions :| IsRun(c, states, actions) && states[|states| - 1] == s;
    ReachableFollows(c, states, actions, |states| - 1);
    assert Follows(c, s.packets, s.objs[sid]);
  }

  lemma OpsAreAllowed(c: Config, s: World, sid: Sid)
    requires Reachable(c, s) && sid in s.objs
    ensures forall op :: op in s.objs[sid].ops ==> OpAllowed(op)
  {
    hide RunOps, PlayFirst;
    var states, actions :| IsRun(c, states, actions) && states[|states| - 1] == s;
    ReachableFollows(c, states, actions, |states| - 1);
    assert Follows(c, s.packets, s.objs[sid]);
  }

  // ----- The response to PLAY -----

  predicate IsPlayItem(item: Item) {
    item.Response? && item.reply.PlayReply?
  }

  ghost predicate PlayItemBefore(items: seq<Item>, i: nat) {
    exists j: nat :: j < i && j < |items| && IsPlayItem(items[j])
  }

  /** No packet precedes a response to PLAY in the stream. */
  ghost predicate PlayLeads(items: seq<Item>) {
    forall i: nat :: i < |items| && items[i].Media? ==> PlayItemBefore(items, i)
  }

  /** A send of `total` bytes is accepted whole: the kernel and an empty buffer can take it, or the free space can. */
  predicate HasRoom(total: nat, buffered: nat, cap: nat, k: Kernel) {
    if buffered == 0 then k.Room? && total <= cap + k.bytes else total <= cap - buffered
  }

  /** What `PlayLeads` asks of each PLAY response, before its send. */
  predicate PlayHasRoom(cap: nat, ops: seq<Op>, sessionId: string, j: nat)
    requires j < |ops|
  {
    IsPlay(ops[j]) && HasRoom(Size(ops[j], sessionId), |RunOps(EMPTY, cap, ops[..j], sessionId).buf|, cap, ops[j].k)
  }

  ghost predicate PlayAcceptedBefore(cap: nat, ops: seq<Op>, sessionId: string, i: nat) {
    exists j: nat :: j < i && j < |ops| && PlayHasRoom(cap, ops, sessionId, j)
  }

  /** Every packet that entered the stream whole follows a PLAY response that found room. */
  ghost predicate PlayAcceptedFirst(cap: nat, ops: seq<Op>, sessionId: string) {
    forall i: nat :: i < |ops| && IsMedia(ops[i]) && WholeAt(EMPTY, cap, ops, sessionId, i) ==>
      PlayAcceptedBefore(cap, ops, sessionId, i)
  }

  /** Whether a response is accepted whole, before its send. */
  lemma ResponseAcceptedExactly(total: nat, buffered: nat, cap: nat, k: Kernel)
    requires buffered <= cap && 0 < total
    ensures SendOutcome(total, buffered, cap, k).kept == total <==> HasRoom(total, buffered, cap, k)
    ensures total <= cap ==>
              (HasRoom(total, buffered, cap, k) <==> if buffered == 0 then k.Room? else total <= cap - buffered)
  {
  }

  lemma PlayIsWholeExactly(cap: nat, ops: seq<Op>, sessionId: string, j: nat)
    requires j < |ops| && IsPlay(ops[j])
    ensures WholeAt(EMPTY, cap, ops, sessionId, j) <==> PlayHasRoom(cap, ops, sessionId, j)
  {
    hide ReplyBytes, RunOps;
    var before := RunOps(EMPTY, cap, ops[..j], sessionId);
    RepliesAreNonempty(ops[j].item.reply, sessionId);
    ResponseAcceptedExactly(Size(ops[j], sessionId), |before.buf|, cap, ops[j].k);
  }

  /** Later operations change none of this. */
  lemma PrefixAgrees(cap: nat, ops: seq<Op>, sessionId: string, n: nat, j: nat)
    requires j < n <= |ops|
    ensures WholeAt(EMPTY, cap, ops[..n], sessionId, j) == WholeAt(EMPTY, cap, ops, sessionId, j)
    ensures PlayHasRoom(cap, ops[..n], sessionId, j) == PlayHasRoom(cap, ops, sessionId, j)
  {
    assert ops[..n][..j] == ops[..j];
  }

  lemma LeadsAppend(items: seq<Item>, item: Item)
    ensures PlayLeads(items + [item]) <==> PlayLeads(items) && (item.Media? ==> PlayItemBefore(items, |items|))
    ensures PlayItemBefore(items + [item], |items| + 1) <==> PlayItemBefore(items, |items|) || IsPlayItem(item)
  {
    var all := items + [item];
    assert forall i: nat :: i < |items| ==> all[i] == items[i];
    forall i: nat | i <= |items| ensures PlayItemBefore(all, i) <==> PlayItemBefore(items, i) {
      if j: nat :| j < i && j < |items| && IsPlayItem(items[j]) { assert IsPlayItem(all[j]); }
      if j: nat :| j < i && j < |all| && IsPlayItem(all[j]) { assert IsPlayItem(items[j]); }
    }
    if IsPlayItem(item) { assert IsPlayItem(all[|items|]); }
    if PlayItemBefore(items, |items|) {
      var j: nat :| j < |items| && IsPlayItem(items[j]);
      assert IsPlayItem(all[j]);
    }
    if PlayLeads(all) {
      forall i: nat | i < |items| && items[i].Media? ensures PlayItemBefore(items, i) {
        assert all[i].Media? && PlayItemBefore(all, i);
      }
      if item.Media? { assert all[|items|].Media? && PlayItemBefore(all, |items|); }
    }
  }

  lemma AcceptedAppend(cap: nat, ops: seq<Op>, sessionId: string)
    requires ops != []
    ensures var n := |ops| - 1; var front := ops[..n];
            && (PlayAcceptedFirst(cap, ops, sessionId) <==>
                  PlayAcceptedFirst(cap, front, sessionId)
                  && (IsMedia(ops[n]) && WholeAt(EMPTY, cap, ops, sessionId, n) ==>
                        PlayAcceptedBefore(cap, front, sessionId, n)))
            && (PlayAcceptedBefore(cap, ops, sessionId, |ops|) <==>
                  PlayAcceptedBefore(cap, front, sessionId, n) || PlayHasRoom(cap, ops, sessionId, n))
  {
    hide RunOps, HasRoom, WholeAt, PlayHasRoom;
    var n := |ops| - 1;
    var front := ops[..n];
    forall j: nat | j < n
      ensures WholeAt(EMPTY, cap, front, sessionId, j) == WholeAt(EMPTY, cap, ops, sessionId, j)
      ensures PlayHasRoom(cap, front, sessionId, j) == PlayHasRoom(cap, ops, sessionId, j)
    {
      PrefixAgrees(cap, ops, sessionId, n, j);
    }
    forall i: nat | i <= n
      ensures PlayAcceptedBefore(cap, front, sessionId, i) <==> PlayAcceptedBefore(cap, ops, sessionId, i)
    {
      if j: nat :| j < i && j < |front| && PlayHasRoom(cap, front, sessionId, j) {
        assert PlayHasRoom(cap, ops, sessionId, j);
      }
      if j: nat :| j < i && j < |ops| && PlayHasRoom(cap, ops, sessionId, j) {
        assert PlayHasRoom(cap, front, sessionId, j);
      }
    }
    if PlayAcceptedFirst(cap, ops, sessionId) {
      forall i: nat | i < n && IsMedia(front[i]) && WholeAt(EMPTY, cap, front, sessionId, i)
        ensures PlayAcceptedBefore(cap, front, sessionId, i)
      {
        assert IsMedia(ops[i]) && WholeAt(EMPTY, cap, ops, sessionId, i);
      }
    }
    if PlayAcceptedBefore(cap, ops, sessionId, |ops|) && !PlayHasRoom(cap, ops, sessionId, n) {
      var j: nat :| j < |ops| && PlayHasRoom(cap, ops, sessionId, j);
      assert j < n && PlayHasRoom(cap, front, sessionId, j);
    }
    if PlayAcceptedBefore(cap, front, sessionId, n) {
      var j: nat :| j < n && PlayHasRoom(cap, front, sessionId, j);
      assert PlayHasRoom(cap, ops, sessionId, j);
    }
  }

  /**
   No packet precedes an accepted PLAY response: this holds of a stream exactly if each of its packets follows
   a PLAY response for which there was room when it was sent.
   */
  lemma {:induction false} PlayLeadsExactly(cap: nat, ops: seq<Op>, sessionId: string)
    ensures var items := WholeItems(EMPTY, cap, ops, sessionId);
            && (PlayLeads(items) <==> PlayAcceptedFirst(cap, ops, sessionId))
            && (PlayItemBefore(items, |items|) <==> PlayAcceptedBefore(cap, ops, sessionId, |ops|))
    decreases |ops|
  {
    hide Kept, Size, RunOps, PlayLeads, PlayItemBefore, PlayAcceptedFirst, PlayAcceptedBefore, PlayHasRoom;
    if ops == [] {
      NothingLeads(cap, sessionId);
    } else {
      var n := |ops| - 1;
      var items := WholeItems(EMPTY, cap, ops[..n], sessionId);
      PlayLeadsExactly(cap, ops[..n], sessionId);
      AcceptedAppend(cap, ops, sessionId);
      if IsPlay(ops[n]) { PlayIsWholeExactly(cap, ops, sessionId, n); } else { NoPlayNoRoom(cap, ops, sessionId, n); }
      if WholeAt(EMPTY, cap, ops, sessionId, n) {
        LeadsAppend(items, ops[n].item);
      } else {
        assert items + [] == items;
      }
    }
  }

  lemma NothingLeads(cap: nat, sessionId: string)
    ensures WholeItems(EMPTY, cap, [], sessionId) == []
    ensures PlayLeads([]) && !PlayItemBefore([], 0)
    ensures PlayAcceptedFirst(cap, [], sessionId) && !PlayAcceptedBefore(cap, [], sessionId, 0)
  {
  }

  lemma NoPlayNoRoom(cap: nat, ops: seq<Op>, sessionId: string, j: nat)
    requires j < |ops| && !IsPlay(ops[j])
    ensures !PlayHasRoom(cap, ops, sessionId, j)
  {
  }

  /** It is enough that the first PLAY response finds room. */
  lemma FirstPlaySuffices(c: Config, s: World, sid: Sid, j: nat)
    requires Reachable(c, s) && sid in s.objs && j < |s.objs[sid].ops|
    requires var x := s.objs[sid];
             PlayHasRoom(c.capacity, x.ops, x.id, j) && forall i: nat :: i < j ==> !IsPlay(x.ops[i])
    ensures var x := s.objs[sid]; PlayLeads(WholeItems(EMPTY, c.capacity, x.ops, x.id))
  {
    hide RunOps, HasRoom, WholeItems, PlayLeads, WholeAt, Reachable;
    var x := s.objs[sid];
    OfferedInOrder(c, s, sid);
    PlayLeadsExactly(c.capacity, x.ops, x.id);
    forall i: nat | i < |x.ops| && IsMedia(x.ops[i]) ensures PlayAcceptedBefore(c.capacity, x.ops, x.id, i) {
      assert exists p :: 0 <= p < i && IsPlay(x.ops[p]);
    }
  }

  // ----- What the client decodes -----

  /** A unit with a `Range` field: only responses to PLAY have one. */
  predicate IsPlayUnit(u: Unit) {
    u.Message? && "range" in u.headers
  }

  ghost predicate PlayUnitsLead(us: seq<Unit>) {
    forall i: nat :: i < |us| && us[i].Frame? ==> exists j: nat :: j < i && IsPlayUnit(us[j])
  }

  lemma {:induction false} ReceivedAt(items: seq<Item>, sessionId: string, i: nat)
    requires i < |items|
    ensures |AllReceived(items, sessionId)| == |items|
    ensures AllReceived(items, sessionId)[i] == Received(items[i], sessionId)
  {
    hide Received;
    if i > 0 {
      ReceivedAt(items[1..], sessionId, i - 1);
    } else if |items| > 1 {
      ReceivedAt(items[1..], sessionId, 0);
    }
  }

  lemma PlayUnitExactly(item: Item, sessionId: string)
    requires '\n' !in sessionId
    ensures IsPlayUnit(Received(item, sessionId)) <==> IsPlayItem(item)
    ensures Received(item, sessionId).Frame? <==> item.Media?
  {
    hide ReplyHeaders, RoundTrips.ReadMap, StatusLine;
    if item.Response? {
      ReplyLaws.ReplySays(item.reply, sessionId);
    }
  }

  lemma UnitsLeadExactly(items: seq<Item>, sessionId: string)
    requires '\n' !in sessionId
    ensures PlayUnitsLead(AllReceived(items, sessionId)) <==> PlayLeads(items)
  {
    hide AllReceived, Received, IsPlayUnit, IsPlayItem;
    var us := AllReceived(items, sessionId);
    if items == [] { assert us == [] by { NothingReceived(sessionId); } } else { ReceivedAt(items, sessionId, 0); }
    forall i: nat | i < |items|
      ensures (us[i].Frame? <==> items[i].Media?) && (IsPlayUnit(us[i]) <==> IsPlayItem(items[i]))
    {
      ReceivedAt(items, sessionId, i);
      PlayUnitExactly(items[i], sessionId);
    }
    if PlayUnitsLead(us) {
      forall i: nat | i < |items| && items[i].Media? ensures PlayItemBefore(items, i) {
        assert us[i].Frame?;
        var j: nat :| j < i && IsPlayUnit(us[j]);
        assert IsPlayItem(items[j]);
      }
    }
    if PlayLeads(items) {
      forall i: nat | i < |us| && us[i].Frame? ensures exists j: nat :: j < i && IsPlayUnit(us[j]) {
        assert items[i].Media? && PlayItemBefore(items, i);
        var j: nat :| j < i && j < |items| && IsPlayItem(items[j]);
        assert IsPlayUnit(us[j]);
      }
    }
  }

  lemma NothingReceived(sessionId: string)
    ensures AllReceived([], sessionId) == []
  {
  }

  lemma PrefixLeads(few: seq<Unit>, us: seq<Unit>)
    requires few <= us && PlayUnitsLead(us)
    ensures PlayUnitsLead(few)
  {
    forall i: nat | i < |few| && few[i].Frame? ensures exists j: nat :: j < i && IsPlayUnit(few[j]) {
      assert us[i].Frame?;
      var j: nat :| j < i && IsPlayUnit(us[j]);
      assert IsPlayUnit(few[j]);
    }
  }

  /**
   End to end: whatever the two threads, the kernel and the clients did, a client whose stream was not torn
   decodes exactly the items accepted whole; the packets among them are the broadcast ones, in order and
   without duplicates; and what it has decoded so far is a prefix of that.  It decodes a response to PLAY
   before any packet exactly if each packet follows a PLAY response that found room.
   */
  lemma ClientReceives(c: Config, s: World, sid: Sid)
    requires Reachable(c, s) && sid in s.objs && '\n' !in s.objs[sid].id
    requires var x := s.objs[sid];
             forall i: nat :: i < |x.ops| ==> !TornAt(EMPTY, c.capacity, x.ops, x.id, i)
    ensures var x := s.objs[sid];
            var items := WholeItems(EMPTY, c.capacity, x.ops, x.id);
            && Decode(x.out.All()) == (AllReceived(items, x.id), [])
            && Decode(x.out.wire).0 <= AllReceived(items, x.id)
            && exists ns :: Increasing(ns) && Below(ns, |s.packets|) && MediaItems(items) == Pick(s.packets, ns)
    ensures var x := s.objs[sid];
            && (PlayUnitsLead(Decode(x.out.All()).0) <==> PlayAcceptedFirst(c.capacity, x.ops, x.id))
            && (PlayAcceptedFirst(c.capacity, x.ops, x.id) ==> PlayUnitsLead(Decode(x.out.wire).0))
  {
    hide RunOps, PlayFirst, TornAt, Decode, WholeItems, AllReceived, PlayAcceptedFirst, PlayUnitsLead,
         PlayLeads, Reachable;
    var x := s.objs[sid];
    var items := WholeItems(EMPTY, c.capacity, x.ops, x.id);
    OfferedInOrder(c, s, sid);
    OpsAreAllowed(c, s, sid);
    ReceiverGetsWholeItems(c.capacity, x.ops, x.id);
    WholeNumbersFollow(c.capacity, x.ops, x.id, x.offered, s.packets);
    var ws := WholeNumbers(EMPTY, c.capacity, x.ops, x.id, x.offered);
    assert Increasing(ws) && Below(ws, |s.packets|);
    PlayLeadsExactly(c.capacity, x.ops, x.id);
    UnitsLeadExactly(items, x.id);
    if PlayAcceptedFirst(c.capacity, x.ops, x.id) {
      PrefixLeads(Decode(x.out.wire).0, AllReceived(items, x.id));
    }
  }

  // ----- Runs in which a PLAY response is lost -----

  /** What the client's stream holds when a full buffer refuses the response to PLAY. */
  lemma ItemsWithoutPlay(sdp: Bytes, packet: Packet, sessionId: string)
    requires ValidPacket(packet)
    ensures var describe, play := DescribeReply(1, sdp), PlayReply(2);
            var cap := |ReplyBytes(describe, sessionId)|;
            var much := cap + |FrameBytes(packet)|;
            var ops := [Offer(Response(describe), Room(0)), Offer(Response(play), Room(0)), FlushOp(Room(much)),
                        Offer(Media(packet), Room(much))];
            WholeItems(EMPTY, cap, ops, sessionId) == [Response(describe), Media(packet)]
  {
    hide ReplyBytes, Step, Kept, Size, RunOps, WholeItems;
    var describe, play := DescribeReply(1, sdp), PlayReply(2);
    var d := ReplyBytes(describe, sessionId);
    var cap, much := |d|, |d| + |FrameBytes(packet)|;
    var a, b, f, m := Offer(Response(describe), Room(0)), Offer(Response(play), Room(0)), FlushOp(Room(much)),
                      Offer(Media(packet), Room(much));
    Nothing(EMPTY, cap, sessionId);
    One(EMPTY, cap, [], a, sessionId, EMPTY, []);
    FullyBuffered(describe, sessionId);
    assert [] + [a] == [a] && [] + [Response(describe)] == [Response(describe)];
    One(EMPTY, cap, [a], b, sessionId, Out([], d), [Response(describe)]);
    Refused(play, d, sessionId);
    assert [a] + [b] == [a, b];
    One(EMPTY, cap, [a, b], f, sessionId, Out([], d), [Response(describe)]);
    Flushed(d, much, sessionId);
    assert [a, b] + [f] == [a, b, f];
    One(EMPTY, cap, [a, b, f], m, sessionId, Out(d, []), [Response(describe)]);
    SentWhole(packet, d, much, sessionId);
    assert [a, b, f] + [m] == [a, b, f, m];
  }

  /**
   PLAY starts the packets even when its response finds no room.  In this run of the server the client asks for
   DESCRIBE and PLAY while its connection takes nothing and its buffer is full of the first response; then the
   connection takes everything, and a packet is broadcast.
   */
  lemma PlayResponseCanBeLost(c: Config, sdp: Bytes, packet: Packet)
    requires c.maxSessions > 0 && sdp != "" && ValidPacket(packet)
    requires c.capacity == |ReplyBytes(DescribeReply(1, sdp), "a")|
    ensures exists s :: && Reachable(c, s) && 0 in s.objs
                        && WholeItems(EMPTY, c.capacity, s.objs[0].ops, s.objs[0].id)
                           == [Response(DescribeReply(1, sdp)), Media(packet)]
  {
    hide Reachable, ReplyBytes, P.ParseMessage, RequestOf, Step, WholeItems, ForwardSucceeds, FrameBytes;
    var d := ReplyBytes(DescribeReply(1, sdp), "a");
    var env, much := Outside(Room(0), sdp, 0), |d| + |FrameBytes(packet)|;
    var x0 := NewClient();
    ClientConnects(c);
    RequestIsUnderstood(P.Describe, 1);
    ClientAsks(c, x0, false, FRESH, RequestOf(P.Describe, 1), env);
    AfterDescribe(c, x0, P.ParseMessage(RequestOf(P.Describe, 1)).value, env, 0);
    FullyBuffered(DescribeReply(1, sdp), "a");
    var x1 := AfterRequest(c, x0, P.ParseMessage(RequestOf(P.Describe, 1)).value, env, 0);
    assert x1.out == Out([], d) && d != [] by { RepliesAreNonempty(DescribeReply(1, sdp), "a"); }
    RequestIsUnderstood(P.Play, 2);
    ClientAsks(c, x1, true, FRESH, RequestOf(P.Play, 2), env);
    AfterPlay(c, x1, P.ParseMessage(RequestOf(P.Play, 2)).value, env, 0);
    Refused(PlayReply(2), d, "a");
    var x2 := AfterRequest(c, x1, P.ParseMessage(RequestOf(P.Play, 2)).value, env, 0);
    ClientIsFlushed(c, x2, true, FRESH, Room(much));
    Flushed(d, much, "a");
    var x3 := Do(c, x2, FlushOp(Room(much)));
    assert x3.out == Out(d, []);
    ClientIsForwarded(c, x3, false, FRESH, packet, Room(much));
    var (y, p) := AfterPacket(c, x3, FRESH, packet, Room(much));
    var s := Alone(y, false, Idle, StreamAfter(c, x3, FRESH, packet, Room(much)), p);
    ItemsWithoutPlay(sdp, packet, "a");
    assert s.objs[0] == y;
    assert y.ops == [Offer(Response(DescribeReply(1, sdp)), Room(0)), Offer(Response(PlayReply(2)), Room(0)),
                     FlushOp(Room(much)), Offer(Media(packet), Room(much))];
  }

  /** In every configuration a send that fails hard loses the response, and a packet follows. */
  lemma PlayCanFail(c: Config) returns (s: World)
    requires c.maxSessions > 0
    ensures Reachable(c, s) && 0 in s.objs
    ensures !PlayLeads(WholeItems(EMPTY, c.capacity, s.objs[0].ops, s.objs[0].id))
  {
    hide Reachable, ReplyBytes, P.ParseMessage, RequestOf, Step, WholeItems, ForwardSucceeds, FrameBytes, Kept,
         Size;
    var packet := Packet(['x'], 0);
    var much := |FrameBytes(packet)|;
    var env := Outside(Failed, "", 0);
    var x0 := NewClient();
    ClientConnects(c);
    RequestIsUnderstood(P.Play, 1);
    ClientAsks(c, x0, false, FRESH, RequestOf(P.Play, 1), env);
    AfterPlay(c, x0, P.ParseMessage(RequestOf(P.Play, 1)).value, env, 0);
    SendFails(PlayReply(1), c.capacity, "a");
    var x1 := AfterRequest(c, x0, P.ParseMessage(RequestOf(P.Play, 1)).value, env, 0);
    ClientIsForwarded(c, x1, false, FRESH, packet, Room(much));
    var (y, p) := AfterPacket(c, x1, FRESH, packet, Room(much));
    s := Alone(y, false, Idle, StreamAfter(c, x1, FRESH, packet, Room(much)), p);
    assert s.objs[0] == y;
    var a, m := Offer(Response(PlayReply(1)), Failed), Offer(Media(packet), Room(much));
    assert [] + [a] == [a] && [a] + [m] == [a, m] && s.objs[0].ops == [a, m];
    Nothing(EMPTY, c.capacity, "a");
    One(EMPTY, c.capacity, [], a, "a", EMPTY, []);
    One(EMPTY, c.capacity, [a], m, "a", EMPTY, []);
    SentAlone(packet, c.capacity, much, "a");
    assert [] + [m.item] == [m.item];
    assert !PlayLeads([m.item]) by { PacketAlone(packet); }
  }

  lemma PacketAlone(packet: Packet)
    ensures !PlayLeads([Media(packet)])
  {
    assert [Media(packet)][0].Media?;
  }

  lemma SendFails(r: Reply, cap: nat, sessionId: string)
    ensures var op := Offer(Response(r), Failed);
            Step(EMPTY, cap, op, sessionId) == EMPTY && Kept(EMPTY, cap, op, sessionId) != Size(op, sessionId)
  {
    hide ReplyBytes;
    RepliesAreNonempty(r, sessionId);
  }

  lemma SentAlone(p: Packet, cap: nat, much: nat, sessionId: string)
    requires ValidPacket(p) && |FrameBytes(p)| <= much
    ensures var op := Offer(Media(p), Room(much)); Kept(EMPTY, cap, op, sessionId) == Size(op, sessionId)
  {
    hide SendVOutcome;
    FrameIsJoined(p);
    FrameOutcome(HeaderBytes(p.streamIndex, |p.data|), p.data, 0, cap, Room(much));
  }

  /** So only a server that admits nobody guarantees an accepted PLAY response before the packets. */
  lemma AcceptedPlayIsNeverGuaranteed(c: Config)
    ensures (forall s, sid :: Reachable(c, s) && sid in s.objs ==>
               PlayLeads(WholeItems(EMPTY, c.capacity, s.objs[sid].ops, s.objs[sid].id)))
            <==> c.maxSessions == 0
  {
    hide Reachable, WholeItems, PlayLeads;
    if c.maxSessions == 0 {
      L.NobodyAdmitted(c);
    } else {
      var s := PlayCanFail(c);
    }
  }

  lemma Nothing(o: Out, cap: nat, sessionId: string)
    requires |o.buf| <= cap
    ensures RunOps(o, cap, [], sessionId) == o && WholeItems(o, cap, [], sessionId) == []
  {
  }

  lemma FullyBuffered(r: Reply, sessionId: string)
    ensures var d := ReplyBytes(r, sessionId); var op := Offer(Response(r), Room(0));
            Step(EMPTY, |d|, op, sessionId) == Out([], d) && Kept(EMPTY, |d|, op, sessionId) == Size(op, sessionId)
  {
    hide ReplyBytes;
    RepliesAreNonempty(r, sessionId);
    var d := ReplyBytes(r, sessionId);
    assert d[0..|d|] == d;
  }

  lemma Refused(r: Reply, d: Bytes, sessionId: string)
    ensures var op := Offer(Response(r), Room(0));
            && Step(Out([], d), |d|, op, sessionId) == Out([], d)
            && Kept(Out([], d), |d|, op, sessionId) != Size(op, sessionId)
  {
    hide ReplyBytes;
    RepliesAreNonempty(r, sessionId);
    if d != [] {
      assert SendOutcome(|ReplyBytes(r, sessionId)|, |d|, |d|, Room(0)) == Sent(0, 0, -1);
    }
  }

  lemma Flushed(d: Bytes, much: nat, sessionId: string)
    requires |d| <= much
    ensures Step(Out([], d), |d|, FlushOp(Room(much)), sessionId) == Out(d, [])
  {
  }

  lemma SentWhole(p: Packet, d: Bytes, much: nat, sessionId: string)
    requires ValidPacket(p) && |FrameBytes(p)| <= much
    ensures var op := Offer(Media(p), Room(much)); Kept(Out(d, []), |d|, op, sessionId) == Size(op, sessionId)
  {
    hide SendVOutcome;
    FrameIsJoined(p);
    FrameOutcome(HeaderBytes(p.streamIndex, |p.data|), p.data, 0, |d|, Room(much));
  }

  lemma RepliesAreNonempty(r: Reply, sessionId: string)
    ensures |ReplyBytes(r, sessionId)| > 0
  {
    HeadStarts(r, sessionId);
  }

  lemma One(o: Out, cap: nat, front: seq<Op>, op: Op, sessionId: string, now: Out, items: seq<Item>)
    requires |o.buf| <= cap && |now.buf| <= cap
    requires RunOps(o, cap, front, sessionId) == now && WholeItems(o, cap, front, sessionId) == items
    ensures RunOps(o, cap, front + [op], sessionId) == Step(now, cap, op, sessionId)
    ensures WholeItems(o, cap, front + [op], sessionId)
         == items + if op.Offer? && Kept(now, cap, op, sessionId) == Size(op, sessionId) then [op.item] else []
  {
    hide Step, Kept, Size;
    assert (front + [op])[..|front|] == front;
  }
}

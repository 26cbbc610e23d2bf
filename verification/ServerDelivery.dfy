/**
 Delivery over whole runs: what a session's client receives, in terms of the packets that were broadcast.
 */
module ServerDelivery {
  import opened Bytes
  import opened Service
  import opened Transport
  import opened Framing
  import opened Forwarder
  import opened Server
  import O = ServerOwnership
  import P = Parser

  // ----- Histories of one session -----

  predicate IsPlay(op: Op) {
    op.Offer? && op.item.Response? && op.item.reply.PlayReply?
  }

  predicate IsMedia(op: Op) {
    op.Offer? && op.item.Media?
  }

  /** The packets offered to the session, in order. */
  function MediaOf(ops: seq<Op>): seq<Packet> {
    if ops == [] then []
    else
      var last := ops[|ops| - 1];
      MediaOf(ops[..|ops| - 1]) + if IsMedia(last) then [last.item.packet] else []
  }

  ghost predicate HasPlay(ops: seq<Op>) {
    exists j :: 0 <= j < |ops| && IsPlay(ops[j])
  }

  /** Every packet comes after the response to a PLAY request. */
  ghost predicate PlayFirst(ops: seq<Op>) {
    forall i :: 0 <= i < |ops| && IsMedia(ops[i]) ==> exists j :: 0 <= j < i && IsPlay(ops[j])
  }

  predicate Increasing(ns: seq<nat>) {
    forall i, j :: 0 <= i < j < |ns| ==> ns[i] < ns[j]
  }

  predicate Below(ns: seq<nat>, n: nat) {
    forall i :: 0 <= i < |ns| ==> ns[i] < n
  }

  function Pick(packets: seq<Packet>, ns: seq<nat>): seq<Packet>
    requires Below(ns, |packets|)
  {
    seq(|ns|, i requires 0 <= i < |ns| => packets[ns[i]])
  }

  const EMPTY := Out([], [])

  /** The session's stream is the outcome of its operations, and these follow the broadcasts. */
  ghost predicate Follows(c: Config, packets: seq<Packet>, x: Sess) {
    && x.out == RunOps(EMPTY, c.capacity, x.ops, x.id)
    && (forall op :: op in x.ops ==> OpAllowed(op))
    && Increasing(x.offered) && Below(x.offered, |packets|)
    && MediaOf(x.ops) == Pick(packets, x.offered)
    && PlayFirst(x.ops)
  }

  /** Who may be given packets has been sent the response to a PLAY request. */
  ghost predicate MayPlay(s: World, sid: Sid)
    requires sid in s.objs
  {
    s.objs[sid].view.phase == Playing || sid in StreamHeld(s.stream) || s.epoll == Answered(sid, Some(Playing)) ==>
      HasPlay(s.objs[sid].ops)
  }

  /** The stream thread offers the current packet once to each session it copied. */
  ghost predicate QueueFollows(s: World) {
    s.stream.Broadcasting? || s.stream.Arming? ==>
      && s.packets != [] && Distinct(s.stream.queue)
      && forall sid :: sid in s.stream.queue && sid in s.objs ==> Below(s.objs[sid].offered, |s.packets| - 1)
  }

  ghost predicate AllFollow(c: Config, s: World) {
    && (forall sid :: sid in s.objs ==> Follows(c, s.packets, s.objs[sid]) && MayPlay(s, sid))
    && QueueFollows(s)
  }

  // ----- One more operation -----

  lemma OpsAppend(ops: seq<Op>, op: Op)
    ensures MediaOf(ops + [op]) == MediaOf(ops) + (if IsMedia(op) then [op.item.packet] else [])
    ensures HasPlay(ops) || IsPlay(op) ==> HasPlay(ops + [op])
    ensures PlayFirst(ops) && (IsMedia(op) ==> HasPlay(ops)) ==> PlayFirst(ops + [op])
  {
    var all := ops + [op];
    assert all[..|all| - 1] == ops && all[|all| - 1] == op;
    if HasPlay(ops) {
      var j :| 0 <= j < |ops| && IsPlay(ops[j]);
      assert IsPlay(all[j]);
    }
    if IsPlay(op) { assert IsPlay(all[|ops|]); }
    if PlayFirst(ops) && (IsMedia(op) ==> HasPlay(ops)) {
      forall i | 0 <= i < |all| && IsMedia(all[i]) ensures exists j :: 0 <= j < i && IsPlay(all[j]) {
        if i < |ops| {
          assert IsMedia(ops[i]);
          var j :| 0 <= j < i && IsPlay(ops[j]);
          assert IsPlay(all[j]);
        } else {
          var j :| 0 <= j < |ops| && IsPlay(ops[j]);
          assert IsPlay(all[j]);
        }
      }
    }
  }

  lemma RunAppend(c: Config, x: Sess, op: Op)
    requires x.out == RunOps(EMPTY, c.capacity, x.ops, x.id)
    ensures var y := Do(c, x, op);
            && y.out == RunOps(EMPTY, c.capacity, y.ops, y.id) && y.ops == x.ops + [op]
            && y == x.(out := y.out, ops := y.ops)
  {
    hide Step;
    assert (x.ops + [op])[..|x.ops|] == x.ops;
  }

  /** Anything but a packet. */
  lemma OtherOpFollows(c: Config, packets: seq<Packet>, x: Sess, op: Op)
    requires Follows(c, packets, x) && !IsMedia(op)
    ensures var y := Do(c, x, op); Follows(c, packets, y) && (HasPlay(x.ops) || IsPlay(op) ==> HasPlay(y.ops))
  {
    hide RunOps, MediaOf, HasPlay, PlayFirst, Do;
    RunAppend(c, x, op);
    OpsAppend(x.ops, op);
    assert MediaOf(x.ops) + [] == MediaOf(x.ops);
    assert forall o :: o in x.ops + [op] ==> o in x.ops || o == op;
  }

  lemma PickAppend(packets: seq<Packet>, ns: seq<nat>, n: nat)
    requires Below(ns, n) && n < |packets| && Increasing(ns)
    ensures Increasing(ns + [n]) && Below(ns + [n], |packets|)
    ensures Pick(packets, ns + [n]) == Pick(packets, ns) + [packets[n]]
  {
  }

  lemma PacketFollows(c: Config, packets: seq<Packet>, x: Sess, n: nat, k: Kernel)
    requires Follows(c, packets, x) && n < |packets| && Below(x.offered, n) && HasPlay(x.ops) && ValidPacket(packets[n])
    ensures Follows(c, packets, Do(c, x, Offer(Media(packets[n]), k)).(offered := x.offered + [n]))
    ensures HasPlay(Do(c, x, Offer(Media(packets[n]), k)).ops)
  {
    hide RunOps, MediaOf, HasPlay, PlayFirst, Do, Pick;
    var op := Offer(Media(packets[n]), k);
    RunAppend(c, x, op);
    OpsAppend(x.ops, op);
    PickAppend(packets, x.offered, n);
    assert forall o :: o in x.ops + [op] ==> o in x.ops || o == op;
  }

  lemma MorePacketsFollow(c: Config, packets: seq<Packet>, p: Packet, x: Sess)
    requires Follows(c, packets, x)
    ensures Follows(c, packets + [p], x)
  {
    hide RunOps, PlayFirst;
    assert Pick(packets + [p], x.offered) == Pick(packets, x.offered);
  }

  // ----- Steps -----

  /** Follows depends on a session's stream and history alone. */
  lemma SameHistoryFollows(c: Config, packets: seq<Packet>, x: Sess, y: Sess)
    requires Follows(c, packets, x) && y.out == x.out && y.ops == x.ops && y.id == x.id && y.offered == x.offered
    ensures Follows(c, packets, y)
  {
    hide RunOps, PlayFirst, MediaOf, Pick;
  }

  /** A step on one session. */
  lemma PutFollows(c: Config, s: World, t: World, sid: Sid)
    requires AllFollow(c, s) && sid in s.objs && sid in t.objs && t.objs == s.objs[sid := t.objs[sid]]
    requires t.packets == s.packets
    requires Follows(c, s.packets, t.objs[sid]) && MayPlay(t, sid) && QueueFollows(t)
    requires StreamHeld(t.stream) == StreamHeld(s.stream)
    requires t.epoll == s.epoll || (t.epoll.Answered? ==> t.epoll.sid == sid)
    ensures AllFollow(c, t)
  {
    hide Follows, QueueFollows, HasPlay;
    forall o | o in t.objs ensures Follows(c, t.packets, t.objs[o]) && MayPlay(t, o) {
      if o != sid {
        assert Follows(c, s.packets, s.objs[o]) && MayPlay(s, o);
      }
    }
  }

  /** Steps that drop sessions, or leave every history alone. */
  lemma FewerFollow(c: Config, s: World, t: World)
    requires AllFollow(c, s) && t.packets == s.packets
    requires forall sid :: sid in t.objs ==>
               && sid in s.objs
               && (t.objs[sid] == s.objs[sid] || t.objs[sid] == Stopped(s.objs[sid], s.scans))
    requires t.stream == s.stream || t.stream == Quiet
             || (s.stream.Arming? && t.stream == Broadcasting(s.stream.queue, s.stream.held))
    requires t.epoll.Answered? ==> t.epoll == s.epoll
    ensures AllFollow(c, t)
  {
    hide Follows, HasPlay;
    forall o | o in t.objs ensures Follows(c, t.packets, t.objs[o]) && MayPlay(t, o) {
      assert Follows(c, s.packets, s.objs[o]) && MayPlay(s, o);
      SameHistoryFollows(c, s.packets, s.objs[o], t.objs[o]);
    }
  }

  lemma ReapFollows(c: Config, s: World)
    requires AllFollow(c, s)
    ensures AllFollow(c, Reap(s))
  {
    hide AllFollow, Live, DeadFds;
    FewerFollow(c, s, Reap(s));
  }

  lemma PlayingNeedsPlay(v: View, request: P.Request, env: Env)
    ensures PhaseSet(v, request, env) == Some(Playing) ==> Handle(v, request, env).reply.PlayReply?
  {
  }

  lemma AnswerFollows(c: Config, packets: seq<Packet>, x: Sess, request: P.Request, env: Env, udp: set<int>)
    requires Follows(c, packets, x)
    ensures var y := Answer(c, x, request, env, udp);
            && Follows(c, packets, y)
            && (HasPlay(x.ops) || PhaseSet(x.view.(lastActivity := env.now), request, env) == Some(Playing) ==>
                  HasPlay(y.ops))
            && y.view.phase == x.view.phase && y.offered == x.offered
  {
    hide Handle, Follows, HasPlay, Do, PhaseSet;
    var v := x.view.(lastActivity := env.now);
    var h := Handle(v, request, env);
    var y := x.(view := h.view.(phase := v.phase), udp := if h.reply.SetupUdpReply? then udp else x.udp);
    var op := Offer(Response(h.reply), env.k);
    SameHistoryFollows(c, packets, x, y);
    OtherOpFollows(c, packets, y, op);
    PlayingNeedsPlay(v, request, env);
    FollowsRun(c, packets, y);
    RunAppend(c, y, op);
  }

  lemma FollowsRun(c: Config, packets: seq<Packet>, x: Sess)
    requires Follows(c, packets, x)
    ensures x.out == RunOps(EMPTY, c.capacity, x.ops, x.id)
  {
  }

  lemma Known(c: Config, s: World, sid: Sid)
    requires AllFollow(c, s) && sid in s.objs
    ensures Follows(c, s.packets, s.objs[sid]) && MayPlay(s, sid)
    ensures s.stream.Broadcasting? && sid in s.stream.queue ==>
              s.packets != [] && Below(s.objs[sid].offered, |s.packets| - 1)
    ensures s.stream.Broadcasting? ==> Distinct(s.stream.queue)
    ensures QueueFollows(s)
  {
  }

  lemma RespondFollows(c: Config, s: World, handed: Bytes, env: Env, udp: set<int>)
    requires AllFollow(c, s) && Enabled(c, s, Respond(handed, env, udp))
    ensures AllFollow(c, Next(c, s, Respond(handed, env, udp)))
  {
    hide AllFollow, Follows, HasPlay, Answer, PhaseSet, P.ParseMessage;
    var sid := s.epoll.sid;
    Known(c, s, sid);
    AnswerFollows(c, s.packets, s.objs[sid], P.ParseMessage(handed).value, env, udp);
    PutFollows(c, s, Next(c, s, Respond(handed, env, udp)), sid);
  }

  lemma FinishFollows(c: Config, s: World)
    requires AllFollow(c, s) && Enabled(c, s, Finish)
    ensures AllFollow(c, NextFinish(s))
  {
    hide AllFollow, Follows, HasPlay;
    var sid := s.epoll.sid;
    var t := NextFinish(s);
    Known(c, s, sid);
    SameHistoryFollows(c, s.packets, s.objs[sid], t.objs[sid]);
    PutFollows(c, s, t, sid);
  }

  lemma WriteFollows(c: Config, s: World, fd: int, k: Kernel)
    requires AllFollow(c, s) && Enabled(c, s, WriteEvent(fd, k))
    ensures AllFollow(c, NextWrite(c, s, fd, k))
  {
    hide AllFollow, Follows, HasPlay, Do, Reap;
    var sid := s.sessions[fd];
    var t := PutSess(s, sid, Do(c, s.objs[sid], FlushOp(k)));
    Known(c, s, sid);
    OtherOpFollows(c, s.packets, s.objs[sid], FlushOp(k));
    FollowsRun(c, s.packets, s.objs[sid]);
    RunAppend(c, s.objs[sid], FlushOp(k));
    PutFollows(c, s, t, sid);
    FewerFollow(c, t, EndConnection(t, fd));
    ReapFollows(c, EndConnection(t, fd));
    FewerFollow(c, t, t.(regs := SetWrite(t.regs, fd, false)));
  }

  lemma ForwardedFollows(c: Config, packets: seq<Packet>, x: Sess, n: nat, now: nat, k: Kernel)
    requires Follows(c, packets, x) && n < |packets| && Below(x.offered, n) && HasPlay(x.ops)
    ensures var y := Forwarded1(c, x, packets[n], n, now, k); Follows(c, packets, y) && HasPlay(y.ops)
  {
    hide Follows, HasPlay, Do;
    var y := x.(view := x.view.(lastActivity := now));
    SameHistoryFollows(c, packets, x, y);
    if !x.view.isUdp && ValidPacket(packets[n]) {
      PacketFollows(c, packets, y, n, k);
    }
  }

  lemma ForwardFollows(c: Config, s: World, k: Kernel, udpSent: bool)
    requires AllFollow(c, s) && O.Core(s) && Enabled(c, s, Forward(k, udpSent))
    ensures AllFollow(c, Next(c, s, Forward(k, udpSent)))
  {
    hide AllFollow, Follows, HasPlay, Forwarded1, ForwardSucceeds, O.SessionsOwned, O.RegsOwned, O.MapOwned,
         O.PendingOwned;
    var sid, number := s.stream.queue[0], |s.packets| - 1;
    var t := NextForward(c, s, k, udpSent);
    Known(c, s, sid);
    assert sid in Elements(s.stream.queue);
    ForwardedFollows(c, s.packets, s.objs[sid], number, s.now, k);
    SameHistoryFollows(c, s.packets, Forwarded1(c, s.objs[sid], s.packets[number], number, s.now, k), t.objs[sid]);
    forall o | o in s.stream.queue[1..] ensures o in s.stream.queue && o != sid {
      var i :| 0 <= i < |s.stream.queue[1..]| && s.stream.queue[1..][i] == o;
      assert s.stream.queue[i + 1] == o;
    }
    PutFollows(c, s, t, sid);
  }

  lemma SnapshotFollows(c: Config, s: World, packet: Packet, queue: seq<Sid>)
    requires AllFollow(c, s) && Enabled(c, s, Snapshot(packet, queue))
    ensures AllFollow(c, Next(c, s, Snapshot(packet, queue)))
  {
    hide HasPlay, Follows;
    var t := Next(c, s, Snapshot(packet, queue));
    forall sid | sid in t.objs
      ensures Follows(c, t.packets, t.objs[sid]) && MayPlay(t, sid) && Below(t.objs[sid].offered, |t.packets| - 1)
    {
      assert MayPlay(s, sid);
      MorePacketsFollow(c, s.packets, packet, s.objs[sid]);
      FollowsBelow(c, s.packets, s.objs[sid]);
      if sid in Elements(queue) { assert s.objs[sid].view.phase == Playing; }
    }
  }

  lemma FollowsBelow(c: Config, packets: seq<Packet>, x: Sess)
    requires Follows(c, packets, x)
    ensures Below(x.offered, |packets|)
  {
  }

  lemma InsertFollows(c: Config, s: World, id: string)
    requires AllFollow(c, s) && O.Owned(s) && Enabled(c, s, Insert(id))
    ensures AllFollow(c, NextInsert(s, id))
  {
    hide HasPlay, O.SessionsOwned, O.RegsOwned, O.MapOwned, RunOps;
    var t := NextInsert(s, id);
    var sid := s.epoll.sid;
    NewFollows(c, s.packets, t.objs[sid]);
    assert sid !in StreamHeld(s.stream);
    forall o | o in t.objs ensures Follows(c, t.packets, t.objs[o]) && MayPlay(t, o) {
      if o != sid { assert Follows(c, s.packets, s.objs[o]) && MayPlay(s, o); }
    }
  }

  lemma NewFollows(c: Config, packets: seq<Packet>, x: Sess)
    requires x.out == EMPTY && x.ops == [] && x.offered == []
    ensures Follows(c, packets, x)
  {
    assert Pick(packets, []) == [];
  }

  lemma ClosingFollows(c: Config, s: World, a: Action)
    requires AllFollow(c, s) && Enabled(c, s, a)
    requires a.EndRead? || a.ErrorEvent? || a.CloseTimedOut? || a.EndBroadcast?
    ensures AllFollow(c, Next(c, s, a))
  {
    hide AllFollow, Reap, Mapped, P.ParseMessage, NextInsert, NextRespond, NextFinish, NextWrite, NextForward,
         NextScan, NextStop, Stopped;
    match a
    case EndRead(close) =>
      var u := (if close then EndConnection(s, s.objs[s.epoll.sid].fd) else s).(epoll := Idle);
      FewerFollow(c, s, u);
      ReapFollows(c, u);
    case ErrorEvent(fd) =>
      FewerFollow(c, s, EndConnection(s, fd));
      ReapFollows(c, EndConnection(s, fd));
    case CloseTimedOut =>
      var u := CloseConnection(s, s.epoll.closing).(epoll := Closing(s.epoll.todo));
      FewerFollow(c, s, u);
      ReapFollows(c, u);
    case EndBroadcast =>
      FewerFollow(c, s, s.(stream := Quiet));
      ReapFollows(c, s.(stream := Quiet));
  }

  lemma StopFollows(c: Config, s: World)
    requires AllFollow(c, s)
    ensures AllFollow(c, NextStop(s))
  {
    hide AllFollow, Reap, Mapped, Stopped;
    O.StopIsReap(s);
    var u := Forgotten(s).(ended := NextStop(s).ended);
    FewerFollow(c, s, u);
    ReapFollows(c, u);
  }

  lemma IgnoreFollows(c: Config, s: World, handed: Bytes)
    requires AllFollow(c, s) && Enabled(c, s, Ignore(handed))
    ensures AllFollow(c, Next(c, s, Ignore(handed)))
  {
    hide AllFollow, Follows, HasPlay, P.ParseMessage;
    var sid := s.epoll.sid;
    var t := Next(c, s, Ignore(handed));
    Known(c, s, sid);
    SameHistoryFollows(c, s.packets, s.objs[sid], t.objs[sid]);
    PutFollows(c, s, t, sid);
  }

  lemma StepKeepsFollow(c: Config, s: World, a: Action)
    requires O.Owned(s) && AllFollow(c, s) && Enabled(c, s, a)
    ensures AllFollow(c, Next(c, s, a))
  {
    hide O.SessionsOwned, O.RegsOwned, O.MapOwned, O.StreamOwned, O.PendingOwned, AllFollow, Reap,
         P.ParseMessage, NextInsert, NextRespond, NextFinish, NextWrite, NextForward, NextStop, NextScan,
         EndConnection, CloseConnection;
    match a
    case Insert(id) => InsertFollows(c, s, id);
    case Respond(handed, env, udp) => RespondFollows(c, s, handed, env, udp);
    case Finish => FinishFollows(c, s);
    case Ignore(handed) => IgnoreFollows(c, s, handed);
    case WriteEvent(fd, k) => WriteFollows(c, s, fd, k);
    case Forward(k, udpSent) => ForwardFollows(c, s, k, udpSent);
    case Snapshot(packet, queue) => SnapshotFollows(c, s, packet, queue);
    case EndRead(_) => ClosingFollows(c, s, a);
    case ErrorEvent(_) => ClosingFollows(c, s, a);
    case CloseTimedOut => ClosingFollows(c, s, a);
    case EndBroadcast => ClosingFollows(c, s, a);
    case StopClear => StopFollows(c, s);
    case _ => PlainFollows(c, s, a);
  }

  lemma PlainFollows(c: Config, s: World, a: Action)
    requires AllFollow(c, s) && Enabled(c, s, a)
    requires a.Accept? || a.Count? || a.Register? || a.StartRead? || a.Scan? || a.CountTimeout? || a.ScanDone?
             || a.Arm? || a.StopFlag? || a.Second? || a.Expiry?
    ensures AllFollow(c, Next(c, s, a))
  {
    hide AllFollow, Collected, PlayingSessions, P.ParseMessage, NextInsert, NextRespond, NextFinish, NextWrite,
         NextForward, NextStop, Reap, EndConnection, CloseConnection, Stopped;
    FewerFollow(c, s, Next(c, s, a));
  }

  lemma {:induction false} ReachableFollows(c: Config, states: seq<World>, actions: seq<Action>, i: nat)
    requires IsRun(c, states, actions) && i < |states|
    ensures AllFollow(c, states[i])
  {
    hide O.Owned, AllFollow, Enabled, Next;
    if i == 0 {
      StartFollows(c);
    } else {
      O.ReachableIsOwned(c, states, actions, i - 1);
      ReachableFollows(c, states, actions, i - 1);
      StepKeepsFollow(c, states[i - 1], actions[i - 1]);
    }
  }

  lemma StartFollows(c: Config)
    ensures AllFollow(c, START)
  {
  }
}

/**
 Runs of the server with one client, from which states that break a property are built.
 */
module ServerRuns {
  import opened Bytes
  import opened Builder
  import opened Text
  import opened RoundTrips
  import opened ReplyLaws
  import opened Service
  import opened Transport
  import opened Framing
  import opened Forwarder
  import opened Server
  import P = Parser

  lemma ReachStart(c: Config)
    ensures Reachable(c, START)
  {
    assert IsRun(c, [START], []);
  }

  lemma ReachStep(c: Config, s: World, a: Action)
    requires Reachable(c, s) && Enabled(c, s, a)
    ensures Reachable(c, Next(c, s, a))
  {
    hide Enabled, Next;
    var states, actions :| IsRun(c, states, actions) && states[|states| - 1] == s;
    var more, done := states + [Next(c, s, a)], actions + [a];
    forall i | 0 <= i < |done| ensures Enabled(c, more[i], done[i]) && more[i + 1] == Next(c, more[i], done[i]) {
      if i < |actions| { assert Enabled(c, states[i], actions[i]); }
    }
    assert IsRun(c, more, done);
  }

  // ----- One client -----

  /** What has happened besides the client's own history. */
  datatype Past = Past(packets: seq<Packet>, forwards: seq<(Sid, bool)>, dropped: nat, now: nat, due: bool, scans: nat,
                       lastScan: nat, scanBefore: nat)

  const FRESH := Past([], [], 0, 0, false, 0, 0, 0)

  /** The world of one client, session 0 on descriptor 3. */
  function Alone(x: Sess, write: bool, epoll: EpollPc, stream: StreamPc, p: Past): World {
    World(map[0 := x], map[3 := 0], map[3 := Reg(0, write)], {3}, epoll, stream, p.packets, p.forwards, true,
          1, 1, 0, p.dropped, 0, p.now, p.due, p.scans, p.lastScan, p.scanBefore)
  }

  function NewClient(): Sess {
    Sess("a", 3, {}, View(Init, "", "", false, 0), Out([], []), [], [], 0, 0)
  }

  lemma ClientConnects(c: Config)
    requires c.maxSessions > 0
    ensures Reachable(c, Alone(NewClient(), false, Idle, Quiet, FRESH))
  {
    hide Reachable;
    ConnectAlone(c);
    ReachStart(c);
    ReachStep(c, START, Accept(3));
    var s1 := Next(c, START, Accept(3));
    ReachStep(c, s1, Count);
    var s2 := Next(c, s1, Count);
    ReachStep(c, s2, Register(true));
    var s3 := Next(c, s2, Register(true));
    ReachStep(c, s3, Insert("a"));
  }

  /** The four steps of a connection. */
  lemma ConnectAlone(c: Config)
    requires c.maxSessions > 0
    ensures Enabled(c, START, Accept(3))
    ensures var s1 := Next(c, START, Accept(3));
            && Enabled(c, s1, Count)
            && var s2 := Next(c, s1, Count);
               && Enabled(c, s2, Register(true))
               && var s3 := Next(c, s2, Register(true));
                  && Enabled(c, s3, Insert("a"))
                  && Next(c, s3, Insert("a")) == Alone(NewClient(), false, Idle, Quiet, FRESH)
  {
    var s1 := START.(open := {3}, epoll := Accepted(3, 0), nextSid := 1);
    assert START.open + {3} == {3};
    assert Next(c, START, Accept(3)) == s1;
    var s2 := s1.(total := 1, epoll := Counted(3, 0));
    var s3 := s2.(regs := map[3 := Reg(0, false)], epoll := Registered(3, 0));
    assert s2.regs[3 := Reg(0, false)] == map[3 := Reg(0, false)];
    assert Next(c, s2, Register(true)) == s3;
    assert s3.objs[0 := NewClient()] == map[0 := NewClient()];
    assert s3.sessions[3 := 0] == map[3 := 0];
    assert NextInsert(s3, "a") == Alone(NewClient(), false, Idle, Quiet, FRESH);
  }

  /** A request of the client that asks for no UDP transport: what the session is after it. */
  function AfterRequest(c: Config, x: Sess, request: P.Request, env: Env, scans: nat): Sess {
    var y := Answer(c, x, request, env, {});
    match PhaseSet(x.view.(lastActivity := env.now), request, env)
    case None => y
    case Some(p) => y.(view := y.view.(phase := p), phaseScan := scans)
  }

  lemma ClientAsks(c: Config, x: Sess, write: bool, p: Past, handed: Bytes, env: Env)
    requires Reachable(c, Alone(x, write, Idle, Quiet, p))
    requires P.ParseMessage(handed).Ok? && env.now == p.now && x.udp == {} && x.fd == 3
    ensures var y := AfterRequest(c, x, P.ParseMessage(handed).value, env, p.scans);
            Reachable(c, Alone(y, write || y.out.buf != [], Idle, Quiet, p)) && y.udp == {} && y.fd == 3
  {
    hide Reachable, Answer, PhaseSet, P.ParseMessage, Next, Enabled;
    var request := P.ParseMessage(handed).value;
    var y, z := Answer(c, x, request, env, {}), AfterRequest(c, x, request, env, p.scans);
    var s := Alone(x, write, Reading(0), Quiet, p);
    var t := Alone(y, write, Answered(0, PhaseSet(x.view.(lastActivity := env.now), request, env)), Quiet, p);
    var u := Alone(z, write || y.out.buf != [], Reading(0), Quiet, p);
    AnswerKeepsFds(c, x, request, env);
    ReadStarts(c, x, write, p);
    RespondAlone(c, x, write, p, handed, env);
    ReachStep(c, s, Respond(handed, env, {}));
    FinishAlone(c, y, write, p, PhaseSet(x.view.(lastActivity := env.now), request, env));
    ReachStep(c, t, Finish);
    EndReadAlone(c, z, write || y.out.buf != [], p);
    ReachStep(c, u, EndRead(false));
  }

  lemma ReadStarts(c: Config, x: Sess, write: bool, p: Past)
    requires Reachable(c, Alone(x, write, Idle, Quiet, p))
    ensures Reachable(c, Alone(x, write, Reading(0), Quiet, p))
  {
    hide Reachable;
    ReachStep(c, Alone(x, write, Idle, Quiet, p), StartRead(3));
  }

  lemma RespondAlone(c: Config, x: Sess, write: bool, p: Past, handed: Bytes, env: Env)
    requires P.ParseMessage(handed).Ok? && env.now == p.now && x.udp == {}
    ensures var s := Alone(x, write, Reading(0), Quiet, p);
            var request := P.ParseMessage(handed).value;
            && Enabled(c, s, Respond(handed, env, {}))
            && Next(c, s, Respond(handed, env, {}))
               == Alone(Answer(c, x, request, env, {}), write,
                        Answered(0, PhaseSet(x.view.(lastActivity := env.now), request, env)), Quiet, p)
  {
    hide Answer, PhaseSet, P.ParseMessage;
    var s, y := Alone(x, write, Reading(0), Quiet, p), Answer(c, x, P.ParseMessage(handed).value, env, {});
    AnswerKeepsFds(c, x, P.ParseMessage(handed).value, env);
    assert s.objs[0 := y] == map[0 := y] && s.open - x.udp + y.udp == {3};
  }

  lemma FinishAlone(c: Config, y: Sess, write: bool, p: Past, newPhase: Option<Phase>)
    requires y.udp == {} && y.fd == 3
    ensures var s := Alone(y, write, Answered(0, newPhase), Quiet, p);
            var z := match newPhase {
                       case None => y
                       case Some(q) => y.(view := y.view.(phase := q), phaseScan := p.scans)
                     };
            && Enabled(c, s, Finish)
            && Next(c, s, Finish) == Alone(z, write || y.out.buf != [], Reading(0), Quiet, p)
  {
    var s := Alone(y, write, Answered(0, newPhase), Quiet, p);
    var z := NextFinish(s).objs[0];
    assert s.objs[0 := z] == map[0 := z] && s.open - (y.udp - z.udp) == {3};
    assert s.regs[3 := Reg(0, true)] == map[3 := Reg(0, true)];
  }

  lemma EndReadAlone(c: Config, x: Sess, write: bool, p: Past)
    ensures var s := Alone(x, write, Reading(0), Quiet, p);
            && Enabled(c, s, EndRead(false))
            && Next(c, s, EndRead(false)) == Alone(x, write, Idle, Quiet, p)
  {
    hide Reap;
    AloneIsLive(Alone(x, write, Idle, Quiet, p));
  }

  lemma AnswerKeepsFds(c: Config, x: Sess, request: P.Request, env: Env)
    requires x.udp == {}
    ensures var y := Answer(c, x, request, env, {}); y.fd == x.fd && y.udp == {}
  {
    hide Handle, Step;
  }

  /** `Reap` finds nothing to do. */
  lemma AloneIsLive(s: World)
    requires s.objs.Keys == {0} && s.sessions == map[3 := 0]
    ensures Reap(s) == s
  {
    assert s.sessions[3] == 0;
    assert 0 in Live(s) && DeadFds(s) == {};
  }

  lemma ClientIsFlushed(c: Config, x: Sess, write: bool, p: Past, k: Kernel)
    requires Reachable(c, Alone(x, write, Idle, Quiet, p)) && x.out.buf != [] && k.Room?
    ensures var y := Do(c, x, FlushOp(k));
            Reachable(c, Alone(y, write && y.out.buf != [], Idle, Quiet, p))
  {
    hide Reachable, Do;
    var s, y := Alone(x, write, Idle, Quiet, p), Do(c, x, FlushOp(k));
    ReachStep(c, s, WriteEvent(3, k));
    assert s.objs[0 := y] == map[0 := y];
    assert s.regs[3 := Reg(0, false)] == map[3 := Reg(0, false)];
    assert NextWrite(c, s, 3, k) == Alone(y, write && y.out.buf != [], Idle, Quiet, p);
  }

  /** A packet is broadcast while the client plays: the client right after the forward to it, and the past. */
  function AfterPacket(c: Config, x: Sess, p: Past, packet: Packet, k: Kernel): (Sess, Past) {
    var y := Forwarded1(c, x, packet, |p.packets|, p.now, k);
    var ok := ForwardSucceeds(c, x, packet, k, false);
    var z := y.(drops := if ok then 0 else x.drops + 1);
    var slow := !ok && z.drops >= MAX_CONSECUTIVE_DROPS;
    (if slow then z.(view := z.view.(phase := Phase.Teardown), phaseScan := p.scans) else z,
     p.(packets := p.packets + [packet], forwards := p.forwards + [(0, ok)],
        dropped := if slow then p.dropped + 1 else p.dropped))
  }

  function StreamAfter(c: Config, x: Sess, p: Past, packet: Packet, k: Kernel): StreamPc {
    if ForwardSucceeds(c, x, packet, k, false) && AfterPacket(c, x, p, packet, k).0.out.buf != []
    then Arming(0, [], {0})
    else Broadcasting([], {0})
  }

  lemma ClientIsForwarded(c: Config, x: Sess, write: bool, p: Past, packet: Packet, k: Kernel)
    requires Reachable(c, Alone(x, write, Idle, Quiet, p)) && x.view.phase == Playing
    ensures var (y, q) := AfterPacket(c, x, p, packet, k);
            Reachable(c, Alone(y, write, Idle, StreamAfter(c, x, p, packet, k), q))
  {
    hide Reachable, AfterPacket, StreamAfter, Next, Enabled;
    SnapshotAlone(c, x, write, p, packet);
    ReachStep(c, Alone(x, write, Idle, Quiet, p), Snapshot(packet, [0]));
    ForwardAlone(c, x, write, p, packet, k);
    ReachStep(c, Alone(x, write, Idle, Broadcasting([0], {0}), p.(packets := p.packets + [packet])), Forward(k, false));
  }

  lemma SnapshotAlone(c: Config, x: Sess, write: bool, p: Past, packet: Packet)
    requires x.view.phase == Playing
    ensures var s := Alone(x, write, Idle, Quiet, p);
            && Enabled(c, s, Snapshot(packet, [0]))
            && Next(c, s, Snapshot(packet, [0]))
               == Alone(x, write, Idle, Broadcasting([0], {0}), p.(packets := p.packets + [packet]))
  {
    var s := Alone(x, write, Idle, Quiet, p);
    assert s.sessions[3] == 0;
    assert Elements([0]) == {0} == PlayingSessions(s);
  }

  lemma ForwardAlone(c: Config, x: Sess, write: bool, p: Past, packet: Packet, k: Kernel)
    ensures var s := Alone(x, write, Idle, Broadcasting([0], {0}), p.(packets := p.packets + [packet]));
            var (y, q) := AfterPacket(c, x, p, packet, k);
            && Enabled(c, s, Forward(k, false))
            && Next(c, s, Forward(k, false)) == Alone(y, write, Idle, StreamAfter(c, x, p, packet, k), q)
  {
    hide Forwarded1, ForwardSucceeds, P.ParseMessage, NextInsert, NextRespond, NextFinish, NextWrite, NextScan,
         NextStop, Reap, EndConnection, CloseConnection, PlayingSessions, SetWrite;
    var s := Alone(x, write, Idle, Broadcasting([0], {0}), p.(packets := p.packets + [packet]));
    var y := AfterPacket(c, x, p, packet, k).0;
    assert [0][1..] == [] && s.objs[0 := y] == map[0 := y];
  }

  lemma BroadcastEnds(c: Config, x: Sess, write: bool, p: Past)
    requires Reachable(c, Alone(x, write, Idle, Broadcasting([], {0}), p))
    ensures Reachable(c, Alone(x, write, Idle, Quiet, p))
  {
    hide Reachable, Reap;
    ReachStep(c, Alone(x, write, Idle, Broadcasting([], {0}), p), EndBroadcast);
    AloneIsLive(Alone(x, write, Idle, Quiet, p));
  }

  lemma TimerExpires(c: Config, x: Sess, write: bool, p: Past)
    requires Reachable(c, Alone(x, write, Idle, Quiet, p))
    ensures Reachable(c, Alone(x, write, Idle, Quiet, p.(due := true)))
  {
    hide Reachable;
    ReachStep(c, Alone(x, write, Idle, Quiet, p), Expiry);
  }

  /** The timer's scan, which collects the client or nobody. */
  lemma ScanRuns(c: Config, x: Sess, write: bool, p: Past)
    requires Reachable(c, Alone(x, write, Idle, Quiet, p)) && p.due
    requires c.connectionTimeout > 0 || c.sessionTimeout > 0
    ensures Reachable(c, Alone(x, write, Closing(if Collected(c, x, p.now) then {3} else {}), Quiet, Scanned(p)))
  {
    hide Reachable;
    ScanAlone(c, x, write, p);
    ReachStep(c, Alone(x, write, Idle, Quiet, p), Scan);
  }

  function Scanned(p: Past): Past {
    p.(due := false, scans := p.scans + 1, lastScan := p.now, scanBefore := p.lastScan)
  }

  lemma ScanAlone(c: Config, x: Sess, write: bool, p: Past)
    requires p.due && (c.connectionTimeout > 0 || c.sessionTimeout > 0)
    ensures var s := Alone(x, write, Idle, Quiet, p);
            && Enabled(c, s, Scan)
            && Next(c, s, Scan)
               == Alone(x, write, Closing(if Collected(c, x, p.now) then {3} else {}), Quiet, Scanned(p))
  {
    hide Collected;
    var s := Alone(x, write, Idle, Quiet, p);
    assert s.sessions[3] == 0 && s.objs[0] == x;
    assert NextScan(c, s).epoll.todo == if Collected(c, x, p.now) then {3} else {};
  }

  lemma AfterPlay(c: Config, x: Sess, request: P.Request, env: Env, scans: nat)
    requires request.method_ == P.Play && |x.out.buf| <= c.capacity
    ensures var y := AfterRequest(c, x, request, env, scans);
            var op := Offer(Response(PlayReply(request.cseq)), env.k);
            && y == x.(view := y.view, out := Step(x.out, c.capacity, op, x.id), ops := x.ops + [op],
                       phaseScan := scans)
            && y.view.phase == Playing && y.view.isUdp == x.view.isUdp && y.view.lastActivity == env.now
  {
    hide Step;
  }

  lemma AfterTeardown(c: Config, x: Sess, request: P.Request, env: Env, scans: nat)
    requires request.method_ == P.Teardown && |x.out.buf| <= c.capacity
    ensures var y := AfterRequest(c, x, request, env, scans);
            var op := Offer(Response(SimpleReply(request.cseq)), env.k);
            && y == x.(view := y.view, out := Step(x.out, c.capacity, op, x.id), ops := x.ops + [op],
                       phaseScan := scans)
            && y.view.phase == Phase.Teardown && y.view.isUdp == x.view.isUdp
  {
    hide Step;
  }

  lemma AfterDescribe(c: Config, x: Sess, request: P.Request, env: Env, scans: nat)
    requires request.method_ == P.Describe && env.sdp != "" && |x.out.buf| <= c.capacity
    ensures var y := AfterRequest(c, x, request, env, scans);
            var op := Offer(Response(DescribeReply(request.cseq, env.sdp)), env.k);
            && y == x.(view := y.view, out := Step(x.out, c.capacity, op, x.id), ops := x.ops + [op],
                       phaseScan := scans)
            && y.view.isUdp == x.view.isUdp
  {
    hide Step;
  }

  function Outside(k: Kernel, sdp: Bytes, now: nat): Env {
    Env(k, now, sdp, false, false, 0, 0, i => ' ')
  }

  // ----- The phase after TEARDOWN -----

  /** The client has asked for TEARDOWN, and the response has gone out. */
  lemma ClientTearsDown(c: Config) returns (x: Sess)
    requires c.maxSessions > 0
    ensures Reachable(c, Alone(x, false, Idle, Quiet, FRESH)) && x.view.phase == Phase.Teardown
    ensures x.out == Out(ReplyBytes(SimpleReply(1), "a"), []) && x.id == "a" && x.udp == {} && x.fd == 3
  {
    hide Reachable, P.ParseMessage, RequestOf, Step, ReplyBytes;
    var reply := SimpleReply(1);
    var env := Outside(Room(|ReplyBytes(reply, "a")|), "", 0);
    ClientConnects(c);
    RequestIsUnderstood(P.Teardown, 1);
    ClientAsks(c, NewClient(), false, FRESH, RequestOf(P.Teardown, 1), env);
    AfterTeardown(c, NewClient(), P.ParseMessage(RequestOf(P.Teardown, 1)).value, env, 0);
    GoesOut(reply, [], c.capacity, "a");
    x := AfterRequest(c, NewClient(), P.ParseMessage(RequestOf(P.Teardown, 1)).value, env, 0);
  }

  /** A response that the kernel takes whole. */
  lemma GoesOut(r: Reply, wire: Bytes, cap: nat, sessionId: string)
    ensures Step(Out(wire, []), cap, Offer(Response(r), Room(|ReplyBytes(r, sessionId)|)), sessionId)
         == Out(wire + ReplyBytes(r, sessionId), [])
  {
    hide ReplyBytes;
    var d := ReplyBytes(r, sessionId);
    assert d[..|d|] == d && d[|d|..|d|] == [];
  }

  /** A client that has received the response to TEARDOWN asks for PLAY, receives that response, and plays. */
  lemma TeardownIsLeft(c: Config)
    requires c.maxSessions > 0
    ensures exists s, t :: && Reachable(c, s) && Reachable(c, t) && 0 in s.objs && 0 in t.objs
                           && s.objs[0].view.phase == Phase.Teardown && t.objs[0].view.phase == Playing
                           && s.objs[0].out.wire == ReplyBytes(SimpleReply(1), "a")
                           && t.objs[0].out.wire == s.objs[0].out.wire + ReplyBytes(PlayReply(2), "a")
  {
    hide Reachable, P.ParseMessage, RequestOf, Step, ReplyBytes;
    var reply := PlayReply(2);
    var env := Outside(Room(|ReplyBytes(reply, "a")|), "", 0);
    var x := ClientTearsDown(c);
    RequestIsUnderstood(P.Play, 2);
    ClientAsks(c, x, false, FRESH, RequestOf(P.Play, 2), env);
    AfterPlay(c, x, P.ParseMessage(RequestOf(P.Play, 2)).value, env, 0);
    GoesOut(reply, x.out.wire, c.capacity, "a");
    var y := AfterRequest(c, x, P.ParseMessage(RequestOf(P.Play, 2)).value, env, 0);
    var s, t := Alone(x, false, Idle, Quiet, FRESH), Alone(y, false, Idle, Quiet, FRESH);
    assert s.objs[0] == x && t.objs[0] == y;
  }

  // ----- Its requests -----

  /** A request without a body that carries nothing but its CSeq. */
  function RequestOf(m: P.Method, n: int): Bytes {
    RequestBytes(m, "*", [("CSeq", ToString(n))])
  }

  lemma RequestIsUnderstood(m: P.Method, n: nat)
    requires m != P.Unknown && n < 10
    ensures var r := P.ParseMessage(RequestOf(m, n)); r.Ok? && r.value.method_ == m && r.value.cseq == n
  {
    hide P.ParseUnlimited, RequestBytes, ReadMap, ReadName, ToString, P.ParseCSeq;
    var h := [("CSeq", ToString(n))];
    CSeqHeaderIsClean(n);
    RequestIsShort(m, n);
    RequestIsRead(m, "*", h);
    ReadMapLooksUp(h, 0);
    CSeqIsRead(n);
  }

  lemma CSeqHeaderIsClean(n: nat)
    ensures var h := [("CSeq", ToString(n))]; Clean(h) && ReadName(h[0].0) == "cseq" && Trim(h[0].1) == ToString(n)
  {
    NamesAreRead("CSeq");
    NamesAreClean("CSeq");
    LowerNames();
    TrimExactly(ToString(n));
  }

  lemma RequestIsShort(m: P.Method, n: nat)
    requires n < 10
    ensures 0 < |RequestOf(m, n)| <= P.MAX_REQUEST
  {
    var h := [("CSeq", ToString(n))];
    assert |ToString(n)| == 1;
    assert |HeaderLine(h[0])| == 7 && |HeaderLines(h[1..])| == 0;
    assert |HeaderLines(h)| == 9;
    assert |P.MethodToString(m)| <= 13 && |RTSP_VERSION| == 8;
  }
}

/**
 No lost flush: bytes that wait in a mapped session's write buffer always have write interest armed, or the
 thread that queued them is about to arm it.
 */
module ServerFlush {
  import opened Bytes
  import opened Builder
  import opened Service
  import opened Transport
  import opened Framing
  import opened Forwarder
  import opened Server
  import opened ServerRuns
  import O = ServerOwnership
  import L = ServerLimits
  import P = Parser

  /** Write interest is armed for mapped session `fd`, or a thread is between queueing and arming. */
  ghost predicate ArmedOrArming(s: World, fd: int)
    requires fd in s.sessions && s.sessions[fd] in s.objs
  {
    s.objs[s.sessions[fd]].out.buf != [] ==>
      || (fd in s.regs && s.regs[fd].write)
      || (s.stream.Arming? && s.stream.sid == s.sessions[fd])
      || (s.epoll.Answered? && s.epoll.sid == s.sessions[fd])
  }

  ghost predicate AllArmed(s: World) {
    forall fd :: fd in s.sessions ==> s.sessions[fd] in s.objs && ArmedOrArming(s, fd)
  }

  ghost predicate BuffersFit(c: Config, s: World) {
    forall sid :: sid in s.objs ==> |s.objs[sid].out.buf| <= c.capacity
  }

  /** An empty buffer cannot hold even a frame's header, or it holds any frame whole. */
  predicate NoStranding(c: Config) {
    c.capacity < HEADER_SIZE || HEADER_SIZE + MAX_PACKET <= c.capacity
  }

  // ----- Outgoing operations -----

  lemma DoFits(c: Config, x: Sess, op: Op)
    requires |x.out.buf| <= c.capacity
    ensures |Do(c, x, op).out.buf| <= c.capacity
  {
    hide CallOf, Perform;
  }

  lemma FlushOnlyShrinks(c: Config, x: Sess, k: Kernel)
    requires x.out.buf == []
    ensures Do(c, x, FlushOp(k)).out.buf == []
  {
  }

  /** A forward that fails on an empty buffer leaves it empty. */
  lemma FailedForwardQueuesNothing(c: Config, x: Sess, packet: Packet, number: nat, now: nat, k: Kernel, udpSent: bool)
    requires NoStranding(c) && |x.out.buf| <= c.capacity && x.out.buf == []
    requires !ForwardSucceeds(c, x, packet, k, udpSent)
    ensures Forwarded1(c, x, packet, number, now, k).out.buf == []
  {
    hide SendVOutcome;
    if !x.view.isUdp && ValidPacket(packet) {
      ForwardTornExactly(packet, 0, c.capacity, k);
      FrameIsJoined(packet);
      assert |FrameBytes(packet)| <= HEADER_SIZE + MAX_PACKET;
      var s := SendVOutcome(FrameVectors(packet), 0, c.capacity, k);
      assert s.kept == 0;
    }
  }

  lemma ForwardFits(c: Config, x: Sess, packet: Packet, number: nat, now: nat, k: Kernel)
    requires |x.out.buf| <= c.capacity
    ensures |Forwarded1(c, x, packet, number, now, k).out.buf| <= c.capacity
  {
    hide CallOf, Perform;
    DoFits(c, x.(view := x.view.(lastActivity := now)), Offer(Media(packet), k));
  }

  lemma AnswerFits(c: Config, x: Sess, request: P.Request, env: Env, udp: set<int>)
    requires |x.out.buf| <= c.capacity
    ensures |Answer(c, x, request, env, udp).out.buf| <= c.capacity
  {
    hide Handle, Step, Builder.ReplyBytes;
  }

  // ----- Steps -----

  /** A session other than `sid` is not affected by a step on `sid`. */
  lemma OthersStayArmed(s: World, t: World, sid: Sid, fd: int)
    requires AllArmed(s) && fd in s.sessions && t.sessions == s.sessions && s.sessions[fd] != sid
    requires sid in s.objs && t.objs.Keys == s.objs.Keys
    requires forall o :: o in s.objs && o != sid ==> t.objs[o] == s.objs[o]
    requires fd in s.regs && s.regs[fd].write ==> fd in t.regs && t.regs[fd].write
    requires s.stream.Arming? ==> t.stream == s.stream || s.stream.sid == sid
    requires s.epoll.Answered? ==> t.epoll == s.epoll || s.epoll.sid == sid
    ensures ArmedOrArming(t, fd)
  {
    assert ArmedOrArming(s, fd);
  }

  lemma RespondArms(c: Config, s: World, handed: Bytes, env: Env, udp: set<int>)
    requires O.Owned(s) && AllArmed(s) && Enabled(c, s, Respond(handed, env, udp))
    ensures AllArmed(Next(c, s, Respond(handed, env, udp)))
  {
    hide P.ParseMessage, Answer, PhaseSet, O.Owned, ArmedOrArming;
    var t := Next(c, s, Respond(handed, env, udp));
    forall fd | fd in t.sessions ensures ArmedOrArming(t, fd) {
      if s.sessions[fd] == s.epoll.sid {
        assert ArmedOrArming(t, fd) by { AnsweredIsArming(t, fd); }
      } else {
        OthersStayArmed(s, t, s.epoll.sid, fd);
      }
    }
  }

  lemma AnsweredIsArming(s: World, fd: int)
    requires fd in s.sessions && s.sessions[fd] in s.objs && s.epoll.Answered? && s.epoll.sid == s.sessions[fd]
    ensures ArmedOrArming(s, fd)
  {
  }

  lemma FinishArms(c: Config, s: World)
    requires O.Core(s) && AllArmed(s) && Enabled(c, s, Finish)
    ensures AllArmed(NextFinish(s))
  {
    hide O.SessionsOwned, O.RegsOwned, O.StreamOwned, O.PendingOwned;
    var t := NextFinish(s);
    var x := s.objs[s.epoll.sid];
    forall fd | fd in t.sessions ensures ArmedOrArming(t, fd) {
      assert s.objs[s.sessions[fd]].fd == fd && fd in s.regs;
      if s.sessions[fd] != s.epoll.sid {
        OthersStayArmed(s, t, s.epoll.sid, fd);
      }
    }
  }

  lemma WriteArms(c: Config, s: World, fd: int, k: Kernel)
    requires O.Owned(s) && AllArmed(s) && Enabled(c, s, WriteEvent(fd, k))
    requires !(s.objs[s.sessions[fd]].out.buf != [] && k.Failed?)
    ensures AllArmed(NextWrite(c, s, fd, k))
  {
    hide Do, O.SessionsOwned, O.RegsOwned, O.StreamOwned, O.PendingOwned;
    var sid := s.sessions[fd];
    var t := NextWrite(c, s, fd, k);
    if s.objs[sid].out.buf == [] { FlushOnlyShrinks(c, s.objs[sid], k); }
    forall g | g in t.sessions ensures ArmedOrArming(t, g) {
      assert ArmedOrArming(s, g);
      assert s.objs[s.sessions[g]].fd == g;
      if s.sessions[g] != sid {
        OthersStayArmed(s, t, sid, g);
      }
    }
  }

  lemma ForwardArms(c: Config, s: World, k: Kernel, udpSent: bool)
    requires NoStranding(c) && BuffersFit(c, s) && AllArmed(s) && Enabled(c, s, Forward(k, udpSent))
    ensures AllArmed(NextForward(c, s, k, udpSent))
  {
    hide Forwarded1, ForwardSucceeds;
    var sid := s.stream.queue[0];
    var x, number := s.objs[sid], |s.packets| - 1;
    var t := NextForward(c, s, k, udpSent);
    forall fd | fd in t.sessions ensures ArmedOrArming(t, fd) {
      assert ArmedOrArming(s, fd);
      if s.sessions[fd] != sid {
        OthersStayArmed(s, t, sid, fd);
      } else if x.out.buf == [] && !ForwardSucceeds(c, x, s.packets[number], k, udpSent) {
        FailedForwardQueuesNothing(c, x, s.packets[number], number, s.now, k, udpSent);
      }
    }
  }

  lemma ArmArms(c: Config, s: World)
    requires O.Core(s) && AllArmed(s) && Enabled(c, s, Arm)
    ensures AllArmed(Next(c, s, Arm))
  {
    hide O.SessionsOwned, O.RegsOwned, O.StreamOwned, O.PendingOwned;
    var t := Next(c, s, Arm);
    forall fd | fd in t.sessions ensures ArmedOrArming(t, fd) {
      assert ArmedOrArming(s, fd);
      assert s.objs[s.sessions[fd]].fd == fd && fd in s.regs;
    }
  }

  lemma InsertArms(c: Config, s: World, id: string)
    requires O.Owned(s) && AllArmed(s) && Enabled(c, s, Insert(id))
    ensures AllArmed(NextInsert(s, id))
  {
    hide O.SessionsOwned, O.RegsOwned, O.StreamOwned;
    O.InsertKeeps(c, s, id);
    var t := NextInsert(s, id);
    forall fd | fd in t.sessions ensures ArmedOrArming(t, fd) {
      if fd != s.epoll.fd {
        assert ArmedOrArming(s, fd);
        assert s.sessions[fd] in s.objs;
      }
    }
  }

  /** Fewer mapped sessions, none of which loses its registration. */
  lemma FewerStayArmed(s: World, t: World)
    requires AllArmed(s)
    requires forall fd :: fd in t.sessions ==>
               && fd in s.sessions && t.sessions[fd] == s.sessions[fd]
               && t.sessions[fd] in t.objs && t.objs[t.sessions[fd]] == s.objs[s.sessions[fd]]
               && (fd in s.regs ==> fd in t.regs && t.regs[fd] == s.regs[fd])
    requires t.stream == s.stream || !s.stream.Arming?
    requires t.epoll == s.epoll || !s.epoll.Answered?
    ensures AllArmed(t)
  {
    forall fd | fd in t.sessions ensures ArmedOrArming(t, fd) {
      assert ArmedOrArming(s, fd);
    }
  }

  lemma SameStayArmed(s: World, t: World)
    requires AllArmed(s) && t.sessions == s.sessions && t.objs == s.objs
    requires forall fd :: fd in s.regs ==> fd in t.regs && t.regs[fd] == s.regs[fd]
    requires t.stream == s.stream || !s.stream.Arming?
    requires t.epoll == s.epoll || !s.epoll.Answered?
    ensures AllArmed(t)
  {
    FewerStayArmed(s, t);
  }

  /** `Reap` after ownership has been established touches no mapped session. */
  lemma ReapStaysArmed(s: World)
    requires O.Core(s) && AllArmed(s)
    ensures AllArmed(Reap(s))
  {
    hide O.SessionsOwned, O.RegsOwned, O.StreamOwned, O.PendingOwned, ArmedOrArming, DeadFds;
    var t := Reap(s);
    O.ReapKeepsCore(s);
    forall fd | fd in t.sessions ensures t.sessions[fd] in t.objs && fd in t.regs {
      assert t.sessions[fd] in Live(s);
    }
    FewerStayArmed(s, t);
  }

  lemma EndStaysArmed(s: World, fd: int)
    requires O.Core(s) && AllArmed(s) && !s.epoll.Registered?
    ensures AllArmed(EndConnection(s, fd)) && AllArmed(Reap(EndConnection(s, fd)))
    ensures AllArmed(CloseConnection(s, fd))
  {
    hide ArmedOrArming, Reap, O.Core;
    var t := EndConnection(s, fd);
    O.CloseKeeps(s, fd);
    O.CountersKeep(CloseConnection(s, fd), t);
    FewerStayArmed(s, t);
    FewerStayArmed(s, CloseConnection(s, fd));
    ReapStaysArmed(t);
  }

  lemma ClosingStaysArmed(c: Config, s: World, a: Action)
    requires O.Owned(s) && AllArmed(s) && Enabled(c, s, a)
    requires a.EndRead? || a.CloseTimedOut? || a.EndBroadcast? || a.StopClear?
    ensures AllArmed(Next(c, s, a))
  {
    hide ArmedOrArming, Reap, EndConnection, CloseConnection, O.SessionsOwned, O.RegsOwned, O.MapOwned,
         O.StreamOwned, O.PendingOwned, Forgotten, P.ParseMessage, NextInsert, NextRespond, NextFinish,
         NextWrite, NextForward, NextStop, NextScan, Live;
    match a
    case EndRead(close) =>
      var fd := s.objs[s.epoll.sid].fd;
      EndStaysArmed(s, fd);
      O.EndReadCore(s, fd, close);
      var u := if close then EndConnection(s, fd) else s;
      O.EndKeepsPc(s, fd);
      FewerStayArmed(u, u.(epoll := Idle));
      ReapStaysArmed(u.(epoll := Idle));
    case CloseTimedOut =>
      var u := CloseConnection(s, s.epoll.closing);
      EndStaysArmed(s, s.epoll.closing);
      O.CloseKeeps(s, s.epoll.closing);
      O.EndKeepsPc(s, s.epoll.closing);
      O.PcKeeps(u, u.(epoll := Closing(s.epoll.todo)));
      FewerStayArmed(u, u.(epoll := Closing(s.epoll.todo)));
      ReapStaysArmed(u.(epoll := Closing(s.epoll.todo)));
    case EndBroadcast =>
      QuietOwns(s);
      O.StreamPcKeeps(s, s.(stream := Quiet));
      FewerStayArmed(s, s.(stream := Quiet));
      ReapStaysArmed(s.(stream := Quiet));
    case StopClear => StopStaysArmed(s);
  }

  lemma StopStaysArmed(s: World)
    ensures AllArmed(NextStop(s))
  {
    hide DeadFds, Live;
  }

  lemma QuietOwns(s: World)
    ensures O.StreamOwned(s.(stream := Quiet))
  {
  }

  // ----- Every step and every reachable state -----

  lemma FewerFit(c: Config, s: World, t: World)
    requires BuffersFit(c, s)
    requires forall sid :: sid in t.objs ==> sid in s.objs && t.objs[sid].out == s.objs[sid].out
    ensures BuffersFit(c, t)
  {
  }

  lemma PutFits(c: Config, s: World, t: World, sid: Sid)
    requires BuffersFit(c, s) && sid in t.objs && t.objs == s.objs[sid := t.objs[sid]]
    requires |t.objs[sid].out.buf| <= c.capacity
    ensures BuffersFit(c, t)
  {
  }

  lemma ReapFits(c: Config, s: World)
    requires BuffersFit(c, s)
    ensures BuffersFit(c, Reap(s))
  {
    hide DeadFds, Live, BuffersFit;
    FewerFit(c, s, Reap(s));
  }

  lemma WriteFits(c: Config, s: World, fd: int, k: Kernel)
    requires BuffersFit(c, s) && Enabled(c, s, WriteEvent(fd, k))
    ensures BuffersFit(c, NextWrite(c, s, fd, k))
  {
    hide Do, Reap;
    var sid := s.sessions[fd];
    DoFits(c, s.objs[sid], FlushOp(k));
    var t := PutSess(s, sid, Do(c, s.objs[sid], FlushOp(k)));
    PutFits(c, s, t, sid);
    ReapFits(c, EndConnection(t, fd));
  }

  lemma ForwardStepFits(c: Config, s: World, k: Kernel, udpSent: bool)
    requires BuffersFit(c, s) && Enabled(c, s, Forward(k, udpSent))
    ensures BuffersFit(c, NextForward(c, s, k, udpSent))
  {
    hide Forwarded1, ForwardSucceeds;
    var sid := s.stream.queue[0];
    ForwardFits(c, s.objs[sid], s.packets[|s.packets| - 1], |s.packets| - 1, s.now, k);
    PutFits(c, s, NextForward(c, s, k, udpSent), sid);
  }

  lemma RespondFits(c: Config, s: World, handed: Bytes, env: Env, udp: set<int>)
    requires BuffersFit(c, s) && Enabled(c, s, Respond(handed, env, udp))
    ensures BuffersFit(c, Next(c, s, Respond(handed, env, udp)))
  {
    hide P.ParseMessage, Answer, PhaseSet;
    AnswerFits(c, s.objs[s.epoll.sid], P.ParseMessage(handed).value, env, udp);
    PutFits(c, s, Next(c, s, Respond(handed, env, udp)), s.epoll.sid);
  }

  lemma StepKeepsFits(c: Config, s: World, a: Action)
    requires BuffersFit(c, s) && Enabled(c, s, a)
    ensures BuffersFit(c, Next(c, s, a))
  {
    hide P.ParseMessage, NextRespond, NextWrite, NextForward, Reap, Collected, BuffersFit, EndConnection,
         CloseConnection, NextStop;
    var t := Next(c, s, a);
    match a
    case Respond(handed, env, udp) => RespondFits(c, s, handed, env, udp);
    case WriteEvent(fd, k) => WriteFits(c, s, fd, k);
    case Forward(k, udpSent) => ForwardStepFits(c, s, k, udpSent);
    case Insert(id) => PutFits(c, s, t, s.epoll.sid);
    case Finish => PutFits(c, s, t, s.epoll.sid) by { FinishFits(c, s); }
    case Ignore(_) => FewerFit(c, s, t);
    case EndRead(_) => ClosingFits(c, s, a);
    case ErrorEvent(_) => ClosingFits(c, s, a);
    case CloseTimedOut => ClosingFits(c, s, a);
    case EndBroadcast => ClosingFits(c, s, a);
    case StopClear => StopFits(c, s);
    case _ => FewerFit(c, s, t);
  }

  lemma ClosingFits(c: Config, s: World, a: Action)
    requires BuffersFit(c, s) && Enabled(c, s, a)
    requires a.EndRead? || a.ErrorEvent? || a.CloseTimedOut? || a.EndBroadcast?
    ensures BuffersFit(c, Next(c, s, a))
  {
    hide P.ParseMessage, NextInsert, NextRespond, NextFinish, NextWrite, NextForward, NextScan, NextStop, Reap,
         BuffersFit, EndConnection, CloseConnection;
    match a
    case EndRead(close) =>
      var fd := s.objs[s.epoll.sid].fd;
      O.EndKeepsPc(s, fd);
      var u := (if close then EndConnection(s, fd) else s).(epoll := Idle);
      FewerFit(c, s, u);
      ReapFits(c, u);
    case ErrorEvent(fd) =>
      O.EndKeepsPc(s, fd);
      FewerFit(c, s, EndConnection(s, fd));
      ReapFits(c, EndConnection(s, fd));
    case CloseTimedOut =>
      O.EndKeepsPc(s, s.epoll.closing);
      var u := CloseConnection(s, s.epoll.closing).(epoll := Closing(s.epoll.todo));
      FewerFit(c, s, u);
      ReapFits(c, u);
    case EndBroadcast =>
      FewerFit(c, s, s.(stream := Quiet));
      ReapFits(c, s.(stream := Quiet));
  }

  lemma FinishFits(c: Config, s: World)
    requires BuffersFit(c, s) && Enabled(c, s, Finish)
    ensures |NextFinish(s).objs[s.epoll.sid].out.buf| <= c.capacity
  {
  }

  lemma StopFits(c: Config, s: World)
    requires BuffersFit(c, s)
    ensures BuffersFit(c, NextStop(s))
  {
    hide Reap, BuffersFit;
    O.StopIsReap(s);
    var u := Forgotten(s).(ended := NextStop(s).ended);
    FewerFit(c, s, u);
    ReapFits(c, u);
  }

  lemma WriteStaysArmed(c: Config, s: World, fd: int, k: Kernel)
    requires O.Owned(s) && AllArmed(s) && Enabled(c, s, WriteEvent(fd, k))
    ensures AllArmed(NextWrite(c, s, fd, k))
  {
    hide Do, O.Core, ArmedOrArming, Reap, EndConnection;
    var sid := s.sessions[fd];
    if s.objs[sid].out.buf != [] && k.Failed? {
      DoKeepsFds(c, s.objs[sid], FlushOp(k));
      var t := PutSess(s, sid, Do(c, s.objs[sid], FlushOp(k)));
      O.SameFdsKeep(s, sid, t.objs[sid]);
      FlushedStaysArmed(c, s, sid, k);
      EndStaysArmed(t, fd);
    } else {
      WriteArms(c, s, fd, k);
    }
  }

  lemma DoKeepsFds(c: Config, x: Sess, op: Op)
    ensures Do(c, x, op).fd == x.fd && Do(c, x, op).udp == x.udp
  {
    hide Step;
  }

  lemma FlushedStaysArmed(c: Config, s: World, sid: Sid, k: Kernel)
    requires AllArmed(s) && sid in s.objs
    ensures AllArmed(PutSess(s, sid, Do(c, s.objs[sid], FlushOp(k))))
  {
    hide Do;
    if s.objs[sid].out.buf == [] { FlushOnlyShrinks(c, s.objs[sid], k); }
    var t := PutSess(s, sid, Do(c, s.objs[sid], FlushOp(k)));
    forall fd | fd in t.sessions ensures ArmedOrArming(t, fd) {
      assert ArmedOrArming(s, fd);
    }
  }

  lemma StepKeepsArmed(c: Config, s: World, a: Action)
    requires NoStranding(c) && O.Owned(s) && BuffersFit(c, s) && AllArmed(s) && Enabled(c, s, a)
    ensures AllArmed(Next(c, s, a))
  {
    hide O.SessionsOwned, O.RegsOwned, O.MapOwned, O.StreamOwned, O.PendingOwned, ArmedOrArming, BuffersFit,
         Reap, P.ParseMessage, NextInsert, NextRespond, NextFinish, NextWrite, NextForward, NextStop,
         EndConnection, CloseConnection, Collected;
    var t := Next(c, s, a);
    match a
    case Insert(id) => InsertArms(c, s, id);
    case Respond(handed, env, udp) => RespondArms(c, s, handed, env, udp);
    case Finish => FinishArms(c, s);
    case WriteEvent(fd, k) => WriteStaysArmed(c, s, fd, k);
    case Forward(k, udpSent) => ForwardArms(c, s, k, udpSent);
    case Arm => ArmArms(c, s);
    case EndRead(_) => ClosingStaysArmed(c, s, a);
    case CloseTimedOut => ClosingStaysArmed(c, s, a);
    case EndBroadcast => ClosingStaysArmed(c, s, a);
    case StopClear => ClosingStaysArmed(c, s, a);
    case ErrorEvent(fd) => EndStaysArmed(s, fd);
    case Ignore(_) => IgnoreStaysArmed(c, s, a);
    case _ => PlainStaysArmed(c, s, a);
  }

  lemma PlainStaysArmed(c: Config, s: World, a: Action)
    requires AllArmed(s) && Enabled(c, s, a)
    requires a.Accept? || a.Count? || a.Register? || a.StartRead? || a.Scan? || a.CountTimeout? || a.ScanDone?
             || a.Snapshot? || a.StopFlag? || a.Second? || a.Expiry?
    ensures AllArmed(Next(c, s, a))
  {
    hide AllArmed, Collected, PlayingSessions, P.ParseMessage, NextInsert, NextRespond, NextFinish, NextWrite,
         NextForward, NextStop, Reap, EndConnection, CloseConnection;
    SameStayArmed(s, Next(c, s, a));
  }

  lemma IgnoreStaysArmed(c: Config, s: World, a: Action)
    requires O.Core(s) && AllArmed(s) && Enabled(c, s, a) && a.Ignore?
    ensures AllArmed(Next(c, s, a))
  {
    hide O.SessionsOwned, O.RegsOwned, O.StreamOwned, O.PendingOwned, P.ParseMessage;
    var t := NextIgnore(s);
    forall fd | fd in t.sessions ensures ArmedOrArming(t, fd) {
      assert ArmedOrArming(s, fd);
      assert s.objs[s.sessions[fd]].fd == fd && fd in s.regs;
    }
  }

  lemma {:induction false} ReachableIsArmed(c: Config, states: seq<World>, actions: seq<Action>, i: nat)
    requires NoStranding(c) && IsRun(c, states, actions) && i < |states|
    ensures AllArmed(states[i])
  {
    hide O.Owned, AllArmed, BuffersFit, Enabled, Next;
    if i == 0 {
      StartIsArmed(c);
    } else {
      O.ReachableIsOwned(c, states, actions, i - 1);
      ReachableIsArmed(c, states, actions, i - 1);
      ReachableFits(c, states, actions, i - 1);
      StepKeepsArmed(c, states[i - 1], actions[i - 1]);
    }
  }

  /** The buffers' bound needs no condition on the capacity. */
  lemma {:induction false} ReachableFits(c: Config, states: seq<World>, actions: seq<Action>, i: nat)
    requires IsRun(c, states, actions) && i < |states|
    ensures BuffersFit(c, states[i])
  {
    hide BuffersFit, Enabled, Next;
    if i == 0 {
      StartIsArmed(c);
    } else {
      ReachableFits(c, states, actions, i - 1);
      StepKeepsFits(c, states[i - 1], actions[i - 1]);
    }
  }

  lemma StartIsArmed(c: Config)
    ensures AllArmed(START) && BuffersFit(c, START)
  {
  }

  /** Neither thread is between queueing bytes for a session and arming its write interest. */
  predicate BetweenHandlers(s: World) {
    !s.stream.Arming? && !s.epoll.Answered?
  }

  /** The queued bytes of mapped session `fd` will be flushed. */
  ghost predicate FlushIsArmed(s: World, fd: int)
    requires fd in s.sessions
  {
    && s.sessions[fd] in s.objs
    && (s.objs[s.sessions[fd]].out.buf != [] ==> fd in s.regs && s.regs[fd].write)
  }

  /**
   No lost flush: in every reachable state between handlers, every mapped session with queued bytes has write
   interest armed.
   */
  lemma NoLostFlush(c: Config, s: World, fd: int)
    requires NoStranding(c) && Reachable(c, s) && fd in s.sessions && BetweenHandlers(s)
    ensures FlushIsArmed(s, fd)
  {
    var states, actions :| IsRun(c, states, actions) && states[|states| - 1] == s;
    ReachableIsArmed(c, states, actions, |states| - 1);
    assert ArmedOrArming(s, fd);
  }

  // ----- And only then -----

  /** The client plays, and its whole PLAY response has gone out. */
  lemma Plays(c: Config) returns (x: Sess)
    requires c.maxSessions > 0
    ensures Reachable(c, Alone(x, false, Idle, Quiet, FRESH))
    ensures x.out.buf == [] && x.view.phase == Playing && !x.view.isUdp && x.drops == 0
  {
    hide Reachable, ReplyBytes, P.ParseMessage, RequestOf, SendVOutcome;
    var reply := PlayReply(1);
    var env := Outside(Room(|ReplyBytes(reply, "a")|), "", 0);
    ClientConnects(c);
    RequestIsUnderstood(P.Play, 1);
    ClientAsks(c, NewClient(), false, FRESH, RequestOf(P.Play, 1), env);
    AfterPlay(c, NewClient(), P.ParseMessage(RequestOf(P.Play, 1)).value, env, 0);
    x := AfterRequest(c, NewClient(), P.ParseMessage(RequestOf(P.Play, 1)).value, env, 0);
  }

  /** In every other capacity a rejected forward leaves the header of the largest packet behind, unarmed. */
  lemma HeaderIsStranded(c: Config) returns (s: World)
    requires c.maxSessions > 0 && !NoStranding(c)
    ensures Reachable(c, s) && BetweenHandlers(s) && 3 in s.sessions && !FlushIsArmed(s, 3)
  {
    hide Reachable, Do, ForwardOutcome;
    var x := Plays(c);
    var packet := Packet(seq(MAX_PACKET, i => 'x'), 0);
    ClientIsForwarded(c, x, false, FRESH, packet, Room(0));
    var (y, p) := AfterPacket(c, x, FRESH, packet, Room(0));
    s := Alone(y, false, Idle, StreamAfter(c, x, FRESH, packet, Room(0)), p);
    StrandedExactly(packet, c.capacity, Room(0));
    ForwardLeaves(c, x, packet, Room(0));
    assert s.objs[0] == y && s.sessions[3] == 0;
  }

  lemma ForwardLeaves(c: Config, x: Sess, packet: Packet, k: Kernel)
    requires ValidPacket(packet) && !x.view.isUdp && x.out.buf == []
    ensures var (s, status) := ForwardOutcome(packet, 0, c.capacity, k);
            && (ForwardSucceeds(c, x, packet, k, false) <==> status == Forwarded)
            && (s.taken < s.kept ==> Forwarded1(c, x, packet, 0, 0, k).out.buf != [])
  {
    hide SendVOutcome;
    FrameIsJoined(packet);
  }

  /** Exactly which configurations lose no flush in any run. */
  lemma NoLostFlushExactly(c: Config)
    ensures (forall s, fd :: Reachable(c, s) && fd in s.sessions && BetweenHandlers(s) ==> FlushIsArmed(s, fd))
            <==> c.maxSessions == 0 || c.capacity < HEADER_SIZE || HEADER_SIZE + MAX_PACKET <= c.capacity
  {
    hide Reachable, FlushIsArmed;
    if c.maxSessions == 0 || NoStranding(c) {
      forall s, fd | Reachable(c, s) && fd in s.sessions && BetweenHandlers(s) ensures FlushIsArmed(s, fd) {
        L.LimitHolds(c, s);
        NoLostFlush(c, s, fd);
      }
    } else {
      var s := HeaderIsStranded(c);
    }
  }
}

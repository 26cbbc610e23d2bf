/**
 The handlers on session objects do what the steps of the two-thread machine do on values.
 */
module HandlerSteps {
  import opened Transport
  import opened FdGuards
  import opened Connections
  import opened Sessions
  import opened Service
  import opened EpollLoops
  import opened Forwarder
  import opened Server
  import Framing
  import H = Handlers
  import D = ServerDrops

  /** A session object and its registration show what the machine records of session `sid`. */
  ghost predicate Shows(session: Session, epoll: EpollLoop, c: Config, s: World, sid: Sid)
    reads session, session.conn, session.conn.guard, session.conn.writeBuffer, epoll
  {
    && sid in s.objs
    && var x := s.objs[sid];
       && session.sessionId == x.id && session.conn.guard.fd == x.fd >= 0
       && session.conn.writeBuffer.capacity == c.capacity
       && session.TheView() == x.view && session.conn.Stream() == x.out
       && TrailingFailures(session.conn.history) == x.drops
       && (x.fd in epoll.interest <==> x.fd in s.regs)
       && (x.fd in s.regs ==> epoll.interest[x.fd].write == s.regs[x.fd].write)
  }

  /** A write event. */
  method WriteStep(session: Session, epoll: EpollLoop, k: Kernel, ghost c: Config, ghost s: World) returns (close: bool)
    requires session.Valid() && epoll.Valid()
    requires var fd := session.conn.guard.fd;
             Enabled(c, s, WriteEvent(fd, k)) && Shows(session, epoll, c, s, s.sessions[fd])
    modifies session.conn`wire, session.conn.writeBuffer, epoll`interest
    ensures session.Valid() && epoll.Valid()
    ensures var fd := session.conn.guard.fd; var t := Next(c, s, WriteEvent(fd, k));
            if close then fd !in t.sessions else t.sessions == s.sessions && Shows(session, epoll, c, t, s.sessions[fd])
  {
    hide Session.Valid, Reap, FlushTaken, Perform, Next;
    ghost var fd := session.conn.guard.fd;
    OutIsStream(session);
    close := H.OnWrite(session, epoll, k);
    OutIsStream(session);
    WriteStepIs(c, s, fd, k);
  }

  lemma OutIsStream(session: Session)
    requires session.Valid()
    ensures var w := session.conn.writeBuffer;
            |session.conn.Stream().buf| == w.readable <= w.capacity && session.conn.Stream().buf == w.contents
  {
    hide SoleOwners;
  }

  lemma WriteStepIs(c: Config, s: World, fd: int, k: Kernel)
    requires Enabled(c, s, WriteEvent(fd, k)) && |s.objs[s.sessions[fd]].out.buf| <= c.capacity
    ensures var sid := s.sessions[fd]; var x := s.objs[sid]; var t := Next(c, s, WriteEvent(fd, k));
            var out := Perform(x.out, c.capacity, Call.Flush(k));
            if x.out.buf != [] && k.Failed? then fd !in t.sessions
            else
              && t.sessions == s.sessions && t.objs.Keys == s.objs.Keys
              && t.objs[sid] == x.(out := out, ops := x.ops + [FlushOp(k)])
              && t.regs == if out.buf == [] then SetWrite(s.regs, fd, false) else s.regs
  {
    hide Live, DeadFds;
  }

  /** One session of a broadcast: the forward, and the arming that may follow it. */
  method ForwardStep(session: Session, epoll: EpollLoop, packet: Framing.Packet, k: Kernel, udpSent: bool, now: nat,
                     ghost c: Config, ghost s: World) returns (slow: bool)
    requires session.Valid() && epoll.Valid()
    requires Enabled(c, s, Forward(k, udpSent)) && Shows(session, epoll, c, s, s.stream.queue[0])
    requires packet == s.packets[|s.packets| - 1] && now == s.now
    modifies session`lastActivity, session`phase, epoll`interest
    modifies session.conn`wire, session.conn.writeBuffer, session.conn.writeBuffer.data
    modifies session.conn`consecutiveDrops, session.conn`totalDroppedPackets, session.conn`history
    ensures session.Valid() && epoll.Valid()
    ensures var t := AfterForward(c, s, k, udpSent);
            Shows(session, epoll, c, t, s.stream.queue[0]) && t.dropped == s.dropped + if slow then 1 else 0
  {
    hide Session.Valid, ForwardOutcome, TrailingFailures, Do, NextForward;
    OutIsStream(session);
    ghost var x := s.objs[s.stream.queue[0]];
    ghost var before := session.conn.history;
    slow := H.ForwardToOne(session, epoll, packet, now, k, udpSent);
    OutIsStream(session);
    ForwardStepIs(c, s, k, udpSent);
    D.FailuresAppend(before, session.conn.history[|session.conn.history| - 1]);
  }

  function AfterForward(c: Config, s: World, k: Kernel, udpSent: bool): World
    requires Enabled(c, s, Forward(k, udpSent))
  {
    var t := Next(c, s, Forward(k, udpSent));
    if t.stream.Arming? then Next(c, t, Arm) else t
  }

  /** The two steps together, in the terms of the handler's contract. */
  lemma ForwardStepIs(c: Config, s: World, k: Kernel, udpSent: bool)
    requires Enabled(c, s, Forward(k, udpSent)) && |s.objs[s.stream.queue[0]].out.buf| <= c.capacity
    ensures var sid := s.stream.queue[0]; var x := s.objs[sid]; var packet := s.packets[|s.packets| - 1];
            var t := AfterForward(c, s, k, udpSent);
            var (r, status) := ForwardOutcome(packet, |x.out.buf|, c.capacity, k);
            var ok := if x.view.isUdp then udpSent else status == Forwarded;
            var drops := if ok then 0 else x.drops + 1;
            var slow := drops >= MAX_CONSECUTIVE_DROPS;
            && sid in t.objs && r.taken <= r.kept <= |Framing.FrameBytes(packet)|
            && (var y := t.objs[sid];
                && y.id == x.id && y.fd == x.fd && y.drops == drops
                && y.out == (if x.view.isUdp then x.out else Deliver(x.out, Framing.FrameBytes(packet), r))
                && y.view == x.view.(lastActivity := s.now, phase := if slow then Phase.Teardown else x.view.phase)
                && t.regs == if ok && y.out.buf != [] then SetWrite(s.regs, x.fd, true) else s.regs)
            && t.dropped == s.dropped + if slow then 1 else 0
  {
    hide ForwardOutcome, Forwarded1, ForwardSucceeds, SetWrite, ValidPacket, AfterForward, Next;
    AfterForwardIs(c, s, k, udpSent);
    ForwardedIs(c, s.objs[s.stream.queue[0]], s.packets[|s.packets| - 1], |s.packets| - 1, s.now, k, udpSent);
  }

  lemma AfterForwardIs(c: Config, s: World, k: Kernel, udpSent: bool)
    requires Enabled(c, s, Forward(k, udpSent))
    ensures var sid := s.stream.queue[0]; var u, t := NextForward(c, s, k, udpSent), AfterForward(c, s, k, udpSent);
            && sid in u.objs && t.objs == u.objs && t.dropped == u.dropped
            && t.regs == if u.stream.Arming? then SetWrite(u.regs, u.objs[sid].fd, true) else u.regs
  {
    hide Forwarded1, ForwardSucceeds, SetWrite, Collected, PlayingSessions, NextRespond, NextWrite, NextFinish,
         NextInsert, NextStop, NextScan, Reap, EndConnection, CloseConnection;
  }

  lemma ForwardedIs(c: Config, x: Sess, packet: Framing.Packet, number: nat, now: nat, k: Kernel, udpSent: bool)
    requires |x.out.buf| <= c.capacity
    ensures var (r, status) := ForwardOutcome(packet, |x.out.buf|, c.capacity, k);
            var y := Forwarded1(c, x, packet, number, now, k);
            && (ForwardSucceeds(c, x, packet, k, udpSent) <==> if x.view.isUdp then udpSent else status == Forwarded)
            && r.taken <= r.kept <= |Framing.FrameBytes(packet)|
            && y.id == x.id && y.fd == x.fd && y.drops == x.drops && y.view == x.view.(lastActivity := now)
            && y.out == if x.view.isUdp then x.out else Deliver(x.out, Framing.FrameBytes(packet), r)
  {
    hide SendVOutcome;
    FrameIsJoined(packet);
    assert x.out.wire + [] == x.out.wire && x.out.buf + [] == x.out.buf;
  }
}

/**
 Descriptor ownership: in every reachable state each live session holds open descriptors that nobody else
 holds, and a registration with the event loop belongs to the session whose descriptor it watches.
 */
module ServerOwnership {
  import opened Bytes
  import opened Service
  import opened Server
  import opened Transport
  import opened Framing
  import opened Forwarder
  import P = Parser

  /** The connection that has been accepted but has no session object yet. */
  ghost predicate PendingOwned(s: World) {
    (s.epoll.Accepted? || s.epoll.Counted? || s.epoll.Registered?) ==>
      var fd, sid := s.epoll.fd, s.epoll.sid;
      && fd >= 0 && fd in s.open && sid < s.nextSid && sid !in s.objs
      && (forall other :: other in s.objs ==> fd !in Fds(s.objs[other]))
      && (fd in s.regs <==> s.epoll.Registered?)
      && (fd in s.regs ==> s.regs[fd].owner == sid)
  }

  ghost predicate SessOwned(s: World, sid: Sid)
    requires sid in s.objs
  {
    var x := s.objs[sid];
    sid < s.nextSid && x.fd >= 0 && x.fd !in x.udp && Fds(x) <= s.open
  }

  ghost predicate SessionsOwned(s: World) {
    && (forall sid :: sid in s.objs ==> SessOwned(s, sid))
    && (forall a, b :: a in s.objs && b in s.objs && a != b ==> Fds(s.objs[a]) !! Fds(s.objs[b]))
  }

  /** The registration of `fd` belongs to the session that owns `fd`. */
  ghost predicate RegOwned(s: World, fd: int)
    requires fd in s.regs
  {
    var owner := s.regs[fd].owner;
    (owner in s.objs && s.objs[owner].fd == fd) || (s.epoll.Registered? && s.epoll.fd == fd && s.epoll.sid == owner)
  }

  ghost predicate RegsOwned(s: World) {
    && s.regs.Keys <= s.open
    && (forall fd :: fd in s.regs ==> RegOwned(s, fd))
  }

  /** A mapped session is alive, stands under its own descriptor and is registered with it. */
  ghost predicate MapOwned(s: World) {
    forall fd :: fd in s.sessions ==>
      && s.sessions[fd] in s.objs && s.objs[s.sessions[fd]].fd == fd
      && fd in s.regs && s.regs[fd].owner == s.sessions[fd]
  }

  ghost predicate StreamOwned(s: World) {
    && StreamHeld(s.stream) <= s.objs.Keys
    && (s.stream.Broadcasting? || s.stream.Arming? ==> Elements(s.stream.queue) <= s.stream.held)
    && (s.stream.Arming? ==> s.stream.sid in s.stream.held)
  }

  /** Everything but the absence of objects that nobody points to. */
  ghost predicate Core(s: World) {
    && SessionsOwned(s) && RegsOwned(s) && MapOwned(s) && StreamOwned(s) && PendingOwned(s)
    && EpollHeld(s.epoll) <= s.objs.Keys
  }

  ghost predicate Owned(s: World) {
    Core(s) && s.objs.Keys == Live(s)
  }

  lemma MappedAreLive(s: World)
    ensures forall fd :: fd in s.sessions ==> s.sessions[fd] in Live(s)
  {
  }

  lemma ReapKeepsCore(s: World)
    requires Core(s)
    ensures Owned(Reap(s))
  {
    var t := Reap(s);
    MappedAreLive(s);
    forall sid, fd | sid in t.objs && fd in Fds(s.objs[sid]) ensures fd !in DeadFds(s) {
    }
    assert forall sid :: sid in t.objs ==> SessOwned(s, sid);
    forall fd | fd in t.regs ensures RegOwned(t, fd) {
      assert RegOwned(s, fd);
    }
  }

  // ----- What each step keeps -----

  /** Putting back a session with the same descriptors, or with UDP descriptors freshly opened for it. */
  lemma PutKeeps(s: World, t: World, sid: Sid, y: Sess)
    requires Core(s) && sid in s.objs
    requires var x := s.objs[sid];
             && y.fd == x.fd && y.fd !in y.udp
             && (y.udp <= x.udp || y.udp !! s.open)
             && t.objs == s.objs[sid := y] && t.open == s.open - x.udp + y.udp
    requires t.sessions == s.sessions && t.regs == s.regs && t.epoll == s.epoll && t.stream == s.stream
             && t.nextSid == s.nextSid
    ensures Core(t)
  {
    var x := s.objs[sid];
    assert SessOwned(s, sid);
    forall a | a in t.objs ensures SessOwned(t, a) {
      assert SessOwned(s, a);
      if a != sid { assert Fds(s.objs[a]) !! Fds(x); }
    }
    forall a, b | a in t.objs && b in t.objs && a != b ensures Fds(t.objs[a]) !! Fds(t.objs[b]) {
      assert Fds(s.objs[a]) !! Fds(s.objs[b]);
      assert SessOwned(s, a) && SessOwned(s, b);
    }
    forall fd | fd in t.regs ensures RegOwned(t, fd) && fd in t.open {
      assert RegOwned(s, fd);
      RegIsNoUdp(s, fd, sid);
      assert fd in s.open;
    }
    assert forall fd :: fd in t.regs ==> fd in t.open;
  }

  lemma RegIsNoUdp(s: World, fd: int, sid: Sid)
    requires Core(s) && fd in s.regs && sid in s.objs
    ensures fd !in s.objs[sid].udp
  {
    assert RegOwned(s, fd);
    var owner := s.regs[fd].owner;
    if owner in s.objs && s.objs[owner].fd == fd {
      assert SessOwned(s, owner);
      if owner != sid { assert Fds(s.objs[owner]) !! Fds(s.objs[sid]); }
    }
  }

  /** Changing write interests, and only those, or a pc that neither holds nor awaits anything new. */
  lemma RegsKeep(s: World, t: World)
    requires Core(s)
    requires t.objs == s.objs && t.sessions == s.sessions && t.open == s.open && t.nextSid == s.nextSid
    requires t.stream == s.stream && t.epoll == s.epoll
    requires t.regs.Keys == s.regs.Keys && forall fd :: fd in s.regs ==> t.regs[fd].owner == s.regs[fd].owner
    ensures Core(t)
  {
    forall sid | sid in t.objs ensures SessOwned(t, sid) {
      assert SessOwned(s, sid);
    }
    forall fd | fd in t.regs ensures RegOwned(t, fd) {
      assert RegOwned(s, fd);
    }
  }

  lemma CloseKeeps(s: World, fd: int)
    requires Core(s) && !s.epoll.Registered?
    ensures Core(CloseConnection(s, fd))
  {
    var t := CloseConnection(s, fd);
    forall sid | sid in t.objs ensures SessOwned(t, sid) {
      assert SessOwned(s, sid);
    }
    forall g | g in t.regs ensures RegOwned(t, g) {
      assert RegOwned(s, g);
    }
    forall g | g in t.sessions ensures g in t.regs {
      assert g in s.regs;
    }
  }

  /** A change of the epoll thread's position that involves no pending connection. */
  lemma PcKeeps(s: World, t: World)
    requires Core(s)
    requires t.objs == s.objs && t.sessions == s.sessions && t.open == s.open && t.nextSid == s.nextSid
    requires t.stream == s.stream && t.regs == s.regs
    requires !s.epoll.Registered? && !t.epoll.Accepted? && !t.epoll.Counted? && !t.epoll.Registered?
    requires EpollHeld(t.epoll) <= s.objs.Keys
    ensures Core(t)
  {
    forall sid | sid in t.objs ensures SessOwned(t, sid) {
      assert SessOwned(s, sid);
    }
    forall fd | fd in t.regs ensures RegOwned(t, fd) {
      assert RegOwned(s, fd);
    }
  }

  // ----- Every step -----

  /** Connecting: accept, count, register, create and insert. */
  lemma AcceptKeeps(c: Config, s: World, newFd: int)
    requires Owned(s) && Enabled(c, s, Accept(newFd))
    ensures Owned(Next(c, s, Accept(newFd)))
  {
    hide Owned, P.ParseMessage, NextInsert, NextRespond, NextFinish, NextWrite, NextForward, NextScan,
         NextStop, Reap, EndConnection, CloseConnection, PlayingSessions;
    if |s.sessions| < c.maxSessions {
      OpenKeeps(s, newFd);
    }
  }

  lemma OpenKeeps(s: World, newFd: int)
    requires Owned(s) && s.epoll.Idle? && newFd >= 0 && newFd !in s.open
    ensures Owned(s.(open := s.open + {newFd}, epoll := Accepted(newFd, s.nextSid), nextSid := s.nextSid + 1))
  {
    var t := s.(open := s.open + {newFd}, epoll := Accepted(newFd, s.nextSid), nextSid := s.nextSid + 1);
    forall sid | sid in t.objs ensures SessOwned(t, sid) && newFd !in Fds(s.objs[sid]) {
      assert SessOwned(s, sid);
    }
    forall fd | fd in t.regs ensures RegOwned(t, fd) {
      assert RegOwned(s, fd);
    }
    assert Live(t) == Live(s);
  }

  lemma RegisterKeeps(c: Config, s: World, accepted: bool)
    requires Owned(s) && Enabled(c, s, Register(accepted))
    ensures Owned(Next(c, s, Register(accepted)))
  {
    var t := Next(c, s, Register(accepted));
    var fd, sid := s.epoll.fd, s.epoll.sid;
    assert t == if accepted && fd !in s.regs then
                  s.(regs := s.regs[fd := Reg(sid, false)], epoll := Registered(fd, sid))
                else s.(open := s.open - {fd}, ended := s.ended + 1, epoll := Idle);
    hide Next, Enabled;
    forall other | other in t.objs ensures SessOwned(t, other) {
      assert SessOwned(s, other);
    }
    assert SessionsOwned(t);
    forall other | other in t.regs ensures RegOwned(t, other) && other in t.open {
      if other in s.regs {
        assert RegOwned(s, other) && other in s.open && other != fd;
      }
    }
    assert MapOwned(t);
  }

  lemma CountKeeps(c: Config, s: World)
    requires Owned(s) && Enabled(c, s, Count)
    ensures Owned(Next(c, s, Count))
  {
    var t := Next(c, s, Count);
    forall sid | sid in t.objs ensures SessOwned(t, sid) {
      assert SessOwned(s, sid);
    }
    forall fd | fd in t.regs ensures RegOwned(t, fd) {
      assert RegOwned(s, fd);
    }
  }

  lemma PendingIsNew(s: World)
    requires RegsOwned(s) && MapOwned(s) && PendingOwned(s) && s.epoll.Registered?
    ensures s.epoll.fd !in s.sessions && s.epoll.sid !in s.objs
  {
  }

  lemma InsertCore(s: World, id: string)
    requires Core(s) && s.epoll.Registered?
    ensures Core(NextInsert(s, id))
  {
    var t := NextInsert(s, id);
    var sid := s.epoll.sid;
    PendingIsNew(s);
    forall a | a in t.objs ensures SessOwned(t, a) {
      if a != sid { assert SessOwned(s, a); }
    }
    forall g | g in t.regs ensures RegOwned(t, g) {
      assert RegOwned(s, g);
    }
  }

  lemma InsertKeeps(c: Config, s: World, id: string)
    requires Owned(s) && Enabled(c, s, Insert(id))
    ensures Owned(Next(c, s, Insert(id)))
    ensures s.epoll.fd !in s.sessions
  {
    hide Live, Mapped, SessionsOwned, RegsOwned, MapOwned, StreamOwned, PendingOwned;
    PendingIsNew(s);
    InsertCore(s, id);
    InsertLives(s, NextInsert(s, id), s.epoll.fd, s.epoll.sid);
  }

  lemma InsertLives(s: World, t: World, fd: int, sid: Sid)
    requires fd !in s.sessions && t.sessions == s.sessions[fd := sid] && t.stream == s.stream
    requires EpollHeld(s.epoll) == {} && EpollHeld(t.epoll) == {}
    ensures Live(t) == Live(s) + {sid}
  {
    assert t.sessions[fd] == sid;
    forall g | g in s.sessions ensures t.sessions[g] == s.sessions[g] {
    }
    forall x ensures x in Mapped(t) <==> x in Mapped(s) || x == sid {
      if x in Mapped(s) {
        var g :| g in s.sessions && s.sessions[g] == x;
        assert t.sessions[g] == x;
      }
    }
  }

  lemma KnownSess(s: World, sid: Sid)
    requires SessionsOwned(s) && sid in s.objs
    ensures SessOwned(s, sid)
  {
  }

  lemma SameLive(s: World, t: World)
    requires t.sessions == s.sessions && t.stream == s.stream && EpollHeld(t.epoll) == EpollHeld(s.epoll)
    ensures Live(t) == Live(s)
  {
  }

  /** Reading and answering. */
  lemma RespondKeeps(c: Config, s: World, handed: Bytes, env: Env, udp: set<int>)
    requires Owned(s) && Enabled(c, s, Respond(handed, env, udp))
    ensures Owned(Next(c, s, Respond(handed, env, udp)))
  {
    hide P.ParseMessage, Answer, PhaseSet, SessionsOwned, RegsOwned, MapOwned, StreamOwned, PendingOwned, Live;
    var request := P.ParseMessage(handed).value;
    var sid := s.epoll.sid;
    var x := s.objs[sid];
    var y := Answer(c, x, request, env, udp);
    var t := NextRespond(c, s, request, env, udp);
    AnswerFds(c, x, request, env, udp);
    var m := s.(objs := s.objs[sid := y], open := s.open - x.udp + y.udp);
    KnownSess(s, sid);
    PutKeeps(s, m, sid, y);
    PcKeeps(m, t);
    SameLive(s, t);
  }

  lemma AnswerFds(c: Config, x: Sess, request: P.Request, env: Env, udp: set<int>)
    ensures var y := Answer(c, x, request, env, udp); y.fd == x.fd && (y.udp == x.udp || y.udp == udp)
  {
    hide Handle, Step;
  }

  lemma FinishKeeps(c: Config, s: World)
    requires Owned(s) && Enabled(c, s, Finish)
    ensures Owned(Next(c, s, Finish))
  {
    hide SessionsOwned, RegsOwned, MapOwned, StreamOwned, PendingOwned, Live;
    var sid := s.epoll.sid;
    var x, t := s.objs[sid], NextFinish(s);
    var y := t.objs[sid];
    KnownSess(s, sid);
    var m := s.(objs := s.objs[sid := y], open := s.open - x.udp + y.udp);
    PutKeeps(s, m, sid, y);
    assert t.open == m.open;
    var n := m.(regs := t.regs);
    RegsKeep(m, n);
    PcKeeps(n, t);
    SameLive(s, t);
  }

  lemma SameFdsKeep(s: World, sid: Sid, y: Sess)
    requires Owned(s) && sid in s.objs && y.fd == s.objs[sid].fd && y.udp == s.objs[sid].udp
    ensures Owned(PutSess(s, sid, y))
  {
    assert SessOwned(s, sid);
    var t := PutSess(s, sid, y);
    assert s.open - y.udp + y.udp == s.open;
    PutKeeps(s, t, sid, y);
  }

  lemma WriteKeeps(c: Config, s: World, fd: int, k: Kernel)
    requires Owned(s) && Enabled(c, s, WriteEvent(fd, k))
    ensures Owned(Next(c, s, WriteEvent(fd, k)))
  {
    hide Step, SessionsOwned, RegsOwned, StreamOwned, PendingOwned, SessOwned, Reap, EndConnection;
    var sid := s.sessions[fd];
    var y := Do(c, s.objs[sid], FlushOp(k));
    var t := PutSess(s, sid, y);
    SameFdsKeep(s, sid, y);
    EndKeeps(t, fd);
    var u := t.(regs := SetWrite(t.regs, fd, false));
    RegsKeep(t, u);
    assert Live(u) == Live(t);
  }

  lemma EndKeeps(s: World, fd: int)
    requires Core(s) && !s.epoll.Registered?
    ensures Owned(Reap(EndConnection(s, fd)))
  {
    CloseKeeps(s, fd);
    var t := CloseConnection(s, fd);
    CountersKeep(t, EndConnection(s, fd));
    ReapKeepsCore(EndConnection(s, fd));
  }

  /** Counters and logs do not matter. */
  lemma CountersKeep(s: World, t: World)
    requires Core(s)
    requires t.objs == s.objs && t.sessions == s.sessions && t.open == s.open && t.nextSid == s.nextSid
    requires t.stream == s.stream && t.regs == s.regs && t.epoll == s.epoll
    ensures Core(t)
  {
    RegsKeep(s, t);
  }

  lemma EndKeepsPc(s: World, fd: int)
    ensures var t := EndConnection(s, fd); t.epoll == s.epoll && t.stream == s.stream && t.objs == s.objs
    ensures var t := CloseConnection(s, fd); t.epoll == s.epoll && t.stream == s.stream && t.objs == s.objs
  {
  }

  lemma EndReadCore(s: World, fd: int, close: bool)
    requires Core(s) && s.epoll.Reading?
    ensures Core((if close then EndConnection(s, fd) else s).(epoll := Idle))
  {
    hide Core;
    CloseKeeps(s, fd);
    var t := if close then EndConnection(s, fd) else s;
    if close { CountersKeep(CloseConnection(s, fd), t); }
    PcKeeps(t, t.(epoll := Idle));
  }

  lemma EndReadKeeps(c: Config, s: World, close: bool)
    requires Owned(s) && Enabled(c, s, EndRead(close))
    ensures Owned(Next(c, s, EndRead(close)))
  {
    hide Core, Reap, EndConnection;
    var fd := s.objs[s.epoll.sid].fd;
    EndReadCore(s, fd, close);
    ReapKeepsCore((if close then EndConnection(s, fd) else s).(epoll := Idle));
  }

  lemma CloseTimedOutKeeps(c: Config, s: World)
    requires Owned(s) && Enabled(c, s, CloseTimedOut)
    ensures Owned(Next(c, s, CloseTimedOut))
  {
    var t := CloseConnection(s, s.epoll.closing);
    CloseKeeps(s, s.epoll.closing);
    PcKeeps(t, t.(epoll := Closing(s.epoll.todo)));
    ReapKeepsCore(t.(epoll := Closing(s.epoll.todo)));
  }

  /** Broadcasting. */
  lemma SnapshotKeeps(c: Config, s: World, packet: Packet, queue: seq<Sid>)
    requires Owned(s) && Enabled(c, s, Snapshot(packet, queue))
    ensures Owned(Next(c, s, Snapshot(packet, queue)))
  {
    var t := Next(c, s, Snapshot(packet, queue));
    assert PlayingSessions(s) <= Mapped(s) && PlayingSessions(s) <= s.objs.Keys;
    assert Live(t) == Live(s);
    StreamPcKeeps(s, t);
  }

  lemma StreamPcKeeps(s: World, t: World)
    requires Core(s) && StreamOwned(t)
    requires t.objs == s.objs && t.sessions == s.sessions && t.open == s.open && t.nextSid == s.nextSid
    requires t.regs == s.regs && t.epoll == s.epoll
    ensures Core(t)
  {
    forall sid | sid in t.objs ensures SessOwned(t, sid) {
      assert SessOwned(s, sid);
    }
    forall fd | fd in t.regs ensures RegOwned(t, fd) {
      assert RegOwned(s, fd);
    }
  }

  lemma ForwardFds(c: Config, x: Sess, packet: Packet, number: nat, now: nat, k: Kernel)
    ensures var y := Forwarded1(c, x, packet, number, now, k);
            y.fd == x.fd && y.udp == x.udp && y.id == x.id && y.phaseScan == x.phaseScan && y.drops == x.drops
            && y.view == x.view.(lastActivity := now)
  {
    hide Step;
  }

  lemma ForwardKeeps(c: Config, s: World, k: Kernel, udpSent: bool)
    requires Owned(s) && Enabled(c, s, Forward(k, udpSent))
    ensures Owned(Next(c, s, Forward(k, udpSent)))
  {
    hide Forwarded1, ForwardSucceeds, SessionsOwned, RegsOwned, MapOwned, PendingOwned, SessOwned;
    var sid := s.stream.queue[0];
    var t := NextForward(c, s, k, udpSent);
    var number := |s.packets| - 1;
    ForwardFds(c, s.objs[sid], s.packets[number], number, s.now, k);
    assert t.objs[sid].fd == s.objs[sid].fd && t.objs[sid].udp == s.objs[sid].udp;
    var m := PutSess(s, sid, t.objs[sid]);
    SameFdsKeep(s, sid, t.objs[sid]);
    assert Elements(s.stream.queue[1..]) <= Elements(s.stream.queue);
    assert sid in Elements(s.stream.queue);
    assert Live(m) == Live(t);
    StreamPcKeeps(m, t);
  }

  lemma ArmKeeps(c: Config, s: World)
    requires Owned(s) && Enabled(c, s, Arm)
    ensures Owned(Next(c, s, Arm))
  {
    var m := s.(regs := SetWrite(s.regs, s.objs[s.stream.sid].fd, true));
    RegsKeep(s, m);
    StreamPcKeeps(m, Next(c, s, Arm));
  }

  lemma EndBroadcastKeeps(c: Config, s: World)
    requires Owned(s) && Enabled(c, s, EndBroadcast)
    ensures Owned(Next(c, s, EndBroadcast))
  {
    StreamPcKeeps(s, s.(stream := Quiet));
    ReapKeepsCore(s.(stream := Quiet));
  }

  /** Stopping. */
  lemma StopKeeps(c: Config, s: World)
    requires Owned(s)
    ensures Owned(NextStop(s))
  {
    hide SessionsOwned, RegsOwned, SessOwned, RegOwned, Stopped;
    var t := Forgotten(s);
    ForgottenFds(s);
    StopSessions(s, t);
    StopRegs(s, t);
    assert MapOwned(t);
    assert StreamOwned(t);
    PendingStays(s);
    CountersKeep(t, t.(ended := NextStop(s).ended));
    ReapKeepsCore(t.(ended := NextStop(s).ended));
  }

  lemma ForgottenFds(s: World)
    ensures var t := Forgotten(s);
            forall sid :: sid in s.objs ==>
              t.objs[sid].fd == s.objs[sid].fd && t.objs[sid].udp == if sid in Mapped(s) then {} else s.objs[sid].udp
  {
  }

  lemma PendingStays(s: World)
    requires Core(s)
    ensures PendingOwned(Forgotten(s))
  {
    hide SessionsOwned, RegsOwned, MapOwned, SessOwned;
    ForgottenFds(s);
  }

  lemma StopSessions(s: World, t: World)
    requires Core(s) && t.objs.Keys == s.objs.Keys && t.nextSid == s.nextSid
    requires forall sid :: sid in s.objs ==>
               t.objs[sid].fd == s.objs[sid].fd && t.objs[sid].udp == if sid in Mapped(s) then {} else s.objs[sid].udp
    requires t.open == s.open - set sid, fd | sid in s.objs && sid in Mapped(s) && fd in s.objs[sid].udp :: fd
    ensures SessionsOwned(t)
  {
    forall sid | sid in t.objs ensures SessOwned(t, sid) {
      assert SessOwned(s, sid);
      forall fd | fd in Fds(t.objs[sid]) ensures fd in t.open {
        UdpOfOthers(s, sid, fd);
      }
    }
    forall a, b | a in t.objs && b in t.objs && a != b ensures Fds(t.objs[a]) !! Fds(t.objs[b]) {
      assert Fds(s.objs[a]) !! Fds(s.objs[b]);
    }
  }

  lemma StopRegs(s: World, t: World)
    requires Core(s) && t.objs.Keys == s.objs.Keys && t.regs == s.regs && t.epoll == s.epoll
    requires forall sid :: sid in s.objs ==> t.objs[sid].fd == s.objs[sid].fd
    requires t.open == s.open - set sid, fd | sid in s.objs && sid in Mapped(s) && fd in s.objs[sid].udp :: fd
    ensures RegsOwned(t)
  {
    forall fd | fd in t.regs ensures RegOwned(t, fd) && fd in t.open {
      assert RegOwned(s, fd) && fd in s.open;
      forall sid | sid in s.objs ensures fd !in s.objs[sid].udp {
        RegIsNoUdp(s, fd, sid);
      }
    }
    assert forall fd :: fd in t.regs ==> fd in t.open;
  }

  lemma UdpOfOthers(s: World, sid: Sid, fd: int)
    requires Core(s) && sid in s.objs && fd in Fds(s.objs[sid])
    requires sid in Mapped(s) ==> fd !in s.objs[sid].udp
    ensures forall o :: o in s.objs && o in Mapped(s) ==> fd !in s.objs[o].udp
  {
    forall o | o in s.objs && o in Mapped(s) ensures fd !in s.objs[o].udp {
      if o != sid { assert Fds(s.objs[o]) !! Fds(s.objs[sid]); }
    }
  }

  /** No step, of whichever thread, breaks descriptor ownership. */
  lemma StepKeepsOwned(c: Config, s: World, a: Action)
    requires Owned(s) && Enabled(c, s, a)
    ensures Owned(Next(c, s, a))
  {
    hide Owned, Core, Reap, Handle, P.ParseMessage, Do, Forwarded1, NextStop, NextForward, NextRespond,
         NextFinish, NextInsert, NextWrite, EndConnection, CloseConnection;
    match a
    case Accept(newFd) => AcceptKeeps(c, s, newFd);
    case Count => CountKeeps(c, s);
    case Register(accepted) => RegisterKeeps(c, s, accepted);
    case Insert(id) => InsertKeeps(c, s, id);
    case StartRead(fd) => PlainKeeps(c, s, a);
    case Ignore(_) => IgnoreKeeps(c, s, a);
    case Respond(handed, env, udp) => RespondKeeps(c, s, handed, env, udp);
    case Finish => FinishKeeps(c, s);
    case EndRead(close) => EndReadKeeps(c, s, close);
    case WriteEvent(fd, k) => WriteKeeps(c, s, fd, k);
    case ErrorEvent(fd) => PlainKeeps(c, s, a);
    case Scan => PlainKeeps(c, s, a);
    case CountTimeout(fd) => PlainKeeps(c, s, a);
    case CloseTimedOut => CloseTimedOutKeeps(c, s);
    case ScanDone => PlainKeeps(c, s, a);
    case Snapshot(packet, queue) => SnapshotKeeps(c, s, packet, queue);
    case Forward(k, udpSent) => ForwardKeeps(c, s, k, udpSent);
    case Arm => ArmKeeps(c, s);
    case EndBroadcast => EndBroadcastKeeps(c, s);
    case StopFlag => PlainKeeps(c, s, a);
    case StopClear => StopKeeps(c, s);
    case Second => PlainKeeps(c, s, a);
    case Expiry => PlainKeeps(c, s, a);
  }

  lemma IgnoreKeeps(c: Config, s: World, a: Action)
    requires Owned(s) && Enabled(c, s, a) && a.Ignore?
    ensures Owned(Next(c, s, a))
  {
    hide P.ParseMessage, SessionsOwned, RegsOwned, MapOwned, StreamOwned, PendingOwned, Live;
    var sid, t := s.epoll.sid, NextIgnore(s);
    SameFdsKeep(s, sid, t.objs[sid]);
    var m := PutSess(s, sid, t.objs[sid]);
    RegsKeep(m, t);
    SameLive(m, t);
  }

  lemma PlainKeeps(c: Config, s: World, a: Action)
    requires Owned(s) && Enabled(c, s, a)
    requires a.StartRead? || a.ErrorEvent? || a.Scan? || a.CountTimeout? || a.ScanDone? || a.StopFlag?
             || a.Second? || a.Expiry?
    ensures Owned(Next(c, s, a))
  {
    hide P.ParseMessage, Reap, SessionsOwned, RegsOwned, StreamOwned, PendingOwned, Collected, NextInsert,
         NextRespond, NextFinish, NextWrite, NextForward, NextStop, EndConnection, CloseConnection;
    var t := Next(c, s, a);
    match a
    case StartRead(fd) => PcKeeps(s, t); assert s.sessions[fd] in Live(s);
    case ErrorEvent(fd) => EndKeeps(s, fd);
    case Scan => PcKeeps(s, s.(epoll := t.epoll)); CountersKeep(s.(epoll := t.epoll), t);
    case CountTimeout(fd) => PcKeeps(s, s.(epoll := t.epoll)); CountersKeep(s.(epoll := t.epoll), t);
    case ScanDone => PcKeeps(s, t);
    case StopFlag => CountersKeep(s, t);
    case Second => CountersKeep(s, t);
    case Expiry => CountersKeep(s, t);
  }

  // ----- Every reachable state -----

  lemma StartIsOwned()
    ensures Owned(START)
  {
  }

  lemma {:induction false} ReachableIsOwned(c: Config, states: seq<World>, actions: seq<Action>, i: nat)
    requires IsRun(c, states, actions) && i < |states|
    ensures Owned(states[i])
  {
    hide Owned, Enabled, Next;
    if i == 0 {
      StartIsOwned();
    } else {
      ReachableIsOwned(c, states, actions, i - 1);
      StepKeepsOwned(c, states[i - 1], actions[i - 1]);
    }
  }

  /**
   A thread that holds a session pointer can use the session's descriptor: it is open, no other live session
   holds it, and `ModifyFd` on it reaches that session's own registration or none at all, even when
   `CloseConnection` has run in between.
   */
  lemma HolderHitsOwnRegistration(c: Config, s: World, sid: Sid)
    requires Reachable(c, s) && sid in Live(s)
    ensures sid in s.objs && s.objs[sid].fd in s.open
    ensures forall other :: other in Live(s) && other != sid ==>
              other in s.objs && s.objs[sid].fd !in Fds(s.objs[other])
    ensures s.objs[sid].fd in s.regs ==> s.regs[s.objs[sid].fd].owner == sid
    ensures s.objs[sid].fd in s.sessions ==> s.sessions[s.objs[sid].fd] == sid
  {
    var states, actions :| IsRun(c, states, actions) && states[|states| - 1] == s;
    ReachableIsOwned(c, states, actions, |states| - 1);
    assert SessOwned(s, sid);
    var fd := s.objs[sid].fd;
    forall other | other in s.objs && other != sid ensures fd !in Fds(s.objs[other]) {
      assert Fds(s.objs[other]) !! Fds(s.objs[sid]);
    }
    if fd in s.regs {
      assert RegOwned(s, fd);
    }
  }

  // ----- No leaks -----

  ghost predicate Accounted(s: World, fd: int) {
    || (exists sid :: sid in s.objs && fd in Fds(s.objs[sid]))
    || ((s.epoll.Accepted? || s.epoll.Counted? || s.epoll.Registered?) && fd == s.epoll.fd)
  }

  /** Whatever is open belongs to a live session or to the connection being accepted. */
  ghost predicate NoLeak(s: World) {
    forall fd :: fd in s.open ==> Accounted(s, fd)
  }

  lemma ReapLeaksNothing(s: World)
    requires NoLeak(s)
    ensures NoLeak(Reap(s))
  {
    var t := Reap(s);
    forall fd | fd in t.open ensures Accounted(t, fd) {
      assert Accounted(s, fd);
      if sid :| sid in s.objs && fd in Fds(s.objs[sid]) {
        assert sid in t.objs;
      }
    }
  }

  /** A session may change its UDP descriptors if the table changes with them. */
  lemma PutLeaksNothing(s: World, t: World, sid: Sid, y: Sess)
    requires NoLeak(s) && sid in s.objs && y.fd == s.objs[sid].fd && t.objs == s.objs[sid := y]
    requires t.open == s.open - s.objs[sid].udp + y.udp
    requires (s.epoll.Accepted? || s.epoll.Counted? || s.epoll.Registered?) ==> t.epoll == s.epoll
    ensures NoLeak(t)
  {
    forall fd | fd in t.open ensures Accounted(t, fd) {
      if fd in y.udp {
        assert t.objs[sid] == y && fd in Fds(t.objs[sid]);
      } else {
        assert Accounted(s, fd);
        if o :| o in s.objs && fd in Fds(s.objs[o]) {
          assert fd in Fds(t.objs[o]);
        }
      }
    }
  }

  lemma SameObjectsLeakNothing(s: World, t: World)
    requires NoLeak(s) && t.objs == s.objs && t.open <= s.open
    requires (s.epoll.Accepted? || s.epoll.Counted? || s.epoll.Registered?) ==>
               || s.epoll.fd !in t.open
               || ((t.epoll.Accepted? || t.epoll.Counted? || t.epoll.Registered?) && t.epoll.fd == s.epoll.fd)
    ensures NoLeak(t)
  {
    forall fd | fd in t.open ensures Accounted(t, fd) {
      assert Accounted(s, fd);
    }
  }

  lemma ForgottenLeaksNothing(s: World)
    requires NoLeak(s)
    ensures NoLeak(Forgotten(s))
  {
    var t := Forgotten(s);
    forall fd | fd in t.open ensures Accounted(t, fd) {
      assert Accounted(s, fd);
      if sid :| sid in s.objs && fd in Fds(s.objs[sid]) {
        assert fd in Fds(t.objs[sid]);
      }
    }
  }

  lemma InsertLeaksNothing(s: World, id: string)
    requires NoLeak(s) && Core(s) && s.epoll.Registered?
    ensures NoLeak(NextInsert(s, id))
  {
    var t := NextInsert(s, id);
    forall fd | fd in t.open ensures Accounted(t, fd) {
      assert Accounted(s, fd);
      if sid :| sid in s.objs && fd in Fds(s.objs[sid]) {
        assert fd in Fds(t.objs[sid]);
      } else {
        assert fd in Fds(t.objs[s.epoll.sid]);
      }
    }
  }

  lemma AcceptLeaksNothing(c: Config, s: World, newFd: int)
    requires NoLeak(s) && Enabled(c, s, Accept(newFd))
    ensures NoLeak(Next(c, s, Accept(newFd)))
  {
    var t := Next(c, s, Accept(newFd));
    forall fd | fd in t.open ensures Accounted(t, fd) {
      if fd in s.open { assert Accounted(s, fd); }
    }
  }

  lemma RespondLeaksNothing(c: Config, s: World, handed: Bytes, env: Env, udp: set<int>)
    requires NoLeak(s) && Enabled(c, s, Respond(handed, env, udp))
    ensures NoLeak(Next(c, s, Respond(handed, env, udp)))
  {
    hide P.ParseMessage, NoLeak, Answer, PhaseSet;
    var t := Next(c, s, Respond(handed, env, udp));
    AnswerFds(c, s.objs[s.epoll.sid], P.ParseMessage(handed).value, env, udp);
    PutLeaksNothing(s, t, s.epoll.sid, t.objs[s.epoll.sid]);
  }

  lemma FinishLeaksNothing(c: Config, s: World)
    requires Core(s) && NoLeak(s) && Enabled(c, s, Finish)
    ensures NoLeak(NextFinish(s))
  {
    hide NoLeak, RegsOwned, MapOwned, StreamOwned, PendingOwned;
    var t := NextFinish(s);
    var x, y := s.objs[s.epoll.sid], t.objs[s.epoll.sid];
    assert SessOwned(s, s.epoll.sid);
    assert s.open - (x.udp - y.udp) == s.open - x.udp + y.udp;
    PutLeaksNothing(s, t, s.epoll.sid, y);
  }

  lemma SameUdpLeaksNothing(s: World, t: World, sid: Sid)
    requires Core(s) && NoLeak(s) && sid in s.objs && sid in t.objs
    requires t.objs == s.objs[sid := t.objs[sid]] && t.open == s.open && t.epoll == s.epoll
    requires t.objs[sid].fd == s.objs[sid].fd && t.objs[sid].udp == s.objs[sid].udp
    ensures NoLeak(t)
  {
    hide NoLeak, RegsOwned, MapOwned, StreamOwned, PendingOwned;
    assert SessOwned(s, sid);
    assert s.open - s.objs[sid].udp + s.objs[sid].udp == s.open;
    PutLeaksNothing(s, t, sid, t.objs[sid]);
  }

  lemma ForwardLeaksNothing(c: Config, s: World, k: Kernel, udpSent: bool)
    requires Core(s) && NoLeak(s) && Enabled(c, s, Forward(k, udpSent))
    ensures NoLeak(NextForward(c, s, k, udpSent))
  {
    hide NoLeak, Core, Forwarded1, ForwardSucceeds;
    ForwardFds(c, s.objs[s.stream.queue[0]], s.packets[|s.packets| - 1], |s.packets| - 1, s.now, k);
    SameUdpLeaksNothing(s, NextForward(c, s, k, udpSent), s.stream.queue[0]);
  }

  lemma WriteLeaksNothing(c: Config, s: World, fd: int, k: Kernel)
    requires Core(s) && NoLeak(s) && Enabled(c, s, WriteEvent(fd, k))
    ensures NoLeak(NextWrite(c, s, fd, k))
  {
    hide Step, Reap, Core, NoLeak;
    var sid := s.sessions[fd];
    var t := PutSess(s, sid, Do(c, s.objs[sid], FlushOp(k)));
    SameUdpLeaksNothing(s, t, sid);
    SameObjectsLeakNothing(t, EndConnection(t, fd));
    ReapLeaksNothing(EndConnection(t, fd));
    SameObjectsLeakNothing(t, t.(regs := SetWrite(t.regs, fd, false)));
  }

  lemma EndLeaksNothing(s: World, fd: int)
    requires NoLeak(s)
    ensures NoLeak(EndConnection(s, fd)) && NoLeak(CloseConnection(s, fd))
    ensures EndConnection(s, fd).epoll == s.epoll && CloseConnection(s, fd).epoll == s.epoll
  {
    hide NoLeak;
    SameObjectsLeakNothing(s, EndConnection(s, fd));
    SameObjectsLeakNothing(s, CloseConnection(s, fd));
  }

  /** No step leaks a descriptor. */
  lemma StepLeaksNothing(c: Config, s: World, a: Action)
    requires Owned(s) && NoLeak(s) && Enabled(c, s, a)
    ensures NoLeak(Next(c, s, a))
  {
    hide P.ParseMessage, NoLeak, Reap, NextInsert, NextRespond, NextFinish, NextWrite, NextForward, NextStop,
         NextScan, SessionsOwned, RegsOwned, MapOwned, StreamOwned, PendingOwned, EndConnection,
         CloseConnection;
    match a
    case Accept(newFd) => AcceptLeaksNothing(c, s, newFd);
    case Insert(id) => InsertLeaksNothing(s, id);
    case Respond(handed, env, udp) => RespondLeaksNothing(c, s, handed, env, udp);
    case Finish => FinishLeaksNothing(c, s);
    case Ignore(_) => SameUdpLeaksNothing(s, Next(c, s, a), s.epoll.sid);
    case Forward(k, udpSent) => ForwardLeaksNothing(c, s, k, udpSent);
    case WriteEvent(fd, k) => WriteLeaksNothing(c, s, fd, k);
    case EndRead(_) => ClosingLeaksNothing(c, s, a);
    case ErrorEvent(_) => ClosingLeaksNothing(c, s, a);
    case CloseTimedOut => ClosingLeaksNothing(c, s, a);
    case EndBroadcast => ClosingLeaksNothing(c, s, a);
    case StopClear => ClosingLeaksNothing(c, s, a);
    case _ => PlainLeaksNothing(c, s, a);
  }

  lemma PlainLeaksNothing(c: Config, s: World, a: Action)
    requires NoLeak(s) && Enabled(c, s, a)
    requires a.Count? || a.Register? || a.StartRead? || a.Scan? || a.CountTimeout? || a.ScanDone?
             || a.Snapshot? || a.Arm? || a.StopFlag? || a.Second? || a.Expiry?
    ensures NoLeak(Next(c, s, a))
  {
    hide P.ParseMessage, NoLeak, Reap, NextInsert, NextRespond, NextFinish, NextWrite, NextForward, NextStop,
         EndConnection, CloseConnection, Collected, PlayingSessions;
    SameObjectsLeakNothing(s, Next(c, s, a));
  }

  lemma ClosingLeaksNothing(c: Config, s: World, a: Action)
    requires NoLeak(s) && Enabled(c, s, a)
    requires a.EndRead? || a.ErrorEvent? || a.CloseTimedOut? || a.EndBroadcast? || a.StopClear?
    ensures NoLeak(Next(c, s, a))
  {
    hide P.ParseMessage, NoLeak, Reap, NextInsert, NextRespond, NextFinish, NextWrite, NextForward, NextStop,
         NextScan, Forgotten, EndConnection, CloseConnection;
    match a
    case EndRead(close) =>
      EndLeaksNothing(s, s.objs[s.epoll.sid].fd);
      ReapAfterPc(if close then EndConnection(s, s.objs[s.epoll.sid].fd) else s, Idle);
    case ErrorEvent(fd) =>
      EndLeaksNothing(s, fd);
      ReapLeaksNothing(EndConnection(s, fd));
    case CloseTimedOut =>
      EndLeaksNothing(s, s.epoll.closing);
      ReapAfterPc(CloseConnection(s, s.epoll.closing), Closing(s.epoll.todo));
    case EndBroadcast =>
      SameObjectsLeakNothing(s, s.(stream := Quiet));
      ReapLeaksNothing(s.(stream := Quiet));
    case StopClear =>
      StopIsReap(s);
      ForgottenLeaksNothing(s);
      SameObjectsLeakNothing(Forgotten(s), Forgotten(s).(ended := NextStop(s).ended));
      ReapLeaksNothing(Forgotten(s).(ended := NextStop(s).ended));
  }

  lemma StopIsReap(s: World)
    ensures NextStop(s) == Reap(Forgotten(s).(ended := NextStop(s).ended))
  {
  }

  lemma ReapAfterPc(s: World, pc: EpollPc)
    requires NoLeak(s) && !(s.epoll.Accepted? || s.epoll.Counted? || s.epoll.Registered?)
    ensures NoLeak(Reap(s.(epoll := pc)))
  {
    hide NoLeak;
    SameObjectsLeakNothing(s, s.(epoll := pc));
    ReapLeaksNothing(s.(epoll := pc));
  }

  lemma {:induction false} ReachableLeaksNothing(c: Config, states: seq<World>, actions: seq<Action>, i: nat)
    requires IsRun(c, states, actions) && i < |states|
    ensures NoLeak(states[i])
  {
    hide NoLeak, Owned, Enabled, Next;
    if i == 0 {
      assert NoLeak(START) by { StartLeaksNothing(); }
    } else {
      ReachableIsOwned(c, states, actions, i - 1);
      ReachableLeaksNothing(c, states, actions, i - 1);
      StepLeaksNothing(c, states[i - 1], actions[i - 1]);
    }
  }

  lemma StartLeaksNothing()
    ensures NoLeak(START)
  {
  }

  /**
   In every reachable state an open descriptor belongs to a session that is in the map, or that the stream thread or
   the epoll thread points to, or to the connection that is being accepted.
   */
  lemma EveryDescriptorIsOwned(c: Config, s: World, fd: int)
    requires Reachable(c, s) && fd in s.open
    ensures (exists sid :: sid in Live(s) && sid in s.objs && fd in Fds(s.objs[sid]))
            || ((s.epoll.Accepted? || s.epoll.Counted? || s.epoll.Registered?) && fd == s.epoll.fd)
  {
    hide Live, Core;
    var states, actions :| IsRun(c, states, actions) && states[|states| - 1] == s;
    ReachableIsOwned(c, states, actions, |states| - 1);
    ReachableLeaksNothing(c, states, actions, |states| - 1);
    assert Accounted(s, fd);
  }
}

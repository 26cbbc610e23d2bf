/**
 The other half of delivery: a broadcast reaches exactly the sessions that are playing when it begins.
 */
module ServerReach {
  import opened Service
  import opened Transport
  import opened Framing
  import opened Forwarder
  import opened Server
  import O = ServerOwnership
  import P = Parser

  /** The session has been offered the packet that was broadcast last, unless no TCP client gets that packet. */
  predicate Served(packets: seq<Packet>, x: Sess)
    requires packets != []
  {
    !x.view.isUdp && ValidPacket(packets[|packets| - 1]) ==>
      x.offered != [] && x.offered[|x.offered| - 1] == |packets| - 1
  }

  /** Who was copied and is no longer waiting has been served. */
  ghost predicate AllServed(s: World) {
    !s.stream.Quiet? ==>
      && s.packets != []
      && forall sid :: sid in s.stream.held && sid in s.objs && sid !in s.stream.queue ==>
           Served(s.packets, s.objs[sid])
  }

  /** Steps of anybody that offer nothing; a session never goes back from UDP to TCP. */
  lemma OthersStayServed(s: World, t: World)
    requires AllServed(s)
    requires t.stream.Quiet? || (t.packets == s.packets && !s.stream.Quiet?
                                 && t.stream.held == s.stream.held && t.stream.queue == s.stream.queue)
    requires !t.stream.Quiet? ==> forall sid :: sid in t.objs && sid in t.stream.held ==>
               && sid in s.objs && t.objs[sid].offered == s.objs[sid].offered
               && (s.objs[sid].view.isUdp ==> t.objs[sid].view.isUdp)
    ensures AllServed(t)
  {
    if !t.stream.Quiet? {
      forall sid | sid in t.stream.held && sid in t.objs && sid !in t.stream.queue
        ensures Served(t.packets, t.objs[sid])
      {
        assert Served(s.packets, s.objs[sid]);
      }
    }
  }

  lemma AnswerOffersNothing(c: Config, x: Sess, request: P.Request, env: Env, udp: set<int>)
    ensures var y := Answer(c, x, request, env, udp); y.offered == x.offered && (x.view.isUdp ==> y.view.isUdp)
  {
    hide Forwarder.Step;
    PhaseMovesOnSuccess(x.view.(lastActivity := env.now), request, env);
  }

  lemma ForwardServes(c: Config, s: World, k: Kernel, udpSent: bool)
    requires AllServed(s) && Enabled(c, s, Forward(k, udpSent))
    ensures AllServed(Next(c, s, Forward(k, udpSent)))
  {
    hide Do, ForwardSucceeds, Served;
    var t, number := NextForward(c, s, k, udpSent), |s.packets| - 1;
    ForwardedIsServed(c, s.packets, s.objs[s.stream.queue[0]], s.now, k);
    forall sid | sid in t.stream.held && sid in t.objs && sid !in t.stream.queue
      ensures Served(t.packets, t.objs[sid])
    {
      if sid == s.stream.queue[0] {
        SameIsServed(s.packets, Forwarded1(c, s.objs[sid], s.packets[number], number, s.now, k), t.objs[sid]);
      } else {
        assert s.stream.queue == [s.stream.queue[0]] + s.stream.queue[1..];
        assert Served(s.packets, s.objs[sid]);
      }
    }
  }

  lemma ForwardedIsServed(c: Config, packets: seq<Packet>, x: Sess, now: nat, k: Kernel)
    requires packets != []
    ensures Served(packets, Forwarded1(c, x, packets[|packets| - 1], |packets| - 1, now, k))
  {
    hide Forwarder.Step;
  }

  lemma SameIsServed(packets: seq<Packet>, x: Sess, y: Sess)
    requires packets != [] && Served(packets, x) && y.offered == x.offered && y.view.isUdp == x.view.isUdp
    ensures Served(packets, y)
  {
  }

  lemma ReapServes(s: World)
    requires AllServed(s)
    ensures AllServed(Reap(s))
  {
    hide AllServed, Live, DeadFds;
    OthersStayServed(s, Reap(s));
  }

  lemma SnapshotServes(c: Config, s: World, packet: Packet, queue: seq<Sid>)
    requires Enabled(c, s, Snapshot(packet, queue))
    ensures AllServed(Next(c, s, Snapshot(packet, queue)))
  {
  }

  lemma InsertServes(c: Config, s: World, id: string)
    requires AllServed(s) && O.Owned(s) && Enabled(c, s, Insert(id))
    ensures AllServed(NextInsert(s, id))
  {
    hide AllServed, O.SessionsOwned, O.RegsOwned, O.MapOwned;
    assert s.epoll.sid !in StreamHeld(s.stream);
    if !s.stream.Quiet? { assert s.stream.held == StreamHeld(s.stream); }
    OthersStayServed(s, NextInsert(s, id));
  }

  lemma RequestServes(c: Config, s: World, a: Action)
    requires AllServed(s) && Enabled(c, s, a) && (a.Respond? || a.Finish? || a.Ignore?)
    ensures AllServed(Next(c, s, a))
  {
    hide AllServed, P.ParseMessage, Answer, PhaseSet, SetWrite;
    if a.Respond? {
      AnswerOffersNothing(c, s.objs[s.epoll.sid], P.ParseMessage(a.handed).value, a.env, a.udp);
    }
    OthersStayServed(s, Next(c, s, a));
  }

  lemma WriteServes(c: Config, s: World, fd: int, k: Kernel)
    requires AllServed(s) && Enabled(c, s, WriteEvent(fd, k))
    ensures AllServed(NextWrite(c, s, fd, k))
  {
    hide AllServed, Forwarder.Step, Reap;
    var t := PutSess(s, s.sessions[fd], Do(c, s.objs[s.sessions[fd]], FlushOp(k)));
    OthersStayServed(s, t);
    OthersStayServed(t, EndConnection(t, fd));
    ReapServes(EndConnection(t, fd));
    OthersStayServed(t, t.(regs := SetWrite(t.regs, fd, false)));
  }

  lemma ClosingServes(c: Config, s: World, a: Action)
    requires AllServed(s) && Enabled(c, s, a)
    requires a.EndRead? || a.ErrorEvent? || a.CloseTimedOut? || a.EndBroadcast?
    ensures AllServed(Next(c, s, a))
  {
    hide AllServed, Reap, P.ParseMessage, NextInsert, NextRespond, NextFinish, NextWrite, NextForward,
         NextScan, NextStop;
    match a
    case EndRead(close) =>
      var u := (if close then EndConnection(s, s.objs[s.epoll.sid].fd) else s).(epoll := Idle);
      OthersStayServed(s, u);
      ReapServes(u);
    case ErrorEvent(fd) =>
      OthersStayServed(s, EndConnection(s, fd));
      ReapServes(EndConnection(s, fd));
    case CloseTimedOut =>
      var u := CloseConnection(s, s.epoll.closing).(epoll := Closing(s.epoll.todo));
      OthersStayServed(s, u);
      ReapServes(u);
    case EndBroadcast =>
      OthersStayServed(s, s.(stream := Quiet));
      ReapServes(s.(stream := Quiet));
  }

  lemma StopServes(s: World)
    requires AllServed(s)
    ensures AllServed(NextStop(s))
  {
    hide AllServed, Reap, Mapped;
    O.StopIsReap(s);
    var u := Forgotten(s).(ended := NextStop(s).ended);
    OthersStayServed(s, u);
    ReapServes(u);
  }

  lemma PlainServes(c: Config, s: World, a: Action)
    requires AllServed(s) && Enabled(c, s, a)
    requires a.Accept? || a.Count? || a.Register? || a.StartRead? || a.Scan? || a.CountTimeout? || a.ScanDone?
             || a.Arm? || a.StopFlag? || a.Second? || a.Expiry?
    ensures AllServed(Next(c, s, a))
  {
    hide AllServed, Collected, PlayingSessions, P.ParseMessage, NextInsert, NextRespond, NextFinish, NextWrite,
         NextForward, NextStop, Reap, EndConnection, CloseConnection, SetWrite;
    OthersStayServed(s, Next(c, s, a));
  }

  lemma StepKeepsServed(c: Config, s: World, a: Action)
    requires O.Owned(s) && AllServed(s) && Enabled(c, s, a)
    ensures AllServed(Next(c, s, a))
  {
    hide O.Owned, AllServed, Reap, P.ParseMessage, NextInsert, NextRespond, NextFinish, NextWrite, NextForward,
         NextStop, NextScan, EndConnection, CloseConnection;
    match a
    case Insert(id) => InsertServes(c, s, id);
    case Respond(_, _, _) => RequestServes(c, s, a);
    case Finish => RequestServes(c, s, a);
    case Ignore(_) => RequestServes(c, s, a);
    case WriteEvent(fd, k) => WriteServes(c, s, fd, k);
    case Forward(k, udpSent) => ForwardServes(c, s, k, udpSent);
    case Snapshot(packet, queue) => SnapshotServes(c, s, packet, queue);
    case EndRead(_) => ClosingServes(c, s, a);
    case ErrorEvent(_) => ClosingServes(c, s, a);
    case CloseTimedOut => ClosingServes(c, s, a);
    case EndBroadcast => ClosingServes(c, s, a);
    case StopClear => StopServes(s);
    case _ => PlainServes(c, s, a);
  }

  lemma {:induction false} ReachableIsServed(c: Config, states: seq<World>, actions: seq<Action>, i: nat)
    requires IsRun(c, states, actions) && i < |states|
    ensures AllServed(states[i])
  {
    hide O.Owned, AllServed, Enabled, Next;
    if i == 0 {
      StartIsServed();
    } else {
      O.ReachableIsOwned(c, states, actions, i - 1);
      ReachableIsServed(c, states, actions, i - 1);
      StepKeepsServed(c, states[i - 1], actions[i - 1]);
    }
  }

  lemma StartIsServed()
    ensures AllServed(START)
  {
  }

  /**
   When a broadcast is through, whatever ran in between, every session it copied that uses TCP has been offered its
   packet, as the last of those offered to it.
   */
  lemma NobodyIsSkipped(c: Config, s: World, sid: Sid)
    requires Reachable(c, s) && s.stream.Broadcasting? && s.stream.queue == [] && sid in s.stream.held
    ensures sid in s.objs && s.packets != []
    ensures var x := s.objs[sid]; var number := |s.packets| - 1;
            !x.view.isUdp && ValidPacket(s.packets[number]) ==> x.offered != [] && x.offered[|x.offered| - 1] == number
  {
    var states, actions :| IsRun(c, states, actions) && states[|states| - 1] == s;
    O.ReachableIsOwned(c, states, actions, |states| - 1);
    ReachableIsServed(c, states, actions, |states| - 1);
    assert sid in StreamHeld(s.stream);
    assert Served(s.packets, s.objs[sid]);
  }

  // ----- A whole broadcast -----

  /** The stream thread, and what it has done, are as before. */
  predicate SameStream(s: World, t: World) {
    t.stream == s.stream && t.forwards == s.forwards && t.packets == s.packets
  }

  lemma ReapStream(s: World)
    ensures SameStream(s, Reap(s))
  {
    hide Live, DeadFds;
  }

  lemma EndingStream(s: World, fd: int, pc: EpollPc)
    ensures SameStream(s, Reap(EndConnection(s, fd))) && SameStream(s, Reap(EndConnection(s, fd).(epoll := pc)))
    ensures SameStream(s, Reap(CloseConnection(s, fd).(epoll := pc)))
  {
    hide Reap;
    ReapStream(EndConnection(s, fd));
    ReapStream(EndConnection(s, fd).(epoll := pc));
    ReapStream(CloseConnection(s, fd).(epoll := pc));
  }

  lemma StopStream(s: World)
    ensures SameStream(s, NextStop(s))
  {
    hide Reap, Mapped, Stopped, Todo, InClosing;
    O.StopIsReap(s);
    ReapStream(Forgotten(s).(ended := NextStop(s).ended));
  }

  lemma WriteStream(c: Config, s: World, fd: int, k: Kernel)
    requires Enabled(c, s, WriteEvent(fd, k))
    ensures SameStream(s, NextWrite(c, s, fd, k))
  {
    hide Reap, Do, SetWrite, EndConnection, CloseConnection;
    EndingStream(PutSess(s, s.sessions[fd], Do(c, s.objs[s.sessions[fd]], FlushOp(k))), fd, Idle);
  }

  lemma SessionStream(c: Config, s: World, a: Action)
    requires Enabled(c, s, a) && (a.Insert? || a.Respond? || a.Finish? || a.Ignore?)
    ensures SameStream(s, Next(c, s, a))
  {
    hide P.ParseMessage, Answer, PhaseSet, Reap, NextWrite, NextForward, NextScan, NextStop, EndConnection,
         CloseConnection, PlayingSessions, SetWrite;
  }

  /** The other threads leave the broadcast alone. */
  lemma StreamStays(c: Config, s: World, a: Action)
    requires Enabled(c, s, a) && !a.Snapshot? && !a.Forward? && !a.Arm? && !a.EndBroadcast?
    ensures SameStream(s, Next(c, s, a))
  {
    hide P.ParseMessage, Reap, NextInsert, NextRespond, NextFinish, NextForward, NextIgnore, NextWrite, NextStop,
         EndConnection, CloseConnection, PlayingSessions, SetWrite, Collected;
    match a
    case EndRead(_) =>
      EndingStream(s, s.objs[s.epoll.sid].fd, Idle);
      ReapStream(s.(epoll := Idle));
    case ErrorEvent(fd) => EndingStream(s, fd, Idle);
    case CloseTimedOut => EndingStream(s, s.epoll.closing, Closing(s.epoll.todo));
    case StopClear => StopStream(s);
    case WriteEvent(fd, k) => WriteStream(c, s, fd, k);
    case Insert(_) => SessionStream(c, s, a);
    case Respond(_, _, _) => SessionStream(c, s, a);
    case Finish => SessionStream(c, s, a);
    case Ignore(_) => SessionStream(c, s, a);
    case _ =>
  }

  /** The sessions in `served` have had their one forward since `before`, those in the queue are still to have it. */
  ghost predicate Underway(s: World, queue: seq<Sid>, before: seq<(Sid, bool)>, packets: seq<Packet>) {
    && !s.stream.Quiet? && s.packets == packets
    && |before| <= |s.forwards| <= |before| + |queue| && s.forwards[..|before|] == before
    && (var k := |s.forwards| - |before|;
        && s.stream.queue == queue[k..] && s.stream.held == Elements(queue)
        && forall i :: 0 <= i < k ==> s.forwards[|before| + i].0 == queue[i])
  }

  lemma ForwardUnderway(c: Config, s: World, k: Kernel, udpSent: bool, queue: seq<Sid>, before: seq<(Sid, bool)>,
                        packets: seq<Packet>)
    requires Underway(s, queue, before, packets) && Enabled(c, s, Forward(k, udpSent))
    ensures Underway(Next(c, s, Forward(k, udpSent)), queue, before, packets)
  {
    hide Forwarded1, ForwardSucceeds;
    var t := NextForward(c, s, k, udpSent);
    assert t.forwards[..|before|] == s.forwards[..|before|];
  }

  lemma StepUnderway(c: Config, s: World, a: Action, queue: seq<Sid>, before: seq<(Sid, bool)>, packets: seq<Packet>)
    requires Underway(s, queue, before, packets) && Enabled(c, s, a) && !Next(c, s, a).stream.Quiet?
    ensures Underway(Next(c, s, a), queue, before, packets)
  {
    hide Reap, NextInsert, NextRespond, NextFinish, NextForward, NextWrite, NextScan, NextStop, EndConnection,
         CloseConnection, P.ParseMessage, PlayingSessions, SetWrite;
    match a
    case Snapshot(_, _) =>
    case EndBroadcast => ReapStream(s.(stream := Quiet));
    case Forward(k, udpSent) => ForwardUnderway(c, s, k, udpSent, queue, before, packets);
    case Arm =>
    case _ => StreamStays(c, s, a);
  }

  lemma SnapshotUnderway(c: Config, s: World, packet: Packet, queue: seq<Sid>)
    requires Enabled(c, s, Snapshot(packet, queue))
    ensures Underway(Next(c, s, Snapshot(packet, queue)), queue, s.forwards, s.packets + [packet])
  {
    hide PlayingSessions;
    assert queue[0..] == queue;
  }

  lemma {:induction false} RunUnderway(c: Config, states: seq<World>, actions: seq<Action>, i: nat, j: nat)
    requires IsRun(c, states, actions) && i < j < |states| && actions[i].Snapshot?
    requires forall m :: i < m <= j ==> !states[m].stream.Quiet?
    ensures Underway(states[j], actions[i].queue, states[i].forwards, states[i].packets + [actions[i].packet])
    decreases j - i
  {
    hide Enabled, Next, Underway;
    if j == i + 1 {
      SnapshotUnderway(c, states[i], actions[i].packet, actions[i].queue);
    } else {
      RunUnderway(c, states, actions, i, j - 1);
      assert !states[j].stream.Quiet? && states[j] == Next(c, states[j - 1], actions[j - 1]);
      StepUnderway(c, states[j - 1], actions[j - 1], actions[i].queue, states[i].forwards,
                   states[i].packets + [actions[i].packet]);
    }
  }

  /** The session is in the server's map and plays. */
  ghost predicate PlaysIn(s: World, sid: Sid) {
    sid in s.objs && s.objs[sid].view.phase == Playing && exists fd :: fd in s.sessions && s.sessions[fd] == sid
  }

  lemma SnapshotCopies(c: Config, s: World, packet: Packet, queue: seq<Sid>)
    requires Enabled(c, s, Snapshot(packet, queue))
    ensures forall sid :: PlaysIn(s, sid) <==> sid in queue
    ensures forall k, l :: 0 <= k < l < |queue| ==> queue[k] != queue[l]
  {
    forall sid ensures PlaysIn(s, sid) <==> sid in queue {
      assert sid in Elements(queue) <==> sid in PlayingSessions(s);
      assert sid in Mapped(s) <==> exists fd :: fd in s.sessions && s.sessions[fd] == sid;
    }
  }

  /**
   A broadcast that step `i` begins has, once nobody waits any more in state `j`, forwarded exactly once to each
   session that was in the map and playing at its beginning, by TCP or UDP, and to nobody else; and each of these that
   uses TCP has been offered a valid packet, as its last.
   */
  lemma BroadcastReachesExactly(c: Config, states: seq<World>, actions: seq<Action>, i: nat, j: nat)
    requires IsRun(c, states, actions) && i < j < |states| && actions[i].Snapshot?
    requires (forall m :: i < m <= j ==> !states[m].stream.Quiet?) && states[j].stream.Broadcasting?
    requires states[j].stream.queue == []
    ensures states[i].forwards <= states[j].forwards && states[j].packets == states[i].packets + [actions[i].packet]
    ensures var gained := states[j].forwards[|states[i].forwards|..];
            && (forall sid :: PlaysIn(states[i], sid) <==> exists k :: 0 <= k < |gained| && gained[k].0 == sid)
            && (forall k, l :: 0 <= k < l < |gained| ==> gained[k].0 != gained[l].0)
    ensures forall sid :: PlaysIn(states[i], sid) ==>
              sid in states[j].objs
              && (var x := states[j].objs[sid];
                  !x.view.isUdp && ValidPacket(actions[i].packet) ==>
                    x.offered != [] && x.offered[|x.offered| - 1] == |states[i].packets|)
  {
    hide Next, Enabled;
    var queue, before := actions[i].queue, states[i].forwards;
    RunUnderway(c, states, actions, i, j);
    SnapshotCopies(c, states[i], actions[i].packet, queue);
    var gained := states[j].forwards[|before|..];
    assert |gained| == |queue| && forall k :: 0 <= k < |gained| ==> gained[k].0 == queue[k];
    forall sid ensures PlaysIn(states[i], sid) <==> exists k :: 0 <= k < |gained| && gained[k].0 == sid {
      assert sid in queue <==> exists k :: 0 <= k < |queue| && queue[k] == sid;
      if k :| 0 <= k < |queue| && queue[k] == sid { assert gained[k].0 == sid; }
    }
    forall sid | PlaysIn(states[i], sid)
      ensures sid in states[j].objs
      ensures var x := states[j].objs[sid];
              !x.view.isUdp && ValidPacket(actions[i].packet) ==>
                x.offered != [] && x.offered[|x.offered| - 1] == |states[i].packets|
    {
      assert sid in Elements(queue);
      HeldIsServed(c, states, actions, j, sid);
    }
  }

  lemma HeldIsServed(c: Config, states: seq<World>, actions: seq<Action>, j: nat, sid: Sid)
    requires IsRun(c, states, actions) && j < |states|
    requires states[j].stream.Broadcasting? && states[j].stream.queue == [] && sid in states[j].stream.held
    ensures sid in states[j].objs && states[j].packets != [] && Served(states[j].packets, states[j].objs[sid])
  {
    O.ReachableIsOwned(c, states, actions, j);
    ReachableIsServed(c, states, actions, j);
    assert sid in StreamHeld(states[j].stream);
  }
}

/**
 One read event on a session object is a run of the two-thread machine: the read starts, each request is answered
 and finished or ignored, and the read ends.
 */
module ReadSteps {
  import opened Bytes
  import opened Builder
  import opened RingBuffers
  import opened FdGuards
  import opened Connections
  import opened Sessions
  import opened Service
  import opened EpollLoops
  import opened Server
  import opened HandlerSteps
  import Demux
  import H = Handlers
  import L = ServiceLaws
  import O = ServerOwnership
  import D = ServerDrops
  import F = ServerFlush
  import P = Parser

  /** The steps `actions` lead from `s` to `t`. */
  ghost predicate Leads(c: Config, s: World, actions: seq<Action>, t: World)
    decreases |actions|
  {
    if actions == [] then s == t
    else Enabled(c, s, actions[0]) && Leads(c, Next(c, s, actions[0]), actions[1..], t)
  }

  lemma {:induction false} LeadsOn(c: Config, s: World, a: seq<Action>, u: World, b: seq<Action>, t: World)
    requires Leads(c, s, a, u) && Leads(c, u, b, t)
    ensures Leads(c, s, a + b, t)
    decreases |a|
  {
    hide Enabled, Next;
    if a == [] {
      assert a + b == b;
    } else {
      assert (a + b)[1..] == a[1..] + b;
      LeadsOn(c, Next(c, s, a[0]), a[1..], u, b, t);
    }
  }

  lemma LeadsOne(c: Config, s: World, a: Action)
    requires Enabled(c, s, a)
    ensures Leads(c, s, [a], Next(c, s, a))
  {
    hide Enabled, Next;
    assert [a][1..] == [];
    assert Leads(c, Next(c, s, a), [], Next(c, s, a));
  }

  lemma LeadsTwo(c: Config, s: World, a: Action, b: Action)
    requires Enabled(c, s, a) && Enabled(c, Next(c, s, a), b)
    ensures Leads(c, s, [a, b], Next(c, Next(c, s, a), b))
  {
    hide Enabled, Next;
    LeadsOne(c, s, a);
    LeadsOne(c, Next(c, s, a), b);
    LeadsOn(c, s, [a], Next(c, s, a), [b], Next(c, Next(c, s, a), b));
    assert [a] + [b] == [a, b];
  }

  /** What serving requests may change: one session, and its registration if `armed`. */
  ghost predicate Served(s: World, t: World, sid: Sid, state: State, armed: bool) {
    && sid in s.objs && sid in t.objs && t.objs.Keys == s.objs.Keys
    && t.sessions == s.sessions && t.epoll == s.epoll && t.stream == s.stream && t.now == s.now
    && var x, y := s.objs[sid], t.objs[sid];
       && y.id == x.id && y.fd == x.fd && y.drops == x.drops && y.view == state.view && y.out == state.out
       && t.regs == if armed then SetWrite(s.regs, x.fd, true) else s.regs
  }

  /** One request, or what is taken for one. */
  lemma RequestIsRun(c: Config, s: World, sid: Sid, handed: Bytes, env: Env, replies: seq<Reply>)
    returns (actions: seq<Action>, t: World)
    requires s.epoll == Reading(sid) && sid in s.objs && |s.objs[sid].out.buf| <= c.capacity && env.now == s.now
    ensures var x := s.objs[sid]; var state := Serve(State(x.view, x.out, replies), handed, c.capacity, x.id, env);
            && Leads(c, s, actions, t) && Served(s, t, sid, state, state.out.buf != [])
            && |t.objs[sid].out.buf| <= c.capacity
    ensures forall a :: a in actions ==> a.Respond? || a.Finish? || a.Ignore?
  {
    hide P.ParseMessage, Next, Enabled, Leads, Serve;
    if P.ParseMessage(handed).Ok? {
      actions := [Respond(handed, env, {}), Finish];
      AnsweredIs(c, s, sid, handed, env, replies);
      LeadsTwo(c, s, Respond(handed, env, {}), Finish);
      t := Next(c, Next(c, s, Respond(handed, env, {})), Finish);
    } else {
      actions := [Ignore(handed)];
      IgnoredIs(c, s, sid, handed, env, replies);
      LeadsOne(c, s, Ignore(handed));
      t := Next(c, s, Ignore(handed));
    }
  }

  lemma AnsweredIs(c: Config, s: World, sid: Sid, handed: Bytes, env: Env, replies: seq<Reply>)
    requires s.epoll == Reading(sid) && sid in s.objs && |s.objs[sid].out.buf| <= c.capacity && env.now == s.now
    requires P.ParseMessage(handed).Ok?
    ensures Enabled(c, s, Respond(handed, env, {}))
    ensures var u := Next(c, s, Respond(handed, env, {}));
            && Enabled(c, u, Finish)
            && var x := s.objs[sid]; var t := Next(c, u, Finish);
               var state := Serve(State(x.view, x.out, replies), handed, c.capacity, x.id, env);
               Served(s, t, sid, state, state.out.buf != []) && |t.objs[sid].out.buf| <= c.capacity
  {
    hide P.ParseMessage, Answer, PhaseSet, Serve, SetWrite;
    var x, request := s.objs[sid], P.ParseMessage(handed).value;
    AnswerThenPhaseIsServe(c, x, handed, env, {}, replies);
    O.AnswerFds(c, x, request, env, {});
    AnswerKeepsId(c, x, request, env);
    D.AnswerKeepsDrops(c, x, request, env, {});
    F.AnswerFits(c, x, request, env, {});
  }

  lemma AnswerKeepsId(c: Config, x: Sess, request: P.Request, env: Env)
    ensures Answer(c, x, request, env, {}).id == x.id
  {
    hide Handle, Forwarder.Step;
  }

  lemma IgnoredIs(c: Config, s: World, sid: Sid, handed: Bytes, env: Env, replies: seq<Reply>)
    requires s.epoll == Reading(sid) && sid in s.objs && |s.objs[sid].out.buf| <= c.capacity && env.now == s.now
    requires P.ParseMessage(handed).Err?
    ensures Enabled(c, s, Ignore(handed))
    ensures var x := s.objs[sid]; var t := Next(c, s, Ignore(handed));
            var state := Serve(State(x.view, x.out, replies), handed, c.capacity, x.id, env);
            Served(s, t, sid, state, state.out.buf != []) && |t.objs[sid].out.buf| <= c.capacity
  {
    hide P.ParseMessage, SetWrite;
  }

  lemma ServedOn(s: World, u: World, t: World, sid: Sid, one: State, armed: bool, all: State, also: bool)
    requires Served(s, u, sid, one, armed) && Served(u, t, sid, all, also)
    ensures Served(s, t, sid, all, armed || also)
  {
  }

  lemma ServedNothing(s: World, sid: Sid, replies: seq<Reply>)
    requires sid in s.objs
    ensures Served(s, s, sid, State(s.objs[sid].view, s.objs[sid].out, replies), false)
  {
  }

  /** All units of a buffer: frames take no step. */
  lemma {:induction false} UnitsAreRun(c: Config, s: World, sid: Sid, units: seq<Demux.Unit>, at: nat, env: nat -> Env,
                                       i: nat, replies: seq<Reply>)
    returns (actions: seq<Action>, t: World)
    requires s.epoll == Reading(sid) && sid in s.objs && |s.objs[sid].out.buf| <= c.capacity
    requires at < c.capacity && (forall u :: u in units ==> |u.bytes| <= c.capacity) && forall j :: env(j).now == s.now
    ensures var x := s.objs[sid]; var first := State(x.view, x.out, replies);
            && Leads(c, s, actions, t)
            && Served(s, t, sid, ServeAll(first, units, at, c.capacity, x.id, env, i),
                      H.Arms(first, units, at, c.capacity, x.id, env, i))
    ensures forall a :: a in actions ==> a.Respond? || a.Finish? || a.Ignore?
    decreases |units|
  {
    hide Serve, HandedOver, Served, Next, Enabled, Leads;
    var x := s.objs[sid];
    var first := State(x.view, x.out, replies);
    if units == [] {
      actions, t := [], s;
      LeadsNowhere(c, s);
      ServedNothing(s, sid, replies);
    } else {
      var next := Wrap(at + |units[0].bytes|, c.capacity);
      match units[0]
      case Frame(_) =>
        actions, t := UnitsAreRun(c, s, sid, units[1..], next, env, i, replies);
      case Request(bytes) =>
        var handed := HandedOver(bytes, at, c.capacity, env(i).beyond);
        var state := Serve(first, handed, c.capacity, x.id, env(i));
        var a, u := RequestIsRun(c, s, sid, handed, env(i), replies);
        ServedShows(s, u, sid, state, state.out.buf != []);
        var b;
        b, t := UnitsAreRun(c, u, sid, units[1..], next, env, i + 1, state.replies);
        actions := a + b;
        LeadsOn(c, s, a, u, b, t);
        ServedOn(s, u, t, sid, state, state.out.buf != [],
                 ServeAll(state, units[1..], next, c.capacity, x.id, env, i + 1),
                 H.Arms(state, units[1..], next, c.capacity, x.id, env, i + 1));
    }
  }

  lemma LeadsNowhere(c: Config, s: World)
    ensures Leads(c, s, [], s)
  {
  }

  lemma ServedShows(s: World, t: World, sid: Sid, state: State, armed: bool)
    requires Served(s, t, sid, state, armed)
    ensures sid in s.objs && sid in t.objs && t.epoll == s.epoll && t.now == s.now
    ensures t.objs[sid].view == state.view && t.objs[sid].out == state.out && t.objs[sid].id == s.objs[sid].id
  {
  }

  // ----- The whole event -----

  /** The read ends: the session is closed, or nothing happens. */
  lemma ReadEnds(c: Config, s: World, t: World, sid: Sid, state: State, armed: bool, close: bool)
    requires O.Owned(s) && s.epoll == Reading(sid) && Served(s, t, sid, state, armed)
    requires s.objs[sid].fd in s.sessions && s.sessions[s.objs[sid].fd] == sid
    ensures Enabled(c, t, EndRead(close))
    ensures var u := Next(c, t, EndRead(close));
            && u.epoll == Idle
            && if close then s.objs[sid].fd !in u.sessions
               else u == t.(epoll := Idle)
  {
    hide O.SessionsOwned, O.RegsOwned, O.MapOwned, O.StreamOwned, O.PendingOwned, Reap, SetWrite;
    var u := t.(epoll := Idle);
    if !close {
      assert s.sessions[s.objs[sid].fd] == sid;
      SameAlive(s, u, sid);
      NobodyDies(u);
    } else {
      ReapKeepsMap(EndConnection(t, s.objs[sid].fd).(epoll := Idle));
    }
  }

  lemma SameAlive(s: World, u: World, sid: Sid)
    requires s.objs.Keys == Live(s) && u.objs.Keys == s.objs.Keys && u.sessions == s.sessions && u.stream == s.stream
    requires EpollHeld(s.epoll) == {sid} && sid in Mapped(s) && EpollHeld(u.epoll) == {}
    ensures u.objs.Keys <= Live(u)
  {
  }

  lemma NobodyDies(s: World)
    requires s.objs.Keys <= Live(s)
    ensures Reap(s) == s
  {
    hide Live;
    assert DeadFds(s) == {};
  }

  lemma ReapKeepsMap(s: World)
    ensures Reap(s).sessions == s.sessions && Reap(s).epoll == s.epoll
  {
    hide Live, DeadFds;
  }

  /** The session object is the machine's session `sid`, which is mapped and reading. */
  method ReadStep(session: Session, epoll: EpollLoop, arrival: Arrival, env: nat -> Env,
                  ghost c: Config, ghost s: World)
    returns (close: bool, ghost actions: seq<Action>, ghost t: World)
    requires session.Valid() && epoll.Valid() && O.Owned(s) && forall j :: env(j).now == s.now
    requires var fd := session.conn.guard.fd;
             Enabled(c, s, StartRead(fd)) && Shows(session, epoll, c, s, s.sessions[fd])
    modifies session, session.conn`wire, session.conn.writeBuffer, session.conn.writeBuffer.data
    modifies session.conn.readBuffer, session.conn.readBuffer.data
    modifies session.udpRtp, session.udpRtcp, session.table, epoll`interest
    ensures session.Valid() && epoll.Valid()
    ensures Leads(c, s, [StartRead(session.conn.guard.fd)] + actions + [EndRead(close)], t)
    ensures forall a :: a in actions ==> a.Respond? || a.Finish? || a.Ignore?
    ensures var fd := session.conn.guard.fd;
            if close then fd !in t.sessions else t.sessions == s.sessions && Shows(session, epoll, c, t, s.sessions[fd])
  {
    hide Session.Valid, O.Owned, Demux.Fed, L.ServeFed, Leads, Next, Enabled, Served, H.Arms, ServeAll,
         Demux.Scanned;
    ghost var fd, before := session.conn.guard.fd, session.TheState();
    ghost var c0, at0 := session.conn.readBuffer.contents, session.conn.readBuffer.readPos;
    ReadBegins(c, s, fd);
    BufferShows(session);
    ghost var sid, room := s.sessions[fd], session.conn.readBuffer.ContiguousWritableSize();
    ghost var x := s.objs[sid];
    assert before == State(x.view, x.out, before.replies);
    close := H.ProcessConnectionData(session, epoll, arrival, env);
    ghost var units, r := [], Next(c, s, StartRead(fd));
    NothingServed(before, at0, c.capacity, session.sessionId, env);
    if arrival.Arrived? && arrival.bytes != [] {
      ghost var chunk := arrival.bytes[..Min(|arrival.bytes|, room)];
      if |c0| < c.capacity {
        Demux.UnitsAreWithin(c0 + chunk);
        units := Demux.Scanned(c0 + chunk).units;
      } else {
        L.OneEventServed(before, c0, chunk, at0, c.capacity, session.sessionId, env, 0);
      }
    }
    ghost var armed := H.Arms(before, units, at0, c.capacity, session.sessionId, env, 0);
    ghost var u;
    actions, u := UnitsAreRun(c, r, sid, units, at0, env, 0, before.replies);
    assert session.TheState() == ServeAll(before, units, at0, c.capacity, session.sessionId, env, 0);
    ReadEnds(c, r, u, sid, session.TheState(), armed, close);
    t := Next(c, u, EndRead(close));
    LeadsOne(c, s, StartRead(fd));
    LeadsOne(c, u, EndRead(close));
    LeadsOn(c, s, [StartRead(fd)], r, actions, u);
    LeadsOn(c, s, [StartRead(fd)] + actions, u, [EndRead(close)], t);
    ServedRegs(r, u, sid, session.TheState(), armed);
    InterestShows(old(epoll.interest), s.regs, fd, armed);
  }

  lemma ReadBegins(c: Config, s: World, fd: int)
    requires O.Owned(s) && Enabled(c, s, StartRead(fd))
    ensures fd in s.sessions
    ensures var sid := s.sessions[fd];
            && sid in s.objs && s.objs[sid].fd == fd && O.Owned(Next(c, s, StartRead(fd)))
            && Next(c, s, StartRead(fd)) == s.(epoll := Reading(sid))
  {
    hide O.SessionsOwned, O.RegsOwned, O.StreamOwned, O.PendingOwned, Live;
    O.StepKeepsOwned(c, s, StartRead(fd));
  }

  lemma BufferShows(session: Session)
    requires session.Valid()
    ensures var r, w := session.conn.readBuffer, session.conn.writeBuffer;
            && r.Valid() && r.capacity == w.capacity && r.readPos < r.capacity && |r.contents| <= r.capacity
            && |session.conn.Stream().buf| <= w.capacity
  {
    hide SoleOwners;
  }

  lemma NothingServed(state: State, at: nat, cap: nat, sessionId: string, env: nat -> Env)
    requires at < cap
    ensures ServeAll(state, [], at, cap, sessionId, env, 0) == state && !H.Arms(state, [], at, cap, sessionId, env, 0)
  {
  }

  lemma ServedRegs(s: World, t: World, sid: Sid, state: State, armed: bool)
    requires Served(s, t, sid, state, armed)
    ensures sid in s.objs && sid in t.objs && t.sessions == s.sessions
    ensures var x, y := s.objs[sid], t.objs[sid];
            && y.id == x.id && y.fd == x.fd && y.drops == x.drops && y.view == state.view && y.out == state.out
            && t.regs == if armed then SetWrite(s.regs, x.fd, true) else s.regs
  {
  }

  lemma InterestShows(interest: map<int, Events>, regs: map<int, Reg>, fd: int, armed: bool)
    requires fd in interest <==> fd in regs
    requires fd in regs ==> interest[fd].write == regs[fd].write
    ensures var i := H.Interested(interest, fd, READ_WRITE, armed);
            var r := if armed then SetWrite(regs, fd, true) else regs;
            (fd in i <==> fd in r) && (fd in r ==> i[fd].write == r[fd].write)
  {
  }
}

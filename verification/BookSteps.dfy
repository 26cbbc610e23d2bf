/**
 The server's own handlers, on its map of session objects, are runs of the two-thread machine.
 */
module BookSteps {
  import opened FdGuards
  import opened EpollLoops
  import opened Sessions
  import opened Service
  import opened Server
  import opened RtspServers
  import opened ReadSteps
  import O = ServerOwnership
  import P = Parser

  /** What a timeout check can see of the sessions in the server's map. */
  ghost function Seen(sessions: map<int, Session>): map<int, (Phase, nat)>
    reads sessions.Values
  {
    map fd | fd in sessions :: (sessions[fd].phase, sessions[fd].lastActivity)
  }

  ghost function SeenIn(s: World): map<int, (Phase, nat)> {
    map fd | fd in s.sessions && s.sessions[fd] in s.objs ::
      (s.objs[s.sessions[fd]].view.phase, s.objs[s.sessions[fd]].view.lastActivity)
  }

  datatype Books = Books(keys: set<int>, seen: map<int, (Phase, nat)>, total: nat, timedOut: nat)

  ghost function BooksOf(server: RtspServer): Books
    reads server, server.sessions.Values
  {
    Books(server.sessions.Keys, Seen(server.sessions), server.totalConnections, server.timedOutSessions)
  }

  ghost function BooksIn(s: World): Books {
    Books(s.sessions.Keys, SeenIn(s), s.total, s.timedOut)
  }

  /** The server's map and counters are those of the machine. */
  ghost predicate ShowsBooks(server: RtspServer, c: Config, s: World)
    reads server, server.sessions.Values
  {
    && server.maxSessions == c.maxSessions
    && server.connectionTimeout == c.connectionTimeout && server.sessionTimeout == c.sessionTimeout
    && BooksOf(server) == BooksIn(s)
  }

  /** Besides the machine's descriptors, `own` are open and watched: the listener and the timer. */
  ghost predicate KernelShows(open: set<int>, watched: set<int>, s: World, own: set<int>) {
    open == s.open + own && own !! s.open && watched == s.regs.Keys + own
  }

  ghost predicate ShowsKernel(server: RtspServer, s: World, own: set<int>)
    reads server, server.epoll, server.table
  {
    KernelShows(server.table.open, server.epoll.interest.Keys, s, own)
  }

  lemma KernelGrows(open: set<int>, watched: set<int>, s: World, t: World, own: set<int>, fd: int)
    requires KernelShows(open, watched, s, own) && SeenAfter(s, t, fd) && (fd >= 0 ==> fd !in open)
    ensures KernelShows(With(open, fd), With(watched, fd), t, own)
  {
    hide SeenIn, SeenWith;
    if fd >= 0 {
      PlusPlus(s.open, own, fd);
      PlusPlus(s.regs.Keys, own, fd);
    }
  }

  lemma PlusPlus(a: set<int>, b: set<int>, x: int)
    ensures (a + b) + {x} == (a + {x}) + b
  {
  }

  // ----- A new connection -----

  method ConnectStep(server: RtspServer, accepted: bool, watched: bool, id: string, now: nat,
                     ghost c: Config, ghost s: World, ghost own: set<int>)
    returns (fd: int, ghost actions: seq<Action>, ghost t: World)
    requires server.Valid() && O.Owned(s) && s.epoll == Idle && now == s.now
    requires ShowsBooks(server, c, s) && ShowsKernel(server, s, own)
    modifies server`sessions, server`totalConnections, server.epoll`interest, server.epoll`callbacks, server.table
    ensures server.Valid() && Leads(c, s, actions, t) && t.epoll == Idle
    ensures ShowsBooks(server, c, t) && ShowsKernel(server, t, own)
  {
    hide O.Owned, Leads, SeenIn, Seen, Admitted, RtspServer.Valid, EpollLoop.Valid, Session.TheView,
         KernelShows, SeenAfter, BooksIn, SeenWith, With;
    KernelIsOpen(server, s, own);
    SameBooks(server, c, s);
    AllKnown(s);
    ghost var open, watch := server.table.open, server.epoll.interest.Keys;
    ghost var any := FreshFd(server.table.open);
    fd := Connect(server, accepted, watched, id, now);
    if accepted {
      ghost var client := if fd >= 0 then fd else any;
      actions, t := Connecting(c, s, client, fd >= 0, id);
      if |s.sessions| < c.maxSessions { AdmittedCounts(s, t, client, fd >= 0); }
      if fd >= 0 { AdmittedShows(s, t, fd); } else { RefusedShows(s, t, client, fd); }
    } else {
      actions, t := [], s;
      LeadsNowhere(c, s);
      RefusedShows(s, s, any, fd);
    }
    KernelGrows(open, watch, s, t, own, fd);
    BooksGrow(c, s, t, fd, accepted);
  }

  lemma BooksGrow(c: Config, s: World, t: World, fd: int, accepted: bool)
    requires SeenAfter(s, t, fd)
    requires if accepted && |s.sessions| < c.maxSessions
             then t.total == s.total + 1 && t.timedOut == s.timedOut
             else t.total == s.total && t.timedOut == s.timedOut
    ensures BooksIn(t) == BooksAfter(BooksIn(s), fd, s.now, accepted && |s.sessions| < c.maxSessions)
  {
    hide SeenIn;
  }

  lemma AdmittedCounts(s: World, t: World, fd: int, watched: bool)
    requires Admitted(s, t, fd, watched)
    ensures t.epoll == Idle && t.total == s.total + 1 && t.timedOut == s.timedOut
  {
  }

  /** A set with `fd` in it, if that is a descriptor. */
  function With(s: set<int>, fd: int): set<int> {
    if fd >= 0 then s + {fd} else s
  }

  function SeenWith(seen: map<int, (Phase, nat)>, fd: int, now: nat): map<int, (Phase, nat)> {
    if fd >= 0 then seen[fd := (Init, now)] else seen
  }

  function BooksAfter(b: Books, fd: int, now: nat, counted: bool): Books {
    Books(With(b.keys, fd), SeenWith(b.seen, fd, now), if counted then b.total + 1 else b.total,
          b.timedOut)
  }

  /** The handler, in terms of what can be seen. */
  method Connect(server: RtspServer, accepted: bool, watched: bool, id: string, now: nat) returns (fd: int)
    requires server.Valid()
    modifies server`sessions, server`totalConnections, server.epoll`interest, server.epoll`callbacks, server.table
    ensures server.Valid() && (fd >= 0 ==> accepted && old(|server.sessions|) < server.maxSessions)
    ensures fd >= 0 ==> fd !in old(server.table.open)
    ensures server.totalConnections == old(server.totalConnections)
                                       + if accepted && old(|server.sessions|) < server.maxSessions then 1 else 0
    ensures server.sessions.Keys == With(old(server.sessions.Keys), fd)
    ensures Seen(server.sessions) == SeenWith(old(Seen(server.sessions)), fd, now)
    ensures server.table.open == With(old(server.table.open), fd)
    ensures server.epoll.interest.Keys == With(old(server.epoll.interest.Keys), fd)
  {
    hide Session.Valid, SoleOwners, Session.Holds, Session.TheView, EpollLoop.Valid, RtspServer.Valid, Seen,
         SeenWith, With;
    ghost var was, watch, open := server.sessions, server.epoll.interest, server.table.open;
    ghost var seen := Seen(was);
    fd := server.OnNewConnection(accepted, watched, id, now);
    if fd >= 0 {
      Grown(was, watch, open, fd, server.sessions[fd]);
      ViewShows(server.sessions[fd]);
    } else {
      NotGrown(was, watch, open, fd, now);
    }
  }

  lemma Grown(sessions: map<int, Session>, interest: map<int, Events>, open: set<int>, fd: int, x: Session)
    requires fd >= 0
    ensures sessions[fd := x].Keys == With(sessions.Keys, fd) && interest[fd := READ].Keys == With(interest.Keys, fd)
    ensures open + {fd} == With(open, fd)
    ensures x.phase == Init ==> Seen(sessions[fd := x]) == SeenWith(Seen(sessions), fd, x.lastActivity)
  {
    SeenGrows(sessions, fd, x);
    KeysGrow(interest, fd, READ);
  }

  lemma NotGrown(sessions: map<int, Session>, interest: map<int, Events>, open: set<int>, fd: int, now: nat)
    requires fd < 0
    ensures sessions.Keys == With(sessions.Keys, fd) && interest.Keys == With(interest.Keys, fd)
    ensures open == With(open, fd) && Seen(sessions) == SeenWith(Seen(sessions), fd, now)
  {
  }

  lemma ViewShows(x: Session)
    ensures x.phase == x.TheView().phase && x.lastActivity == x.TheView().lastActivity
  {
  }

  lemma KeysGrow<V>(m: map<int, V>, fd: int, v: V)
    ensures m[fd := v].Keys == m.Keys + {fd}
  {
  }

  lemma SeenGrows(sessions: map<int, Session>, fd: int, x: Session)
    ensures Seen(sessions[fd := x]) == Seen(sessions)[fd := (x.phase, x.lastActivity)]
    ensures sessions[fd := x].Keys == sessions.Keys + {fd}
  {
  }

  /** What the machine records, in terms of what can be seen. */
  ghost predicate SeenAfter(s: World, t: World, fd: int) {
    && t.sessions.Keys == With(s.sessions.Keys, fd)
    && t.open == With(s.open, fd) && t.regs.Keys == With(s.regs.Keys, fd)
    && SeenIn(t) == SeenWith(SeenIn(s), fd, s.now)
  }

  lemma RefusedShows(s: World, t: World, fd: int, none: int)
    requires (t == s || Admitted(s, t, fd, false)) && none < 0
    ensures SeenAfter(s, t, none)
  {
  }

  lemma AdmittedShows(s: World, t: World, fd: int)
    requires fd >= 0 && Admitted(s, t, fd, true) && forall g :: g in s.sessions ==> s.sessions[g] in s.objs
    ensures SeenAfter(s, t, fd)
  {
    var a, b := SeenIn(t), SeenIn(s)[fd := (Init, s.now)];
    forall g ensures (g in a <==> g in b) && (g in a ==> a[g] == b[g]) {
      if g != fd && g in s.sessions {
        assert t.sessions[g] == s.sessions[g] && s.sessions[g] != s.nextSid;
      }
    }
  }

  lemma SameBooks(server: RtspServer, c: Config, s: World)
    requires ShowsBooks(server, c, s)
    ensures |server.sessions| == |s.sessions|
  {
    hide Seen, SeenIn;
    assert |server.sessions| == |server.sessions.Keys| && |s.sessions| == |s.sessions.Keys|;
  }

  lemma KernelIsOpen(server: RtspServer, s: World, own: set<int>)
    requires server.Valid() && ShowsKernel(server, s, own)
    ensures s.open <= server.table.open
  {
  }

  lemma FreshFd(open: set<int>) returns (fd: int)
    ensures 0 <= fd && fd !in open
  {
    FreshFdExists(open);
    fd :| 0 <= fd && fd !in open;
  }

  /** What the machine records of an accepted connection that became a session, or did not. */
  ghost predicate Admitted(s: World, t: World, fd: int, watched: bool) {
    && t.epoll == Idle && t.total == s.total + 1 && t.timedOut == s.timedOut
    && if !watched then
         t.sessions == s.sessions && t.objs == s.objs && t.open == s.open && t.regs.Keys == s.regs.Keys
       else
         && fd !in s.sessions && t.sessions == s.sessions[fd := s.nextSid]
         && t.open == s.open + {fd} && t.regs.Keys == s.regs.Keys + {fd}
         && s.nextSid !in s.objs && s.nextSid in t.objs && t.objs == s.objs[s.nextSid := t.objs[s.nextSid]]
         && t.objs[s.nextSid].view == View(Init, "", "", false, s.now)
  }

  /** Accepted: refused at the limit, refused by the event loop, or inserted. */
  lemma Connecting(c: Config, s: World, fd: int, watched: bool, id: string) returns (actions: seq<Action>, t: World)
    requires O.Owned(s) && s.epoll == Idle && 0 <= fd && fd !in s.open
    ensures Leads(c, s, actions, t)
    ensures if |s.sessions| >= c.maxSessions then t == s else Admitted(s, t, fd, watched)
  {
    hide Leads, O.Owned, Next, Enabled;
    NewNumbers(s, fd);
    ConnectingIs(c, s, fd, watched, id);
    var s1 := Next(c, s, Accept(fd));
    if |s.sessions| >= c.maxSessions {
      actions, t := [Accept(fd)], s;
      LeadsOne(c, s, Accept(fd));
    } else {
      var s2 := Next(c, s1, Count);
      t := Next(c, s2, Register(watched));
      LeadsTwo(c, s, Accept(fd), Count);
      LeadsOne(c, s2, Register(watched));
      LeadsOn(c, s, [Accept(fd), Count], s2, [Register(watched)], t);
      actions := [Accept(fd), Count] + [Register(watched)];
      if watched {
        var u := Next(c, t, Insert(id));
        LeadsOne(c, t, Insert(id));
        LeadsOn(c, s, actions, t, [Insert(id)], u);
        actions, t := actions + [Insert(id)], u;
      }
    }
  }

  lemma ConnectingIs(c: Config, s: World, fd: int, watched: bool, id: string)
    requires s.epoll == Idle && 0 <= fd && fd !in s.open && fd !in s.regs && fd !in s.sessions && s.nextSid !in s.objs
    ensures Enabled(c, s, Accept(fd))
    ensures |s.sessions| >= c.maxSessions ==> Next(c, s, Accept(fd)) == s
    ensures |s.sessions| < c.maxSessions ==>
              var s1 := Next(c, s, Accept(fd));
              && Enabled(c, s1, Count)
              && var s2 := Next(c, s1, Count);
                 && Enabled(c, s2, Register(watched))
                 && var s3 := Next(c, s2, Register(watched));
                    if watched then Enabled(c, s3, Insert(id)) && Admitted(s, Next(c, s3, Insert(id)), fd, true)
                    else Admitted(s, s3, fd, false)
  {
    hide Next, Enabled, Admitted;
    AcceptIs(c, s, fd);
    if |s.sessions| < c.maxSessions {
      RegisterIs(c, s, Next(c, Next(c, s, Accept(fd)), Count), fd, watched);
      if watched {
        InsertIs(c, s, Next(c, Next(c, Next(c, s, Accept(fd)), Count), Register(true)), fd, id);
      }
    }
  }

  lemma AcceptIs(c: Config, s: World, fd: int)
    requires s.epoll == Idle && 0 <= fd && fd !in s.open
    ensures Enabled(c, s, Accept(fd))
    ensures |s.sessions| >= c.maxSessions ==> Next(c, s, Accept(fd)) == s
    ensures |s.sessions| < c.maxSessions ==>
              && Enabled(c, Next(c, s, Accept(fd)), Count)
              && Next(c, Next(c, s, Accept(fd)), Count)
                 == s.(open := s.open + {fd}, total := s.total + 1, epoll := Counted(fd, s.nextSid),
                       nextSid := s.nextSid + 1)
  {
  }

  lemma RegisterIs(c: Config, s: World, u: World, fd: int, watched: bool)
    requires u == s.(open := s.open + {fd}, total := s.total + 1, epoll := Counted(fd, s.nextSid),
                     nextSid := s.nextSid + 1)
    requires fd !in s.open && fd !in s.regs && s.epoll == Idle
    ensures Enabled(c, u, Register(watched))
    ensures var t := Next(c, u, Register(watched));
            if watched then
              t == u.(regs := s.regs[fd := Reg(s.nextSid, false)], epoll := Registered(fd, s.nextSid))
            else Admitted(s, t, fd, false)
  {
    assert s.open + {fd} - {fd} == s.open;
  }

  lemma InsertIs(c: Config, s: World, u: World, fd: int, id: string)
    requires u == s.(open := s.open + {fd}, total := s.total + 1, nextSid := s.nextSid + 1,
                     regs := s.regs[fd := Reg(s.nextSid, false)], epoll := Registered(fd, s.nextSid))
    requires fd !in s.sessions && s.nextSid !in s.objs
    ensures Enabled(c, u, Insert(id)) && Admitted(s, Next(c, u, Insert(id)), fd, true)
  {
    hide P.ParseMessage;
    assert u.regs.Keys == s.regs.Keys + {fd};
  }

  lemma NewNumbers(s: World, fd: int)
    requires O.Owned(s) && fd !in s.open
    ensures fd !in s.regs && fd !in s.sessions && s.nextSid !in s.objs
    ensures forall g :: g in s.sessions ==> s.sessions[g] in s.objs
  {
    assert forall sid :: sid in s.objs ==> O.SessOwned(s, sid);
  }

  // ----- A timeout check -----

  method TimeoutStep(server: RtspServer, ghost c: Config, ghost s: World, now: nat)
    returns (ghost actions: seq<Action>, ghost t: World)
    requires server.Valid() && O.Owned(s) && s.epoll == Idle && s.due && now == s.now
    requires ShowsBooks(server, c, s)
    modifies server`sessions, server`timedOutSessions, server.epoll`interest, server.epoll`callbacks
    ensures server.Valid() && Leads(c, s, actions, t) && t.epoll == Idle
    ensures ShowsBooks(server, c, t)
  {
    hide O.Owned, Leads, Session.Valid, EpollLoop.Valid, RtspServer.Valid, RtspServer.Expired, Seen, SeenIn,
         Expiring, Closed;
    ghost var was := server.sessions;
    ghost var gone := if c.connectionTimeout <= 0 && c.sessionTimeout <= 0 then {} else Expiring(c, s);
    AllKnown(s);
    ExpiredIsCollected(server, c, s);
    server.CheckTimeouts(now);
    SeenShrinks(was, gone);
    actions, t := Checking(c, s);
    ClosedShows(s, t, gone);
  }

  lemma SeenShrinks(sessions: map<int, Session>, gone: set<int>)
    ensures Seen(sessions - gone) == Seen(sessions) - gone && (sessions - gone).Keys == sessions.Keys - gone
  {
  }

  lemma ClosedShows(s: World, t: World, gone: set<int>)
    requires Closed(s, t, gone) && forall fd :: fd in s.sessions ==> s.sessions[fd] in s.objs
    ensures t.sessions.Keys == s.sessions.Keys - gone && SeenIn(t) == SeenIn(s) - gone
    ensures t.timedOut == s.timedOut + |gone|
  {
    var a, b := SeenIn(t), SeenIn(s) - gone;
    forall fd ensures (fd in a <==> fd in b) && (fd in a ==> a[fd] == b[fd]) {
      assert fd in t.sessions <==> fd in s.sessions.Keys - gone;
    }
  }

  lemma AllKnown(s: World)
    requires O.Owned(s)
    ensures forall fd :: fd in s.sessions ==> s.sessions[fd] in s.objs
  {
  }

  lemma ExpiredIsCollected(server: RtspServer, c: Config, s: World)
    requires ShowsBooks(server, c, s) && forall fd :: fd in s.sessions ==> s.sessions[fd] in s.objs
    ensures server.Expired(s.now) == Expiring(c, s)
  {
    hide IsTimedOut;
    forall fd | fd in s.sessions ensures fd in server.Expired(s.now) <==> fd in Expiring(c, s) {
      assert Seen(server.sessions)[fd] == SeenIn(s)[fd];
      var v := s.objs[s.sessions[fd]].view;
      SameTimeout(View(v.phase, "", "", false, v.lastActivity), v, c, s.now);
    }
  }

  lemma SameTimeout(v: View, w: View, c: Config, now: nat)
    requires v.phase == w.phase && v.lastActivity == w.lastActivity
    ensures IsTimedOut(v, c.connectionTimeout, c.sessionTimeout, now)
         == IsTimedOut(w, c.connectionTimeout, c.sessionTimeout, now)
  {
  }

  /** What the machine's scan collects. */
  ghost function Expiring(c: Config, s: World): set<int> {
    set fd | fd in s.sessions && s.sessions[fd] in s.objs && Collected(c, s.objs[s.sessions[fd]], s.now)
  }

  lemma Checking(c: Config, s: World) returns (actions: seq<Action>, t: World)
    requires s.epoll == Idle && s.due && forall fd :: fd in s.sessions ==> s.sessions[fd] in s.objs
    ensures Leads(c, s, actions, t) && t.epoll == Idle && t.total == s.total
    ensures Closed(s, t, if c.connectionTimeout <= 0 && c.sessionTimeout <= 0 then {} else Expiring(c, s))
  {
    hide Leads, Next, Enabled, Collected, Closed, Expiring;
    ScanIs(c, s);
    var u := Next(c, s, Scan);
    LeadsOne(c, s, Scan);
    if c.connectionTimeout <= 0 && c.sessionTimeout <= 0 {
      actions, t := [Scan], u;
      NothingClosed(s, u);
    } else {
      var a;
      a, t := ClosingAll(c, u);
      LeadsOn(c, s, [Scan], u, a, t);
      actions := [Scan] + a;
      ClosedSince(s, u, t, Expiring(c, s));
    }
  }

  lemma ScanIs(c: Config, s: World)
    requires s.epoll == Idle && s.due
    ensures Enabled(c, s, Scan)
    ensures var u := Next(c, s, Scan);
            && u.sessions == s.sessions && u.objs == s.objs && u.timedOut == s.timedOut && u.total == s.total
            && u.epoll == if c.connectionTimeout <= 0 && c.sessionTimeout <= 0 then Idle else Closing(Expiring(c, s))
    ensures Expiring(c, s) <= s.sessions.Keys
  {
    hide Collected;
  }

  /** Exactly `gone` have left the map, each counted once. */
  ghost predicate Closed(s: World, t: World, gone: set<int>) {
    && t.sessions.Keys == s.sessions.Keys - gone && t.timedOut == s.timedOut + |gone|
    && forall fd :: fd in t.sessions ==>
         && t.sessions[fd] == s.sessions[fd] && s.sessions[fd] in s.objs && t.sessions[fd] in t.objs
         && t.objs[t.sessions[fd]] == s.objs[s.sessions[fd]]
  }

  lemma NothingClosed(s: World, t: World)
    requires t.sessions == s.sessions && t.objs == s.objs && t.timedOut == s.timedOut
    requires forall fd :: fd in s.sessions ==> s.sessions[fd] in s.objs
    ensures Closed(s, t, {})
  {
  }

  lemma ClosedSince(s: World, u: World, t: World, gone: set<int>)
    requires u.sessions == s.sessions && u.objs == s.objs && u.timedOut == s.timedOut && Closed(u, t, gone)
    ensures Closed(s, t, gone)
  {
  }

  lemma ClosedOneMore(s: World, u: World, t: World, fd: int, rest: set<int>)
    requires Closed(s, u, {fd}) && Closed(u, t, rest) && fd !in rest
    ensures Closed(s, t, rest + {fd})
  {
    assert |rest + {fd}| == |rest| + 1;
  }

  lemma {:induction false} ClosingAll(c: Config, s: World) returns (actions: seq<Action>, t: World)
    requires s.epoll.Closing? && s.epoll.todo <= s.sessions.Keys
    requires forall fd :: fd in s.sessions ==> s.sessions[fd] in s.objs
    ensures Leads(c, s, actions, t) && t.epoll == Idle && t.total == s.total
    ensures Closed(s, t, s.epoll.todo)
    decreases |s.epoll.todo|
  {
    hide Leads, Next, Enabled, Closed;
    var todo := s.epoll.todo;
    if exists fd: int :: fd in todo {
      var fd: int :| fd in todo;
      OneCloses(c, s, fd);
      var u := Next(c, Next(c, s, CountTimeout(fd)), CloseTimedOut);
      LeadsTwo(c, s, CountTimeout(fd), CloseTimedOut);
      var a;
      a, t := ClosingAll(c, u);
      LeadsOn(c, s, [CountTimeout(fd), CloseTimedOut], u, a, t);
      actions := [CountTimeout(fd), CloseTimedOut] + a;
      ClosedOneMore(s, u, t, fd, todo - {fd});
      assert todo - {fd} + {fd} == todo;
    } else {
      assert todo == {};
      DoneIs(c, s);
      LeadsOne(c, s, ScanDone);
      actions, t := [ScanDone], Next(c, s, ScanDone);
      NothingClosed(s, t);
    }
  }

  lemma DoneIs(c: Config, s: World)
    requires s.epoll == Closing({})
    ensures Enabled(c, s, ScanDone) && Next(c, s, ScanDone) == s.(epoll := Idle)
  {
  }

  lemma OneCloses(c: Config, s: World, fd: int)
    requires s.epoll.Closing? && fd in s.epoll.todo && s.epoll.todo <= s.sessions.Keys
    requires forall g :: g in s.sessions ==> s.sessions[g] in s.objs
    ensures Enabled(c, s, CountTimeout(fd)) && Enabled(c, Next(c, s, CountTimeout(fd)), CloseTimedOut)
    ensures var u := Next(c, Next(c, s, CountTimeout(fd)), CloseTimedOut);
            && u.epoll == Closing(s.epoll.todo - {fd}) && u.total == s.total && u.sessions == s.sessions - {fd}
            && Closed(s, u, {fd}) && forall g :: g in u.sessions ==> u.sessions[g] in u.objs
  {
    hide DeadFds, Live;
    var v := CloseConnection(Next(c, s, CountTimeout(fd)), fd).(epoll := Closing(s.epoll.todo - {fd}));
    O.MappedAreLive(v);
    assert forall g :: g in v.sessions ==> v.sessions[g] == s.sessions[g];
  }
}

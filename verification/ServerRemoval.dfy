/**
 Which sessions a timeout scan removes, over whole runs; in particular when a marked slow client goes.
 */
module ServerRemoval {
  import opened Bytes
  import opened Builder
  import opened Service
  import opened Transport
  import opened Framing
  import opened Forwarder
  import opened Server
  import opened ServerRuns
  import O = ServerOwnership
  import I = ServerIdle
  import R = ServerReplies
  import S = Sessions
  import P = Parser

  /** The phase that a step gives to session `sid`, if it sets one: the end of a handler, or a slow-client mark. */
  function NewPhase(c: Config, s: World, a: Action, sid: Sid): Option<Phase>
    requires Enabled(c, s, a)
  {
    if a.Finish? && s.epoll.sid == sid then s.epoll.newPhase
    else if a.Forward? && s.stream.queue[0] == sid && s.dropped < Next(c, s, a).dropped then Some(Phase.Teardown)
    else None
  }

  /** A session that is still in the map has the phase `p`, or its old one. */
  ghost predicate PhaseIs(s: World, t: World, sid: Sid, p: Option<Phase>) {
    sid in Mapped(t) ==>
      && sid in Mapped(s) && sid in s.objs && sid in t.objs
      && t.objs[sid].view.phase == match p { case Some(q) => q case None => s.objs[sid].view.phase }
  }

  // ----- Steps -----

  lemma SameMapped(s: World, t: World)
    requires t.sessions == s.sessions
    ensures Mapped(t) == Mapped(s)
  {
  }

  lemma FewerMapped(s: World, t: World)
    requires forall fd :: fd in t.sessions ==> fd in s.sessions && t.sessions[fd] == s.sessions[fd]
    ensures Mapped(t) <= Mapped(s)
  {
  }

  lemma MappedIsObject(s: World, sid: Sid)
    requires O.Owned(s) && sid in Mapped(s)
    ensures sid in s.objs
  {
    hide O.SessionsOwned, O.RegsOwned, O.StreamOwned, O.PendingOwned, Live;
  }

  /** Steps after which the map holds no more, and which leave the objects alone or drop some. */
  lemma FewerPhases(s: World, t: World, sid: Sid)
    requires forall fd :: fd in t.sessions ==> fd in s.sessions && t.sessions[fd] == s.sessions[fd]
    requires sid in Mapped(s) ==> sid in s.objs && (sid in Mapped(t) ==> sid in t.objs)
    requires sid in Mapped(t) && sid in s.objs && sid in t.objs ==> t.objs[sid].view.phase == s.objs[sid].view.phase
    ensures PhaseIs(s, t, sid, None)
  {
    hide Mapped;
    FewerMapped(s, t);
  }

  lemma ReapPhases(s: World, sid: Sid)
    requires sid in Mapped(s) ==> sid in s.objs
    ensures PhaseIs(s, Reap(s), sid, None)
  {
    hide Mapped, DeadFds;
    SameMapped(s, Reap(s));
  }

  lemma ThenReaped(s: World, t: World, sid: Sid, p: Option<Phase>)
    requires PhaseIs(s, t, sid, p)
    ensures PhaseIs(s, Reap(t), sid, p)
  {
    hide Mapped, Reap;
    ReapPhases2(t, sid);
  }

  lemma ReapPhases2(s: World, sid: Sid)
    ensures Mapped(Reap(s)) == Mapped(s)
    ensures sid in Mapped(s) && sid in s.objs ==> sid in Reap(s).objs && Reap(s).objs[sid] == s.objs[sid]
  {
    hide Mapped, DeadFds;
    SameMapped(s, Reap(s));
  }

  lemma InsertPhases(c: Config, s: World, id: string, sid: Sid)
    requires O.Owned(s) && Enabled(c, s, Insert(id)) && !R.Unborn(s, sid)
    ensures PhaseIs(s, NextInsert(s, id), sid, None)
  {
    hide O.Owned;
    var t := NextInsert(s, id);
    if sid in Mapped(t) {
      var fd :| fd in t.sessions && t.sessions[fd] == sid;
      assert fd in s.sessions && s.sessions[fd] == sid;
      MappedIsObject(s, sid);
    }
  }

  lemma RequestPhases(c: Config, s: World, a: Action, sid: Sid)
    requires O.Owned(s) && Enabled(c, s, a) && (a.Respond? || a.Finish? || a.Ignore?)
    ensures PhaseIs(s, Next(c, s, a), sid, NewPhase(c, s, a, sid))
  {
    hide O.Owned, Mapped, P.ParseMessage, Answer, PhaseSet, SetWrite;
    if a.Respond? {
      I.AnswerIsActive(c, s.objs[s.epoll.sid], P.ParseMessage(a.handed).value, a.env, a.udp);
    }
    SameMapped(s, Next(c, s, a));
    if sid in Mapped(s) { MappedIsObject(s, sid); }
  }

  lemma WritePhases(c: Config, s: World, fd: int, k: Kernel, sid: Sid)
    requires O.Owned(s) && Enabled(c, s, WriteEvent(fd, k))
    ensures PhaseIs(s, NextWrite(c, s, fd, k), sid, None)
  {
    hide O.Owned, Mapped, Do, Reap, SetWrite, PhaseIs;
    var x := s.objs[s.sessions[fd]];
    var t := PutSess(s, s.sessions[fd], Do(c, x, FlushOp(k)));
    I.DoKeepsView(c, x, FlushOp(k));
    if sid in Mapped(s) { MappedIsObject(s, sid); }
    var u := EndConnection(t, fd);
    FewerMapped(s, u);
    FewerPhases(s, u, sid);
    ThenReaped(s, u, sid, None);
    SameMapped(s, t.(regs := SetWrite(t.regs, fd, false)));
    SameMapped(s, t);
    FewerPhases(s, t.(regs := SetWrite(t.regs, fd, false)), sid);
    FewerPhases(s, t, sid);
  }

  lemma ForwardPhases(c: Config, s: World, k: Kernel, udpSent: bool, sid: Sid)
    requires O.Owned(s) && Enabled(c, s, Forward(k, udpSent))
    ensures PhaseIs(s, Next(c, s, Forward(k, udpSent)), sid, NewPhase(c, s, Forward(k, udpSent), sid))
  {
    hide O.Owned, Mapped, Forwarded1, ForwardSucceeds;
    var x, number := s.objs[s.stream.queue[0]], |s.packets| - 1;
    O.ForwardFds(c, x, s.packets[number], number, s.now, k);
    SameMapped(s, NextForward(c, s, k, udpSent));
    if sid in Mapped(s) { MappedIsObject(s, sid); }
  }

  lemma ClosingPhases(c: Config, s: World, a: Action, sid: Sid)
    requires O.Owned(s) && Enabled(c, s, a)
    requires a.EndRead? || a.ErrorEvent? || a.CloseTimedOut? || a.EndBroadcast?
    ensures PhaseIs(s, Next(c, s, a), sid, None)
  {
    hide O.Owned, Mapped, Reap, P.ParseMessage, NextInsert, NextRespond, NextFinish, NextWrite, NextForward,
         NextScan, NextStop, PhaseIs;
    if sid in Mapped(s) { MappedIsObject(s, sid); }
    var u := match a
             case EndRead(close) => (if close then EndConnection(s, s.objs[s.epoll.sid].fd) else s).(epoll := Idle)
             case ErrorEvent(fd) => EndConnection(s, fd)
             case CloseTimedOut => CloseConnection(s, s.epoll.closing).(epoll := Closing(s.epoll.todo))
             case _ => s.(stream := Quiet);
    FewerMapped(s, u);
    FewerPhases(s, u, sid);
    ThenReaped(s, u, sid, None);
  }

  lemma StopPhases(s: World, sid: Sid)
    ensures PhaseIs(s, NextStop(s), sid, None)
  {
    hide Reap, PhaseIs;
    O.StopIsReap(s);
    var u := Forgotten(s).(ended := NextStop(s).ended);
    assert Mapped(u) == {};
    NobodyMapped(s, u, sid);
    ThenReaped(s, u, sid, None);
  }

  lemma NobodyMapped(s: World, t: World, sid: Sid)
    requires Mapped(t) == {}
    ensures PhaseIs(s, t, sid, None)
  {
    hide Mapped;
  }

  lemma PlainPhases(c: Config, s: World, a: Action, sid: Sid)
    requires O.Owned(s) && Enabled(c, s, a)
    requires a.Accept? || a.Count? || a.Register? || a.StartRead? || a.Scan? || a.CountTimeout? || a.ScanDone?
             || a.Snapshot? || a.Arm? || a.StopFlag? || a.Second? || a.Expiry?
    ensures PhaseIs(s, Next(c, s, a), sid, None)
  {
    hide O.Owned, Mapped, Collected, PlayingSessions, P.ParseMessage, NextInsert, NextRespond, NextFinish,
         NextWrite, NextForward, NextStop, Reap, EndConnection, CloseConnection, SetWrite;
    SameMapped(s, Next(c, s, a));
    if sid in Mapped(s) { MappedIsObject(s, sid); }
  }

  /** Every step: who is in the map after it was in it before, and has the phase that the step set or its old one. */
  lemma StepPhases(c: Config, s: World, a: Action, sid: Sid)
    requires O.Owned(s) && Enabled(c, s, a) && !R.Unborn(s, sid)
    ensures PhaseIs(s, Next(c, s, a), sid, NewPhase(c, s, a, sid))
  {
    hide O.Owned, PhaseIs, Reap, P.ParseMessage, NextInsert, NextRespond, NextFinish, NextWrite, NextForward,
         NextStop, NextScan, EndConnection, CloseConnection, R.Unborn;
    match a
    case Insert(id) => InsertPhases(c, s, id, sid);
    case Respond(_, _, _) => RequestPhases(c, s, a, sid);
    case Finish => RequestPhases(c, s, a, sid);
    case Ignore(_) => RequestPhases(c, s, a, sid);
    case WriteEvent(fd, k) => WritePhases(c, s, fd, k, sid);
    case Forward(k, udpSent) => ForwardPhases(c, s, k, udpSent, sid);
    case EndRead(_) => ClosingPhases(c, s, a, sid);
    case ErrorEvent(_) => ClosingPhases(c, s, a, sid);
    case CloseTimedOut => ClosingPhases(c, s, a, sid);
    case EndBroadcast => ClosingPhases(c, s, a, sid);
    case StopClear => StopPhases(s, sid);
    case _ => PlainPhases(c, s, a, sid);
  }

  // ----- From one scan to its end -----

  predicate IsClosing(s: World) {
    s.epoll.Closing? || s.epoll.ClosingOne?
  }

  /** The session is out of the map, or the running scan has collected it. */
  ghost predicate Doomed(s: World, sid: Sid) {
    !R.Unborn(s, sid) && forall fd :: fd in s.sessions && s.sessions[fd] == sid ==> fd in I.BeingClosed(s.epoll)
  }

  /** The session is in the map under `fd`, and the running scan has not collected it. */
  ghost predicate Spared(s: World, sid: Sid, fd: int) {
    fd in s.sessions && s.sessions[fd] == sid && fd !in I.BeingClosed(s.epoll)
  }

  /** While a scan runs, its own steps aside, nobody touches the map or the scan but `Stop`. */
  lemma ScanGoesOn(c: Config, s: World, a: Action)
    requires Enabled(c, s, a) && IsClosing(s) && !a.StopClear?
    ensures var t := Next(c, s, a);
            match a {
              case CountTimeout(fd) => t.sessions == s.sessions && I.BeingClosed(t.epoll) == I.BeingClosed(s.epoll)
              case CloseTimedOut =>
                && (forall fd :: fd in t.sessions <==> fd in s.sessions && fd != s.epoll.closing)
                && (forall fd :: fd in t.sessions ==> t.sessions[fd] == s.sessions[fd])
                && I.BeingClosed(t.epoll) == s.epoll.todo
              case _ => t.sessions == s.sessions && I.BeingClosed(t.epoll) == I.BeingClosed(s.epoll)
            }
  {
    hide P.ParseMessage, NextInsert, NextRespond, NextFinish, NextWrite, NextScan, NextStop, EndConnection,
         Live, DeadFds, Forwarded1, ForwardSucceeds, Collected, PlayingSessions, SetWrite;
  }

  lemma StopForgets(s: World)
    ensures NextStop(s).sessions == map[]
  {
    hide Mapped, Stopped, Live, DeadFds, Todo, InClosing;
  }

  /** Outside a scan, too, the map only loses sessions, except for a new one. */
  lemma MapOnlyShrinks(c: Config, s: World, a: Action, fd: int)
    requires Enabled(c, s, a) && fd in Next(c, s, a).sessions
    ensures (fd in s.sessions && Next(c, s, a).sessions[fd] == s.sessions[fd])
            || R.Unborn(s, Next(c, s, a).sessions[fd])
  {
    hide P.ParseMessage, Answer, PhaseSet, Forwarded1, ForwardSucceeds, Reap, NextWrite, NextStop,
         EndConnection, CloseConnection, Collected, PlayingSessions, SetWrite;
    match a
    case EndRead(_) =>
      EndingMap(s, s.objs[s.epoll.sid].fd, Idle);
      ReapMap(s.(epoll := Idle));
    case ErrorEvent(g) => EndingMap(s, g, Idle);
    case CloseTimedOut => EndingMap(s, s.epoll.closing, Closing(s.epoll.todo));
    case EndBroadcast => ReapMap(s.(stream := Quiet));
    case StopClear => StopForgets(s);
    case WriteEvent(g, k) => WriteMap(c, s, g, k);
    case _ =>
  }

  lemma ReapMap(s: World)
    ensures Reap(s).sessions == s.sessions
  {
    hide Live, DeadFds;
  }

  ghost predicate FewerThan(t: World, s: World) {
    forall fd :: fd in t.sessions ==> fd in s.sessions && t.sessions[fd] == s.sessions[fd]
  }

  lemma EndingMap(s: World, fd: int, pc: EpollPc)
    ensures FewerThan(Reap(EndConnection(s, fd)), s)
    ensures FewerThan(Reap(EndConnection(s, fd).(epoll := pc)), s)
    ensures FewerThan(Reap(CloseConnection(s, fd).(epoll := pc)), s)
  {
    hide Reap;
    ReapMap(EndConnection(s, fd));
    ReapMap(EndConnection(s, fd).(epoll := pc));
    ReapMap(CloseConnection(s, fd).(epoll := pc));
  }

  lemma WriteMap(c: Config, s: World, fd: int, k: Kernel)
    requires Enabled(c, s, WriteEvent(fd, k))
    ensures FewerThan(NextWrite(c, s, fd, k), s)
  {
    hide Reap, Do, SetWrite, EndConnection, CloseConnection;
    EndingMap(PutSess(s, s.sessions[fd], Do(c, s.objs[s.sessions[fd]], FlushOp(k))), fd, Idle);
  }

  lemma StepKeepsDoomed(c: Config, s: World, a: Action, sid: Sid)
    requires O.Owned(s) && Doomed(s, sid) && Enabled(c, s, a)
    ensures Doomed(Next(c, s, a), sid)
  {
    hide O.Owned, Next, Enabled, R.Unborn;
    var t := Next(c, s, a);
    R.UnbornWasUnborn(c, s, a, sid);
    forall fd | fd in t.sessions && t.sessions[fd] == sid ensures fd in I.BeingClosed(t.epoll) {
      MapOnlyShrinks(c, s, a, fd);
      assert fd in I.BeingClosed(s.epoll);
      if a.StopClear? { StopIsNext(c, s); } else { ScanGoesOn(c, s, a); }
    }
  }

  lemma StopIsNext(c: Config, s: World)
    requires Enabled(c, s, StopClear)
    ensures Next(c, s, StopClear).sessions == map[]
  {
    hide NextStop;
    StopForgets(s);
  }

  lemma StepSpares(c: Config, s: World, a: Action, sid: Sid, fd: int)
    requires Spared(s, sid, fd) && IsClosing(s) && Enabled(c, s, a) && !a.StopClear?
    ensures Spared(Next(c, s, a), sid, fd)
  {
    hide Next, Enabled;
    ScanGoesOn(c, s, a);
    if a.CloseTimedOut? { ClosingIsClosing(c, s); }
  }

  lemma ClosingIsClosing(c: Config, s: World)
    requires Enabled(c, s, CloseTimedOut)
    ensures s.epoll.ClosingOne? && s.epoll.closing in I.BeingClosed(s.epoll) && s.epoll.todo <= I.BeingClosed(s.epoll)
  {
  }

  /** A scan collects exactly the sessions in teardown and those that have timed out. */
  lemma ScanDecides(c: Config, s: World, sid: Sid)
    requires O.Owned(s) && Enabled(c, s, Scan) && (c.connectionTimeout > 0 || c.sessionTimeout > 0)
    requires sid in s.objs
    ensures Collected(c, s.objs[sid], s.now) ==> Doomed(Next(c, s, Scan), sid)
    ensures sid in Mapped(s) && !Collected(c, s.objs[sid], s.now) ==>
              s.objs[sid].fd in s.sessions && Spared(Next(c, s, Scan), sid, s.objs[sid].fd)
  {
    hide Collected, O.RegsOwned, O.StreamOwned, O.PendingOwned, Live;
    assert O.SessOwned(s, sid);
  }

  lemma DoomedIsGone(s: World, sid: Sid)
    requires Doomed(s, sid) && !IsClosing(s)
    ensures sid !in Mapped(s)
  {
  }

  // ----- Runs -----

  lemma {:induction false} RunKeepsDoomed(c: Config, states: seq<World>, actions: seq<Action>, i: nat, j: nat, sid: Sid)
    requires IsRun(c, states, actions) && i <= j < |states| && Doomed(states[i], sid)
    ensures Doomed(states[j], sid)
    decreases j - i
  {
    hide Doomed, Enabled, Next, O.Owned;
    if i < j {
      RunKeepsDoomed(c, states, actions, i, j - 1, sid);
      O.ReachableIsOwned(c, states, actions, j - 1);
      StepKeepsDoomed(c, states[j - 1], actions[j - 1], sid);
    }
  }

  lemma {:induction false} RunSpares(c: Config, states: seq<World>, actions: seq<Action>, i: nat, j: nat,
                                     sid: Sid, fd: int)
    requires IsRun(c, states, actions) && i <= j < |states| && Spared(states[i], sid, fd)
    requires forall m :: i <= m < j ==> IsClosing(states[m]) && !actions[m].StopClear?
    ensures Spared(states[j], sid, fd)
    decreases j - i
  {
    hide Spared, Enabled, Next, IsClosing;
    if i < j {
      RunSpares(c, states, actions, i, j - 1, sid, fd);
      StepSpares(c, states[j - 1], actions[j - 1], sid, fd);
    }
  }

  /** No step in between sets the session's phase. */
  ghost predicate PhaseUntouched(c: Config, states: seq<World>, actions: seq<Action>, i: nat, j: nat, sid: Sid)
    requires IsRun(c, states, actions) && j < |states|
  {
    forall m :: i <= m < j ==> NewPhase(c, states[m], actions[m], sid) == None
  }

  lemma {:induction false} RunKeepsPhase(c: Config, states: seq<World>, actions: seq<Action>, i: nat, j: nat, sid: Sid)
    requires IsRun(c, states, actions) && i <= j < |states| && sid in states[i].objs && sid in Mapped(states[j])
    requires PhaseUntouched(c, states, actions, i, j, sid)
    ensures sid in states[j].objs && states[j].objs[sid].view.phase == states[i].objs[sid].view.phase
    decreases j - i
  {
    hide Enabled, Next, O.Owned, Mapped, NewPhase, R.Unborn;
    if i < j {
      O.ReachableIsOwned(c, states, actions, i);
      KnownIsBorn(states[i], sid);
      RunStaysBorn(c, states, actions, i, j - 1, sid);
      O.ReachableIsOwned(c, states, actions, j - 1);
      StepPhases(c, states[j - 1], actions[j - 1], sid);
      RunKeepsPhase(c, states, actions, i, j - 1, sid);
    }
  }

  lemma KnownIsBorn(s: World, sid: Sid)
    requires O.Owned(s) && sid in s.objs
    ensures !R.Unborn(s, sid)
  {
    hide O.RegsOwned, O.MapOwned, O.StreamOwned, Live;
    assert O.SessOwned(s, sid);
  }

  lemma {:induction false} RunStaysBorn(c: Config, states: seq<World>, actions: seq<Action>, i: nat, j: nat, sid: Sid)
    requires IsRun(c, states, actions) && i <= j < |states| && !R.Unborn(states[i], sid)
    ensures !R.Unborn(states[j], sid)
    decreases j - i
  {
    hide Enabled, Next, R.Unborn;
    if i < j {
      RunStaysBorn(c, states, actions, i, j - 1, sid);
      R.UnbornWasUnborn(c, states[j - 1], actions[j - 1], sid);
    }
  }

  /**
   Removal, exactly: a session that is in the map when the scan at step `p` begins, and whose phase was last set
   before state `q`, is in the map when that scan is over if and only if that phase is not teardown and the session
   has not timed out at the scan.
   */
  lemma ScanRemovesExactly(c: Config, states: seq<World>, actions: seq<Action>, q: nat, p: nat, j: nat, sid: Sid)
    requires IsRun(c, states, actions) && q <= p < j < |states|
    requires c.connectionTimeout > 0 || c.sessionTimeout > 0
    requires sid in states[q].objs && PhaseUntouched(c, states, actions, q, p, sid)
    requires actions[p].Scan? && sid in Mapped(states[p])
    requires (forall m :: p < m < j ==> IsClosing(states[m]) && !actions[m].StopClear?) && !IsClosing(states[j])
    ensures sid in states[p].objs
    ensures sid in Mapped(states[j]) <==>
              && states[q].objs[sid].view.phase != Phase.Teardown
              && !S.IsTimedOut(states[p].objs[sid].view, c.connectionTimeout, c.sessionTimeout, states[p].now)
  {
    hide Enabled, Next, O.Owned, Mapped, Doomed, Spared, IsClosing, PhaseUntouched, S.IsTimedOut;
    RunKeepsPhase(c, states, actions, q, p, sid);
    O.ReachableIsOwned(c, states, actions, p);
    ScanDecides(c, states[p], sid);
    if Collected(c, states[p].objs[sid], states[p].now) {
      RunKeepsDoomed(c, states, actions, p + 1, j, sid);
      DoomedIsGone(states[j], sid);
    } else {
      var fd := states[p].objs[sid].fd;
      RunSpares(c, states, actions, p + 1, j, sid, fd);
      SparedIsMapped(states[j], sid, fd);
    }
  }

  lemma SparedIsMapped(s: World, sid: Sid, fd: int)
    requires Spared(s, sid, fd)
    ensures sid in Mapped(s)
  {
  }

  /** A request of the client that gives its session another phase than teardown. */
  predicate Saves(c: Config, s: World, a: Action, sid: Sid)
    requires Enabled(c, s, a)
  {
    NewPhase(c, s, a, sid).Some? && NewPhase(c, s, a, sid) != Some(Phase.Teardown)
  }

  lemma {:induction false} RunStaysMarked(c: Config, states: seq<World>, actions: seq<Action>, i: nat, j: nat, sid: Sid)
    requires IsRun(c, states, actions) && i <= j < |states| && !R.Unborn(states[i], sid)
    requires sid in Mapped(states[i]) ==> sid in states[i].objs && states[i].objs[sid].view.phase == Phase.Teardown
    requires forall m :: i <= m < j ==> !Saves(c, states[m], actions[m], sid)
    ensures sid in Mapped(states[j]) ==> sid in states[j].objs && states[j].objs[sid].view.phase == Phase.Teardown
    decreases j - i
  {
    hide Enabled, Next, O.Owned, Mapped, NewPhase, R.Unborn;
    if i < j {
      RunStaysMarked(c, states, actions, i, j - 1, sid);
      RunStaysBorn(c, states, actions, i, j - 1, sid);
      O.ReachableIsOwned(c, states, actions, j - 1);
      StepPhases(c, states[j - 1], actions[j - 1], sid);
      assert !Saves(c, states[j - 1], actions[j - 1], sid);
    }
  }

  /**
   A slow client that step `i` marks is out of the map whenever a timeout scan that began later, at step `p`, is
   over, unless between the two a request of that client has given its session another phase than teardown.
   */
  lemma MarkedIsRemoved(c: Config, states: seq<World>, actions: seq<Action>, i: nat, p: nat, j: nat)
    requires IsRun(c, states, actions) && i < p < j < |states|
    requires c.connectionTimeout > 0 || c.sessionTimeout > 0
    requires actions[i].Forward? && states[i].dropped < states[i + 1].dropped
    requires actions[p].Scan? && !IsClosing(states[j])
    requires forall m :: i < m < p ==> !Saves(c, states[m], actions[m], states[i].stream.queue[0])
    ensures states[i].stream.queue[0] !in Mapped(states[j])
  {
    hide Next, O.Owned, Mapped, Doomed, IsClosing, Saves, R.Unborn;
    var sid := states[i].stream.queue[0];
    O.ReachableIsOwned(c, states, actions, i);
    KnownIsBorn(states[i], sid);
    R.UnbornWasUnborn(c, states[i], actions[i], sid);
    StepPhases(c, states[i], actions[i], sid);
    RunStaysMarked(c, states, actions, i + 1, p, sid);
    RunStaysBorn(c, states, actions, i + 1, p, sid);
    O.ReachableIsOwned(c, states, actions, p);
    ScanDooms(c, states[p], sid);
    RunKeepsDoomed(c, states, actions, p + 1, j, sid);
    DoomedIsGone(states[j], sid);
  }

  lemma ScanDooms(c: Config, s: World, sid: Sid)
    requires O.Owned(s) && Enabled(c, s, Scan) && (c.connectionTimeout > 0 || c.sessionTimeout > 0)
    requires !R.Unborn(s, sid)
    requires sid in Mapped(s) ==> sid in s.objs && s.objs[sid].view.phase == Phase.Teardown
    ensures Doomed(Next(c, s, Scan), sid)
  {
    hide O.Owned;
    var t := NextScan(c, s);
    forall fd | fd in s.sessions && s.sessions[fd] == sid ensures fd in t.epoll.todo {
      assert sid in Mapped(s);
    }
  }

  // ----- The exception -----

  /** The client plays, and `n` forwards to it have failed. */
  lemma {:induction false} ClientIsSlow(c: Config, n: nat) returns (x: Sess, p: Past)
    requires c.maxSessions > 0 && n <= MAX_CONSECUTIVE_DROPS
    ensures Reachable(c, Alone(x, false, Idle, Quiet, p)) && x.udp == {} && x.fd == 3
    ensures x.drops == n && x.out.buf == [] && !x.view.isUdp && x.phaseScan == 0
    ensures x.view.phase == if n < MAX_CONSECUTIVE_DROPS then Playing else Phase.Teardown
    ensures p.now == 0 && !p.due && p.scans == 0 && p.dropped == if n < MAX_CONSECUTIVE_DROPS then 0 else 1
    decreases n
  {
    hide Reachable, Forwarded1, ForwardSucceeds;
    if n == 0 {
      x := ClientPlays(c);
      p := FRESH;
    } else {
      var packet := Packet(['x'], 0);
      var y, q := ClientIsSlow(c, n - 1);
      ClientIsForwarded(c, y, false, q, packet, Failed);
      ForwardFails(c, y, packet, |q.packets|, q.now);
      var after := AfterPacket(c, y, q, packet, Failed);
      x, p := after.0, after.1;
      BroadcastEnds(c, x, false, p);
    }
  }

  lemma ClientPlays(c: Config) returns (x: Sess)
    requires c.maxSessions > 0
    ensures Reachable(c, Alone(x, false, Idle, Quiet, FRESH)) && x.udp == {} && x.fd == 3
    ensures x.drops == 0 && x.out.buf == [] && x.view.phase == Playing && !x.view.isUdp && x.phaseScan == 0
  {
    hide Reachable, P.ParseMessage, RequestOf, ReplyBytes;
    var env := Outside(Failed, "", 0);
    ClientConnects(c);
    RequestIsUnderstood(P.Play, 1);
    ClientAsks(c, NewClient(), false, FRESH, RequestOf(P.Play, 1), env);
    AfterPlay(c, NewClient(), P.ParseMessage(RequestOf(P.Play, 1)).value, env, 0);
    x := AfterRequest(c, NewClient(), P.ParseMessage(RequestOf(P.Play, 1)).value, env, 0);
  }

  /** A forward into an empty buffer that the kernel refuses: nothing changes but what is counted. */
  lemma ForwardFails(c: Config, x: Sess, packet: Packet, number: nat, now: nat)
    requires ValidPacket(packet) && !x.view.isUdp && x.out.buf == []
    ensures !ForwardSucceeds(c, x, packet, Failed, false)
    ensures var y := Forwarded1(c, x, packet, number, now, Failed);
            && y.out.buf == [] && y.view == x.view.(lastActivity := now)
            && y.udp == x.udp && y.fd == x.fd && y.drops == x.drops && y.phaseScan == x.phaseScan
  {
    hide SendVOutcome;
    FrameIsJoined(packet);
    FrameOutcome(HeaderBytes(packet.streamIndex, |packet.data|), packet.data, 0, c.capacity, Failed);
  }

  /**
   And the exception is real: here the only client has been marked, has asked for PLAY before the scan, and is
   still in the map, playing, after it.
   */
  lemma MarkedCanStay(c: Config)
    requires c.maxSessions > 0 && (c.connectionTimeout > 0 || c.sessionTimeout > 0)
    ensures exists s :: && Reachable(c, s) && s.epoll == Idle && s.total == 1 && s.dropped == 1 && s.scans == 1
                        && s.sessions == map[3 := 0] && 0 in s.objs && s.objs[0].view.phase == Playing
                        && s.objs[0].drops == MAX_CONSECUTIVE_DROPS && s.objs[0].phaseScan == 0
  {
    hide Reachable, P.ParseMessage, RequestOf, ReplyBytes, AfterRequest, Forwarder.Step;
    var x, p := ClientIsSlow(c, MAX_CONSECUTIVE_DROPS);
    TimerExpires(c, x, false, p);
    var q := p.(due := true);
    var env := Outside(Failed, "", 0);
    RequestIsUnderstood(P.Play, 2);
    ClientAsks(c, x, false, q, RequestOf(P.Play, 2), env);
    AfterPlay(c, x, P.ParseMessage(RequestOf(P.Play, 2)).value, env, 0);
    var y := AfterRequest(c, x, P.ParseMessage(RequestOf(P.Play, 2)).value, env, 0);
    var write := y.out.buf != [];
    ScanRuns(c, y, write, q);
    assert !Collected(c, y, 0);
    var r := Scanned(q);
    ReachStep(c, Alone(y, write, Closing({}), Quiet, r), ScanDone);
    var s := Alone(y, write, Idle, Quiet, r);
    assert Next(c, Alone(y, write, Closing({}), Quiet, r), ScanDone) == s;
    assert s.objs[0] == y;
  }
}

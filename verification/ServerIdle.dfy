/**
 Idle sessions: what the timeout scans guarantee in every run, and what that means in seconds when the timer
 expires once a second.
 */
module ServerIdle {
  import opened Bytes
  import opened Service
  import opened Transport
  import opened Server
  import opened ServerRuns
  import O = ServerOwnership
  import S = Sessions
  import F = Forwarder
  import P = Parser

  function Timeout(c: Config, x: Sess): int {
    S.PhaseTimeout(x.view.phase, c.connectionTimeout, c.sessionTimeout)
  }

  /** Collected by the running scan and not yet removed. */
  function BeingClosed(pc: EpollPc): set<int> {
    Todo(pc) + InClosing(pc)
  }

  /**
   A mapped session was not expired at the scan before the last, nor at the last unless that collected it, or has
   been active since; and only the running scan leaves a session that was already in teardown.
   */
  ghost predicate Fresh(c: Config, s: World, fd: int, x: Sess) {
    && (Timeout(c, x) > 0 ==> s.scanBefore - x.view.lastActivity < Timeout(c, x))
    && (Timeout(c, x) > 0 && fd !in BeingClosed(s.epoll) ==> s.lastScan - x.view.lastActivity < Timeout(c, x))
    && (x.view.phase == Phase.Teardown && x.phaseScan < s.scans && fd !in BeingClosed(s.epoll) ==>
          c.connectionTimeout <= 0 && c.sessionTimeout <= 0)
  }

  ghost predicate AllFresh(c: Config, s: World) {
    && (forall fd :: fd in s.sessions ==> s.sessions[fd] in s.objs && Fresh(c, s, fd, s.objs[s.sessions[fd]]))
    && (forall sid :: sid in s.objs ==> s.objs[sid].view.lastActivity <= s.now && s.objs[sid].phaseScan <= s.scans)
    && s.scanBefore <= s.lastScan <= s.now
    && (s.epoll.Answered? && s.epoll.sid in s.objs ==> s.lastScan <= s.objs[s.epoll.sid].view.lastActivity)
  }

  /** The scans made are the same. */
  predicate SameScans(s: World, t: World) {
    t.scans == s.scans && t.lastScan == s.lastScan && t.scanBefore == s.scanBefore
  }

  // ----- Steps -----

  /** Steps on one session that leave clock and scan alone. */
  lemma PutIsFresh(c: Config, s: World, t: World, sid: Sid)
    requires AllFresh(c, s) && sid in s.objs && sid in t.objs && t.objs == s.objs[sid := t.objs[sid]]
    requires t.sessions == s.sessions && t.now == s.now && SameScans(s, t)
    requires BeingClosed(t.epoll) == BeingClosed(s.epoll)
    requires t.epoll.Answered? ==> t.epoll.sid == sid || t.epoll == s.epoll
    requires var x, y := s.objs[sid], t.objs[sid];
             && x.view.lastActivity <= y.view.lastActivity <= s.now
             && x.phaseScan <= y.phaseScan <= s.scans
             && (t.epoll.Answered? && t.epoll.sid == sid ==> s.lastScan <= y.view.lastActivity)
             && (y.view.phase != x.view.phase ==> s.lastScan <= y.view.lastActivity && y.phaseScan == s.scans)
    ensures AllFresh(c, t)
  {
    forall fd | fd in t.sessions ensures Fresh(c, t, fd, t.objs[t.sessions[fd]]) {
      assert Fresh(c, s, fd, s.objs[s.sessions[fd]]);
    }
  }

  /** Steps that only drop sessions, or touch neither sessions nor time. */
  lemma FewerAreFresh(c: Config, s: World, t: World)
    requires AllFresh(c, s) && t.now == s.now && SameScans(s, t)
    requires forall fd :: fd in t.sessions ==>
               fd in s.sessions && t.sessions[fd] == s.sessions[fd] && t.sessions[fd] in t.objs
    requires forall sid :: sid in t.objs ==>
               && sid in s.objs && t.objs[sid].view.lastActivity == s.objs[sid].view.lastActivity
               && t.objs[sid].phaseScan <= s.scans
               && (sid in Mapped(t) ==> t.objs[sid] == s.objs[sid])
    requires forall fd :: fd in t.sessions && fd in BeingClosed(s.epoll) ==> fd in BeingClosed(t.epoll)
    requires t.epoll.Answered? ==> t.epoll == s.epoll
    ensures AllFresh(c, t)
  {
    forall fd | fd in t.sessions ensures Fresh(c, t, fd, t.objs[t.sessions[fd]]) {
      assert Fresh(c, s, fd, s.objs[s.sessions[fd]]);
      assert t.sessions[fd] in Mapped(t);
    }
  }

  lemma ReapIsFresh(c: Config, s: World)
    requires AllFresh(c, s)
    ensures AllFresh(c, Reap(s))
  {
    hide Fresh, DeadFds;
    O.MappedAreLive(s);
    FewerAreFresh(c, s, Reap(s));
  }

  lemma ScanIsFresh(c: Config, s: World)
    requires AllFresh(c, s) && Enabled(c, s, Scan)
    ensures AllFresh(c, NextScan(c, s))
  {
    var t := NextScan(c, s);
    forall fd | fd in t.sessions ensures Fresh(c, t, fd, t.objs[t.sessions[fd]]) {
      assert Fresh(c, s, fd, s.objs[s.sessions[fd]]);
    }
  }

  lemma ClockIsFresh(c: Config, s: World, a: Action)
    requires AllFresh(c, s) && Enabled(c, s, a) && (a.Second? || a.Expiry?)
    ensures AllFresh(c, Next(c, s, a))
  {
    var t := Next(c, s, a);
    forall fd | fd in t.sessions ensures Fresh(c, t, fd, t.objs[t.sessions[fd]]) {
      assert Fresh(c, s, fd, s.objs[s.sessions[fd]]);
    }
  }

  lemma InsertIsFresh(c: Config, s: World, id: string)
    requires AllFresh(c, s) && O.Owned(s) && Enabled(c, s, Insert(id))
    ensures AllFresh(c, NextInsert(s, id))
  {
    hide O.SessionsOwned, O.RegsOwned, O.StreamOwned;
    O.InsertKeeps(c, s, id);
    var t := NextInsert(s, id);
    forall fd | fd in t.sessions ensures t.sessions[fd] in t.objs && Fresh(c, t, fd, t.objs[t.sessions[fd]]) {
      if fd != s.epoll.fd {
        assert Fresh(c, s, fd, s.objs[s.sessions[fd]]);
        assert s.sessions[fd] != s.epoll.sid;
      }
    }
  }

  lemma AnswerIsActive(c: Config, x: Sess, request: P.Request, env: Env, udp: set<int>)
    ensures var y := Answer(c, x, request, env, udp);
            y.view.lastActivity == env.now && y.view.phase == x.view.phase && y.phaseScan == x.phaseScan
  {
    hide F.Step;
    PhaseMovesOnSuccess(x.view.(lastActivity := env.now), request, env);
  }

  lemma RespondIsFresh(c: Config, s: World, handed: Bytes, env: Env, udp: set<int>)
    requires AllFresh(c, s) && Enabled(c, s, Respond(handed, env, udp))
    ensures AllFresh(c, Next(c, s, Respond(handed, env, udp)))
  {
    hide P.ParseMessage, Answer, PhaseSet, AllFresh;
    AnswerIsActive(c, s.objs[s.epoll.sid], P.ParseMessage(handed).value, env, udp);
    KnownIsSane(c, s, s.epoll.sid);
    PutIsFresh(c, s, Next(c, s, Respond(handed, env, udp)), s.epoll.sid);
  }

  lemma KnownIsSane(c: Config, s: World, sid: Sid)
    requires AllFresh(c, s) && sid in s.objs
    ensures s.objs[sid].view.lastActivity <= s.now && s.objs[sid].phaseScan <= s.scans
    ensures s.scanBefore <= s.lastScan <= s.now
    ensures s.epoll.Answered? && s.epoll.sid == sid ==> s.lastScan <= s.objs[sid].view.lastActivity
  {
  }

  lemma FinishIsFresh(c: Config, s: World)
    requires AllFresh(c, s) && Enabled(c, s, Finish)
    ensures AllFresh(c, NextFinish(s))
  {
    hide AllFresh;
    KnownIsSane(c, s, s.epoll.sid);
    PutIsFresh(c, s, NextFinish(s), s.epoll.sid);
  }

  lemma ForwardIsFresh(c: Config, s: World, k: Kernel, udpSent: bool)
    requires AllFresh(c, s) && Enabled(c, s, Forward(k, udpSent))
    ensures AllFresh(c, NextForward(c, s, k, udpSent))
  {
    hide Forwarded1, ForwardSucceeds, AllFresh;
    var sid, number := s.stream.queue[0], |s.packets| - 1;
    O.ForwardFds(c, s.objs[sid], s.packets[number], number, s.now, k);
    KnownIsSane(c, s, sid);
    PutIsFresh(c, s, NextForward(c, s, k, udpSent), sid);
  }

  lemma DoKeepsView(c: Config, x: Sess, op: F.Op)
    ensures Do(c, x, op).view == x.view && Do(c, x, op).phaseScan == x.phaseScan
  {
    hide F.Step;
  }

  lemma WriteIsFresh(c: Config, s: World, fd: int, k: Kernel)
    requires AllFresh(c, s) && Enabled(c, s, WriteEvent(fd, k))
    ensures AllFresh(c, NextWrite(c, s, fd, k))
  {
    hide Do, AllFresh, Reap;
    var sid := s.sessions[fd];
    DoKeepsView(c, s.objs[sid], F.FlushOp(k));
    KnownIsSane(c, s, sid);
    var t := PutSess(s, sid, Do(c, s.objs[sid], F.FlushOp(k)));
    PutIsFresh(c, s, t, sid);
    EndIsFresh(c, t, fd);
    SameIsFresh(c, t, t.(regs := SetWrite(t.regs, fd, false)));
  }

  lemma SameIsFresh(c: Config, s: World, t: World)
    requires AllFresh(c, s)
    requires t.objs == s.objs && t.sessions == s.sessions && t.now == s.now && SameScans(s, t)
    requires forall fd :: fd in s.sessions && fd in BeingClosed(s.epoll) ==> fd in BeingClosed(t.epoll)
    requires t.epoll.Answered? ==> t.epoll == s.epoll
    ensures AllFresh(c, t)
  {
    hide Fresh;
    MappedKnown(c, s);
    FewerAreFresh(c, s, t);
  }

  lemma MappedKnown(c: Config, s: World)
    requires AllFresh(c, s)
    ensures forall fd :: fd in s.sessions ==> s.sessions[fd] in s.objs
    ensures forall sid :: sid in s.objs ==> s.objs[sid].phaseScan <= s.scans
  {
  }

  lemma CloseIsFresh(c: Config, s: World, fd: int, pc: EpollPc)
    requires AllFresh(c, s)
    requires forall g :: g in s.sessions && g in BeingClosed(s.epoll) && g != fd ==> g in BeingClosed(pc)
    requires !pc.Answered?
    ensures AllFresh(c, Reap(CloseConnection(s, fd).(epoll := pc)))
  {
    hide Fresh, Reap, BeingClosed;
    MappedKnown(c, s);
    var t := CloseConnection(s, fd).(epoll := pc);
    FewerAreFresh(c, s, t);
    ReapIsFresh(c, t);
  }

  lemma EndIsFresh(c: Config, s: World, fd: int)
    requires AllFresh(c, s)
    ensures AllFresh(c, EndConnection(s, fd)) && AllFresh(c, Reap(EndConnection(s, fd)))
  {
    hide Fresh, Reap, BeingClosed;
    MappedKnown(c, s);
    FewerAreFresh(c, s, EndConnection(s, fd));
    ReapIsFresh(c, EndConnection(s, fd));
  }

  lemma StopIsFresh(c: Config, s: World)
    requires AllFresh(c, s)
    ensures AllFresh(c, NextStop(s))
  {
    hide Fresh, Reap, BeingClosed;
    O.StopIsReap(s);
    MappedKnown(c, s);
    var u := Forgotten(s).(ended := NextStop(s).ended);
    assert Mapped(u) == {};
    FewerAreFresh(c, s, u);
    ReapIsFresh(c, u);
  }

  lemma ClosingIsFresh(c: Config, s: World, a: Action)
    requires AllFresh(c, s) && Enabled(c, s, a)
    requires a.EndRead? || a.CloseTimedOut? || a.EndBroadcast? || a.CountTimeout? || a.ScanDone?
    ensures AllFresh(c, Next(c, s, a))
  {
    hide AllFresh, Reap, EndConnection, P.ParseMessage, NextInsert, NextRespond, NextFinish, NextWrite,
         NextForward, NextScan, NextStop;
    match a
    case EndRead(close) =>
      var fd := s.objs[s.epoll.sid].fd;
      EndIsFresh(c, s, fd);
      O.EndKeepsPc(s, fd);
      var u := if close then EndConnection(s, fd) else s;
      SameIsFresh(c, u, u.(epoll := Idle));
      ReapIsFresh(c, u.(epoll := Idle));
    case CloseTimedOut => CloseIsFresh(c, s, s.epoll.closing, Closing(s.epoll.todo));
    case EndBroadcast =>
      SameIsFresh(c, s, s.(stream := Quiet));
      ReapIsFresh(c, s.(stream := Quiet));
    case CountTimeout(fd) => SameIsFresh(c, s, Next(c, s, a));
    case ScanDone => SameIsFresh(c, s, Next(c, s, a));
  }

  lemma StepKeepsFresh(c: Config, s: World, a: Action)
    requires O.Owned(s) && AllFresh(c, s) && Enabled(c, s, a)
    ensures AllFresh(c, Next(c, s, a))
  {
    hide O.Owned, AllFresh, Reap, EndConnection, CloseConnection, P.ParseMessage, NextInsert, NextRespond,
         NextFinish, NextWrite, NextForward, NextScan, NextStop;
    match a
    case Insert(id) => InsertIsFresh(c, s, id);
    case Respond(handed, env, udp) => RespondIsFresh(c, s, handed, env, udp);
    case Finish => FinishIsFresh(c, s);
    case Ignore(_) =>
      KnownIsSane(c, s, s.epoll.sid);
      PutIsFresh(c, s, Next(c, s, a), s.epoll.sid);
    case Forward(k, udpSent) => ForwardIsFresh(c, s, k, udpSent);
    case WriteEvent(fd, k) => WriteIsFresh(c, s, fd, k);
    case ErrorEvent(fd) => EndIsFresh(c, s, fd);
    case Scan => ScanIsFresh(c, s);
    case Second => ClockIsFresh(c, s, a);
    case Expiry => ClockIsFresh(c, s, a);
    case StopClear => StopIsFresh(c, s);
    case EndRead(_) => ClosingIsFresh(c, s, a);
    case CloseTimedOut => ClosingIsFresh(c, s, a);
    case EndBroadcast => ClosingIsFresh(c, s, a);
    case CountTimeout(_) => ClosingIsFresh(c, s, a);
    case ScanDone => ClosingIsFresh(c, s, a);
    case _ => PlainIsFresh(c, s, a);
  }

  lemma PlainIsFresh(c: Config, s: World, a: Action)
    requires AllFresh(c, s) && Enabled(c, s, a)
    requires a.Accept? || a.Count? || a.Register? || a.StartRead? || a.Snapshot? || a.Arm? || a.StopFlag?
    ensures AllFresh(c, Next(c, s, a))
  {
    hide AllFresh, P.ParseMessage, NextInsert, NextRespond, NextFinish, NextWrite, NextForward, NextScan,
         NextStop, Reap, EndConnection, CloseConnection, PlayingSessions;
    SameIsFresh(c, s, Next(c, s, a));
  }

  lemma {:induction false} ReachableIsFresh(c: Config, states: seq<World>, actions: seq<Action>, i: nat)
    requires IsRun(c, states, actions) && i < |states|
    ensures AllFresh(c, states[i])
  {
    hide O.Owned, AllFresh, Enabled, Next;
    if i == 0 {
      StartIsFresh(c);
    } else {
      O.ReachableIsOwned(c, states, actions, i - 1);
      ReachableIsFresh(c, states, actions, i - 1);
      StepKeepsFresh(c, states[i - 1], actions[i - 1]);
    }
  }

  lemma StartIsFresh(c: Config)
    ensures AllFresh(c, START)
  {
  }

  /**
   In every run, however late the scans come: a mapped session that is not being closed has been idle for less than
   the timeout of its phase and the time since the last scan, and one that is for less than the timeout and the time
   since the scan before.
   */
  lemma IdleSinceScan(c: Config, s: World, fd: int)
    requires Reachable(c, s) && fd in s.sessions
    ensures s.sessions[fd] in s.objs
    ensures var x := s.objs[s.sessions[fd]];
            Timeout(c, x) > 0 ==>
              s.now - x.view.lastActivity
              < Timeout(c, x) + s.now - if fd in BeingClosed(s.epoll) then s.scanBefore else s.lastScan
    ensures var x := s.objs[s.sessions[fd]];
            (x.view.phase == Phase.Teardown && fd !in BeingClosed(s.epoll)
             && (c.connectionTimeout > 0 || c.sessionTimeout > 0))
            ==> x.phaseScan == s.scans
  {
    var states, actions :| IsRun(c, states, actions) && states[|states| - 1] == s;
    ReachableIsFresh(c, states, actions, |states| - 1);
    assert Fresh(c, s, fd, s.objs[s.sessions[fd]]);
  }

  // ----- In seconds -----

  function Seconds(actions: seq<Action>): nat {
    if actions == [] then 0
    else Seconds(actions[..|actions| - 1]) + if actions[|actions| - 1].Second? then 1 else 0
  }

  function Expiries(actions: seq<Action>): nat {
    if actions == [] then 0
    else Expiries(actions[..|actions| - 1]) + if actions[|actions| - 1].Expiry? then 1 else 0
  }

  function Ahead(actions: seq<Action>): int {
    Seconds(actions) - Expiries(actions)
  }

  /**
   The timer expires once a second, at any phase within it (`b` is 0 if the first second begins before the first
   expiry, and -1 otherwise), and each expiry's scan is over before the next.
   */
  ghost predicate Timely(states: seq<World>, actions: seq<Action>, b: int)
    requires |actions| < |states|
  {
    && (forall n: nat :: n <= |actions| ==> b <= Ahead(actions[..n]) <= b + 1)
    && (forall n: nat :: n < |actions| && actions[n].Expiry? ==>
          !states[n].due && !states[n].epoll.Closing? && !states[n].epoll.ClosingOne?)
  }

  /** How the last two scans lie among the expiries. */
  ghost predicate InTime(s: World, expiries: nat, b: int) {
    && s.lastScan >= b + expiries - (if s.due then 1 else 0)
    && s.scanBefore >= b + expiries - 1 - (if s.due then 1 else 0)
    && (s.epoll.Closing? || s.epoll.ClosingOne? ==> !s.due)
  }

  lemma CountAppend(actions: seq<Action>, n: nat)
    requires n < |actions|
    ensures Seconds(actions[..n + 1]) == Seconds(actions[..n]) + if actions[n].Second? then 1 else 0
    ensures Expiries(actions[..n + 1]) == Expiries(actions[..n]) + if actions[n].Expiry? then 1 else 0
  {
    assert actions[..n + 1][..n] == actions[..n];
  }

  /** Scan, clock and timer are as before. */
  predicate SameTimes(s: World, t: World) {
    && t.now == s.now && t.due == s.due && t.lastScan == s.lastScan && t.scanBefore == s.scanBefore
    && (t.epoll.Closing? || t.epoll.ClosingOne? ==> s.epoll.Closing? || s.epoll.ClosingOne?)
  }

  lemma TimesStay(c: Config, s: World, a: Action)
    requires Enabled(c, s, a) && !a.Scan? && !a.Second? && !a.Expiry?
    ensures SameTimes(s, Next(c, s, a))
  {
    hide P.ParseMessage, Reap, NextInsert, NextRespond, NextFinish, NextForward, NextIgnore, NextWrite,
         NextScan, NextStop, EndConnection, CloseConnection, PlayingSessions, SetWrite;
    match a
    case EndRead(_) =>
      EndingTimes(s, s.objs[s.epoll.sid].fd, Idle);
      ReapTimes(s.(epoll := Idle));
    case ErrorEvent(fd) => EndingTimes(s, fd, Idle);
    case CloseTimedOut => EndingTimes(s, s.epoll.closing, Closing(s.epoll.todo));
    case EndBroadcast => ReapTimes(s.(stream := Quiet));
    case StopClear => StopTimes(s);
    case WriteEvent(fd, k) => WriteTimes(c, s, fd, k);
    case Insert(_) => SessionTimes(c, s, a);
    case Respond(_, _, _) => SessionTimes(c, s, a);
    case Finish => SessionTimes(c, s, a);
    case Ignore(_) => SessionTimes(c, s, a);
    case Forward(_, _) => SessionTimes(c, s, a);
    case _ =>
  }

  lemma SessionTimes(c: Config, s: World, a: Action)
    requires Enabled(c, s, a) && (a.Insert? || a.Respond? || a.Finish? || a.Ignore? || a.Forward?)
    ensures SameTimes(s, Next(c, s, a))
  {
    hide P.ParseMessage, Answer, PhaseSet, Forwarded1, ForwardSucceeds, Reap, NextWrite, NextScan, NextStop,
         EndConnection, CloseConnection, PlayingSessions, SetWrite;
  }

  lemma ReapTimes(s: World)
    ensures SameTimes(s, Reap(s)) && Reap(s).epoll == s.epoll
  {
    hide Live, DeadFds;
  }

  lemma EndingTimes(s: World, fd: int, pc: EpollPc)
    ensures SameTimes(s, Reap(EndConnection(s, fd)))
    ensures var u := s.(epoll := pc);
            && SameTimes(u, Reap(EndConnection(s, fd).(epoll := pc)))
            && SameTimes(u, Reap(CloseConnection(s, fd).(epoll := pc)))
  {
    hide Reap;
    ReapTimes(EndConnection(s, fd));
    ReapTimes(EndConnection(s, fd).(epoll := pc));
    ReapTimes(CloseConnection(s, fd).(epoll := pc));
  }

  lemma StopTimes(s: World)
    ensures SameTimes(s, NextStop(s))
  {
    hide Reap, Mapped, Stopped, Todo, InClosing;
    O.StopIsReap(s);
    ReapTimes(Forgotten(s).(ended := NextStop(s).ended));
  }

  lemma WriteTimes(c: Config, s: World, fd: int, k: Kernel)
    requires Enabled(c, s, WriteEvent(fd, k))
    ensures SameTimes(s, NextWrite(c, s, fd, k))
  {
    hide Reap, Do, SetWrite, EndConnection, CloseConnection;
    EndingTimes(PutSess(s, s.sessions[fd], Do(c, s.objs[s.sessions[fd]], F.FlushOp(k))), fd, Idle);
  }

  lemma StepIsInTime(c: Config, s: World, a: Action, expiries: nat, b: int)
    requires c.connectionTimeout > 0 || c.sessionTimeout > 0
    requires Enabled(c, s, a) && InTime(s, expiries, b) && s.now >= b + expiries
    requires a.Expiry? ==> !s.due && !s.epoll.Closing? && !s.epoll.ClosingOne?
    ensures InTime(Next(c, s, a), expiries + if a.Expiry? then 1 else 0, b)
    ensures Next(c, s, a).now == s.now + if a.Second? then 1 else 0
  {
    if a.Scan? || a.Second? || a.Expiry? {
      hide Collected, P.ParseMessage, NextInsert, NextRespond, NextFinish, NextWrite, NextForward, NextStop,
           Reap, EndConnection, CloseConnection, PlayingSessions, SetWrite;
    } else {
      hide Next, Enabled;
      TimesStay(c, s, a);
    }
  }

  lemma {:induction false} RunIsInTime(c: Config, states: seq<World>, actions: seq<Action>, b: int, n: nat)
    requires IsRun(c, states, actions) && Timely(states, actions, b) && n < |states|
    requires c.connectionTimeout > 0 || c.sessionTimeout > 0
    ensures states[n].now == Seconds(actions[..n])
    ensures InTime(states[n], Expiries(actions[..n]), b)
  {
    hide Enabled, Next, InTime;
    if n == 0 {
      StartIsInTime(b) by { assert b <= Ahead(actions[..0]) <= b + 1; }
    } else {
      RunIsInTime(c, states, actions, b, n - 1);
      assert b <= Ahead(actions[..n - 1]) <= b + 1;
      CountAppend(actions, n - 1);
      StepIsInTime(c, states[n - 1], actions[n - 1], Expiries(actions[..n - 1]), b);
    }
  }

  lemma StartIsInTime(b: int)
    requires b <= 0
    ensures InTime(START, 0, b)
  {
  }

  /**
   The idle bound: with a timely timer no mapped session is ever idle for longer than its timeout and one second,
   none for longer than its timeout while nothing is due or being closed, and none that a scan leaves for as long
   as its timeout when the scan is made.
   */
  lemma IdleBound(c: Config, states: seq<World>, actions: seq<Action>, b: int, n: nat, fd: int)
    requires IsRun(c, states, actions) && Timely(states, actions, b)
    requires n < |states| && fd in states[n].sessions
    ensures states[n].sessions[fd] in states[n].objs
    ensures var s := states[n]; var x := s.objs[s.sessions[fd]];
            Timeout(c, x) > 0 ==>
              && s.now - x.view.lastActivity <= Timeout(c, x) + 1
              && (!s.due && !s.epoll.Closing? && !s.epoll.ClosingOne? ==>
                    s.now - x.view.lastActivity <= Timeout(c, x))
              && (fd !in BeingClosed(s.epoll) && s.now == s.lastScan ==>
                    s.now - x.view.lastActivity < Timeout(c, x))
  {
    hide AllFresh;
    var s := states[n];
    ReachableIsFresh(c, states, actions, n);
    FreshFd(c, s, fd);
    assert b <= Ahead(actions[..n]) <= b + 1;
    if c.connectionTimeout > 0 || c.sessionTimeout > 0 {
      RunIsInTime(c, states, actions, b, n);
    }
  }

  lemma FreshFd(c: Config, s: World, fd: int)
    requires AllFresh(c, s) && fd in s.sessions
    ensures s.sessions[fd] in s.objs && Fresh(c, s, fd, s.objs[s.sessions[fd]])
  {
  }

  // ----- The bounds are met -----

  /** A timely run, with the first second before the first expiry, leads to `s`; `a` counts the seconds ahead. */
  ghost predicate ReachedInTime(c: Config, s: World, a: int) {
    exists states, actions ::
      IsRun(c, states, actions) && Timely(states, actions, 0) && states[|states| - 1] == s && Ahead(actions) == a
  }

  lemma StepInTime(c: Config, s: World, a: Action, ahead: int)
    requires ReachedInTime(c, s, ahead) && Enabled(c, s, a)
    requires a.Second? ==> ahead == 0
    requires a.Expiry? ==> ahead == 1 && !s.due && !s.epoll.Closing? && !s.epoll.ClosingOne?
    ensures ReachedInTime(c, Next(c, s, a), ahead + (if a.Second? then 1 else 0) - if a.Expiry? then 1 else 0)
  {
    hide Enabled, Next, Ahead;
    var states, actions :|
      IsRun(c, states, actions) && Timely(states, actions, 0) && states[|states| - 1] == s && Ahead(actions) == ahead;
    var more, done := states + [Next(c, s, a)], actions + [a];
    RunGrows(c, states, actions, a);
    AheadGrows(actions, a);
    forall n: nat | n <= |done| ensures 0 <= Ahead(done[..n]) <= 1 {
      assert actions[..|actions|] == actions && 0 <= Ahead(actions[..|actions|]) <= 1;
      if n <= |actions| {
        assert done[..n] == actions[..n];
        assert 0 <= Ahead(actions[..n]) <= 1;
      } else {
        assert done[..n] == done;
      }
    }
    assert Timely(more, done, 0);
  }

  lemma RunGrows(c: Config, states: seq<World>, actions: seq<Action>, a: Action)
    requires IsRun(c, states, actions) && Enabled(c, states[|states| - 1], a)
    ensures IsRun(c, states + [Next(c, states[|states| - 1], a)], actions + [a])
  {
    hide Enabled, Next;
    var more, done := states + [Next(c, states[|states| - 1], a)], actions + [a];
    forall i | 0 <= i < |done| ensures Enabled(c, more[i], done[i]) && more[i + 1] == Next(c, more[i], done[i]) {
      if i < |actions| { assert Enabled(c, states[i], actions[i]); }
    }
  }

  lemma AheadGrows(actions: seq<Action>, a: Action)
    ensures Ahead(actions + [a]) == Ahead(actions) + (if a.Second? then 1 else 0) - if a.Expiry? then 1 else 0
  {
    var done := actions + [a];
    assert done[..|actions|] == actions && done[..|actions| + 1] == done;
    CountAppend(done, |actions|);
  }

  lemma ConnectedInTime(c: Config)
    requires c.maxSessions > 0
    ensures ReachedInTime(c, Alone(NewClient(), false, Idle, Quiet, FRESH), 0)
  {
    hide ReachedInTime;
    NothingYet(c);
    ConnectAlone(c);
    StepInTime(c, START, Accept(3), 0);
    var s1 := Next(c, START, Accept(3));
    StepInTime(c, s1, Server.Count, 0);
    var s2 := Next(c, s1, Server.Count);
    StepInTime(c, s2, Register(true), 0);
    var s3 := Next(c, s2, Register(true));
    StepInTime(c, s3, Insert("a"), 0);
  }

  lemma NothingYet(c: Config)
    ensures ReachedInTime(c, START, 0)
  {
    var actions: seq<Action> := [];
    assert actions[..0] == actions;
    assert IsRun(c, [START], actions) && Timely([START], actions, 0);
  }

  /** A client that has been silent for `k` seconds, all of them scanned. */
  lemma {:induction false} SilentInTime(c: Config, k: nat) returns (p: Past)
    requires c.maxSessions > 0 && k < c.connectionTimeout
    ensures ReachedInTime(c, Alone(NewClient(), false, Idle, Quiet, p), 0) && p.now == k && !p.due
    decreases k
  {
    hide ReachedInTime, Next, Enabled, Alone, Collected;
    if k == 0 {
      ConnectedInTime(c);
      p := FRESH;
    } else {
      var x := NewClient();
      var q := SilentInTime(c, k - 1);
      ClockAlone(c, x, q);
      StepInTime(c, Alone(x, false, Idle, Quiet, q), Second, 0);
      var r := q.(now := k);
      ClockAlone(c, x, r);
      StepInTime(c, Alone(x, false, Idle, Quiet, r), Expiry, 1);
      var d := r.(due := true);
      ScanAlone(c, x, false, d);
      StepInTime(c, Alone(x, false, Idle, Quiet, d), Scan, 0);
      p := ServerRuns.Scanned(d);
      assert !Collected(c, x, k) by { NotExpired(c, k); }
      DoneAlone(c, x, p);
      StepInTime(c, Alone(x, false, Closing({}), Quiet, p), ScanDone, 0);
    }
  }

  lemma NotExpired(c: Config, k: nat)
    requires k < c.connectionTimeout
    ensures !Collected(c, NewClient(), k)
  {
  }

  lemma ClockAlone(c: Config, x: Sess, p: Past)
    ensures var s := Alone(x, false, Idle, Quiet, p);
            && s.due == p.due && s.epoll == Idle
            && Enabled(c, s, Second) && Next(c, s, Second) == Alone(x, false, Idle, Quiet, p.(now := p.now + 1))
            && Enabled(c, s, Expiry) && Next(c, s, Expiry) == Alone(x, false, Idle, Quiet, p.(due := true))
  {
  }

  lemma DoneAlone(c: Config, x: Sess, p: Past)
    ensures var s := Alone(x, false, Closing({}), Quiet, p);
            Enabled(c, s, ScanDone) && Next(c, s, ScanDone) == Alone(x, false, Idle, Quiet, p)
  {
  }

  /**
   Both bounds are met, for every positive connection timeout: a silent client is idle for its timeout with nothing
   due, when the second ends before the timer expires, and for one second more when that expiry's scan is late into
   the next.
   */
  lemma IdleBoundIsMet(c: Config)
    requires c.maxSessions > 0 && c.connectionTimeout > 0
    ensures exists s :: && ReachedInTime(c, s, 1) && s.sessions == map[3 := 0] && 0 in s.objs
                        && !s.due && s.epoll == Idle && s.objs[0].view.phase == Init
                        && s.now - s.objs[0].view.lastActivity == c.connectionTimeout
    ensures exists s :: && ReachedInTime(c, s, 1) && s.sessions == map[3 := 0] && 0 in s.objs
                        && s.due && s.epoll == Idle && s.objs[0].view.phase == Init
                        && s.now - s.objs[0].view.lastActivity == c.connectionTimeout + 1
  {
    hide ReachedInTime, Next, Enabled;
    var x := NewClient();
    var p := SilentInTime(c, c.connectionTimeout - 1);
    ClockAlone(c, x, p);
    ClockAlone(c, x, p.(now := p.now + 1));
    ClockAlone(c, x, p.(now := p.now + 1, due := true));
    StepInTime(c, Alone(x, false, Idle, Quiet, p), Second, 0);
    var s := Alone(x, false, Idle, Quiet, p.(now := p.now + 1));
    assert s.objs[0] == x;
    StepInTime(c, s, Expiry, 1);
    var t := Alone(x, false, Idle, Quiet, p.(now := p.now + 1, due := true));
    StepInTime(c, t, Second, 0);
    var u := Alone(x, false, Idle, Quiet, p.(now := p.now + 2, due := true));
    assert u.objs[0] == x && u == Next(c, t, Second);
  }
}

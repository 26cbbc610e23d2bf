/**
 The session limit and the connection counters over every run.
 */
module ServerLimits {
  import opened Server
  import opened Transport
  import opened ServerRuns
  import O = ServerOwnership
  import P = Parser

  function Pending(pc: EpollPc): nat {
    if pc.Counted? || pc.Registered? then 1 else 0
  }

  /** Counted connections that have neither ended nor been counted as timed out. */
  function Outstanding(s: World): set<int> {
    Remaining(s.sessions.Keys, s.epoll)
  }

  function Remaining(keys: set<int>, pc: EpollPc): set<int> {
    keys + Todo(pc) - InClosing(pc)
  }

  /** The limit holds, with room for a connection on its way in; and every counted connection is accounted for. */
  ghost predicate Balanced(c: Config, s: World) {
    && |s.sessions| <= c.maxSessions
    && (s.epoll.Accepted? || s.epoll.Counted? || s.epoll.Registered? ==> |s.sessions| < c.maxSessions)
    && (s.epoll.ClosingOne? ==> s.epoll.closing !in s.epoll.todo)
    && s.total == s.timedOut + s.ended + |Outstanding(s)| + Pending(s.epoll)
  }

  lemma SmallerMap(m: map<int, Sid>, fd: int)
    requires fd in m
    ensures |m - {fd}| == |m| - 1 && (m - {fd}).Keys == m.Keys - {fd}
  {
    assert (m - {fd}).Keys == m.Keys - {fd};
    assert |m.Keys| == |m| && |(m - {fd}).Keys| == |m - {fd}|;
  }

  lemma LargerMap(m: map<int, Sid>, fd: int, sid: Sid)
    requires fd !in m
    ensures |m[fd := sid]| == |m| + 1 && m[fd := sid].Keys == m.Keys + {fd}
  {
    assert |m.Keys| == |m| && |m[fd := sid].Keys| == |m[fd := sid]|;
  }

  /** Outside a timeout scan the outstanding connections are those in the map. */
  lemma PlainOutstanding(s: World)
    requires !s.epoll.Closing? && !s.epoll.ClosingOne?
    ensures Outstanding(s) == s.sessions.Keys && |Outstanding(s)| == |s.sessions|
  {
    assert Outstanding(s) == s.sessions.Keys;
  }

  lemma EndIsBalanced(c: Config, s: World, fd: int, pc: EpollPc)
    requires Balanced(c, s) && (s.epoll.Idle? || s.epoll.Reading?) && (pc.Idle? || pc.Reading?)
    ensures Balanced(c, EndConnection(s, fd).(epoll := pc))
  {
    hide Outstanding;
    var t := EndConnection(s, fd).(epoll := pc);
    PlainOutstanding(s);
    PlainOutstanding(t);
    EndCounts(s, fd);
  }

  lemma EndCounts(s: World, fd: int)
    ensures var t := EndConnection(s, fd);
            && t.total == s.total && t.timedOut == s.timedOut && t.epoll == s.epoll
            && |t.sessions| <= |s.sessions| && t.ended + |t.sessions| == s.ended + |s.sessions|
  {
    if fd in s.sessions {
      SmallerMap(s.sessions, fd);
    }
  }

  lemma InsertIsBalanced(c: Config, s: World, id: string)
    requires Balanced(c, s) && s.epoll.Registered? && s.epoll.fd !in s.sessions
    ensures Balanced(c, NextInsert(s, id))
  {
    hide Outstanding;
    PlainOutstanding(s);
    PlainOutstanding(NextInsert(s, id));
    LargerMap(s.sessions, s.epoll.fd, s.epoll.sid);
  }

  lemma ScanIsBalanced(c: Config, s: World)
    requires Balanced(c, s) && Enabled(c, s, Scan)
    ensures Balanced(c, NextScan(c, s))
  {
    hide Collected, Balanced;
    var t := NextScan(c, s);
    assert Todo(t.epoll) <= s.sessions.Keys;
    SameOutstanding(c, s, t);
  }

  /** The scan's own bookkeeping, on plain sets. */
  lemma SameOutstanding(c: Config, s: World, t: World)
    requires Balanced(c, s)
    requires t.sessions == s.sessions && t.total == s.total && t.timedOut == s.timedOut && t.ended == s.ended
    requires (s.epoll.Idle? || (s.epoll.Closing? && s.epoll.todo == {})) && (t.epoll.Idle? || t.epoll.Closing?)
             && Todo(t.epoll) <= s.sessions.Keys
    ensures Balanced(c, t)
  {
    assert Remaining(s.sessions.Keys, s.epoll) == s.sessions.Keys == Remaining(t.sessions.Keys, t.epoll);
  }

  lemma CountShrinks(keys: set<int>, todo: set<int>, fd: int)
    requires fd in todo
    ensures |Remaining(keys, ClosingOne(fd, todo - {fd}))| == |Remaining(keys, Closing(todo))| - 1
  {
    var a, b := Remaining(keys, Closing(todo)), Remaining(keys, ClosingOne(fd, todo - {fd}));
    assert fd in a && b == a - {fd};
  }

  lemma CountIsBalanced(c: Config, s: World, fd: int)
    requires Balanced(c, s) && Enabled(c, s, CountTimeout(fd))
    ensures Balanced(c, Next(c, s, CountTimeout(fd)))
  {
    hide Remaining;
    CountShrinks(s.sessions.Keys, s.epoll.todo, fd);
  }

  lemma CloseIsSame(keys: set<int>, todo: set<int>, fd: int)
    requires fd !in todo
    ensures Remaining(keys - {fd}, Closing(todo)) == Remaining(keys, ClosingOne(fd, todo))
    ensures fd !in keys ==> keys - {fd} == keys
  {
  }

  lemma CloseIsBalanced(c: Config, s: World)
    requires Balanced(c, s) && Enabled(c, s, CloseTimedOut)
    ensures Balanced(c, Next(c, s, CloseTimedOut))
  {
    hide Reap, Balanced;
    var u := CloseConnection(s, s.epoll.closing).(epoll := Closing(s.epoll.todo));
    if s.epoll.closing in s.sessions {
      SmallerMap(s.sessions, s.epoll.closing);
    }
    ClosedIsBalanced(c, s, u);
    ReapCounts(c, u);
  }

  lemma ClosedIsBalanced(c: Config, s: World, u: World)
    requires Balanced(c, s) && s.epoll.ClosingOne? && u.epoll == Closing(s.epoll.todo)
    requires u.sessions.Keys == s.sessions.Keys - {s.epoll.closing} && |u.sessions| <= |s.sessions|
    requires u.total == s.total && u.timedOut == s.timedOut && u.ended == s.ended
    ensures Balanced(c, u)
  {
    hide Remaining;
    CloseIsSame(s.sessions.Keys, s.epoll.todo, s.epoll.closing);
  }

  lemma ReapCounts(c: Config, s: World)
    requires Balanced(c, s)
    ensures Balanced(c, Reap(s))
  {
    hide DeadFds, Live, Balanced;
    SameCounts(c, s, Reap(s));
  }

  lemma StopIsBalanced(c: Config, s: World)
    requires Balanced(c, s)
    ensures Balanced(c, NextStop(s))
  {
    hide Reap, Balanced, Forgotten, Outstanding;
    O.StopIsReap(s);
    ForgottenCounts(s);
    var u := Forgotten(s).(ended := NextStop(s).ended);
    StoppedIsBalanced(c, s, u);
    ReapCounts(c, u);
  }

  lemma ForgottenCounts(s: World)
    ensures var u := Forgotten(s);
            u.sessions == map[] && u.epoll == s.epoll && u.total == s.total && u.timedOut == s.timedOut
    ensures NextStop(s).ended == s.ended + |s.sessions.Keys - (Todo(s.epoll) + InClosing(s.epoll))|
  {
    hide Mapped, Stopped, Live, DeadFds, Todo, InClosing;
  }

  lemma StoppedIsBalanced(c: Config, s: World, u: World)
    requires Balanced(c, s) && u.sessions == map[] && u.epoll == s.epoll
    requires u.total == s.total && u.timedOut == s.timedOut
    requires u.ended == s.ended + |s.sessions.Keys - (Todo(s.epoll) + InClosing(s.epoll))|
    ensures Balanced(c, u)
  {
    hide Outstanding;
    StopOutstanding(s, u);
  }

  lemma StopOutstanding(s: World, u: World)
    requires u.epoll == s.epoll && u.sessions == map[] && (s.epoll.ClosingOne? ==> s.epoll.closing !in s.epoll.todo)
    ensures |Outstanding(s)| == |s.sessions.Keys - (Todo(s.epoll) + InClosing(s.epoll))| + |Outstanding(u)|
  {
    assert InClosing(s.epoll) !! Todo(s.epoll);
    assert u.sessions.Keys == {};
    StopSplits(s.sessions.Keys, s.epoll);
  }

  lemma StopSplits(keys: set<int>, pc: EpollPc)
    requires InClosing(pc) !! Todo(pc)
    ensures |Remaining(keys, pc)| == |keys - (Todo(pc) + InClosing(pc))| + |Remaining({}, pc)|
  {
    var t, done := Todo(pc), InClosing(pc);
    hide Todo, InClosing;
    var gone := keys - (t + done);
    assert {} + t - done == t;
    assert keys + t - done == gone + t;
    assert gone * t == {};
  }

  lemma StepKeepsBalanced(c: Config, s: World, a: Action)
    requires O.Owned(s) && Balanced(c, s) && Enabled(c, s, a)
    ensures Balanced(c, Next(c, s, a))
    ensures a.Insert? ==> s.epoll.fd !in s.sessions
  {
    hide O.Owned, P.ParseMessage, NextForward, NextStop, NextInsert, NextWrite, NextScan, EndConnection, Reap,
         NextRespond, NextFinish, Balanced;
    var t := Next(c, s, a);
    match a
    case Accept(_) => ConnectIsBalanced(c, s, a);
    case Count => ConnectIsBalanced(c, s, a);
    case Register(_) => ConnectIsBalanced(c, s, a);
    case Insert(id) =>
      O.InsertKeeps(c, s, id);
      InsertIsBalanced(c, s, id);
    case EndRead(close) => EndReadIsBalanced(c, s, close);
    case ErrorEvent(fd) =>
      EndIsBalanced(c, s, fd, Idle);
      ReapCounts(c, EndConnection(s, fd).(epoll := Idle));
      O.EndKeepsPc(s, fd);
    case WriteEvent(fd, k) => WriteIsBalanced(c, s, fd, k);
    case Scan => ScanIsBalanced(c, s);
    case CountTimeout(fd) => CountIsBalanced(c, s, fd);
    case CloseTimedOut => CloseIsBalanced(c, s);
    case ScanDone => SameOutstanding(c, s, t);
    case StopClear => StopIsBalanced(c, s);
    case Forward(k, udpSent) => ForwardCounts(c, s, k, udpSent);
    case Respond(_, _, _) => RequestIsBalanced(c, s, a);
    case Finish => RequestIsBalanced(c, s, a);
    case StartRead(_) => PcIsBalanced(c, s, t);
    case EndBroadcast =>
      SameCounts(c, s, s.(stream := Quiet));
      ReapCounts(c, s.(stream := Quiet));
    case _ => SameCounts(c, s, t);
  }

  lemma PcIsBalanced(c: Config, s: World, t: World)
    requires Balanced(c, s) && t.sessions == s.sessions && t.total == s.total && t.timedOut == s.timedOut
             && t.ended == s.ended
    requires Todo(s.epoll) == {} && InClosing(s.epoll) == {} && Pending(s.epoll) == 0
    requires t.epoll.Idle? || t.epoll.Reading? || t.epoll.Answered?
    ensures Balanced(c, t)
  {
    assert Outstanding(t) == Outstanding(s);
  }

  lemma ConnectIsBalanced(c: Config, s: World, a: Action)
    requires Balanced(c, s) && Enabled(c, s, a) && (a.Accept? || a.Count? || a.Register?)
    ensures Balanced(c, Next(c, s, a))
  {
    hide Outstanding, P.ParseMessage, NextInsert, NextRespond, NextFinish, NextWrite, NextForward, NextScan,
         NextStop, Reap, EndConnection, CloseConnection, PlayingSessions;
    PlainOutstanding(s);
    PlainOutstanding(Next(c, s, a));
  }

  lemma RequestIsBalanced(c: Config, s: World, a: Action)
    requires Balanced(c, s) && Enabled(c, s, a) && (a.Respond? || a.Finish?)
    ensures Balanced(c, Next(c, s, a))
  {
    hide P.ParseMessage, Answer, PhaseSet, Balanced;
    PcIsBalanced(c, s, Next(c, s, a));
  }

  lemma EndReadIsBalanced(c: Config, s: World, close: bool)
    requires Balanced(c, s) && Enabled(c, s, EndRead(close))
    ensures Balanced(c, Next(c, s, EndRead(close)))
  {
    hide Reap, Balanced, EndConnection;
    EndIsBalanced(c, s, s.objs[s.epoll.sid].fd, Idle);
    PcIsBalanced(c, s, s.(epoll := Idle));
    ReapCounts(c, if close then EndConnection(s, s.objs[s.epoll.sid].fd).(epoll := Idle) else s.(epoll := Idle));
  }

  lemma SameCounts(c: Config, s: World, t: World)
    requires Balanced(c, s)
    requires t.sessions == s.sessions && t.epoll == s.epoll && t.total == s.total && t.timedOut == s.timedOut
             && t.ended == s.ended
    ensures Balanced(c, t)
  {
    assert Outstanding(t) == Outstanding(s);
  }

  lemma ForwardCounts(c: Config, s: World, k: Kernel, udpSent: bool)
    requires Balanced(c, s) && Enabled(c, s, Forward(k, udpSent))
    ensures Balanced(c, NextForward(c, s, k, udpSent))
  {
    hide Forwarded1, ForwardSucceeds, Balanced;
    SameCounts(c, s, NextForward(c, s, k, udpSent));
  }

  lemma WriteIsBalanced(c: Config, s: World, fd: int, k: Kernel)
    requires Balanced(c, s) && Enabled(c, s, WriteEvent(fd, k))
    ensures Balanced(c, NextWrite(c, s, fd, k))
  {
    hide Do, Balanced, DeadFds, Live;
    var t := PutSess(s, s.sessions[fd], Do(c, s.objs[s.sessions[fd]], Forwarder.FlushOp(k)));
    SameCounts(c, s, t);
    EndIsBalanced(c, t, fd, Idle);
    SameCounts(c, EndConnection(t, fd).(epoll := Idle), Reap(EndConnection(t, fd)));
    SameCounts(c, t, t.(regs := SetWrite(t.regs, fd, false)));
  }

  lemma {:induction false} ReachableIsBalanced(c: Config, states: seq<World>, actions: seq<Action>, i: nat)
    requires IsRun(c, states, actions) && i < |states|
    ensures Balanced(c, states[i])
  {
    hide O.Owned, Balanced, Enabled, Next;
    if i == 0 {
      assert Balanced(c, START) by { StartIsBalanced(c); }
    } else {
      O.ReachableIsOwned(c, states, actions, i - 1);
      ReachableIsBalanced(c, states, actions, i - 1);
      StepKeepsBalanced(c, states[i - 1], actions[i - 1]);
    }
  }

  lemma StartIsBalanced(c: Config)
    ensures Balanced(c, START)
  {
  }

  /** The limit on concurrent sessions holds in every reachable state, although it is checked long before the insert. */
  lemma LimitHolds(c: Config, s: World)
    requires Reachable(c, s)
    ensures |s.sessions| <= c.maxSessions
  {
    var states, actions :| IsRun(c, states, actions) && states[|states| - 1] == s;
    ReachableIsBalanced(c, states, actions, |states| - 1);
  }

  /**
   The counters conserve connections, except that a session about to be closed counts as timed out before it
   leaves the map: `timed_out + |sessions|` exceeds `total` exactly then, and only if every other counted
   connection is still in the map or counted as timed out.
   */
  lemma TimedOutExactly(c: Config, s: World)
    requires Reachable(c, s)
    ensures s.total == s.timedOut + s.ended + |Outstanding(s)| + Pending(s.epoll)
    ensures s.timedOut + |s.sessions| > s.total <==>
              && s.epoll.ClosingOne? && s.epoll.closing in s.sessions
              && s.ended == 0 && s.epoll.todo <= s.sessions.Keys
    ensures s.timedOut + |s.sessions| <= s.total + 1
  {
    var states, actions :| IsRun(c, states, actions) && states[|states| - 1] == s;
    ReachableIsBalanced(c, states, actions, |states| - 1);
    OutstandingSize(s);
  }

  lemma SizeApart(k: set<int>, t: set<int>)
    ensures |k + t| == |k| + |t - k|
    ensures |t - k| == 0 <==> t <= k
  {
    assert k + t == k + (t - k);
    assert t <= k <==> t - k == {};
  }

  lemma SizeWithout(k: set<int>, t: set<int>, x: int)
    requires x !in t
    ensures |(k + t) - {x}| == |k| + |t - k| - if x in k then 1 else 0
  {
    SizeApart(k, t);
    if x !in k {
      assert (k + t) - {x} == k + t;
    }
  }

  lemma OutstandingSize(s: World)
    requires s.epoll.ClosingOne? ==> s.epoll.closing !in s.epoll.todo
    ensures |Outstanding(s)| == |s.sessions| + |Todo(s.epoll) - s.sessions.Keys|
                                - if s.epoll.ClosingOne? && s.epoll.closing in s.sessions then 1 else 0
    ensures |Todo(s.epoll) - s.sessions.Keys| == 0 <==> Todo(s.epoll) <= s.sessions.Keys
  {
    hide Todo;
    var k, t := s.sessions.Keys, Todo(s.epoll);
    assert |s.sessions| == |k|;
    SizeApart(k, t);
    if s.epoll.ClosingOne? {
      TodoIs(s.epoll);
      SizeWithout(k, t, s.epoll.closing);
    } else {
      assert Outstanding(s) == k + t;
    }
  }

  lemma TodoIs(pc: EpollPc)
    requires pc.ClosingOne?
    ensures Todo(pc) == pc.todo
  {
  }

  /** Without admission there is never a session. */
  lemma NobodyAdmitted(c: Config)
    requires c.maxSessions == 0
    ensures forall s :: Reachable(c, s) ==> s.objs == map[]
  {
    forall s | Reachable(c, s) ensures s.objs == map[] {
      var states, actions :| IsRun(c, states, actions) && states[|states| - 1] == s;
      NobodyInRun(c, states, actions, |states| - 1);
    }
  }

  lemma {:induction false} NobodyInRun(c: Config, states: seq<World>, actions: seq<Action>, i: nat)
    requires IsRun(c, states, actions) && i < |states| && c.maxSessions == 0
    ensures states[i].objs == map[]
  {
    hide Balanced, Enabled, Next;
    if i > 0 {
      NobodyInRun(c, states, actions, i - 1);
      ReachableIsBalanced(c, states, actions, i - 1);
      NobodyEnters(c, states[i - 1], actions[i - 1]);
    }
  }

  lemma NobodyEnters(c: Config, s: World, a: Action)
    requires Balanced(c, s) && c.maxSessions == 0 && s.objs == map[] && Enabled(c, s, a)
    ensures Next(c, s, a).objs == map[]
  {
    hide P.ParseMessage, NextForward, NextWrite, NextRespond, NextFinish, Outstanding, PlayingSessions,
         Stopped;
    assert a.Insert? ==> false;
  }

  lemma PlainPc(c: Config, s: World)
    requires Reachable(c, s) && c.connectionTimeout <= 0 && c.sessionTimeout <= 0
    ensures !s.epoll.Closing? && !s.epoll.ClosingOne?
  {
    var states, actions :| IsRun(c, states, actions) && states[|states| - 1] == s;
    NoScanCollects(c, states, actions, |states| - 1);
  }

  /** Without a positive timeout nothing is ever collected. */
  lemma {:induction false} NoScanCollects(c: Config, states: seq<World>, actions: seq<Action>, i: nat)
    requires IsRun(c, states, actions) && i < |states| && c.connectionTimeout <= 0 && c.sessionTimeout <= 0
    ensures !states[i].epoll.Closing? && !states[i].epoll.ClosingOne?
  {
    hide Enabled, Next;
    if i > 0 {
      NoScanCollects(c, states, actions, i - 1);
      NoneCollected(c, states[i - 1], actions[i - 1]);
    }
  }

  lemma NoneCollected(c: Config, s: World, a: Action)
    requires c.connectionTimeout <= 0 && c.sessionTimeout <= 0 && Enabled(c, s, a)
    requires !s.epoll.Closing? && !s.epoll.ClosingOne?
    ensures !Next(c, s, a).epoll.Closing? && !Next(c, s, a).epoll.ClosingOne?
  {
    hide P.ParseMessage, Answer, PhaseSet, Forwarded1, ForwardSucceeds, Live, DeadFds, Do, Stopped, Mapped,
         Todo, InClosing, Collected, SetWrite, PlayingSessions;
  }

  /** A client that has sent TEARDOWN is collected by the first scan; this is the middle of its removal. */
  lemma CountedAndMapped(c: Config) returns (s: World)
    requires c.maxSessions > 0 && (c.connectionTimeout > 0 || c.sessionTimeout > 0)
    ensures Reachable(c, s) && s.timedOut == 1 && s.sessions == map[3 := 0] && s.total == 1
  {
    hide Reachable, P.ParseMessage, NextInsert, NextRespond, NextFinish, NextWrite, NextForward, NextScan,
         NextStop, Reap, EndConnection, CloseConnection, PlayingSessions, SetWrite;
    var x := ClientTearsDown(c);
    var p := FRESH.(due := true);
    TimerExpires(c, x, false, FRESH);
    ScanRuns(c, x, false, p);
    var t := Alone(x, false, Closing({3}), Quiet, Scanned(p));
    ReachStep(c, t, CountTimeout(3));
    s := Next(c, t, CountTimeout(3));
  }

  /** So the bound that the statistics suggest, timed-out plus active at most total, fails in these configurations. */
  lemma TimedOutOvershoots(c: Config)
    ensures (exists s :: Reachable(c, s) && s.timedOut + |s.sessions| > s.total)
            <==> c.maxSessions > 0 && (c.connectionTimeout > 0 || c.sessionTimeout > 0)
  {
    hide Reachable;
    if c.maxSessions > 0 && (c.connectionTimeout > 0 || c.sessionTimeout > 0) {
      var s := CountedAndMapped(c);
      assert |s.sessions| == 1;
    }
    if s :| Reachable(c, s) && s.timedOut + |s.sessions| > s.total {
      TimedOutExactly(c, s);
      LimitHolds(c, s);
      if c.connectionTimeout <= 0 && c.sessionTimeout <= 0 { PlainPc(c, s); }
    }
  }
}

/**
 Slow clients over whole runs: the drop counter of a session is the length of the failing end of its history,
 and a session is marked exactly at the forwards that make it 100 or more.
 */
module ServerDrops {
  import opened Service
  import opened Transport
  import opened Server
  import opened Connections
  import O = ServerOwnership
  import P = Parser

  /** The results of the forwards to one session, oldest first. */
  function HistoryOf(forwards: seq<(Sid, bool)>, sid: Sid): seq<bool> {
    if forwards == [] then []
    else
      var last := forwards[|forwards| - 1];
      HistoryOf(forwards[..|forwards| - 1], sid) + if last.0 == sid then [last.1] else []
  }

  /** The forwards that failed at the end of a run of at least 100 failures of their session. */
  function SlowForwards(forwards: seq<(Sid, bool)>): nat {
    if forwards == [] then 0
    else
      var last := forwards[|forwards| - 1];
      SlowForwards(forwards[..|forwards| - 1])
      + if !last.1 && TrailingFailures(HistoryOf(forwards, last.0)) >= MAX_CONSECUTIVE_DROPS then 1 else 0
  }

  ghost predicate Counted(s: World) {
    && (forall sid :: sid in s.objs ==> s.objs[sid].drops == TrailingFailures(HistoryOf(s.forwards, sid)))
    && s.dropped == SlowForwards(s.forwards)
    && (forall f :: f in s.forwards ==> f.0 < s.nextSid)
    && (s.epoll.Accepted? || s.epoll.Counted? || s.epoll.Registered? ==>
          forall f :: f in s.forwards ==> f.0 != s.epoll.sid)
  }

  lemma {:induction false} NoHistory(forwards: seq<(Sid, bool)>, sid: Sid)
    requires forall f :: f in forwards ==> f.0 != sid
    ensures HistoryOf(forwards, sid) == []
  {
    if forwards != [] {
      assert forwards[|forwards| - 1] in forwards;
      NoHistory(forwards[..|forwards| - 1], sid);
    }
  }

  lemma ForwardsAppend(forwards: seq<(Sid, bool)>, sid: Sid, ok: bool, other: Sid)
    ensures var all := forwards + [(sid, ok)];
            && HistoryOf(all, other) == HistoryOf(forwards, other) + (if other == sid then [ok] else [])
            && SlowForwards(all) == SlowForwards(forwards)
               + if !ok && TrailingFailures(HistoryOf(all, sid)) >= MAX_CONSECUTIVE_DROPS then 1 else 0
  {
    var all := forwards + [(sid, ok)];
    assert all[..|all| - 1] == forwards && all[|all| - 1] == (sid, ok);
  }

  lemma FailuresAppend(history: seq<bool>, ok: bool)
    ensures TrailingFailures(history + [ok]) == if ok then 0 else TrailingFailures(history) + 1
  {
    assert (history + [ok])[..|history|] == history;
  }

  lemma ForwardCounts(c: Config, s: World, k: Kernel, udpSent: bool)
    requires O.Core(s) && Counted(s) && Enabled(c, s, Forward(k, udpSent))
    ensures Counted(NextForward(c, s, k, udpSent))
  {
    hide Forwarded1, ForwardSucceeds, HistoryOf, SlowForwards, TrailingFailures, O.RegsOwned, O.MapOwned,
         O.StreamOwned;
    var sid := s.stream.queue[0];
    var x, number := s.objs[sid], |s.packets| - 1;
    var ok := ForwardSucceeds(c, x, s.packets[number], k, udpSent);
    var t := NextForward(c, s, k, udpSent);
    O.ForwardFds(c, x, s.packets[number], number, s.now, k);
    FailuresAppend(HistoryOf(s.forwards, sid), ok);
    ForwardsAppend(s.forwards, sid, ok, sid);
    forall other | other in t.objs ensures t.objs[other].drops == TrailingFailures(HistoryOf(t.forwards, other)) {
      ForwardsAppend(s.forwards, sid, ok, other);
      if other != sid {
        assert HistoryOf(s.forwards, other) + [] == HistoryOf(s.forwards, other);
      }
    }
    assert O.SessOwned(s, sid);
  }

  /** Steps that neither forward nor create keep every counter. */
  lemma OthersCount(s: World, t: World)
    requires Counted(s) && t.forwards == s.forwards && t.dropped == s.dropped && t.nextSid >= s.nextSid
    requires forall sid :: sid in t.objs ==> sid in s.objs && t.objs[sid].drops == s.objs[sid].drops
    requires (t.epoll.Accepted? || t.epoll.Counted? || t.epoll.Registered?) ==>
               || t.epoll.sid == s.nextSid
               || ((s.epoll.Accepted? || s.epoll.Counted? || s.epoll.Registered?) && t.epoll.sid == s.epoll.sid)
    ensures Counted(t)
  {
  }

  lemma DoKeepsDrops(c: Config, x: Sess, op: Forwarder.Op)
    ensures Do(c, x, op).drops == x.drops
  {
    hide Forwarder.Step;
  }

  lemma AnswerKeepsDrops(c: Config, x: Sess, request: P.Request, env: Env, udp: set<int>)
    ensures Answer(c, x, request, env, udp).drops == x.drops
  {
    hide Handle, Forwarder.Step;
  }

  lemma ReapCounts(s: World)
    requires Counted(s)
    ensures Counted(Reap(s))
  {
    hide Live, DeadFds, Counted;
    OthersCount(s, Reap(s));
  }

  lemma RequestCounts(c: Config, s: World, a: Action)
    requires Counted(s) && Enabled(c, s, a) && (a.Respond? || a.Finish? || a.Ignore?)
    ensures Counted(Next(c, s, a))
  {
    hide P.ParseMessage, Answer, PhaseSet, Counted;
    if a.Respond? {
      AnswerKeepsDrops(c, s.objs[s.epoll.sid], P.ParseMessage(a.handed).value, a.env, a.udp);
    }
    OthersCount(s, Next(c, s, a));
  }

  lemma WriteCounts(c: Config, s: World, fd: int, k: Kernel)
    requires Counted(s) && Enabled(c, s, WriteEvent(fd, k))
    ensures Counted(NextWrite(c, s, fd, k))
  {
    hide Do, Counted, Reap;
    var sid := s.sessions[fd];
    DoKeepsDrops(c, s.objs[sid], Forwarder.FlushOp(k));
    var t := PutSess(s, sid, Do(c, s.objs[sid], Forwarder.FlushOp(k)));
    OthersCount(s, t);
    OthersCount(t, EndConnection(t, fd));
    ReapCounts(EndConnection(t, fd));
    OthersCount(t, t.(regs := SetWrite(t.regs, fd, false)));
  }

  lemma InsertCounts(s: World, id: string)
    requires Counted(s) && s.epoll.Registered?
    ensures Counted(NextInsert(s, id))
  {
    hide HistoryOf, SlowForwards;
    NoHistory(s.forwards, s.epoll.sid);
  }

  lemma ClosingCounts(c: Config, s: World, a: Action)
    requires Counted(s) && Enabled(c, s, a)
    requires a.EndRead? || a.ErrorEvent? || a.CloseTimedOut? || a.EndBroadcast?
    ensures Counted(Next(c, s, a))
  {
    hide Counted, Reap, Mapped, P.ParseMessage, NextInsert, NextRespond, NextFinish, NextWrite, NextForward,
         NextScan, NextStop;
    match a
    case EndRead(close) =>
      var u := (if close then EndConnection(s, s.objs[s.epoll.sid].fd) else s).(epoll := Idle);
      OthersCount(s, u);
      ReapCounts(u);
    case ErrorEvent(fd) =>
      OthersCount(s, EndConnection(s, fd));
      ReapCounts(EndConnection(s, fd));
    case CloseTimedOut =>
      var u := CloseConnection(s, s.epoll.closing).(epoll := Closing(s.epoll.todo));
      OthersCount(s, u);
      ReapCounts(u);
    case EndBroadcast =>
      OthersCount(s, s.(stream := Quiet));
      ReapCounts(s.(stream := Quiet));
  }

  lemma StopCounts(s: World)
    requires Counted(s)
    ensures Counted(NextStop(s))
  {
    hide Counted, Reap, Mapped;
    O.StopIsReap(s);
    var u := Forgotten(s).(ended := NextStop(s).ended);
    OthersCount(s, u);
    ReapCounts(u);
  }

  lemma StepKeepsCounted(c: Config, s: World, a: Action)
    requires O.Owned(s) && Counted(s) && Enabled(c, s, a)
    ensures Counted(Next(c, s, a))
  {
    hide O.SessionsOwned, O.RegsOwned, O.MapOwned, O.StreamOwned, O.PendingOwned, Counted, Reap,
         P.ParseMessage, NextInsert, NextRespond, NextFinish, NextWrite, NextForward, NextStop, EndConnection,
         CloseConnection, Collected;
    match a
    case Insert(id) => InsertCounts(s, id);
    case Respond(_, _, _) => RequestCounts(c, s, a);
    case Finish => RequestCounts(c, s, a);
    case Ignore(_) => RequestCounts(c, s, a);
    case WriteEvent(fd, k) => WriteCounts(c, s, fd, k);
    case Forward(k, udpSent) => ForwardCounts(c, s, k, udpSent);
    case EndRead(_) => ClosingCounts(c, s, a);
    case ErrorEvent(_) => ClosingCounts(c, s, a);
    case CloseTimedOut => ClosingCounts(c, s, a);
    case EndBroadcast => ClosingCounts(c, s, a);
    case StopClear => StopCounts(s);
    case _ => PlainCounts(c, s, a);
  }

  lemma PlainCounts(c: Config, s: World, a: Action)
    requires Counted(s) && Enabled(c, s, a)
    requires a.Accept? || a.Count? || a.Register? || a.StartRead? || a.Scan? || a.CountTimeout? || a.ScanDone?
             || a.Snapshot? || a.Arm? || a.StopFlag? || a.Second? || a.Expiry?
    ensures Counted(Next(c, s, a))
  {
    hide Counted, Collected, P.ParseMessage, NextInsert, NextRespond, NextFinish, NextWrite, NextForward,
         NextStop, Reap, EndConnection, CloseConnection, PlayingSessions;
    OthersCount(s, Next(c, s, a));
  }

  lemma {:induction false} ReachableIsCounted(c: Config, states: seq<World>, actions: seq<Action>, i: nat)
    requires IsRun(c, states, actions) && i < |states|
    ensures Counted(states[i])
  {
    hide O.Owned, Counted, Enabled, Next;
    if i == 0 {
      StartIsCounted();
    } else {
      O.ReachableIsOwned(c, states, actions, i - 1);
      ReachableIsCounted(c, states, actions, i - 1);
      StepKeepsCounted(c, states[i - 1], actions[i - 1]);
    }
  }

  lemma StartIsCounted()
    ensures Counted(START)
  {
  }

  /** The counters of every reachable state, from the history of forwards alone. */
  lemma DropsAreExact(c: Config, s: World)
    requires Reachable(c, s)
    ensures s.dropped == SlowForwards(s.forwards)
    ensures forall sid :: sid in s.objs ==> s.objs[sid].drops == TrailingFailures(HistoryOf(s.forwards, sid))
  {
    var states, actions :| IsRun(c, states, actions) && states[|states| - 1] == s;
    ReachableIsCounted(c, states, actions, |states| - 1);
  }

  /** A forward marks its session exactly if it and the 99 forwards to that session before it failed. */
  lemma MarkedExactly(c: Config, s: World, k: Kernel, udpSent: bool)
    requires Reachable(c, s) && Enabled(c, s, Forward(k, udpSent))
    ensures var t := Next(c, s, Forward(k, udpSent)); var sid := s.stream.queue[0];
            var h := HistoryOf(t.forwards, sid);
            && t.dropped == s.dropped + (if LastFailed(h) then 1 else 0)
            && sid in t.objs
            && (t.objs[sid].view.phase == if LastFailed(h) then Phase.Teardown else s.objs[sid].view.phase)
  {
    hide Forwarded1, ForwardSucceeds, HistoryOf, TrailingFailures, Reachable;
    var t, sid, number := Next(c, s, Forward(k, udpSent)), s.stream.queue[0], |s.packets| - 1;
    var x := s.objs[sid];
    var ok := ForwardSucceeds(c, x, s.packets[number], k, udpSent);
    DropsAreExact(c, s);
    O.ForwardFds(c, x, s.packets[number], number, s.now, k);
    ForwardsAppend(s.forwards, sid, ok, sid);
    FailuresAppend(HistoryOf(s.forwards, sid), ok);
    LastFailedMeans(HistoryOf(t.forwards, sid));
  }

  /** The last 100 results are all failures. */
  predicate LastFailed(h: seq<bool>) {
    100 <= |h| && forall i :: |h| - 100 <= i < |h| ==> !h[i]
  }

  lemma LastFailedMeans(h: seq<bool>)
    ensures LastFailed(h) <==> TrailingFailures(h) >= MAX_CONSECUTIVE_DROPS
  {
    TrailingFailuresExact(h);
  }
}

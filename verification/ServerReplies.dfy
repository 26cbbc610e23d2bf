/**
 One response per request in the two-thread server: whatever the stream thread does in between, what a session
 has sent are the responses to its own requests, in order.
 */
module ServerReplies {
  import opened Service
  import opened Transport
  import opened Framing
  import opened Forwarder
  import opened Server
  import O = ServerOwnership
  import F = ServerFlush
  import P = Parser

  /** The CSeqs of the responses among a session's operations. */
  function SentCSeqs(ops: seq<Op>): seq<int> {
    if ops == [] then []
    else
      var last := ops[|ops| - 1];
      SentCSeqs(ops[..|ops| - 1])
      + if last.Offer? && last.item.Response? then [last.item.reply.cseq] else []
  }

  /** What one step asks of session `sid`. */
  function Asked(s: World, a: Action, sid: Sid): seq<int> {
    if a.Respond? && s.epoll.Reading? && s.epoll.sid == sid && P.ParseMessage(a.handed).Ok?
    then [P.ParseMessage(a.handed).value.cseq] else []
  }

  /** The CSeqs of the requests of session `sid` in the first `n` steps of a run. */
  function AskedCSeqs(states: seq<World>, actions: seq<Action>, sid: Sid, n: nat): seq<int>
    requires n <= |actions| <= |states|
  {
    if n == 0 then []
    else AskedCSeqs(states, actions, sid, n - 1) + Asked(states[n - 1], actions[n - 1], sid)
  }

  lemma SentAppend(ops: seq<Op>, op: Op)
    ensures SentCSeqs(ops + [op])
         == SentCSeqs(ops) + if op.Offer? && op.item.Response? then [op.item.reply.cseq] else []
  {
    assert (ops + [op])[..|ops|] == ops;
  }

  /** How one step changes what session `sid` has sent. */
  ghost predicate SentFollows(s: World, t: World, a: Action, sid: Sid) {
    sid in t.objs ==>
      if sid in s.objs then SentCSeqs(t.objs[sid].ops) == SentCSeqs(s.objs[sid].ops) + Asked(s, a, sid)
      else a.Insert? && s.epoll.Registered? && sid == s.epoll.sid && t.objs[sid].ops == []
  }

  // ----- Steps -----

  lemma RespondSends(c: Config, s: World, a: Action, sid: Sid)
    requires F.BuffersFit(c, s) && Enabled(c, s, a) && a.Respond?
    ensures SentFollows(s, Next(c, s, a), a, sid)
  {
    hide P.ParseMessage, Answer, PhaseSet, SentCSeqs;
    var x, request := s.objs[s.epoll.sid], P.ParseMessage(a.handed).value;
    AnswerSends(c, x, request, a.env, a.udp);
    if sid in s.objs && sid != s.epoll.sid {
      assert SentCSeqs(s.objs[sid].ops) + [] == SentCSeqs(s.objs[sid].ops);
    }
  }

  lemma AnswerSends(c: Config, x: Sess, request: P.Request, env: Env, udp: set<int>)
    requires |x.out.buf| <= c.capacity
    ensures SentCSeqs(Answer(c, x, request, env, udp).ops) == SentCSeqs(x.ops) + [request.cseq]
  {
    hide Forwarder.Step, Handle, SentCSeqs;
    var v := x.view.(lastActivity := env.now);
    ReplyCarriesCSeq(v, request, env);
    SentAppend(x.ops, Offer(Response(Handle(v, request, env).reply), env.k));
  }

  lemma DoSendsNothing(c: Config, x: Sess, op: Op)
    requires !(op.Offer? && op.item.Response?)
    ensures SentCSeqs(Do(c, x, op).ops) == SentCSeqs(x.ops)
  {
    hide Forwarder.Step, SentCSeqs;
    SentAppend(x.ops, op);
    assert SentCSeqs(x.ops) + [] == SentCSeqs(x.ops);
  }

  /** Steps that answer nobody and create nobody. */
  lemma SameSent(s: World, t: World, a: Action, sid: Sid)
    requires !a.Respond?
    requires sid in t.objs ==> sid in s.objs && SentCSeqs(t.objs[sid].ops) == SentCSeqs(s.objs[sid].ops)
    ensures SentFollows(s, t, a, sid)
  {
    hide SentCSeqs;
    if sid in t.objs { assert SentCSeqs(s.objs[sid].ops) + [] == SentCSeqs(s.objs[sid].ops); }
  }

  lemma ForwardSends(c: Config, s: World, k: Kernel, udpSent: bool, sid: Sid)
    requires Enabled(c, s, Forward(k, udpSent))
    ensures SentFollows(s, Next(c, s, Forward(k, udpSent)), Forward(k, udpSent), sid)
  {
    hide ForwardSucceeds, Do, SentCSeqs, SentFollows;
    var x, packet := s.objs[s.stream.queue[0]], s.packets[|s.packets| - 1];
    DoSendsNothing(c, x.(view := x.view.(lastActivity := s.now)), Offer(Media(packet), k));
    SameSent(s, NextForward(c, s, k, udpSent), Forward(k, udpSent), sid);
  }

  lemma WriteSends(c: Config, s: World, fd: int, k: Kernel, sid: Sid)
    requires Enabled(c, s, WriteEvent(fd, k))
    ensures SentFollows(s, Next(c, s, WriteEvent(fd, k)), WriteEvent(fd, k), sid)
  {
    hide Do, SentCSeqs, SentFollows, Live, DeadFds, SetWrite;
    DoSendsNothing(c, s.objs[s.sessions[fd]], FlushOp(k));
    SameSent(s, NextWrite(c, s, fd, k), WriteEvent(fd, k), sid);
  }

  lemma StopSends(c: Config, s: World, sid: Sid)
    requires Enabled(c, s, StopClear)
    ensures SentFollows(s, Next(c, s, StopClear), StopClear, sid)
  {
    hide SentCSeqs, SentFollows, Forgotten, Reap, NextStop;
    O.StopIsReap(s);
    ForgottenSent(s, sid);
    ReapSent(Forgotten(s).(ended := NextStop(s).ended), sid);
    SameSent(s, NextStop(s), StopClear, sid);
  }

  lemma ReapSent(s: World, sid: Sid)
    ensures sid in Reap(s).objs ==> sid in s.objs && Reap(s).objs[sid] == s.objs[sid]
  {
    hide Live, DeadFds;
  }

  lemma ForgottenSent(s: World, sid: Sid)
    ensures var u := Forgotten(s); sid in u.objs ==> sid in s.objs && u.objs[sid].ops == s.objs[sid].ops
  {
    hide Mapped;
  }

  lemma RestSends(c: Config, s: World, a: Action, sid: Sid)
    requires Enabled(c, s, a)
    requires !a.Respond? && !a.Insert? && !a.Forward? && !a.WriteEvent? && !a.StopClear?
    ensures SentFollows(s, Next(c, s, a), a, sid)
  {
    hide SentCSeqs, SentFollows, P.ParseMessage, Live, DeadFds, NextInsert, NextRespond, NextForward,
         NextWrite, NextStop, Collected, PlayingSessions, SetWrite;
    SameSent(s, Next(c, s, a), a, sid);
  }

  lemma InsertSends(c: Config, s: World, id: string, sid: Sid)
    requires O.PendingOwned(s) && Enabled(c, s, Insert(id))
    ensures SentFollows(s, Next(c, s, Insert(id)), Insert(id), sid)
  {
    hide SentCSeqs;
    if sid in s.objs { assert SentCSeqs(s.objs[sid].ops) + [] == SentCSeqs(s.objs[sid].ops); }
  }

  lemma StepSends(c: Config, s: World, a: Action, sid: Sid)
    requires O.Owned(s)
    requires F.BuffersFit(c, s) && Enabled(c, s, a)
    ensures SentFollows(s, Next(c, s, a), a, sid)
  {
    hide Next, Enabled, SentFollows, O.PendingOwned;
    match a
    case Respond(_, _, _) => RespondSends(c, s, a, sid);
    case Forward(k, udpSent) => ForwardSends(c, s, k, udpSent, sid);
    case WriteEvent(fd, k) => WriteSends(c, s, fd, k, sid);
    case StopClear => StopSends(c, s, sid);
    case Insert(id) => InsertSends(c, s, id, sid);
    case _ => RestSends(c, s, a, sid);
  }

  // ----- Runs -----

  /** The session does not exist yet. */
  predicate Unborn(s: World, sid: Sid) {
    s.nextSid <= sid || ((s.epoll.Accepted? || s.epoll.Counted? || s.epoll.Registered?) && s.epoll.sid == sid)
  }

  /** Nobody asks a session that does not exist. */
  lemma UnbornIsNotAsked(c: Config, s: World, a: Action, sid: Sid)
    requires O.SessionsOwned(s) && Enabled(c, s, a) && Unborn(s, sid)
    ensures Asked(s, a, sid) == []
  {
    hide P.ParseMessage;
    if a.Respond? { assert O.SessOwned(s, s.epoll.sid); }
  }

  /** Whoever does not exist after a step did not exist before it. */
  lemma UnbornWasUnborn(c: Config, s: World, a: Action, sid: Sid)
    requires Enabled(c, s, a)
    ensures Unborn(Next(c, s, a), sid) ==> Unborn(s, sid)
  {
    hide Next, Enabled;
    if a.Accept? || a.Count? || a.Register? {
      ConnectingWasUnborn(c, s, a, sid);
    } else {
      NumbersStay(c, s, a);
    }
  }

  lemma ConnectingWasUnborn(c: Config, s: World, a: Action, sid: Sid)
    requires Enabled(c, s, a) && (a.Accept? || a.Count? || a.Register?)
    ensures Unborn(Next(c, s, a), sid) ==> Unborn(s, sid)
  {
    hide P.ParseMessage, NextInsert, NextRespond, NextFinish, NextWrite, NextForward, NextScan, NextStop, Reap,
         EndConnection, CloseConnection, PlayingSessions, SetWrite;
  }

  /** The next number, and a connection that has none of its own objects yet, are as before. */
  predicate SameNumbers(s: World, t: World) {
    t.nextSid == s.nextSid && (t.epoll.Accepted? || t.epoll.Counted? || t.epoll.Registered? ==> t.epoll == s.epoll)
  }

  /** Only an accepted connection gets a new number. */
  lemma NumbersStay(c: Config, s: World, a: Action)
    requires Enabled(c, s, a) && !a.Accept? && !a.Count? && !a.Register?
    ensures SameNumbers(s, Next(c, s, a))
  {
    hide P.ParseMessage, Answer, PhaseSet, Forwarded1, ForwardSucceeds, Reap, NextWrite, NextStop,
         EndConnection, CloseConnection, Collected, PlayingSessions, SetWrite;
    match a
    case EndRead(_) =>
      EndingNumbers(s, s.objs[s.epoll.sid].fd, Idle);
      ReapNumbers(s.(epoll := Idle));
    case ErrorEvent(fd) => EndingNumbers(s, fd, Idle);
    case CloseTimedOut => EndingNumbers(s, s.epoll.closing, Closing(s.epoll.todo));
    case EndBroadcast => ReapNumbers(s.(stream := Quiet));
    case StopClear => StopNumbers(s);
    case WriteEvent(fd, k) => WriteNumbers(c, s, fd, k);
    case _ =>
  }

  lemma ReapNumbers(s: World)
    ensures Reap(s).nextSid == s.nextSid && Reap(s).epoll == s.epoll
  {
    hide Live, DeadFds;
  }

  lemma EndingNumbers(s: World, fd: int, pc: EpollPc)
    ensures Reap(EndConnection(s, fd)).nextSid == s.nextSid && Reap(EndConnection(s, fd)).epoll == s.epoll
    ensures Reap(EndConnection(s, fd).(epoll := pc)).nextSid == s.nextSid
    ensures Reap(EndConnection(s, fd).(epoll := pc)).epoll == pc
    ensures Reap(CloseConnection(s, fd).(epoll := pc)).nextSid == s.nextSid
    ensures Reap(CloseConnection(s, fd).(epoll := pc)).epoll == pc
  {
    hide Reap;
    ReapNumbers(EndConnection(s, fd));
    ReapNumbers(EndConnection(s, fd).(epoll := pc));
    ReapNumbers(CloseConnection(s, fd).(epoll := pc));
  }

  lemma StopNumbers(s: World)
    ensures SameNumbers(s, NextStop(s))
  {
    hide Reap, Mapped, Stopped, Todo, InClosing;
    O.StopIsReap(s);
    ReapNumbers(Forgotten(s).(ended := NextStop(s).ended));
  }

  lemma WriteNumbers(c: Config, s: World, fd: int, k: Kernel)
    requires Enabled(c, s, WriteEvent(fd, k))
    ensures SameNumbers(s, NextWrite(c, s, fd, k))
  {
    hide Reap, Do, SetWrite, EndConnection, CloseConnection;
    var t := PutSess(s, s.sessions[fd], Do(c, s.objs[s.sessions[fd]], FlushOp(k)));
    EndingNumbers(t, fd, Idle);
  }

  lemma {:induction false} SentInRun(c: Config, states: seq<World>, actions: seq<Action>, n: nat, sid: Sid)
    requires IsRun(c, states, actions) && n < |states|
    ensures sid in states[n].objs ==> SentCSeqs(states[n].objs[sid].ops) == AskedCSeqs(states, actions, sid, n)
    ensures Unborn(states[n], sid) ==> AskedCSeqs(states, actions, sid, n) == []
  {
    hide Enabled, Next, O.Owned, F.BuffersFit, Asked, SentCSeqs, Unborn;
    if n > 0 {
      var s, a := states[n - 1], actions[n - 1];
      SentInRun(c, states, actions, n - 1, sid);
      O.ReachableIsOwned(c, states, actions, n - 1);
      F.ReachableFits(c, states, actions, n - 1);
      StepSends(c, s, a, sid);
      UnbornWasUnborn(c, s, a, sid);
      if Unborn(s, sid) {
        OwnedSessions(s);
        UnbornIsNotAsked(c, s, a, sid);
      }
      if sid !in s.objs && sid in states[n].objs {
        assert Unborn(s, sid) by { PendingIsUnborn(s); }
        assert SentCSeqs([]) == [] by { NothingSent(); }
      }
    }
  }

  lemma OwnedSessions(s: World)
    requires O.Owned(s)
    ensures O.SessionsOwned(s)
  {
  }

  lemma PendingIsUnborn(s: World)
    requires s.epoll.Registered?
    ensures Unborn(s, s.epoll.sid)
  {
  }

  lemma NothingSent()
    ensures SentCSeqs([]) == []
  {
  }

  /**
   Section 12.17 of RFC 2326 for every run: the responses that a session has attempted to send carry the CSeqs of
   exactly the requests it was handed, in order, whatever packets and flushes come between them.
   */
  lemma OneResponsePerRequest(c: Config, states: seq<World>, actions: seq<Action>, n: nat, sid: Sid)
    requires IsRun(c, states, actions) && n < |states| && sid in states[n].objs
    ensures SentCSeqs(states[n].objs[sid].ops) == AskedCSeqs(states, actions, sid, n)
  {
    SentInRun(c, states, actions, n, sid);
  }
}

/**
 UDP sessions over whole runs: from an accepted UDP SETUP on, no packet enters the session's connection.
 */
module ServerUdp {
  import opened Bytes
  import opened Service
  import opened Transport
  import opened Framing
  import opened Forwarder
  import opened Server
  import O = ServerOwnership
  import D = ServerDelivery
  import F = ServerFlush
  import R = ServerReplies
  import P = Parser

  /** A session that uses UDP still does after the step, and has been offered no packet on its connection. */
  ghost predicate StaysUdp(s: World, t: World, sid: Sid) {
    sid in s.objs && sid in t.objs && s.objs[sid].view.isUdp ==>
      t.objs[sid].view.isUdp && D.MediaOf(t.objs[sid].ops) == D.MediaOf(s.objs[sid].ops)
  }

  // ----- Steps -----

  lemma AnswerStaysUdp(c: Config, x: Sess, request: P.Request, env: Env, udp: set<int>)
    ensures var y := Answer(c, x, request, env, udp);
            && (y.view.isUdp <==> x.view.isUdp || OpensUdp(request, env))
            && D.MediaOf(y.ops) == D.MediaOf(x.ops)
  {
    hide Forwarder.Step, Handle, D.MediaOf, D.HasPlay, D.PlayFirst;
    var v := x.view.(lastActivity := env.now);
    var op := Offer(Response(Handle(v, request, env).reply), env.k);
    UdpIsSetExactly(v, request, env);
    D.OpsAppend(x.ops, op);
    assert D.MediaOf(x.ops) + [] == D.MediaOf(x.ops);
  }

  lemma FlushOffersNothing(c: Config, x: Sess, k: Kernel)
    ensures var y := Do(c, x, FlushOp(k)); y.view == x.view && D.MediaOf(y.ops) == D.MediaOf(x.ops)
  {
    hide Forwarder.Step, D.MediaOf, D.HasPlay, D.PlayFirst;
    D.OpsAppend(x.ops, FlushOp(k));
    assert D.MediaOf(x.ops) + [] == D.MediaOf(x.ops);
  }

  lemma RespondStaysUdp(c: Config, s: World, a: Action, sid: Sid)
    requires Enabled(c, s, a) && a.Respond?
    ensures StaysUdp(s, Next(c, s, a), sid)
  {
    hide P.ParseMessage, Answer, PhaseSet, D.MediaOf, OpensUdp;
    AnswerStaysUdp(c, s.objs[s.epoll.sid], P.ParseMessage(a.handed).value, a.env, a.udp);
  }

  lemma ForwardStaysUdp(c: Config, s: World, k: Kernel, udpSent: bool, sid: Sid)
    requires Enabled(c, s, Forward(k, udpSent))
    ensures StaysUdp(s, Next(c, s, Forward(k, udpSent)), sid)
  {
    hide ForwardSucceeds, Do, D.MediaOf;
  }

  lemma WriteStaysUdp(c: Config, s: World, fd: int, k: Kernel, sid: Sid)
    requires Enabled(c, s, WriteEvent(fd, k))
    ensures StaysUdp(s, Next(c, s, WriteEvent(fd, k)), sid)
  {
    hide Do, Live, DeadFds, SetWrite, D.MediaOf;
    FlushOffersNothing(c, s.objs[s.sessions[fd]], k);
  }

  lemma StopStaysUdp(s: World, sid: Sid)
    ensures StaysUdp(s, NextStop(s), sid)
  {
    hide Forgotten, Reap, NextStop, D.MediaOf;
    O.StopIsReap(s);
    ForgottenStaysUdp(s, sid);
    R.ReapSent(Forgotten(s).(ended := NextStop(s).ended), sid);
  }

  lemma ForgottenStaysUdp(s: World, sid: Sid)
    ensures var u := Forgotten(s);
            sid in u.objs ==> sid in s.objs && u.objs[sid].ops == s.objs[sid].ops
                              && u.objs[sid].view.isUdp == s.objs[sid].view.isUdp
  {
    hide Mapped;
  }

  lemma RestStaysUdp(c: Config, s: World, a: Action, sid: Sid)
    requires Enabled(c, s, a)
    requires !a.Respond? && !a.Insert? && !a.Forward? && !a.WriteEvent? && !a.StopClear?
    ensures StaysUdp(s, Next(c, s, a), sid)
  {
    hide P.ParseMessage, Live, DeadFds, NextInsert, NextRespond, NextForward, NextWrite, NextStop, Collected,
         PlayingSessions, SetWrite, D.MediaOf;
  }

  lemma InsertStaysUdp(c: Config, s: World, id: string, sid: Sid)
    requires O.PendingOwned(s) && Enabled(c, s, Insert(id))
    ensures StaysUdp(s, Next(c, s, Insert(id)), sid)
  {
    hide D.MediaOf;
  }

  lemma StepStaysUdp(c: Config, s: World, a: Action, sid: Sid)
    requires O.Owned(s) && Enabled(c, s, a)
    ensures StaysUdp(s, Next(c, s, a), sid)
  {
    hide Next, Enabled, StaysUdp, O.PendingOwned;
    match a
    case Insert(id) => InsertStaysUdp(c, s, id, sid);
    case Respond(_, _, _) => RespondStaysUdp(c, s, a, sid);
    case Forward(k, udpSent) => ForwardStaysUdp(c, s, k, udpSent, sid);
    case WriteEvent(fd, k) => WriteStaysUdp(c, s, fd, k, sid);
    case StopClear => StopIsNext(c, s, sid);
    case _ => RestStaysUdp(c, s, a, sid);
  }

  lemma StopIsNext(c: Config, s: World, sid: Sid)
    requires Enabled(c, s, StopClear)
    ensures StaysUdp(s, Next(c, s, StopClear), sid)
  {
    hide NextStop, StaysUdp;
    StopStaysUdp(s, sid);
  }

  // ----- Runs -----

  /** A session that exists before and after exists in between. */
  lemma StaysKnown(c: Config, s: World, a: Action, sid: Sid)
    requires O.Owned(s) && F.BuffersFit(c, s) && Enabled(c, s, a) && !R.Unborn(s, sid)
    ensures sid in Next(c, s, a).objs ==> sid in s.objs
  {
    hide Next, Enabled, O.Owned, F.BuffersFit, R.SentCSeqs, R.Asked;
    R.StepSends(c, s, a, sid);
  }

  lemma {:induction false} RunStaysUdp(c: Config, states: seq<World>, actions: seq<Action>, i: nat, j: nat, sid: Sid)
    requires IsRun(c, states, actions) && i <= j < |states| && sid in states[i].objs && sid in states[j].objs
    ensures StaysUdp(states[i], states[j], sid)
    ensures !R.Unborn(states[j], sid)
    decreases j - i
  {
    hide Enabled, Next, O.Owned, F.BuffersFit, R.Unborn, D.MediaOf;
    if i == j {
      O.ReachableIsOwned(c, states, actions, i);
      KnownIsBorn(states[i], sid);
    } else {
      var s, a := states[j - 1], actions[j - 1];
      BornSince(c, states, actions, i, j - 1, sid);
      O.ReachableIsOwned(c, states, actions, j - 1);
      F.ReachableFits(c, states, actions, j - 1);
      StaysKnown(c, s, a, sid);
      RunStaysUdp(c, states, actions, i, j - 1, sid);
      StepStaysUdp(c, s, a, sid);
      R.UnbornWasUnborn(c, s, a, sid);
    }
  }

  lemma KnownIsBorn(s: World, sid: Sid)
    requires O.Owned(s) && sid in s.objs
    ensures !R.Unborn(s, sid)
  {
    hide O.RegsOwned, O.MapOwned, O.StreamOwned, Live;
    assert O.SessOwned(s, sid);
  }

  lemma {:induction false} BornSince(c: Config, states: seq<World>, actions: seq<Action>, i: nat, j: nat, sid: Sid)
    requires IsRun(c, states, actions) && i <= j < |states| && sid in states[i].objs
    ensures !R.Unborn(states[j], sid)
    decreases j - i
  {
    hide Enabled, Next, O.Owned, R.Unborn;
    if i == j {
      O.ReachableIsOwned(c, states, actions, i);
      KnownIsBorn(states[i], sid);
    } else {
      BornSince(c, states, actions, i, j - 1, sid);
      R.UnbornWasUnborn(c, states[j - 1], actions[j - 1], sid);
    }
  }

  /**
   From the step that answers an accepted UDP SETUP on, the session uses UDP, and no packet is put on its connection,
   whatever the two threads do.
   */
  lemma UdpSetupEndsMedia(c: Config, states: seq<World>, actions: seq<Action>, m: nat, j: nat, sid: Sid)
    requires IsRun(c, states, actions) && m < j < |states|
    requires Enabled(c, states[m], actions[m]) && actions[m].Respond? && states[m].epoll.sid == sid
    requires OpensUdp(P.ParseMessage(actions[m].handed).value, actions[m].env)
    requires sid in states[m].objs && sid in states[j].objs
    ensures states[j].objs[sid].view.isUdp
    ensures D.MediaOf(states[j].objs[sid].ops) == D.MediaOf(states[m].objs[sid].ops)
  {
    hide O.Owned, F.BuffersFit, R.Unborn, D.MediaOf, P.ParseMessage, Answer, PhaseSet, OpensUdp;
    AnswerStaysUdp(c, states[m].objs[sid], P.ParseMessage(actions[m].handed).value, actions[m].env, actions[m].udp);
    RespondIsNext(c, states[m], actions[m]);
    RunStaysUdp(c, states, actions, m + 1, j, sid);
  }

  lemma RespondIsNext(c: Config, s: World, a: Action)
    requires Enabled(c, s, a) && a.Respond?
    ensures Next(c, s, a) == NextRespond(c, s, P.ParseMessage(a.handed).value, a.env, a.udp)
  {
  }

  // ----- The UDP sockets -----

  /** An accepted UDP SETUP gives the session its new sockets and closes those it had; other requests change none. */
  lemma RespondSwapsSockets(c: Config, s: World, a: Action)
    requires O.Owned(s) && Enabled(c, s, a) && a.Respond?
    ensures var sid := s.epoll.sid; var x, t := s.objs[sid], Next(c, s, a);
            if OpensUdp(P.ParseMessage(a.handed).value, a.env) then
              t.objs[sid].udp == a.udp && x.udp !! t.open && a.udp <= t.open
            else t.objs[sid].udp == x.udp && t.open == s.open
  {
    hide P.ParseMessage, PhaseSet, Forwarder.Step, O.RegsOwned, O.MapOwned, O.StreamOwned, O.PendingOwned, Live;
    var sid := s.epoll.sid;
    assert O.SessOwned(s, sid);
    AnswerSockets(c, s.objs[sid], P.ParseMessage(a.handed).value, a.env, a.udp);
    assert s.open - s.objs[sid].udp + s.objs[sid].udp == s.open;
  }

  lemma AnswerSockets(c: Config, x: Sess, request: P.Request, env: Env, udp: set<int>)
    ensures Answer(c, x, request, env, udp).udp == if OpensUdp(request, env) then udp else x.udp
  {
    hide Handle, Forwarder.Step;
    UdpIsSetExactly(x.view.(lastActivity := env.now), request, env);
  }

  /** The end of a TEARDOWN closes the session's sockets; the end of another request closes none. */
  lemma FinishCloses(c: Config, s: World)
    requires Enabled(c, s, Finish)
    ensures var sid := s.epoll.sid; var x, t := s.objs[sid], Next(c, s, Finish);
            if s.epoll.newPhase == Some(Phase.Teardown) then t.objs[sid].udp == {} && x.udp !! t.open
            else t.objs[sid].udp == x.udp && t.open == s.open
  {
    hide SetWrite;
  }

  /** `Stop` forgets every session, closes its UDP sockets, and puts those that somebody still holds in teardown. */
  lemma StopEndsAll(c: Config, s: World, sid: Sid)
    requires Enabled(c, s, StopClear) && sid in Mapped(s) && sid in s.objs
    ensures var t := Next(c, s, StopClear);
            && t.sessions == map[] && s.objs[sid].udp !! t.open
            && (sid in t.objs ==> t.objs[sid].udp == {} && t.objs[sid].view.phase == Phase.Teardown)
  {
    hide Mapped, Reap, Forgotten, NextStop;
    O.StopIsReap(s);
    var u := Forgotten(s).(ended := NextStop(s).ended);
    ForgottenEnds(s, sid);
    ReapShrinks(u, sid);
    StopIs(c, s);
  }

  lemma StopIs(c: Config, s: World)
    requires Enabled(c, s, StopClear)
    ensures Next(c, s, StopClear) == NextStop(s)
  {
    hide NextStop;
  }

  lemma ForgottenEnds(s: World, sid: Sid)
    requires sid in Mapped(s) && sid in s.objs
    ensures var u := Forgotten(s);
            && u.sessions == map[] && sid in u.objs && u.objs[sid].udp == {}
            && u.objs[sid].view.phase == Phase.Teardown && s.objs[sid].udp !! u.open
  {
    hide Mapped;
    forall fd | fd in s.objs[sid].udp ensures fd !in Forgotten(s).open {
    }
  }

  lemma ReapShrinks(s: World, sid: Sid)
    ensures Reap(s).open <= s.open && Reap(s).sessions == s.sessions
    ensures sid in Reap(s).objs ==> sid in s.objs && Reap(s).objs[sid] == s.objs[sid]
  {
    hide Live, DeadFds;
  }
}

/**
 The two-thread server, src/core/rtsp_server.cc, as a state machine.  The epoll thread, the stream thread
 and a thread that calls `Stop` take turns; a step is a critical section or a stretch that touches one
 session only.  Every pointer copy keeps its session alive, and a session's descriptors are closed when its
 last pointer goes.
 */
module Server {
  import opened Bytes
  import opened Builder
  import opened Transport
  import opened Service
  import opened Framing
  import opened Forwarder
  import S = Sessions
  import P = Parser

  type Sid = nat

  datatype Config = Config(maxSessions: nat, capacity: nat, connectionTimeout: int, sessionTimeout: int)

  /** A session object. */
  datatype Sess = Sess(
    id: string,
    fd: int,
    udp: set<int>,        // its UDP descriptors
    view: View,
    out: Out,
    ops: seq<Op>,         // what was done to `out`, in lock order
    offered: seq<nat>,    // the numbers of the packets among `ops`
    drops: nat,           // consecutive_drops_
    phaseScan: nat)       // timeout scans made when the phase was last set

  datatype Reg = Reg(owner: Sid, write: bool)

  /** Where the epoll thread is. */
  datatype EpollPc =
    | Idle
    | Accepted(fd: int, sid: Sid)                    // below the session limit
    | Counted(fd: int, sid: Sid)                     // total_connections_ incremented
    | Registered(fd: int, sid: Sid)                  // added to the event loop
    | Reading(sid: Sid)                              // in the read loop, between requests
    | Answered(sid: Sid, newPhase: Option<Phase>)    // response sent, phase not yet set
    | Closing(todo: set<int>)                        // closing what the timeout scan collected
    | ClosingOne(closing: int, todo: set<int>)       // timed_out_sessions_ incremented for `closing`

  /** Where the stream thread is: the pointers it copied, and those it still has to serve. */
  datatype StreamPc =
    | Quiet
    | Broadcasting(queue: seq<Sid>, held: set<Sid>)
    | Arming(sid: Sid, queue: seq<Sid>, held: set<Sid>)

  datatype World = World(
    objs: map<Sid, Sess>,
    sessions: map<int, Sid>,
    regs: map<int, Reg>,
    open: set<int>,
    epoll: EpollPc,
    stream: StreamPc,
    packets: seq<Packet>,
    forwards: seq<(Sid, bool)>,   // every forward and whether it succeeded
    running: bool,
    nextSid: Sid,
    total: nat,
    timedOut: nat,
    dropped: nat,
    ended: nat,                   // counted connections that ended without being counted as timed out
    now: nat,
    due: bool,                    // the timer has expired since the last scan
    scans: nat,
    lastScan: nat,                // when the last scan was made, and the one before it
    scanBefore: nat)

  const START := World(map[], map[], map[], {}, Idle, Quiet, [], [], true, 0, 0, 0, 0, 0, 0, false, 0, 0, 0)

  /** What the timeout scan has collected and not begun to close, and what it is closing. */
  function Todo(pc: EpollPc): set<int> {
    match pc
    case Closing(todo) => todo
    case ClosingOne(_, todo) => todo
    case _ => {}
  }

  function InClosing(pc: EpollPc): set<int> {
    match pc
    case ClosingOne(fd, _) => {fd}
    case _ => {}
  }

  // ----- Lifetimes -----

  function StreamHeld(p: StreamPc): set<Sid> {
    match p
    case Quiet => {}
    case Broadcasting(_, held) => held
    case Arming(_, _, held) => held
  }

  function EpollHeld(p: EpollPc): set<Sid> {
    match p
    case Reading(sid) => {sid}
    case Answered(sid, _) => {sid}
    case _ => {}
  }

  /** Sessions in the server's map. */
  function Mapped(s: World): set<Sid> {
    set fd | fd in s.sessions :: s.sessions[fd]
  }

  /** Sessions somebody points to. */
  function Live(s: World): set<Sid> {
    Mapped(s) + StreamHeld(s.stream) + EpollHeld(s.epoll)
  }

  function Fds(x: Sess): set<int> {
    {x.fd} + x.udp
  }

  /** The descriptors of the sessions that only the dead point to. */
  function DeadFds(s: World): set<int> {
    set sid, fd | sid in s.objs && sid !in Live(s) && fd in Fds(s.objs[sid]) :: fd
  }

  /** Destroys the sessions nobody points to: their descriptors are closed, which unregisters them. */
  function Reap(s: World): World {
    s.(objs := map sid | sid in s.objs && sid in Live(s) :: s.objs[sid],
       open := s.open - DeadFds(s),
       regs := s.regs - DeadFds(s))
  }

  // ----- Pieces of steps -----

  /** `ModifyFd`: changes the write interest of a registration that exists. */
  function SetWrite(regs: map<int, Reg>, fd: int, write: bool): map<int, Reg> {
    if fd in regs then regs[fd := regs[fd].(write := write)] else regs
  }

  /** `CloseConnection`: unregisters and forgets; the caller's own pointer may outlive this. */
  function CloseConnection(s: World, fd: int): World {
    if fd in s.sessions then s.(sessions := s.sessions - {fd}, regs := s.regs - {fd}) else s
  }

  /** The same for a connection that does not end by timing out. */
  function EndConnection(s: World, fd: int): World {
    CloseConnection(s, fd).(ended := if fd in s.sessions then s.ended + 1 else s.ended)
  }

  function Do(c: Config, x: Sess, op: Op): Sess {
    if |x.out.buf| <= c.capacity then x.(out := Step(x.out, c.capacity, op, x.id), ops := x.ops + [op]) else x
  }

  /** The phase a handler sets at its end, if it sets one. */
  function PhaseSet(v: View, request: P.Request, env: Env): Option<Phase> {
    if Handle(v, request, env).status != Ok || request.method_ == P.GetParameter || request.method_ == P.SetParameter
    then None
    else Some(Handle(v, request, env).view.phase)
  }

  lemma PhaseSetIsHandled(v: View, request: P.Request, env: Env)
    ensures Handle(v, request, env).view.phase
         == match PhaseSet(v, request, env) { case Some(p) => p case None => v.phase }
  {
  }

  /** A session with its request answered: everything but the new phase. */
  function Answer(c: Config, x: Sess, request: P.Request, env: Env, udp: set<int>): Sess {
    var v := x.view.(lastActivity := env.now);
    var h := Handle(v, request, env);
    var y := x.(view := h.view.(phase := v.phase), udp := if h.reply.SetupUdpReply? then udp else x.udp);
    Do(c, y, Offer(Response(h.reply), env.k))
  }

  /** Answering and then setting the phase is serving the request as the session class does. */
  lemma AnswerThenPhaseIsServe(c: Config, x: Sess, handed: Bytes, env: Env, udp: set<int>, replies: seq<Reply>)
    requires P.ParseMessage(handed).Ok? && |x.out.buf| <= c.capacity
    ensures var request := P.ParseMessage(handed).value;
            var y := Answer(c, x, request, env, udp);
            var phase := match PhaseSet(x.view.(lastActivity := env.now), request, env) {
                           case Some(p) => p
                           case None => y.view.phase
                         };
            var served := Serve(State(x.view, x.out, replies), handed, c.capacity, x.id, env);
            y.out == served.out && y.view.(phase := phase) == served.view
  {
    hide P.ParseMessage, Handle, ReplyBytes, SendOutcome;
    PhaseSetIsHandled(x.view.(lastActivity := env.now), P.ParseMessage(handed).value, env);
  }

  /** Everything up to the result of one forward. */
  function Forwarded1(c: Config, x: Sess, packet: Packet, number: nat, now: nat, k: Kernel): Sess {
    var y := x.(view := x.view.(lastActivity := now));
    if x.view.isUdp || !ValidPacket(packet) then y
    else Do(c, y, Offer(Media(packet), k)).(offered := x.offered + [number])
  }

  predicate ForwardSucceeds(c: Config, x: Sess, packet: Packet, k: Kernel, udpSent: bool) {
    if x.view.isUdp then udpSent
    else |x.out.buf| <= c.capacity && ForwardOutcome(packet, |x.out.buf|, c.capacity, k).1 == ForwardStatus.Forwarded
  }

  predicate Collected(c: Config, x: Sess, now: nat) {
    x.view.phase == Phase.Teardown || S.IsTimedOut(x.view, c.connectionTimeout, c.sessionTimeout, now)
  }

  predicate Distinct(q: seq<Sid>) {
    forall i, j :: 0 <= i < j < |q| ==> q[i] != q[j]
  }

  function Elements(q: seq<Sid>): set<Sid> {
    set sid | sid in q
  }

  /** The sessions a broadcast copies. */
  function PlayingSessions(s: World): set<Sid> {
    set sid | sid in Mapped(s) && sid in s.objs && s.objs[sid].view.phase == Playing
  }

  // ----- Steps -----

  datatype Action =
    // the epoll thread
    | Accept(newFd: int)
    | Count
    | Register(accepted: bool)
    | Insert(id: string)
    | StartRead(fd: int)
    | Ignore(handed: Bytes)
    | Respond(handed: Bytes, env: Env, udp: set<int>)
    | Finish
    | EndRead(close: bool)
    | WriteEvent(fd: int, k: Kernel)
    | ErrorEvent(fd: int)
    | Scan
    | CountTimeout(fd: int)
    | CloseTimedOut
    | ScanDone
    // the stream thread
    | Snapshot(packet: Packet, queue: seq<Sid>)
    | Forward(k: Kernel, udpSent: bool)
    | Arm
    | EndBroadcast
    // the thread that stops the server, the clock and the timer
    | StopFlag
    | StopClear
    | Second
    | Expiry

  /** When a step can happen; lookups of sessions that are pointed to never fail, as `Owned` shows. */
  predicate Enabled(c: Config, s: World, a: Action) {
    match a
    case Accept(newFd) => s.epoll.Idle? && newFd >= 0 && newFd !in s.open
    case Count => s.epoll.Accepted?
    case Register(_) => s.epoll.Counted?
    case Insert(id) => s.epoll.Registered?
    case StartRead(fd) => s.epoll.Idle? && fd in s.sessions
    case Ignore(handed) => s.epoll.Reading? && s.epoll.sid in s.objs && P.ParseMessage(handed).Err?
    case Respond(handed, env, udp) =>
      && s.epoll.Reading? && s.epoll.sid in s.objs && P.ParseMessage(handed).Ok? && env.now == s.now
      && udp !! s.open && (forall fd :: fd in udp ==> fd >= 0)
    case Finish => s.epoll.Answered? && s.epoll.sid in s.objs
    case EndRead(_) => s.epoll.Reading? && s.epoll.sid in s.objs
    case WriteEvent(fd, _) => s.epoll.Idle? && fd in s.sessions && s.sessions[fd] in s.objs
    case ErrorEvent(fd) => s.epoll.Idle? && fd in s.sessions
    case Scan => s.epoll.Idle? && s.due
    case CountTimeout(fd) => s.epoll.Closing? && fd in s.epoll.todo
    case CloseTimedOut => s.epoll.ClosingOne?
    case ScanDone => s.epoll.Closing? && s.epoll.todo == {}
    case Snapshot(_, queue) =>
      s.stream.Quiet? && Distinct(queue) && Elements(queue) == PlayingSessions(s)
    case Forward(_, _) =>
      s.stream.Broadcasting? && s.stream.queue != [] && s.stream.queue[0] in s.objs && s.packets != []
    case Arm => s.stream.Arming? && s.stream.sid in s.objs
    case EndBroadcast => s.stream.Broadcasting? && s.stream.queue == []
    case StopFlag => true
    case StopClear => !s.running
    case Second => true
    case Expiry => true
  }

  function Next(c: Config, s: World, a: Action): World
    requires Enabled(c, s, a)
  {
    match a
    case Accept(newFd) =>
      if |s.sessions| >= c.maxSessions then s
      else s.(open := s.open + {newFd}, epoll := Accepted(newFd, s.nextSid), nextSid := s.nextSid + 1)
    case Count => s.(total := s.total + 1, epoll := Counted(s.epoll.fd, s.epoll.sid))
    case Register(accepted) =>
      if accepted && s.epoll.fd !in s.regs then
        s.(regs := s.regs[s.epoll.fd := Reg(s.epoll.sid, false)], epoll := Registered(s.epoll.fd, s.epoll.sid))
      else s.(open := s.open - {s.epoll.fd}, ended := s.ended + 1, epoll := Idle)
    case Insert(id) => NextInsert(s, id)
    case StartRead(fd) => s.(epoll := Reading(s.sessions[fd]))
    case Ignore(_) => NextIgnore(s)
    case Respond(handed, env, udp) => NextRespond(c, s, P.ParseMessage(handed).value, env, udp)
    case Finish => NextFinish(s)
    case EndRead(close) =>
      var t := if close then EndConnection(s, s.objs[s.epoll.sid].fd) else s;
      Reap(t.(epoll := Idle))
    case WriteEvent(fd, k) => NextWrite(c, s, fd, k)
    case ErrorEvent(fd) => Reap(EndConnection(s, fd))
    case Scan => NextScan(c, s)
    case CountTimeout(fd) => s.(timedOut := s.timedOut + 1, epoll := ClosingOne(fd, s.epoll.todo - {fd}))
    case CloseTimedOut => Reap(CloseConnection(s, s.epoll.closing).(epoll := Closing(s.epoll.todo)))
    case ScanDone => s.(epoll := Idle)
    case Snapshot(packet, queue) =>
      s.(packets := s.packets + [packet], stream := Broadcasting(queue, Elements(queue)))
    case Forward(k, udpSent) => NextForward(c, s, k, udpSent)
    case Arm =>
      s.(regs := SetWrite(s.regs, s.objs[s.stream.sid].fd, true), stream := Broadcasting(s.stream.queue, s.stream.held))
    case EndBroadcast => Reap(s.(stream := Quiet))
    case StopFlag => s.(running := false)
    case StopClear => NextStop(s)
    case Second => s.(now := s.now + 1)
    case Expiry => s.(due := true)
  }

  function PutSess(s: World, sid: Sid, x: Sess): World {
    s.(objs := s.objs[sid := x])
  }

  function NextInsert(s: World, id: string): World
    requires s.epoll.Registered?
  {
    var fd, sid := s.epoll.fd, s.epoll.sid;
    var x := Sess(id, fd, {}, View(Init, "", "", false, s.now), Out([], []), [], [], 0, s.scans);
    PutSess(s, sid, x).(sessions := s.sessions[fd := sid], epoll := Idle)
  }

  /** A request that the parser refuses: only the activity, and the arming of write interest after it. */
  function NextIgnore(s: World): World
    requires s.epoll.Reading? && s.epoll.sid in s.objs
  {
    var x := s.objs[s.epoll.sid];
    PutSess(s, s.epoll.sid, x.(view := x.view.(lastActivity := s.now)))
      .(regs := if x.out.buf != [] then SetWrite(s.regs, x.fd, true) else s.regs)
  }

  /** As src/core/rtsp_session.cc:46-55 up to the response's send; a UDP SETUP swaps its sockets before it. */
  function NextRespond(c: Config, s: World, request: P.Request, env: Env, udp: set<int>): World
    requires s.epoll.Reading? && s.epoll.sid in s.objs
  {
    var sid := s.epoll.sid;
    var x, y := s.objs[sid], Answer(c, s.objs[sid], request, env, udp);
    PutSess(s, sid, y).(open := s.open - x.udp + y.udp,
                        epoll := Answered(sid, PhaseSet(x.view.(lastActivity := env.now), request, env)))
  }

  /** The handler's last assignment, `Close` for TEARDOWN, and the arming of write interest after it. */
  function NextFinish(s: World): World
    requires s.epoll.Answered? && s.epoll.sid in s.objs
  {
    var sid := s.epoll.sid;
    var x := s.objs[sid];
    var y := match s.epoll.newPhase
             case None => x
             case Some(p) =>
               x.(view := x.view.(phase := p), phaseScan := s.scans, udp := if p == Phase.Teardown then {} else x.udp);
    PutSess(s, sid, y).(open := s.open - (x.udp - y.udp),
                        regs := if x.out.buf != [] then SetWrite(s.regs, x.fd, true) else s.regs,
                        epoll := Reading(sid))
  }

  function NextWrite(c: Config, s: World, fd: int, k: Kernel): World
    requires fd in s.sessions && s.sessions[fd] in s.objs
  {
    var sid := s.sessions[fd];
    var x := s.objs[sid];
    var y := Do(c, x, FlushOp(k));
    var t := PutSess(s, sid, y);
    if x.out.buf != [] && k.Failed? then Reap(EndConnection(t, fd))
    else t.(regs := if y.out.buf == [] then SetWrite(s.regs, fd, false) else s.regs)
  }

  /** The collecting half of `CheckTimeouts`. */
  function NextScan(c: Config, s: World): World {
    if c.connectionTimeout <= 0 && c.sessionTimeout <= 0 then s.(due := false)
    else
      var todo := set fd | fd in s.sessions && s.sessions[fd] in s.objs && Collected(c, s.objs[s.sessions[fd]], s.now);
      s.(due := false, scans := s.scans + 1, lastScan := s.now, scanBefore := s.lastScan, epoll := Closing(todo))
  }

  /** One iteration of the broadcast loop up to the arming of write interest. */
  function NextForward(c: Config, s: World, k: Kernel, udpSent: bool): World
    requires s.stream.Broadcasting? && s.stream.queue != [] && s.stream.queue[0] in s.objs && s.packets != []
  {
    var sid, rest, held := s.stream.queue[0], s.stream.queue[1..], s.stream.held;
    var x, number := s.objs[sid], |s.packets| - 1;
    var ok := ForwardSucceeds(c, x, s.packets[number], k, udpSent);
    var y := Forwarded1(c, x, s.packets[number], number, s.now, k);
    var z := y.(drops := if ok then 0 else x.drops + 1);
    var slow := !ok && z.drops >= MAX_CONSECUTIVE_DROPS;
    var w := if slow then z.(view := z.view.(phase := Phase.Teardown), phaseScan := s.scans) else z;
    PutSess(s, sid, w).(forwards := s.forwards + [(sid, ok)],
                        dropped := if slow then s.dropped + 1 else s.dropped,
                        stream := if ok && w.out.buf != [] then Arming(sid, rest, held) else Broadcasting(rest, held))
  }

  /** `Stop` under the session lock: closes every mapped session's UDP sockets and forgets it. */
  function NextStop(s: World): World {
    Reap(Forgotten(s).(ended := s.ended + |s.sessions.Keys - (Todo(s.epoll) + InClosing(s.epoll))|))
  }

  function Forgotten(s: World): World {
    s.(objs := map sid | sid in s.objs :: if sid in Mapped(s) then Stopped(s.objs[sid], s.scans) else s.objs[sid],
       open := s.open - set sid, fd | sid in s.objs && sid in Mapped(s) && fd in s.objs[sid].udp :: fd,
       sessions := map[])
  }

  function Stopped(x: Sess, scans: nat): Sess {
    x.(view := x.view.(phase := Phase.Teardown), phaseScan := scans, udp := {})
  }

  // ----- Runs -----

  /** The states that a run passes through. */
  ghost predicate IsRun(c: Config, states: seq<World>, actions: seq<Action>) {
    && |states| == |actions| + 1 && states[0] == START
    && forall i :: 0 <= i < |actions| ==>
         Enabled(c, states[i], actions[i]) && states[i + 1] == Next(c, states[i], actions[i])
  }

  ghost predicate Reachable(c: Config, s: World) {
    exists states, actions :: IsRun(c, states, actions) && states[|states| - 1] == s
  }
}

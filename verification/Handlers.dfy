/**
 The handlers of read and write events and one step of the broadcast, src/core/rtsp_server.cc:201-236,
 319-355 and 378-469, on the session they have looked up.  A handler that goes on to call
 `CloseConnection` returns `close`.
 */
module Handlers {
  import opened Bytes
  import opened Transport
  import opened RingBuffers
  import opened FdGuards
  import opened Connections
  import opened Sessions
  import opened Service
  import opened EpollLoops
  import Demux
  import L = ServiceLaws
  import Framing
  import F = Forwarder
  import P = Parser

  /** Bytes waiting in the write buffer come with write interest, wherever the descriptor is watched. */
  ghost predicate Armed(s: Session, epoll: EpollLoop)
    reads s.conn, s.conn.guard, s.conn.writeBuffer, epoll
  {
    s.conn.NeedFlush() && s.conn.guard.fd in epoll.interest ==> epoll.interest[s.conn.guard.fd].write
  }

  /** `ModifyFd`, when it is called: registrations that do not exist stay away. */
  function Interested(interest: map<int, Events>, fd: int, events: Events, called: bool): map<int, Events> {
    if called && fd in interest then interest[fd := events] else interest
  }

  lemma InterestedTwice()
    ensures forall m, fd :: Interested(m, fd, READ_WRITE, false) == m
    ensures forall m, fd, a, b ::
              Interested(Interested(m, fd, READ_WRITE, a), fd, READ_WRITE, b) == Interested(m, fd, READ_WRITE, a || b)
  {
  }

  /** Does serving these units arm write interest?  It does after each request that leaves bytes queued. */
  function Arms(s: State, units: seq<Demux.Unit>, at: nat, cap: nat, sessionId: string, env: nat -> Env, i: nat): bool
    requires at < cap && forall u :: u in units ==> |u.bytes| <= cap
    decreases |units|
  {
    if units == [] then false
    else
      var u := units[0];
      var next := Wrap(at + |u.bytes|, cap);
      match u
      case Frame(_) => Arms(s, units[1..], next, cap, sessionId, env, i)
      case Request(bytes) =>
        var t := Serve(s, HandedOver(bytes, at, cap, env(i).beyond), cap, sessionId, env(i));
        t.out.buf != [] || Arms(t, units[1..], next, cap, sessionId, env, i + 1)
  }

  /** How the read loop ends: the session, what is left in the buffer and where, whether it armed, whether to close. */
  datatype Outcome = Outcome(state: State, rest: Bytes, close: bool, at: nat, armed: bool)

  /** What the read loop makes of buffer contents `c`, from the state reached so far. */
  ghost function Drained(s: State, c: Bytes, at: nat, cap: nat, sessionId: string, env: nat -> Env, i: nat): Outcome
    requires at < cap && |c| <= cap
  {
    Demux.UnitsAreWithin(c);
    var r := Demux.Scanned(c);
    Outcome(ServeAll(s, r.units, at, cap, sessionId, env, i), r.rest, r.closed, L.Walk(at, r.units, cap),
            Arms(s, r.units, at, cap, sessionId, env, i))
  }

  lemma AlsoArmedTwice()
    ensures forall o :: AlsoArmed(o, false) == o
    ensures forall o, a, b :: AlsoArmed(AlsoArmed(o, a), b) == AlsoArmed(o, b || a)
    ensures forall s, c, close, at, a ::
              AlsoArmed(Outcome(s, c, close, at, false), a) == Outcome(s, c, close, at, a)
  {
  }

  function AlsoArmed(o: Outcome, armed: bool): Outcome {
    o.(armed := o.armed || armed)
  }

  /** One iteration, by what it finds. */
  lemma DrainedStep(s: State, c: Bytes, at: nat, cap: nat, sessionId: string, env: nat -> Env, i: nat)
    requires at < cap && |c| <= cap
    ensures Drained(s, c, at, cap, sessionId, env, i)
         == match Demux.ScanOne(c) {
              case Incomplete => Outcome(s, c, false, at, false)
              case TooLarge => Outcome(s, c, true, at, false)
              case Whole(Frame(b)) => Drained(s, c[|b|..], Wrap(at + |b|, cap), cap, sessionId, env, i)
              case Whole(Request(b)) =>
                var t := Serve(s, HandedOver(b, at, cap, env(i).beyond), cap, sessionId, env(i));
                AlsoArmed(Drained(t, c[|b|..], Wrap(at + |b|, cap), cap, sessionId, env, i + 1), t.out.buf != [])
            }
  {
    hide Demux.ScanOne, Serve, HandedOver;
    Demux.UnitsAreWithin(c);
  }

  lemma Parts(session: Session)
    requires session.conn.Valid()
    ensures var conn := session.conn; var r, w := conn.readBuffer, conn.writeBuffer;
            && r.Valid() && w.Valid() && r != w && r.data != w.data && r.capacity == w.capacity
            && |r.contents| == r.readable <= r.capacity && r.readPos < r.capacity
            && |w.contents| == w.readable <= w.capacity
            && conn.consecutiveDrops == TrailingFailures(conn.history)
  {
  }

  /** The dispatch half of an iteration: parse where the bytes lie, answer, consume, arm. */
  method ServeRequest(session: Session, epoll: EpollLoop, size: nat, env: Env)
    requires session.Valid() && epoll.Valid() && !session.conn.IsClosed()
    requires 0 < size <= session.conn.readBuffer.readable
    modifies session, session.conn`wire, session.conn.writeBuffer, session.conn.writeBuffer.data
    modifies session.conn.readBuffer, session.udpRtp, session.udpRtcp, session.table, epoll`interest
    ensures session.Valid() && epoll.Valid() && session.conn.guard.fd == old(session.conn.guard.fd)
    ensures Armed(session, epoll)
    ensures epoll.interest
         == Interested(old(epoll.interest), session.conn.guard.fd, Events(true, true), session.conn.NeedFlush())
    ensures var buffer := session.conn.readBuffer;
            && buffer.contents == old(buffer.contents)[size..]
            && buffer.readPos == Wrap(old(buffer.readPos) + size, buffer.capacity)
            && session.TheState() == Serve(old(session.TheState()),
                 HandedOver(old(buffer.contents)[..size], old(buffer.readPos), buffer.capacity, env.beyond),
                 buffer.capacity, session.sessionId, env)
  {
    hide Serve, HandedOver, SoleOwners, Connection.Valid, RingBuffer.Valid;
    Parts(session);
    var request := session.conn.readBuffer.ReadAtPointer(size, env.beyond);
    var _ := session.ProcessData(request, env);
    session.conn.Consume(size);
    if session.conn.NeedFlush() {
      var _ := epoll.ModifyFd(session.conn.guard.fd, READ_WRITE);
    }
  }

  datatype Look = SkipFrame(size: nat) | FoundRequest(size: nat) | Wait | Refuse

  /** The decisions of one iteration: peek at the marker, else search for the blank line. */
  method LookAt(buffer: RingBuffer) returns (r: Look)
    requires buffer.Valid() && buffer.readable > 0
    ensures match Demux.ScanOne(buffer.contents) {
              case Whole(Frame(bytes)) => r == SkipFrame(|bytes|)
              case Whole(Request(bytes)) => r == FoundRequest(|bytes|)
              case Incomplete => r == Wait
              case TooLarge => r == Refuse
            }
  {
    var header := buffer.Peek(4);
    if header.Some? && header.value[0] == Framing.MARKER {
      var total := 4 + Framing.FrameLength(header.value);
      return if buffer.ReadableSize() < total then Wait else SkipFrame(total);
    }
    var end := buffer.FindSubstring(BLANK_LINE, 0);
    assert buffer.contents[..buffer.readable] == buffer.contents;
    if end.None? {
      return if buffer.ReadableSize() >= P.MAX_REQUEST then Refuse else Wait;
    }
    return FoundRequest(end.value + 4);
  }

  /** One iteration; `ends` tells that it left the loop, with `close` if the text was too large. */
  method Iterate(session: Session, epoll: EpollLoop, env: nat -> Env, i: nat)
    returns (ends: bool, close: bool, next: nat)
    requires session.Valid() && epoll.Valid() && !session.conn.IsClosed() && session.conn.readBuffer.readable > 0
    modifies session, session.conn`wire, session.conn.writeBuffer, session.conn.writeBuffer.data
    modifies session.conn.readBuffer, session.udpRtp, session.udpRtcp, session.table, epoll`interest
    ensures session.Valid() && epoll.Valid() && session.conn.guard.fd == old(session.conn.guard.fd)
    ensures old(Armed(session, epoll)) ==> Armed(session, epoll)
    ensures ends || session.conn.readBuffer.readable < old(session.conn.readBuffer.readable)
    ensures var buffer := session.conn.readBuffer;
            var before := Drained(old(session.TheState()), old(buffer.contents), old(buffer.readPos), buffer.capacity,
                                  session.sessionId, env, i);
            var armed := !ends && next != i && session.conn.NeedFlush();
            && before == (if ends then Outcome(session.TheState(), buffer.contents, close, buffer.readPos, false)
                          else AlsoArmed(Drained(session.TheState(), buffer.contents, buffer.readPos, buffer.capacity,
                                                 session.sessionId, env, next), armed))
            && epoll.interest == Interested(old(epoll.interest), session.conn.guard.fd, Events(true, true), armed)
  {
    hide Serve, HandedOver, SoleOwners, Connection.Valid, RingBuffer.Valid, Demux.ScanOne, Drained;
    Parts(session);
    var buffer := session.conn.readBuffer;
    DrainedStep(session.TheState(), buffer.contents, buffer.readPos, buffer.capacity, session.sessionId, env, i);
    var look := LookAt(buffer);
    match look {
      case Wait => return true, false, i;
      case Refuse => return true, true, i;
      case SkipFrame(size) =>
        session.conn.Consume(size);
        Parts(session);
        return false, false, i;
      case FoundRequest(size) =>
        ServeRequest(session, epoll, size, env(i));
        Parts(session);
        return false, false, i + 1;
    }
  }

  /** The loop of `ProcessConnectionData`. */
  method Drain(session: Session, epoll: EpollLoop, env: nat -> Env) returns (close: bool)
    requires session.Valid() && epoll.Valid() && !session.conn.IsClosed()
    modifies session, session.conn`wire, session.conn.writeBuffer, session.conn.writeBuffer.data
    modifies session.conn.readBuffer, session.udpRtp, session.udpRtcp, session.table, epoll`interest
    ensures session.Valid() && epoll.Valid() && session.conn.guard.fd == old(session.conn.guard.fd)
    ensures old(Armed(session, epoll)) ==> Armed(session, epoll)
    ensures var buffer := session.conn.readBuffer;
            var whole := Drained(old(session.TheState()), old(buffer.contents), old(buffer.readPos), buffer.capacity,
                                 session.sessionId, env, 0);
            && Outcome(session.TheState(), buffer.contents, close, buffer.readPos, whole.armed) == whole
            && epoll.interest == Interested(old(epoll.interest), session.conn.guard.fd, Events(true, true), whole.armed)
  {
    hide Serve, HandedOver, SoleOwners, Connection.Valid, RingBuffer.Valid, Demux.ScanOne, Drained, Interested, Armed,
         AlsoArmed;
    Parts(session);
    InterestedTwice();
    AlsoArmedTwice();
    var buffer := session.conn.readBuffer;
    ghost var cap, fd, watch := buffer.capacity, session.conn.guard.fd, epoll.interest;
    ghost var whole := Drained(session.TheState(), buffer.contents, buffer.readPos, cap, session.sessionId, env, 0);
    ghost var armed := false;
    var i: nat := 0;
    while buffer.ReadableSize() > 0
      invariant session.Valid() && epoll.Valid() && session.conn.guard.fd == fd && !session.conn.IsClosed()
      invariant |buffer.contents| == buffer.readable <= cap && buffer.readPos < cap
      invariant epoll.interest == Interested(watch, fd, READ_WRITE, armed)
      invariant old(Armed(session, epoll)) ==> Armed(session, epoll)
      invariant whole == AlsoArmed(Drained(session.TheState(), buffer.contents, buffer.readPos, cap,
                                           session.sessionId, env, i), armed)
      decreases buffer.readable
    {
      var ends, tooLarge, next := Iterate(session, epoll, env, i);
      Parts(session);
      if ends {
        return tooLarge;
      }
      armed := armed || (next != i && session.conn.NeedFlush());
      i := next;
    }
    DrainedStep(session.TheState(), buffer.contents, buffer.readPos, cap, session.sessionId, env, i);
    Demux.EmptyScan();
    return false;
  }

  /** As src/core/rtsp_server.cc:378-469 after the session has been looked up. */
  method ProcessConnectionData(session: Session, epoll: EpollLoop, arrival: Arrival, env: nat -> Env)
    returns (close: bool)
    requires session.Valid() && epoll.Valid()
    modifies session, session.conn`wire, session.conn.writeBuffer, session.conn.writeBuffer.data
    modifies session.conn.readBuffer, session.conn.readBuffer.data
    modifies session.udpRtp, session.udpRtcp, session.table, epoll`interest
    ensures session.Valid() && epoll.Valid() && session.conn.guard.fd == old(session.conn.guard.fd)
    ensures old(Armed(session, epoll)) ==> Armed(session, epoll)
    ensures var c := old(session.conn.readBuffer.contents); var cap := session.conn.readBuffer.capacity;
            var at := old(session.conn.readBuffer.readPos);
            if session.conn.IsClosed() || !arrival.Arrived? || arrival.bytes == [] then
              && close && session.TheState() == old(session.TheState()) && session.conn.readBuffer.contents == c
              && epoll.interest == old(epoll.interest)
            else
              var chunk := arrival.bytes[..Min(|arrival.bytes|, old(session.conn.readBuffer.ContiguousWritableSize()))];
              && |c + chunk| <= cap
              && (if |c| == cap then epoll.interest == old(epoll.interest)
                  else
                    var whole := Drained(old(session.TheState()), c + chunk, at, cap, session.sessionId, env, 0);
                    && Outcome(session.TheState(), session.conn.readBuffer.contents, close,
                               session.conn.readBuffer.readPos, whole.armed) == whole
                    && epoll.interest
                       == Interested(old(epoll.interest), session.conn.guard.fd, Events(true, true), whole.armed))
              && close == Demux.Fed(c, [chunk], cap).closed
              && session.conn.readBuffer.contents == Demux.Fed(c, [chunk], cap).rest
              && session.TheState()
                 == L.ServeFed(old(session.TheState()), c, [chunk], at, cap, session.sessionId, env, 0)
  {
    hide Serve, HandedOver, SoleOwners, Demux.Scanned, Demux.Fed, L.ServeFed;
    if session.conn.IsClosed() {
      return true;
    }
    ghost var before, c, at := session.TheState(), session.conn.readBuffer.contents, session.conn.readBuffer.readPos;
    ghost var cap, room := session.conn.readBuffer.capacity, session.conn.readBuffer.ContiguousWritableSize();
    var ret := session.conn.Recv(arrival);
    ghost var chunk := if arrival.Arrived? then arrival.bytes[..Min(|arrival.bytes|, room)] else [];
    assert |c + chunk| <= cap;
    Demux.OneEvent(c, chunk, cap);
    L.OneEventServed(before, c, chunk, at, cap, session.sessionId, env, 0);
    if ret <= 0 {
      return true;
    }
    close := Drain(session, epoll, env);
  }

  /** As src/core/rtsp_server.cc:319-355 after the session has been looked up. */
  method OnWrite(session: Session, epoll: EpollLoop, k: Kernel) returns (close: bool)
    requires session.Valid() && epoll.Valid()
    modifies session.conn`wire, session.conn.writeBuffer, epoll`interest
    ensures session.Valid() && epoll.Valid()
    ensures epoll.interest.Keys == old(epoll.interest.Keys)
    ensures old(Armed(session, epoll)) ==> Armed(session, epoll)
    ensures session.conn.Stream().All() == old(session.conn.Stream().All())
    ensures !session.conn.IsClosed() ==>
              session.conn.Stream()
              == Perform(old(session.conn.Stream()), session.conn.writeBuffer.capacity, Call.Flush(k))
    ensures !session.conn.IsClosed() && k.Room? ==>
              session.conn.wire == old(session.conn.wire)
                                   + old(session.conn.Stream()).buf[..Min(k.bytes, |old(session.conn.Stream()).buf|)]
    ensures close <==> session.conn.IsClosed() || (old(session.conn.NeedFlush()) && k.Failed?)
    ensures epoll.interest == Interested(old(epoll.interest), session.conn.guard.fd, Events(true, false),
                                         !close && !session.conn.NeedFlush())
  {
    hide SoleOwners, RingBuffer.Valid, Connection.Valid, Perform;
    if session.conn.IsClosed() {
      return true;
    }
    Parts(session);
    FlushOnlyShrinks(session.conn.Stream(), session.conn.writeBuffer.capacity, k);
    var ret := session.conn.Flush(k);
    Parts(session);
    if ret < 0 {
      return true;
    }
    if !session.conn.NeedFlush() {
      var _ := epoll.ModifyFd(session.conn.guard.fd, READ);
    }
    return false;
  }

  lemma FlushOnlyShrinks(o: Out, cap: nat, k: Kernel)
    requires |o.buf| <= cap
    ensures o.buf == [] ==> Perform(o, cap, Call.Flush(k)).buf == []
  {
  }

  /** A rejected forward that leaves its header in a buffer that was empty. */
  predicate Strands(p: Framing.Packet, buffered: nat, cap: nat, k: Kernel) {
    F.ValidPacket(p) && buffered == 0 && k == Room(0) && Framing.HEADER_SIZE <= cap < |Framing.FrameBytes(p)|
  }

  /**
   As src/core/rtsp_server.cc:203-235, forwards one packet to one session.  `slow` tells that the session was
   found to be a slow client and marked, which is so exactly when this failure ends a run of at least 100.
   */
  method ForwardToOne(session: Session, epoll: EpollLoop, packet: Framing.Packet, now: nat, k: Kernel, udpSent: bool)
    returns (slow: bool)
    requires session.Valid() && epoll.Valid() && !session.conn.IsClosed()
    modifies session`lastActivity, session`phase, epoll`interest
    modifies session.conn`wire, session.conn.writeBuffer, session.conn.writeBuffer.data
    modifies session.conn`consecutiveDrops, session.conn`totalDroppedPackets, session.conn`history
    ensures session.Valid() && epoll.Valid()
    ensures epoll.interest.Keys == old(epoll.interest.Keys)
    ensures old(Armed(session, epoll))
            && (session.isUdp || !Strands(packet, old(session.conn.writeBuffer.readable),
                                          session.conn.writeBuffer.capacity, k))
            ==> Armed(session, epoll)
    ensures var r := F.ForwardOutcome(packet, old(session.conn.writeBuffer.readable),
                                      session.conn.writeBuffer.capacity, k);
            && session.conn.history == old(session.conn.history) + [if session.isUdp then udpSent else r.1.Forwarded?]
            && (session.isUdp ==> session.conn.Stream() == old(session.conn.Stream()))
            && (!session.isUdp ==>
                  && r.0.taken <= r.0.kept <= |Framing.FrameBytes(packet)|
                  && session.conn.Stream() == Deliver(old(session.conn.Stream()), Framing.FrameBytes(packet), r.0))
    ensures epoll.interest == Interested(old(epoll.interest), session.conn.guard.fd, Events(true, true),
                                         session.conn.history[|session.conn.history| - 1] && session.conn.NeedFlush())
    ensures slow <==> TrailingFailures(session.conn.history) >= MAX_CONSECUTIVE_DROPS
    ensures session.phase == (if slow then Phase.Teardown else old(session.phase)) && session.lastActivity == now
  {
    hide SoleOwners, RingBuffer.Valid, Connection.Valid, TrailingFailures, F.ForwardOutcome, Deliver;
    Parts(session);
    var ok := session.ForwardRtp(packet, now, k, udpSent);
    Parts(session);
    if old(session.conn.Stream()).buf == [] && !Strands(packet, 0, session.conn.writeBuffer.capacity, k) {
      RejectedStaysEmpty(old(session.conn.Stream()), packet, session.conn.writeBuffer.capacity, k);
    }
    if !ok {
      session.conn.RecordDrop();
      Parts(session);
      if session.conn.consecutiveDrops >= MAX_CONSECUTIVE_DROPS {
        session.phase := Phase.Teardown;
        return true;
      }
      return false;
    }
    session.conn.RecordSuccess();
    Parts(session);
    if session.conn.NeedFlush() {
      var _ := epoll.ModifyFd(session.conn.guard.fd, READ_WRITE);
    }
    return false;
  }

  /** Otherwise what a rejected forward leaves behind stands behind bytes already queued. */
  lemma RejectedStaysEmpty(o: Out, p: Framing.Packet, cap: nat, k: Kernel)
    requires |o.buf| <= cap && o.buf == [] && !Strands(p, 0, cap, k)
    ensures var (s, status) := F.ForwardOutcome(p, 0, cap, k);
            s.taken <= s.kept <= |Framing.FrameBytes(p)| && status != F.Forwarded ==>
              Deliver(o, Framing.FrameBytes(p), s).buf == []
  {
    if F.ValidPacket(p) {
      F.ForwardTornExactly(p, 0, cap, k);
    }
  }
}

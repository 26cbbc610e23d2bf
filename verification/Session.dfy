/**
 A client session, src/core/rtsp_session.cc, on its connection and its two UDP descriptors.  Each handler is
 proved against `Service.Handle`, and to open and close exactly the descriptors it should.
 */
module Sessions {
  import opened Bytes
  import opened Builder
  import opened Transport
  import opened FdGuards
  import opened Connections
  import opened Service
  import F = Forwarder
  import Framing
  import P = Parser

  // ----- Timeouts -----

  function PhaseTimeout(phase: Phase, connectionTimeout: int, sessionTimeout: int): int {
    if phase == Init || phase == OptionsSent || phase == DescribeSent then connectionTimeout else sessionTimeout
  }

  /** As src/core/rtsp_session.cc:88-111. */
  predicate IsTimedOut(v: View, connectionTimeout: int, sessionTimeout: int, now: nat) {
    var timeout := PhaseTimeout(v.phase, connectionTimeout, sessionTimeout);
    timeout > 0 && now - v.lastActivity >= timeout
  }

  /** Before SETUP the connection timeout applies, from SETUP on the session timeout; not positive means never. */
  lemma TimesOutExactly(v: View, connectionTimeout: int, sessionTimeout: int, now: nat)
    ensures v.phase in {Init, OptionsSent, DescribeSent} ==>
              (IsTimedOut(v, connectionTimeout, sessionTimeout, now)
               <==> connectionTimeout > 0 && v.lastActivity + connectionTimeout <= now)
    ensures v.phase in {SetupSent, Playing, Paused, Phase.Teardown} ==>
              (IsTimedOut(v, connectionTimeout, sessionTimeout, now)
               <==> sessionTimeout > 0 && v.lastActivity + sessionTimeout <= now)
  {
  }

  class Session {
    const conn: Connection
    const sessionId: string
    const udpRtp: FdGuard
    const udpRtcp: FdGuard
    const table: FdTable
    var phase: Phase
    var url: string
    var transport: string
    var isUdp: bool
    var lastActivity: nat
    /** The replies whose send was attempted, in order. */
    ghost var replies: seq<Reply>

    ghost function Guards(): set<FdGuard> {
      {conn.guard, udpRtp, udpRtcp}
    }

    ghost predicate Valid()
      reads this, conn, conn.readBuffer, conn.readBuffer.data, conn.writeBuffer, conn.writeBuffer.data
      reads conn.guard, udpRtp, udpRtcp, table
    {
      && conn.Valid()
      && conn.guard != udpRtp && conn.guard != udpRtcp && udpRtp != udpRtcp
      && conn.guard.table == udpRtp.table == udpRtcp.table == table
      && SoleOwners(Guards(), table)
    }

    /** The descriptors this session is responsible for. */
    ghost function Holds(): set<int>
      reads conn.guard, udpRtp, udpRtcp
    {
      Owned(conn.guard.fd) + Owned(udpRtp.fd) + Owned(udpRtcp.fd)
    }

    ghost function TheView(): View
      reads this
    {
      View(phase, url, transport, isUdp, lastActivity)
    }

    ghost function TheState(): State
      reads this, conn, conn.writeBuffer
    {
      State(TheView(), conn.Stream(), replies)
    }

    constructor (table: FdTable, fd: int, size: nat, id: string, now: nat)
      requires Owned(fd) <= table.open
      ensures Valid() && this.table == table && sessionId == id && Holds() == Owned(fd)
      ensures TheState() == State(View(Init, "", "", false, now), Out([], []), [])
      ensures fresh(conn) && fresh(udpRtp) && fresh(udpRtcp)
    {
      conn := new Connection(table, fd, size);
      udpRtp := new FdGuard(table, -1);
      udpRtcp := new FdGuard(table, -1);
      this.table := table;
      sessionId := id;
      phase, url, transport, isUdp, lastActivity := Init, "", "", false, now;
      replies := [];
    }

    /** Builds and sends one reply; the kernel may refuse it, and nobody looks. */
    method Respond(reply: Reply, k: Kernel)
      requires Valid() && !conn.IsClosed()
      modifies this`replies, conn`wire, conn.writeBuffer, conn.writeBuffer.data
      ensures Valid() && replies == old(replies) + [reply]
      ensures conn.Stream()
           == SendReply(old(conn.Stream()), conn.writeBuffer.capacity, ReplyBytes(reply, sessionId), k)
    {
      hide ReplyBytes, SendOutcome, SoleOwners;
      var response := Build(reply, sessionId);
      var _ := conn.Send(response, k);
      replies := replies + [reply];
    }

    /** As src/core/rtsp_session.cc:188-281. */
    method OnSetup(request: P.Request, env: Env) returns (status: Status)
      requires Valid() && !conn.IsClosed()
      modifies this, conn`wire, conn.writeBuffer, conn.writeBuffer.data, udpRtp, udpRtcp, table
      ensures Valid() && conn.guard.fd == old(conn.guard.fd)
      ensures !status.ParseFailed?
      ensures var h := HandleSetup(old(TheView()).(url := request.url), request, env);
              && TheView() == h.view && status == h.status && replies == old(replies) + [h.reply]
              && conn.Stream() == SendReply(old(conn.Stream()), conn.writeBuffer.capacity,
                                            ReplyBytes(h.reply, sessionId), env.k)
      ensures table.open - Holds() == old(table.open - Holds())
      ensures status == Ok && request.transport.isUdp ==> udpRtp.IsValid() && udpRtcp.IsValid()
      ensures status != Ok || !request.transport.isUdp ==> unchanged(udpRtp) && unchanged(udpRtcp)
    {
      hide ReplyBytes, SendReply, SoleOwners, Connection.Valid;
      url := request.url;
      if "transport" in request.headers {
        transport := request.headers["transport"];
      }
      var t := request.transport;
      if t.isUdp {
        if t.clientRtpPort == 0 {
          Respond(ErrorReply(request.cseq, 461, "Unsupported Transport"), env.k);
          return InvalidArgument;
        }
        var paired := OpenUdpPair(env.rtpSocket, env.rtcpSocket);
        if !paired {
          Respond(ErrorReply(request.cseq, 500, "Internal Server Error"), env.k);
          return NetworkError;
        }
        isUdp := true;
        Respond(SetupUdpReply(request.cseq, env.serverRtp, env.serverRtcp, t.clientRtpPort, t.clientRtcpPort), env.k);
        phase := SetupSent;
        return Ok;
      }
      if t.isTcp || t.interleavedRtp != 0 {
        Respond(SetupTcpReply(request.cseq, RTP_CHANNEL, RTCP_CHANNEL), env.k);
        phase := SetupSent;
        return Ok;
      }
      Respond(ErrorReply(request.cseq, 461, "Unsupported Transport"), env.k);
      return InvalidArgument;
    }

    /**
     Opens both UDP sockets or neither: local guards close the one that did open, and the session's own
     guards take both over, closing what they held.
     */
    method OpenUdpPair(first: bool, second: bool) returns (ok: bool)
      requires Valid()
      modifies udpRtp, udpRtcp, table
      ensures Valid() && ok == (first && second)
      ensures table.open - Holds() == old(table.open - Holds())
      ensures !ok ==> unchanged(udpRtp) && unchanged(udpRtcp)
      ensures ok ==> udpRtp.IsValid() && udpRtcp.IsValid()
    {
      hide Connection.Valid, SoleOwners;
      var rtpGuard := OpenGuard(table, first, Guards());
      ghost var three := Guards() + {rtpGuard};
      var rtcpGuard := OpenGuard(table, second, three);
      ghost var family := three + {rtcpGuard};
      if !rtpGuard.IsValid() || !rtcpGuard.IsValid() {
        rtpGuard.Close(family);
        rtcpGuard.Close(family);
        NarrowOwners(Guards(), family, table);
        return false;
      }
      TakeOver(udpRtp, rtpGuard, family);
      TakeOver(udpRtcp, rtcpGuard, family);
      NarrowOwners(Guards(), family, table);
      return true;
    }

    /** As src/core/rtsp_session.cc:113-128. */
    method Close()
      requires Valid()
      modifies this`phase, udpRtp, udpRtcp, table
      ensures Valid() && phase == Phase.Teardown && !udpRtp.IsValid() && !udpRtcp.IsValid()
      ensures table.open - Holds() == old(table.open - Holds())
    {
      phase := Phase.Teardown;
      udpRtp.Close(Guards());
      udpRtcp.Close(Guards());
    }

    /** An accepted UDP SETUP opens both UDP descriptors, TEARDOWN closes them, and nothing else touches them. */
    ghost predicate DescriptorsFollow(request: P.Request, status: Status, rtp: int, rtcp: int)
      reads udpRtp, udpRtcp
    {
      if request.method_ == P.Setup && request.transport.isUdp && status == Ok then
        udpRtp.IsValid() && udpRtcp.IsValid()
      else if request.method_ == P.Teardown then !udpRtp.IsValid() && !udpRtcp.IsValid()
      else udpRtp.fd == rtp && udpRtcp.fd == rtcp
    }

    /** As src/core/rtsp_session.cc:130-186 and 315-350. */
    method HandleRequest(request: P.Request, env: Env) returns (status: Status)
      requires Valid() && !conn.IsClosed()
      modifies this, conn`wire, conn.writeBuffer, conn.writeBuffer.data, udpRtp, udpRtcp, table
      ensures Valid() && conn.guard.fd == old(conn.guard.fd)
      ensures !status.ParseFailed?
      ensures var h := Handle(old(TheView()), request, env);
              && TheView() == h.view && status == h.status && replies == old(replies) + [h.reply]
              && conn.Stream() == SendReply(old(conn.Stream()), conn.writeBuffer.capacity,
                                            ReplyBytes(h.reply, sessionId), env.k)
      ensures table.open - Holds() == old(table.open - Holds())
      ensures DescriptorsFollow(request, status, old(udpRtp.fd), old(udpRtcp.fd))
    {
      hide ReplyBytes, SendReply, SoleOwners, HandleSetup, Connection.Valid;
      match request.method_ {
        case Options =>
          Respond(OptionsReply(request.cseq), env.k);
          phase := OptionsSent;
          return Ok;
        case Describe =>
          url := request.url;
          if env.sdp == "" {
            Respond(ErrorReply(request.cseq, 500, "SDP not configured"), env.k);
            return FailedPrecondition;
          }
          Respond(DescribeReply(request.cseq, env.sdp), env.k);
          phase := DescribeSent;
          return Ok;
        case Setup =>
          status := OnSetup(request, env);
          return status;
        case Play =>
          url := request.url;
          Respond(PlayReply(request.cseq), env.k);
          phase := Playing;
          return Ok;
        case Teardown =>
          Respond(SimpleReply(request.cseq), env.k);
          Close();
          return Ok;
        case Pause =>
          Respond(SimpleReply(request.cseq), env.k);
          phase := Paused;
          return Ok;
        case GetParameter =>
          Respond(SimpleReply(request.cseq), env.k);
          return Ok;
        case SetParameter =>
          Respond(SimpleReply(request.cseq), env.k);
          return Ok;
        case Unknown =>
          Respond(ErrorReply(request.cseq, 405, "Method Not Allowed"), env.k);
          return InvalidArgument;
      }
    }

    /** As src/core/rtsp_session.cc:44-56. */
    method ProcessData(data: Bytes, env: Env) returns (status: Status)
      requires Valid() && !conn.IsClosed()
      modifies this, conn`wire, conn.writeBuffer, conn.writeBuffer.data, udpRtp, udpRtcp, table
      ensures Valid() && conn.guard.fd == old(conn.guard.fd)
      ensures TheState() == Serve(old(TheState()), data, conn.writeBuffer.capacity, sessionId, env)
      ensures P.ParseMessage(data).Err? <==> status.ParseFailed?
      ensures match P.ParseMessage(data) {
                case Ok(request) => DescriptorsFollow(request, status, old(udpRtp.fd), old(udpRtcp.fd))
                case Err(_) => unchanged(udpRtp) && unchanged(udpRtcp)
              }
      ensures table.open - Holds() == old(table.open - Holds())
    {
      hide ReplyBytes, SendReply, SoleOwners, Handle, P.ParseMessage, Connection.Valid;
      lastActivity := env.now;
      var parsed := P.Parse(data);
      match parsed {
        case Err(error) =>
          return ParseFailed(error);
        case Ok(request) =>
          status := HandleRequest(request, env);
      }
    }

    /** As src/core/rtsp_session.cc:58-79; a UDP send only reports whether it worked. */
    method ForwardRtp(packet: Framing.Packet, now: nat, k: Kernel, udpSent: bool) returns (ok: bool)
      requires Valid() && !conn.IsClosed()
      modifies this`lastActivity, conn`wire, conn.writeBuffer, conn.writeBuffer.data
      ensures Valid() && lastActivity == now
      ensures isUdp ==> conn.Stream() == old(conn.Stream()) && ok == udpSent
      ensures !isUdp ==>
                var r := F.ForwardOutcome(packet, old(conn.writeBuffer.readable), conn.writeBuffer.capacity, k);
                && r.0.taken <= r.0.kept <= |Framing.FrameBytes(packet)|
                && conn.Stream() == Deliver(old(conn.Stream()), Framing.FrameBytes(packet), r.0)
                && ok == r.1.Forwarded?
    {
      lastActivity := now;
      if isUdp {
        return udpSent;
      }
      var status := F.ForwardTcp(conn, packet, k);
      return status.Forwarded?;
    }

    method TimedOut(connectionTimeout: int, sessionTimeout: int, now: nat) returns (r: bool)
      ensures r == IsTimedOut(TheView(), connectionTimeout, sessionTimeout, now)
    {
      var timeout := if phase == Init || phase == OptionsSent || phase == DescribeSent then connectionTimeout
                     else sessionTimeout;
      if timeout <= 0 {
        return false;
      }
      return now - lastActivity >= timeout;
    }
  }

  /** A socket, or -1, in a guard of its own. */
  method OpenGuard(table: FdTable, success: bool, ghost family: set<FdGuard>) returns (g: FdGuard)
    requires SoleOwners(family, table)
    modifies table
    ensures fresh(g) && g.table == table && g.IsValid() == success
    ensures table.open == old(table.open) + Owned(g.fd) && Owned(g.fd) !! old(table.open)
    ensures SoleOwners(family + {g}, table)
  {
    var fd := table.Open(success);
    g := new FdGuard(table, fd);
  }

  /** `to.Reset(from.Release())`. */
  method TakeOver(to: FdGuard, from: FdGuard, ghost family: set<FdGuard>)
    requires to in family && from in family && to != from && SoleOwners(family, to.table)
    modifies to, from, to.table
    ensures to.fd == old(from.fd) && from.fd == -1
    ensures to.table.open == old(to.table.open) - Owned(old(to.fd))
    ensures SoleOwners(family, to.table)
  {
    var fd := from.Release(family);
    to.Reset(fd, family);
  }

  lemma NarrowOwners(few: set<FdGuard>, many: set<FdGuard>, table: FdTable)
    requires few <= many && SoleOwners(many, table)
    ensures SoleOwners(few, table)
  {
  }
}

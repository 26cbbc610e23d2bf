/**
 What a session makes of a request and of a whole incoming stream: the pure half of
 src/core/rtsp_session.cc and of the read loop in src/core/rtsp_server.cc.
 */
module Service {
  import opened Bytes
  import opened Builder
  import opened Transport
  import opened RingBuffers
  import Demux
  import Text
  import P = Parser

  datatype Phase = Init | OptionsSent | DescribeSent | SetupSent | Playing | Paused | Teardown

  /** The fields of a session that its handlers change. */
  datatype View = View(phase: Phase, url: string, transport: string, isUdp: bool, lastActivity: nat)

  datatype Status = Ok | ParseFailed(error: P.ParseError) | InvalidArgument | FailedPrecondition | NetworkError

  /** What the outside world contributes to the handling of one request. */
  datatype Env = Env(
    k: Kernel,              // the kernel's answer to the response's `send`
    now: nat,               // the clock, in seconds
    sdp: Bytes,             // the server's SDP
    rtpSocket: bool,        // does the first UDP socket open?
    rtcpSocket: bool,       // and the second?
    serverRtp: int,         // the ports `getsockname` reports for them
    serverRtcp: int,
    beyond: nat -> char)    // the memory behind the read buffer

  const MAX_CONSECUTIVE_DROPS: nat := 100
  const RTP_CHANNEL := 0
  const RTCP_CHANNEL := 1

  datatype Handled = Handled(view: View, reply: Reply, status: Status)

  /** As src/core/rtsp_session.cc:130-350: state changes and the one reply of each handler. */
  function Handle(v: View, request: P.Request, env: Env): Handled {
    var n := request.cseq;
    var u := v.(url := request.url);
    match request.method_
    case Options => Handled(v.(phase := OptionsSent), OptionsReply(n), Ok)
    case Describe =>
      if env.sdp == "" then Handled(u, ErrorReply(n, 500, "SDP not configured"), FailedPrecondition)
      else Handled(u.(phase := DescribeSent), DescribeReply(n, env.sdp), Ok)
    case Setup => HandleSetup(u, request, env)
    case Play => Handled(u.(phase := Playing), PlayReply(n), Ok)
    case Teardown => Handled(v.(phase := Phase.Teardown), SimpleReply(n), Ok)
    case Pause => Handled(v.(phase := Paused), SimpleReply(n), Ok)
    case GetParameter => Handled(v, SimpleReply(n), Ok)
    case SetParameter => Handled(v, SimpleReply(n), Ok)
    case Unknown => Handled(v, ErrorReply(n, 405, "Method Not Allowed"), InvalidArgument)
  }

  function HandleSetup(u: View, request: P.Request, env: Env): Handled {
    var n, t := request.cseq, request.transport;
    var w := if "transport" in request.headers then u.(transport := request.headers["transport"]) else u;
    if t.isUdp then
      if t.clientRtpPort == 0 then Handled(w, ErrorReply(n, 461, "Unsupported Transport"), InvalidArgument)
      else if !env.rtpSocket || !env.rtcpSocket then
        Handled(w, ErrorReply(n, 500, "Internal Server Error"), NetworkError)
      else
        Handled(w.(isUdp := true, phase := SetupSent),
                SetupUdpReply(n, env.serverRtp, env.serverRtcp, t.clientRtpPort, t.clientRtcpPort), Ok)
    else if t.isTcp || t.interleavedRtp != 0 then
      Handled(w.(phase := SetupSent), SetupTcpReply(n, RTP_CHANNEL, RTCP_CHANNEL), Ok)
    else Handled(w, ErrorReply(n, 461, "Unsupported Transport"), InvalidArgument)
  }

  // ----- Serving requests -----

  /** A session with its outgoing stream; `replies` lists the responses whose send was attempted. */
  datatype State = State(view: View, out: Out, replies: seq<Reply>)

  function SendReply(o: Out, cap: nat, data: Bytes, k: Kernel): Out {
    if |o.buf| <= cap then Deliver(o, data, SendOutcome(|data|, |o.buf|, cap, k)) else o
  }

  /** As src/core/rtsp_session.cc:44-56 on the bytes it is handed. */
  function Serve(s: State, handed: Bytes, cap: nat, sessionId: string, env: Env): State {
    var v := s.view.(lastActivity := env.now);
    match P.ParseMessage(handed)
    case Err(_) => s.(view := v)
    case Ok(request) =>
      var h := Handle(v, request, env);
      State(h.view, SendReply(s.out, cap, ReplyBytes(h.reply, sessionId), env.k), s.replies + [h.reply])
  }

  /**
   The read loop over the units of a buffer whose first byte is at physical position `at`; request number
   `i` meets `env(i)`.
   */
  function ServeAll(s: State, units: seq<Demux.Unit>, at: nat, cap: nat, sessionId: string,
                    env: nat -> Env, i: nat): State
    requires at < cap && forall u :: u in units ==> |u.bytes| <= cap
    decreases |units|
  {
    if units == [] then s
    else
      var u := units[0];
      var next := Wrap(at + |u.bytes|, cap);
      match u
      case Frame(_) => ServeAll(s, units[1..], next, cap, sessionId, env, i)
      case Request(bytes) =>
        ServeAll(Serve(s, HandedOver(bytes, at, cap, env(i).beyond), cap, sessionId, env(i)),
                 units[1..], next, cap, sessionId, env, i + 1)
  }

  /** Whatever is handed over counts as activity, also when it is refused. */
  lemma RequestIsActivity(s: State, handed: Bytes, cap: nat, sessionId: string, env: Env)
    ensures Serve(s, handed, cap, sessionId, env).view.lastActivity == env.now
    ensures P.ParseMessage(handed).Err? ==>
              Serve(s, handed, cap, sessionId, env) == s.(view := s.view.(lastActivity := env.now))
  {
    hide P.ParseMessage, ReplyBytes, SendReply;
  }

  // ----- One reply per request -----

  /** Whatever the handler and the branch: one reply, carrying the request's CSeq. */
  lemma ReplyCarriesCSeq(v: View, request: P.Request, env: Env)
    ensures Handle(v, request, env).reply.cseq == request.cseq
  {
  }

  /** Phases only move on success; `Playing` is entered by PLAY alone, and with its reply. */
  lemma PhaseMovesOnSuccess(v: View, request: P.Request, env: Env)
    ensures var h := Handle(v, request, env);
            && (h.status != Ok ==> h.view.phase == v.phase && h.reply.ErrorReply?)
            && (h.status == Ok ==> h.reply.Code() == 200)
            && (h.view.phase == Playing && v.phase != Playing ==> h.reply.PlayReply?)
            && h.view.lastActivity == v.lastActivity
            && (v.isUdp ==> h.view.isUdp)
  {
  }

  /** Handlers never look at the phase: same reply, same status, and the same next phase or none. */
  lemma PhaseIsNoGuard(v: View, p: Phase, request: P.Request, env: Env)
    ensures var a, b := Handle(v, request, env), Handle(v.(phase := p), request, env);
            && a.reply == b.reply && a.status == b.status
            && (a.view == b.view || (a.view.phase == v.phase && b.view == a.view.(phase := p)))
    ensures request.method_ == P.Play ==> Handle(v, request, env).view.phase == Playing
    ensures request.method_ == P.Options ==> Handle(v, request, env).view.phase == OptionsSent
  {
  }

  /** A SETUP that asks for UDP with a client port, both of whose sockets open. */
  predicate OpensUdp(request: P.Request, env: Env) {
    request.method_ == P.Setup && request.transport.isUdp && request.transport.clientRtpPort != 0
    && env.rtpSocket && env.rtcpSocket
  }

  /** A session uses UDP exactly if it did before or has just been given UDP; nothing takes it back. */
  lemma UdpIsSetExactly(v: View, request: P.Request, env: Env)
    ensures Handle(v, request, env).view.isUdp <==> v.isUdp || OpensUdp(request, env)
    ensures Handle(v, request, env).reply.SetupUdpReply? <==> OpensUdp(request, env)
  {
  }

  /** What an accepted SETUP tells the client: the server's ports and the client's own, or channels 0 and 1. */
  lemma SetupTells(v: View, request: P.Request, env: Env)
    requires request.method_ == P.Setup
    ensures var h := Handle(v, request, env); var t := request.transport;
            && (OpensUdp(request, env) ==>
                  && h.reply.serverRtp == env.serverRtp && h.reply.serverRtcp == env.serverRtcp
                  && h.reply.clientRtp == t.clientRtpPort && h.reply.clientRtcp == t.clientRtcpPort)
            && (!t.isUdp && (t.isTcp || t.interleavedRtp != 0) ==>
                  h.reply.SetupTcpReply? && h.reply.rtpChannel == 0 && h.reply.rtcpChannel == 1)
            && (h.status == Ok <==> OpensUdp(request, env) || (!t.isUdp && (t.isTcp || t.interleavedRtp != 0)))
            && (h.status == Ok ==> h.view.phase == SetupSent)
  {
  }

  /** Which reply each method gets, with which code, and which phase it leads to. */
  lemma RepliesByMethod(v: View, request: P.Request, env: Env)
    ensures var h := Handle(v, request, env); var r := h.reply;
            match request.method_ {
              case Options => r.OptionsReply? && h.view == v.(phase := OptionsSent)
              case Describe =>
                if env.sdp == "" then r.ErrorReply? && r.code == 500 && h.view == v.(url := request.url)
                else r.DescribeReply? && r.sdp == env.sdp && h.view == v.(url := request.url, phase := DescribeSent)
              case Setup =>
                h.view.url == request.url
                && ("transport" in request.headers ==> h.view.transport == request.headers["transport"])
                && (r.ErrorReply? <==> h.status != Ok)
                && (r.ErrorReply? ==> r.code == if AsksInVain(request) then 461 else 500)
              case Play => r.PlayReply? && h.view == v.(url := request.url, phase := Playing)
              case Pause => r.SimpleReply? && h.view == v.(phase := Paused)
              case Teardown => r.SimpleReply? && h.view == v.(phase := Phase.Teardown)
              case GetParameter => r.SimpleReply? && h.view == v
              case SetParameter => r.SimpleReply? && h.view == v
              case Unknown => r.ErrorReply? && r.code == 405 && h.view == v
            }
  {
  }

  /** A SETUP that is refused for its transport: UDP without a client port, or no transport at all. */
  predicate AsksInVain(request: P.Request) {
    var t := request.transport;
    request.method_ == P.Setup && if t.isUdp then t.clientRtpPort == 0 else !t.isTcp && t.interleavedRtp == 0
  }

  /** Exactly those are answered with a status line that does not name the error. */
  lemma RefusalIsUnnamed(v: View, request: P.Request, env: Env)
    ensures var r := Handle(v, request, env).reply;
            && (ReasonPhrase(r.Code()) == "Unknown" <==> AsksInVain(request))
            && (StatusLine(r.Code(), ReasonPhrase(r.Code())) == "RTSP/1.0 461 Unknown" <==> AsksInVain(request))
  {
    hide Handle, AsksInVain, StatusLine;
    var code := Handle(v, request, env).reply.Code();
    RefusalCode(v, request, env);
    if code == 461 { LineOf461(); } else { OtherLines(code); }
  }

  lemma RefusalCode(v: View, request: P.Request, env: Env)
    ensures var code := Handle(v, request, env).reply.Code();
            if AsksInVain(request) then code == 461 else code == 200 || code == 405 || code == 500
  {
  }

  lemma LineOf461()
    ensures StatusLine(461, ReasonPhrase(461)) == "RTSP/1.0 461 Unknown"
  {
    assert Text.Digits(461) == "461" by {
      assert Text.Digits(4) == "4" && Text.Digits(46) == "46";
    }
  }

  lemma OtherLines(code: int)
    requires code == 200 || code == 405 || code == 500
    ensures StatusLine(code, ReasonPhrase(code)) != "RTSP/1.0 461 Unknown"
  {
    var line := StatusLine(code, ReasonPhrase(code));
    assert Text.Digits(200) == "200" by { assert Text.Digits(2) == "2" && Text.Digits(20) == "20"; }
    assert Text.Digits(405) == "405" by { assert Text.Digits(4) == "4" && Text.Digits(40) == "40"; }
    assert Text.Digits(500) == "500" by { assert Text.Digits(5) == "5" && Text.Digits(50) == "50"; }
    assert line[10] == '0' && "RTSP/1.0 461 Unknown"[10] == '6';
  }

  /** Exactly the requests that take a session out of the teardown phase. */
  lemma TeardownIsLeftExactly(v: View, request: P.Request, env: Env)
    requires v.phase == Phase.Teardown
    ensures var m, t := request.method_, request.transport;
            Handle(v, request, env).view.phase != Phase.Teardown <==>
              || m == P.Options || m == P.Play || m == P.Pause
              || (m == P.Describe && env.sdp != "")
              || (m == P.Setup && if t.isUdp then t.clientRtpPort != 0 && env.rtpSocket && env.rtcpSocket
                                  else t.isTcp || t.interleavedRtp != 0)
  {
  }

  /** The requests the loop hands to a parser that accepts them, in order. */
  function Accepted(units: seq<Demux.Unit>, at: nat, cap: nat, env: nat -> Env, i: nat): seq<P.Request>
    requires at < cap && forall u :: u in units ==> |u.bytes| <= cap
    decreases |units|
  {
    if units == [] then []
    else
      var u := units[0];
      var next := Wrap(at + |u.bytes|, cap);
      match u
      case Frame(_) => Accepted(units[1..], next, cap, env, i)
      case Request(bytes) =>
        AcceptedOf(HandedOver(bytes, at, cap, env(i).beyond))
        + Accepted(units[1..], next, cap, env, i + 1)
  }

  function CSeqs(rs: seq<P.Request>): seq<int> {
    seq(|rs|, j requires 0 <= j < |rs| => rs[j].cseq)
  }

  function ReplyCSeqs(rs: seq<Reply>): seq<int> {
    seq(|rs|, j requires 0 <= j < |rs| => rs[j].cseq)
  }

  /**
   Section 12.17 of RFC 2326: over a whole stream the attempted responses are one per accepted request,
   in order, each with the request's CSeq.
   */
  lemma {:induction false} OneReplyPerRequest(s: State, units: seq<Demux.Unit>, at: nat, cap: nat, sessionId: string,
                                              env: nat -> Env, i: nat)
    requires at < cap && forall u :: u in units ==> |u.bytes| <= cap
    ensures ReplyCSeqs(ServeAll(s, units, at, cap, sessionId, env, i).replies)
         == ReplyCSeqs(s.replies) + CSeqs(Accepted(units, at, cap, env, i))
    decreases |units|
  {
    hide HandedOver, Serve, AcceptedOf, CSeqs, ReplyCSeqs;
    if units == [] {
      NoCSeqs(ReplyCSeqs(s.replies));
    } else {
      var u := units[0];
      var next := Wrap(at + |u.bytes|, cap);
      match u
      case Frame(_) => OneReplyPerRequest(s, units[1..], next, cap, sessionId, env, i);
      case Request(bytes) =>
        var handed := HandedOver(bytes, at, cap, env(i).beyond);
        ServeReplies(s, handed, cap, sessionId, env(i));
        OneReplyPerRequest(Serve(s, handed, cap, sessionId, env(i)), units[1..], next, cap, sessionId, env, i + 1);
        CSeqsAppend(AcceptedOf(handed), Accepted(units[1..], next, cap, env, i + 1));
    }
  }

  function AcceptedOf(handed: Bytes): seq<P.Request> {
    match P.ParseMessage(handed)
    case Ok(r) => [r]
    case Err(_) => []
  }

  lemma NoCSeqs(a: seq<int>)
    ensures a + CSeqs([]) == a
  {
  }

  lemma CSeqsAppend(a: seq<P.Request>, b: seq<P.Request>)
    ensures CSeqs(a + b) == CSeqs(a) + CSeqs(b)
  {
  }

  lemma ServeReplies(s: State, handed: Bytes, cap: nat, sessionId: string, env: Env)
    ensures ReplyCSeqs(Serve(s, handed, cap, sessionId, env).replies)
         == ReplyCSeqs(s.replies) + CSeqs(AcceptedOf(handed))
  {
    hide P.ParseMessage, Handle, ReplyBytes, SendReply;
    if P.ParseMessage(handed).Ok? {
      ReplyCarriesCSeq(s.view.(lastActivity := env.now), P.ParseMessage(handed).value, env);
    }
  }
}

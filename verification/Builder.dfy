/**
 The response builder: src/protocol/rtsp_builder.cc.
 */
module Builder {
  import opened Bytes
  import opened Text

  const RTSP_VERSION := "RTSP/1.0"
  const OPTIONS_METHODS :=
    "OPTIONS, DESCRIBE, SETUP, " + "PLAY, PAUSE, TEARDOWN, " + "GET_PARAMETER, SET_PARAMETER"
  const PLAY_RANGE := "npt=0.000-"
  const TCP_PREFIX: Bytes := "RTP/AVP/TCP;"
  const UDP_PREFIX: Bytes := "RTP/AVP;unicast;"
  const CONTENT_TYPE_SDP := "application/sdp"
  const CONTENT_TYPE_TEXT := "text/plain"

  // ----- The ordered header map -----

  /** A `std::map<std::string, std::string>`: its entries in iteration order. */
  type Headers = seq<(string, string)>

  predicate Less(a: string, b: string) {
    if b == [] then false
    else if a == [] then true
    else a[0] < b[0] || (a[0] == b[0] && Less(a[1..], b[1..]))
  }

  lemma {:induction false} LessIsTotal(a: string, b: string)
    ensures Less(a, b) || a == b || Less(b, a)
    ensures !(Less(a, b) && Less(b, a)) && (a == b ==> !Less(a, b))
  {
    if a != [] && b != [] && a[0] == b[0] {
      LessIsTotal(a[1..], b[1..]);
      assert a == [a[0]] + a[1..] && b == [b[0]] + b[1..];
    }
  }

  lemma {:induction false} LessIsTransitive(a: string, b: string, c: string)
    requires Less(a, b) && Less(b, c)
    ensures Less(a, c)
  {
    if a != [] && a[0] == b[0] == c[0] {
      LessIsTransitive(a[1..], b[1..], c[1..]);
    }
  }

  ghost predicate Sorted(m: Headers) {
    forall i, j :: 0 <= i < j < |m| ==> Less(m[i].0, m[j].0)
  }

  function Keys(m: Headers): set<string> {
    set e | e in m :: e.0
  }

  /** `m[key] = value`. */
  function Put(m: Headers, key: string, value: string): (r: Headers)
    ensures Sorted(m) ==> Sorted(r) && forall e :: e in r <==> e == (key, value) || (e in m && e.0 != key)
  {
    PutKeepsOrder(m, key, value);
    PutRec(m, key, value)
  }

  function PutRec(m: Headers, key: string, value: string): Headers {
    if m == [] then [(key, value)]
    else if Less(key, m[0].0) then [(key, value)] + m
    else if key == m[0].0 then [(key, value)] + m[1..]
    else [m[0]] + PutRec(m[1..], key, value)
  }

  lemma {:induction false} PutKeepsOrder(m: Headers, key: string, value: string)
    ensures Sorted(m) ==> Sorted(PutRec(m, key, value))
    ensures Sorted(m) ==> forall e :: e in PutRec(m, key, value) <==> e == (key, value) || (e in m && e.0 != key)
  {
    if Sorted(m) && m != [] {
      LessIsTotal(key, m[0].0);
      SortedTail(m);
      if Less(key, m[0].0) {
        forall j | 0 <= j < |m| ensures Less(key, m[j].0) && m[j].0 != key {
          if j > 0 { LessIsTransitive(key, m[0].0, m[j].0); }
          LessIsTotal(key, m[j].0);
        }
      } else if key != m[0].0 {
        PutKeepsOrder(m[1..], key, value);
        var t := PutRec(m[1..], key, value);
        forall j | 0 <= j < |t| ensures Less(m[0].0, t[j].0) {
          assert t[j] in t;
        }
      }
    }
  }

  lemma SortedTail(m: Headers)
    requires Sorted(m) && m != []
    ensures Sorted(m[1..])
    ensures forall e :: e in m[1..] ==> Less(m[0].0, e.0) && e.0 != m[0].0
    ensures forall e :: e in m <==> e == m[0] || e in m[1..]
  {
    assert m == [m[0]] + m[1..];
    forall e | e in m[1..] ensures Less(m[0].0, e.0) && e.0 != m[0].0 {
      var j :| 0 <= j < |m[1..]| && m[1..][j] == e;
      assert m[j + 1] == e;
      LessIsTotal(m[0].0, e.0);
    }
  }

  // ----- Messages -----

  function StatusLine(code: int, reason: string): string {
    RTSP_VERSION + " " + ToString(code) + " " + reason
  }

  function HeaderLine(e: (string, string)): string {
    e.0 + ": " + e.1
  }

  function HeaderLines(m: Headers): Bytes {
    if m == [] then "" else HeaderLine(m[0]) + CRLF + HeaderLines(m[1..])
  }

  /** Everything up to and including the blank line. */
  function Head(code: int, reason: string, m: Headers): Bytes {
    StatusLine(code, reason) + CRLF + (HeaderLines(m) + CRLF)
  }

  /** As src/protocol/rtsp_builder.cc:13-39: the header loop; the overload without a body passes none. */
  method BuildResponse(code: int, reason: string, headers: Headers, body: Bytes) returns (response: Bytes)
    ensures response == Head(code, reason, headers) + body
  {
    var line := StatusLine(code, reason) + CRLF;
    response := line;
    var i := 0;
    while i < |headers|
      invariant i <= |headers|
      invariant response + HeaderLines(headers[i..]) == line + HeaderLines(headers)
    {
      assert headers[i..][1..] == headers[i + 1..];
      ghost var rest := HeaderLines(headers[i + 1..]);
      ghost var before := response;
      response := response + headers[i].0 + ": " + headers[i].1 + CRLF;
      assert response == before + (HeaderLine(headers[i]) + CRLF);
      assert before + (HeaderLine(headers[i]) + CRLF + rest) == response + rest;
      i := i + 1;
    }
    assert HeaderLines(headers[i..]) == "" && response == line + HeaderLines(headers);
    response := response + CRLF + body;
    assert response == line + (HeaderLines(headers) + CRLF) + body;
  }

  function ReasonPhrase(code: int): (r: string)
    ensures '\n' !in r
  {
    match code
    case 200 => "OK"
    case 400 => "Bad Request"
    case 401 => "Unauthorized"
    case 404 => "Not Found"
    case 405 => "Method Not Allowed"
    case 451 => "Parameter Not Understood"
    case 500 => "Internal Server Error"
    case 501 => "Not Implemented"
    case _ => "Unknown"
  }

  // ----- The replies -----

  /** One reply of the server, before it is printed. */
  datatype Reply =
    | OptionsReply(cseq: int)
    | DescribeReply(cseq: int, sdp: Bytes)
    | SetupTcpReply(cseq: int, rtpChannel: int, rtcpChannel: int)
    | SetupUdpReply(cseq: int, serverRtp: int, serverRtcp: int, clientRtp: int, clientRtcp: int)
    | PlayReply(cseq: int)
    | SimpleReply(cseq: int)
    | ErrorReply(cseq: int, code: int, message: Bytes)
  {
    function Code(): int {
      if ErrorReply? then code else 200
    }

    function Body(): Bytes {
      match this
      case DescribeReply(_, sdp) => sdp
      case ErrorReply(_, _, message) => message
      case _ => ""
    }
  }

  function TcpTransport(rtp: int, rtcp: int): string {
    TCP_PREFIX + "interleaved=" + ToString(rtp) + "-" + ToString(rtcp)
  }

  function UdpTransport(clientRtp: int, clientRtcp: int, serverRtp: int, serverRtcp: int): string {
    UDP_PREFIX + "client_port=" + ToString(clientRtp) + "-" + ToString(clientRtcp)
    + (";" + "server_port=" + ToString(serverRtp) + "-" + ToString(serverRtcp))
  }

  function WithSession(m: Headers, sessionId: string): Headers {
    if sessionId == "" then m else Put(m, "Session", sessionId)
  }

  function WithContent(m: Headers, contentType: string, body: Bytes): Headers {
    Put(Put(m, "Content-Type", contentType), "Content-Length", ToString(|body|))
  }

  /** As src/protocol/rtsp_builder.cc:41-129: the headers each `Build*Response` puts into its map. */
  function ReplyHeaders(r: Reply, sessionId: string): Headers {
    var m := Put([], "CSeq", ToString(r.cseq));
    match r
    case OptionsReply(_) => Put(m, "Public", OPTIONS_METHODS)
    case DescribeReply(_, sdp) => WithContent(m, CONTENT_TYPE_SDP, sdp)
    case SetupTcpReply(_, rtp, rtcp) => WithSession(Put(m, "Transport", TcpTransport(rtp, rtcp)), sessionId)
    case SetupUdpReply(_, sRtp, sRtcp, cRtp, cRtcp) =>
      WithSession(Put(m, "Transport", UdpTransport(cRtp, cRtcp, sRtp, sRtcp)), sessionId)
    case PlayReply(_) => WithSession(Put(m, "Range", PLAY_RANGE), sessionId)
    case SimpleReply(_) => WithSession(m, sessionId)
    case ErrorReply(_, _, message) => WithContent(m, CONTENT_TYPE_TEXT, message)
  }

  function ReplyHead(r: Reply, sessionId: string): Bytes {
    Head(r.Code(), ReasonPhrase(r.Code()), ReplyHeaders(r, sessionId))
  }

  function ReplyBytes(r: Reply, sessionId: string): Bytes {
    ReplyHead(r, sessionId) + r.Body()
  }

  method Build(r: Reply, sessionId: string) returns (response: Bytes)
    ensures response == ReplyBytes(r, sessionId)
  {
    response := BuildResponse(r.Code(), ReasonPhrase(r.Code()), ReplyHeaders(r, sessionId), r.Body());
  }
}

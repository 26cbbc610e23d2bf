/**
 The outgoing stream as its receiver sees it: interleaved frames (section 10.12 of RFC 2326) and text
 responses (section 4.4 of RFC 2326) in one byte stream, and a reference decoder that takes them apart.
 */
module Framing {
  import opened Bytes
  import opened Text
  import opened Builder
  import opened RoundTrips
  import opened ReplyLaws
  import P = Parser

  const MARKER: char := '$'
  const MAX_PACKET: nat := 2048
  const HEADER_SIZE: nat := 4

  datatype Packet = Packet(data: Bytes, streamIndex: int)

  function HeaderBytes(channel: int, length: nat): (h: Bytes)
    ensures |h| == HEADER_SIZE
  {
    [MARKER, (channel % 256) as char, (length / 256 % 256) as char, (length % 256) as char]
  }

  /** As src/rtp/rtp_forwarder.cc:76-90. */
  method BuildInterleavedHeader(header: array<char>, channel: int, length: nat)
    requires header.Length == HEADER_SIZE
    modifies header
    ensures header[..] == HeaderBytes(channel, length)
    ensures header[0] == '$' && ByteValue(header[1]) == channel % 256
    ensures length < 65536 ==> ByteValue(header[2]) == length / 256 && ByteValue(header[3]) == length % 256
  {
    header[0] := MARKER;
    header[1] := (channel % 256) as char;
    header[2] := (length / 256 % 256) as char;
    header[3] := (length % 256) as char;
  }

  /** Big-endian length field of a header: src/core/rtsp_server.cc:421. */
  function FrameLength(s: Bytes): (n: nat)
    requires HEADER_SIZE <= |s|
    ensures n < 0x1_0000
  {
    256 * ByteValue(s[2]) + ByteValue(s[3])
  }

  /** The header byte by byte: `$`, the channel, and the length with its high byte first. */
  lemma HeaderIsBigEndian(channel: int, length: nat)
    requires length < 65536
    ensures var h := HeaderBytes(channel, length);
            |h| == 4 && h[0] == '$' && ByteValue(h[1]) == channel % 256
            && ByteValue(h[2]) == length / 256 && ByteValue(h[3]) == length % 256
  {
  }

  lemma HeaderIsRead(channel: int, length: nat, rest: Bytes)
    requires length < 0x1_0000
    ensures var s := HeaderBytes(channel, length) + rest;
            s[0] == MARKER && ByteValue(s[1]) == channel % 256 && FrameLength(s) == length
  {
  }

  function FrameBytes(p: Packet): Bytes {
    HeaderBytes(p.streamIndex, |p.data|) + p.data
  }

  // ----- What the server sends -----

  datatype Item = Media(packet: Packet) | Response(reply: Reply)

  function ItemBytes(i: Item, sessionId: string): Bytes {
    match i
    case Media(p) => FrameBytes(p)
    case Response(r) => ReplyBytes(r, sessionId)
  }

  function StreamBytes(items: seq<Item>, sessionId: string): Bytes {
    if items == [] then [] else ItemBytes(items[0], sessionId) + StreamBytes(items[1..], sessionId)
  }

  /** A frame's length must fit its 16-bit field; the forwarder sends payloads of 1 to 2048 bytes. */
  predicate Sendable(i: Item) {
    i.Media? ==> 0 < |i.packet.data| < 0x1_0000
  }

  // ----- What a receiver makes of it -----

  datatype Unit =
    | Frame(channel: nat, payload: Bytes)
    | Message(first: string, headers: map<string, string>, body: Bytes)

  function HeadersOf(head: Bytes): map<string, string> {
    match P.ParseLines(head, P.START)
    case Ok(p) => p.request.headers
    case Err(_) => map[]
  }

  function FirstLine(head: Bytes): string {
    match Find(head, "\n")
    case Some(newline) => P.LineUpTo(head, newline)
    case None => head
  }

  /** Section 4.4 of RFC 2326: without a `Content-Length` there is no body. */
  function ContentLength(h: map<string, string>): nat {
    if "content-length" in h && AllDigits(h["content-length"]) then NatOf(h["content-length"]) else 0
  }

  /** The first complete unit of `s` and its length; `None` while it is incomplete. */
  function DecodeOne(s: Bytes): (r: Option<(Unit, nat)>)
    ensures r.Some? ==> 0 < r.value.1 <= |s|
  {
    if s == [] then None
    else if s[0] == MARKER then
      if |s| < HEADER_SIZE || |s| < HEADER_SIZE + FrameLength(s) then None
      else
        var n := HEADER_SIZE + FrameLength(s);
        Some((Frame(ByteValue(s[1]), s[HEADER_SIZE..n]), n))
    else
      match Find(s, BLANK_LINE)
      case None => None
      case Some(end) => DecodeMessage(s[..end + 4], s[end + 4..])
  }

  /** A message whose head is complete, if its body is: `Content-Length` bytes of what follows. */
  function DecodeMessage(head: Bytes, after: Bytes): (r: Option<(Unit, nat)>)
    ensures r.Some? ==> |head| <= r.value.1 <= |head| + |after|
  {
    var h := HeadersOf(head);
    var n := ContentLength(h);
    if |after| < n then None else Some((Message(FirstLine(head), h, after[..n]), |head| + n))
  }

  /** All complete units of `s`, and the incomplete rest. */
  function Decode(s: Bytes): (seq<Unit>, Bytes)
    decreases |s|
  {
    match DecodeOne(s)
    case None => ([], s)
    case Some((u, n)) =>
      var (us, rest) := Decode(s[n..]);
      ([u] + us, rest)
  }

  /** The unit an item is meant to be received as. */
  function Received(i: Item, sessionId: string): Unit {
    match i
    case Media(p) => Frame(p.streamIndex % 256, p.data)
    case Response(r) =>
      Message(StatusLine(r.Code(), ReasonPhrase(r.Code())), ReadMap(ReplyHeaders(r, sessionId)), r.Body())
  }

  function AllReceived(items: seq<Item>, sessionId: string): seq<Unit> {
    if items == [] then [] else [Received(items[0], sessionId)] + AllReceived(items[1..], sessionId)
  }

  // ----- The blank line that ends a head is its first -----

  lemma NewlinesOf(s: Bytes, j: nat)
    ensures MatchAt(s, BLANK_LINE, j) <==>
              j + 4 <= |s| && s[j] == '\r' && s[j + 1] == '\n' && s[j + 2] == '\r' && s[j + 3] == '\n'
  {
    if j + 4 <= |s| {
      assert s[j..j + 4] == [s[j], s[j + 1], s[j + 2], s[j + 3]];
      assert BLANK_LINE == ['\r', '\n', '\r', '\n'];
    }
  }

  /** No blank line starts inside a line. */
  lemma NoBlankWithin(line: Bytes, t: Bytes, j: nat)
    requires '\n' !in line && j < |line|
    ensures !MatchAt(line + CRLF + t, BLANK_LINE, j)
  {
    var s := line + CRLF + t;
    NewlinesOf(s, j);
    assert s[j + 1] == if j + 1 < |line| then line[j + 1] else '\r';
  }

  lemma BlankAfterLine(line: Bytes, t: Bytes)
    requires '\n' !in line
    ensures Find(line + CRLF + (CRLF + t), BLANK_LINE) == Some(|line|)
  {
    var s := line + CRLF + (CRLF + t);
    forall j: nat | j < |line| ensures !MatchAt(s, BLANK_LINE, j) {
      NoBlankWithin(line, CRLF + t, j);
    }
    NewlinesOf(s, |line|);
    FindIs(s, BLANK_LINE, |line|);
  }

  lemma SkipLine(line: Bytes, t: Bytes, p: nat)
    requires '\n' !in line && Find(t, BLANK_LINE) == Some(p)
    requires t[0] != '\r' || t[1] != '\n'
    ensures Find(line + CRLF + t, BLANK_LINE) == Some(|line| + 2 + p)
  {
    var s := line + CRLF + t;
    forall j: nat ensures j < |line| + 2 + p ==> !MatchAt(s, BLANK_LINE, j) {
      NewlinesOf(s, j);
      if j < |line| {
        NoBlankWithin(line, t, j);
      } else if |line| + 2 <= j < |line| + 2 + p {
        NewlinesOf(t, j - |line| - 2);
        assert !MatchAt(t, BLANK_LINE, j - |line| - 2);
      }
    }
    NewlinesOf(t, p);
    NewlinesOf(s, |line| + 2 + p);
    FindIs(s, BLANK_LINE, |line| + 2 + p);
  }

  lemma {:induction false} HeadersEndOnce(line: Bytes, m: Headers, tail: Bytes)
    requires '\n' !in line && Clean(m)
    decreases |m|
    ensures Find(line + CRLF + (HeaderLines(m) + CRLF + tail), BLANK_LINE) == Some(|line| + |HeaderLines(m)|)
  {
    hide P.ParseHeaderLine, ReadName, Find, HeaderLine;
    if m == [] {
      assert HeaderLines(m) + CRLF + tail == CRLF + tail;
      BlankAfterLine(line, tail);
    } else {
      var next, rest := HeaderLine(m[0]), HeaderLines(m[1..]) + CRLF + tail;
      HeaderLineIsRead(m[0], P.EMPTY_REQUEST);
      HeadersEndOnce(next, m[1..], tail);
      assert HeaderLines(m) + CRLF + tail == next + CRLF + rest;
      StartsWithNoBreak(next, rest);
      SkipLine(line, next + CRLF + rest, |next| + |HeaderLines(m[1..])|);
    }
  }

  lemma StartsWithNoBreak(line: Bytes, rest: Bytes)
    requires line != "" && '\n' !in line
    ensures var t := line + CRLF + rest; t[1] != '\n'
  {
    var t := line + CRLF + rest;
    assert t[1] == if |line| > 1 then line[1] else '\r';
  }

  lemma HeadEndsOnce(code: int, reason: string, m: Headers, tail: Bytes)
    requires '\n' !in reason && Clean(m)
    ensures Find(Head(code, reason, m) + tail, BLANK_LINE) == Some(|Head(code, reason, m)| - 4)
  {
    var line := StatusLine(code, reason);
    StatusLineIsClean(code, reason);
    HeadersEndOnce(line, m, tail);
    assert Head(code, reason, m) + tail == line + CRLF + (HeaderLines(m) + CRLF + tail);
  }

  // ----- Round trip -----

  lemma FrameIsDecoded(p: Packet, rest: Bytes)
    requires Sendable(Media(p))
    ensures DecodeOne(FrameBytes(p) + rest) == Some((Frame(p.streamIndex % 256, p.data), |FrameBytes(p)|))
  {
    var s := FrameBytes(p) + rest;
    assert s == HeaderBytes(p.streamIndex, |p.data|) + (p.data + rest);
    HeaderIsRead(p.streamIndex, |p.data|, p.data + rest);
    assert s[HEADER_SIZE..HEADER_SIZE + |p.data|] == p.data;
  }

  lemma HeadIsDecoded(r: Reply, sessionId: string)
    requires '\n' !in sessionId
    ensures var head := ReplyHead(r, sessionId);
            && HeadersOf(head) == ReadMap(ReplyHeaders(r, sessionId))
            && FirstLine(head) == StatusLine(r.Code(), ReasonPhrase(r.Code()))
            && ContentLength(HeadersOf(head)) == |r.Body()|
  {
    var m := ReplyHeaders(r, sessionId);
    ReplyIsPlain(r, sessionId);
    PlainIsClean(m);
    HeadIsRead(r.Code(), ReasonPhrase(r.Code()), m);
    StatusLineIsClean(r.Code(), ReasonPhrase(r.Code()));
    LineIsRead(StatusLine(r.Code(), ReasonPhrase(r.Code())), HeaderLines(m) + CRLF);
    ReplySays(r, sessionId);
    NatOfDigits(|r.Body()|);
  }

  lemma TextIsDecoded(head: Bytes, body: Bytes, rest: Bytes)
    requires |head| >= 4 && head[0] != MARKER && Find(head + (body + rest), BLANK_LINE) == Some(|head| - 4)
    requires ContentLength(HeadersOf(head)) == |body|
    ensures DecodeOne(head + body + rest) == Some((Message(FirstLine(head), HeadersOf(head), body), |head + body|))
  {
    hide HeadersOf, FirstLine, ContentLength;
    var s := head + (body + rest);
    assert head + body + rest == s;
    assert s[..|head|] == head && s[|head|..] == body + rest;
    assert (body + rest)[..|body|] == body;
  }

  lemma HeadStarts(r: Reply, sessionId: string)
    ensures var head := ReplyHead(r, sessionId); |head| >= 4 && head[0] == 'R'
  {
  }

  lemma ReplyHeadEndsOnce(r: Reply, sessionId: string, tail: Bytes)
    requires '\n' !in sessionId
    ensures Find(ReplyHead(r, sessionId) + tail, BLANK_LINE) == Some(|ReplyHead(r, sessionId)| - 4)
  {
    hide Head, ReplyHeaders;
    ReplyIsPlain(r, sessionId);
    PlainIsClean(ReplyHeaders(r, sessionId));
    HeadEndsOnce(r.Code(), ReasonPhrase(r.Code()), ReplyHeaders(r, sessionId), tail);
  }

  lemma ResponseIsDecoded(r: Reply, sessionId: string, rest: Bytes)
    requires '\n' !in sessionId
    ensures DecodeOne(ReplyBytes(r, sessionId) + rest)
         == Some((Received(Response(r), sessionId), |ReplyBytes(r, sessionId)|))
  {
    hide ReplyHead, HeadersOf, FirstLine, ContentLength, DecodeOne, ReadMap, ReplyHeaders, StatusLine;
    HeadStarts(r, sessionId);
    ReplyHeadEndsOnce(r, sessionId, r.Body() + rest);
    HeadIsDecoded(r, sessionId);
    TextIsDecoded(ReplyHead(r, sessionId), r.Body(), rest);
  }

  /**
   Mixed-stream round trip: any list of frames and replies, printed one after the other, decodes to
   exactly that list, whatever bytes the bodies and payloads contain.
   */
  lemma {:induction false} DecodeRecovers(items: seq<Item>, sessionId: string)
    requires '\n' !in sessionId && forall i :: i in items ==> Sendable(i)
    ensures Decode(StreamBytes(items, sessionId)) == (AllReceived(items, sessionId), [])
  {
    if items != [] {
      var s, rest := StreamBytes(items, sessionId), StreamBytes(items[1..], sessionId);
      match items[0] {
        case Media(p) => FrameIsDecoded(p, rest);
        case Response(r) => ResponseIsDecoded(r, sessionId, rest);
      }
      DecodeRecovers(items[1..], sessionId);
      assert s[|ItemBytes(items[0], sessionId)|..] == rest;
    }
  }

  /** More bytes never change a unit already complete. */
  lemma DecodeOneIsStable(a: Bytes, b: Bytes)
    requires DecodeOne(a).Some?
    ensures DecodeOne(a + b) == DecodeOne(a)
  {
    hide HeadersOf, FirstLine, ContentLength;
    if a[0] == MARKER {
      var n := DecodeOne(a).value.1;
      assert (a + b)[HEADER_SIZE..n] == a[HEADER_SIZE..n];
    } else {
      FindIsStable(a, b, BLANK_LINE);
      var end := Find(a, BLANK_LINE).value;
      assert (a + b)[..end + 4] == a[..end + 4] && (a + b)[end + 4..] == a[end + 4..] + b;
      MessageIsStable(a[..end + 4], a[end + 4..], b);
    }
  }

  lemma MessageIsStable(head: Bytes, after: Bytes, b: Bytes)
    requires DecodeMessage(head, after).Some?
    ensures DecodeMessage(head, after + b) == DecodeMessage(head, after)
  {
    var n := ContentLength(HeadersOf(head));
    assert (after + b)[..n] == after[..n];
  }

  /** A receiver that has only part of the stream decodes a prefix of what the whole decodes to. */
  lemma {:induction false} DecodePrefix(a: Bytes, b: Bytes)
    ensures Decode(a).0 <= Decode(a + b).0
    decreases |a|
  {
    match DecodeOne(a)
    case None =>
    case Some((u, n)) =>
      DecodeOneIsStable(a, b);
      assert (a + b)[n..] == a[n..] + b;
      DecodePrefix(a[n..], b);
  }
}

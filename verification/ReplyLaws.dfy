/**
 What the replies of the server say to a reader that parses them with the server's own parser.
 */
module ReplyLaws {
  import opened Bytes
  import opened Text
  import opened Builder
  import opened RoundTrips
  import P = Parser

  // ----- Header names -----

  const NAMES: set<string> :=
    {"CSeq", "Public", "Range", "Session", "Transport", "Content-Type", "Content-Length"}

  lemma LowerNames()
    ensures Lower("CSeq") == "cseq" && Lower("Session") == "session" && Lower("Transport") == "transport"
    ensures Lower("Content-Length") == "content-length" && Lower("Range") == "range"
    ensures Lower("Public") == "public" && Lower("Content-Type") == "content-type"
  {
  }

  lemma NamesAreClean(k: string)
    requires k in NAMES
    ensures Trimmed(k) && ':' !in k && '\n' !in k
  {
  }

  lemma NamesDiffer(k: string, l: string)
    requires k in NAMES && l in NAMES && k != l
    ensures Lower(k) != Lower(l)
  {
    assert |Lower(k)| == |k| && |Lower(l)| == |l|;
  }

  // ----- Header maps of replies -----

  predicate Plain(m: Headers) {
    forall e :: e in m ==> e.0 in NAMES && '\n' !in e.1
  }

  lemma PlainIsClean(m: Headers)
    requires Sorted(m) && Plain(m)
    ensures Clean(m)
  {
    forall i | 0 <= i < |m| ensures CleanEntry(m[i]) {
      assert m[i] in m;
      NamesAreClean(m[i].0);
    }
    forall i, j | 0 <= i < j < |m| ensures ReadName(m[i].0) != ReadName(m[j].0) {
      assert m[i] in m && m[j] in m;
      LessIsTotal(m[i].0, m[j].0);
      NamesAreRead(m[i].0);
      NamesAreRead(m[j].0);
      NamesDiffer(m[i].0, m[j].0);
    }
  }

  lemma NamesAreRead(k: string)
    requires k in NAMES
    ensures ReadName(k) == Lower(k)
  {
    NamesAreClean(k);
    TrimExactly(k);
  }

  /** For the header names used here, reading the map by lower-cased name is reading it by name. */
  lemma ReadByName(m: Headers, k: string)
    requires Sorted(m) && Plain(m) && k in NAMES
    ensures forall v :: (k, v) in m ==> Lower(k) in ReadMap(m) && ReadMap(m)[Lower(k)] == Trim(v)
    ensures (forall v :: (k, v) !in m) ==> Lower(k) !in ReadMap(m)
  {
    PlainIsClean(m);
    ReadMapKeys(m);
    forall v | (k, v) in m ensures Lower(k) in ReadMap(m) && ReadMap(m)[Lower(k)] == Trim(v) {
      var i :| 0 <= i < |m| && m[i] == (k, v);
      NamesAreRead(k);
      ReadMapLooksUp(m, i);
    }
    if Lower(k) in ReadMap(m) {
      var i :| 0 <= i < |m| && ReadName(m[i].0) == Lower(k);
      assert m[i] in m;
      NamesAreRead(m[i].0);
      if m[i].0 != k { NamesDiffer(m[i].0, k); }
      assert (k, m[i].1) in m;
    }
  }

  // ----- Transport values -----

  lemma MatchHasChar(s: Bytes, pat: Bytes, j: nat, off: nat)
    requires off < |pat|
    ensures MatchAt(s, pat, j) ==> s[j + off] == pat[off]
  {
    if MatchAt(s, pat, j) {
      assert s[j + off] == s[j..j + |pat|][off];
    }
  }

  lemma FindByMark(s: Bytes, pat: Bytes, p: nat, off: nat)
    requires off < |pat| && MatchAt(s, pat, p) && pat[off] !in s[..p + off]
    ensures Find(s, pat) == Some(p)
  {
    forall j: nat | j < p ensures !MatchAt(s, pat, j) {
      MatchHasChar(s, pat, j, off);
      assert s[j + off] == s[..p + off][j + off];
    }
    FindIs(s, pat, p);
  }

  lemma NotFoundByMark(s: Bytes, pat: Bytes, off: nat)
    requires off < |pat| && pat[off] !in s
    ensures Find(s, pat) == None
  {
    forall j: nat ensures !MatchAt(s, pat, j) {
      MatchHasChar(s, pat, j, off);
    }
  }

  lemma Middle(u: Bytes, v: Bytes, w: Bytes)
    ensures (u + v + w)[|u|..|u| + |v|] == v
    ensures (u + v + w)[..|u|] == u
    ensures w != [] ==> (u + v + w)[|u| + |v|] == w[0]
  {
  }

  lemma KeyIsFound(before: Bytes, key: Bytes, rest: Bytes, off: nat)
    requires off < |key| && key[off] !in before + key[..off]
    ensures Find(before + key + rest, key) == Some(|before|)
  {
    var s := before + key + rest;
    Middle(before, key, rest);
    assert s == before + key[..off] + (key[off..] + rest);
    Middle(before + key[..off], key[off..], rest);
    assert s[..|before| + off] == before + key[..off];
    FindByMark(s, key, |before|, off);
  }

  lemma PairSlices(before: Bytes, key: Bytes, ta: Bytes, tb: Bytes, after: Bytes)
    ensures var s := before + key + ta + "-" + tb + after;
            var x := |before| + |key|; var y := x + |ta|; var z := y + 1 + |tb|;
            && s[x..y] == ta && s[y] == '-' && s[y + 1..z] == tb
            && (z < |s| ==> s[z] == after[0])
            && s == before + key + (ta + "-" + tb + after)
  {
  }

  /** The pair behind the first occurrence of `key`, which `key[off]` marks. */
  lemma PairIsRead(before: Bytes, key: Bytes, a: int, b: int, after: Bytes, off: nat)
    requires IsInt(a) && IsInt(b)
    requires off < |key| && key[off] !in before + key[..off]
    requires after == [] || !IsDigit(after[0])
    ensures P.NumberPair(before + key + ToString(a) + "-" + ToString(b) + after, key) == (a, b)
  {
    hide Strtol, ToString, P.NumberPair;
    var ta, tb := ToString(a), ToString(b);
    PairSlices(before, key, ta, tb, after);
    KeyIsFound(before, key, ta + "-" + tb + after, off);
    var s := before + key + ta + "-" + tb + after;
    NumbersAt(s, |before| + |key|, a, b);
    PairFromParts(s, key, |before|, a, |before| + |key| + |ta|, b);
  }

  lemma NumbersAt(s: Bytes, x: nat, a: int, b: int)
    requires IsInt(a) && IsInt(b)
    requires var y := x + |ToString(a)|; var z := y + 1 + |ToString(b)|;
             && z <= |s| && s[x..y] == ToString(a) && s[y] == '-' && s[y + 1..z] == ToString(b)
             && (z < |s| ==> !IsDigit(s[z]))
    ensures var y := x + |ToString(a)|; Strtol(s, x) == (a, y) && Strtol(s, y + 1).0 == b
  {
    StrtolReadsBack(s, x, a);
    StrtolReadsBack(s, x + |ToString(a)| + 1, b);
  }

  lemma PairFromParts(s: Bytes, key: Bytes, at: nat, a: int, e: nat, b: int)
    requires IsInt(a) && IsInt(b) && Find(s, key) == Some(at)
    requires Strtol(s, at + |key|) == (a, e) && CharAt(s, e) == '-' && e < |s| && Strtol(s, e + 1).0 == b
    ensures P.NumberPair(s, key) == (a, b)
  {
  }

  lemma NumbersHaveOnly(n: int, c: char)
    requires !IsDigit(c) && c != '-'
    ensures c !in ToString(n)
  {
  }

  /** A TCP transport value reads back as TCP with the same channel numbers and nothing else. */
  lemma TcpTransportIsRead(rtp: int, rtcp: int)
    requires IsInt(rtp) && IsInt(rtcp)
    ensures P.ParseTransport(TcpTransport(rtp, rtcp)) == P.TransportInfo(false, true, 0, 0, 0, 0, rtp, rtcp)
  {
    var s := TcpTransport(rtp, rtcp);
    TcpChannelsAreRead(rtp, rtcp);
    TcpIsNamed(rtp, rtcp);
    TcpLacksUnderscore(rtp, rtcp);
    NotFoundByMark(s, "client_port=", 6);
    NotFoundByMark(s, "server_port=", 6);
  }

  lemma TcpLacksUnderscore(rtp: int, rtcp: int)
    ensures '_' !in TcpTransport(rtp, rtcp)
  {
    NumbersHaveOnly(rtp, '_');
    NumbersHaveOnly(rtcp, '_');
    assert '_' !in TCP_PREFIX && '_' !in "interleaved=" && '_' !in "-";
  }

  lemma TcpChannelsAreRead(rtp: int, rtcp: int)
    requires IsInt(rtp) && IsInt(rtcp)
    ensures P.NumberPair(TcpTransport(rtp, rtcp), "interleaved=") == (rtp, rtcp)
  {
    var key: Bytes := "interleaved=";
    assert TcpTransport(rtp, rtcp) == TCP_PREFIX + key + ToString(rtp) + "-" + ToString(rtcp) + "";
    assert key[..0] == [] && TCP_PREFIX + [] == TCP_PREFIX;
    PairIsRead(TCP_PREFIX, key, rtp, rtcp, "", 0);
  }

  lemma TcpIsNamed(rtp: int, rtcp: int)
    ensures Find(TcpTransport(rtp, rtcp), "TCP").Some?
  {
    var before, rest: Bytes := "RTP/AVP/", ";" + "interleaved=" + ToString(rtp) + "-" + ToString(rtcp);
    assert TCP_PREFIX == before + "TCP" + ";";
    assert TcpTransport(rtp, rtcp) == before + "TCP" + rest;
    Middle(before, "TCP", rest);
    assert MatchAt(TcpTransport(rtp, rtcp), "TCP", 8);
  }

  /** A UDP transport value reads back as UDP with the same four ports and nothing else. */
  lemma UdpTransportIsRead(cRtp: int, cRtcp: int, sRtp: int, sRtcp: int)
    requires IsInt(cRtp) && IsInt(cRtcp) && IsInt(sRtp) && IsInt(sRtcp)
    ensures P.ParseTransport(UdpTransport(cRtp, cRtcp, sRtp, sRtcp))
         == P.TransportInfo(true, false, cRtp, cRtcp, sRtp, sRtcp, 0, 0)
  {
    var s := UdpTransport(cRtp, cRtcp, sRtp, sRtcp);
    UdpClientIsRead(cRtp, cRtcp, sRtp, sRtcp);
    UdpServerIsRead(cRtp, cRtcp, sRtp, sRtcp);
    UdpLacksC(cRtp, cRtcp, sRtp, sRtcp);
    UdpLacksD(cRtp, cRtcp, sRtp, sRtcp);
    NotFoundByMark(s, "TCP", 1);
    NotFoundByMark(s, "interleaved=", 10);
  }

  lemma UdpLacksC(cRtp: int, cRtcp: int, sRtp: int, sRtcp: int)
    ensures 'C' !in UdpTransport(cRtp, cRtcp, sRtp, sRtcp)
  {
    assert 'C' !in UDP_PREFIX && 'C' !in "client_port=" && 'C' !in ";" && 'C' !in "server_port=" && 'C' !in "-";
    UdpHasNo(cRtp, cRtcp, sRtp, sRtcp, 'C');
  }

  lemma UdpLacksD(cRtp: int, cRtcp: int, sRtp: int, sRtcp: int)
    ensures 'd' !in UdpTransport(cRtp, cRtcp, sRtp, sRtcp)
  {
    assert 'd' !in UDP_PREFIX && 'd' !in "client_port=" && 'd' !in ";" && 'd' !in "server_port=" && 'd' !in "-";
    UdpHasNo(cRtp, cRtcp, sRtp, sRtcp, 'd');
  }

  lemma UdpHasNo(cRtp: int, cRtcp: int, sRtp: int, sRtcp: int, c: char)
    requires !IsDigit(c) && c != '-'
    requires c !in UDP_PREFIX && c !in "client_port=" && c !in ";" && c !in "server_port=" && c !in "-"
    ensures c !in UdpTransport(cRtp, cRtcp, sRtp, sRtcp)
  {
    NumbersHaveOnly(cRtp, c);
    NumbersHaveOnly(cRtcp, c);
    NumbersHaveOnly(sRtp, c);
    NumbersHaveOnly(sRtcp, c);
  }

  lemma UdpClientIsRead(cRtp: int, cRtcp: int, sRtp: int, sRtcp: int)
    requires IsInt(cRtp) && IsInt(cRtcp)
    ensures P.NumberPair(UdpTransport(cRtp, cRtcp, sRtp, sRtcp), "client_port=") == (cRtp, cRtcp)
  {
    var key: Bytes := "client_port=";
    assert key[..1] == "c";
    PairIsRead(UDP_PREFIX, key, cRtp, cRtcp, ";" + "server_port=" + ToString(sRtp) + "-" + ToString(sRtcp), 1);
  }

  lemma UdpServerIsRead(cRtp: int, cRtcp: int, sRtp: int, sRtcp: int)
    requires IsInt(sRtp) && IsInt(sRtcp)
    ensures P.NumberPair(UdpTransport(cRtp, cRtcp, sRtp, sRtcp), "server_port=") == (sRtp, sRtcp)
  {
    var key: Bytes := "server_port=";
    var first := UDP_PREFIX + "client_port=" + ToString(cRtp) + "-" + ToString(cRtcp);
    Regroup(first, ";", key, ToString(sRtp), "-", ToString(sRtcp));
    ServerKeyIsMarked(cRtp, cRtcp);
    PairIsRead(first + ";", key, sRtp, sRtcp, "", 3);
  }

  lemma Regroup(a: Bytes, b: Bytes, c: Bytes, d: Bytes, e: Bytes, f: Bytes)
    ensures a + (b + c + d + e + f) == (a + b) + c + d + e + f + ""
  {
  }

  lemma ServerKeyIsMarked(cRtp: int, cRtcp: int)
    ensures var key: Bytes := "server_port=";
            key[3] !in UDP_PREFIX + "client_port=" + ToString(cRtp) + "-" + ToString(cRtcp) + ";" + key[..3]
  {
    NumbersHaveOnly(cRtp, 'v');
    NumbersHaveOnly(cRtcp, 'v');
    assert 'v' !in UDP_PREFIX && 'v' !in "client_port=" && 'v' !in "-" && 'v' !in ";";
    assert "server_port="[..3] == "ser";
  }

  // ----- Replies -----

  /** Replies whose printed form names the session. */
  predicate NamesSession(r: Reply) {
    r.SetupTcpReply? || r.SetupUdpReply? || r.PlayReply? || r.SimpleReply?
  }

  predicate HasBody(r: Reply) {
    r.DescribeReply? || r.ErrorReply?
  }

  function Entries(m: Headers): set<(string, string)> {
    set e | e in m
  }

  /** The fields between `CSeq` and `Session`. */
  function OwnEntries(r: Reply): set<(string, string)> {
    match r
    case OptionsReply(_) => {("Public", OPTIONS_METHODS)}
    case DescribeReply(_, sdp) => {("Content-Type", CONTENT_TYPE_SDP), ("Content-Length", ToString(|sdp|))}
    case SetupTcpReply(_, rtp, rtcp) => {("Transport", TcpTransport(rtp, rtcp))}
    case SetupUdpReply(_, sRtp, sRtcp, cRtp, cRtcp) => {("Transport", UdpTransport(cRtp, cRtcp, sRtp, sRtcp))}
    case PlayReply(_) => {("Range", PLAY_RANGE)}
    case SimpleReply(_) => {}
    case ErrorReply(_, _, message) => {("Content-Type", CONTENT_TYPE_TEXT), ("Content-Length", ToString(|message|))}
  }

  function SessionEntry(r: Reply, sessionId: string): set<(string, string)> {
    if NamesSession(r) && sessionId != "" then {("Session", sessionId)} else {}
  }

  lemma PutNew(m: Headers, k: string, v: string)
    requires Sorted(m) && forall e :: e in m ==> e.0 != k
    ensures Sorted(Put(m, k, v)) && Entries(Put(m, k, v)) == Entries(m) + {(k, v)}
  {
  }

  lemma WithSessionEntries(m: Headers, sessionId: string)
    requires Sorted(m) && forall e :: e in m ==> e.0 != "Session"
    ensures var s := WithSession(m, sessionId);
            Sorted(s) && Entries(s) == Entries(m) + if sessionId != "" then {("Session", sessionId)} else {}
  {
    if sessionId != "" {
      PutNew(m, "Session", sessionId);
    }
  }

  lemma WithContentEntries(m: Headers, contentType: string, body: Bytes)
    requires Sorted(m) && forall e :: e in m ==> |e.0| == 4
    ensures var s := WithContent(m, contentType, body);
            && Sorted(s)
            && Entries(s) == Entries(m) + {("Content-Type", contentType), ("Content-Length", ToString(|body|))}
  {
    PutNew(m, "Content-Type", contentType);
    PutNew(Put(m, "Content-Type", contentType), "Content-Length", ToString(|body|));
  }

  lemma PutWithSession(m: Headers, k: string, v: string, sessionId: string)
    requires Sorted(m) && forall e :: e in m ==> |e.0| == 4
    requires k == "Transport" || k == "Range"
    ensures var s := WithSession(Put(m, k, v), sessionId);
            && Sorted(s)
            && Entries(s) == Entries(m) + {(k, v)} + if sessionId != "" then {("Session", sessionId)} else {}
  {
    assert |k| != 4 && k != "Session";
    PutNew(m, k, v);
    forall e | e in Put(m, k, v) ensures e.0 != "Session" {
      assert e in Entries(m) + {(k, v)};
    }
    WithSessionEntries(Put(m, k, v), sessionId);
  }

  lemma CSeqEntry(n: int)
    ensures var m := Put([], "CSeq", ToString(n));
            Sorted(m) && Entries(m) == {("CSeq", ToString(n))} && forall e :: e in m ==> |e.0| == 4
  {
    PutNew([], "CSeq", ToString(n));
    assert forall e :: e in Put([], "CSeq", ToString(n)) ==> e in Entries(Put([], "CSeq", ToString(n)));
  }

  /** The header map of each reply, as a set of fields. */
  lemma ReplyEntries(r: Reply, sessionId: string)
    ensures var m := ReplyHeaders(r, sessionId);
            Sorted(m) && Entries(m) == {("CSeq", ToString(r.cseq))} + OwnEntries(r) + SessionEntry(r, sessionId)
  {
    if NamesSession(r) {
      SessionReplyEntries(r, sessionId);
    } else {
      OtherReplyEntries(r, sessionId);
    }
  }

  lemma SessionReplyEntries(r: Reply, sessionId: string)
    requires NamesSession(r)
    ensures var m := ReplyHeaders(r, sessionId);
            Sorted(m) && Entries(m) == {("CSeq", ToString(r.cseq))} + OwnEntries(r) + SessionEntry(r, sessionId)
  {
    CSeqEntry(r.cseq);
    var m := Put([], "CSeq", ToString(r.cseq));
    match r
    case SetupTcpReply(_, rtp, rtcp) => PutWithSession(m, "Transport", TcpTransport(rtp, rtcp), sessionId);
    case SetupUdpReply(_, sRtp, sRtcp, cRtp, cRtcp) =>
      PutWithSession(m, "Transport", UdpTransport(cRtp, cRtcp, sRtp, sRtcp), sessionId);
    case PlayReply(_) => PutWithSession(m, "Range", PLAY_RANGE, sessionId);
    case SimpleReply(_) => assert |"Session"| == 7; WithSessionEntries(m, sessionId);
  }

  lemma OtherReplyEntries(r: Reply, sessionId: string)
    requires !NamesSession(r)
    ensures var m := ReplyHeaders(r, sessionId);
            Sorted(m) && Entries(m) == {("CSeq", ToString(r.cseq))} + OwnEntries(r)
  {
    CSeqEntry(r.cseq);
    var m := Put([], "CSeq", ToString(r.cseq));
    match r
    case OptionsReply(_) => assert |"Public"| == 6; PutNew(m, "Public", OPTIONS_METHODS);
    case DescribeReply(_, sdp) => WithContentEntries(m, CONTENT_TYPE_SDP, sdp);
    case ErrorReply(_, _, message) => WithContentEntries(m, CONTENT_TYPE_TEXT, message);
  }

  lemma TransportsAreClean(r: Reply)
    ensures r.SetupTcpReply? ==> '\n' !in TcpTransport(r.rtpChannel, r.rtcpChannel)
    ensures r.SetupUdpReply? ==> '\n' !in UdpTransport(r.clientRtp, r.clientRtcp, r.serverRtp, r.serverRtcp)
  {
    assert '\n' !in TCP_PREFIX && '\n' !in "interleaved=" && '\n' !in "-";
    assert '\n' !in UDP_PREFIX && '\n' !in "client_port=" && '\n' !in "server_port=" && '\n' !in ";";
  }

  lemma ReplyIsPlain(r: Reply, sessionId: string)
    requires '\n' !in sessionId
    ensures Sorted(ReplyHeaders(r, sessionId)) && Plain(ReplyHeaders(r, sessionId))
  {
    ReplyEntries(r, sessionId);
    var m := ReplyHeaders(r, sessionId);
    TransportsAreClean(r);
    ConstantsAreClean();
    forall e | e in m ensures e.0 in NAMES && '\n' !in e.1 {
      assert e in Entries(m);
    }
  }

  lemma ConstantsAreClean()
    ensures '\n' !in OPTIONS_METHODS && '\n' !in PLAY_RANGE
    ensures '\n' !in CONTENT_TYPE_SDP && '\n' !in CONTENT_TYPE_TEXT
  {
    assert '\n' !in "OPTIONS, DESCRIBE, SETUP, " && '\n' !in "PLAY, PAUSE, TEARDOWN, ";
    assert '\n' !in "GET_PARAMETER, SET_PARAMETER";
  }

  /** What a reader finds in the printed head of a reply, field by field. */
  ghost predicate Says(h: map<string, string>, r: Reply, sessionId: string) {
    && "cseq" in h && h["cseq"] == ToString(r.cseq)
    && ("session" in h <==> NamesSession(r) && sessionId != "")
    && ("session" in h ==> h["session"] == Trim(sessionId))
    && ("content-length" in h <==> HasBody(r))
    && ("content-length" in h ==> h["content-length"] == ToString(|r.Body()|))
    && ("range" in h <==> r.PlayReply?)
    && ("range" in h ==> h["range"] == PLAY_RANGE)
    && ("public" in h <==> r.OptionsReply?)
    && ("public" in h ==> h["public"] == OPTIONS_METHODS)
    && ("content-type" in h <==> HasBody(r))
    && (r.DescribeReply? ==> h["content-type"] == CONTENT_TYPE_SDP)
    && (r.ErrorReply? ==> h["content-type"] == CONTENT_TYPE_TEXT)
    && ("transport" in h <==> r.SetupTcpReply? || r.SetupUdpReply?)
    && (r.SetupTcpReply? ==> h["transport"] == TcpTransport(r.rtpChannel, r.rtcpChannel))
    && (r.SetupUdpReply? ==> h["transport"] == UdpTransport(r.clientRtp, r.clientRtcp, r.serverRtp, r.serverRtcp))
  }

  lemma FieldIsRead(r: Reply, sessionId: string, k: string, v: string)
    requires '\n' !in sessionId && k in NAMES
    ensures var m := ReplyHeaders(r, sessionId); var all := Entries(m);
            && ((k, v) in all ==> Lower(k) in ReadMap(m) && ReadMap(m)[Lower(k)] == Trim(v))
            && ((forall w :: (k, w) !in all) ==> Lower(k) !in ReadMap(m))
  {
    ReplyIsPlain(r, sessionId);
    var m := ReplyHeaders(r, sessionId);
    ReadByName(m, k);
    assert forall w :: (k, w) in m <==> (k, w) in Entries(m);
  }

  lemma TrimmedEnds(a: string, b: string)
    requires a != [] && !IsSpace(a[0]) && b != [] && Trimmed(b)
    ensures Trim(a + b) == a + b
  {
    TrimExactly(a + b);
  }

  lemma TransportsAreTrimmed(a: int, b: int, c: int, d: int)
    ensures Trim(TcpTransport(a, b)) == TcpTransport(a, b)
    ensures Trim(UdpTransport(a, b, c, d)) == UdpTransport(a, b, c, d)
  {
    var s: string := TCP_PREFIX + "interleaved=" + ToString(a) + "-";
    TrimmedEnds(s, ToString(b));
    var t: string := UDP_PREFIX + "client_port=" + ToString(a) + "-" + ToString(b);
    Regroup(t, ";", "server_port=", ToString(c), "-", ToString(d));
    TrimmedEnds(t + ";" + "server_port=" + ToString(c) + "-", ToString(d));
  }

  lemma NamesAreDistinct()
    ensures |"CSeq"| == 4 && |"Public"| == 6 && |"Range"| == 5 && |"Session"| == 7 && |"Transport"| == 9
    ensures |"Content-Type"| == 12 && |"Content-Length"| == 14
  {
  }

  lemma ReplySays(r: Reply, sessionId: string)
    requires '\n' !in sessionId
    ensures Says(ReadMap(ReplyHeaders(r, sessionId)), r, sessionId)
  {
    SaysCSeq(r, sessionId);
    SaysSession(r, sessionId);
    SaysLength(r, sessionId);
    SaysRange(r, sessionId);
    SaysPublic(r, sessionId);
    SaysType(r, sessionId);
    SaysTransport(r, sessionId);
  }

  lemma SaysCSeq(r: Reply, sessionId: string)
    requires '\n' !in sessionId
    ensures var h := ReadMap(ReplyHeaders(r, sessionId)); "cseq" in h && h["cseq"] == ToString(r.cseq)
  {
    ReplyEntries(r, sessionId);
    LowerNames();
    FieldIsRead(r, sessionId, "CSeq", ToString(r.cseq));
    TrimExactly(ToString(r.cseq));
  }

  lemma SaysSession(r: Reply, sessionId: string)
    requires '\n' !in sessionId
    ensures var h := ReadMap(ReplyHeaders(r, sessionId));
            && ("session" in h <==> NamesSession(r) && sessionId != "")
            && ("session" in h ==> h["session"] == Trim(sessionId))
  {
    ReplyEntries(r, sessionId);
    LowerNames();
    NamesAreDistinct();
    OwnEntriesNameNoSession(r);
    FieldIsRead(r, sessionId, "Session", sessionId);
  }

  lemma OwnEntriesNameNoSession(r: Reply)
    ensures forall w :: ("Session", w) !in OwnEntries(r)
  {
    NamesAreDistinct();
  }

  lemma SaysLength(r: Reply, sessionId: string)
    requires '\n' !in sessionId
    ensures var h := ReadMap(ReplyHeaders(r, sessionId));
            && ("content-length" in h <==> HasBody(r))
            && ("content-length" in h ==> h["content-length"] == ToString(|r.Body()|))
  {
    ReplyEntries(r, sessionId);
    LowerNames();
    NamesAreDistinct();
    forall w ensures ("Content-Length", w) in Entries(ReplyHeaders(r, sessionId)) ==> HasBody(r) {
      assert ("Content-Length", w) in OwnEntries(r) ==> HasBody(r);
    }
    if HasBody(r) {
      assert ("Content-Length", ToString(|r.Body()|)) in OwnEntries(r);
    }
    FieldIsRead(r, sessionId, "Content-Length", ToString(|r.Body()|));
    TrimExactly(ToString(|r.Body()|));
  }

  /** Who has which of the fields of their own. */
  lemma OwnNames(r: Reply)
    ensures forall w :: ("Public", w) in OwnEntries(r) ==> r.OptionsReply? && w == OPTIONS_METHODS
    ensures r.OptionsReply? ==> ("Public", OPTIONS_METHODS) in OwnEntries(r)
    ensures forall w :: ("Range", w) in OwnEntries(r) ==> r.PlayReply?
    ensures r.PlayReply? ==> ("Range", PLAY_RANGE) in OwnEntries(r)
    ensures forall w :: ("Content-Type", w) in OwnEntries(r) ==> HasBody(r)
    ensures r.DescribeReply? ==> ("Content-Type", CONTENT_TYPE_SDP) in OwnEntries(r)
    ensures r.ErrorReply? ==> ("Content-Type", CONTENT_TYPE_TEXT) in OwnEntries(r)
  {
    NamesAreDistinct();
  }

  lemma SaysRange(r: Reply, sessionId: string)
    requires '\n' !in sessionId
    ensures var h := ReadMap(ReplyHeaders(r, sessionId));
            ("range" in h <==> r.PlayReply?) && ("range" in h ==> h["range"] == PLAY_RANGE)
  {
    hide ReadMap, ReplyHeaders, Lower, Trim, OwnEntries, ToString;
    ReplyEntries(r, sessionId);
    LowerNames();
    NamesAreDistinct();
    OwnNames(r);
    FieldIsRead(r, sessionId, "Range", PLAY_RANGE);
    TypesAreTrimmed();
  }

  lemma SaysPublic(r: Reply, sessionId: string)
    requires '\n' !in sessionId
    ensures var h := ReadMap(ReplyHeaders(r, sessionId));
            ("public" in h <==> r.OptionsReply?) && ("public" in h ==> h["public"] == OPTIONS_METHODS)
  {
    hide ReadMap, ReplyHeaders, Lower, Trim, OwnEntries, ToString;
    ReplyEntries(r, sessionId);
    LowerNames();
    NamesAreDistinct();
    OwnNames(r);
    FieldIsRead(r, sessionId, "Public", OPTIONS_METHODS);
    MethodsAreTrimmed();
  }

  lemma MethodsAreTrimmed()
    ensures Trim(OPTIONS_METHODS) == OPTIONS_METHODS
  {
    hide Trim;
    assert OPTIONS_METHODS[0] == 'O' && OPTIONS_METHODS[|OPTIONS_METHODS| - 1] == 'R';
    TrimExactly(OPTIONS_METHODS);
  }

  lemma SaysType(r: Reply, sessionId: string)
    requires '\n' !in sessionId
    ensures var h := ReadMap(ReplyHeaders(r, sessionId));
            && ("content-type" in h <==> HasBody(r))
            && (r.DescribeReply? ==> h["content-type"] == CONTENT_TYPE_SDP)
            && (r.ErrorReply? ==> h["content-type"] == CONTENT_TYPE_TEXT)
  {
    hide ReadMap, ReplyHeaders, Lower, Trim, OwnEntries, ToString;
    var v := if r.DescribeReply? then CONTENT_TYPE_SDP else CONTENT_TYPE_TEXT;
    ReplyEntries(r, sessionId);
    LowerNames();
    NamesAreDistinct();
    OwnNames(r);
    FieldIsRead(r, sessionId, "Content-Type", v);
    TypesAreTrimmed();
  }

  lemma TypesAreTrimmed()
    ensures Trim(CONTENT_TYPE_SDP) == CONTENT_TYPE_SDP && Trim(CONTENT_TYPE_TEXT) == CONTENT_TYPE_TEXT
    ensures Trim(PLAY_RANGE) == PLAY_RANGE
  {
    hide Trim;
    TrimExactly(CONTENT_TYPE_SDP);
    TrimExactly(CONTENT_TYPE_TEXT);
    TrimExactly(PLAY_RANGE);
  }

  lemma SaysTransport(r: Reply, sessionId: string)
    requires '\n' !in sessionId
    ensures var h := ReadMap(ReplyHeaders(r, sessionId));
            && ("transport" in h <==> r.SetupTcpReply? || r.SetupUdpReply?)
            && (r.SetupTcpReply? ==> h["transport"] == TcpTransport(r.rtpChannel, r.rtcpChannel))
            && (r.SetupUdpReply? ==>
                  h["transport"] == UdpTransport(r.clientRtp, r.clientRtcp, r.serverRtp, r.serverRtcp))
  {
    ReplyEntries(r, sessionId);
    LowerNames();
    NamesAreDistinct();
    forall w
      ensures ("Transport", w) in Entries(ReplyHeaders(r, sessionId)) ==> r.SetupTcpReply? || r.SetupUdpReply?
    {
      assert ("Transport", w) in OwnEntries(r) ==> r.SetupTcpReply? || r.SetupUdpReply?;
    }
    match r
    case SetupTcpReply(_, rtp, rtcp) =>
      TransportsAreTrimmed(rtp, rtcp, 0, 0);
      FieldIsRead(r, sessionId, "Transport", TcpTransport(rtp, rtcp));
    case SetupUdpReply(_, sRtp, sRtcp, cRtp, cRtcp) =>
      TransportsAreTrimmed(cRtp, cRtcp, sRtp, sRtcp);
      FieldIsRead(r, sessionId, "Transport", UdpTransport(cRtp, cRtcp, sRtp, sRtcp));
    case _ => FieldIsRead(r, sessionId, "Transport", "");
  }

  lemma CSeqIsRead(n: int)
    requires IsInt(n)
    ensures P.ParseCSeq(ToString(n)) == n
  {
    var s := ToString(n);
    assert s[0..|s|] == s;
    StrtolReadsBack(s, 0, n);
  }

  /**
   Every reply, read back with `Parse`: it carries its CSeq, its body length and its transport, and the
   session id exactly if that id has no blanks at its ends.
   */
  lemma ReplyHeadIsRead(r: Reply, sessionId: string)
    requires '\n' !in sessionId && IsInt(r.cseq)
    ensures var p := P.ParseUnlimited(ReplyHead(r, sessionId));
            && p.Ok? && p.value.cseq == r.cseq
            && Says(p.value.headers, r, sessionId)
            && p.value.transport == TransportOf(p.value.headers)
    ensures NamesSession(r) && sessionId != "" ==>
              var h := P.ParseUnlimited(ReplyHead(r, sessionId)).value.headers;
              h["session"] == sessionId <==> Trimmed(sessionId)
  {
    ReplyIsPlain(r, sessionId);
    PlainIsClean(ReplyHeaders(r, sessionId));
    HeadIsRead(r.Code(), ReasonPhrase(r.Code()), ReplyHeaders(r, sessionId));
    ReplySays(r, sessionId);
    CSeqIsRead(r.cseq);
    TrimExactly(sessionId);
  }

  lemma HeadIsLong(r: Reply, sessionId: string)
    ensures |ReplyHead(r, sessionId)| > 0
  {
  }

  /** The parser inverts the SETUP replies: same CSeq, same transport, same channels or ports. */
  lemma ParseInvertsSetup(r: Reply, sessionId: string)
    requires r.SetupTcpReply? || r.SetupUdpReply?
    requires '\n' !in sessionId && IsInt(r.cseq) && |ReplyBytes(r, sessionId)| <= P.MAX_REQUEST
    requires r.SetupTcpReply? ==> IsInt(r.rtpChannel) && IsInt(r.rtcpChannel)
    requires r.SetupUdpReply? ==>
               IsInt(r.serverRtp) && IsInt(r.serverRtcp) && IsInt(r.clientRtp) && IsInt(r.clientRtcp)
    ensures var p := P.ParseMessage(ReplyBytes(r, sessionId));
            && p.Ok? && p.value.cseq == r.cseq
            && p.value.transport == TransportAsked(r)
            && (sessionId == "" ==> "session" !in p.value.headers)
            && (sessionId != "" ==> "session" in p.value.headers
                                    && (p.value.headers["session"] == sessionId <==> Trimmed(sessionId)))
  {
    hide P.ParseUnlimited, ReplyHead, P.ParseTransport, Trimmed, IsInt;
    assert ReplyBytes(r, sessionId) == ReplyHead(r, sessionId);
    HeadIsLong(r, sessionId);
    ReplyHeadIsRead(r, sessionId);
    TransportIsRead(r);
  }

  /** The constants that a client sees. */
  lemma Constants()
    ensures CONTENT_TYPE_SDP == "application/sdp" && CONTENT_TYPE_TEXT == "text/plain" && PLAY_RANGE == "npt=0.000-"
  {
  }

  /** The first line of each reply, for the codes the server sends. */
  lemma FirstLines(r: Reply, sessionId: string)
    ensures r.Code() == 200 ==> "RTSP/1.0 200 OK" + CRLF <= ReplyBytes(r, sessionId)
    ensures r.Code() == 405 ==> "RTSP/1.0 405 " + "Method Not Allowed" + CRLF <= ReplyBytes(r, sessionId)
    ensures r.Code() == 461 ==> "RTSP/1.0 461 Unknown" + CRLF <= ReplyBytes(r, sessionId)
    ensures r.Code() == 500 ==> "RTSP/1.0 500 " + "Internal Server Error" + CRLF <= ReplyBytes(r, sessionId)
  {
    hide ReplyBytes, StatusLine, ReasonPhrase;
    StartsWithLine(r, sessionId);
    Line200();
    Line405();
    Line461();
    Line500();
  }

  lemma StartsWithLine(r: Reply, sessionId: string)
    ensures StatusLine(r.Code(), ReasonPhrase(r.Code())) + CRLF <= ReplyBytes(r, sessionId)
  {
    hide ReplyHeaders, HeaderLines, StatusLine, ReasonPhrase;
    var line := StatusLine(r.Code(), ReasonPhrase(r.Code())) + CRLF;
    assert ReplyBytes(r, sessionId)[..|line|] == line;
  }

  lemma Line200()
    ensures StatusLine(200, ReasonPhrase(200)) == "RTSP/1.0 200 OK"
  {
    assert Digits(2) == "2" && Digits(20) == "20" && Digits(200) == "200";
  }

  lemma Line405()
    ensures StatusLine(405, ReasonPhrase(405)) == "RTSP/1.0 405 " + "Method Not Allowed"
  {
    hide ToString;
    Code405();
    LineIs(405, "405", "RTSP/1.0 405 ");
  }

  lemma Code405()
    ensures ToString(405) == "405"
  {
    assert Digits(4) == "4" && Digits(40) == "40" && Digits(405) == "405";
  }

  lemma LineIs(code: int, digits: string, start: string)
    requires ToString(code) == digits && start == RTSP_VERSION + " " + digits + " "
    ensures StatusLine(code, ReasonPhrase(code)) == start + ReasonPhrase(code)
  {
    hide ToString, ReasonPhrase;
  }

  lemma Line461()
    ensures StatusLine(461, ReasonPhrase(461)) == "RTSP/1.0 461 Unknown"
  {
    assert Digits(4) == "4" && Digits(46) == "46" && Digits(461) == "461";
  }

  lemma Line500()
    ensures StatusLine(500, ReasonPhrase(500)) == "RTSP/1.0 500 " + "Internal Server Error"
  {
    hide ToString;
    Code500();
    LineIs(500, "500", "RTSP/1.0 500 ");
  }

  lemma Code500()
    ensures ToString(500) == "500"
  {
    assert Digits(5) == "5" && Digits(50) == "50" && Digits(500) == "500";
  }

  /** A head as it is printed: status line, one line for each field, and a blank line. */
  lemma PrintedForm(code: int, reason: string, m: Headers)
    ensures Head(code, reason, m)
         == "RTSP/1.0" + " " + ToString(code) + " " + reason + "\r\n" + (HeaderLines(m) + "\r\n")
    ensures HeaderLines([]) == ""
    ensures m != [] ==> HeaderLines(m) == m[0].0 + ": " + m[0].1 + "\r\n" + HeaderLines(m[1..])
  {
  }

  /** The transport values of the two SETUP responses as they are printed. */
  lemma PrintedTransports(a: int, b: int, c: int, d: int)
    ensures TcpTransport(a, b) == "RTP/AVP/TCP;" + "interleaved=" + ToString(a) + "-" + ToString(b)
    ensures UdpTransport(a, b, c, d)
         == "RTP/AVP;unicast;" + "client_port=" + ToString(a) + "-" + ToString(b)
            + (";" + "server_port=" + ToString(c) + "-" + ToString(d))
  {
  }

  // ----- The methods that OPTIONS announces -----

  function Listed(ms: seq<P.Method>): string {
    if ms == [] then ""
    else if |ms| == 1 then P.MethodToString(ms[0])
    else P.MethodToString(ms[0]) + ", " + Listed(ms[1..])
  }

  const METHODS: seq<P.Method> :=
    [P.Options, P.Describe, P.Setup, P.Play, P.Pause, P.Teardown, P.GetParameter, P.SetParameter]

  /** The response to OPTIONS lists exactly the methods that the parser recognises, by name. */
  lemma PublicIsTheMethods(s: string)
    ensures OPTIONS_METHODS == Listed(METHODS)
    ensures P.ParseMethod(s) != P.Unknown <==> exists i :: 0 <= i < |METHODS| && P.MethodToString(METHODS[i]) == s
  {
    hide P.ParseMethod, P.MethodToString, Listed;
    AllListed();
    var m := P.ParseMethod(s);
    if m != P.Unknown {
      P.MethodNames(m, s);
      MethodIsListed(m);
    }
    if i :| 0 <= i < |METHODS| && P.MethodToString(METHODS[i]) == s {
      P.MethodNames(METHODS[i], s);
    }
  }

  lemma MethodIsListed(m: P.Method)
    requires m != P.Unknown
    ensures exists i :: 0 <= i < |METHODS| && METHODS[i] == m
  {
    assert METHODS[0] == P.Options && METHODS[1] == P.Describe && METHODS[2] == P.Setup && METHODS[3] == P.Play;
    assert METHODS[4] == P.Pause && METHODS[5] == P.Teardown;
    assert METHODS[6] == P.GetParameter && METHODS[7] == P.SetParameter;
  }

  lemma ListedMore(m: P.Method, ms: seq<P.Method>)
    requires ms != []
    ensures Listed([m] + ms) == P.MethodToString(m) + ", " + Listed(ms)
  {
    assert ([m] + ms)[1..] == ms;
  }

  lemma AllListed()
    ensures Listed(METHODS) == OPTIONS_METHODS
  {
    hide Listed;
    var last, middle := [P.GetParameter, P.SetParameter], [P.Play, P.Pause, P.Teardown];
    LastListed();
    MiddleListed(last);
    FirstListed(middle + last);
    assert METHODS == [P.Options, P.Describe, P.Setup] + (middle + last);
    var a, b: string := "OPTIONS, DESCRIBE, SETUP, ", "PLAY, PAUSE, TEARDOWN, ";
    assert a + (b + "GET_PARAMETER, SET_PARAMETER") == a + b + "GET_PARAMETER, SET_PARAMETER";
  }

  lemma LastListed()
    ensures Listed([P.GetParameter, P.SetParameter]) == "GET_PARAMETER, SET_PARAMETER"
  {
    assert [P.GetParameter, P.SetParameter] == [P.GetParameter] + [P.SetParameter];
    ListedMore(P.GetParameter, [P.SetParameter]);
    assert Listed([P.SetParameter]) == "SET_PARAMETER";
  }

  lemma MiddleListed(ms: seq<P.Method>)
    requires ms != []
    ensures Listed([P.Play, P.Pause, P.Teardown] + ms) == "PLAY, PAUSE, TEARDOWN, " + Listed(ms)
  {
    hide Listed;
    ListedMore(P.Teardown, ms);
    ListedMore(P.Pause, [P.Teardown] + ms);
    ListedMore(P.Play, [P.Pause] + ([P.Teardown] + ms));
    assert [P.Play, P.Pause, P.Teardown] + ms == [P.Play] + ([P.Pause] + ([P.Teardown] + ms));
  }

  lemma FirstListed(ms: seq<P.Method>)
    requires ms != []
    ensures Listed([P.Options, P.Describe, P.Setup] + ms) == "OPTIONS, DESCRIBE, SETUP, " + Listed(ms)
  {
    hide Listed;
    ListedMore(P.Setup, ms);
    ListedMore(P.Describe, [P.Setup] + ms);
    ListedMore(P.Options, [P.Describe] + ([P.Setup] + ms));
    assert [P.Options, P.Describe, P.Setup] + ms == [P.Options] + ([P.Describe] + ([P.Setup] + ms));
  }

  function TransportAsked(r: Reply): P.TransportInfo {
    match r
    case SetupTcpReply(_, rtp, rtcp) => P.TransportInfo(false, true, 0, 0, 0, 0, rtp, rtcp)
    case SetupUdpReply(_, sRtp, sRtcp, cRtp, cRtcp) => P.TransportInfo(true, false, cRtp, cRtcp, sRtp, sRtcp, 0, 0)
    case _ => P.NO_TRANSPORT
  }

  function TransportValue(r: Reply): string {
    match r
    case SetupTcpReply(_, rtp, rtcp) => TcpTransport(rtp, rtcp)
    case SetupUdpReply(_, sRtp, sRtcp, cRtp, cRtcp) => UdpTransport(cRtp, cRtcp, sRtp, sRtcp)
    case _ => ""
  }

  lemma TransportIsRead(r: Reply)
    requires r.SetupTcpReply? ==> IsInt(r.rtpChannel) && IsInt(r.rtcpChannel)
    requires r.SetupUdpReply? ==>
               IsInt(r.serverRtp) && IsInt(r.serverRtcp) && IsInt(r.clientRtp) && IsInt(r.clientRtcp)
    ensures r.SetupTcpReply? || r.SetupUdpReply? ==> P.ParseTransport(TransportValue(r)) == TransportAsked(r)
  {
    match r
    case SetupTcpReply(_, rtp, rtcp) => TcpTransportIsRead(rtp, rtcp);
    case SetupUdpReply(_, sRtp, sRtcp, cRtp, cRtcp) => UdpTransportIsRead(cRtp, cRtcp, sRtp, sRtcp);
    case _ =>
  }
}

/**
 What the parser makes of single numbers, refusals, bodies and odd lines: the branches that printed messages do not
 reach.
 */
module ParserLaws {
  import opened Bytes
  import opened Text
  import opened Builder
  import opened RoundTrips
  import opened ReplyLaws
  import P = Parser

  // ----- Transport values -----

  /** A single number behind the first occurrence of a key stands for itself and its successor. */
  lemma SingleIsRead(before: Bytes, key: Bytes, a: int, after: Bytes)
    requires key != [] && IsInt(a) && IsInt(a + 1)
    requires after == [] || (!IsDigit(after[0]) && after[0] != '-')
    requires forall j: nat :: j < |before| ==> !MatchAt(before + key + ToString(a) + after, key, j)
    ensures P.NumberPair(before + key + ToString(a) + after, key) == (a, a + 1)
  {
    hide Strtol, ToString;
    var s, t, x := before + key + ToString(a) + after, ToString(a), |before| + |key|;
    assert s[|before|..x] == key && s[x..x + |t|] == t;
    FindIs(s, key, |before|);
    if after != [] { assert s[x + |t|] == after[0]; }
    StrtolReadsBack(s, x, a);
  }

  /** A pair behind the first occurrence of a key stands for itself. */
  lemma PairIsReadAnywhere(before: Bytes, key: Bytes, a: int, b: int, after: Bytes)
    requires key != [] && IsInt(a) && IsInt(b)
    requires after == [] || !IsDigit(after[0])
    requires forall j: nat :: j < |before| ==>
               !MatchAt(before + key + ToString(a) + "-" + ToString(b) + after, key, j)
    ensures P.NumberPair(before + key + ToString(a) + "-" + ToString(b) + after, key) == (a, b)
  {
    hide Strtol, ToString, P.NumberPair;
    var ta, tb := ToString(a), ToString(b);
    var s := before + key + ta + "-" + tb + after;
    PairSlices(before, key, ta, tb, after);
    assert s[|before|..|before| + |key|] == key;
    FindIs(s, key, |before|);
    NumbersAt(s, |before| + |key|, a, b);
    PairFromParts(s, key, |before|, a, |before| + |key| + |ta|, b);
  }

  /** The three keys of a transport value, and its kind: TCP exactly if it is named anywhere, else UDP. */
  lemma TransportFields(s: string)
    ensures var t := P.ParseTransport(s);
            && (t.isTcp <==> exists i: nat :: MatchAt(s, "TCP", i))
            && t.isUdp == !t.isTcp
            && (t.clientRtpPort, t.clientRtcpPort) == P.NumberPair(s, "client_port=")
            && (t.serverRtpPort, t.serverRtcpPort) == P.NumberPair(s, "server_port=")
            && (t.interleavedRtp, t.interleavedRtcp) == P.NumberPair(s, "interleaved=")
  {
    var found := Find(s, "TCP");
  }

  /** Without a key there are no numbers. */
  lemma NoNumbers(s: string, key: Bytes)
    requires forall j: nat :: !MatchAt(s, key, j)
    ensures P.NumberPair(s, key) == (0, 0)
  {
  }

  /** A SETUP request as a client prints it. */
  function SetupRequest(url: string, n: int, transport: string): Bytes {
    RequestBytes(P.Setup, url, [("CSeq", ToString(n)), ("Transport", transport)])
  }

  lemma SetupHeadersAreClean(n: int, transport: string)
    requires '\n' !in transport && Trimmed(transport)
    ensures var h := [("CSeq", ToString(n)), ("Transport", transport)];
            && Clean(h)
            && ReadName(h[0].0) == "cseq" && Trim(h[0].1) == ToString(n)
            && ReadName(h[1].0) == "transport" && Trim(h[1].1) == transport
  {
    NamesAreRead("CSeq");
    NamesAreRead("Transport");
    NamesAreClean("CSeq");
    NamesAreClean("Transport");
    LowerNames();
    TrimExactly(ToString(n));
    TrimExactly(transport);
    assert |"cseq"| == 4 && |"transport"| == 9;
  }

  /** Its transport is read from the printed value, its CSeq from the printed number. */
  lemma SetupRequestIsRead(url: string, n: int, transport: string)
    requires IsWord(url) && IsInt(n) && '\n' !in transport && Trimmed(transport)
    requires |SetupRequest(url, n, transport)| <= 4096
    ensures var r := P.ParseMessage(SetupRequest(url, n, transport));
            && r.Ok? && r.value.method_ == P.Setup && r.value.url == url && r.value.cseq == n
            && r.value.transport == P.ParseTransport(transport)
  {
    hide P.ParseUnlimited, ReadMap, ReadName, P.ParseCSeq, P.ParseTransport, ToString;
    var h := [("CSeq", ToString(n)), ("Transport", transport)];
    SetupHeadersAreClean(n, transport);
    RequestIsRead(P.Setup, url, h);
    ReadMapLooksUp(h, 0);
    ReadMapLooksUp(h, 1);
    CSeqIsRead(n);
    RequestIsLong(P.Setup, url, h);
  }

  lemma RequestIsLong(m: P.Method, url: string, h: Headers)
    ensures |RequestBytes(m, url, h)| > 4
  {
  }

  /** A client that names one port is understood to mean it and the next, all the way through `Parse`. */
  lemma SingleClientPort(url: string, n: int, a: int, after: string)
    requires IsWord(url) && IsInt(n) && IsInt(a) && IsInt(a + 1)
    requires '\n' !in after && (after == "" || (after[0] == ';' && !IsSpace(after[|after| - 1])))
    requires |SetupRequest(url, n, "RTP/AVP;unicast;client_port=" + ToString(a) + after)| <= 4096
    ensures var r := P.ParseMessage(SetupRequest(url, n, "RTP/AVP;unicast;client_port=" + ToString(a) + after));
            r.Ok? && r.value.transport.clientRtpPort == a && r.value.transport.clientRtcpPort == a + 1
  {
    hide P.ParseMessage, SetupRequest, P.NumberPair, P.ParseTransport, ToString, MatchAt;
    var before, key: Bytes := "RTP/AVP;unicast;", "client_port=";
    var v := before + key + ToString(a) + after;
    assert before + key == "RTP/AVP;unicast;client_port=";
    SingleEnds(before + key, a, after);
    SetupRequestIsRead(url, n, v);
    KeyIsFirst(before, key, ToString(a) + after);
    assert v == before + key + (ToString(a) + after);
    SingleIsRead(before, key, a, after);
    TransportFields(v);
  }

  /** The same for server ports and for the channels of an interleaved transport. */
  lemma SingleChannel(url: string, n: int, a: int)
    requires IsWord(url) && IsInt(n) && IsInt(a) && IsInt(a + 1)
    requires |SetupRequest(url, n, "RTP/AVP/TCP;interleaved=" + ToString(a))| <= 4096
    ensures var r := P.ParseMessage(SetupRequest(url, n, "RTP/AVP/TCP;interleaved=" + ToString(a)));
            && r.Ok? && r.value.transport.isTcp
            && r.value.transport.interleavedRtp == a && r.value.transport.interleavedRtcp == a + 1
  {
    hide P.ParseMessage, SetupRequest, P.NumberPair, P.ParseTransport, ToString, MatchAt;
    var before, key: Bytes := "RTP/AVP/TCP;", "interleaved=";
    var v := before + key + ToString(a) + "";
    assert before + key == "RTP/AVP/TCP;interleaved=" && v == "RTP/AVP/TCP;interleaved=" + ToString(a);
    SingleEnds(before + key, a, "");
    SetupRequestIsRead(url, n, v);
    KeyIsFirst(before, key, ToString(a) + "");
    assert v == before + key + (ToString(a) + "");
    SingleIsRead(before, key, a, "");
    TransportFields(v);
    assert MatchAt(v, "TCP", 8) by { TcpAtEight(ToString(a)); }
  }

  lemma TcpAtEight(rest: string)
    ensures MatchAt("RTP/AVP/TCP;interleaved=" + rest, "TCP", 8)
  {
  }

  lemma SingleServerPort(url: string, n: int, a: int)
    requires IsWord(url) && IsInt(n) && IsInt(a) && IsInt(a + 1)
    requires |SetupRequest(url, n, "RTP/AVP;server_port=" + ToString(a))| <= 4096
    ensures var r := P.ParseMessage(SetupRequest(url, n, "RTP/AVP;server_port=" + ToString(a)));
            r.Ok? && r.value.transport.serverRtpPort == a && r.value.transport.serverRtcpPort == a + 1
  {
    hide P.ParseMessage, SetupRequest, P.NumberPair, P.ParseTransport, ToString, MatchAt;
    var before, key: Bytes := "RTP/AVP;", "server_port=";
    var v := before + key + ToString(a) + "";
    assert before + key == "RTP/AVP;server_port=" && v == "RTP/AVP;server_port=" + ToString(a);
    SingleEnds(before + key, a, "");
    SetupRequestIsRead(url, n, v);
    KeyIsFirst(before, key, ToString(a) + "");
    assert v == before + key + (ToString(a) + "");
    SingleIsRead(before, key, a, "");
    TransportFields(v);
  }

  lemma SingleEnds(start: string, a: int, after: string)
    requires start != "" && !IsSpace(start[0]) && '\n' !in start
    requires '\n' !in after && (after == "" || !IsSpace(after[|after| - 1]))
    ensures var v := start + ToString(a) + after; '\n' !in v && Trimmed(v)
  {
    hide ToString;
    var v, t := start + ToString(a) + after, ToString(a);
    assert v[0] == start[0];
    assert v[|v| - 1] == if after == "" then t[|t| - 1] else after[|after| - 1];
  }

  /** A key that starts with a small letter, behind text in which that letter does not start it. */
  lemma KeyIsFirst(before: Bytes, key: Bytes, rest: Bytes)
    requires key != [] && key[|key| - 1] == '=' && '=' !in before && '=' !in key[..|key| - 1]
    ensures forall j: nat :: j < |before| ==> !MatchAt(before + key + rest, key, j)
  {
    KeyIsFound(before, key, rest, |key| - 1);
  }

  // ----- Trimming, sequence numbers, odd lines -----

  /** What is left of a value is what stands between its blanks. */
  lemma {:induction false} TrimIs(a: string, t: string, b: string)
    requires (forall i :: 0 <= i < |a| ==> IsSpace(a[i])) && (forall i :: 0 <= i < |b| ==> IsSpace(b[i])) && Trimmed(t)
    ensures Trim(a + t + b) == t
  {
    if a != "" {
      assert (a + t + b)[0] == a[0] && (a + t + b)[1..] == a[1..] + t + b;
      TrimIs(a[1..], t, b);
    } else {
      assert a + t + b == t + b;
      if t != "" {
        assert (t + b)[0] == t[0];
        TrimsRight(t, b);
      } else {
        AllBlank(b);
      }
    }
  }

  lemma {:induction false} TrimsRight(t: string, b: string)
    requires (forall i :: 0 <= i < |b| ==> IsSpace(b[i])) && t != "" && Trimmed(t)
    ensures TrimRight(t + b) == t
  {
    if b != "" {
      assert (t + b)[|t + b| - 1] == b[|b| - 1] && (t + b)[..|t + b| - 1] == t + b[..|b| - 1];
      TrimsRight(t, b[..|b| - 1]);
    } else {
      assert t + b == t;
    }
  }

  lemma {:induction false} AllBlank(b: string)
    requires forall i :: 0 <= i < |b| ==> IsSpace(b[i])
    ensures TrimLeft("" + "" + b) == "" && Trim("" + "" + b) == ""
  {
    assert "" + "" + b == b;
    if b != "" {
      AllBlank(b[1..]);
      assert "" + "" + b[1..] == b[1..];
    }
  }

  /** A CSeq must be a number and nothing else; otherwise it counts as 0. */
  lemma CSeqIsStrict(n: int, rest: string)
    requires IsInt(n)
    ensures P.ParseCSeq(ToString(n)) == n && P.ParseCSeq("") == 0
    ensures rest != "" && !IsDigit(rest[0]) && rest[0] != '\0' ==> P.ParseCSeq(ToString(n) + rest) == 0
  {
    CSeqIsRead(n);
    if rest != "" && !IsDigit(rest[0]) && rest[0] != '\0' {
      var s, t := ToString(n) + rest, ToString(n);
      assert s[0..|t|] == t && s[|t|] == rest[0];
      StrtolReadsBack(s, 0, n);
    }
  }

  /** A header line without a colon is ignored. */
  lemma NoColonIsIgnored(line: string, request: P.Request)
    requires ':' !in line
    ensures P.ParseHeaderLine(line, request) == request
  {
    forall j: nat ensures !MatchAt(line, ":", j) {
      CharMatch(line, ':', j);
    }
  }

  /** Blanks are the six of the C locale. */
  lemma Blanks(c: char)
    ensures IsSpace(c) <==> c in {' ', '\t', '\n', 11 as char, 12 as char, '\r'}
  {
  }

  /** A line may end with a line feed alone. */
  lemma LineFeedEndsLine(line: string, rest: Bytes)
    requires '\n' !in line && (line == "" || line[|line| - 1] != '\r')
    ensures Find(line + "\n" + rest, "\n") == Some(|line|)
    ensures P.LineUpTo(line + "\n" + rest, |line|) == line
  {
    var s := line + "\n" + rest;
    forall j: nat | j < |line| ensures !MatchAt(s, "\n", j) {
      CharMatch(s, '\n', j);
      assert s[j] == line[j];
    }
    CharMatch(s, '\n', |line|);
    FindIs(s, "\n", |line|);
  }

  /** Of two header lines with the same name the later one counts, for the fields that are read from it too. */
  lemma LastHeaderWins(request: P.Request, key: string, v: string, w: string)
    ensures var r := P.SetHeader(P.SetHeader(request, key, v), key, w);
            && r.headers == request.headers[key := w]
            && (key == "cseq" ==> r.cseq == P.ParseCSeq(w))
            && (key == "transport" ==> r.transport == P.ParseTransport(w))
  {
  }

  // ----- Bodies -----

  function BodyLines(lines: seq<string>): Bytes {
    if lines == [] then "" else lines[0] + CRLF + BodyLines(lines[1..])
  }

  function BodyText(lines: seq<string>): string {
    if lines == [] then "" else lines[0] + "\n" + BodyText(lines[1..])
  }

  /** Behind the blank line every terminated line belongs to the body, ended by a line feed alone. */
  lemma {:induction false} BodyIsRead(lines: seq<string>, request: P.Request)
    requires forall l :: l in lines ==> '\n' !in l
    ensures P.ParseLines(BodyLines(lines), P.Progress(true, true, request))
         == P.Ok(P.Progress(true, true, request.(body := request.body + BodyText(lines))))
  {
    if lines == [] {
      assert request.body + BodyText(lines) == request.body;
      forall j: nat ensures !MatchAt("", "\n", j) {}
      assert Find("", "\n") == None;
    } else {
      ParseLinesStep(lines[0], BodyLines(lines[1..]), P.Progress(true, true, request));
      var r := request.(body := request.body + lines[0] + "\n");
      BodyIsRead(lines[1..], r);
      assert r.body + BodyText(lines[1..]) == request.body + BodyText(lines);
    }
  }

  // ----- Refusals -----

  /** The first line of a message, if it has one that ends. */
  function OpeningLine(data: Bytes): Option<string> {
    match Find(data, "\n")
    case None => None
    case Some(newline) => Some(P.LineUpTo(data, newline))
  }

  predicate Blank(line: string) {
    forall i :: 0 <= i < |line| ==> IsSpace(line[i])
  }

  lemma {:induction false} BlanksEnd(s: string, i: nat)
    requires i <= |s|
    ensures SpacesEnd(s, i) == |s| <==> forall j :: i <= j < |s| ==> IsSpace(s[j])
    ensures SpacesEnd(s, i) < |s| ==> !IsSpace(s[SpacesEnd(s, i)])
    decreases |s| - i
  {
    if i < |s| && IsSpace(s[i]) {
      BlanksEnd(s, i + 1);
    }
  }

  lemma NoWordExactly(line: string)
    ensures P.NextWord(line).0 == "" <==> Blank(line)
  {
    BlanksEnd(line, 0);
  }

  /** Once the request line is parsed, or a blank line has come first, nothing is refused. */
  lemma {:induction false} NothingRefused(data: Bytes, p: P.Progress)
    requires p.lineParsed || p.inBody
    ensures P.ParseLines(data, p).Ok? && P.ParseLines(data, p).value.lineParsed == p.lineParsed
    decreases |data|
  {
    hide P.ParseHeaderLine, P.LineUpTo;
    match Find(data, "\n")
    case None =>
    case Some(newline) => NothingRefused(data[newline + 1..], P.ParseLine(P.LineUpTo(data, newline), p).value);
  }

  /** Exactly which messages `Parse` refuses, and with which error. */
  lemma ParseRefusesExactly(data: Bytes)
    ensures var r := P.ParseMessage(data); var first := OpeningLine(data);
            if data == [] then r == P.Err(P.EmptyData)
            else if |data| > 4096 then r == P.Err(P.RequestTooLarge)
            else if first == None || first == Some("") then r == P.Err(P.MissingRequestLine)
            else if Blank(first.value) then r == P.Err(P.MissingMethod)
            else r.Ok?
  {
    hide P.LineUpTo, P.NextWord, P.ParseMethod;
    match Find(data, "\n")
    case None =>
    case Some(newline) =>
      var line := P.LineUpTo(data, newline);
      NoWordExactly(line);
      if line == "" {
        NothingRefused(data[newline + 1..], P.START.(inBody := true));
      } else if !Blank(line) {
        NothingRefused(data[newline + 1..], P.ParseLine(line, P.START).value);
      }
  }
}

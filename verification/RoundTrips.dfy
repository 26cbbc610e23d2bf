/**
 The parser reads back what the builder prints.
 */
module RoundTrips {
  import opened Bytes
  import opened Text
  import opened Builder
  import P = Parser

  // ----- One line -----

  lemma LineIsRead(line: string, rest: Bytes)
    requires '\n' !in line
    ensures var s := line + CRLF + rest;
            && Find(s, "\n") == Some(|line| + 1)
            && P.LineUpTo(s, |line| + 1) == line
            && s[|line| + 2..] == rest
  {
    var s := line + CRLF + rest;
    forall j: nat | j < |line| + 1 ensures !MatchAt(s, "\n", j) {
      CharMatch(s, '\n', j);
      if j < |line| { assert s[j] == line[j]; }
    }
    CharMatch(s, '\n', |line| + 1);
    FindIs(s, "\n", |line| + 1);
  }

  function Continue(r: P.Result<P.Progress>, rest: Bytes): P.Result<P.Progress> {
    match r
    case Err(e) => P.Err(e)
    case Ok(q) => P.ParseLines(rest, q)
  }

  lemma ParseLinesStep(line: string, rest: Bytes, p: P.Progress)
    requires '\n' !in line
    ensures P.ParseLines(line + CRLF + rest, p)
         == Continue(P.ParseLine(line, p), rest)
  {
    LineIsRead(line, rest);
  }

  // ----- Header lines -----

  /** A field name as the reader sees it: blanks around it are dropped and its case does not matter. */
  function ReadName(k: string): string {
    Lower(Trim(k))
  }

  /** What a header map means to a reader. */
  function ReadMap(m: Headers): map<string, string> {
    if m == [] then map[] else ReadMap(m[1..])[ReadName(m[0].0) := Trim(m[0].1)]
  }

  predicate CleanEntry(e: (string, string)) {
    ':' !in e.0 && '\n' !in e.0 && '\n' !in e.1
  }

  /** Entries that can each stand on a line of their own, under names a reader can tell apart. */
  predicate Clean(m: Headers) {
    && (forall i :: 0 <= i < |m| ==> CleanEntry(m[i]))
    && (forall i, j :: 0 <= i < j < |m| ==> ReadName(m[i].0) != ReadName(m[j].0))
  }

  function SetAll(m: Headers, request: P.Request): P.Request {
    if m == [] then request else SetAll(m[1..], P.SetHeader(request, ReadName(m[0].0), Trim(m[0].1)))
  }

  lemma HeaderLineIsRead(e: (string, string), request: P.Request)
    requires CleanEntry(e)
    ensures '\n' !in HeaderLine(e) && HeaderLine(e) != ""
    ensures P.ParseHeaderLine(HeaderLine(e), request) == P.SetHeader(request, ReadName(e.0), Trim(e.1))
  {
    var line := HeaderLine(e);
    forall j: nat | j < |e.0| ensures !MatchAt(line, ":", j) {
      CharMatch(line, ':', j);
      assert line[j] == e.0[j];
    }
    CharMatch(line, ':', |e.0|);
    FindIs(line, ":", |e.0|);
    assert line[..|e.0|] == e.0 && line[|e.0| + 1..] == " " + e.1;
    assert (" " + e.1)[1..] == e.1;
  }

  lemma {:induction false} HeaderLinesAreRead(m: Headers, rest: Bytes, request: P.Request)
    requires Clean(m)
    ensures P.ParseLines(HeaderLines(m) + rest, P.Progress(false, true, request))
         == P.ParseLines(rest, P.Progress(false, true, SetAll(m, request)))
  {
    if m == [] {
      assert HeaderLines(m) + rest == rest;
    } else {
      var line, tail := HeaderLine(m[0]), HeaderLines(m[1..]);
      HeaderLineIsRead(m[0], request);
      assert HeaderLines(m) + rest == line + CRLF + (tail + rest);
      ParseLinesStep(line, tail + rest, P.Progress(false, true, request));
      HeaderLinesAreRead(m[1..], rest, P.SetHeader(request, ReadName(m[0].0), Trim(m[0].1)));
    }
  }

  function CSeqOf(h: map<string, string>): int {
    if "cseq" in h then P.ParseCSeq(h["cseq"]) else 0
  }

  function TransportOf(h: map<string, string>): P.TransportInfo {
    if "transport" in h then P.ParseTransport(h["transport"]) else P.NO_TRANSPORT
  }

  /** The request's `cseq` and `transport` are what its header map says. */
  predicate Consistent(r: P.Request) {
    r.cseq == CSeqOf(r.headers) && r.transport == TransportOf(r.headers)
  }

  lemma SetHeaderMeans(request: P.Request, key: string, value: string)
    requires Consistent(request)
    ensures var r := P.SetHeader(request, key, value);
            && Consistent(r) && r.headers == request.headers[key := value]
            && r == request.(headers := r.headers, cseq := r.cseq, transport := r.transport)
  {
  }

  /** After clean entries the request holds all of them, and `cseq` and `transport` are read from them. */
  lemma {:induction false} SetAllMeans(m: Headers, request: P.Request)
    requires Clean(m) && Consistent(request)
    ensures var r := SetAll(m, request);
            && Consistent(r) && r.headers == request.headers + ReadMap(m)
            && r == request.(headers := r.headers, cseq := r.cseq, transport := r.transport)
  {
    if m == [] {
      assert request.headers + ReadMap(m) == request.headers;
    } else {
      var key, value := ReadName(m[0].0), Trim(m[0].1);
      var r := P.SetHeader(request, key, value);
      SetHeaderMeans(request, key, value);
      SetAllMeans(m[1..], r);
      ReadMapKeys(m[1..]);
      MergeShift(request.headers, key, value, ReadMap(m[1..]));
    }
  }

  lemma MergeShift(a: map<string, string>, k: string, v: string, b: map<string, string>)
    requires k !in b
    ensures a[k := v] + b == a + b[k := v]
  {
  }

  lemma {:induction false} ReadMapKeys(m: Headers)
    ensures forall k :: k in ReadMap(m) <==> exists i :: 0 <= i < |m| && ReadName(m[i].0) == k
  {
    if m != [] {
      ReadMapKeys(m[1..]);
      assert forall i :: 0 <= i < |m[1..]| ==> m[1..][i] == m[i + 1];
      assert forall i :: 1 <= i < |m| ==> m[i] == m[1..][i - 1];
    }
  }

  // ----- Whole heads -----

  lemma {:induction false} WordEndIs(s: string, i: nat, e: nat)
    requires i <= e <= |s| && (e < |s| ==> IsSpace(s[e])) && forall j :: i <= j < e ==> !IsSpace(s[j])
    ensures P.WordEnd(s, i) == e
    decreases e - i
  {
    if i < e {
      WordEndIs(s, i + 1, e);
    }
  }

  lemma VersionIsNoMethod()
    ensures P.ParseMethod(RTSP_VERSION) == P.Unknown && forall j :: 0 <= j < 8 ==> !IsSpace(RTSP_VERSION[j])
  {
    assert RTSP_VERSION[0] == 'R' && RTSP_VERSION[1] == 'T' && RTSP_VERSION[2] == 'S' && RTSP_VERSION[3] == 'P';
    assert RTSP_VERSION[4] == '/' && RTSP_VERSION[5] == '1' && RTSP_VERSION[6] == '.' && RTSP_VERSION[7] == '0';
  }

  /** A status line is taken for a request line with an unknown method. */
  lemma StatusLineIsRead(code: int, reason: string) returns (request: P.Request)
    ensures P.ParseRequestLine(StatusLine(code, reason), P.EMPTY_REQUEST) == P.Ok(request)
    ensures request == P.EMPTY_REQUEST.(url := request.url, version := request.version)
  {
    var line := StatusLine(code, reason);
    assert line == RTSP_VERSION + " " + (ToString(code) + " " + reason);
    VersionIsNoMethod();
    NextWordIs("", RTSP_VERSION, " " + (ToString(code) + " " + reason));
    assert line == "" + RTSP_VERSION + (" " + (ToString(code) + " " + reason));
    request := P.ParseRequestLine(line, P.EMPTY_REQUEST).value;
  }

  /** A request as a client prints it. */
  function RequestBytes(m: P.Method, url: string, h: Headers): Bytes {
    RequestLine(m, url) + CRLF + (HeaderLines(h) + CRLF)
  }

  function RequestLine(m: P.Method, url: string): string {
    P.MethodToString(m) + " " + url + " " + RTSP_VERSION
  }

  predicate IsWord(w: string) {
    w != "" && forall i :: 0 <= i < |w| ==> !IsSpace(w[i])
  }

  /** The word between blanks, or behind a blank at the end. */
  lemma NextWordIs(before: string, w: string, rest: string)
    requires before == "" || before == " "
    requires IsWord(w) && (rest == "" || IsSpace(rest[0]))
    ensures P.NextWord(before + w + rest) == (w, rest)
  {
    var line, b, e := before + w + rest, |before|, |before| + |w|;
    assert forall j :: b <= j < e ==> line[j] == w[j - b];
    assert SpacesEnd(line, 0) == b;
    WordEndIs(line, b, e);
    assert line[b..e] == w && line[e..] == rest;
  }

  lemma MethodIsWord(m: P.Method)
    ensures IsWord(P.MethodToString(m)) && '\n' !in P.MethodToString(m)
  {
    var s := P.MethodToString(m);
    assert forall i :: 0 <= i < |s| ==> s[i] == '_' || 'A' <= s[i] <= 'Z';
  }

  lemma RequestLineIsRead(m: P.Method, url: string, request: P.Request)
    requires m != P.Unknown && IsWord(url)
    ensures P.ParseRequestLine(RequestLine(m, url), request)
         == P.Ok(request.(method_ := m, url := url, version := RTSP_VERSION))
  {
    hide P.NextWord, P.ParseMethod, P.MethodToString;
    var w := P.MethodToString(m);
    MethodIsWord(m);
    VersionIsNoMethod();
    NextWordIs("", w, " " + url + " " + RTSP_VERSION);
    NextWordIs(" ", url, " " + RTSP_VERSION);
    NextWordIs(" ", RTSP_VERSION, "");
    assert RequestLine(m, url) == "" + w + (" " + url + " " + RTSP_VERSION);
    assert " " + url + " " + RTSP_VERSION == " " + url + (" " + RTSP_VERSION);
    assert " " + RTSP_VERSION == " " + RTSP_VERSION + "";
    P.MethodNames(m, w);
  }

  /** Requests round-trip: method, URL, version and exactly the printed headers come back, in any number. */
  lemma RequestIsRead(m: P.Method, url: string, h: Headers)
    requires m != P.Unknown && IsWord(url) && Clean(h)
    ensures var r := P.ParseUnlimited(RequestBytes(m, url, h));
            && r.Ok? && r.value.method_ == m && r.value.url == url && r.value.version == RTSP_VERSION
            && r.value.headers == ReadMap(h) && Consistent(r.value) && r.value.body == ""
  {
    var line := RequestLine(m, url);
    MethodIsWord(m);
    VersionIsNoMethod();
    assert '\n' !in line && line != "";
    RequestLineIsRead(m, url, P.EMPTY_REQUEST);
    var request := P.EMPTY_REQUEST.(method_ := m, url := url, version := RTSP_VERSION);
    ParseLinesStep(line, HeaderLines(h) + CRLF, P.START);
    HeadersEnd(h, request);
    SetAllMeans(h, request);
    assert request.headers + ReadMap(h) == ReadMap(h);
  }

  lemma HeadersEnd(m: Headers, request: P.Request)
    requires Clean(m)
    ensures P.ParseLines(HeaderLines(m) + CRLF, P.Progress(false, true, request))
         == P.Ok(P.Progress(true, true, SetAll(m, request)))
  {
    HeaderLinesAreRead(m, CRLF, request);
    assert CRLF == "" + CRLF + "";
    ParseLinesStep("", "", P.Progress(false, true, SetAll(m, request)));
    assert P.ParseLines("", P.Progress(true, true, SetAll(m, request))).Ok?;
  }

  lemma StatusLineIsClean(code: int, reason: string)
    requires '\n' !in reason
    ensures '\n' !in StatusLine(code, reason) && StatusLine(code, reason) != ""
  {
    assert '\n' !in RTSP_VERSION;
  }

  /**
   Header-block round trip: whatever the status line and for any clean headers, parsing the printed head
   yields exactly those headers as a reader sees them, and an unknown method.
   */
  lemma HeadIsRead(code: int, reason: string, m: Headers)
    requires '\n' !in reason && Clean(m)
    ensures var r := P.ParseUnlimited(Head(code, reason, m));
            && r.Ok? && r.value.headers == ReadMap(m) && Consistent(r.value)
            && r.value.method_ == P.Unknown && r.value.body == ""
  {
    var status := StatusLine(code, reason);
    StatusLineIsClean(code, reason);
    var request := StatusLineIsRead(code, reason);
    ParseLinesStep(status, HeaderLines(m) + CRLF, P.START);
    HeadersEnd(m, request);
    SetAllMeans(m, request);
    assert request.headers + ReadMap(m) == ReadMap(m);
  }

  /** Field `i` comes back under its lower-cased name, with its own value exactly if that value is trimmed. */
  lemma {:induction false} ReadMapLooksUp(m: Headers, i: nat)
    requires Clean(m) && i < |m|
    ensures ReadName(m[i].0) in ReadMap(m) && ReadMap(m)[ReadName(m[i].0)] == Trim(m[i].1)
    ensures Trimmed(m[i].0) ==> ReadName(m[i].0) == Lower(m[i].0)
    ensures ReadMap(m)[ReadName(m[i].0)] == m[i].1 <==> Trimmed(m[i].1)
  {
    TrimExactly(m[i].0);
    TrimExactly(m[i].1);
    if i > 0 {
      ReadMapLooksUp(m[1..], i - 1);
    }
  }

  /** The whole statement through `Parse` itself, which refuses nothing but messages of more than 4096 bytes. */
  lemma ParseInvertsBuildResponse(code: int, reason: string, m: Headers)
    requires '\n' !in reason && Clean(m)
    ensures P.ParseMessage(Head(code, reason, m)).Ok? <==> |Head(code, reason, m)| <= P.MAX_REQUEST
    ensures var r := P.ParseMessage(Head(code, reason, m));
            r.Ok? ==> (forall i :: 0 <= i < |m| ==> ReadName(m[i].0) in r.value.headers
                                                    && r.value.headers[ReadName(m[i].0)] == Trim(m[i].1))
                      && |r.value.headers| == |m|
  {
    HeadIsRead(code, reason, m);
    forall i | 0 <= i < |m|
      ensures ReadName(m[i].0) in ReadMap(m) && ReadMap(m)[ReadName(m[i].0)] == Trim(m[i].1)
    {
      ReadMapLooksUp(m, i);
    }
    ReadMapSize(m);
  }

  lemma {:induction false} ReadMapSize(m: Headers)
    requires Clean(m)
    ensures |ReadMap(m)| == |m|
  {
    if m != [] {
      ReadMapSize(m[1..]);
      ReadMapKeys(m[1..]);
    }
  }
}

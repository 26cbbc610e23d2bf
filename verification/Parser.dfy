/**
 The request parser: src/protocol/rtsp_parser.cc.
 */
module Parser {
  import opened Bytes
  import opened Text

  const MAX_REQUEST: nat := 4096

  datatype Method =
    | Unknown | Options | Describe | Setup | Play | Pause | Teardown | GetParameter | SetParameter

  datatype TransportInfo = TransportInfo(
    isUdp: bool, isTcp: bool,
    clientRtpPort: int, clientRtcpPort: int,
    serverRtpPort: int, serverRtcpPort: int,
    interleavedRtp: int, interleavedRtcp: int)

  const NO_TRANSPORT := TransportInfo(false, false, 0, 0, 0, 0, 0, 0)

  datatype Request = Request(
    method_: Method, url: string, version: string, cseq: int,
    headers: map<string, string>, body: string, transport: TransportInfo)

  const EMPTY_REQUEST := Request(Unknown, "", "", 0, map[], "", NO_TRANSPORT)

  datatype ParseError = EmptyData | RequestTooLarge | MissingMethod | MissingRequestLine

  datatype Result<+T> = Ok(value: T) | Err(error: ParseError)

  // ----- Methods -----

  function ParseMethod(s: string): Method {
    if s == "OPTIONS" then Options
    else if s == "DESCRIBE" then Describe
    else if s == "SETUP" then Setup
    else if s == "PLAY" then Play
    else if s == "PAUSE" then Pause
    else if s == "TEARDOWN" then Teardown
    else if s == "GET_PARAMETER" then GetParameter
    else if s == "SET_PARAMETER" then SetParameter
    else Unknown
  }

  function MethodToString(m: Method): string {
    match m
    case Options => "OPTIONS"
    case Describe => "DESCRIBE"
    case Setup => "SETUP"
    case Play => "PLAY"
    case Pause => "PAUSE"
    case Teardown => "TEARDOWN"
    case GetParameter => "GET_PARAMETER"
    case SetParameter => "SET_PARAMETER"
    case Unknown => "UNKNOWN"
  }

  // ----- Request line -----

  /** One `ss >> word`: the next run of non-blank characters, and what follows it. */
  function NextWord(s: string): (r: (string, string))
    ensures |r.1| <= |s|
  {
    var i := SpacesEnd(s, 0);
    var e := WordEnd(s, i);
    (s[i..e], s[e..])
  }

  function WordEnd(s: string, i: nat): (e: nat)
    requires i <= |s|
    ensures i <= e <= |s|
    decreases |s| - i
  {
    if i < |s| && !IsSpace(s[i]) then WordEnd(s, i + 1) else i
  }

  function ParseRequestLine(line: string, request: Request): Result<Request> {
    var (word, rest) := NextWord(line);
    var (url, rest') := NextWord(rest);
    var (version, _) := NextWord(rest');
    if word == "" then Err(MissingMethod)
    else Ok(request.(method_ := ParseMethod(word), url := url, version := version))
  }

  // ----- Transport header -----

  /** The two numbers after `key`: "a-b", or "a" alone, which stands for "a-(a+1)". */
  function NumberPair(s: string, key: string): (int, int) {
    match Find(s, key)
    case None => (0, 0)
    case Some(at) =>
      var (first, e) := Strtol(s, at + |key|);
      if CharAt(s, e) == '-' then (ToInt(first), ToInt(Strtol(s, e + 1).0))
      else (ToInt(first), ToInt(first) + 1)
  }

  function ParseTransport(s: string): TransportInfo {
    var isTcp := Find(s, "TCP").Some?;
    var client := NumberPair(s, "client_port=");
    var server := NumberPair(s, "server_port=");
    var interleaved := NumberPair(s, "interleaved=");
    TransportInfo(!isTcp, isTcp, client.0, client.1, server.0, server.1, interleaved.0, interleaved.1)
  }

  // ----- Header lines -----

  function ParseCSeq(value: string): int {
    var (v, e) := Strtol(value, 0);
    if e != 0 && CharAt(value, e) == '\0' then ToInt(v) else 0
  }

  function SetHeader(request: Request, key: string, value: string): Request {
    var r := if key == "cseq" then request.(cseq := ParseCSeq(value))
             else if key == "transport" then request.(transport := ParseTransport(value))
             else request;
    r.(headers := r.headers[key := value])
  }

  function ParseHeaderLine(line: string, request: Request): Request {
    match Find(line, ":")
    case None => request
    case Some(colon) => SetHeader(request, Lower(Trim(line[..colon])), Trim(line[colon + 1..]))
  }

  // ----- Whole messages -----

  datatype Progress = Progress(inBody: bool, lineParsed: bool, request: Request)

  const START := Progress(false, false, EMPTY_REQUEST)

  function ParseLine(line: string, p: Progress): Result<Progress> {
    if line == "" && !p.inBody then Ok(p.(inBody := true))
    else if p.inBody then Ok(p.(request := p.request.(body := p.request.body + line + "\n")))
    else if !p.lineParsed then
      match ParseRequestLine(line, p.request)
      case Err(e) => Err(e)
      case Ok(r) => Ok(p.(request := r, lineParsed := true))
    else Ok(p.(request := ParseHeaderLine(line, p.request)))
  }

  /** The line that ends at `newline`, without its CR. */
  function LineUpTo(s: Bytes, newline: nat): string
    requires newline <= |s|
  {
    if newline > 0 && s[newline - 1] == '\r' then s[..newline - 1] else s[..newline]
  }

  /** Feeds the newline-terminated lines of `s` to `ParseLine`; an unterminated tail is ignored. */
  function ParseLines(s: Bytes, p: Progress): Result<Progress> {
    match Find(s, "\n")
    case None => Ok(p)
    case Some(newline) =>
      match ParseLine(LineUpTo(s, newline), p)
      case Err(e) => Err(e)
      case Ok(q) => ParseLines(s[newline + 1..], q)
  }

  function ParseMessage(data: Bytes): Result<Request> {
    if |data| == 0 then Err(EmptyData)
    else if |data| > MAX_REQUEST then Err(RequestTooLarge)
    else ParseUnlimited(data)
  }

  function ParseUnlimited(data: Bytes): Result<Request> {
    match ParseLines(data, START)
    case Err(e) => Err(e)
    case Ok(p) => if p.lineParsed then Ok(p.request) else Err(MissingRequestLine)
  }

  /** As src/protocol/rtsp_parser.cc:23-132: one pass over the lines, filling the request as it goes. */
  method Parse(data: Bytes) returns (r: Result<Request>)
    ensures r == ParseMessage(data)
  {
    if |data| == 0 {
      return Err(EmptyData);
    }
    if |data| > MAX_REQUEST {
      return Err(RequestTooLarge);
    }
    var request, inBody, lineParsed := EMPTY_REQUEST, false, false;
    var pos := 0;
    while pos < |data|
      invariant pos <= |data|
      invariant ParseLines(data[pos..], Progress(inBody, lineParsed, request)) == ParseLines(data, START)
    {
      var newline := Find(data[pos..], "\n");
      if newline.None? {
        break;
      }
      var next := pos + newline.value + 1;
      assert data[pos..][newline.value + 1..] == data[next..];
      var line := LineUpTo(data[pos..], newline.value);
      if line == "" && !inBody {
        inBody := true;
        pos := next;
        continue;
      }
      if inBody {
        request := request.(body := request.body + line + "\n");
      } else if !lineParsed {
        var parsed := ParseRequestLine(line, request);
        if parsed.Err? {
          return Err(parsed.error);
        }
        request, lineParsed := parsed.value, true;
      } else {
        request := ParseHeaderLine(line, request);
      }
      pos := next;
    }
    if !lineParsed {
      return Err(MissingRequestLine);
    }
    return Ok(request);
  }

  /** `ParseMethod` recognises exactly the eight method names, and `MethodToString` prints each back. */
  lemma MethodNames(m: Method, s: string)
    ensures m != Unknown ==> (ParseMethod(s) == m <==> s == MethodToString(m))
  {
  }
}

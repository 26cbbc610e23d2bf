/**
 What the read loop makes of the stream a client prints: exactly its frames and requests, and one answer to each
 request.
 */
module ClientStream {
  import opened Bytes
  import opened Text
  import opened Builder
  import opened RoundTrips
  import opened ReplyLaws
  import opened Framing
  import opened RingBuffers
  import opened Service
  import opened Demux
  import P = Parser

  // ----- What a unit is -----

  /** A unit's kind is decided by its bytes alone. */
  predicate IsExact(u: Demux.Unit) {
    && 4 <= |u.bytes|
    && match u
       case Frame(b) => b[0] == '$' && |b| == 4 + 256 * ByteValue(b[2]) + ByteValue(b[3])
       case Request(b) => b[0] != '$' && Find(b, "\r\n\r\n") == Some(|b| - 4)
  }

  lemma ScannedOneIsExact(s: Bytes)
    requires ScanOne(s).Whole?
    ensures IsExact(ScanOne(s).item)
  {
    var u := ScanOne(s).item;
    UnitStandsAlone(s);
    assert u.bytes[..|u.bytes|] == u.bytes;
    if u.Request? {
      assert ScanOne(u.bytes).item == u;
    }
  }

  /** In every stream frames are marked and as long as they say; requests are not, and end at their first blank line. */
  lemma {:induction false} UnitsAreExact(s: Bytes)
    ensures forall u :: u in Scanned(s).units ==> IsExact(u)
    decreases |s|
  {
    hide ScanOne, IsExact;
    if ScanOne(s).Whole? {
      ScannedOneIsExact(s);
      UnitsAreExact(s[|ScanOne(s).item.bytes|..]);
    }
  }

  /** When the loop waits for more, and when it gives up: a frame that is not complete, text of less than 4096 bytes. */
  lemma WaitsExactly(s: Bytes)
    ensures var frame := 4 <= |s| && s[0] == '$';
            var complete := if frame then 4 + 256 * ByteValue(s[2]) + ByteValue(s[3]) <= |s|
                            else Find(s, "\r\n\r\n").Some?;
            && (ScanOne(s).Whole? <==> complete)
            && (ScanOne(s).TooLarge? <==> !frame && !complete && 4096 <= |s|)
  {
  }

  // ----- What a client prints -----

  datatype Sent = SentFrame(packet: Packet) | SentRequest(m: P.Method, url: string, cseq: int, more: Headers)

  function SentHeaders(i: Sent): Headers
    requires i.SentRequest?
  {
    [("CSeq", ToString(i.cseq))] + i.more
  }

  function SentUnit(i: Sent): Demux.Unit {
    match i
    case SentFrame(p) => Demux.Unit.Frame(FrameBytes(p))
    case SentRequest(m, url, _, _) => Demux.Unit.Request(RequestBytes(m, url, SentHeaders(i)))
  }

  /** Frames whose length fits its field, requests with a method, a URL and headers that can be told apart. */
  predicate Printable(i: Sent) {
    match i
    case SentFrame(p) => |p.data| < 65536
    case SentRequest(m, url, cseq, _) => m != P.Unknown && IsWord(url) && IsInt(cseq) && Clean(SentHeaders(i))
  }

  function SentUnits(items: seq<Sent>): seq<Demux.Unit> {
    if items == [] then [] else [SentUnit(items[0])] + SentUnits(items[1..])
  }

  function SentBytes(items: seq<Sent>): Bytes {
    if items == [] then [] else SentUnit(items[0]).bytes + SentBytes(items[1..])
  }

  lemma FrameIsScanned(p: Packet, rest: Bytes)
    requires |p.data| < 65536
    ensures ScanOne(FrameBytes(p) + rest) == Whole(Demux.Unit.Frame(FrameBytes(p)))
  {
    var s := FrameBytes(p) + rest;
    assert s == HeaderBytes(p.streamIndex, |p.data|) + (p.data + rest);
    HeaderIsRead(p.streamIndex, |p.data|, p.data + rest);
    assert s[..|FrameBytes(p)|] == FrameBytes(p);
  }

  lemma RequestIsScanned(m: P.Method, url: string, h: Headers, rest: Bytes)
    requires m != P.Unknown && IsWord(url) && Clean(h)
    ensures ScanOne(RequestBytes(m, url, h) + rest) == Whole(Demux.Unit.Request(RequestBytes(m, url, h)))
  {
    hide HeaderLines, P.MethodToString;
    var line := RequestLine(m, url);
    var r := RequestBytes(m, url, h);
    RequestLineStarts(m, url);
    HeadersEndOnce(line, h, rest);
    assert r + rest == line + CRLF + (HeaderLines(h) + CRLF + rest);
    assert |r| == |line| + |HeaderLines(h)| + 4 && (r + rest)[0] == line[0];
    assert (r + rest)[..|r|] == r;
  }

  lemma RequestLineStarts(m: P.Method, url: string)
    requires IsWord(url)
    ensures var line := RequestLine(m, url); '\n' !in line && line != "" && line[0] != '$'
  {
    MethodIsWord(m);
    VersionIsNoMethod();
    assert P.MethodToString(m)[0] != '$';
    assert RequestLine(m, url)[0] == P.MethodToString(m)[0];
  }

  /** The read loop takes a printed stream apart into exactly what was printed. */
  lemma {:induction false} PrintedStreamIsScanned(items: seq<Sent>)
    requires forall i :: i in items ==> Printable(i)
    ensures Scanned(SentBytes(items)) == Result(SentUnits(items), [], false)
  {
    hide ScanOne, FrameBytes;
    if items == [] {
      EmptyScan();
    } else {
      var b, rest := SentUnit(items[0]).bytes, SentBytes(items[1..]);
      assert Printable(items[0]);
      match items[0] {
        case SentFrame(p) => FrameIsScanned(p, rest);
        case SentRequest(m, url, _, _) => RequestIsScanned(m, url, SentHeaders(items[0]), rest);
      }
      assert (b + rest)[|b|..] == rest;
      PrintedStreamIsScanned(items[1..]);
    }
  }

  // ----- And answers it -----

  /** No request runs past the end of the array. */
  predicate NoneCrosses(items: seq<Sent>, at: nat, cap: nat)
    requires at < cap
    decreases |items|
  {
    items == [] ||
      (var n := |SentUnit(items[0]).bytes|;
       && n <= cap && (items[0].SentRequest? ==> n <= 4096 && at + n <= cap)
       && NoneCrosses(items[1..], Wrap(at + n, cap), cap))
  }

  function SentCSeqs(items: seq<Sent>): seq<int> {
    if items == [] then []
    else (if items[0].SentRequest? then [items[0].cseq] else []) + SentCSeqs(items[1..])
  }

  lemma RequestIsAccepted(i: Sent)
    requires Printable(i) && i.SentRequest? && |SentUnit(i).bytes| <= 4096
    ensures var a := AcceptedOf(SentUnit(i).bytes);
            |a| == 1 && a[0].cseq == i.cseq && a[0].method_ == i.m && a[0].url == i.url
            && a[0].headers == ReadMap(SentHeaders(i))
  {
    hide P.ParseUnlimited, RequestBytes, ReadMap, ReadName, ToString, P.ParseCSeq;
    var h := SentHeaders(i);
    RequestIsSome(i.m, i.url, h);
    RequestIsRead(i.m, i.url, h);
    ReadMapLooksUp(h, 0);
    NamesAreRead("CSeq");
    LowerNames();
    TrimExactly(ToString(i.cseq));
    CSeqIsRead(i.cseq);
  }

  lemma RequestIsSome(m: P.Method, url: string, h: Headers)
    ensures RequestBytes(m, url, h) != []
  {
  }

  lemma {:induction false} UnitsFit(items: seq<Sent>, at: nat, cap: nat)
    requires at < cap && NoneCrosses(items, at, cap)
    ensures forall u :: u in SentUnits(items) ==> |u.bytes| <= cap
    decreases |items|
  {
    hide SentUnit;
    if items != [] {
      UnitsFit(items[1..], Wrap(at + |SentUnit(items[0]).bytes|, cap), cap);
    }
  }

  lemma {:induction false} RequestsAreAccepted(items: seq<Sent>, at: nat, cap: nat, env: nat -> Env, i: nat)
    requires at < cap && NoneCrosses(items, at, cap) && forall x :: x in items ==> Printable(x)
    ensures forall u :: u in SentUnits(items) ==> |u.bytes| <= cap
    ensures CSeqs(Accepted(SentUnits(items), at, cap, env, i)) == SentCSeqs(items)
    decreases |items|
  {
    hide AcceptedOf, RequestBytes, FrameBytes, Printable, CSeqs;
    UnitsFit(items, at, cap);
    if items == [] {
      NoSeqs();
    } else {
      var n := |SentUnit(items[0]).bytes|;
      assert SentUnits(items)[1..] == SentUnits(items[1..]);
      assert Printable(items[0]);
      if items[0].SentRequest? {
        RequestIsAccepted(items[0]);
        var a := AcceptedOf(SentUnit(items[0]).bytes);
        var rest := Accepted(SentUnits(items[1..]), Wrap(at + n, cap), cap, env, i + 1);
        RequestsAreAccepted(items[1..], Wrap(at + n, cap), cap, env, i + 1);
        CSeqsAppend(a, rest);
        OneSeq(a[0]);
        assert a == [a[0]];
      } else {
        RequestsAreAccepted(items[1..], Wrap(at + n, cap), cap, env, i);
        assert [] + SentCSeqs(items[1..]) == SentCSeqs(items[1..]);
      }
    }
  }

  lemma NoSeqs()
    ensures CSeqs([]) == []
  {
  }

  lemma OneSeq(r: P.Request)
    ensures CSeqs([r]) == [r.cseq]
  {
  }

  /**
   Every printed request within 4096 bytes that does not run past the end of the read buffer is answered: one reply
   for each, in order, with the CSeq that the client printed, whatever frames stand between them.
   */
  lemma EveryRequestIsAnswered(s: State, items: seq<Sent>, at: nat, cap: nat, sessionId: string, env: nat -> Env)
    requires at < cap && NoneCrosses(items, at, cap) && forall x :: x in items ==> Printable(x)
    ensures var units := Scanned(SentBytes(items)).units;
            && (forall u :: u in units ==> |u.bytes| <= cap)
            && ReplyCSeqs(ServeAll(s, units, at, cap, sessionId, env, 0).replies)
               == ReplyCSeqs(s.replies) + SentCSeqs(items)
  {
    hide Scanned, ServeAll, Accepted, CSeqs, ReplyCSeqs;
    PrintedStreamIsScanned(items);
    RequestsAreAccepted(items, at, cap, env, 0);
    OneReplyPerRequest(s, SentUnits(items), at, cap, sessionId, env, 0);
  }
}

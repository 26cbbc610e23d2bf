/**
 The demultiplexer of the server's read loop, src/core/rtsp_server.cc:416-468, on byte strings: interleaved
 frames are skipped, header-only requests are dispatched.
 */
module Demux {
  import opened Bytes
  import Framing
  import Parser

  datatype Unit = Frame(bytes: Bytes) | Request(bytes: Bytes)

  /** What one iteration makes of a nonempty buffer. */
  datatype Scan = Whole(item: Unit) | Incomplete | TooLarge

  function ScanOne(s: Bytes): (r: Scan)
    ensures r.Whole? ==> 4 <= |r.item.bytes| <= |s| && r.item.bytes == s[..|r.item.bytes|]
  {
    if 4 <= |s| && s[0] == Framing.MARKER then
      var total := 4 + Framing.FrameLength(s);
      if |s| < total then Incomplete else Whole(Frame(s[..total]))
    else
      match Find(s, BLANK_LINE)
      case None => if |s| >= Parser.MAX_REQUEST then TooLarge else Incomplete
      case Some(end) => Whole(Request(s[..end + 4]))
  }

  /** The units of a buffer in order, what remains, and whether the connection was closed over it. */
  datatype Result = Result(units: seq<Unit>, rest: Bytes, closed: bool)

  function Scanned(s: Bytes): (r: Result)
    decreases |s|
  {
    match ScanOne(s)
    case Incomplete => Result([], s, false)
    case TooLarge => Result([], s, true)
    case Whole(u) =>
      var r := Scanned(s[|u.bytes|..]);
      r.(units := [u] + r.units)
  }

  function UnitBytes(us: seq<Unit>): Bytes {
    if us == [] then [] else us[0].bytes + UnitBytes(us[1..])
  }

  /**
   The read events of a connection whose buffer has room for `cap` bytes and holds `rest`: each receives a
   chunk and runs the loop, and one that finds the buffer full closes the connection instead.
   */
  function Fed(rest: Bytes, chunks: seq<Bytes>, cap: nat): Result
    decreases |chunks|
  {
    if chunks == [] then Result([], rest, false)
    else if |rest| >= cap then Result([], rest, true)
    else
      var r := Scanned(rest + chunks[0]);
      if r.closed then r
      else
        var t := Fed(r.rest, chunks[1..], cap);
        t.(units := r.units + t.units)
  }

  lemma OneEvent(rest: Bytes, chunk: Bytes, cap: nat)
    ensures Fed(rest, [chunk], cap) == if |rest| >= cap then Result([], rest, true) else Scanned(rest + chunk)
  {
    hide Scanned;
    var r := Scanned(rest + chunk);
    assert r.units + [] == r.units;
    assert [chunk][1..] == [];
  }

  /** What the socket can deliver: at least one byte for every event, and no more than there is room for. */
  ghost predicate Receivable(rest: Bytes, chunks: seq<Bytes>, cap: nat)
    decreases |chunks|
  {
    chunks == [] ||
      (var r := Scanned(rest + chunks[0]);
       && 0 < |chunks[0]|
       && (|rest| >= cap || (|chunks[0]| <= cap - |rest| && (r.closed || Receivable(r.rest, chunks[1..], cap)))))
  }

  // ----- Nothing is lost, and every iteration makes progress -----

  lemma UnitBytesCons(u: Unit, us: seq<Unit>)
    ensures UnitBytes([u] + us) == u.bytes + UnitBytes(us)
  {
    assert ([u] + us)[1..] == us;
  }

  /** The units and the remainder are exactly the bytes that came in. */
  lemma {:induction false} ScannedConserves(s: Bytes)
    ensures UnitBytes(Scanned(s).units) + Scanned(s).rest == s
    decreases |s|
  {
    hide ScanOne, UnitBytes;
    NoUnits();
    if ScanOne(s).Whole? {
      var u := ScanOne(s).item.bytes;
      var r := Scanned(s[|u|..]);
      ScannedConserves(s[|u|..]);
      UnitBytesCons(ScanOne(s).item, r.units);
      AppendAssociates(u, UnitBytes(r.units), r.rest);
      assert s == u + s[|u|..];
    }
  }

  lemma NoUnits()
    ensures UnitBytes([]) == []
  {
  }

  /** Every iteration that does not end the loop consumes at least four bytes. */
  lemma {:induction false} UnitsAreLong(s: Bytes)
    ensures 4 * |Scanned(s).units| + |Scanned(s).rest| <= |s|
    decreases |s|
  {
    hide ScanOne;
    if ScanOne(s).Whole? {
      UnitsAreLong(s[|ScanOne(s).item.bytes|..]);
    }
  }

  lemma {:induction false} UnitsAreWithin(s: Bytes)
    ensures forall u :: u in Scanned(s).units ==> |u.bytes| <= |s|
    decreases |s|
  {
    hide ScanOne;
    if ScanOne(s).Whole? {
      UnitsAreWithin(s[|ScanOne(s).item.bytes|..]);
    }
  }

  /**
   On exit the loop has closed the connection or is left with an incomplete unit: less than 4096 bytes of
   text, or less of a frame than its own length.
   */
  lemma {:induction false} ScannedStops(s: Bytes)
    ensures var r := Scanned(s);
            if r.closed then ScanOne(r.rest).TooLarge? else ScanOne(r.rest).Incomplete?
    decreases |s|
  {
    match ScanOne(s)
    case Incomplete =>
    case TooLarge =>
    case Whole(u) => ScannedStops(s[|u.bytes|..]);
  }

  const MAX_FRAME: nat := 4 + 0xFFFF

  /** A remainder that fills a buffer of capacity `cap` is part of a frame that does not fit it, and nothing else. */
  lemma StuckExactly(s: Bytes, cap: nat)
    requires ScanOne(s).Incomplete? && |s| <= cap && Parser.MAX_REQUEST <= cap
    ensures |s| == cap <==> 4 <= |s| && s[0] == Framing.MARKER && |s| == cap < 4 + Framing.FrameLength(s)
    ensures MAX_FRAME <= cap ==> |s| < cap
  {
  }

  /** With room for the largest frame the loop never leaves a full buffer behind. */
  lemma RestLeavesRoom(s: Bytes, cap: nat)
    requires |s| <= cap && MAX_FRAME <= cap && !Scanned(s).closed
    ensures ScanOne(Scanned(s).rest).Incomplete? && |Scanned(s).rest| < cap
  {
    ScannedStops(s);
    UnitsAreLong(s);
    StuckExactly(Scanned(s).rest, cap);
  }

  // ----- Chunking -----

  /** Every request of a complete scan is within the size limit the loop enforces on incomplete ones. */
  predicate RequestsFit(r: Result) {
    && !r.closed
    && forall u :: u in r.units && u.Request? ==> |u.bytes| <= Parser.MAX_REQUEST
  }

  lemma ScanOneIsStable(a: Bytes, b: Bytes)
    requires ScanOne(a).Whole?
    ensures ScanOne(a + b) == ScanOne(a)
  {
    var n := |ScanOne(a).item.bytes|;
    assert (a + b)[..n] == a[..n];
    if !(4 <= |a| && a[0] == Framing.MARKER) {
      FindIsStable(a, b, BLANK_LINE);
    }
  }

  /** Text that was refused as too large is refused, or exceeds the limit as a request, however it goes on. */
  lemma TooLargeStaysTooLarge(a: Bytes, b: Bytes)
    requires ScanOne(a).TooLarge?
    ensures ScanOne(a + b).TooLarge?
            || (ScanOne(a + b).Whole? && ScanOne(a + b).item.Request?
                && Parser.MAX_REQUEST < |ScanOne(a + b).item.bytes|)
  {
    if Find(a + b, BLANK_LINE).Some? {
      var end := Find(a + b, BLANK_LINE).value;
      if end + 4 <= |a| {
        MatchInPrefix(a, b, BLANK_LINE, end);
      }
    }
  }

  lemma FirstUnit(s: Bytes)
    requires ScanOne(s).Whole?
    ensures var u := ScanOne(s).item; var r := Scanned(s[|u.bytes|..]);
            && Scanned(s) == Result([u] + r.units, r.rest, r.closed)
            && (RequestsFit(Scanned(s)) <==>
                  RequestsFit(r) && (u.Request? ==> |u.bytes| <= Parser.MAX_REQUEST))
  {
    hide ScanOne;
    var u := ScanOne(s).item;
    var r := Scanned(s[|u.bytes|..]);
    assert forall v :: v in [u] + r.units <==> v == u || v in r.units;
  }

  /** Scanning after more bytes have come in is scanning what was left together with them. */
  lemma {:induction false} ScanInTwo(a: Bytes, b: Bytes)
    requires RequestsFit(Scanned(a + b))
    ensures var r := Scanned(a);
            && !r.closed
            && Scanned(a + b).units == r.units + Scanned(r.rest + b).units
            && Scanned(a + b).rest == Scanned(r.rest + b).rest
            && RequestsFit(Scanned(r.rest + b))
    decreases |a|
  {
    hide ScanOne, RequestsFit;
    match ScanOne(a)
    case Incomplete =>
      assert Scanned(a) == Result([], a, false);
    case TooLarge =>
      TooLargeIsLong(a, b);
    case Whole(u) =>
      ScanOneIsStable(a, b);
      var t := a[|u.bytes|..];
      assert (a + b)[|u.bytes|..] == t + b;
      FirstUnit(a + b);
      FirstUnit(a);
      ScanInTwo(t, b);
  }

  lemma TooLargeIsLong(a: Bytes, b: Bytes)
    requires ScanOne(a).TooLarge?
    ensures !RequestsFit(Scanned(a + b))
  {
    TooLargeStaysTooLarge(a, b);
    if ScanOne(a + b).Whole? {
      FirstUnit(a + b);
    }
  }

  /** A scan that a buffer of capacity `cap` can follow: the requests, the units and what is left over fit. */
  predicate Fits(r: Result, cap: nat) {
    && RequestsFit(r) && |r.rest| <= cap
    && forall u :: u in r.units ==> |u.bytes| <= cap
  }

  lemma FitsInTwo(a: Bytes, b: Bytes, cap: nat)
    requires Fits(Scanned(a + b), cap)
    ensures var r := Scanned(a);
            && !r.closed && Scanned(r.rest) == Result([], r.rest, false) && Fits(Scanned(r.rest + b), cap)
            && (forall u :: u in r.units ==> |u.bytes| <= cap)
            && Scanned(a + b) == Scanned(r.rest + b).(units := r.units + Scanned(r.rest + b).units)
  {
    hide Scanned;
    ScanInTwo(a, b);
    ScannedStops(a);
    var r, t := Scanned(a), Scanned(Scanned(a).rest + b);
    assert Scanned(r.rest) == Result([], r.rest, false) by { StoppedIsStuck(r.rest); }
    assert forall u :: u in r.units ==> u in r.units + t.units;
    assert forall u :: u in t.units ==> u in r.units + t.units;
  }

  lemma StoppedIsStuck(s: Bytes)
    requires ScanOne(s).Incomplete?
    ensures Scanned(s) == Result([], s, false)
  {
  }

  /** While anything is still to come, what is left over never fills the buffer. */
  lemma NeverStuck(rest: Bytes, more: Bytes, cap: nat)
    requires Scanned(rest) == Result([], rest, false) && more != [] && Fits(Scanned(rest + more), cap)
    ensures |rest| < cap
  {
    if ScanOne(rest + more).Whole? {
      FirstUnit(rest + more);
      var u := ScanOne(rest + more).item;
      if |u.bytes| <= |rest| {
        UnitStandsAlone(rest + more);
        assert rest == u.bytes + rest[|u.bytes|..];
        ScanOneIsStable(u.bytes, rest[|u.bytes|..]);
      }
      assert u in Scanned(rest + more).units;
    }
  }

  /**
   Chunking independence: when a stream fits, receiving it in any chunks dispatches the same requests, skips
   the same frames and leaves the same remainder as scanning it whole; no event finds the buffer full.
   */
  lemma {:induction false} ChunkingIsIrrelevant(rest: Bytes, chunks: seq<Bytes>, cap: nat)
    requires Scanned(rest) == Result([], rest, false)
    requires Fits(Scanned(rest + Join(chunks)), cap) && Receivable(rest, chunks, cap)
    ensures Fed(rest, chunks, cap) == Scanned(rest + Join(chunks))
    decreases |chunks|
  {
    hide Scanned, ScanOne, Fits;
    if chunks == [] {
      assert rest + Join(chunks) == rest;
    } else {
      var first, later := chunks[0], Join(chunks[1..]);
      assert rest + Join(chunks) == (rest + first) + later == rest + (first + later);
      NeverStuck(rest, first + later, cap);
      FitsInTwo(rest + first, later, cap);
      ChunkingIsIrrelevant(Scanned(rest + first).rest, chunks[1..], cap);
    }
  }

  lemma UnitStandsAlone(s: Bytes)
    requires ScanOne(s).Whole?
    ensures ScanOne(ScanOne(s).item.bytes) == ScanOne(s)
  {
    var n := |ScanOne(s).item.bytes|;
    assert s == s[..n] + s[n..] && s[..n][..n] == s[..n];
    if !(4 <= |s| && s[0] == Framing.MARKER) {
      var end := Find(s, BLANK_LINE).value;
      forall j: nat | j <= end ensures MatchAt(s[..n], BLANK_LINE, j) == MatchAt(s, BLANK_LINE, j) {
        MatchInPrefix(s[..n], s[n..], BLANK_LINE, j);
      }
      FindIs(s[..n], BLANK_LINE, end);
    }
  }

  /** The slowest delivery: one byte for each event. */
  function Singles(s: Bytes): seq<Bytes> {
    if s == [] then [] else [s[..1]] + Singles(s[1..])
  }

  lemma {:induction false} SinglesJoin(s: Bytes)
    ensures Join(Singles(s)) == s
  {
    if s != [] {
      SinglesJoin(s[1..]);
      assert Singles(s)[1..] == Singles(s[1..]);
      assert s == s[..1] + s[1..];
    }
  }

  lemma {:induction false} SinglesAreReceivable(rest: Bytes, s: Bytes, cap: nat)
    ensures Receivable(rest, Singles(s), cap)
    decreases |s|
  {
    hide Scanned;
    if s != [] && |rest| < cap {
      assert Singles(s)[1..] == Singles(s[1..]);
      SinglesAreReceivable(Scanned(rest + s[..1]).rest, s[1..], cap);
    }
  }

  /** One byte either completes a unit that ends with it, or none. */
  lemma OneByteMore(rest: Bytes, b: Bytes)
    requires ScanOne(rest).Incomplete? && |b| == 1
    ensures ScanOne(rest + b).Whole? ==> ScanOne(rest + b).item.bytes == rest + b
    ensures ScanOne(rest + b).Whole? && ScanOne(rest + b).item.Request? ==> |rest + b| <= Parser.MAX_REQUEST
  {
    var s := rest + b;
    if ScanOne(s).Whole? {
      var u := ScanOne(s).item;
      if |u.bytes| <= |rest| {
        UnitStandsAlone(s);
        assert rest == u.bytes + rest[|u.bytes|..];
        ScanOneIsStable(u.bytes, rest[|u.bytes|..]);
        assert false;
      }
      assert u.bytes == s[..|s|] == s;
    }
  }

  /** A stream that arrives byte by byte without being closed over fits. */
  lemma {:induction false} SinglesFit(rest: Bytes, s: Bytes, cap: nat)
    requires ScanOne(rest).Incomplete? && |rest| <= cap && !Fed(rest, Singles(s), cap).closed
    ensures Fits(Scanned(rest + s), cap)
    decreases |s|
  {
    hide ScanOne;
    if s == [] {
      assert rest + s == rest;
    } else {
      var b, t := s[..1], s[1..];
      assert Singles(s)[1..] == Singles(t);
      assert rest + s == (rest + b) + t;
      OneByteMore(rest, b);
      if ScanOne(rest + b).Whole? {
        ScanOneIsStable(rest + b, t);
        assert (rest + b)[|rest + b|..] == [] && (rest + s)[|rest + b|..] == [] + t;
        EmptyScan();
        FirstUnit(rest + b);
        SinglesFit([], t, cap);
        FirstUnit(rest + s);
        UnitsFitToo(rest + s, cap);
      } else {
        SinglesFit(rest + b, t, cap);
      }
    }
  }

  lemma UnitsFitToo(s: Bytes, cap: nat)
    requires ScanOne(s).Whole?
    ensures var u := ScanOne(s).item; var r := Scanned(s[|u.bytes|..]);
            Fits(r, cap) && |u.bytes| <= cap && (u.Request? ==> |u.bytes| <= Parser.MAX_REQUEST) ==>
              Fits(Scanned(s), cap)
  {
    FirstUnit(s);
  }

  /**
   And only then: a stream that is accepted whole is taken the same way however the socket delivers it exactly
   if its requests are within the limit and its units and what is left over fit the buffer.
   */
  lemma ChunkingExactly(s: Bytes, cap: nat)
    requires !Scanned(s).closed
    ensures Fits(Scanned(s), cap) <==>
            forall chunks :: Join(chunks) == s && Receivable([], chunks, cap) ==> Fed([], chunks, cap) == Scanned(s)
  {
    hide Scanned, ScanOne, Fits, Receivable, Fed;
    EmptyScan();
    if Fits(Scanned(s), cap) {
      forall chunks | Join(chunks) == s && Receivable([], chunks, cap) ensures Fed([], chunks, cap) == Scanned(s) {
        assert [] + Join(chunks) == s;
        ChunkingIsIrrelevant([], chunks, cap);
      }
    } else {
      SinglesJoin(s);
      SinglesAreReceivable([], s, cap);
      assert [] + s == s;
      if !Fed([], Singles(s), cap).closed {
        SinglesFit([], s, cap);
      }
    }
  }

  lemma EmptyScan()
    ensures ScanOne([]).Incomplete? && Scanned([]) == Result([], [], false)
  {
    assert ScanOne([]).Incomplete?;
  }

  // ----- Bodies -----

  /**
   `Content-Length` plays no part: whatever follows the blank line is scanned as the next units, and the connection
   is closed over it as over any text.
   */
  lemma BodyIsScannedAsUnits(head: Bytes, body: Bytes)
    requires ScanOne(head) == Whole(Request(head))
    ensures Scanned(head + body).units == [Request(head)] + Scanned(body).units
    ensures Scanned(head + body).rest == Scanned(body).rest && Scanned(head + body).closed == Scanned(body).closed
  {
    ScanOneIsStable(head, body);
    assert (head + body)[|head|..] == body;
  }
}

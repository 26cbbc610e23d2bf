/**
 Laws of serving a whole incoming stream: it does not matter how the stream arrives, and exactly the
 requests that do not run past the end of the read buffer are parsed as they were sent.
 */
module ServiceLaws {
  import opened Bytes
  import opened Builder
  import opened RingBuffers
  import opened Service
  import opened Demux
  import Text
  import ReplyLaws
  import P = Parser

  // ----- The read position along a stream -----

  /** The physical read position after the given units have been consumed. */
  function Walk(at: nat, units: seq<Unit>, cap: nat): (p: nat)
    requires at < cap && forall u :: u in units ==> |u.bytes| <= cap
    ensures p < cap
    decreases |units|
  {
    if units == [] then at else Walk(Wrap(at + |units[0].bytes|, cap), units[1..], cap)
  }

  function RequestCount(units: seq<Unit>): nat {
    if units == [] then 0 else (if units[0].Request? then 1 else 0) + RequestCount(units[1..])
  }

  /** The read position is the stream offset modulo the capacity, wherever the chunk boundaries fell. */
  lemma {:induction false} WalkIsOffset(offset: nat, units: seq<Unit>, cap: nat)
    requires 0 < cap && forall u :: u in units ==> |u.bytes| <= cap
    ensures Walk(offset % cap, units, cap) == (offset + |UnitBytes(units)|) % cap
    decreases |units|
  {
    if units != [] {
      var n := |units[0].bytes|;
      WrapIsMod(offset % cap + n, cap);
      AddMod(0, offset, n, cap);
      WalkIsOffset(offset + n, units[1..], cap);
    }
  }

  // ----- The zero-copy view of a request -----

  /**
   The parser sees the request itself, whatever memory lies behind the buffer, exactly if the request does
   not run past the end of the array.
   */
  lemma IntactExactly(request: Bytes, offset: nat, cap: nat)
    requires 0 < cap
    ensures (forall beyond: nat -> char :: HandedOver(request, offset % cap, cap, beyond) == request)
            <==> offset % cap + |request| <= cap
  {
    var at := offset % cap;
    if cap < at + |request| {
      var last := at + |request| - cap - 1;
      var other: char := if request[|request| - 1] == 'x' then 'y' else 'x';
      var beyond: nat -> char := i => other;
      var h := HandedOver(request, at, cap, beyond);
      assert h[|request| - 1] == other;
    }
  }

  // ----- Serving in pieces -----

  lemma {:induction false} ServeInTwo(s: State, a: seq<Unit>, b: seq<Unit>, at: nat, cap: nat, sessionId: string,
                                      env: nat -> Env, i: nat)
    requires at < cap && (forall u :: u in a ==> |u.bytes| <= cap) && (forall u :: u in b ==> |u.bytes| <= cap)
    ensures forall u :: u in a + b ==> |u.bytes| <= cap
    ensures ServeAll(s, a + b, at, cap, sessionId, env, i)
         == ServeAll(ServeAll(s, a, at, cap, sessionId, env, i), b, Walk(at, a, cap), cap, sessionId, env,
                     i + RequestCount(a))
    decreases |a|
  {
    hide Serve, HandedOver;
    if a == [] {
      assert a + b == b;
    } else {
      var u := a[0];
      var next := Wrap(at + |u.bytes|, cap);
      assert (a + b)[0] == u && (a + b)[1..] == a[1..] + b;
      match u
      case Frame(_) => ServeInTwo(s, a[1..], b, next, cap, sessionId, env, i);
      case Request(bytes) =>
        ServeInTwo(Serve(s, HandedOver(bytes, at, cap, env(i).beyond), cap, sessionId, env(i)),
                   a[1..], b, next, cap, sessionId, env, i + 1);
    }
  }

  /** The read events that deliver the given chunks to a session. */
  ghost function ServeFed(s: State, rest: Bytes, chunks: seq<Bytes>, at: nat, cap: nat, sessionId: string,
                          env: nat -> Env, i: nat): State
    requires at < cap
    decreases |chunks|
  {
    if chunks == [] || cap < |rest + chunks[0]| || |rest| == cap then s
    else
      UnitsAreWithin(rest + chunks[0]);
      var r := Scanned(rest + chunks[0]);
      var t := ServeAll(s, r.units, at, cap, sessionId, env, i);
      if r.closed then t
      else ServeFed(t, r.rest, chunks[1..], Walk(at, r.units, cap), cap, sessionId, env, i + RequestCount(r.units))
  }

  /**
   However the socket delivers a stream that fits the buffer, serving it leaves the session, its replies and its
   outgoing stream as if it had arrived at once.
   */
  lemma {:induction false} ServiceIsChunkIndependent(s: State, rest: Bytes, chunks: seq<Bytes>, at: nat, cap: nat,
                                                     sessionId: string, env: nat -> Env, i: nat)
    requires at < cap && Scanned(rest) == Result([], rest, false)
    requires Fits(Scanned(rest + Join(chunks)), cap) && Receivable(rest, chunks, cap)
    ensures ServeFed(s, rest, chunks, at, cap, sessionId, env, i)
         == ServeAll(s, Scanned(rest + Join(chunks)).units, at, cap, sessionId, env, i)
    decreases |chunks|
  {
    hide ScanOne, Fits, Scanned, ServeAll, Walk, RequestCount;
    FittingUnits(rest + Join(chunks), cap);
    if chunks == [] {
      assert rest + Join(chunks) == rest;
      NothingServed(s, at, cap, sessionId, env, i);
    } else {
      var first, later := chunks[0], Join(chunks[1..]);
      assert rest + Join(chunks) == (rest + first) + later == rest + (first + later);
      NeverStuck(rest, first + later, cap);
      FitsInTwo(rest + first, later, cap);
      var r := Scanned(rest + first);
      var b := Scanned(r.rest + later).units;
      UnitsAreWithin(rest + first);
      UnitsOfTwo(r.units, b, cap);
      ServeInTwo(s, r.units, b, at, cap, sessionId, env, i);
      ServiceIsChunkIndependent(ServeAll(s, r.units, at, cap, sessionId, env, i), r.rest, chunks[1..],
                                Walk(at, r.units, cap), cap, sessionId, env, i + RequestCount(r.units));
    }
  }

  lemma NothingServed(s: State, at: nat, cap: nat, sessionId: string, env: nat -> Env, i: nat)
    requires at < cap
    ensures ServeAll(s, [], at, cap, sessionId, env, i) == s
  {
  }

  lemma FittingUnits(s: Bytes, cap: nat)
    requires Fits(Scanned(s), cap)
    ensures forall u :: u in Scanned(s).units ==> |u.bytes| <= cap
  {
  }

  /** A single read event. */
  lemma OneEventServed(s: State, rest: Bytes, chunk: Bytes, at: nat, cap: nat, sessionId: string,
                       env: nat -> Env, i: nat)
    requires at < cap && |rest + chunk| <= cap
    ensures forall u :: u in Scanned(rest + chunk).units ==> |u.bytes| <= cap
    ensures ServeFed(s, rest, [chunk], at, cap, sessionId, env, i)
         == if |rest| == cap then s else ServeAll(s, Scanned(rest + chunk).units, at, cap, sessionId, env, i)
  {
    hide Scanned, Walk;
    UnitsAreWithin(rest + chunk);
  }

  lemma UnitsOfTwo(a: seq<Unit>, b: seq<Unit>, cap: nat)
    requires forall u :: u in a + b ==> |u.bytes| <= cap
    ensures (forall u :: u in a ==> |u.bytes| <= cap) && (forall u :: u in b ==> |u.bytes| <= cap)
  {
    assert forall u :: u in a ==> u in a + b;
    assert forall u :: u in b ==> u in a + b;
  }

  // ----- CSeq, end to end -----

  lemma {:induction false} ParsedCSeqIsInt(data: Bytes, p: P.Progress)
    requires Text.IsInt(p.request.cseq)
    ensures var r := P.ParseLines(data, p); r.Ok? ==> Text.IsInt(r.value.request.cseq)
    decreases |data|
  {
    hide P.ParseTransport, P.ParseRequestLine, P.LineUpTo;
    match Find(data, "\n")
    case None =>
    case Some(newline) =>
      var q := P.ParseLine(P.LineUpTo(data, newline), p);
      LineKeepsCSeqInt(P.LineUpTo(data, newline), p);
      if q.Ok? {
        ParsedCSeqIsInt(data[newline + 1..], q.value);
      }
  }

  lemma LineKeepsCSeqInt(line: string, p: P.Progress)
    requires Text.IsInt(p.request.cseq)
    ensures var q := P.ParseLine(line, p); q.Ok? ==> Text.IsInt(q.value.request.cseq)
  {
    hide P.ParseTransport;
  }

  /** The CSeq that a client reads from any response is the one the server read from the request. */
  lemma ResponseEchoesCSeq(handed: Bytes, v: View, env: Env, sessionId: string)
    requires P.ParseMessage(handed).Ok? && '\n' !in sessionId
    ensures var request := P.ParseMessage(handed).value;
            var response := P.ParseUnlimited(ReplyHead(Handle(v, request, env).reply, sessionId));
            response.Ok? && response.value.cseq == request.cseq
  {
    hide P.ParseLines, ReplyHead, Handle;
    var request := P.ParseMessage(handed).value;
    ParsedCSeqIsInt(handed, P.START);
    ReplyCarriesCSeq(v, request, env);
    ReplyLaws.ReplyHeadIsRead(Handle(v, request, env).reply, sessionId);
  }

  /** What a client reads from the response to an accepted UDP SETUP, or to an accepted TCP one. */
  lemma SetupIsReadBack(v: View, request: P.Request, env: Env, sessionId: string)
    requires request.method_ == P.Setup && Text.IsInt(request.cseq) && '\n' !in sessionId
    requires var t := request.transport; Text.IsInt(t.clientRtpPort) && Text.IsInt(t.clientRtcpPort)
    requires Text.IsInt(env.serverRtp) && Text.IsInt(env.serverRtcp)
    requires |ReplyBytes(Handle(v, request, env).reply, sessionId)| <= 4096
    ensures var t := request.transport; var r := P.ParseMessage(ReplyBytes(Handle(v, request, env).reply, sessionId));
            && (OpensUdp(request, env) ==>
                  r.Ok? && r.value.transport == P.TransportInfo(true, false, t.clientRtpPort, t.clientRtcpPort,
                                                                env.serverRtp, env.serverRtcp, 0, 0))
            && (!t.isUdp && (t.isTcp || t.interleavedRtp != 0) ==>
                  r.Ok? && r.value.transport == P.TransportInfo(false, true, 0, 0, 0, 0, 0, 1))
  {
    hide P.ParseMessage, ReplyBytes;
    var t := request.transport;
    SetupTells(v, request, env);
    UdpIsSetExactly(v, request, env);
    if OpensUdp(request, env) || (!t.isUdp && (t.isTcp || t.interleavedRtp != 0)) {
      ReplyLaws.ParseInvertsSetup(Handle(v, request, env).reply, sessionId);
    }
  }
}

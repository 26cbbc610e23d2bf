/**
 What one `Send`, `SendV` or `Flush` does to the outgoing byte stream, for every answer of the kernel:
 the pure half of src/net/connection.cc, and the laws of whole runs of such calls.
 */
module Transport {
  import opened Bytes

  /**
   The kernel's answer to a non-blocking `send` or `writev`: it has room for `bytes` more bytes and takes
   as many of the request as fit (no room is EAGAIN), or it fails hard.
   */
  datatype Kernel = Room(bytes: nat) | Failed

  /** The outgoing stream: bytes the kernel took, then bytes waiting in the write buffer. */
  datatype Out = Out(wire: Bytes, buf: Bytes) {
    function All(): Bytes {
      wire + buf
    }
  }

  /**
   Result of a call on `data`: the kernel took `data[..taken]`, the write buffer kept `data[taken..kept]`,
   the rest was dropped, and the call returned `ret`.
   */
  datatype Sent = Sent(taken: nat, kept: nat, ret: int)

  function Deliver(o: Out, data: Bytes, s: Sent): Out
    requires s.taken <= s.kept <= |data|
  {
    Out(o.wire + data[..s.taken], o.buf + data[s.taken..s.kept])
  }

  /** As src/net/connection.cc:63-115 on an open connection. */
  function SendOutcome(total: nat, buffered: nat, cap: nat, k: Kernel): (s: Sent)
    requires buffered <= cap
    ensures s.taken <= s.kept <= total
  {
    if total == 0 then Sent(0, 0, 0)
    else if buffered == 0 && k.Failed? then Sent(0, 0, -1)
    else if buffered == 0 && k.bytes > 0 then
      var taken := Min(k.bytes, total);
      if total - taken <= cap then Sent(taken, total, total) else Sent(taken, taken, taken)
    else if total <= cap - buffered then Sent(0, total, total)
    else Sent(0, 0, -1)
  }

  /** Buffers every vector in turn until one is empty or does not fit. */
  function StoreAll(iov: seq<Bytes>, room: nat): (r: (nat, bool))
    ensures r.0 <= |Join(iov)| && r.0 <= room
    ensures r.1 ==> r.0 == |Join(iov)|
  {
    if iov == [] then (0, true)
    else if 0 < |iov[0]| <= room then
      var r := StoreAll(iov[1..], room - |iov[0]|);
      (|iov[0]| + r.0, r.1)
    else (0, false)
  }

  /** The skip loop after a partial `writev` that took `skip` bytes. */
  function StoreRest(iov: seq<Bytes>, skip: nat, room: nat): (r: (nat, bool))
    requires skip <= |Join(iov)|
    ensures r.0 + skip <= |Join(iov)| && r.0 <= room
    ensures r.1 ==> r.0 + skip == |Join(iov)|
  {
    if iov == [] then (0, true)
    else if skip < |iov[0]| then
      if |iov[0]| - skip <= room then
        var r := StoreAll(iov[1..], room - (|iov[0]| - skip));
        (|iov[0]| - skip + r.0, r.1)
      else (0, false)
    else StoreRest(iov[1..], skip - |iov[0]|, room)
  }

  /** Buffers every nonempty vector in turn until one does not fit. */
  function StoreNonEmpty(iov: seq<Bytes>, room: nat): (r: (nat, bool))
    ensures r.0 <= |Join(iov)| && r.0 <= room
    ensures r.1 ==> r.0 == |Join(iov)|
  {
    if iov == [] then (0, true)
    else if |iov[0]| == 0 then StoreNonEmpty(iov[1..], room)
    else if |iov[0]| <= room then
      var r := StoreNonEmpty(iov[1..], room - |iov[0]|);
      (|iov[0]| + r.0, r.1)
    else (0, false)
  }

  /** As src/net/connection.cc:117-197 on an open connection, `total_len` being the vectors' total length. */
  function SendVOutcome(iov: seq<Bytes>, buffered: nat, cap: nat, k: Kernel): (s: Sent)
    requires buffered <= cap
    ensures s.taken <= s.kept <= |Join(iov)|
  {
    var total := |Join(iov)|;
    if total == 0 then Sent(0, 0, 0)
    else if buffered == 0 && k.Failed? then Sent(0, 0, -1)
    else if buffered == 0 && k.bytes > 0 then
      var taken := Min(k.bytes, total);
      if taken == total then Sent(total, total, total)
      else
        var r := StoreRest(iov, taken, cap);
        Sent(taken, taken + r.0, if r.1 then total else taken)
    else
      var r := StoreNonEmpty(iov, cap - buffered);
      Sent(0, r.0, if r.1 then total else -1)
  }

  /** How many buffered bytes a `Flush` hands to the kernel. */
  function FlushTaken(buffered: nat, k: Kernel): nat {
    match k
    case Failed => 0
    case Room(n) => Min(n, buffered)
  }

  function FlushReturn(buffered: nat, k: Kernel): int {
    if buffered > 0 && k.Failed? then -1 else FlushTaken(buffered, k)
  }

  // ----- What the kernel takes -----

  /**
   A send or a vector send tries the kernel exactly if nothing is queued, and then the kernel takes as much of the data
   as it has room for; the result is negative exactly if some of the data is refused without being sent.
   */
  lemma KernelTakes(total: nat, iov: seq<Bytes>, buffered: nat, cap: nat, k: Kernel)
    requires buffered <= cap && total == |Join(iov)|
    ensures var n := if buffered == 0 && k.Room? then Min(k.bytes, total) else 0;
            && SendOutcome(total, buffered, cap, k).taken == n
            && SendVOutcome(iov, buffered, cap, k).taken == n
    ensures var s := SendOutcome(total, buffered, cap, k);
            && (s.ret < 0 <==> s.kept == 0 && total > 0)
            && (s.ret >= 0 ==> s.ret == s.kept)
            && (s.kept == s.taken || s.kept == total)
    ensures var s := SendVOutcome(iov, buffered, cap, k);
            && (s.ret < 0 ==> s.taken == 0)
            && (s.ret == total && total > 0 && s.taken < total ==> s.kept == total)
  {
  }

  // ----- Runs of calls, in the order in which they took `send_mutex_` -----

  datatype Call = Send(data: Bytes, k: Kernel) | SendV(iov: seq<Bytes>, k: Kernel) | Flush(k: Kernel) {
    function Data(): Bytes {
      match this
      case Send(data, _) => data
      case SendV(iov, _) => Join(iov)
      case Flush(_) => []
    }

    function Outcome(buffered: nat, cap: nat): (s: Sent)
      requires buffered <= cap
      ensures s.taken <= s.kept <= |Data()|
    {
      match this
      case Send(data, k) => SendOutcome(|data|, buffered, cap, k)
      case SendV(iov, k) => SendVOutcome(iov, buffered, cap, k)
      case Flush(k) => Sent(0, 0, FlushReturn(buffered, k))
    }
  }

  function Perform(o: Out, cap: nat, c: Call): Out
    requires |o.buf| <= cap
  {
    if c.Flush? then
      var n := FlushTaken(|o.buf|, c.k);
      Out(o.wire + o.buf[..n], o.buf[n..])
    else Deliver(o, c.Data(), c.Outcome(|o.buf|, cap))
  }

  /** What the call adds to the stream for good. */
  function Contribution(o: Out, cap: nat, c: Call): Bytes
    requires |o.buf| <= cap
  {
    c.Data()[..c.Outcome(|o.buf|, cap).kept]
  }

  /**
   One call keeps the buffer within capacity, never takes a byte back from the wire, and appends exactly
   its contribution to `wire + buf`: bytes already queued are neither lost, repeated nor overtaken.
   */
  lemma PerformConserves(o: Out, cap: nat, c: Call)
    requires |o.buf| <= cap
    ensures |Perform(o, cap, c).buf| <= cap
    ensures o.wire <= Perform(o, cap, c).wire
    ensures Perform(o, cap, c).All() == o.All() + Contribution(o, cap, c)
  {
    if c.Flush? {
      var n := FlushTaken(|o.buf|, c.k);
      assert o.buf[..n] + o.buf[n..] == o.buf;
      AppendAssociates(o.wire, o.buf[..n], o.buf[n..]);
      assert Contribution(o, cap, c) == [];
    } else {
      var s := c.Outcome(|o.buf|, cap);
      assert s.taken > 0 ==> o.buf == [];
      DeliverAppends(o, c.Data(), s);
    }
  }

  lemma DeliverAppends(o: Out, d: Bytes, s: Sent)
    requires s.taken <= s.kept <= |d| && (s.taken > 0 ==> o.buf == [])
    ensures Deliver(o, d, s).All() == o.All() + d[..s.kept]
  {
    var a, b := d[..s.taken], d[s.taken..s.kept];
    assert d[..s.kept] == a + b;
    if s.taken == 0 {
      assert o.wire + a == o.wire && a + b == b;
      AppendAssociates(o.wire, o.buf, b);
    } else {
      assert o.buf + b == b && o.wire + o.buf == o.wire;
      AppendAssociates(o.wire, a, b);
    }
  }

  ghost function Run(o: Out, cap: nat, calls: seq<Call>): Out
    requires |o.buf| <= cap
    decreases |calls|
  {
    if calls == [] then o
    else
      PerformConserves(o, cap, calls[0]);
      Run(Perform(o, cap, calls[0]), cap, calls[1..])
  }

  ghost function Contributions(o: Out, cap: nat, calls: seq<Call>): (cs: seq<Bytes>)
    requires |o.buf| <= cap
    ensures |cs| == |calls| && forall i :: 0 <= i < |calls| ==> cs[i] <= calls[i].Data()
    decreases |calls|
  {
    if calls == [] then []
    else
      PerformConserves(o, cap, calls[0]);
      [Contribution(o, cap, calls[0])] + Contributions(Perform(o, cap, calls[0]), cap, calls[1..])
  }

  /**
   Conservation over whole runs: whatever the kernel answers and however the two threads' calls
   interleave, `wire + buf` is the concatenation, in lock order, of one prefix of each call's data.
   */
  lemma {:induction false} RunConserves(o: Out, cap: nat, calls: seq<Call>)
    requires |o.buf| <= cap
    ensures var cs := Contributions(o, cap, calls);
            && Run(o, cap, calls).All() == o.All() + Join(cs)
            && (forall i :: 0 <= i < |calls| ==> cs[i] <= calls[i].Data())
    ensures |Run(o, cap, calls).buf| <= cap
    ensures o.wire <= Run(o, cap, calls).wire
    decreases |calls|
  {
    if calls == [] {
      assert o.All() + [] == o.All();
    } else {
      PerformConserves(o, cap, calls[0]);
      var p := Perform(o, cap, calls[0]);
      RunConserves(p, cap, calls[1..]);
      var c, cs := Contribution(o, cap, calls[0]), Contributions(p, cap, calls[1..]);
      assert Contributions(o, cap, calls) == [c] + cs && ([c] + cs)[1..] == cs;
      AppendAssociates(o.All(), c, Join(cs));
    }
  }

  // ----- Flushing -----

  /** A flush sends the first bytes of the queue, as many as the kernel has room for, and returns how many. */
  lemma FlushSends(o: Out, cap: nat, n: nat)
    requires |o.buf| <= cap
    ensures var t := Perform(o, cap, Flush(Room(n)));
            && t.wire + t.buf == o.wire + o.buf
            && FlushReturn(|o.buf|, Room(n)) == |t.wire| - |o.wire|
            && (if n < |o.buf| then t.wire == o.wire + o.buf[..n] && t.buf == o.buf[n..]
                else t.wire == o.wire + o.buf && t.buf == [])
            && (n > 0 && o.buf != [] ==> |o.wire| < |t.wire| && (t.buf == [] || |t.wire| == |o.wire| + n))
  {
    PerformConserves(o, cap, Flush(Room(n)));
    assert Contribution(o, cap, Flush(Room(n))) == [];
    assert o.buf[..|o.buf|] == o.buf;
  }

  /** A flush that fails hard sends nothing, and says so unless there was nothing to send. */
  lemma FlushFails(o: Out, cap: nat)
    requires |o.buf| <= cap
    ensures Perform(o, cap, Flush(Failed)) == o
    ensures FlushReturn(|o.buf|, Failed) == if o.buf == [] then 0 else -1
  {
  }

  function Flushes(ns: seq<nat>): seq<Call> {
    seq(|ns|, i requires 0 <= i < |ns| => Flush(Room(ns[i])))
  }

  function Sum(ns: seq<nat>): nat {
    if ns == [] then 0 else ns[0] + Sum(ns[1..])
  }

  /** Whatever the kernel takes at a time, the queue drains from its front: it is empty once enough has been taken. */
  lemma {:induction false} FlushesDrain(o: Out, cap: nat, ns: seq<nat>)
    requires |o.buf| <= cap
    ensures var t := Run(o, cap, Flushes(ns));
            if Sum(ns) < |o.buf| then t.wire == o.wire + o.buf[..Sum(ns)] && t.buf == o.buf[Sum(ns)..]
            else t.wire == o.wire + o.buf && t.buf == []
    decreases |ns|
  {
    hide Perform;
    if ns == [] {
      assert Flushes(ns) == [];
      assert o.wire + o.buf[..0] == o.wire && o.buf[0..] == o.buf && o.wire + [] == o.wire;
    } else {
      assert Flushes(ns)[0] == Flush(Room(ns[0])) && Flushes(ns)[1..] == Flushes(ns[1..]);
      var n, m := ns[0], Sum(ns[1..]);
      FlushSends(o, cap, n);
      PerformConserves(o, cap, Flush(Room(n)));
      var t := Perform(o, cap, Flush(Room(n)));
      FlushesDrain(t, cap, ns[1..]);
      if n < |o.buf| {
        assert o.buf == o.buf[..n] + o.buf[n..];
        AppendAssociates(o.wire, o.buf[..n], o.buf[n..]);
        if n + m < |o.buf| {
          assert o.buf[..n + m] == o.buf[..n] + o.buf[n..][..m] && o.buf[n..][m..] == o.buf[n + m..];
          AppendAssociates(o.wire, o.buf[..n], o.buf[n..][..m]);
        }
      }
    }
  }

  // ----- Which calls tear their data -----

  /** The call put some of its data into the stream, but not all of it. */
  predicate Torn(total: nat, s: Sent) {
    0 < s.kept < total
  }

  /** A response is torn exactly when the kernel takes part of it and the rest exceeds an empty buffer. */
  lemma SendTornExactly(total: nat, buffered: nat, cap: nat, k: Kernel)
    requires buffered <= cap
    ensures Torn(total, SendOutcome(total, buffered, cap, k))
            <==> buffered == 0 && k.Room? && 0 < k.bytes < total && cap < total - k.bytes
  {
  }

  /** The two vectors of an interleaved frame: what reaches the stream, case by case. */
  lemma FrameOutcome(h: Bytes, p: Bytes, buffered: nat, cap: nat, k: Kernel)
    requires |h| > 0 && |p| > 0 && buffered <= cap
    ensures Join([h, p]) == h + p
    ensures var s := SendVOutcome([h, p], buffered, cap, k);
            var total := |h| + |p|;
            s == if buffered == 0 && k.Failed? then Sent(0, 0, -1)
                 else if buffered == 0 && k.bytes >= total then Sent(total, total, total)
                 else if buffered == 0 && k.bytes >= |h| then
                   if total - k.bytes <= cap then Sent(k.bytes, total, total) else Sent(k.bytes, k.bytes, k.bytes)
                 else if buffered == 0 && k.bytes > 0 then
                   if total - k.bytes <= cap then Sent(k.bytes, total, total)
                   else if |h| - k.bytes <= cap then Sent(k.bytes, |h|, k.bytes)
                   else Sent(k.bytes, k.bytes, k.bytes)
                 else if total <= cap - buffered then Sent(0, total, total)
                 else if |h| <= cap - buffered then Sent(0, |h|, -1)
                 else Sent(0, 0, -1)
  {
    JoinTwo(h, p);
    if buffered == 0 && k.Room? && 0 < k.bytes < |h| + |p| {
      StoreRestTwo(h, p, k.bytes, cap);
    } else {
      StoreNonEmptyTwo(h, p, cap - buffered);
    }
  }

  lemma StoreRestTwo(h: Bytes, p: Bytes, skip: nat, room: nat)
    requires |p| > 0 && skip < |h| + |p|
    ensures Join([h, p]) == h + p
    ensures StoreRest([h, p], skip, room)
         == if |h| + |p| - skip <= room then (|h| + |p| - skip, true)
            else if skip < |h| && |h| - skip <= room then (|h| - skip, false)
            else (0, false)
  {
    JoinTwo(h, p);
    assert [h, p][1..] == [p] && [p][1..] == [];
    if skip < |h| {
      if |h| - skip <= room {
        assert StoreAll([p], room - (|h| - skip)).1 == (|p| <= room - (|h| - skip));
      }
    } else {
      assert StoreRest([p], skip - |h|, room).1 == (|h| + |p| - skip <= room);
    }
  }

  lemma StoreNonEmptyTwo(h: Bytes, p: Bytes, room: nat)
    requires |h| > 0 && |p| > 0
    ensures StoreNonEmpty([h, p], room)
         == if |h| + |p| <= room then (|h| + |p|, true)
            else if |h| <= room then (|h|, false)
            else (0, false)
  {
    assert [h, p][1..] == [p] && [p][1..] == [];
    if |h| <= room {
      assert StoreNonEmpty([p], room - |h|).1 == (|p| <= room - |h|);
    }
  }

  /**
   A frame is torn in two ways only: its vectors go to the buffer one by one and the header fits but not both;
   or the kernel takes part of it and an empty buffer has no room for the rest.
   */
  lemma FrameTornExactly(h: Bytes, p: Bytes, buffered: nat, cap: nat, k: Kernel)
    requires |h| > 0 && |p| > 0 && buffered <= cap
    ensures Torn(|h| + |p|, SendVOutcome([h, p], buffered, cap, k))
            <==> || ((buffered > 0 || k == Room(0)) && |h| <= cap - buffered < |h| + |p|)
                 || (buffered == 0 && k.Room? && 0 < k.bytes < |h| + |p| && cap < |h| + |p| - k.bytes)
  {
    FrameOutcome(h, p, buffered, cap, k);
  }

  /** Nonempty vectors: the skip loop buffers exactly the unsent suffix whenever it fits. */
  lemma {:induction false} SkipLoopKeepsSuffix(iov: seq<Bytes>, skip: nat, room: nat)
    requires [] !in iov && skip <= |Join(iov)|
    ensures StoreRest(iov, skip, room).1 <==> |Join(iov)| - skip <= room
    ensures |Join(iov)| - skip <= room ==> StoreRest(iov, skip, room).0 == |Join(iov)| - skip
  {
    if iov != [] {
      if skip < |iov[0]| {
        if |iov[0]| - skip <= room {
          StoreAllFits(iov[1..], room - (|iov[0]| - skip));
        }
      } else {
        SkipLoopKeepsSuffix(iov[1..], skip - |iov[0]|, room);
      }
    }
  }

  lemma {:induction false} StoreAllFits(iov: seq<Bytes>, room: nat)
    requires [] !in iov
    ensures StoreAll(iov, room).1 <==> |Join(iov)| <= room
  {
    if iov != [] && |iov[0]| <= room {
      assert iov[0] in iov;
      StoreAllFits(iov[1..], room - |iov[0]|);
    }
  }
}

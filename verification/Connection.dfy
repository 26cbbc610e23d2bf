/**
 A client connection: src/net/connection.cc and src/net/connection.h.  The bytes the kernel has taken are
 the ghost field `wire`; each sending method is proved against its outcome function in `Transport`.
 */
module Connections {
  import opened Bytes
  import opened FdGuards
  import opened RingBuffers
  import opened Transport

  /** What `recv` answers: bytes (as many as asked for at most), nothing yet, end of stream, or an error. */
  datatype Arrival = Arrived(bytes: Bytes) | NothingYet | PeerClosed | RecvFailed

  /** Length of the run of failures that ends a history of forward results. */
  function TrailingFailures(history: seq<bool>): (n: nat)
    ensures n <= |history|
  {
    if history == [] || history[|history| - 1] then 0
    else 1 + TrailingFailures(history[..|history| - 1])
  }

  /** `TrailingFailures` is the least run: everything in it failed, and it is preceded by a success or by nothing. */
  lemma {:induction false} TrailingFailuresExact(history: seq<bool>)
    ensures var n := TrailingFailures(history);
            && (forall i :: |history| - n <= i < |history| ==> !history[i])
            && (n < |history| ==> history[|history| - n - 1])
  {
    if history != [] && !history[|history| - 1] {
      TrailingFailuresExact(history[..|history| - 1]);
    }
  }

  /** The skip loop of `SendV`: buffers what a partial `writev` of `sent` bytes left over. */
  method BufferRemainder(buffer: RingBuffer, iov: seq<Bytes>, sent: nat) returns (ok: bool)
    requires buffer.Valid() && sent < |Join(iov)| && buffer.readable == 0
    modifies buffer, buffer.data
    ensures buffer.Valid()
    ensures var r := StoreRest(iov, sent, buffer.capacity);
            ok == r.1 && buffer.contents == Join(iov)[sent..sent + r.0]
  {
    ghost var all, cap := Join(iov), buffer.capacity;
    var skip: nat := sent;
    var i := 0;
    while i < |iov|
      invariant i <= |iov| && buffer.Valid() && buffer.readable == 0
      invariant Skipped(all, sent, skip, Join(iov[i..]))
      invariant StoreRest(iov, sent, cap) == StoreRest(iov[i..], skip, cap)
    {
      assert iov[i..][1..] == iov[i + 1..];
      SkippedMore(all, sent, skip, iov[i], Join(iov[i + 1..]));
      if skip < |iov[i]| {
        ok := BufferCut(buffer, iov[i][skip..], iov[i + 1..]);
        assert all[sent..sent + StoreRest(iov, sent, cap).0] == all[sent..][..StoreRest(iov, sent, cap).0];
        return ok;
      }
      skip := skip - |iov[i]|;
      i := i + 1;
    }
    return true;
  }

  /** Its body: the unsent end of the vector that was cut, then the vectors after it. */
  method BufferCut(buffer: RingBuffer, head: Bytes, tail: seq<Bytes>) returns (ok: bool)
    requires buffer.Valid() && |head| > 0 && buffer.readable == 0
    modifies buffer, buffer.data
    ensures buffer.Valid()
    ensures var r := if |head| > buffer.capacity then (0, false)
                     else var q := StoreAll(tail, buffer.capacity - |head|); (|head| + q.0, q.1);
            ok == r.1 && buffer.contents == (head + Join(tail))[..r.0]
  {
    ok := buffer.Write(head);
    if !ok {
      return false;
    }
    ok := BufferTail(buffer, tail);
  }

  /** Its inner loop: the vectors after the one that was cut, each written whole or not at all. */
  method BufferTail(buffer: RingBuffer, iov: seq<Bytes>) returns (ok: bool)
    requires buffer.Valid()
    modifies buffer, buffer.data
    ensures buffer.Valid()
    ensures var r := StoreAll(iov, old(buffer.WritableSize()));
            ok == r.1 && buffer.contents == old(buffer.contents) + Join(iov)[..r.0]
  {
    hide TrailingFailures, StoreAll, StoreRest, StoreNonEmpty, SendOutcome, RingBuffer.Valid, Join;
    ghost var all, before, room := Join(iov), buffer.contents, buffer.WritableSize();
    ghost var stored: nat := 0;
    var j := 0;
    StartsStored(iov, before);
    while j < |iov|
      invariant j <= |iov| && buffer.Valid() && stored <= room && buffer.WritableSize() == room - stored
      invariant Stored(all, before, buffer.contents, stored, Join(iov[j..]))
      invariant Continues(StoreAll(iov, room), stored, StoreAll(iov[j..], room - stored))
    {
      JoinSplit(iov, j);
      StoreAllStep(iov, j, room - stored);
      StoredMore(all, before, buffer.contents, stored, iov[j], Join(iov[j + 1..]));
      ok := buffer.Write(iov[j]);
      if !ok {
        return false;
      }
      stored := stored + |iov[j]|;
      j := j + 1;
    }
    StoreAllEnds(iov, room - stored);
    return true;
  }

  lemma StartsStored(iov: seq<Bytes>, before: Bytes)
    ensures iov[0..] == iov && Stored(Join(iov), before, before, 0, Join(iov))
  {
  }

  lemma StoreAllStep(iov: seq<Bytes>, j: nat, room: nat)
    requires j < |iov|
    ensures var r := StoreAll(iov[j..], room); var n := |iov[j]|;
            if 0 < n <= room then var q := StoreAll(iov[j + 1..], room - n); r == (n + q.0, q.1) else r == (0, false)
  {
    JoinSplit(iov, j);
  }

  lemma StoreAllEnds(iov: seq<Bytes>, room: nat)
    ensures StoreAll(iov[|iov|..], room) == (0, true)
  {
  }

  /** The fallback loop of `SendV`: nonempty vectors one by one behind the queued bytes. */
  method BufferVectors(buffer: RingBuffer, iov: seq<Bytes>) returns (ok: bool)
    requires buffer.Valid()
    modifies buffer, buffer.data
    ensures buffer.Valid()
    ensures var r := StoreNonEmpty(iov, old(buffer.WritableSize()));
            ok == r.1 && buffer.contents == old(buffer.contents) + Join(iov)[..r.0]
  {
    ghost var all, before, room := Join(iov), buffer.contents, buffer.WritableSize();
    ghost var stored: nat := 0;
    var i := 0;
    while i < |iov|
      invariant i <= |iov| && buffer.Valid() && stored <= room && buffer.WritableSize() == room - stored
      invariant Stored(all, before, buffer.contents, stored, Join(iov[i..]))
      invariant Continues(StoreNonEmpty(iov, room), stored, StoreNonEmpty(iov[i..], room - stored))
    {
      JoinSplit(iov, i);
      if |iov[i]| > 0 {
        StoredMore(all, before, buffer.contents, stored, iov[i], Join(iov[i + 1..]));
        ok := buffer.Write(iov[i]);
        if !ok {
          return false;
        }
        stored := stored + |iov[i]|;
      }
      i := i + 1;
    }
    return true;
  }

  class Connection {
    const guard: FdGuard
    const readBuffer: RingBuffer
    const writeBuffer: RingBuffer
    var consecutiveDrops: nat
    var totalDroppedPackets: nat
    ghost var wire: Bytes
    ghost var history: seq<bool>

    ghost predicate Valid()
      reads this, readBuffer, readBuffer.data, writeBuffer, writeBuffer.data
    {
      && readBuffer != writeBuffer && readBuffer.data != writeBuffer.data
      && readBuffer.Valid() && writeBuffer.Valid() && readBuffer.capacity == writeBuffer.capacity
      && consecutiveDrops == TrailingFailures(history)
    }

    ghost function Stream(): Out
      reads this, writeBuffer
    {
      Out(wire, writeBuffer.contents)
    }

    constructor (table: FdTable, fd: int, size: nat)
      ensures Valid() && guard.table == table && guard.fd == fd
      ensures fresh(guard) && fresh(readBuffer) && fresh(writeBuffer)
      ensures fresh(readBuffer.data) && fresh(writeBuffer.data)
      ensures readBuffer.contents == [] && readBuffer.readPos == 0 && Stream() == Out([], []) && history == []
      ensures readBuffer.capacity == writeBuffer.capacity == if size > 0 then size else 1
    {
      guard := new FdGuard(table, fd);
      readBuffer := new RingBuffer(size);
      writeBuffer := new RingBuffer(size);
      consecutiveDrops, totalDroppedPackets := 0, 0;
      wire, history := [], [];
    }

    predicate IsClosed()
      reads guard
    {
      !guard.IsValid()
    }

    predicate NeedFlush()
      reads writeBuffer
    {
      writeBuffer.ReadableSize() > 0
    }

    method Recv(arrival: Arrival) returns (ret: int)
      requires Valid()
      modifies readBuffer, readBuffer.data
      ensures Valid() && readBuffer.readPos == old(readBuffer.readPos)
      ensures ret > 0 <==> !IsClosed() && old(readBuffer.WritableSize()) > 0 && arrival.Arrived? && arrival.bytes != []
      ensures ret < 0 <==> !IsClosed() && (old(readBuffer.WritableSize()) == 0 || arrival.RecvFailed?)
      ensures ret > 0 ==> ret == Min(|arrival.bytes|, old(readBuffer.ContiguousWritableSize()))
      ensures readBuffer.contents == old(readBuffer.contents) + if ret > 0 then arrival.bytes[..ret] else []
    {
      if IsClosed() {
        return 0;
      }
      if readBuffer.WritableSize() == 0 {
        return -1;
      }
      var writable := readBuffer.ContiguousWritableSize();
      match arrival {
        case RecvFailed => ret := -1;
        case NothingYet => ret := 0;
        case PeerClosed => ret := 0;
        case Arrived(bytes) =>
          ret := Min(|bytes|, writable);
          if ret > 0 {
            readBuffer.WriteRaw(bytes[..ret]);
            readBuffer.Produce(ret);
          }
      }
    }

    method Send(data: Bytes, k: Kernel) returns (ret: int)
      requires Valid()
      modifies this`wire, writeBuffer, writeBuffer.data
      ensures Valid()
      ensures var s := if IsClosed() then Sent(0, 0, 0)
                       else SendOutcome(|data|, old(writeBuffer.readable), writeBuffer.capacity, k);
              Stream() == Deliver(old(Stream()), data, s) && ret == s.ret
    {
      if IsClosed() {
        return 0;
      }
      if |data| == 0 {
        return 0;
      }
      if writeBuffer.ReadableSize() == 0 {
        match k {
          case Failed =>
            return -1;
          case Room(bytes) =>
            var sent := Min(bytes, |data|);
            if sent > 0 {
              wire := wire + data[..sent];
              if sent < |data| {
                var ok := writeBuffer.Write(data[sent..]);
                if !ok {
                  return sent;
                }
              }
              return |data|;
            }
        }
      }
      var ok := writeBuffer.Write(data);
      if !ok {
        return -1;
      }
      return |data|;
    }

    method SendV(iov: seq<Bytes>, totalLen: nat, k: Kernel) returns (ret: int)
      requires Valid() && totalLen == |Join(iov)|
      modifies this`wire, writeBuffer, writeBuffer.data
      ensures Valid()
      ensures var s := if IsClosed() then Sent(0, 0, 0)
                       else SendVOutcome(iov, old(writeBuffer.readable), writeBuffer.capacity, k);
              Stream() == Deliver(old(Stream()), Join(iov), s) && ret == s.ret
    {
      hide StoreRest, StoreNonEmpty, TrailingFailures;
      if IsClosed() {
        return 0;
      }
      if |iov| == 0 || totalLen == 0 {
        return 0;
      }
      if writeBuffer.ReadableSize() == 0 {
        match k {
          case Failed =>
            return -1;
          case Room(bytes) =>
            var sent := Min(bytes, totalLen);
            if sent > 0 {
              wire := wire + Join(iov)[..sent];
              if sent < totalLen {
                var ok := BufferRemainder(writeBuffer, iov, sent);
                if !ok {
                  return sent;
                }
              }
              return totalLen;
            }
        }
      }
      var ok := BufferVectors(writeBuffer, iov);
      if !ok {
        return -1;
      }
      return totalLen;
    }

    method Flush(k: Kernel) returns (ret: int)
      requires Valid()
      modifies this`wire, writeBuffer
      ensures Valid() && Stream().All() == old(Stream().All())
      ensures IsClosed() ==> ret == 0 && Stream() == old(Stream())
      ensures !IsClosed() ==> Stream() == Perform(old(Stream()), writeBuffer.capacity, Call.Flush(k))
      ensures !IsClosed() ==> ret == FlushReturn(old(writeBuffer.readable), k)
      ensures !IsClosed() && k.Room? ==>
                wire == old(wire) + old(writeBuffer.contents)[..ret] && ret == Min(k.bytes, old(writeBuffer.readable))
    {
      if IsClosed() {
        return 0;
      }
      var iov := writeBuffer.GetReadableIoVec();
      if |iov| == 0 {
        return 0;
      }
      match k {
        case Failed =>
          return -1;
        case Room(bytes) =>
          var n := Min(bytes, writeBuffer.ReadableSize());
          PerformConserves(Stream(), writeBuffer.capacity, Call.Flush(k));
          wire := wire + Join(iov)[..n];
          writeBuffer.Consume(n);
          return n;
      }
    }

    method RecordDrop()
      requires Valid()
      modifies this`consecutiveDrops, this`totalDroppedPackets, this`history
      ensures Valid() && history == old(history) + [false]
      ensures totalDroppedPackets == old(totalDroppedPackets) + 1
    {
      consecutiveDrops := consecutiveDrops + 1;
      totalDroppedPackets := totalDroppedPackets + 1;
      history := history + [false];
      assert history[..|history| - 1] == old(history);
    }

    method RecordSuccess()
      requires Valid()
      modifies this`consecutiveDrops, this`history
      ensures Valid() && history == old(history) + [true] && consecutiveDrops == 0
    {
      consecutiveDrops := 0;
      history := history + [true];
    }

    /** Drops the first bytes of the read buffer. */
    method Consume(len: nat)
      requires Valid() && len <= readBuffer.readable
      modifies readBuffer
      ensures Valid() && readBuffer.contents == old(readBuffer.contents)[len..]
      ensures readBuffer.readPos == Wrap(old(readBuffer.readPos) + len, readBuffer.capacity)
    {
      readBuffer.Consume(len);
    }

    method Close(ghost family: set<FdGuard>)
      requires guard in family && SoleOwners(family, guard.table)
      modifies guard, guard.table
      ensures IsClosed() && guard.table.open == old(guard.table.open) - Owned(old(guard.fd))
      ensures SoleOwners(family, guard.table)
    {
      guard.Close(family);
    }
  }

  lemma JoinSplit(iov: seq<Bytes>, i: nat)
    requires i < |iov|
    ensures iov[i..] != [] && iov[i..][0] == iov[i] && iov[i..][1..] == iov[i + 1..]
    ensures Join(iov[i..]) == iov[i] + Join(iov[i + 1..])
    ensures iov[i] == [] ==> Join(iov[i..]) == Join(iov[i + 1..])
  {
    assert iov[i..][1..] == iov[i + 1..];
  }

  /** `rest` ends `all`, and skipping `skip` of it leaves what follows the first `sent` bytes of `all`. */
  ghost predicate Skipped(all: Bytes, sent: nat, skip: nat, rest: Bytes) {
    sent <= |all| && skip <= |rest| && all[sent..] == rest[skip..]
  }

  lemma SkippedMore(all: Bytes, sent: nat, skip: nat, next: Bytes, rest: Bytes)
    requires Skipped(all, sent, skip, next + rest)
    ensures if skip < |next| then all[sent..] == next[skip..] + rest else Skipped(all, sent, skip - |next|, rest)
  {
    if skip < |next| {
      assert (next + rest)[skip..] == next[skip..] + rest;
    } else {
      assert (next + rest)[skip..] == rest[skip - |next|..];
    }
  }

  /** Of `all`, the first `n` bytes are in the buffer behind `before`, and `rest` is still to come. */
  ghost predicate Stored(all: Bytes, before: Bytes, now: Bytes, n: nat, rest: Bytes) {
    n <= |all| && now == before + all[..n] && all[n..] == rest
  }

  ghost predicate Continues(whole: (nat, bool), done: nat, rest: (nat, bool)) {
    whole.0 == done + rest.0 && whole.1 == rest.1
  }

  lemma StoredMore(all: Bytes, before: Bytes, now: Bytes, n: nat, next: Bytes, rest: Bytes)
    requires Stored(all, before, now, n, next + rest)
    ensures Stored(all, before, now + next, n + |next|, rest)
  {
    assert all == all[..n] + all[n..];
    assert next == all[n..n + |next|];
    assert all[..n + |next|] == all[..n] + next;
  }
}

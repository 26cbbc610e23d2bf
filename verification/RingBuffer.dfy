/**
 The circular byte buffer of src/buffer/ring_buffer.cc, proved against a bounded FIFO of bytes.
 */
module RingBuffers {
  import opened Bytes

  /** Position `p` of a walk that has gone round the array at most once. */
  function Wrap(p: nat, c: nat): nat
    requires p < 2 * c
  {
    if p < c then p else p - c
  }

  /** The `n` bytes that start at physical position `r` of the circular array `a`. */
  function Circular(a: Bytes, r: nat, n: nat): (s: Bytes)
    requires r < |a| && n <= |a|
    ensures |s| == n && forall i :: 0 <= i < n ==> s[i] == a[Wrap(r + i, |a|)]
  {
    seq(n, i requires 0 <= i < n => a[Wrap(r + i, |a|)])
  }

  /** `Wrap` is the source's `% capacity_`. */
  lemma WrapIsMod(p: nat, c: nat)
    requires 0 < c && p < 2 * c
    ensures p % c == Wrap(p, c)
  {
    ModUnique(p, c, if p < c then 0 else 1, Wrap(p, c));
  }

  lemma ModUnique(p: int, c: nat, q: int, r: nat)
    requires r < c && p == q * c + r
    ensures p % c == r
  {
    var d := p / c - q;
    assert p == (p / c) * c + p % c;
    assert d * c == r - p % c;
    MultipleIsFar(d, c);
  }

  lemma MultipleIsFar(d: int, c: nat)
    ensures d != 0 ==> d * c >= c || d * c <= 0 - c
  {
    if d >= 1 {
      assert (d - 1) * c >= 0;
    } else if d <= -1 {
      assert (d + 1) * c <= 0;
    }
  }

  lemma AddMod(r: nat, m: nat, n: nat, c: nat)
    requires 0 < c
    ensures ((r + m) % c + n) % c == (r + m + n) % c
  {
    var q := (r + m) / c;
    var p := (r + m) % c + n;
    assert r + m + n == (p / c + q) * c + p % c;
    ModUnique(r + m + n, c, p / c + q, p % c);
  }

  /**
   The bytes behind the pointer that `GetReadBuffer` returns, for a request that starts at physical
   position `at`: past the end of the array they are not the request's.
   */
  function HandedOver(request: Bytes, at: nat, cap: nat, beyond: nat -> char): Bytes
    requires at <= cap
  {
    if at + |request| <= cap then request
    else request[..cap - at] + seq(at + |request| - cap, i requires 0 <= i => beyond(i))
  }

  /** What position `p` of an array of size `c` holds after `src` is written circularly from `w`. */
  function Written(before: char, w: nat, p: nat, c: nat, src: Bytes): char
    requires w <= c && p < c
  {
    var i := if w <= p then p - w else p + c - w;
    if i < |src| then src[i] else before
  }

  class RingBuffer {
    const capacity: nat
    const data: array<char>
    var readPos: nat
    var writePos: nat
    var readable: nat
    /** The abstract value: the readable bytes in FIFO order. */
    ghost var contents: Bytes

    ghost predicate Valid()
      reads this, data
    {
      && 0 < capacity == data.Length
      && readPos < capacity
      && readable <= capacity
      && writePos == Wrap(readPos + readable, capacity)
      && |contents| == readable
      && (forall i :: 0 <= i < readable ==> contents[i] == data[Wrap(readPos + i, capacity)])
    }

    constructor (size: nat)
      ensures Valid() && fresh(data)
      ensures capacity == (if size > 0 then size else 1) && contents == [] && readPos == 0
    {
      var n := if size > 0 then size else 1;
      capacity := n;
      data := new char[n];
      readPos, writePos, readable, contents := 0, 0, 0, [];
    }

    function ReadableSize(): nat
      reads this
    {
      readable
    }

    function WritableSize(): nat
      requires Valid()
      reads this, data
    {
      capacity - readable
    }

    function ContiguousWritableSize(): nat
      requires Valid()
      reads this, data
    {
      Min(WritableSize(), capacity - writePos)
    }

    function ContiguousReadableSize(): nat
      requires Valid()
      reads this, data
    {
      Min(readable, capacity - readPos)
    }

    /** `memcpy` into the array. */
    method CopyIn(at: nat, src: Bytes)
      requires at + |src| <= data.Length
      modifies data
      ensures forall p :: 0 <= p < data.Length ==>
                data[p] == if at <= p < at + |src| then src[p - at] else old(data[p])
    {
      forall i | 0 <= i < |src| {
        data[at + i] := src[i];
      }
    }

    /** The two `memcpy` calls of a write that runs past the end of the array, or the one of a write that does not. */
    method CopyWrapped(src: Bytes)
      requires Valid() && |src| <= capacity
      modifies data
      ensures forall p :: 0 <= p < capacity ==> data[p] == Written(old(data[p]), writePos, p, capacity, src)
    {
      if |src| > capacity - writePos {
        var firstPart := capacity - writePos;
        CopyIn(writePos, src[..firstPart]);
        CopyIn(0, src[firstPart..]);
      } else {
        CopyIn(writePos, src);
      }
    }

    /** All or nothing: either every byte is appended, or the buffer is unchanged. */
    method Write(src: Bytes) returns (ok: bool)
      requires Valid()
      modifies this, data
      ensures Valid() && readPos == old(readPos)
      ensures ok == (0 < |src| <= old(WritableSize()))
      ensures contents == if ok then old(contents) + src else old(contents)
      ensures readable == if ok then old(readable) + |src| else old(readable)
    {
      if |src| == 0 || |src| > WritableSize() {
        return false;
      }
      CopyWrapped(src);
      WrapIsMod(writePos + |src|, capacity);
      writePos := (writePos + |src|) % capacity;
      readable := readable + |src|;
      contents := contents + src;
      ok := true;
    }

    /** Copies out the first `size` bytes without consuming them. */
    method Peek(size: nat) returns (r: Option<Bytes>)
      requires Valid()
      ensures r == if 0 < size <= readable then Some(contents[..size]) else None
    {
      if size == 0 || size > readable {
        return None;
      }
      if size > capacity - readPos {
        var firstPart := capacity - readPos;
        r := Some(data[readPos..readPos + firstPart] + data[..size - firstPart]);
      } else {
        r := Some(data[readPos..readPos + size]);
      }
      assert r.value == contents[..size];
    }

    /** What a reader of `size` bytes at `ReadPtr` sees, `beyond` being the memory behind the array. */
    method ReadAtPointer(size: nat, beyond: nat -> char) returns (s: Bytes)
      requires Valid() && size <= readable
      ensures s == HandedOver(contents[..size], readPos, capacity, beyond)
    {
      if readPos + size <= capacity {
        s := data[readPos..readPos + size];
      } else {
        s := data[readPos..] + seq(readPos + size - capacity, i requires 0 <= i => beyond(i));
        assert data[readPos..] == contents[..capacity - readPos];
      }
    }

    /** Drops the first `size` bytes, or all of them when fewer are readable. */
    method Consume(size: nat)
      requires Valid()
      modifies this
      ensures Valid() && readPos == Wrap(old(readPos) + Min(size, old(readable)), capacity)
      ensures contents == old(contents)[Min(size, old(readable))..]
    {
      var n := Min(size, readable);
      WrapIsMod(readPos + n, capacity);
      readPos := (readPos + n) % capacity;
      readable := readable - n;
      contents := contents[n..];
    }

    /** A foreign write, such as the one `recv` makes, into the free run at `WritePtr`: not yet readable. */
    method WriteRaw(src: Bytes)
      requires Valid() && |src| <= ContiguousWritableSize()
      modifies data
      ensures Valid() && contents == old(contents)
      ensures data[writePos..writePos + |src|] == src
    {
      CopyIn(writePos, src);
    }

    /** Makes the next `size` bytes of the array readable, or as many as there is room for. */
    method Produce(size: nat)
      requires Valid()
      modifies this
      ensures Valid() && readPos == old(readPos)
      ensures contents == old(contents) + Circular(data[..], old(writePos), Min(size, old(WritableSize())))
    {
      var n := Min(size, WritableSize());
      WrapIsMod(writePos + n, capacity);
      contents := contents + Circular(data[..], writePos, n);
      writePos := (writePos + n) % capacity;
      readable := readable + n;
    }

    /** `memchr` on the array: the first of `n` bytes from physical position `at` that equals `c`. */
    method Memchr(at: nat, c: char, n: nat) returns (r: Option<nat>)
      requires at + n <= data.Length
      ensures r.Some? ==> r.value < n && data[at + r.value] == c && forall p :: at <= p < at + r.value ==> data[p] != c
      ensures r.None? ==> forall p :: at <= p < at + n ==> data[p] != c
    {
      for i := 0 to n
        invariant forall p :: at <= p < at + i ==> data[p] != c
      {
        if data[at + i] == c {
          return Some(i);
        }
      }
      return None;
    }

    /** Two-part search for one byte; `limit == 0` searches everything. */
    method FindChar(c: char, limit: nat) returns (r: Option<nat>)
      requires Valid()
      ensures r == Find(contents[..SearchLength(limit, readable)], [c])
    {
      if readable == 0 {
        return None;
      }
      var searchLen := SearchLength(limit, readable);
      var contiguous := ContiguousReadableSize();
      ghost var text := contents[..searchLen];
      assert forall i :: 0 <= i < searchLen ==> text[i] == data[Wrap(readPos + i, capacity)];
      r := Memchr(readPos, c, Min(searchLen, contiguous));
      if r.None? && searchLen > contiguous {
        var s := Memchr(0, c, searchLen - contiguous);
        if s.Some? {
          r := Some(contiguous + s.value);
        }
      }
      FindCharIs(text, c, r);
    }

    /** Search over the wrapped array, byte position by byte position. */
    method FindSubstring(sub: Bytes, limit: nat) returns (r: Option<nat>)
      requires Valid()
      ensures r == if sub == [] then None else Find(contents[..SearchLength(limit, readable)], sub)
    {
      if readable == 0 || |sub| == 0 {
        return None;
      }
      var searchLen := SearchLength(limit, readable);
      if searchLen < |sub| {
        return None;
      }
      ghost var text := contents[..searchLen];
      var i := 0;
      while i <= searchLen - |sub|
        invariant i <= searchLen - |sub| + 1
        invariant forall j: nat :: j < i ==> !MatchAt(text, sub, j)
      {
        var matched := MatchesAt(i, sub);
        assert text + contents[searchLen..] == contents;
        MatchInPrefix(text, contents[searchLen..], sub, i);
        if matched {
          FindIs(text, sub, i);
          return Some(i);
        }
        i := i + 1;
      }
      return None;
    }

    /** Its inner loop: compares `sub` with the bytes at logical offset `i`, stopping at the first difference. */
    method MatchesAt(i: nat, sub: Bytes) returns (matched: bool)
      requires Valid() && i + |sub| <= readable
      ensures matched == MatchAt(contents, sub, i)
    {
      ghost var text := contents;
      var pos := (readPos + i) % capacity;
      var j := 0;
      while j < |sub|
        invariant j <= |sub|
        invariant forall k :: 0 <= k < j ==> text[i + k] == sub[k]
      {
        AddMod(readPos, i, j, capacity);
        WrapIsMod(readPos + i + j, capacity);
        if data[(pos + j) % capacity] != sub[j] {
          assert text[i..i + |sub|][j] != sub[j];
          return false;
        }
        j := j + 1;
      }
      assert text[i..i + |sub|] == sub;
      return true;
    }

    /** The one or two array segments handed to `writev`; joined they are the whole contents. */
    method GetReadableIoVec() returns (iov: seq<Bytes>)
      requires Valid()
      ensures Join(iov) == contents && [] !in iov
      ensures |iov| == if readable == 0 then 0 else if readPos + readable <= capacity then 1 else 2
    {
      if readable == 0 {
        return [];
      }
      var contiguous := ContiguousReadableSize();
      var first := data[readPos..readPos + contiguous];
      var remaining := readable - contiguous;
      if remaining > 0 {
        iov := [first, data[..remaining]];
        JoinTwo(first, data[..remaining]);
      } else {
        iov := [first];
        JoinOne(first);
      }
    }
  }

  lemma FindCharIs(text: Bytes, c: char, r: Option<nat>)
    requires r.Some? ==> r.value < |text| && text[r.value] == c && forall i :: 0 <= i < r.value ==> text[i] != c
    requires r.None? ==> forall i :: 0 <= i < |text| ==> text[i] != c
    ensures r == Find(text, [c])
  {
    forall j: nat ensures MatchAt(text, [c], j) <==> j < |text| && text[j] == c {
      CharMatch(text, c, j);
    }
    if r.Some? {
      FindIs(text, [c], r.value);
    }
  }

  function SearchLength(limit: nat, readable: nat): nat {
    if limit > 0 then Min(limit, readable) else readable
  }
}

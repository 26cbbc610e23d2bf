/**
 Byte strings and the searches on them that the buffer, the demultiplexer and the parser share.

 The source handles raw bytes and text through the same `char` arrays.  Here a byte is the `char` with
 its value, so that literals such as "\r\n" are byte strings too.  The characters below 256 are the real bytes; all
 laws hold for strings of any characters.  `ByteValue` reads a byte back as a number.
 */
module Bytes {
  type Bytes = seq<char>

  datatype Option<+T> = None | Some(value: T)

  const CRLF: Bytes := "\r\n"
  const BLANK_LINE: Bytes := "\r\n\r\n"

  function ByteValue(c: char): (v: nat)
    ensures v < 256
  {
    c as int % 256
  }

  function Min(a: nat, b: nat): nat {
    if a < b then a else b
  }

  // ----- Searching -----

  predicate MatchAt(s: Bytes, p: Bytes, i: nat) {
    i + |p| <= |s| && s[i..i + |p|] == p
  }

  /** The least offset at which `p` occurs in `s`, as `std::string::find` defines it. */
  function Find(s: Bytes, p: Bytes): (r: Option<nat>)
    ensures r.Some? ==> MatchAt(s, p, r.value) && forall j: nat :: j < r.value ==> !MatchAt(s, p, j)
    ensures r.None? ==> forall j: nat :: !MatchAt(s, p, j)
  {
    FindFrom(s, p, 0)
  }

  function FindFrom(s: Bytes, p: Bytes, i: nat): (r: Option<nat>)
    ensures r.Some? ==> i <= r.value && MatchAt(s, p, r.value)
    ensures r.Some? ==> forall j: nat :: i <= j < r.value ==> !MatchAt(s, p, j)
    ensures r.None? ==> forall j: nat :: i <= j ==> !MatchAt(s, p, j)
    decreases |s| - i
  {
    if |s| < i + |p| then None
    else if MatchAt(s, p, i) then Some(i)
    else if |s| <= i then None
    else FindFrom(s, p, i + 1)
  }

  /** A first match stays the first match whatever bytes follow. */
  lemma FindIsStable(a: Bytes, b: Bytes, p: Bytes)
    requires Find(a, p).Some?
    ensures Find(a + b, p) == Find(a, p)
  {
    var i := Find(a, p).value;
    MatchInPrefix(a, b, p, i);
    forall j: nat | j < i ensures !MatchAt(a + b, p, j) {
      MatchInPrefix(a, b, p, j);
    }
  }

  lemma MatchInPrefix(a: Bytes, b: Bytes, p: Bytes, i: nat)
    requires i + |p| <= |a|
    ensures MatchAt(a + b, p, i) == MatchAt(a, p, i)
  {
    assert (a + b)[i..i + |p|] == a[i..i + |p|];
  }

  lemma FindIs(s: Bytes, p: Bytes, i: nat)
    requires MatchAt(s, p, i) && forall j: nat :: j < i ==> !MatchAt(s, p, j)
    ensures Find(s, p) == Some(i)
  {
  }

  lemma CharMatch(s: Bytes, c: char, i: nat)
    ensures MatchAt(s, [c], i) <==> i < |s| && s[i] == c
  {
    if i < |s| {
      assert s[i..i + 1] == [s[i]];
    }
  }

  // ----- Concatenation -----

  lemma AppendAssociates(a: Bytes, b: Bytes, c: Bytes)
    ensures (a + b) + c == a + (b + c)
  {
  }

  function Join(parts: seq<Bytes>): Bytes {
    if parts == [] then [] else parts[0] + Join(parts[1..])
  }

  lemma JoinOne(a: Bytes)
    ensures Join([a]) == a
  {
    assert Join([a]) == a + Join([]);
  }

  lemma JoinTwo(a: Bytes, b: Bytes)
    ensures Join([a, b]) == a + b
  {
    assert [a, b][1..] == [b];
    JoinOne(b);
  }
}

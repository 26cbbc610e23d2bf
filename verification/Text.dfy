/**
 The C library's text primitives as the protocol code uses them: `isspace`, `tolower`, `std::to_string`
 and `strtol`, on ASCII.
 */
module Text {
  predicate IsSpace(c: char) {
    c == ' ' || 9 as char <= c <= 13 as char
  }

  predicate IsDigit(c: char) {
    '0' <= c <= '9'
  }

  // ----- Trimming -----

  function TrimLeft(s: string): string {
    if s != [] && IsSpace(s[0]) then TrimLeft(s[1..]) else s
  }

  function TrimRight(s: string): string {
    if s != [] && IsSpace(s[|s| - 1]) then TrimRight(s[..|s| - 1]) else s
  }

  /** As src/protocol/rtsp_parser.cc:14-21. */
  function Trim(s: string): string {
    TrimRight(TrimLeft(s))
  }

  predicate Trimmed(s: string) {
    s == [] || (!IsSpace(s[0]) && !IsSpace(s[|s| - 1]))
  }

  /** `Trim` returns a trimmed string, and changes no trimmed one: a blank put before it is all it removes. */
  lemma TrimExactly(s: string)
    ensures Trimmed(Trim(s))
    ensures Trim(s) == s <==> Trimmed(s)
    ensures Trim(" " + s) == s <==> Trimmed(s)
  {
    TrimLeftStarts(s);
    TrimLeftStarts(" " + s);
    TrimRightEnds(TrimLeft(s));
    TrimRightEnds(TrimLeft(" " + s));
    assert (" " + s)[1..] == s;
  }

  lemma {:induction false} TrimLeftStarts(s: string)
    ensures var t := TrimLeft(s); t == [] || !IsSpace(t[0])
  {
    if s != [] && IsSpace(s[0]) {
      TrimLeftStarts(s[1..]);
    }
  }

  lemma {:induction false} TrimRightEnds(s: string)
    ensures var t := TrimRight(s); t <= s && (t == [] || !IsSpace(t[|t| - 1]))
  {
    if s != [] && IsSpace(s[|s| - 1]) {
      TrimRightEnds(s[..|s| - 1]);
    }
  }

  // ----- Lower case -----

  function LowerChar(c: char): char {
    if 'A' <= c <= 'Z' then (c as int + 32) as char else c
  }

  function Lower(s: string): (t: string)
    ensures |t| == |s| && forall i :: 0 <= i < |s| ==> t[i] == LowerChar(s[i])
  {
    seq(|s|, i requires 0 <= i < |s| => LowerChar(s[i]))
  }

  // ----- Decimal numbers -----

  function DigitChar(d: nat): (c: char)
    requires d < 10
    ensures IsDigit(c) && DigitValue(c) == d
  {
    ('0' as int + d) as char
  }

  function DigitValue(c: char): nat
    requires IsDigit(c)
  {
    c as int - '0' as int
  }

  predicate AllDigits(s: string) {
    forall i :: 0 <= i < |s| ==> IsDigit(s[i])
  }

  function Digits(n: nat): (s: string)
    ensures s != [] && AllDigits(s)
  {
    if n < 10 then [DigitChar(n)] else Digits(n / 10) + [DigitChar(n % 10)]
  }

  function NatOf(s: string): nat
    requires AllDigits(s)
  {
    if s == [] then 0 else NatOf(s[..|s| - 1]) * 10 + DigitValue(s[|s| - 1])
  }

  lemma {:induction false} NatOfDigits(n: nat)
    ensures NatOf(Digits(n)) == n
  {
    if n < 10 {
      assert Digits(n)[..0] == [];
    } else {
      NatOfDigits(n / 10);
      assert Digits(n)[..|Digits(n)| - 1] == Digits(n / 10);
    }
  }

  /** `std::to_string`. */
  function ToString(n: int): (s: string)
    ensures s != []
    ensures forall i :: 0 <= i < |s| ==> IsDigit(s[i]) || s[i] == '-'
    ensures Trimmed(s) && '\n' !in s
  {
    if n < 0 then "-" + Digits(-n) else Digits(n)
  }

  const INT_BOUND := 0x8000_0000
  const LONG_BOUND := 0x8000_0000_0000_0000

  predicate IsInt(n: int) {
    -INT_BOUND <= n < INT_BOUND
  }

  /** `static_cast<int>` of a 64-bit `long`. */
  function ToInt(v: int): (n: int)
    ensures IsInt(n) && (IsInt(v) ==> n == v)
  {
    (v + INT_BOUND) % (2 * INT_BOUND) - INT_BOUND
  }

  function ClampLong(v: int): int {
    if v < -LONG_BOUND then -LONG_BOUND else if v >= LONG_BOUND then LONG_BOUND - 1 else v
  }

  /** The character at `i` of `s.c_str()`: the terminator stands after the last one. */
  function CharAt(s: string, i: nat): char {
    if i < |s| then s[i] else '\0'
  }

  function SpacesEnd(s: string, i: nat): (e: nat)
    ensures i <= e && (i <= |s| ==> e <= |s|)
    decreases |s| - i
  {
    if i < |s| && IsSpace(s[i]) then SpacesEnd(s, i + 1) else i
  }

  function DigitsEnd(s: string, i: nat): (e: nat)
    requires i <= |s|
    ensures i <= e <= |s| && AllDigits(s[i..e]) && (e < |s| ==> !IsDigit(s[e]))
    decreases |s| - i
  {
    if i < |s| && IsDigit(s[i]) then
      var e := DigitsEnd(s, i + 1);
      assert s[i..e] == [s[i]] + s[i + 1..e];
      e
    else i
  }

  /** `strtol(s.c_str() + i, &end, 10)`: the value, and `end` as an index, which stays at `i` without digits. */
  function Strtol(s: string, i: nat): (r: (int, nat))
    requires i <= |s|
    ensures i <= r.1 <= |s|
  {
    var p := SpacesEnd(s, i);
    var q := if CharAt(s, p) == '-' || CharAt(s, p) == '+' then p + 1 else p;
    var e := DigitsEnd(s, q);
    if e == q then (0, i)
    else
      var n := NatOf(s[q..e]);
      (ClampLong(if CharAt(s, p) == '-' then 0 - n else n), e)
  }

  /** Reading back a printed number: `Strtol` returns it and stops right behind it. */
  lemma StrtolReadsBack(s: string, i: nat, n: int)
    requires IsInt(n)
    requires i + |ToString(n)| <= |s| && s[i..i + |ToString(n)|] == ToString(n)
    requires i + |ToString(n)| < |s| ==> !IsDigit(s[i + |ToString(n)|])
    ensures Strtol(s, i) == (n, i + |ToString(n)|)
  {
    hide Strtol;
    var t := ToString(n);
    var q, m: nat := if n < 0 then i + 1 else i, if n < 0 then -n else n;
    assert s[i] == s[i..i + |t|][0] == t[0];
    assert t[q - i..] == Digits(m);
    assert s[q..i + |t|] == s[i..i + |t|][q - i..];
    assert s[q] == Digits(m)[0];
    DigitsEndIs(s, q, i + |t|);
    NatOfDigits(m);
    StrtolSteps(s, i, q, i + |t|, n < 0);
  }

  /** `Strtol` on a run of digits behind an optional minus sign. */
  lemma StrtolSteps(s: string, i: nat, q: nat, e: nat, minus: bool)
    requires i <= q < e <= |s| && IsDigit(s[q]) && DigitsEnd(s, q) == e
    requires if minus then q == i + 1 && s[i] == '-' else q == i
    ensures AllDigits(s[q..e])
    ensures Strtol(s, i) == (ClampLong(if minus then 0 - NatOf(s[q..e]) else NatOf(s[q..e])), e)
  {
    assert SpacesEnd(s, i) == i;
  }

  lemma {:induction false} SpacesEndIs(s: string, i: nat, p: nat)
    requires i <= p < |s| && !IsSpace(s[p]) && forall j :: i <= j < p ==> IsSpace(s[j])
    ensures SpacesEnd(s, i) == p
    decreases p - i
  {
    if i < p {
      SpacesEndIs(s, i + 1, p);
    }
  }

  /**
   `strtol` in general: blanks, an optional sign, digits up to the first other character; the value is the decimal
   number, held within 64 bits.
   */
  lemma StrtolReads(s: string, i: nat, p: nat, sign: string, e: nat)
    requires i <= p < |s| && (forall j :: i <= j < p ==> IsSpace(s[j])) && sign in {"", "+", "-"}
    requires p + |sign| < e <= |s| && s[p..p + |sign|] == sign
    requires AllDigits(s[p + |sign|..e]) && (e < |s| ==> !IsDigit(s[e]))
    ensures var n := NatOf(s[p + |sign|..e]); var v := if sign == "-" then 0 - n else n;
            && Strtol(s, i).1 == e
            && (-9223372036854775808 <= v <= 9223372036854775807 ==> Strtol(s, i).0 == v)
            && (v > 9223372036854775807 ==> Strtol(s, i).0 == 9223372036854775807)
            && (v < -9223372036854775808 ==> Strtol(s, i).0 == -9223372036854775808)
  {
    hide NatOf;
    var q := p + |sign|;
    assert IsDigit(s[q..e][0]) && s[q] == s[q..e][0];
    if sign != "" { assert s[p] == s[p..q][0] == sign[0]; }
    SpacesEndIs(s, i, p);
    DigitsEndIs(s, q, e);
  }

  /** Without digits behind the blanks and the sign, nothing is read. */
  lemma StrtolReadsNothing(s: string, i: nat)
    requires i <= |s| && (SpacesEnd(s, i) < |s| ==> s[SpacesEnd(s, i)] !in {'+', '-'} && !IsDigit(s[SpacesEnd(s, i)]))
    ensures Strtol(s, i) == (0, i)
  {
  }

  /** The cast to `int` keeps the low 32 bits. */
  lemma ToIntKeepsLowBits(v: int)
    ensures (ToInt(v) - v) % 0x1_0000_0000 == 0
  {
  }

  lemma {:induction false} DigitsEndIs(s: string, i: nat, e: nat)
    requires i <= e <= |s| && AllDigits(s[i..e]) && (e < |s| ==> !IsDigit(s[e]))
    ensures DigitsEnd(s, i) == e
    decreases e - i
  {
    if i < e {
      assert IsDigit(s[i..e][0]);
      assert s[i + 1..e] == s[i..e][1..];
      DigitsEndIs(s, i + 1, e);
    }
  }
}

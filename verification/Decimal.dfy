/**
 Decimal text of integers, and the number at the start of a text the way the C
 library's strtol family reads it: white space, an optional sign, digits.
 */
module Decimal {

  predicate IsDigit(c: char) {
    '0' <= c <= '9'
  }

  predicate AllDigits(s: string) {
    forall i :: 0 <= i < |s| ==> IsDigit(s[i])
  }

  function DigitChar(d: nat): (c: char)
    requires d < 10
    ensures IsDigit(c) && c as int - '0' as int == d
  {
    '0' + d as char
  }

  /** Decimal digits of `n`, without leading zeros. */
  function NatText(n: nat): (s: string)
    ensures s != [] && AllDigits(s)
  {
    if n < 10 then [DigitChar(n)] else NatText(n / 10) + [DigitChar(n % 10)]
  }

  function IntText(n: int): (s: string)
    ensures s != []
  {
    if n < 0 then "-" + NatText(-n) else NatText(n)
  }

  function NatOf(s: string): nat
    requires AllDigits(s)
  {
    if s == [] then 0 else 10 * NatOf(s[..|s| - 1]) + (s[|s| - 1] as int - '0' as int)
  }

  lemma {:induction false} NatOfText(n: nat)
    ensures NatOf(NatText(n)) == n
  {
    if n >= 10 {
      NatOfText(n / 10);
      assert NatText(n)[..|NatText(n)| - 1] == NatText(n / 10);
    }
  }

  /** The length of the run of digits at the start. */
  function DigitRun(s: string): (k: nat)
    ensures k <= |s| && AllDigits(s[..k])
    ensures k < |s| ==> !IsDigit(s[k])
  {
    if s == [] || !IsDigit(s[0]) then 0 else 1 + DigitRun(s[1..])
  }

  predicate IsSpace(c: char) {
    c == ' ' || '\t' <= c <= '\r'
  }

  function SkipSpaces(s: string): string {
    if s != [] && IsSpace(s[0]) then SkipSpaces(s[1..]) else s
  }

  /** `found` is false when there is no digit to read. */
  datatype Number = Number(found: bool, value: int, rest: string)

  function Unsigned(s: string): Number {
    var k := DigitRun(s);
    Number(k > 0, NatOf(s[..k]), s[k..])
  }

  function Scan(s: string): Number {
    var t := SkipSpaces(s);
    if t != [] && t[0] == '-' then var n := Unsigned(t[1..]); n.(value := -n.value)
    else if t != [] && t[0] == '+' then Unsigned(t[1..])
    else Unsigned(t)
  }

  lemma {:induction false} DigitRunAppend(d: string, rest: string)
    requires AllDigits(d) && (rest == [] || !IsDigit(rest[0]))
    ensures DigitRun(d + rest) == |d|
  {
    if d == [] {
      assert d + rest == rest;
    } else {
      assert (d + rest)[1..] == d[1..] + rest;
      DigitRunAppend(d[1..], rest);
    }
  }

  lemma {:induction false} UnsignedText(d: string, rest: string)
    requires d != [] && AllDigits(d) && (rest == [] || !IsDigit(rest[0]))
    ensures Unsigned(d + rest) == Number(true, NatOf(d), rest)
  {
    DigitRunAppend(d, rest);
    assert (d + rest)[..|d|] == d && (d + rest)[|d|..] == rest;
  }

  lemma {:induction false} ScanDigits(d: string, rest: string)
    requires d != [] && AllDigits(d) && (rest == [] || !IsDigit(rest[0]))
    ensures Scan(d + rest) == Number(true, NatOf(d), rest)
  {
    UnsignedText(d, rest);
    hide Unsigned;
    assert (d + rest)[0] == d[0];
  }

  lemma {:induction false} ScanMinus(d: string, rest: string)
    requires d != [] && AllDigits(d) && (rest == [] || !IsDigit(rest[0]))
    ensures Scan("-" + d + rest) == Number(true, 0 - NatOf(d), rest)
  {
    UnsignedText(d, rest);
    hide Unsigned;
    assert ("-" + d + rest)[1..] == d + rest;
  }

  /** Reading a printed integer gives it back and stops right after it. */
  lemma ScanText(n: int, rest: string)
    requires rest == [] || !IsDigit(rest[0])
    ensures Scan(IntText(n) + rest) == Number(true, n, rest)
  {
    hide Scan;
    if n < 0 {
      NatOfText(-n);
      ScanMinus(NatText(-n), rest);
    } else {
      NatOfText(n);
      ScanDigits(NatText(n), rest);
    }
  }

  /** A longer number has at least as many digits. */
  lemma {:induction false} TextLength(n: nat, digits: nat, limit: nat)
    requires n < limit && digits > 0 && limit == Pow10(digits)
    ensures |NatText(n)| <= digits
    decreases digits
  {
    if n >= 10 {
      assert digits > 1;
      TextLength(n / 10, digits - 1, Pow10(digits - 1));
    }
  }

  function Pow10(k: nat): (p: nat)
    ensures p > 0
  {
    if k == 0 then 1 else 10 * Pow10(k - 1)
  }

  // ---- fixed width ----

  /** Exactly `w` digits, zero padded on the left. */
  function Padded(n: nat, w: nat): (s: string)
    ensures |s| == w && AllDigits(s)
    decreases w
  {
    if w == 0 then [] else Padded(n / 10, w - 1) + [DigitChar(n % 10)]
  }

  lemma {:induction false} PaddedValue(n: nat, w: nat)
    requires n < Pow10(w)
    ensures NatOf(Padded(n, w)) == n
    decreases w
  {
    if w > 0 {
      PaddedValue(n / 10, w - 1);
      assert Padded(n, w)[..w - 1] == Padded(n / 10, w - 1);
    }
  }

  lemma {:induction false} ScanPadded(n: nat, w: nat)
    requires 0 < w && n < Pow10(w)
    ensures Scan(Padded(n, w)) == Number(true, n, [])
  {
    PaddedValue(n, w);
    UnsignedText(Padded(n, w), []);
    assert Padded(n, w) + [] == Padded(n, w);
    assert IsDigit(Padded(n, w)[0]);
  }
}

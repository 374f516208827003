/**
 What several parts of the model share: optional values, C strings, 32-bit
 counters, removal by moving the last element, and sets and multisets.
 */
module Common {

  datatype Option<+T> = None | Some(value: T)

  const TWO32 := 0x1_0000_0000
  const UINT64_MAX := 0xffff_ffff_ffff_ffff

  /** A number as C reads it into 64 unsigned bits: saturated, and negative
      numbers wrapped. */
  function Unsigned64(n: int): (r: nat)
    ensures r <= UINT64_MAX && (0 <= n <= UINT64_MAX ==> r == n)
  {
    if n > UINT64_MAX || n < -UINT64_MAX then UINT64_MAX else if n < 0 then n + UINT64_MAX + 1 else n
  }

  /** The text a C string holds: up to the first NUL. */
  function CText(s: string): (r: string)
    ensures r <= s && forall i :: 0 <= i < |r| ==> r[i] != '\0'
  {
    if s == [] || s[0] == '\0' then [] else [s[0]] + CText(s[1..])
  }

  lemma {:induction false} CTextPlain(s: string)
    requires forall i :: 0 <= i < |s| ==> s[i] != '\0'
    ensures CText(s) == s
  {
    if s != [] {
      CTextPlain(s[1..]);
    }
  }

  /** A C string in a buffer of `size` bytes. */
  predicate Fits(s: string, size: nat) {
    |s| < size && forall i :: 0 <= i < |s| ==> 0 < s[i] as int < 256
  }

  /** The part of a text that fits a buffer, its terminator included. */
  function Fitted(s: string, size: nat): string
    requires size > 0
  {
    if |s| >= size then s[..size - 1] else s
  }

  predicate Distinct<T(==)>(s: seq<T>) {
    forall i, j :: 0 <= i < j < |s| ==> s[i] != s[j]
  }

  /** The last element moved into the place of another. */
  function Popped<T>(s: seq<T>, i: nat): seq<T>
    requires i < |s|
  {
    s[i := s[|s| - 1]][..|s| - 1]
  }

  lemma Regrouped<T>(a: seq<T>, b: seq<T>, c: seq<T>)
    ensures (a + b) + c == a + (b + c)
  {
  }

  lemma SubsetSize<T>(a: set<T>, b: set<T>)
    requires a <= b
    ensures |a| <= |b|
  {
    assert b == a + (b - a);
  }

  lemma Exchange<T>(p: multiset<T>, o: multiset<T>, a: multiset<T>)
    ensures (p + a) + o == (p + o) + a
  {
  }

  lemma Carry<T>(p: multiset<T>, q: multiset<T>, o: multiset<T>, a: multiset<T>, l: multiset<T>)
    requires p + o == q + a
    ensures (p + l) + o == (q + l) + a
  {
    assert (p + l) + o == (p + o) + l;
    assert (q + l) + a == (q + a) + l;
  }

  lemma Cancel<T>(p: multiset<T>, q: multiset<T>, l: multiset<T>)
    requires p + l == q + l
    ensures p == q
  {
    assert p == (p + l) - l && q == (q + l) - l;
  }
}

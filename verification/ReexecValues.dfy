/**
 The values of the re-exec state blob: how each kind of field is printed after
 its `key=`, and how it is read back. Reading checks ranges; anything it does
 not accept makes the whole blob invalid.
 */
module ReexecValues {
  import opened Common
  import opened Decimal
  import opened TextLines

  // ---- percent escapes ----

  predicate IsByte(c: char) {
    c as int < 256
  }

  predicate Escaped(c: char) {
    c as int <= 0x20 || c as int >= 0x7f || c == '%' || c == '='
  }

  function HexDigit(d: nat): (c: char)
    requires d < 16
    ensures !Escaped(c)
  {
    if d < 10 then '0' + d as char else 'A' + (d - 10) as char
  }

  /** The value of a hexadecimal digit of either case, or 16. */
  function HexValue(c: char): (d: nat)
    ensures d <= 16
  {
    if '0' <= c <= '9' then c as int - '0' as int
    else if 'A' <= c <= 'F' then c as int - 'A' as int + 10
    else if 'a' <= c <= 'f' then c as int - 'a' as int + 10
    else 16
  }

  lemma HexRoundTrip(d: nat)
    requires d < 16
    ensures HexValue(HexDigit(d)) == d
  {
  }

  function EscapeChar(c: char): string
    requires IsByte(c)
  {
    if Escaped(c) then ['%', HexDigit(c as int / 16), HexDigit(c as int % 16)] else [c]
  }

  predicate Bytes(s: string) {
    forall i :: 0 <= i < |s| ==> IsByte(s[i])
  }

  function Escape(s: string): string
    requires Bytes(s)
  {
    if s == [] then [] else EscapeChar(s[0]) + Escape(s[1..])
  }

  function Decode(v: string): Option<string> {
    if v == [] then Some([])
    else if v[0] == '%' then
      if |v| < 3 || HexValue(v[1]) == 16 || HexValue(v[2]) == 16 then None else
        var rest := Decode(v[3..]);
        if rest.None? then None
        else Some([(HexValue(v[1]) * 16 + HexValue(v[2])) as char] + rest.value)
    else
      var rest := Decode(v[1..]);
      if rest.None? then None else Some([v[0]] + rest.value)
  }

  /** Decoding into a buffer of `size` bytes, terminator included. */
  function Unescape(v: string, size: nat): Option<string> {
    var d := Decode(v);
    if d.None? || |d.value| >= size then None else Some(CText(d.value))
  }

  lemma {:induction false} DecodeChar(c: char, v: string)
    requires IsByte(c)
    ensures Decode(EscapeChar(c) + v) ==
            var rest := Decode(v);
            if rest.None? then None else Some([c] + rest.value)
  {
    var s := EscapeChar(c) + v;
    if Escaped(c) {
      HexRoundTrip(c as int / 16);
      HexRoundTrip(c as int % 16);
      assert s[3..] == v;
      assert (c as int / 16 * 16 + c as int % 16) as char == c;
    } else {
      assert s[1..] == v;
    }
  }

  lemma {:induction false} DecodeEscape(s: string)
    requires Bytes(s)
    ensures Decode(Escape(s)) == Some(s)
  {
    if s != [] {
      DecodeEscape(s[1..]);
      DecodeChar(s[0], Escape(s[1..]));
      assert [s[0]] + s[1..] == s;
    }
  }

  predicate Plain(s: string) {
    forall i :: 0 <= i < |s| ==> s[i] != ' ' && s[i] != '\n'
  }

  lemma {:induction false} EscapeIsPlain(s: string)
    requires Bytes(s)
    ensures Plain(Escape(s))
  {
    if s != [] {
      EscapeIsPlain(s[1..]);
      assert Plain(EscapeChar(s[0]));
    }
  }

  lemma {:induction false} UnescapeEscape(s: string, size: nat)
    requires Fits(s, size)
    ensures Unescape(Escape(s), size) == Some(s)
  {
    DecodeEscape(s);
    CTextPlain(s);
  }

  // ---- comma-separated numbers ----

  function ListText(ns: seq<int>): string
    requires ns != []
  {
    if |ns| == 1 then IntText(ns[0]) else IntText(ns[0]) + "," + ListText(ns[1..])
  }

  /** Exactly `n` numbers with commas between them and nothing after. */
  function ReadList(v: string, n: nat): Option<seq<int>>
    requires n > 0
    decreases n
  {
    var x := Scan(v);
    if !x.found then None
    else if n == 1 then if x.rest == [] then Some([x.value]) else None
    else if x.rest == [] || x.rest[0] != ',' then None
    else
      var rest := ReadList(x.rest[1..], n - 1);
      if rest.None? then None else Some([x.value] + rest.value)
  }

  lemma {:induction false} ReadListText(ns: seq<int>)
    requires ns != []
    ensures ReadList(ListText(ns), |ns|) == Some(ns)
  {
    hide Scan;
    if |ns| == 1 {
      ScanText(ns[0], []);
      assert IntText(ns[0]) + [] == IntText(ns[0]);
      assert ns == [ns[0]];
    } else {
      ReadListText(ns[1..]);
      var rest := "," + ListText(ns[1..]);
      ScanText(ns[0], rest);
      assert IntText(ns[0]) + "," + ListText(ns[1..]) == IntText(ns[0]) + rest;
      assert rest[1..] == ListText(ns[1..]);
      assert [ns[0]] + ns[1..] == ns;
    }
  }

  lemma IntTextPlain(n: int)
    ensures Plain(IntText(n))
  {
  }

  lemma {:induction false} ListTextPlain(ns: seq<int>)
    requires ns != []
    ensures Plain(ListText(ns))
  {
    IntTextPlain(ns[0]);
    if |ns| > 1 {
      ListTextPlain(ns[1..]);
    }
  }

  // ---- kinds of fields ----

  const INT32_MIN := -0x8000_0000
  const INT32_MAX := 0x7fff_ffff
  const UINT32_MAX := 0xffff_ffff
  const INT64_MIN := -0x8000_0000_0000_0000
  const INT64_MAX := 0x7fff_ffff_ffff_ffff
  const NSEC_PER_SEC := 1_000_000_000
  const MAX_LISTEN := 4

  /** `MS` is an unsigned counter that is read as a signed one; `FLAG` only
      ever turns a bit on; `FD` is an int with a lower bound. */
  datatype Kind = PID | INT | U8 | U32 | U64 | MS | TIME | TS | STR(size: nat) | INST | FDS | FLAG | FD(min: int)

  datatype Val = Num(n: int) | Stamp(sec: int, nsec: int) | Str(s: string) | Nums(ns: seq<int>)

  /** The values a field of this kind can hold and the blob carries exactly. */
  predicate InRange(k: Kind, v: Val) {
    match k
    case PID => v.Num? && 0 <= v.n <= INT32_MAX
    case INT => v.Num? && INT32_MIN <= v.n <= INT32_MAX
    case U8 => v.Num? && 0 <= v.n <= 255
    case U32 => v.Num? && 0 <= v.n <= UINT32_MAX
    case U64 => v.Num? && 0 <= v.n <= UINT64_MAX
    case MS => v.Num? && 0 <= v.n <= INT64_MAX
    case TIME => v.Num? && INT64_MIN <= v.n <= INT64_MAX
    case TS => v.Stamp? && INT64_MIN <= v.sec <= INT64_MAX && 0 <= v.nsec < NSEC_PER_SEC
    case STR(size) => v.Str? && Fits(v.s, size)
    case INST => v.Nums? && |v.ns| == 6 && InstOk(v.ns)
    case FDS => v.Nums? && |v.ns| == MAX_LISTEN && FdsOk(v.ns)
    case FLAG => v.Num? && 0 <= v.n <= 1
    case FD(min) => v.Num? && INT32_MIN <= v.n <= INT32_MAX && v.n >= min
  }

  predicate InstOk(ns: seq<int>)
    requires |ns| == 6
  {
    && (forall i :: 0 <= i < 4 ==> 0 <= ns[i] <= 255)
    && (forall i :: 4 <= i < 6 ==> 0 <= ns[i] <= UINT32_MAX)
  }

  predicate FdsOk(ns: seq<int>) {
    forall i :: 0 <= i < |ns| ==> -1 <= ns[i] <= INT32_MAX
  }

  function Print(k: Kind, v: Val): string
    requires InRange(k, v)
  {
    match v
    case Num(n) => IntText(n)
    case Stamp(sec, nsec) => IntText(sec) + "." + Padded(nsec, 9)
    case Str(s) => Escape(s)
    case Nums(ns) => ListText(ns)
  }

  /** A whole number and nothing else, within 64 signed bits. */
  function ReadLL(v: string): Option<int> {
    var x := Scan(v);
    if x.found && x.rest == [] && INT64_MIN <= x.value <= INT64_MAX then Some(x.value) else None
  }

  function Within(x: Option<int>, lo: int, hi: int): Option<Val> {
    if x.Some? && lo <= x.value <= hi then Some(Num(x.value)) else None
  }

  function ReadU64(v: string): Option<Val> {
    if v == [] || !IsDigit(v[0]) then None else
      var x := Unsigned(v);
      if x.rest == [] && x.value <= UINT64_MAX then Some(Num(x.value)) else None
  }

  function ReadTS(v: string): Option<Val> {
    var x := Scan(v);
    if !x.found || !(INT64_MIN <= x.value <= INT64_MAX) || x.rest == [] || x.rest[0] != '.' then None else
      var f := x.rest[1..];
      var ns := ReadLL(f);
      if |f| != 9 || ns.None? || ns.value < 0 then None else Some(Stamp(x.value, ns.value))
  }

  /** What scanf leaves in an unsigned of `bits` bits: saturated at 64 bits,
      negative numbers wrapped, then truncated. */
  function Wrapped(n: int, bits: int): int
    requires bits == 32 || bits == 64
  {
    var w := Unsigned64(n);
    if bits == 32 then w % (UINT32_MAX + 1) else w
  }

  function WrapInst(ns: seq<int>): (r: seq<int>)
    requires |ns| == 6
    ensures |r| == 6
  {
    [Wrapped(ns[0], 32), Wrapped(ns[1], 32), Wrapped(ns[2], 32), Wrapped(ns[3], 32),
     Wrapped(ns[4], 64), Wrapped(ns[5], 64)]
  }

  lemma {:induction false} ReadListSize(v: string, n: nat)
    requires n > 0
    ensures ReadList(v, n).Some? ==> |ReadList(v, n).value| == n
    decreases n
  {
    hide Scan;
    if n > 1 && Scan(v).found && Scan(v).rest != [] {
      ReadListSize(Scan(v).rest[1..], n - 1);
    }
  }

  function ReadINST(v: string): Option<Val> {
    ReadListSize(v, 6);
    var ns := ReadList(v, 6);
    if ns.Some? && InstOk(WrapInst(ns.value)) then Some(Nums(WrapInst(ns.value))) else None
  }

  function ReadFDS(v: string): Option<Val> {
    var ns := ReadList(v, MAX_LISTEN);
    if ns.Some? && FdsOk(ns.value) then Some(Nums(ns.value)) else None
  }

  function Read(k: Kind, v: string): Option<Val> {
    match k
    case PID => Within(ReadLL(v), 0, INT32_MAX)
    case INT => Within(ReadLL(v), INT32_MIN, INT32_MAX)
    case U8 => Within(ReadLL(v), 0, 255)
    case U32 => Within(ReadLL(v), 0, UINT32_MAX)
    case U64 => ReadU64(v)
    case MS => Within(ReadLL(v), 0, INT64_MAX)
    case TIME => Within(ReadLL(v), INT64_MIN, INT64_MAX)
    case TS => ReadTS(v)
    case STR(size) => var s := Unescape(v, size); if s.None? then None else Some(Str(s.value))
    case INST => ReadINST(v)
    case FDS => ReadFDS(v)
    case FLAG => Within(ReadLL(v), INT32_MIN, INT32_MAX)
    case FD(min) => Within(ReadLL(v), if min > INT32_MIN then min else INT32_MIN, INT32_MAX)
  }

  lemma ReadLLText(n: int)
    requires INT64_MIN <= n <= INT64_MAX
    ensures ReadLL(IntText(n)) == Some(n)
  {
    ScanText(n, []);
    assert IntText(n) + [] == IntText(n);
  }

  lemma ReadU64Text(n: int)
    requires 0 <= n <= UINT64_MAX
    ensures ReadU64(IntText(n)) == Some(Num(n))
  {
    NatOfText(n);
    UnsignedText(NatText(n), []);
    assert NatText(n) + [] == NatText(n);
  }

  lemma Pow10Nine()
    ensures Pow10(9) == NSEC_PER_SEC
  {
    assert Pow10(3) == 1000 && Pow10(6) == 1_000_000;
  }

  lemma {:induction false} ReadTSText(sec: int, nsec: int)
    requires INT64_MIN <= sec <= INT64_MAX && 0 <= nsec < NSEC_PER_SEC
    ensures ReadTS(IntText(sec) + "." + Padded(nsec, 9)) == Some(Stamp(sec, nsec))
  {
    var rest := "." + Padded(nsec, 9);
    assert IntText(sec) + "." + Padded(nsec, 9) == IntText(sec) + rest;
    ScanText(sec, rest);
    Pow10Nine();
    ScanPadded(nsec, 9);
    assert rest[1..] == Padded(nsec, 9);
  }

  lemma WrapInRange(ns: seq<int>)
    requires |ns| == 6 && InstOk(ns)
    ensures WrapInst(ns) == ns
  {
    assert forall i :: 0 <= i < 6 ==> 0 <= ns[i] <= UINT32_MAX;
  }

  /** Every value in range is read back exactly. */
  lemma ReadPrint(k: Kind, v: Val)
    requires InRange(k, v)
    ensures Read(k, Print(k, v)) == Some(v)
  {
    match v
    case Num(n) =>
      if k.U64? { ReadU64Text(n); } else { ReadLLText(n); }
    case Stamp(sec, nsec) => ReadTSText(sec, nsec);
    case Str(s) => UnescapeEscape(s, k.size);
    case Nums(ns) =>
      ReadListText(ns);
      if k.INST? { WrapInRange(ns); }
  }

  /** A printed value never breaks its token or its line. */
  lemma PrintIsPlain(k: Kind, v: Val)
    requires InRange(k, v)
    ensures Plain(Print(k, v))
  {
    match v
    case Num(n) => IntTextPlain(n);
    case Stamp(sec, nsec) => IntTextPlain(sec);
    case Str(s) => EscapeIsPlain(s);
    case Nums(ns) => ListTextPlain(ns);
  }

  /** An unsigned counter survives exactly when it fits a signed one. */
  lemma CounterExact(n: nat)
    requires n <= UINT64_MAX
    ensures Read(MS, IntText(n)) == (if n <= INT64_MAX then Some(Num(n)) else None)
  {
    ScanText(n, []);
    assert IntText(n) + [] == IntText(n);
  }

  /** A process id survives exactly when it is not negative. */
  lemma PidExact(n: int)
    requires INT32_MIN <= n <= INT32_MAX
    ensures Read(PID, IntText(n)) == (if n >= 0 then Some(Num(n)) else None)
  {
    ReadLLText(n);
  }
}

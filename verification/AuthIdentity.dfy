/**
 The identity a client offers in SASL EXTERNAL: the decimal user id, each byte
 of it as two hex digits. What is accepted, and what an honest client sends.
 */
module AuthIdentity {
  import opened Common
  import opened Decimal

  const BAD := -1
  const EMPTY := -2
  const DECODED_MAX := 63
  const LONG_MAX := 0x7fff_ffff_ffff_ffff

  function HexDigit(c: char): (r: int)
    ensures -1 <= r < 16
  {
    if '0' <= c <= '9' then c as int - '0' as int
    else if 'a' <= c <= 'f' then c as int - 'a' as int + 10
    else if 'A' <= c <= 'F' then c as int - 'A' as int + 10
    else -1
  }

  /** The bytes of pairs of hex digits, at most `room` of them. */
  function Decode(hex: string, room: nat): Option<string>
    requires |hex| % 2 == 0
  {
    if hex == [] || room == 0 then Some([])
    else if HexDigit(hex[0]) < 0 || HexDigit(hex[1]) < 0 then None
    else match Decode(hex[2..], room - 1) {
      case None => None
      case Some(t) => Some([(HexDigit(hex[0]) * 16 + HexDigit(hex[1])) as char] + t)
    }
  }

  function Clamp(v: int): int {
    if v > LONG_MAX then LONG_MAX else if v < -LONG_MAX - 1 then -LONG_MAX - 1 else v
  }

  /** The number a whole text stands for, or BAD. Text without digits is only
      good when it is empty, and then stands for 0. */
  function WholeNumber(text: string): int {
    var n := Scan(text);
    if !n.found then (if text == "" then 0 else BAD)
    else if n.rest != "" then BAD
    else Clamp(n.value)
  }

  /** The claimed id: EMPTY for no identity, BAD for one that cannot be read. */
  function HexUid(hex: string): int {
    if hex == "" then EMPTY
    else if |hex| % 2 == 1 then BAD
    else match Decode(hex, DECODED_MAX) {
      case None => BAD
      case Some(dec) => WholeNumber(CText(dec))
    }
  }

  /** An offer of identity is accepted for a peer's user id. */
  predicate Accepts(hex: string, uid: int) {
    var claimed := HexUid(hex);
    claimed == EMPTY || (claimed != BAD && claimed == uid)
  }

  // ---- what is accepted, as text ----

  /** The text an identity stands for: its first 63 bytes, up to a NUL. */
  function TextOf(hex: string): Option<string> {
    if |hex| % 2 == 1 then None
    else match Decode(hex, DECODED_MAX) {
      case None => None
      case Some(dec) => Some(CText(dec))
    }
  }

  predicate AllSpaces(s: string) {
    forall i :: 0 <= i < |s| ==> IsSpace(s[i])
  }

  function Naughts(z: nat): string {
    if z == 0 then "" else Naughts(z - 1) + "0"
  }

  function Magnitude(n: int): nat {
    if n < 0 then -n else n
  }

  predicate SignOf(sign: string, n: int) {
    if n < 0 then sign == "-" else sign == "" || sign == "+" || (n == 0 && sign == "-")
  }

  /** White space, a sign, zeros, and the decimal digits of the number. */
  ghost predicate Spells(text: string, n: int) {
    exists blanks, sign, z: nat :: AllSpaces(blanks) && SignOf(sign, n) &&
      text == blanks + (sign + (Naughts(z) + NatText(Magnitude(n))))
  }

  /** The identity is a way to write the number; no text at all writes 0. */
  ghost predicate Writes(hex: string, n: int) {
    TextOf(hex).Some? && (Spells(TextOf(hex).value, n) || (n == 0 && TextOf(hex).value == ""))
  }

  lemma {:induction false} NaughtsDigits(z: nat)
    ensures |Naughts(z)| == z && AllDigits(Naughts(z)) && NatOf(Naughts(z)) == 0
  {
    if z > 0 {
      NaughtsDigits(z - 1);
      assert Naughts(z)[..z - 1] == Naughts(z - 1);
    }
  }

  lemma {:induction false} NatOfPadded(z: nat, d: string)
    requires AllDigits(d)
    ensures AllDigits(Naughts(z) + d) && NatOf(Naughts(z) + d) == NatOf(d)
  {
    NaughtsDigits(z);
    if d == "" {
      assert Naughts(z) + d == Naughts(z);
    } else {
      var k := |d| - 1;
      NatOfPadded(z, d[..k]);
      assert (Naughts(z) + d)[..z + k] == Naughts(z) + d[..k];
    }
  }

  /** Any run of digits is zeros and the digits of its value. */
  lemma {:induction false} DigitsAre(d: string) returns (z: nat)
    requires d != "" && AllDigits(d)
    ensures d == Naughts(z) + NatText(NatOf(d))
  {
    var k := |d| - 1;
    var c := d[k];
    assert d == d[..k] + [c];
    if k == 0 {
      assert NatOf(d) == c as int - '0' as int;
      assert NatText(NatOf(d)) == [c];
      assert d == "" + [c];
      return 0;
    }
    var v := NatOf(d[..k]);
    var z' := DigitsAre(d[..k]);
    assert NatOf(d) == 10 * v + (c as int - '0' as int);
    if v > 0 {
      assert NatText(NatOf(d)) == NatText(v) + [c];
      assert Naughts(z') + NatText(v) + [c] == Naughts(z') + (NatText(v) + [c]);
      z := z';
    } else {
      assert NatText(0) == "0" && Naughts(z' + 1) == d[..k];
      assert NatText(NatOf(d)) == [c];
      z := z' + 1;
    }
  }

  lemma {:induction false} SkipsSpaces(blanks: string, t: string)
    requires AllSpaces(blanks) && (t == "" || !IsSpace(t[0]))
    ensures SkipSpaces(blanks + t) == t
  {
    if blanks == "" {
      assert blanks + t == t;
    } else {
      assert (blanks + t)[1..] == blanks[1..] + t;
      SkipsSpaces(blanks[1..], t);
    }
  }

  lemma {:induction false} SpacesSkipped(s: string) returns (blanks: string)
    ensures AllSpaces(blanks) && s == blanks + SkipSpaces(s)
    ensures SkipSpaces(s) == "" || !IsSpace(SkipSpaces(s)[0])
  {
    if s != "" && IsSpace(s[0]) {
      var rest := SpacesSkipped(s[1..]);
      blanks := [s[0]] + rest;
      assert s == [s[0]] + (rest + SkipSpaces(s[1..]));
    } else {
      blanks := "";
      assert s == "" + s;
    }
  }

  /** A text that spells a number is read as that number. */
  lemma {:induction false} SpelledIsRead(text: string, blanks: string, sign: string, z: nat, n: int)
    requires AllSpaces(blanks) && SignOf(sign, n)
    requires text == blanks + (sign + (Naughts(z) + NatText(Magnitude(n))))
    ensures Scan(text) == Number(true, n, "")
  {
    var d := Naughts(z) + NatText(Magnitude(n));
    NatOfPadded(z, NatText(Magnitude(n)));
    NatOfText(Magnitude(n));
    assert d != "" && IsDigit(d[0]);
    SkipsSpaces(blanks, sign + d);
    UnsignedText(d, "");
    assert d + "" == d;
    hide Unsigned;
    if sign == "" {
      assert sign + d == d;
    } else {
      assert (sign + d)[0] == sign[0] && (sign + d)[1..] == d;
    }
  }

  /** A text that is read to its end as a number spells that number. */
  lemma ReadIsSpelled(text: string)
    requires Scan(text).found && Scan(text).rest == ""
    ensures Spells(text, Scan(text).value)
  {
    hide Unsigned;
    var t := SkipSpaces(text);
    var blanks := SpacesSkipped(text);
    var n := Scan(text).value;
    var sign := if t != "" && (t[0] == '-' || t[0] == '+') then [t[0]] else "";
    var d := t[|sign|..];
    assert t == sign + d;
    AllRead(d);
    var z := DigitsAre(d);
    assert NatOf(d) == Magnitude(n) && SignOf(sign, n);
    assert text == blanks + (sign + (Naughts(z) + NatText(Magnitude(n))));
  }

  lemma {:induction false} AllRead(d: string)
    requires Unsigned(d).found && Unsigned(d).rest == ""
    ensures d != "" && AllDigits(d) && NatOf(d) == Unsigned(d).value
  {
    var k := DigitRun(d);
    assert |d[k..]| == 0;
    assert d[..k] == d;
  }

  /** The reading of a text, without reference to the reader. */
  lemma WholeNumberExactly(text: string, n: int)
    requires n != BAD && -LONG_MAX - 1 < n < LONG_MAX
    ensures WholeNumber(text) == n <==> Spells(text, n) || (n == 0 && text == "")
  {
    hide Scan;
    if Spells(text, n) {
      var blanks, sign, z: nat :| AllSpaces(blanks) && SignOf(sign, n) &&
        text == blanks + (sign + (Naughts(z) + NatText(Magnitude(n))));
      SpelledIsRead(text, blanks, sign, z, n);
    }
    if Scan(text).found && Scan(text).rest == "" {
      ReadIsSpelled(text);
    }
    if text == "" {
      NothingToRead();
    }
  }

  lemma NothingToRead()
    ensures !Scan("").found
  {
  }

  /** What the code reads from an identity, as text. */
  lemma ReadExactly(hex: string, n: int)
    requires hex != "" && n != BAD && -LONG_MAX - 1 < n < LONG_MAX
    ensures HexUid(hex) == n <==> Writes(hex, n)
  {
    hide WholeNumber;
    hide Spells;
    match TextOf(hex) {
      case None =>
      case Some(text) => WholeNumberExactly(text, n);
    }
  }

  /** Exactly these identities are accepted for a peer: none at all, any way to
      write the peer's id, and any way to write minus two. */
  lemma AcceptedExactly(hex: string, uid: int)
    requires 0 <= uid < LONG_MAX
    ensures Accepts(hex, uid) <==> hex == "" || Writes(hex, uid) || Writes(hex, EMPTY)
  {
    hide HexUid;
    hide Writes;
    if hex != "" {
      ReadExactly(hex, uid);
      ReadExactly(hex, EMPTY);
    } else {
      NoIdentity();
    }
  }

  lemma NoIdentity()
    ensures HexUid("") == EMPTY
  {
  }

  /** The bytes past the sixty-third do not count. */
  lemma {:induction false} PastTheBuffer(hex: string, tail: string, room: nat)
    requires |hex| == 2 * room && |tail| % 2 == 0
    ensures Decode(hex + tail, room) == Decode(hex, room)
    decreases room
  {
    if room > 0 {
      assert (hex + tail)[2..] == hex[2..] + tail;
      PastTheBuffer(hex[2..], tail, room - 1);
    }
  }

  /** So whatever follows an accepted identity of sixty-three bytes, it stays
      accepted. */
  lemma TailIgnored(hex: string, tail: string, uid: int)
    requires |hex| == 2 * DECODED_MAX && |tail| % 2 == 0
    ensures Accepts(hex + tail, uid) <==> Accepts(hex, uid)
  {
    PastTheBuffer(hex, tail, DECODED_MAX);
  }

  /** A single NUL byte writes 0. */
  lemma NulWritesZero()
    ensures Writes("00", 0) && Accepts("00", 0)
  {
    var hex: string := "00";
    assert hex[2..] == "";
    assert Decode("", DECODED_MAX - 1) == Some("");
    assert HexDigit('0') == 0 && (0 * 16 + 0) as char == '\0' && ['\0'] + "" == ['\0'];
    assert Decode(hex, DECODED_MAX) == Some(['\0']);
    assert CText(['\0']) == "";
    AcceptedExactly(hex, 0);
  }

  /** An identity that is neither empty nor the peer's id, accepted for every
      peer: the text "-2". */
  lemma MinusTwoIsAccepted(uid: int)
    requires uid >= 0
    ensures Writes("2d32", EMPTY) && Accepts("2d32", uid) && HexUid("2d32") != uid
  {
    hide Decode;
    hide CText;
    hide Scan;
    var text: string := "-2";
    MinusTwoText();
    assert NatOf("2") == 2 by {
      assert "2"[..0] == "";
    }
    assert "-" + "2" + "" == text;
    ScanMinus("2", "");
    ReadIsSpelled(text);
  }

  lemma MinusTwoText()
    ensures Decode("2d32", DECODED_MAX) == Some("-2") && CText("-2") == "-2"
  {
    var hex, rest: string := "2d32", "32";
    assert hex[2..] == rest && rest[2..] == "";
    assert Decode("", DECODED_MAX - 2) == Some("");
    assert (3 * 16 + 2) as char == '2' && ['2'] + "" == "2";
    assert Decode(rest, DECODED_MAX - 1) == Some("2");
    assert (2 * 16 + 13) as char == '-' && ['-'] + "2" == "-2";
    assert HexDigit(hex[0]) == 2 && HexDigit(hex[1]) == 13;
    CTextPlain("-2");
  }

  // ---- what an honest client sends ----

  function HexChar(d: nat): (c: char)
    requires d < 16
    ensures HexDigit(c) == d
  {
    if d < 10 then '0' + d as char else 'a' + (d - 10) as char
  }

  function HexText(s: string): (r: string)
    requires forall i :: 0 <= i < |s| ==> s[i] as int < 256
    ensures |r| == 2 * |s|
  {
    if s == [] then [] else [HexChar(s[0] as int / 16), HexChar(s[0] as int % 16)] + HexText(s[1..])
  }

  lemma {:induction false} DecodeHexText(s: string, room: nat)
    requires (forall i :: 0 <= i < |s| ==> s[i] as int < 256) && |s| <= room
    ensures Decode(HexText(s), room) == Some(s)
  {
    if s != [] {
      DecodeHexText(s[1..], room - 1);
      assert HexText(s)[2..] == HexText(s[1..]);
      assert [s[0]] + s[1..] == s;
    }
  }

  /** A client that sends its own user id is accepted by exactly that peer. */
  lemma {:induction false} OwnIdAccepted(uid: nat, peer: nat)
    requires uid < 0x1_0000_0000
    ensures Accepts(HexText(NatText(uid)), peer) <==> uid == peer
  {
    hide Scan;
    hide Decode;
    hide CText;
    hide HexText;
    hide NatText;
    hide NatOf;
    var text := NatText(uid);
    ShortText(uid);
    DecodeHexText(text, DECODED_MAX);
    CTextPlain(text);
    NatOfText(uid);
    ScanDigits(text, "");
    assert text + "" == text;
  }

  lemma {:induction false} ShortText(uid: nat)
    requires uid < 0x1_0000_0000
    ensures |NatText(uid)| <= 10
  {
    hide NatText;
    assert Pow10(3) == 1000;
    assert Pow10(5) == 100 * Pow10(3);
    assert Pow10(7) == 100 * Pow10(5);
    assert Pow10(9) == 100 * Pow10(7);
    TextLength(uid, 10, Pow10(10));
  }

  // ---- the loop ----

  /** `dec` is what the pairs before `i` stand for. */
  predicate Decoded(hex: string, i: nat, dec: string)
    requires |hex| % 2 == 0 && i <= |hex| && |hex[i..]| % 2 == 0 && |dec| <= DECODED_MAX
  {
    match Decode(hex[i..], DECODED_MAX - |dec|)
    case None => Decode(hex, DECODED_MAX) == None
    case Some(t) => Decode(hex, DECODED_MAX) == Some(dec + t)
  }

  lemma DecodedStart(hex: string)
    requires |hex| % 2 == 0
    ensures Decoded(hex, 0, "")
  {
    assert hex[0..] == hex;
    match Decode(hex, DECODED_MAX)
    case None =>
    case Some(t) => assert "" + t == t;
  }

  lemma {:induction false} DecodedStep(hex: string, i: nat, dec: string)
    requires |hex| % 2 == 0 && i + 1 < |hex| && |hex[i..]| % 2 == 0 && |dec| < DECODED_MAX
    requires Decoded(hex, i, dec)
    ensures var hi, lo := HexDigit(hex[i]), HexDigit(hex[i + 1]);
            if hi < 0 || lo < 0 then Decode(hex, DECODED_MAX) == None
            else Decoded(hex, i + 2, dec + [(hi * 16 + lo) as char])
  {
    var hi, lo := HexDigit(hex[i]), HexDigit(hex[i + 1]);
    assert hex[i..][2..] == hex[i + 2..];
    if hi >= 0 && lo >= 0 {
      var c := [(hi * 16 + lo) as char];
      match Decode(hex[i + 2..], DECODED_MAX - |dec| - 1)
      case None =>
      case Some(t) => assert dec + (c + t) == (dec + c) + t;
    }
  }

  method HexUidLoop(hex: string) returns (r: int)
    ensures r == HexUid(hex)
  {
    if |hex| == 0 { return EMPTY; }
    if |hex| % 2 == 1 { return BAD; }
    var dec := "";
    var i := 0;
    DecodedStart(hex);
    while i + 1 < |hex| && |dec| < DECODED_MAX
      invariant i <= |hex| && |hex[i..]| % 2 == 0 && |dec| <= DECODED_MAX && Decoded(hex, i, dec)
      decreases |hex| - i
    {
      var hi, lo := HexDigit(hex[i]), HexDigit(hex[i + 1]);
      DecodedStep(hex, i, dec);
      if hi < 0 || lo < 0 { return BAD; }
      dec := dec + [(hi * 16 + lo) as char];
      i := i + 2;
    }
    assert dec + "" == dec;
    hide Scan;
    var text := CText(dec);
    var n := Scan(text);
    if !n.found { return if text == "" then 0 else BAD; }
    if n.rest != "" { return BAD; }
    return Clamp(n.value);
  }
}

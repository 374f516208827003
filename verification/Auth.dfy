/**
 The broker's side of the SASL handshake: a NUL byte, then lines ended by CR LF,
 until BEGIN. It does not matter how the bytes are cut into reads, and nobody
 gets past BEGIN without an accepted identity since the last CANCEL.
 */
module Auth {
  import opened Common
  import opened AuthIdentity
  import TextLines

  const MAX_AUTH_BYTES := 16384
  const LINE_MAX := 511

  datatype Code = More | Begun | Broken

  /** Buffered bytes, replies so far, flags, and the lines taken so far. */
  datatype State = State(inb: string, out: seq<string>, sawNul: bool, authOk: bool, fds: bool, seen: seq<string>)

  // ---- lines ----

  /** Where the first CR LF is, or the length. */
  function Crlf(s: string): (k: nat)
    ensures k <= |s| && (k < |s| ==> k + 2 <= |s|)
  {
    if |s| < 2 then |s|
    else if s[0] == '\r' && s[1] == '\n' then 0
    else 1 + Crlf(s[1..])
  }

  /** A line as the code sees it: cut to its buffer, up to a NUL. */
  function LineText(raw: string): string {
    CText(if |raw| < LINE_MAX then raw else raw[..LINE_MAX])
  }

  datatype Command = Ask | Offer(hex: string) | OtherMechanism | NegotiateFds | Cancel | Begin | Unknown

  function Parsed(line: string): Command {
    if "AUTH EXTERNAL" <= line then
      var arg := TextLines.SkipBlanks(line[13..]);
      if arg == "" then Ask else Offer(arg)
    else if "DATA" <= line && (|line| == 4 || line[4] == ' ') then Offer(TextLines.SkipBlanks(line[4..]))
    else if line == "AUTH" || "AUTH " <= line then OtherMechanism
    else if line == "NEGOTIATE_UNIX_FD" then NegotiateFds
    else if line == "CANCEL" then Cancel
    else if line == "BEGIN" then Begin
    else Unknown
  }

  /** What one line does. `ok` is the reply to an accepted identity. */
  function Step(st: State, uid: int, ok: string, line: string): (State, Code) {
    match Parsed(line)
    case Ask => (st.(out := st.out + ["DATA\r\n"]), More)
    case Offer(hex) =>
      if Accepts(hex, uid) then (st.(out := st.out + [ok], authOk := true), More)
      else (st.(out := st.out + ["REJECTED EXTERNAL\r\n"]), More)
    case OtherMechanism => (st.(out := st.out + ["REJECTED EXTERNAL\r\n"]), More)
    case NegotiateFds => (st.(out := st.out + ["AGREE_UNIX_FD\r\n"], fds := true), More)
    case Cancel => (st.(out := st.out + ["REJECTED EXTERNAL\r\n"], authOk := false), More)
    case Begin => (st, if st.authOk then Begun else Broken)
    case Unknown => (st.(out := st.out + ["ERROR\r\n"]), More)
  }

  /** Takes the next line off the buffer and acts on it. */
  function TakeLine(st: State, uid: int, ok: string): (State, Code)
    requires Crlf(st.inb) < |st.inb|
  {
    var k := Crlf(st.inb);
    var line := LineText(st.inb[..k]);
    Step(st.(inb := st.inb[k + 2..], seen := st.seen + [line]), uid, ok, line)
  }

  lemma StepInput(st: State, uid: int, ok: string, line: string)
    ensures Step(st, uid, ok, line).0.inb == st.inb && Step(st, uid, ok, line).0.sawNul == st.sawNul
  {
    hide Parsed;
    hide Accepts;
  }

  lemma TakeLineInput(st: State, uid: int, ok: string)
    requires Crlf(st.inb) < |st.inb|
    ensures TakeLine(st, uid, ok).0.inb == st.inb[Crlf(st.inb) + 2..]
    ensures |TakeLine(st, uid, ok).0.inb| < |st.inb|
    ensures TakeLine(st, uid, ok).0.sawNul == st.sawNul
  {
    hide Step;
    hide LineText;
    var k := Crlf(st.inb);
    var line := LineText(st.inb[..k]);
    StepInput(st.(inb := st.inb[k + 2..], seen := st.seen + [line]), uid, ok, line);
  }

  /** All complete lines, until BEGIN or a fault. */
  function Lines(st: State, uid: int, ok: string): (State, Code)
    decreases |st.inb|
  {
    if Crlf(st.inb) == |st.inb| then (st, More) else
      TakeLineInput(st, uid, ok);
      var (next, code) := TakeLine(st, uid, ok);
      if code.More? then Lines(next, uid, ok) else (next, code)
  }

  /** The leading NUL, if it is still due, then the lines. */
  function Start(st: State, uid: int, ok: string): (State, Code) {
    if st.sawNul then Lines(st, uid, ok)
    else if st.inb == "" then (st, More)
    else if st.inb[0] != '\0' then (st, Broken)
    else Lines(AfterNul(st), uid, ok)
  }

  function AfterNul(st: State): State
    requires st.inb != ""
  {
    st.(sawNul := true, inb := st.inb[1..])
  }

  /** One read's worth of bytes. */
  function Feed(st: State, uid: int, ok: string, buf: string): (State, Code) {
    if |st.inb| + |buf| > MAX_AUTH_BYTES then (With(st, buf), Broken) else Start(With(st, buf), uid, ok)
  }

  function With(st: State, b: string): State {
    st.(inb := st.inb + b)
  }

  // ---- how the bytes are cut does not matter ----

  lemma {:induction false} CrlfAppend(a: string, b: string)
    requires Crlf(a) < |a|
    ensures Crlf(a + b) == Crlf(a)
  {
    if !(a[0] == '\r' && a[1] == '\n') {
      assert (a + b)[1..] == a[1..] + b;
      CrlfAppend(a[1..], b);
    }
  }

  lemma StepAppend(st: State, uid: int, ok: string, line: string, b: string)
    ensures var (next, code) := Step(st, uid, ok, line);
            Step(With(st, b), uid, ok, line) == (With(next, b), code)
  {
    hide Parsed;
    hide Accepts;
  }

  lemma TakeLineAppend(st: State, uid: int, ok: string, b: string)
    requires Crlf(st.inb) < |st.inb|
    ensures Crlf(With(st, b).inb) < |With(st, b).inb|
    ensures var (next, code) := TakeLine(st, uid, ok);
            TakeLine(With(st, b), uid, ok) == (With(next, b), code)
  {
    hide Step;
    hide LineText;
    CrlfAppend(st.inb, b);
    var k := Crlf(st.inb);
    hide Crlf;
    assert (st.inb + b)[..k] == st.inb[..k];
    assert (st.inb + b)[k + 2..] == st.inb[k + 2..] + b;
    var line := LineText(st.inb[..k]);
    StepAppend(st.(inb := st.inb[k + 2..], seen := st.seen + [line]), uid, ok, line, b);
  }

  /** More bytes behind the ones at hand change nothing about the lines taken. */
  lemma {:induction false} LinesAppend(st: State, uid: int, ok: string, b: string)
    ensures var (s1, c1) := Lines(st, uid, ok);
            Lines(With(st, b), uid, ok) == if c1.More? then Lines(With(s1, b), uid, ok) else (With(s1, b), c1)
    decreases |st.inb|
  {
    if Crlf(st.inb) < |st.inb| {
      TakeLineInput(st, uid, ok);
      TakeLineAppend(st, uid, ok, b);
      hide TakeLine;
      var (next, code) := TakeLine(st, uid, ok);
      if code.More? {
        LinesAppend(next, uid, ok, b);
      }
    }
  }

  lemma {:induction false} LinesShrink(st: State, uid: int, ok: string)
    ensures |Lines(st, uid, ok).0.inb| <= |st.inb| && Lines(st, uid, ok).0.sawNul == st.sawNul
    decreases |st.inb|
  {
    if Crlf(st.inb) < |st.inb| {
      TakeLineInput(st, uid, ok);
      hide TakeLine;
      var (next, code) := TakeLine(st, uid, ok);
      if code.More? {
        LinesShrink(next, uid, ok);
      }
    }
  }

  lemma StartAppend(st: State, uid: int, ok: string, b: string)
    ensures var (s1, c1) := Start(st, uid, ok);
            Start(With(st, b), uid, ok) == if c1.More? then Start(With(s1, b), uid, ok) else (With(s1, b), c1)
    ensures |Start(st, uid, ok).0.inb| <= |st.inb|
  {
    hide Lines;
    if st.sawNul {
      LinesAppend(st, uid, ok, b);
      LinesShrink(st, uid, ok);
    } else if st.inb != "" && st.inb[0] == '\0' {
      var begun := AfterNul(st);
      assert AfterNul(With(st, b)) == With(begun, b) by {
        assert (st.inb + b)[1..] == begun.inb + b;
      }
      LinesAppend(begun, uid, ok, b);
      LinesShrink(begun, uid, ok);
    }
  }

  /** Two reads are like one, as long as all bytes together fit the buffer. */
  lemma FeedSplit(st: State, uid: int, ok: string, a: string, b: string)
    requires |st.inb| + |a| + |b| <= MAX_AUTH_BYTES
    ensures var (s1, c1) := Feed(st, uid, ok, a);
            Feed(st, uid, ok, a + b) == if c1.More? then Feed(s1, uid, ok, b) else (With(s1, b), c1)
    ensures |Feed(st, uid, ok, a).0.inb| <= |st.inb| + |a|
  {
    hide Start;
    assert With(With(st, a), b) == With(st, a + b) by {
      assert (st.inb + a) + b == st.inb + (a + b);
    }
    StartAppend(With(st, a), uid, ok, b);
  }

  datatype Session = Session(st: State, code: Code)

  /** A session and its next read: after BEGIN the bytes are message bytes, and
      after a fault nothing is read. */
  function Read(s: Session, uid: int, ok: string, buf: string): Session {
    match s.code
    case More => var (st, code) := Feed(s.st, uid, ok, buf); Session(st, code)
    case Begun => Session(With(s.st, buf), Begun)
    case Broken => s
  }

  function ReadAll(s: Session, uid: int, ok: string, bufs: seq<string>): Session
    decreases |bufs|
  {
    if bufs == [] then s else ReadAll(Read(s, uid, ok, bufs[0]), uid, ok, bufs[1..])
  }

  function Whole(bufs: seq<string>): string {
    if bufs == [] then "" else bufs[0] + Whole(bufs[1..])
  }

  /** The same replies, flags and outcome, and the same bytes left unless the
      session is over. */
  predicate Same(a: Session, b: Session) {
    a.code == b.code && a.st.(inb := "") == b.st.(inb := "") && (a.code.Broken? || a.st.inb == b.st.inb)
  }

  lemma ReadTwice(s: Session, uid: int, ok: string, a: string, b: string)
    requires s.code.More? ==> |s.st.inb| + |a| + |b| <= MAX_AUTH_BYTES
    ensures Same(Read(Read(s, uid, ok, a), uid, ok, b), Read(s, uid, ok, a + b))
  {
    hide Feed;
    if s.code.More? {
      FeedSplit(s.st, uid, ok, a, b);
    } else {
      assert (s.st.inb + a) + b == s.st.inb + (a + b);
    }
  }

  lemma ReadSize(s: Session, uid: int, ok: string, a: string)
    requires s.code.More? && |s.st.inb| + |a| <= MAX_AUTH_BYTES
    ensures |Read(s, uid, ok, a).st.inb| <= |s.st.inb| + |a|
  {
    hide Start;
    StartAppend(With(s.st, a), uid, ok, "");
  }

  /** Any way of cutting a stream gives what reading it at once gives. */
  lemma {:induction false} ChunkInvariant(s: Session, uid: int, ok: string, bufs: seq<string>)
    requires bufs != [] && (s.code.More? ==> |s.st.inb| + |Whole(bufs)| <= MAX_AUTH_BYTES)
    ensures Same(ReadAll(s, uid, ok, bufs), Read(s, uid, ok, Whole(bufs)))
    decreases |bufs|
  {
    hide Read;
    var rest := bufs[1..];
    if rest == [] {
      assert Whole(bufs) == bufs[0] + "" == bufs[0];
    } else {
      var first := Read(s, uid, ok, bufs[0]);
      assert first.code.More? ==> |first.st.inb| + |Whole(rest)| <= MAX_AUTH_BYTES by {
        FirstRead(s, uid, ok, bufs[0]);
      }
      ChunkInvariant(first, uid, ok, rest);
      ReadTwice(s, uid, ok, bufs[0], Whole(rest));
    }
  }

  lemma FirstRead(s: Session, uid: int, ok: string, a: string)
    requires s.code.More? ==> |s.st.inb| + |a| <= MAX_AUTH_BYTES
    ensures Read(s, uid, ok, a).code.More? ==> s.code.More? && |Read(s, uid, ok, a).st.inb| <= |s.st.inb| + |a|
  {
    if s.code.More? {
      ReadSize(s, uid, ok, a);
    }
  }

  // ---- who gets in ----

  predicate Offered(line: string, uid: int) {
    Parsed(line).Offer? && Accepts(Parsed(line).hex, uid)
  }

  /** Some line since the last CANCEL offered an accepted identity. */
  predicate Vouched(seen: seq<string>, uid: int) {
    exists k :: 0 <= k < |seen| && Offered(seen[k], uid) && forall j :: k < j < |seen| ==> !Parsed(seen[j]).Cancel?
  }

  lemma VouchedSnoc(seen: seq<string>, line: string, uid: int)
    ensures Vouched(seen + [line], uid) <==> Offered(line, uid) || (Vouched(seen, uid) && !Parsed(line).Cancel?)
  {
    hide Parsed;
    hide Accepts;
    var all, n := seen + [line], |seen|;
    if Offered(line, uid) {
      assert Offered(all[n], uid);
    } else if Vouched(seen, uid) && !Parsed(line).Cancel? {
      var k :| 0 <= k < n && Offered(seen[k], uid) && forall j :: k < j < n ==> !Parsed(seen[j]).Cancel?;
      assert Offered(all[k], uid);
      assert forall j :: k < j < n + 1 ==> !Parsed(all[j]).Cancel?;
    }
    if Vouched(all, uid) && !Offered(line, uid) {
      var k :| 0 <= k < n + 1 && Offered(all[k], uid) && forall j :: k < j < n + 1 ==> !Parsed(all[j]).Cancel?;
      assert k < n && Offered(seen[k], uid) && !Parsed(all[n]).Cancel?;
      assert forall j :: k < j < n ==> seen[j] == all[j];
    }
  }

  /** Some line since the last CANCEL offered no identity, or one that writes
      the peer's user id. */
  ghost predicate ProperlyVouched(seen: seq<string>, uid: int) {
    exists k :: 0 <= k < |seen| && OfferedProperly(seen[k], uid) && forall j :: k < j < |seen| ==> !Parsed(seen[j]).Cancel?
  }

  ghost predicate OfferedProperly(line: string, uid: int) {
    Parsed(line).Offer? && (Parsed(line).hex == "" || Writes(Parsed(line).hex, uid))
  }

  ghost predicate OfferedMinusTwo(line: string) {
    Parsed(line).Offer? && Writes(Parsed(line).hex, EMPTY)
  }

  /** Some line since the last CANCEL offered an identity that writes minus two. */
  ghost predicate ByMinusTwo(seen: seq<string>) {
    exists k :: 0 <= k < |seen| && OfferedMinusTwo(seen[k]) && forall j :: k < j < |seen| ==> !Parsed(seen[j]).Cancel?
  }

  /** Exactly these get in: a client that offered no identity or one that writes
      the peer's user id, and one that offered a way to write minus two. */
  lemma VouchedExactly(seen: seq<string>, uid: int)
    requires 0 <= uid < LONG_MAX
    ensures Vouched(seen, uid) <==> ProperlyVouched(seen, uid) || ByMinusTwo(seen)
  {
    hide Parsed;
    hide Writes;
    hide Accepts;
    forall k | 0 <= k < |seen|
      ensures Offered(seen[k], uid) <==> OfferedProperly(seen[k], uid) || OfferedMinusTwo(seen[k])
    {
      if Parsed(seen[k]).Offer? {
        AcceptedExactly(Parsed(seen[k]).hex, uid);
      }
    }
  }

  // ---- a session that gets in with neither ----

  predicate PlainLine(line: string) {
    |line| < LINE_MAX && '\r' !in line && '\0' !in line
  }

  lemma {:induction false} CrlfIs(line: string, rest: string)
    requires '\r' !in line
    ensures Crlf(line + ("\r\n" + rest)) == |line|
  {
    var s := line + ("\r\n" + rest);
    if line == "" {
      assert s[0] == '\r' && s[1] == '\n';
    } else {
      assert s[1..] == line[1..] + ("\r\n" + rest);
      CrlfIs(line[1..], rest);
    }
  }

  lemma TakePlainLine(st: State, uid: int, ok: string, line: string, rest: string)
    requires PlainLine(line) && st.inb == line + ("\r\n" + rest)
    ensures Crlf(st.inb) < |st.inb|
    ensures TakeLine(st, uid, ok) == Step(st.(inb := rest, seen := st.seen + [line]), uid, ok, line)
  {
    hide Step;
    CrlfIs(line, rest);
    CTextPlain(line);
    assert st.inb[..|line|] == line && st.inb[|line| + 2..] == rest;
  }

  lemma {:induction false} LinesPlain(st: State, uid: int, ok: string, line: string, rest: string)
    requires PlainLine(line) && st.inb == line + ("\r\n" + rest)
    ensures var (next, code) := Step(st.(inb := rest, seen := st.seen + [line]), uid, ok, line);
            Lines(st, uid, ok) == if code.More? then Lines(next, uid, ok) else (next, code)
  {
    hide Step;
    hide PlainLine;
    TakePlainLine(st, uid, ok, line, rest);
    hide TakeLine;
    hide Crlf;
  }

  const MINUS_TWO_LINE := "AUTH EXTERNAL 2d32"

  lemma MinusTwoParsed()
    ensures PlainLine(MINUS_TWO_LINE) && Parsed(MINUS_TWO_LINE) == Offer("2d32")
    ensures PlainLine("BEGIN") && Parsed("BEGIN") == Begin
  {
    var line: string := MINUS_TWO_LINE;
    assert line[..13] == "AUTH EXTERNAL";
    assert line[13..] == " 2d32" && " 2d32"[1..] == "2d32";
    assert TextLines.SkipBlanks("2d32") == "2d32" && TextLines.SkipBlanks(" 2d32") == "2d32";
  }

  const MINUS_TWO_SESSION := "\0AUTH EXTERNAL 2d32\r\nBEGIN\r\n"

  const MINUS_TWO_STATE := State(MINUS_TWO_LINE + ("\r\n" + ("BEGIN" + ("\r\n" + ""))), [], true, false, false, [])

  lemma {:induction false} MinusTwoLines(uid: int, ok: string)
    requires uid >= 0
    ensures var (st, code) := Lines(MINUS_TWO_STATE, uid, ok);
            code.Begun? && st.seen == [MINUS_TWO_LINE, "BEGIN"]
  {
    hide Parsed;
    hide Lines;
    hide Accepts;
    hide PlainLine;
    MinusTwoParsed();
    MinusTwoIsAccepted(uid);
    var second := "BEGIN" + ("\r\n" + "");
    LinesPlain(MINUS_TWO_STATE, uid, ok, MINUS_TWO_LINE, second);
    var s1 := State(second, [] + [ok], true, true, false, [] + [MINUS_TWO_LINE]);
    assert Step(MINUS_TWO_STATE.(inb := second, seen := [] + [MINUS_TWO_LINE]), uid, ok, MINUS_TWO_LINE) == (s1, More);
    LinesPlain(s1, uid, ok, "BEGIN", "");
    assert ([] + [MINUS_TWO_LINE]) + ["BEGIN"] == [MINUS_TWO_LINE, "BEGIN"];
  }

  lemma MinusTwoIsImproper(uid: int)
    requires 0 <= uid < LONG_MAX
    ensures !ProperlyVouched([MINUS_TWO_LINE, "BEGIN"], uid)
  {
    hide Parsed;
    hide Writes;
    MinusTwoParsed();
    MinusTwoIsAccepted(uid);
    ReadExactly("2d32", uid);
  }

  /** For every peer: NUL, one identity that writes minus two, and BEGIN get in,
      although nothing was offered that is empty or writes the peer's id. */
  lemma MinusTwoGetsIn(uid: int, ok: string)
    requires 0 <= uid < LONG_MAX
    ensures var (st, code) := Feed(State("", [], false, false, false, []), uid, ok, MINUS_TWO_SESSION);
            code.Begun? && !ProperlyVouched(st.seen, uid)
  {
    hide Lines;
    hide ProperlyVouched;
    MinusTwoLines(uid, ok);
    MinusTwoIsImproper(uid);
    var buf := MINUS_TWO_SESSION;
    assert "" + buf == buf && buf[0] == '\0' && buf[1..] == MINUS_TWO_STATE.inb;
  }

  predicate Asked(seen: seq<string>) {
    exists k :: 0 <= k < |seen| && Parsed(seen[k]).NegotiateFds?
  }

  lemma AskedSnoc(seen: seq<string>, line: string)
    ensures Asked(seen + [line]) <==> Asked(seen) || Parsed(line).NegotiateFds?
  {
    hide Parsed;
    var all, n := seen + [line], |seen|;
    if Asked(seen) {
      var k :| 0 <= k < n && Parsed(seen[k]).NegotiateFds?;
      assert Parsed(all[k]).NegotiateFds?;
    } else if Parsed(line).NegotiateFds? {
      assert Parsed(all[n]).NegotiateFds?;
    }
  }

  /** The flags say what the lines taken so far mean, and every line but BEGIN
      got one reply. */
  predicate Honest(st: State, uid: int) {
    && (st.authOk <==> Vouched(st.seen, uid))
    && (st.fds <==> Asked(st.seen))
  }

  predicate Replied(st: State, code: Code) {
    if code.More? then |st.out| == |st.seen|
    else st.seen != [] && Parsed(st.seen[|st.seen| - 1]).Begin? && |st.out| == |st.seen| - 1
  }

  lemma TakeLineHonest(st: State, uid: int, ok: string)
    requires Crlf(st.inb) < |st.inb| && Honest(st, uid) && |st.out| == |st.seen|
    ensures var (next, code) := TakeLine(st, uid, ok);
            Honest(next, uid) && Replied(next, code) && (code.Begun? ==> next.authOk) && (code.Broken? ==> !next.authOk)
  {
    hide Parsed;
    hide Accepts;
    hide Vouched;
    hide Asked;
    hide LineText;
    var line := LineText(st.inb[..Crlf(st.inb)]);
    VouchedSnoc(st.seen, line, uid);
    AskedSnoc(st.seen, line);
  }

  lemma {:induction false} LinesHonest(st: State, uid: int, ok: string)
    requires Honest(st, uid) && |st.out| == |st.seen|
    ensures var (next, code) := Lines(st, uid, ok);
            Honest(next, uid) && Replied(next, code) && (code.Begun? ==> next.authOk) && (code.Broken? ==> !next.authOk)
    decreases |st.inb|
  {
    if Crlf(st.inb) < |st.inb| {
      TakeLineInput(st, uid, ok);
      TakeLineHonest(st, uid, ok);
      hide TakeLine;
      hide Honest;
      var (next, code) := TakeLine(st, uid, ok);
      if code.More? {
        LinesHonest(next, uid, ok);
      }
    }
  }

  /** Only a client that offered an accepted identity since its last CANCEL gets
      past BEGIN, whatever it sends and however it is cut into reads. */
  lemma OnlyVouchedBegin(st: State, uid: int, ok: string, buf: string)
    requires Honest(st, uid) && |st.out| == |st.seen|
    ensures var (next, code) := Feed(st, uid, ok, buf);
            Honest(next, uid) && (code.More? ==> |next.out| == |next.seen|) && (code.Begun? ==> Vouched(next.seen, uid))
  {
    hide Lines;
    hide Vouched;
    hide Asked;
    var one := With(st, buf);
    LinesHonest(one, uid, ok);
    if one.inb != "" {
      LinesHonest(AfterNul(one), uid, ok);
    }
  }

  lemma FreshIsHonest(uid: int)
    ensures Honest(State("", [], false, false, false, []), uid)
  {
  }
}

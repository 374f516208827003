/**
 Reading a formatted line gives the sanitised event, formatting that again
 gives the same line, and every line fits the sender's buffer.
 */
module RecorderRoundTrip {
  import opened Common
  import opened Decimal
  import opened TextLines
  import opened RecorderLine

  /** A blank and a pair, as Format strings them together. */
  lemma {:induction false} ParseStep(key: string, val: string, rest: string, st: Parsed)
    requires key != [] && PlainWord(key) && |key| < KEY_SIZE && key != "msg"
    requires PlainWord(val) && |val| < MSG_SIZE && (rest == [] || rest[0] == ' ')
    ensures ParseFrom(" " + Pair(key, val) + rest, st) == ParseFrom(rest, Accept(st, key, val))
  {
    hide Accept;
    assert " " + Pair(key, val) + rest == " " + (Pair(key, val) + rest);
    ParseBlank(Pair(key, val) + rest, st);
    ParsePair(key, val, rest, st);
  }

  predicate GoodKey(key: string) {
    key != [] && ' ' !in key && '\n' !in key && '=' !in key && |key| < KEY_SIZE && key != "msg"
  }

  lemma Keys()
    ensures GoodKey("ts") && GoodKey("src") && GoodKey("kind") && GoodKey("comm") && GoodKey("pid")
    ensures GoodKey("rc") && GoodKey("crit") && GoodKey("subj") && GoodKey("tier") && GoodKey("boot")
  {
    assert GoodKey("ts");
    assert "src"[0] != 'm' && GoodKey("src");
    assert GoodKey("kind");
    assert GoodKey("comm");
    assert "pid"[0] != 'm' && GoodKey("pid");
    assert GoodKey("rc");
    assert GoodKey("crit");
    assert GoodKey("subj");
    assert GoodKey("tier");
    assert GoodKey("boot");
  }

  predicate GoodVal(val: string) {
    PlainWord(val) && |val| < MSG_SIZE
  }

  lemma {:induction false} Step(key: string, val: string, rest: string, st: Parsed)
    requires GoodKey(key) && GoodVal(val) && (rest == [] || rest[0] == ' ')
    ensures ParseFrom(" " + Pair(key, val) + rest, st) == ParseFrom(rest, Accept(st, key, val))
  {
    hide Accept;
    assert forall i :: 0 <= i < |key| ==> key[i] in key;
    ParseStep(key, val, rest, st);
  }

  // ---- the values are plain words ----

  lemma WordIsGood(s: string, size: nat)
    requires 0 < size <= MSG_SIZE
    ensures GoodVal(Word(s, size)) && |Word(s, size)| < size
  {
  }

  lemma {:induction false} NatIsGood(n: nat)
    requires n <= UINT64_MAX
    ensures GoodVal(NatText(n)) && |NatText(n)| <= 20
  {
    Pow10Twenty();
    TextLength(n, 20, Pow10(20));
  }

  lemma Pow10Twenty()
    ensures Pow10(20) > UINT64_MAX && Pow10(10) == 10_000_000_000 && Pow10(3) == 1000
  {
    assert Pow10(5) == 100_000;
    assert Pow10(8) == 100_000_000;
    assert Pow10(10) == 10_000_000_000;
    assert Pow10(13) == 10_000_000_000_000;
    assert Pow10(16) == 10_000_000_000_000_000;
    assert Pow10(19) == 10_000_000_000_000_000_000;
  }

  lemma IntIsGood(n: int)
    requires -0x8000_0000 <= n < 0x8000_0000
    ensures GoodVal(IntText(n)) && |IntText(n)| <= 11
  {
    Pow10Twenty();
    TextLength(if n < 0 then -n else n, 10, Pow10(10));
  }

  lemma {:induction false} SmallIsGood(n: nat)
    requires n < 256
    ensures GoodVal(NatText(n)) && |NatText(n)| <= 3
  {
    Pow10Twenty();
    TextLength(n, 3, Pow10(3));
  }

  lemma SourceIsGood(src: nat)
    ensures GoodVal(SourceName(src)) && |SourceName(src)| <= 8
  {
  }

  // ---- the chain ----

  function After(st: Parsed, e: Event): Parsed {
    var s1 := Accept(st, "ts", NatText(e.ts));
    var s2 := Accept(s1, "src", SourceName(e.src));
    var s3 := Accept(s2, "kind", Word(e.kind, KIND_SIZE));
    var s4 := Accept(s3, "comm", Word(e.comm, COMM_SIZE));
    var s5 := Accept(s4, "pid", IntText(e.pid));
    var s6 := Accept(s5, "rc", IntText(e.rc));
    var s7 := Accept(s6, "crit", NatText(e.crit));
    var s8 := Accept(s7, "subj", Word(e.subj, SUBJ_SIZE));
    var s9 := Accept(s8, "tier", NatText(e.tier));
    var s10 := Accept(s9, "boot", Word(e.boot, BOOT_SIZE));
    Accept(s10, "msg", MapMsg(Fitted(e.msg, MSG_SIZE)))
  }

  lemma {:induction false} Tail(e: Event, st: Parsed, rest5: string, rest4: string, rest3: string, rest2: string,
                      rest1: string)
    requires EventOk(e)
    requires rest1 == " " + Pair("msg", MapMsg(Fitted(e.msg, MSG_SIZE)))
    requires rest2 == " " + Pair("boot", Word(e.boot, BOOT_SIZE)) + rest1
    requires rest3 == " " + Pair("tier", NatText(e.tier)) + rest2
    requires rest4 == " " + Pair("subj", Word(e.subj, SUBJ_SIZE)) + rest3
    requires rest5 == " " + Pair("crit", NatText(e.crit)) + rest4
    ensures ParseFrom(rest5, st) ==
            Accept(Accept(Accept(Accept(Accept(st, "crit", NatText(e.crit)), "subj", Word(e.subj, SUBJ_SIZE)),
                                 "tier", NatText(e.tier)), "boot", Word(e.boot, BOOT_SIZE)),
                   "msg", MapMsg(Fitted(e.msg, MSG_SIZE)))
  {
    hide Accept;
    hide ParseFrom;
    hide GoodKey;
    Keys();
    SmallIsGood(e.crit);
    WordIsGood(e.subj, SUBJ_SIZE);
    SmallIsGood(e.tier);
    WordIsGood(e.boot, BOOT_SIZE);
    hide GoodVal;
    hide Pair;
    hide Word;
    var s7 := Accept(st, "crit", NatText(e.crit));
    Step("crit", NatText(e.crit), rest4, st);
    var s8 := Accept(s7, "subj", Word(e.subj, SUBJ_SIZE));
    Step("subj", Word(e.subj, SUBJ_SIZE), rest3, s7);
    var s9 := Accept(s8, "tier", NatText(e.tier));
    Step("tier", NatText(e.tier), rest2, s8);
    var s10 := Accept(s9, "boot", Word(e.boot, BOOT_SIZE));
    Step("boot", Word(e.boot, BOOT_SIZE), rest1, s9);
    MsgIsLast(e, s10);
  }

  lemma {:induction false} MsgIsLast(e: Event, st: Parsed)
    requires EventOk(e)
    ensures ParseFrom(" " + Pair("msg", MapMsg(Fitted(e.msg, MSG_SIZE))), st) ==
            Accept(st, "msg", MapMsg(Fitted(e.msg, MSG_SIZE)))
  {
    hide Accept;
    var m := MapMsg(Fitted(e.msg, MSG_SIZE));
    ParseBlank(Pair("msg", m), st);
    ParseMsg(m, st);
  }

  lemma {:induction false} Head(e: Event, st: Parsed, rest10: string, rest9: string, rest8: string, rest7: string,
                      rest6: string, rest5: string)
    requires EventOk(e) && rest5 != [] && rest5[0] == ' '
    requires rest6 == " " + Pair("rc", IntText(e.rc)) + rest5
    requires rest7 == " " + Pair("pid", IntText(e.pid)) + rest6
    requires rest8 == " " + Pair("comm", Word(e.comm, COMM_SIZE)) + rest7
    requires rest9 == " " + Pair("kind", Word(e.kind, KIND_SIZE)) + rest8
    requires rest10 == " " + Pair("src", SourceName(e.src)) + rest9
    ensures ParseFrom(rest10, st) ==
            ParseFrom(rest5, Accept(Accept(Accept(Accept(Accept(st, "src", SourceName(e.src)),
                "kind", Word(e.kind, KIND_SIZE)), "comm", Word(e.comm, COMM_SIZE)), "pid", IntText(e.pid)),
                "rc", IntText(e.rc)))
  {
    hide Accept;
    hide ParseFrom;
    hide GoodKey;
    Keys();
    SourceIsGood(e.src);
    WordIsGood(e.kind, KIND_SIZE);
    WordIsGood(e.comm, COMM_SIZE);
    IntIsGood(e.pid);
    IntIsGood(e.rc);
    hide GoodVal;
    hide Pair;
    hide Word;
    hide SourceName;
    var s2 := Accept(st, "src", SourceName(e.src));
    Step("src", SourceName(e.src), rest9, st);
    var s3 := Accept(s2, "kind", Word(e.kind, KIND_SIZE));
    Step("kind", Word(e.kind, KIND_SIZE), rest8, s2);
    var s4 := Accept(s3, "comm", Word(e.comm, COMM_SIZE));
    Step("comm", Word(e.comm, COMM_SIZE), rest7, s3);
    var s5 := Accept(s4, "pid", IntText(e.pid));
    Step("pid", IntText(e.pid), rest6, s4);
    Step("rc", IntText(e.rc), rest5, s5);
  }

  lemma {:induction false} ParseFormat(e: Event, st: Parsed)
    requires EventOk(e)
    ensures ParseFrom(Format(e), st) == After(st, e)
  {
    var rest1 := " " + Pair("msg", MapMsg(Fitted(e.msg, MSG_SIZE)));
    var rest2 := " " + Pair("boot", Word(e.boot, BOOT_SIZE)) + rest1;
    var rest3 := " " + Pair("tier", NatText(e.tier)) + rest2;
    var rest4 := " " + Pair("subj", Word(e.subj, SUBJ_SIZE)) + rest3;
    var rest5 := " " + Pair("crit", NatText(e.crit)) + rest4;
    var rest6 := " " + Pair("rc", IntText(e.rc)) + rest5;
    var rest7 := " " + Pair("pid", IntText(e.pid)) + rest6;
    var rest8 := " " + Pair("comm", Word(e.comm, COMM_SIZE)) + rest7;
    var rest9 := " " + Pair("kind", Word(e.kind, KIND_SIZE)) + rest8;
    var rest10 := " " + Pair("src", SourceName(e.src)) + rest9;
    hide Accept;
    hide ParseFrom;
    hide Pair;
    hide Word;
    hide SourceName;
    hide MapMsg;
    assert Format(e) == Pair("ts", NatText(e.ts)) + rest10;
    var s1 := Accept(st, "ts", NatText(e.ts));
    TsFirst(e, rest10, st);
    Head(e, s1, rest10, rest9, rest8, rest7, rest6, rest5);
    var s2 := Accept(s1, "src", SourceName(e.src));
    var s3 := Accept(s2, "kind", Word(e.kind, KIND_SIZE));
    var s4 := Accept(s3, "comm", Word(e.comm, COMM_SIZE));
    var s6 := Accept(Accept(s4, "pid", IntText(e.pid)), "rc", IntText(e.rc));
    Tail(e, s6, rest5, rest4, rest3, rest2, rest1);
  }

  lemma {:induction false} TsFirst(e: Event, rest: string, st: Parsed)
    requires EventOk(e) && rest != [] && rest[0] == ' '
    ensures ParseFrom(Pair("ts", NatText(e.ts)) + rest, st) == ParseFrom(rest, Accept(st, "ts", NatText(e.ts)))
  {
    hide Accept;
    NatIsGood(e.ts);
    ParsePair("ts", NatText(e.ts), rest, st);
  }

  // ---- what the chain collects ----

  lemma {:induction false} UnsignedBack(n: nat)
    requires n <= UINT64_MAX
    ensures ReadUnsigned(NatText(n)) == n
  {
    ScanText(n, []);
    assert IntText(n) + [] == NatText(n);
  }

  lemma Int32Back(n: int)
    requires -0x8000_0000 <= n < 0x8000_0000
    ensures ReadInt32(IntText(n)) == n
  {
    ScanText(n, []);
    assert IntText(n) + [] == IntText(n);
  }

  lemma SourceBack(src: nat)
    ensures SourceOf(SourceName(src)) == if KnownSource(src) then src else 0
  {
    assert "pid1"[0] == 'p' && "psi"[0] == 'p' && |"pid1"| != |"psi"|;
    assert |"coredump"| == |"earlyoom"| && "coredump"[0] != "earlyoom"[0];
  }

  lemma WordFits(s: string, size: nat)
    requires size > 0
    ensures Fitted(Word(s, size), size) == Word(s, size)
  {
  }

  lemma AcceptNumbers(st: Parsed, v: string)
    ensures Accept(st, "ts", v) == st.(e := st.e.(ts := ReadUnsigned(v)), hasTs := true)
    ensures Accept(st, "pid", v) == st.(e := st.e.(pid := ReadInt32(v)))
    ensures Accept(st, "rc", v) == st.(e := st.e.(rc := ReadInt32(v)))
    ensures Accept(st, "tier", v) == st.(e := st.e.(tier := ReadUnsigned(v) % 256))
    ensures Accept(st, "crit", v) == st.(e := st.e.(crit := ReadUnsigned(v) % 256))
  {
    hide ReadUnsigned;
    hide ReadInt32;
  }

  lemma AcceptWords(st: Parsed, v: string)
    ensures Accept(st, "src", v) ==
            if SourceOf(v) == 0 then st else st.(e := st.e.(src := SourceOf(v)), hasSrc := true)
    ensures Accept(st, "kind", v) == st.(e := st.e.(kind := Fitted(v, KIND_SIZE)), hasKind := true)
    ensures Accept(st, "comm", v) == st.(e := st.e.(comm := Fitted(v, COMM_SIZE)))
    ensures Accept(st, "subj", v) == st.(e := st.e.(subj := Fitted(v, SUBJ_SIZE)))
    ensures Accept(st, "boot", v) == st.(e := st.e.(boot := Fitted(v, BOOT_SIZE)))
    ensures Accept(st, "msg", v) == st.(e := st.e.(msg := Fitted(v, MSG_SIZE)))
  {
    hide SourceOf;
  }

  lemma FirstHalf(e: Event)
    requires EventOk(e)
    ensures var s1 := Accept(NOTHING, "ts", NatText(e.ts));
            var s2 := Accept(s1, "src", SourceName(e.src));
            var s3 := Accept(s2, "kind", Word(e.kind, KIND_SIZE));
            var s4 := Accept(s3, "comm", Word(e.comm, COMM_SIZE));
            Accept(s4, "pid", IntText(e.pid)) ==
            Parsed(NO_EVENT.(ts := e.ts, src := if KnownSource(e.src) then e.src else 0,
                             kind := Word(e.kind, KIND_SIZE), comm := Word(e.comm, COMM_SIZE), pid := e.pid),
                   true, KnownSource(e.src), true)
  {
    hide Accept;
    hide Word;
    hide SourceName;
    hide SourceOf;
    hide ReadUnsigned;
    hide ReadInt32;
    hide Fitted;
    UnsignedBack(e.ts);
    SourceBack(e.src);
    Int32Back(e.pid);
    WordFits(e.kind, KIND_SIZE);
    WordFits(e.comm, COMM_SIZE);
    var s1 := Accept(NOTHING, "ts", NatText(e.ts));
    AcceptNumbers(NOTHING, NatText(e.ts));
    AcceptWords(s1, SourceName(e.src));
    var s2 := Accept(s1, "src", SourceName(e.src));
    AcceptWords(s2, Word(e.kind, KIND_SIZE));
    var s3 := Accept(s2, "kind", Word(e.kind, KIND_SIZE));
    AcceptWords(s3, Word(e.comm, COMM_SIZE));
    var s4 := Accept(s3, "comm", Word(e.comm, COMM_SIZE));
    AcceptNumbers(s4, IntText(e.pid));
  }

  lemma SecondHalf(e: Event, s5: Parsed)
    requires EventOk(e)
    ensures var s6 := Accept(s5, "rc", IntText(e.rc));
            var s7 := Accept(s6, "crit", NatText(e.crit));
            var s8 := Accept(s7, "subj", Word(e.subj, SUBJ_SIZE));
            var s9 := Accept(s8, "tier", NatText(e.tier));
            var s10 := Accept(s9, "boot", Word(e.boot, BOOT_SIZE));
            Accept(s10, "msg", MapMsg(Fitted(e.msg, MSG_SIZE))) ==
            s5.(e := s5.e.(rc := e.rc, crit := e.crit, subj := Word(e.subj, SUBJ_SIZE), tier := e.tier,
                           boot := Word(e.boot, BOOT_SIZE), msg := MapMsg(Fitted(e.msg, MSG_SIZE))))
  {
    hide Accept;
    hide Word;
    hide ReadUnsigned;
    hide ReadInt32;
    hide Fitted;
    hide MapMsg;
    Int32Back(e.rc);
    UnsignedBack(e.crit);
    UnsignedBack(e.tier);
    WordFits(e.subj, SUBJ_SIZE);
    WordFits(e.boot, BOOT_SIZE);
    MsgFits(e.msg);
    var s6 := Accept(s5, "rc", IntText(e.rc));
    AcceptNumbers(s5, IntText(e.rc));
    var s7 := Accept(s6, "crit", NatText(e.crit));
    AcceptNumbers(s6, NatText(e.crit));
    var s8 := Accept(s7, "subj", Word(e.subj, SUBJ_SIZE));
    AcceptWords(s7, Word(e.subj, SUBJ_SIZE));
    var s9 := Accept(s8, "tier", NatText(e.tier));
    AcceptNumbers(s8, NatText(e.tier));
    var s10 := Accept(s9, "boot", Word(e.boot, BOOT_SIZE));
    AcceptWords(s9, Word(e.boot, BOOT_SIZE));
    AcceptWords(s10, MapMsg(Fitted(e.msg, MSG_SIZE)));
  }

  lemma MsgFits(s: string)
    ensures Fitted(MapMsg(Fitted(s, MSG_SIZE)), MSG_SIZE) == MapMsg(Fitted(s, MSG_SIZE))
  {
  }

  lemma AfterIs(e: Event)
    requires EventOk(e)
    ensures After(NOTHING, e) ==
            Parsed(Sanitised(e).(src := if KnownSource(e.src) then e.src else 0), true, KnownSource(e.src), true)
  {
    hide Accept;
    hide Word;
    hide Fitted;
    hide MapMsg;
    hide SourceName;
    FirstHalf(e);
    var s1 := Accept(NOTHING, "ts", NatText(e.ts));
    var s2 := Accept(s1, "src", SourceName(e.src));
    var s3 := Accept(s2, "kind", Word(e.kind, KIND_SIZE));
    var s4 := Accept(s3, "comm", Word(e.comm, COMM_SIZE));
    SecondHalf(e, Accept(s4, "pid", IntText(e.pid)));
  }

  /** A line from any event with a known source reads back as that event,
      sanitised; without a known source it is refused. */
  lemma RoundTrip(e: Event)
    requires EventOk(e)
    ensures Parse(Format(e)) == if KnownSource(e.src) then Good(Sanitised(e)) else Bad
  {
    hide *;
    ParseFormat(e, NOTHING);
    AfterIs(e);
    Verdict(e);
  }

  lemma Verdict(e: Event)
    requires ParseFrom(Format(e), NOTHING) ==
             Parsed(Sanitised(e).(src := if KnownSource(e.src) then e.src else 0), true, KnownSource(e.src), true)
    ensures Parse(Format(e)) == if KnownSource(e.src) then Good(Sanitised(e)) else Bad
  {
    hide ParseFrom;
    hide Format;
  }

  // ---- sanitising once is enough ----

  lemma {:induction false} MapWordTwice(s: string)
    ensures MapWord(MapWord(s)) == MapWord(s)
  {
  }

  lemma {:induction false} MapMsgTwice(s: string)
    ensures MapMsg(MapMsg(s)) == MapMsg(s)
  {
  }

  lemma SanitisedAgain(e: Event)
    requires EventOk(e)
    ensures EventOk(Sanitised(e))
    ensures Format(Sanitised(e)) == Format(e)
  {
    hide NatText;
    hide IntText;
    hide SourceName;
    WordTwice(e.kind, KIND_SIZE);
    WordTwice(e.boot, BOOT_SIZE);
    WordTwice(e.comm, COMM_SIZE);
    WordTwice(e.subj, SUBJ_SIZE);
    MapMsgTwice(e.msg);
    hide Word;
  }

  lemma WordTwice(s: string, size: nat)
    requires size > 0 && Fits(s, size)
    ensures Fits(Word(s, size), size) && Word(Word(s, size), size) == Word(s, size)
  {
    MapWordTwice(s);
  }

  // ---- the buffer ----

  /** 401 bytes at most: the sender's 640-byte buffer never drops an event. */
  lemma FitsBuffer(e: Event)
    requires EventOk(e)
    ensures |Format(e)| <= 401 < SEND_BUFFER
  {
    NatIsGood(e.ts);
    SmallIsGood(e.crit);
    SmallIsGood(e.tier);
    IntIsGood(e.pid);
    IntIsGood(e.rc);
    SourceIsGood(e.src);
    hide SourceName;
    hide NatText;
    hide IntText;
  }
}

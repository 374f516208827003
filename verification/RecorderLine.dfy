/**
 The flight recorder's line format: an event as `key=value` words, the free
 text last so that it may hold blanks, and the tolerant reader of such lines.
 */
module RecorderLine {
  import opened Common
  import opened Decimal
  import opened TextLines

  const KIND_SIZE := 24
  const BOOT_SIZE := 12
  const COMM_SIZE := 32
  const SUBJ_SIZE := 64
  const MSG_SIZE := 160
  const KEY_SIZE := 16
  const SEND_BUFFER := 640

  datatype Event = Event(ts: nat, src: nat, tier: nat, crit: nat, pid: int, rc: int,
                         kind: string, boot: string, comm: string, subj: string, msg: string)

  const NO_EVENT := Event(0, 0, 0, 0, 0, 0, "", "", "", "", "")

  /** What the fields of an event can hold. */
  predicate EventOk(e: Event) {
    && e.ts <= UINT64_MAX && e.src < 256 && e.tier < 256 && e.crit < 256
    && -0x8000_0000 <= e.pid < 0x8000_0000 && -0x8000_0000 <= e.rc < 0x8000_0000
    && Fits(e.kind, KIND_SIZE) && Fits(e.boot, BOOT_SIZE) && Fits(e.comm, COMM_SIZE)
    && Fits(e.subj, SUBJ_SIZE) && Fits(e.msg, MSG_SIZE)
  }

  predicate KnownSource(src: nat) {
    1 <= src <= 5
  }

  function SourceName(src: nat): string {
    if src == 1 then "pid1"
    else if src == 2 then "coredump"
    else if src == 3 then "session"
    else if src == 4 then "earlyoom"
    else if src == 5 then "psi"
    else "?"
  }

  function SourceOf(name: string): nat {
    if name == "pid1" then 1
    else if name == "coredump" then 2
    else if name == "session" then 3
    else if name == "earlyoom" then 4
    else if name == "psi" then 5
    else 0
  }

  // ---- sanitising ----

  function WordChar(c: char): char {
    if c <= ' ' || c == '=' || c == 0x7f as char then '_' else c
  }

  function MapWord(s: string): (r: string)
    ensures |r| == |s| && forall i :: 0 <= i < |s| ==> r[i] == WordChar(s[i])
  {
    if s == [] then [] else [WordChar(s[0])] + MapWord(s[1..])
  }

  function Word(s: string, size: nat): string
    requires size > 0
  {
    MapWord(Fitted(s, size))
  }

  function MsgChar(c: char): char {
    if c == '\n' || c == '\r' then ' ' else c
  }

  function MapMsg(s: string): (r: string)
    ensures |r| == |s| && forall i :: 0 <= i < |s| ==> r[i] == MsgChar(s[i])
  {
    if s == [] then [] else [MsgChar(s[0])] + MapMsg(s[1..])
  }

  function Sanitised(e: Event): Event {
    e.(kind := Word(e.kind, KIND_SIZE), boot := Word(e.boot, BOOT_SIZE), comm := Word(e.comm, COMM_SIZE),
       subj := Word(e.subj, SUBJ_SIZE), msg := MapMsg(Fitted(e.msg, MSG_SIZE)))
  }

  // ---- writing ----

  function Pair(key: string, val: string): string {
    key + "=" + val
  }

  function Format(e: Event): string {
    Pair("ts", NatText(e.ts)) + (" " + Pair("src", SourceName(e.src)) +
    (" " + Pair("kind", Word(e.kind, KIND_SIZE)) + (" " + Pair("comm", Word(e.comm, COMM_SIZE)) +
    (" " + Pair("pid", IntText(e.pid)) + (" " + Pair("rc", IntText(e.rc)) +
    (" " + Pair("crit", NatText(e.crit)) + (" " + Pair("subj", Word(e.subj, SUBJ_SIZE)) +
    (" " + Pair("tier", NatText(e.tier)) + (" " + Pair("boot", Word(e.boot, BOOT_SIZE)) +
    (" " + Pair("msg", MapMsg(Fitted(e.msg, MSG_SIZE)))))))))))))
  }

  // ---- reading ----

  datatype Parsed = Parsed(e: Event, hasTs: bool, hasSrc: bool, hasKind: bool)

  const NOTHING := Parsed(NO_EVENT, false, false, false)

  function Clamp(n: int, lo: int, hi: int): int {
    if n < lo then lo else if n > hi then hi else n
  }

  /** What strtoull reads. */
  function ReadUnsigned(v: string): (r: nat)
    ensures r <= UINT64_MAX
  {
    Unsigned64(Scan(v).value)
  }

  /** strtol, cut down to 32 signed bits. */
  function ReadInt32(v: string): int {
    var w := Clamp(Scan(v).value, -0x8000_0000_0000_0000, 0x7fff_ffff_ffff_ffff) % 0x1_0000_0000;
    if w >= 0x8000_0000 then w - 0x1_0000_0000 else w
  }

  function Accept(st: Parsed, key: string, val: string): Parsed {
    if key == "ts" then st.(e := st.e.(ts := ReadUnsigned(val)), hasTs := true)
    else if key == "src" then
      if SourceOf(val) == 0 then st else st.(e := st.e.(src := SourceOf(val)), hasSrc := true)
    else if key == "kind" then st.(e := st.e.(kind := Fitted(val, KIND_SIZE)), hasKind := true)
    else if key == "comm" then st.(e := st.e.(comm := Fitted(val, COMM_SIZE)))
    else if key == "subj" then st.(e := st.e.(subj := Fitted(val, SUBJ_SIZE)))
    else if key == "boot" then st.(e := st.e.(boot := Fitted(val, BOOT_SIZE)))
    else if key == "msg" then st.(e := st.e.(msg := Fitted(val, MSG_SIZE)))
    else if key == "pid" then st.(e := st.e.(pid := ReadInt32(val)))
    else if key == "rc" then st.(e := st.e.(rc := ReadInt32(val)))
    else if key == "tier" then st.(e := st.e.(tier := ReadUnsigned(val) % 256))
    else if key == "crit" then st.(e := st.e.(crit := ReadUnsigned(val) % 256))
    else st
  }

  /** End of the word that starts here: a blank, a newline or the end. */
  function WordEnd(s: string): (k: nat)
    ensures k <= |s|
    ensures forall i :: 0 <= i < k ==> s[i] != ' ' && s[i] != '\n'
    ensures k < |s| ==> s[k] == ' ' || s[k] == '\n'
  {
    if s == [] || s[0] == ' ' || s[0] == '\n' then 0 else 1 + WordEnd(s[1..])
  }

  function ParseFrom(s: string, st: Parsed): Parsed
    decreases |s|
  {
    var p := SkipBlanks(s);
    if p == [] || p[0] == '\n' then st else
      var eq, end := Find(p, '='), WordEnd(p);
      if eq >= end then ParseFrom(p[end..], st)
      else
        var key := p[..eq];
        var stop := if key == "msg" then eq + 1 + Find(p[eq + 1..], '\n') else end;
        if |key| >= KEY_SIZE then ParseFrom(p[stop..], st)
        else ParseFrom(p[stop..], Accept(st, key, Fitted(p[eq + 1..stop], MSG_SIZE)))
  }

  datatype Outcome = Bad | Good(e: Event)

  function Parse(line: string): Outcome {
    var st := ParseFrom(line, NOTHING);
    if st.hasTs && st.hasSrc && st.hasKind then Good(st.e) else Bad
  }

  // ---- one pair ----

  predicate PlainWord(s: string) {
    forall i :: 0 <= i < |s| ==> s[i] != ' ' && s[i] != '\n' && s[i] != '='
  }

  lemma PairEnds(key: string, val: string, rest: string)
    requires key != [] && PlainWord(key) && PlainWord(val) && (rest == [] || rest[0] == ' ')
    ensures var s := Pair(key, val) + rest;
            && SkipBlanks(s) == s && s[0] != '\n'
            && Find(s, '=') == |key| && WordEnd(s) == |key| + 1 + |val|
  {
    var s := Pair(key, val) + rest;
    assert s[0] == key[0];
    assert s == key + ['='] + (val + rest);
    FindIs(key, '=', val + rest);
    WordEndIs(Pair(key, val), rest);
  }

  lemma {:induction false} WordEndIs(w: string, rest: string)
    requires forall i :: 0 <= i < |w| ==> w[i] != ' ' && w[i] != '\n'
    requires rest == [] || rest[0] == ' '
    ensures WordEnd(w + rest) == |w|
  {
    if w == [] {
      assert w + rest == rest;
    } else {
      assert (w + rest)[1..] == w[1..] + rest;
      WordEndIs(w[1..], rest);
    }
  }

  /** A printed pair is taken in one step. */
  lemma {:induction false} ParsePair(key: string, val: string, rest: string, st: Parsed)
    requires key != [] && PlainWord(key) && |key| < KEY_SIZE && key != "msg"
    requires PlainWord(val) && |val| < MSG_SIZE && (rest == [] || rest[0] == ' ')
    ensures ParseFrom(Pair(key, val) + rest, st) == ParseFrom(rest, Accept(st, key, val))
  {
    hide Accept;
    PairEnds(key, val, rest);
    var s := Pair(key, val) + rest;
    assert s[..|key|] == key && s[|key| + 1..|key| + 1 + |val|] == val && s[|key| + 1 + |val|..] == rest;
  }

  lemma {:induction false} ParseBlank(s: string, st: Parsed)
    ensures ParseFrom(" " + s, st) == ParseFrom(s, st)
  {
    hide Accept;
    hide Find;
    hide WordEnd;
    assert SkipBlanks(" " + s) == SkipBlanks(s) by {
      assert (" " + s)[1..] == s;
    }
    hide SkipBlanks;
  }

  /** The message runs to the end of the line, blanks and equals signs included. */
  lemma {:induction false} ParseMsg(val: string, st: Parsed)
    requires Free(val, '\n') && |val| < MSG_SIZE
    ensures ParseFrom(Pair("msg", val), st) == Accept(st, "msg", val)
  {
    hide Accept;
    var s := Pair("msg", val);
    assert s == "msg" + ['='] + val;
    FindIs("msg", '=', val);
    var end := WordEnd(s);
    assert end >= 4 by {
      assert s[0] == 'm' && s[1] == 's' && s[2] == 'g' && s[3] == '=';
    }
    assert SkipBlanks(s) == s;
    assert s[..3] == "msg" && s[4..] == val;
    FindNone(val, '\n');
    assert s[4..|s|] == val && s[|s|..] == [];
  }
}

/**
 The recorder's formatter and reader as loops over the text.
 */
module RecorderCode {
  import opened Common
  import opened Decimal
  import opened TextLines
  import opened RecorderLine

  method RecWord(s: string, size: nat) returns (dst: string)
    requires size > 0
    ensures dst == Word(s, size)
  {
    dst := [];
    var i := 0;
    while i < |s| && i + 1 < size
      invariant 0 <= i <= |s| && i < size && |dst| == i
      invariant forall j :: 0 <= j < i ==> dst[j] == WordChar(s[j])
    {
      dst := dst + [WordChar(s[i])];
      i := i + 1;
    }
    var w := Word(s, size);
    assert |w| == i && forall j :: 0 <= j < i ==> dst[j] == w[j];
  }

  method RecMsg(s: string) returns (dst: string)
    ensures dst == MapMsg(Fitted(s, MSG_SIZE))
  {
    var t := Fitted(s, MSG_SIZE);
    dst := t;
    var i := 0;
    while i < |t|
      invariant 0 <= i <= |t| && |dst| == |t|
      invariant forall j :: 0 <= j < i ==> dst[j] == MsgChar(t[j])
      invariant forall j :: i <= j < |t| ==> dst[j] == t[j]
    {
      dst := dst[i := MsgChar(t[i])];
      i := i + 1;
    }
  }

  /** The line, or failure when it does not fit `size` bytes with a terminator. */
  method RecFormat(e: Event, size: nat) returns (ok: bool, line: string)
    ensures line == Format(e)
    ensures ok <==> |line| < size
  {
    var kind := RecWord(e.kind, KIND_SIZE);
    var comm := RecWord(e.comm, COMM_SIZE);
    var subj := RecWord(e.subj, SUBJ_SIZE);
    var boot := RecWord(e.boot, BOOT_SIZE);
    var msg := RecMsg(e.msg);
    line := Pair("ts", NatText(e.ts)) + (" " + Pair("src", SourceName(e.src)) +
            (" " + Pair("kind", kind) + (" " + Pair("comm", comm) +
            (" " + Pair("pid", IntText(e.pid)) + (" " + Pair("rc", IntText(e.rc)) +
            (" " + Pair("crit", NatText(e.crit)) + (" " + Pair("subj", subj) +
            (" " + Pair("tier", NatText(e.tier)) + (" " + Pair("boot", boot) +
            (" " + Pair("msg", msg)))))))))));
    ok := |line| < size;
  }

  /** Where the pair or word at the start of `q` ends. */
  function Stop(q: string): (k: nat)
    requires q != [] && q[0] != ' ' && q[0] != '\n'
    ensures 0 < k <= |q|
  {
    var eq, end := Find(q, '='), WordEnd(q);
    if eq < end && q[..eq] == "msg" then eq + 1 + Find(q[eq + 1..], '\n') else end
  }

  function Taken(q: string, st: Parsed): Parsed
    requires q != [] && q[0] != ' ' && q[0] != '\n'
  {
    var eq := Find(q, '=');
    if eq >= WordEnd(q) || eq >= KEY_SIZE then st
    else Accept(st, q[..eq], Fitted(q[eq + 1..Stop(q)], MSG_SIZE))
  }

  lemma {:induction false} ParseTurn(p: string, st: Parsed)
    ensures var q := SkipBlanks(p);
            ParseFrom(p, st) ==
            if q == [] || q[0] == '\n' then st else ParseFrom(q[Stop(q)..], Taken(q, st))
  {
    hide Accept;
  }

  method WordStop(q: string) returns (end: nat)
    ensures end == WordEnd(q)
  {
    end := 0;
    assert q[0..] == q;
    while end < |q| && q[end] != ' ' && q[end] != '\n'
      invariant 0 <= end <= |q|
      invariant WordEnd(q) == end + WordEnd(q[end..])
    {
      assert q[end..][1..] == q[end + 1..];
      end := end + 1;
    }
  }

  method RecParse(line: string) returns (r: Outcome)
    ensures r == Parse(line)
  {
    hide Accept;
    hide ParseFrom;
    var p, st := line, NOTHING;
    while true
      invariant ParseFrom(p, st) == ParseFrom(line, NOTHING)
      decreases |p|
    {
      ParseTurn(p, st);
      var q := DropBlanks(p);
      if q == [] || q[0] == '\n' { break; }
      var eq := Find(q, '=');
      var end := WordStop(q);
      var stop := end;
      if eq < end {
        var key := q[..eq];
        if key == "msg" {
          stop := eq + 1 + Find(q[eq + 1..], '\n');
        }
        if |key| < KEY_SIZE {
          st := Accept(st, key, Fitted(q[eq + 1..stop], MSG_SIZE));
        }
      }
      p := q[stop..];
    }
    r := if st.hasTs && st.hasSrc && st.hasKind then Good(st.e) else Bad;
  }

  method DropBlanks(s: string) returns (r: string)
    ensures r == SkipBlanks(s)
  {
    var i := 0;
    assert s[0..] == s;
    while i < |s| && s[i] == ' '
      invariant 0 <= i <= |s| && SkipBlanks(s) == SkipBlanks(s[i..])
    {
      assert s[i..][1..] == s[i + 1..];
      i := i + 1;
    }
    r := s[i..];
  }
}

/**
 The blob's writer and reader as loops, and the check of a read blob against a
 fresh parse of the service files.
 */
module ReexecState {
  import opened Common
  import opened TextLines
  import opened ReexecValues
  import opened ReexecRecord
  import opened ReexecSchemas
  import opened ReexecBlob

  // ---- escapes ----

  method RxEscape(s: string) returns (out: string)
    requires Bytes(s)
    ensures out == Escape(s)
  {
    out := [];
    var i := 0;
    assert s[0..] == s;
    while i < |s|
      invariant 0 <= i <= |s|
      invariant out + Escape(s[i..]) == Escape(s)
    {
      assert s[i..][1..] == s[i + 1..];
      out := out + EscapeChar(s[i]);
      i := i + 1;
    }
  }

  /** What decoding gives once `v` has been decoded behind `done`. */
  function Ahead(done: string, v: string): Option<string> {
    var d := Decode(v);
    if d.None? then None else Some(done + d.value)
  }

  predicate BadEscape(v: string) {
    v != [] && v[0] == '%' && (|v| < 3 || HexValue(v[1]) == 16 || HexValue(v[2]) == 16)
  }

  /** The first decoded character and how much text it took. */
  function FirstChar(v: string): (char, nat)
    requires v != [] && !BadEscape(v)
  {
    if v[0] == '%' then ((HexValue(v[1]) * 16 + HexValue(v[2])) as char, 3) else (v[0], 1)
  }

  lemma AheadStep(done: string, v: string)
    requires v != []
    ensures BadEscape(v) ==> Ahead(done, v).None?
    ensures !BadEscape(v) ==> var (c, n) := FirstChar(v); Ahead(done, v) == Ahead(done + [c], v[n..])
  {
    if !BadEscape(v) {
      var (c, n) := FirstChar(v);
      var d := Decode(v[n..]);
      if d.Some? {
        assert done + ([c] + d.value) == (done + [c]) + d.value;
      }
    }
  }

  lemma AheadLength(done: string, v: string)
    ensures Ahead(done, v).Some? ==> |Ahead(done, v).value| >= |done|
  {
  }

  lemma {:induction false} AheadEnds(done: string, v: string)
    ensures Ahead([], v) == Decode(v)
    ensures Ahead(done, []) == Some(done)
  {
    assert done + [] == done;
    var d := Decode(v);
    if d.Some? {
      assert [] + d.value == d.value;
    }
  }

  /** Decodes into `dst`, terminator included; fails on a bad escape or when
      the text does not fit. */
  method RxUnescape(v: string, dst: array<char>) returns (ok: bool, o: nat)
    requires dst.Length > 0
    modifies dst
    ensures ok <==> Unescape(v, dst.Length).Some?
    ensures ok ==> o < dst.Length && dst[o] == '\0' && CText(dst[..o]) == Unescape(v, dst.Length).value
  {
    hide Ahead;
    hide Decode;
    o := 0;
    var i := 0;
    assert v[0..] == v && dst[..0] == [];
    AheadEnds([], v);
    while i < |v|
      invariant 0 <= i <= |v| && o < dst.Length
      invariant Decode(v) == Ahead(dst[..o], v[i..])
    {
      AheadStep(dst[..o], v[i..]);
      if BadEscape(v[i..]) { return false, o; }
      var (c, n) := FirstChar(v[i..]);
      assert v[i..][n..] == v[i + n..];
      i := i + n;
      if o + 1 >= dst.Length {
        AheadLength(dst[..o] + [c], v[i..]);
        return false, o;
      }
      dst[o] := c;
      assert dst[..o + 1] == dst[..o] + [c];
      o := o + 1;
    }
    assert v[i..] == [];
    AheadEnds(dst[..o], v);
    dst[o] := '\0';
    ok := true;
  }

  // ---- writing ----

  method PutRow(out: string, schema: Schema, row: Row, show: seq<bool>) returns (r: string)
    requires RowOk(schema, row) && |show| == |schema|
    ensures r == out + Blanked(Tokens(schema, row, show, 0))
  {
    hide Tokens;
    hide Blanked;
    hide Token;
    r := out;
    var i := 0;
    while i < |schema|
      invariant 0 <= i <= |schema|
      invariant r + Blanked(Tokens(schema, row, show, i)) == out + Blanked(Tokens(schema, row, show, 0))
    {
      BlankedStep(schema, row, show, i);
      ghost var tail := Blanked(Tokens(schema, row, show, i + 1));
      if show[i] {
        var tok := " " + Token(schema[i], row[i]);
        assert (r + tok) + tail == r + (tok + tail);
        r := r + tok;
      } else {
        assert [] + tail == tail;
      }
      i := i + 1;
    }
    NoneLeft(schema, row, show);
    assert r + [] == r;
  }

  lemma {:induction false} NoneLeft(schema: Schema, row: Row, show: seq<bool>)
    requires RowOk(schema, row) && |show| == |schema|
    ensures Blanked(Tokens(schema, row, show, |schema|)) == []
  {
  }

  lemma BlankedStep(schema: Schema, row: Row, show: seq<bool>, i: nat)
    requires RowOk(schema, row) && |show| == |schema| && i < |schema|
    ensures Blanked(Tokens(schema, row, show, i)) ==
            (if show[i] then " " + Token(schema[i], row[i]) else []) + Blanked(Tokens(schema, row, show, i + 1))
  {
    var rest := Tokens(schema, row, show, i + 1);
    if show[i] {
      var tok := Token(schema[i], row[i]);
      assert Tokens(schema, row, show, i) == [tok] + rest;
      assert ([tok] + rest)[1..] == rest;
    } else {
      assert Tokens(schema, row, show, i) == rest;
    }
  }

  lemma {:induction false} JoinedAppend(a: seq<string>, b: seq<string>)
    ensures Joined(a + b) == Joined(a) + Joined(b)
  {
    if a == [] {
      assert a + b == b;
    } else {
      assert (a + b)[0] == a[0] && (a + b)[1..] == a[1..] + b;
      JoinedAppend(a[1..], b);
    }
  }

  lemma {:induction false} JoinedCons(line: string, rest: seq<string>)
    ensures Joined([line] + rest) == line + "\n" + Joined(rest)
  {
    assert ([line] + rest)[1..] == rest;
  }

  method PutRecord(out: string, rec: string, schema: Schema, row: Row, show: seq<bool>) returns (r: string)
    requires RowOk(schema, row) && |show| == |schema|
    ensures r == out + (RecordLine(rec, schema, row, show) + "\n")
  {
    r := PutRow(out + rec, schema, row, show);
    hide Tokens;
    hide Blanked;
    r := r + "\n";
  }

  lemma SvcLinesFrom(rows: seq<Row>, i: nat)
    requires i < |rows| && forall x :: x in rows ==> RowOk(SVC, x)
    ensures rows[i] in rows && RowOk(SVC, rows[i])
    ensures Joined(SvcLines(rows[i..])) == (SvcLine(rows[i]) + "\n") + Joined(SvcLines(rows[i + 1..]))
  {
    hide SvcLine;
    hide RowOk;
    assert rows[i] in rows && rows[i..][0] == rows[i] && rows[i..][1..] == rows[i + 1..];
    JoinedCons(SvcLine(rows[i]), SvcLines(rows[i + 1..]));
  }

  method PutSvc(out: string, row: Row) returns (r: string)
    requires RowOk(SVC, row)
    ensures r == out + (SvcLine(row) + "\n")
  {
    r := PutRecord(out, "svc", SVC, row, All(|SVC|));
  }

  method PutSvcs(out: string, rows: seq<Row>) returns (r: string)
    requires forall x :: x in rows ==> RowOk(SVC, x)
    ensures r == out + Joined(SvcLines(rows))
  {
    hide Joined;
    hide SvcLines;
    hide SvcLine;
    hide RowOk;
    r := out;
    assert rows[0..] == rows;
    for i := 0 to |rows|
      invariant r + Joined(SvcLines(rows[i..])) == out + Joined(SvcLines(rows))
    {
      SvcLinesFrom(rows, i);
      ghost var line, tail := SvcLine(rows[i]) + "\n", Joined(SvcLines(rows[i + 1..]));
      assert (r + line) + tail == r + (line + tail);
      r := PutSvc(r, rows[i]);
    }
    NoSvcLines();
    assert rows[|rows|..] == [] && r + [] == r;
  }

  lemma NoSvcLines()
    ensures Joined(SvcLines([])) == []
  {
  }

  lemma EvictLinesFrom(rows: seq<Row>, i: nat)
    requires i < |rows| && forall x :: x in rows ==> RowOk(EVICT, x)
    ensures rows[i] in rows && RowOk(EVICT, rows[i])
    ensures Joined(EvictLines(rows[i..])) == (EvictLine(rows[i]) + "\n") + Joined(EvictLines(rows[i + 1..]))
  {
    hide EvictLine;
    hide RowOk;
    assert rows[i] in rows && rows[i..][0] == rows[i] && rows[i..][1..] == rows[i + 1..];
    JoinedCons(EvictLine(rows[i]), EvictLines(rows[i + 1..]));
  }

  method PutEvict(out: string, row: Row) returns (r: string)
    requires RowOk(EVICT, row)
    ensures r == out + (EvictLine(row) + "\n")
  {
    NormalEvictionOk(row);
    r := PutRecord(out, "evict", EVICT, NormalEviction(row), EvictionShow(row));
  }

  method PutEvictions(out: string, rows: seq<Row>) returns (r: string)
    requires forall x :: x in rows ==> RowOk(EVICT, x)
    ensures r == out + Joined(EvictLines(rows))
  {
    hide Joined;
    hide EvictLines;
    hide EvictLine;
    hide RowOk;
    r := out;
    assert rows[0..] == rows;
    for i := 0 to |rows|
      invariant r + Joined(EvictLines(rows[i..])) == out + Joined(EvictLines(rows))
    {
      EvictLinesFrom(rows, i);
      ghost var line, tail := EvictLine(rows[i]) + "\n", Joined(EvictLines(rows[i + 1..]));
      assert (r + line) + tail == r + (line + tail);
      r := PutEvict(r, rows[i]);
    }
    NoEvictLines();
    assert rows[|rows|..] == [] && r + [] == r;
  }

  lemma NoEvictLines()
    ensures Joined(EvictLines([])) == []
  {
  }

  lemma StoredLinesFrom(rows: seq<Row>, i: nat)
    requires i < |rows| && forall x :: x in rows ==> RowOk(STORED, x)
    ensures rows[i] in rows && RowOk(STORED, rows[i])
    ensures Joined(StoredLines(rows[i..])) == (StoredLine(rows[i]) + "\n") + Joined(StoredLines(rows[i + 1..]))
  {
    hide StoredLine;
    hide RowOk;
    assert rows[i] in rows && rows[i..][0] == rows[i] && rows[i..][1..] == rows[i + 1..];
    JoinedCons(StoredLine(rows[i]), StoredLines(rows[i + 1..]));
  }

  method PutStored(out: string, row: Row) returns (r: string)
    requires RowOk(STORED, row)
    ensures r == out + (StoredLine(row) + "\n")
  {
    r := PutRecord(out, "fdstore", STORED, row, All(|STORED|));
  }

  method PutStoreds(out: string, rows: seq<Row>) returns (r: string)
    requires forall x :: x in rows ==> RowOk(STORED, x)
    ensures r == out + Joined(StoredLines(rows))
  {
    hide Joined;
    hide StoredLines;
    hide StoredLine;
    hide RowOk;
    r := out;
    assert rows[0..] == rows;
    for i := 0 to |rows|
      invariant r + Joined(StoredLines(rows[i..])) == out + Joined(StoredLines(rows))
    {
      StoredLinesFrom(rows, i);
      ghost var line, tail := StoredLine(rows[i]) + "\n", Joined(StoredLines(rows[i + 1..]));
      assert (r + line) + tail == r + (line + tail);
      r := PutStored(r, rows[i]);
    }
    NoStoredLines();
    assert rows[|rows|..] == [] && r + [] == r;
  }

  lemma NoStoredLines()
    ensures Joined(StoredLines([])) == []
  {
  }

  method StateWrite(b: Blob) returns (out: string)
    requires BlobOk(b)
    ensures out == Write(b)
  {
    out := HeaderLine() + "\n";
    out := PutRecord(out, "global", GLOBAL, b.global, All(|GLOBAL|));
    out := PutRecord(out, "fd", OWN_FDS, b.fds, All(|OWN_FDS|));
    out := PutSvcs(out, b.svcs);
    out := PutEvictions(out, b.evictions);
    out := PutStoreds(out, b.stored);
    out := out + "end\n";
    WriteLaidOut(b);
  }

  lemma WriteLaidOut(b: Blob)
    requires BlobOk(b)
    ensures Write(b) ==
            HeaderLine() + "\n" + (RecordLine("global", GLOBAL, b.global, All(|GLOBAL|)) + "\n") +
            (RecordLine("fd", OWN_FDS, b.fds, All(|OWN_FDS|)) + "\n") +
            Joined(SvcLines(b.svcs)) + Joined(EvictLines(b.evictions)) + Joined(StoredLines(b.stored)) + "end\n"
  {
    var h := HeaderLine();
    var g := RecordLine("global", GLOBAL, b.global, All(|GLOBAL|));
    var f := RecordLine("fd", OWN_FDS, b.fds, All(|OWN_FDS|));
    var sv, ev, st := SvcLines(b.svcs), EvictLines(b.evictions), StoredLines(b.stored);
    LaidOut(h, g, f, sv, ev, st);
  }

  lemma {:induction false} LaidOut(h: string, g: string, f: string, sv: seq<string>, ev: seq<string>, st: seq<string>)
    ensures Joined([h] + ([g] + ([f] + (sv + (ev + st)))) + ["end"]) ==
            h + "\n" + (g + "\n") + (f + "\n") + Joined(sv) + Joined(ev) + Joined(st) + "end\n"
  {
    var body := [g] + ([f] + (sv + (ev + st)));
    hide *;
    assert [h] + body + ["end"] == [h] + (body + ["end"]);
    JoinedCons(h, body + ["end"]);
    JoinedAppend(body, ["end"]);
    JoinedEnd();
    JoinedCons(g, [f] + (sv + (ev + st)));
    JoinedCons(f, sv + (ev + st));
    JoinedAppend(sv, ev + st);
    JoinedAppend(ev, st);
  }

  lemma JoinedEnd()
    ensures Joined(["end"]) == "end\n"
  {
    JoinedCons("end", []);
    assert ["end"] + [] == ["end"];
  }

  // ---- reading ----

  /** The next blank-separated word, as strtok hands it out. */
  method NextWord(s: string) returns (found: bool, word: string, rest: string)
    ensures found <==> Words(s) != []
    ensures found ==> Words(s) == [word] + Words(rest) && |rest| < |s|
  {
    var i := 0;
    assert s[0..] == s;
    while i < |s| && s[i] == ' '
      invariant 0 <= i <= |s| && SkipBlanks(s) == SkipBlanks(s[i..])
    {
      assert s[i..][1..] == s[i + 1..];
      i := i + 1;
    }
    assert SkipBlanks(s[i..]) == s[i..];
    if i == |s| { return false, [], []; }
    var k := Find(s[i..], ' ');
    word, rest := s[i..][..k], s[i..][k..];
    return true, word, rest;
  }

  /** Takes the tokens of one record into its row. */
  method ReadRow(schema: Schema, row: Row, line: string) returns (r: Result<Row>)
    requires |row| == |schema|
    ensures r == TakeTokens(schema, row, Words(line))
  {
    hide TakeToken;
    hide Words;
    var cur, rest := row, line;
    while true
      invariant |cur| == |schema|
      invariant TakeTokens(schema, cur, Words(rest)) == TakeTokens(schema, row, Words(line))
      decreases |rest|
    {
      var found, tok, rest' := NextWord(rest);
      if !found { return Ok(cur); }
      assert ([tok] + Words(rest'))[1..] == Words(rest');
      var t := TakeToken(schema, cur, tok);
      if t.Err? { return t; }
      cur, rest := t.value, rest';
    }
  }

  method ReadRecord(lim: Limits, b: Blob, rec: string, line: string) returns (r: Result<Blob>)
    requires Shaped(b)
    ensures r == TakeRecord(lim, b, rec, Words(line))
  {
    hide TakeTokens;
    hide Words;
    var row: Result<Row>;
    if rec == "svc" {
      if |b.svcs| >= lim.maxSvc { return Err(TooMany); }
      row := ReadRow(SVC, Zeros(SVC), line);
      if row.Err? { return Err(row.reason); }
      if !Named(row.value) { return Err(NoName); }
      return Ok(b.(svcs := b.svcs + [row.value]));
    } else if rec == "evict" {
      if |b.evictions| >= MAX_EVICTIONS { return Err(TooMany); }
      row := ReadRow(EVICT, Zeros(EVICT), line);
      if row.Err? { return Err(row.reason); }
      return Ok(b.(evictions := b.evictions + [row.value]));
    } else if rec == "fdstore" {
      if lim.maxStored <= 0 { return Ok(b); }
      if |b.stored| >= lim.maxStored { return Err(TooMany); }
      row := ReadRow(STORED, Zeros(STORED), line);
      if row.Err? { return Err(row.reason); }
      if !Complete(row.value) { return Err(Incomplete); }
      return Ok(b.(stored := b.stored + [row.value]));
    } else if rec == "global" {
      row := ReadRow(GLOBAL, b.global, line);
      if row.Err? { return Err(row.reason); }
      return Ok(b.(global := row.value));
    } else if rec == "fd" {
      row := ReadRow(OWN_FDS, b.fds, line);
      if row.Err? { return Err(row.reason); }
      return Ok(b.(fds := row.value));
    }
    return Ok(b);
  }

  method ReadLine(lim: Limits, rd: Reader, line: string) returns (r: Result<Reader>)
    requires Shaped(rd.blob)
    ensures r == TakeLine(lim, rd, line)
  {
    hide TakeRecord;
    hide Words;
    if rd.ended { return Err(AfterEnd); }
    var found, rec, rest := NextWord(line);
    if !found { return Ok(rd); }
    assert ([rec] + Words(rest))[1..] == Words(rest);
    if rec == "end" { return Ok(rd.(ended := true)); }
    var b := ReadRecord(lim, rd.blob, rec, rest);
    TakeRecordShaped(lim, rd.blob, rec, Words(rest));
    if b.Err? { return Err(b.reason); }
    return Ok(rd.(blob := b.value));
  }

  /** One line off the front, as getline hands it out. */
  method GetLine(s: string) returns (line: string, rest: string)
    requires s != []
    ensures Lines(s) == [line] + Lines(rest) && |rest| < |s|
  {
    var k := Find(s, '\n');
    LinesFirst(s);
    hide Lines;
    hide Find;
    line := s[..k];
    rest := if k == |s| then [] else s[k + 1..];
  }

  lemma LinesFirst(s: string)
    requires s != []
    ensures var k := Find(s, '\n');
            Lines(s) == [s[..k]] + Lines(if k == |s| then [] else s[k + 1..])
  {
  }

  method StateParse(lim: Limits, text: string) returns (r: Result<Blob>)
    ensures r == Parse(lim, text)
  {
    if text == [] { return Err(Empty); }
    var line, rest := GetLine(text);
    assert Lines(text)[0] == line && Lines(text)[1..] == Lines(rest);
    var h := CheckHeader(line);
    if h.Err? { return Err(h.reason); }
    hide TakeLine;
    hide Lines;
    hide CheckHeader;
    hide Zeros;
    var rd := Start();
    ghost var body := rest;
    while rest != []
      invariant Shaped(rd.blob)
      invariant TakeLines(lim, rd, Lines(rest)) == TakeLines(lim, Start(), Lines(body))
      decreases |rest|
    {
      ghost var was := rest;
      line, rest := GetLine(rest);
      assert Lines(was)[0] == line && Lines(was)[1..] == Lines(rest);
      var t := ReadLine(lim, rd, line);
      if t.Err? { return Err(t.reason); }
      rd := t.value;
    }
    NoLines();
    if !rd.ended { return Err(Truncated); }
    return Ok(rd.blob);
  }

  lemma NoLines()
    ensures Lines([]) == []
  {
  }

  // ---- against a fresh parse of the service files ----

  datatype Carried = Carried(name: string, hash: int, childPid: int, failsafePid: int)
  datatype Loaded = Loaded(name: string, hash: int)

  datatype Refusal = Twice(name: string) | Orphan(name: string) | Modified(name: string)

  predicate Running(c: Carried) {
    c.childPid > 0 || c.failsafePid > 0
  }

  function LoadedIndex(loaded: seq<Loaded>, name: string): (j: nat)
    ensures j <= |loaded| && (j < |loaded| ==> loaded[j].name == name)
    ensures forall i :: 0 <= i < j ==> loaded[i].name != name
  {
    if loaded == [] || loaded[0].name == name then 0 else 1 + LoadedIndex(loaded[1..], name)
  }

  /** A carried service may be taken over: it has its file unchanged since
      boot (or with no recorded content), or nothing of it runs. */
  predicate MayCarry(c: Carried, loaded: seq<Loaded>) {
    var j := LoadedIndex(loaded, c.name);
    if j == |loaded| then !Running(c) else loaded[j].hash == c.hash || loaded[j].hash == 0
  }

  predicate DistinctNames(b: seq<Carried>) {
    forall i, j :: 0 <= i < j < |b| ==> b[i].name != b[j].name
  }

  predicate NamedBefore(b: seq<Carried>, i: nat)
    requires i < |b|
  {
    exists j :: 0 <= j < i && b[j].name == b[i].name
  }

  /** Why the service at `i` is refused, the repeated name coming first. */
  function Objection(b: seq<Carried>, loaded: seq<Loaded>, i: nat): Refusal
    requires i < |b|
  {
    if NamedBefore(b, i) then Twice(b[i].name)
    else if LoadedIndex(loaded, b[i].name) == |loaded| then Orphan(b[i].name)
    else Modified(b[i].name)
  }

  /** Accepts exactly the blobs that name no service twice and whose every
      service may be carried over; otherwise reports the first that is not. */
  method ReexecCompare(b: seq<Carried>, loaded: seq<Loaded>) returns (ok: bool, why: Refusal, ghost at: nat)
    ensures ok <==> DistinctNames(b) && forall i :: 0 <= i < |b| ==> MayCarry(b[i], loaded)
    ensures !ok ==> at < |b| && DistinctNames(b[..at]) && forall k :: 0 <= k < at ==> MayCarry(b[k], loaded)
    ensures !ok ==> (NamedBefore(b, at) || !MayCarry(b[at], loaded)) && why == Objection(b, loaded, at)
  {
    why, at := Twice(""), 0;
    for i := 0 to |b|
      invariant DistinctNames(b[..i])
      invariant forall k :: 0 <= k < i ==> MayCarry(b[k], loaded)
    {
      for j := 0 to i
        invariant forall k :: 0 <= k < j ==> b[k].name != b[i].name
      {
        if b[i].name == b[j].name { return false, Twice(b[i].name), i; }
      }
      var j := 0;
      while j < |loaded| && loaded[j].name != b[i].name
        invariant 0 <= j <= |loaded| && forall k :: 0 <= k < j ==> loaded[k].name != b[i].name
      {
        j := j + 1;
      }
      assert j == LoadedIndex(loaded, b[i].name);
      if j == |loaded| {
        if Running(b[i]) { return false, Orphan(b[i].name), i; }
      } else if loaded[j].hash != b[i].hash && loaded[j].hash != 0 {
        return false, Modified(b[i].name), i;
      }
    }
    assert b[..|b|] == b;
    return true, why, 0;
  }
}

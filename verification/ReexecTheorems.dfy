/**
 What the hand-over across execve rests on: a written blob is read back whole,
 a cut one is never accepted, and records or keys of a newer writer make no
 difference.
 */
module ReexecTheorems {
  import opened Common
  import opened Decimal
  import opened TextLines
  import opened ReexecValues
  import opened ReexecRecord
  import opened ReexecSchemas
  import opened ReexecBlob

  lemma {:induction false} TakeLinesAppend(lim: Limits, rd: Reader, a: seq<string>, b: seq<string>)
    requires Shaped(rd.blob)
    ensures TakeLines(lim, rd, a + b) ==
            var r := TakeLines(lim, rd, a);
            if r.Err? then r else TakeLines(lim, r.value, b)
    decreases |a|
  {
    hide TakeLine;
    if a == [] {
      assert a + b == b;
    } else {
      assert (a + b)[0] == a[0] && (a + b)[1..] == a[1..] + b;
      var r := TakeLine(lim, rd, a[0]);
      if r.Ok? {
        TakeLinesAppend(lim, r.value, a[1..], b);
      }
    }
  }

  lemma {:induction false} TakeOneLine(lim: Limits, rd: Reader, line: string, rest: seq<string>)
    requires Shaped(rd.blob)
    ensures TakeLines(lim, rd, [line] + rest) ==
            var r := TakeLine(lim, rd, line);
            if r.Err? then r else TakeLines(lim, r.value, rest)
  {
    hide TakeLine;
    assert ([line] + rest)[1..] == rest;
  }

  lemma {:induction false} TakeRecordLine(lim: Limits, rd: Reader, line: string, rec: string, toks: seq<string>)
    requires Shaped(rd.blob) && !rd.ended && Words(line) == [rec] + toks && rec != "end"
    ensures TakeLine(lim, rd, line) ==
            var b := TakeRecord(lim, rd.blob, rec, toks);
            if b.Err? then Err(b.reason) else Ok(Reader(b.value, false))
  {
    assert ([rec] + toks)[1..] == toks;
  }

  // ---- round trip ----

  lemma RowSize(schema: Schema, row: Row)
    requires RowOk(schema, row)
    ensures |row| == |schema|
  {
  }

  lemma TakeGlobalLine(lim: Limits, rd: Reader, row: Row)
    requires RowOk(GLOBAL, row) && !rd.ended && rd.blob.global == Zeros(GLOBAL) && Shaped(rd.blob)
    ensures TakeLine(lim, rd, RecordLine("global", GLOBAL, row, All(|GLOBAL|))) ==
            Ok(rd.(blob := rd.blob.(global := row)))
  {
    GlobalOk();
    hide RowOk;
    hide SchemaOk;
    hide Zeros;
    RecordWords("global", GLOBAL, row, All(|GLOBAL|));
    TakeWholeRow(GLOBAL, row);
    TakeRecordLine(lim, rd, RecordLine("global", GLOBAL, row, All(|GLOBAL|)), "global",
                   Tokens(GLOBAL, row, All(|GLOBAL|), 0));
  }

  lemma TakeFdLine(lim: Limits, rd: Reader, row: Row)
    requires RowOk(OWN_FDS, row) && !rd.ended && rd.blob.fds == Zeros(OWN_FDS) && Shaped(rd.blob)
    ensures TakeLine(lim, rd, RecordLine("fd", OWN_FDS, row, All(|OWN_FDS|))) ==
            Ok(rd.(blob := rd.blob.(fds := row)))
  {
    OwnFdsOk();
    hide RowOk;
    hide SchemaOk;
    hide Zeros;
    RecordWords("fd", OWN_FDS, row, All(|OWN_FDS|));
    TakeWholeRow(OWN_FDS, row);
    TakeRecordLine(lim, rd, RecordLine("fd", OWN_FDS, row, All(|OWN_FDS|)), "fd",
                   Tokens(OWN_FDS, row, All(|OWN_FDS|), 0));
  }

  lemma TakeSvcLine(lim: Limits, rd: Reader, row: Row)
    requires RowOk(SVC, row) && Named(row) && !rd.ended && Shaped(rd.blob)
    requires |rd.blob.svcs| < lim.maxSvc
    ensures TakeLine(lim, rd, SvcLine(row)) == Ok(rd.(blob := rd.blob.(svcs := rd.blob.svcs + [row])))
  {
    SvcOk();
    hide RowOk;
    hide SchemaOk;
    hide Zeros;
    RecordWords("svc", SVC, row, All(|SVC|));
    TakeWholeRow(SVC, row);
    TakeRecordLine(lim, rd, SvcLine(row), "svc", Tokens(SVC, row, All(|SVC|), 0));
  }

  lemma TakeEvictLine(lim: Limits, rd: Reader, row: Row)
    requires RowOk(EVICT, row) && !rd.ended && Shaped(rd.blob)
    requires |rd.blob.evictions| < MAX_EVICTIONS
    ensures TakeLine(lim, rd, EvictLine(row)) ==
            Ok(rd.(blob := rd.blob.(evictions := rd.blob.evictions + [NormalEviction(row)])))
  {
    hide RowOk;
    hide SchemaOk;
    hide Zeros;
    hide NormalEviction;
    hide EvictionShow;
    hide TakeTokens;
    hide Tokens;
    hide Words;
    RowSize(EVICT, row);
    EvictOk();
    TakeEvictionRow(row);
    RecordWords("evict", EVICT, NormalEviction(row), EvictionShow(row));
    TakeRecordLine(lim, rd, EvictLine(row), "evict", Tokens(EVICT, NormalEviction(row), EvictionShow(row), 0));
  }

  lemma TakeStoredLine(lim: Limits, rd: Reader, row: Row)
    requires RowOk(STORED, row) && Complete(row) && !rd.ended && Shaped(rd.blob)
    requires |rd.blob.stored| < lim.maxStored
    ensures TakeLine(lim, rd, StoredLine(row)) == Ok(rd.(blob := rd.blob.(stored := rd.blob.stored + [row])))
  {
    StoredOk();
    hide RowOk;
    hide SchemaOk;
    hide Zeros;
    hide Complete;
    RecordWords("fdstore", STORED, row, All(|STORED|));
    TakeWholeRow(STORED, row);
    TakeRecordLine(lim, rd, StoredLine(row), "fdstore", Tokens(STORED, row, All(|STORED|), 0));
  }

  /** A reader that has taken more rows. */
  function Plus(rd: Reader, svcs: seq<Row>, evictions: seq<Row>, stored: seq<Row>): (rd': Reader)
    requires Shaped(rd.blob)
    ensures Shaped(rd'.blob) && rd'.ended == rd.ended
  {
    rd.(blob := rd.blob.(svcs := rd.blob.svcs + svcs, evictions := rd.blob.evictions + evictions,
                         stored := rd.blob.stored + stored))
  }

  lemma PlusPlus(rd: Reader, sv: seq<Row>, ev: seq<Row>, st: seq<Row>, sv': seq<Row>,
                      ev': seq<Row>, st': seq<Row>)
    requires Shaped(rd.blob)
    ensures Plus(Plus(rd, sv, ev, st), sv', ev', st') == Plus(rd, sv + sv', ev + ev', st + st')
  {
    assert (rd.blob.svcs + sv) + sv' == rd.blob.svcs + (sv + sv');
    assert (rd.blob.evictions + ev) + ev' == rd.blob.evictions + (ev + ev');
    assert (rd.blob.stored + st) + st' == rd.blob.stored + (st + st');
  }

  lemma {:induction false} SvcLinesCons(rd: Reader, rows: seq<Row>)
    requires rows != [] && Shaped(rd.blob) && forall r :: r in rows ==> RowOk(SVC, r)
    ensures rows[0] in rows && SvcLines(rows) == [SvcLine(rows[0])] + SvcLines(rows[1..])
    ensures [rows[0]] + rows[1..] == rows
    ensures |Plus(rd, [rows[0]], [], []).blob.svcs| == |rd.blob.svcs| + 1
  {
  }

  lemma {:induction false} SvcLinesNone(lim: Limits, rd: Reader)
    requires Shaped(rd.blob)
    ensures TakeLines(lim, rd, SvcLines([])) == Ok(Plus(rd, [], [], []))
  {
    assert rd.blob.svcs + [] == rd.blob.svcs && rd.blob.evictions + [] == rd.blob.evictions;
    assert rd.blob.stored + [] == rd.blob.stored;
  }

  lemma TakeSvcLineAs(lim: Limits, rd: Reader, row: Row)
    requires RowOk(SVC, row) && Named(row) && !rd.ended && Shaped(rd.blob)
    requires |rd.blob.svcs| < lim.maxSvc
    ensures TakeLine(lim, rd, SvcLine(row)) == Ok(Plus(rd, [row], [], []))
  {
    hide TakeLine;
    hide RowOk;
    TakeSvcLine(lim, rd, row);
    assert rd.blob.svcs + [] == rd.blob.svcs && rd.blob.evictions + [] == rd.blob.evictions;
    assert rd.blob.stored + [] == rd.blob.stored;
  }

  lemma {:induction false} TakeSvcLines(lim: Limits, rd: Reader, rows: seq<Row>)
    requires forall r :: r in rows ==> RowOk(SVC, r) && Named(r)
    requires !rd.ended && Shaped(rd.blob) && |rd.blob.svcs| + |rows| <= lim.maxSvc
    ensures TakeLines(lim, rd, SvcLines(rows)) == Ok(Plus(rd, rows, [], []))
    decreases |rows|
  {
    hide *;
    if rows == [] {
      SvcLinesNone(lim, rd);
    } else {
      SvcLinesCons(rd, rows);
      var one := [rows[0]];
      var rd' := Plus(rd, one, [], []);
      TakeSvcLineAs(lim, rd, rows[0]);
      TakeOneLine(lim, rd, SvcLine(rows[0]), SvcLines(rows[1..]));
      TakeSvcLines(lim, rd', rows[1..]);
      PlusPlus(rd, one, [], [], rows[1..], [], []);
      var none: seq<Row> := [];
      assert none + none == none;
    }
  }

  lemma {:induction false} EvictLinesCons(rd: Reader, rows: seq<Row>)
    requires rows != [] && Shaped(rd.blob) && forall r :: r in rows ==> RowOk(EVICT, r)
    ensures rows[0] in rows && EvictLines(rows) == [EvictLine(rows[0])] + EvictLines(rows[1..])
    ensures |rows[0]| == |EVICT| && forall r :: r in rows[1..] ==> |r| == |EVICT|
    ensures [NormalEviction(rows[0])] + NormalEvictions(rows[1..]) == NormalEvictions(rows)
    ensures |Plus(rd, [], [NormalEviction(rows[0])], []).blob.evictions| == |rd.blob.evictions| + 1
  {
    hide EvictLine;
    forall r | r in rows
      ensures |r| == |EVICT|
    {
    }
    assert rows[0] in rows && forall r :: r in rows[1..] ==> r in rows;
  }

  lemma {:induction false} EvictLinesNone(lim: Limits, rd: Reader)
    requires Shaped(rd.blob)
    ensures TakeLines(lim, rd, EvictLines([])) == Ok(Plus(rd, [], [], []))
    ensures NormalEvictions([]) == []
  {
    assert rd.blob.svcs + [] == rd.blob.svcs && rd.blob.evictions + [] == rd.blob.evictions;
    assert rd.blob.stored + [] == rd.blob.stored;
  }

  lemma TakeEvictLineAs(lim: Limits, rd: Reader, row: Row)
    requires RowOk(EVICT, row) && !rd.ended && Shaped(rd.blob)
    requires |rd.blob.evictions| < MAX_EVICTIONS
    ensures TakeLine(lim, rd, EvictLine(row)) == Ok(Plus(rd, [], [NormalEviction(row)], []))
  {
    hide TakeLine;
    hide RowOk;
    TakeEvictLine(lim, rd, row);
    assert rd.blob.svcs + [] == rd.blob.svcs && rd.blob.evictions + [] == rd.blob.evictions;
    assert rd.blob.stored + [] == rd.blob.stored;
  }

  lemma {:induction false} TakeEvictLines(lim: Limits, rd: Reader, rows: seq<Row>)
    requires forall r :: r in rows ==> RowOk(EVICT, r)
    requires !rd.ended && Shaped(rd.blob) && |rd.blob.evictions| + |rows| <= MAX_EVICTIONS
    ensures TakeLines(lim, rd, EvictLines(rows)) == Ok(Plus(rd, [], NormalEvictions(rows), []))
    decreases |rows|
  {
    hide *;
    if rows == [] {
      EvictLinesNone(lim, rd);
    } else {
      EvictLinesCons(rd, rows);
      var one := [NormalEviction(rows[0])];
      var rd' := Plus(rd, [], one, []);
      TakeEvictLineAs(lim, rd, rows[0]);
      TakeOneLine(lim, rd, EvictLine(rows[0]), EvictLines(rows[1..]));
      TakeEvictLines(lim, rd', rows[1..]);
      PlusPlus(rd, [], one, [], [], NormalEvictions(rows[1..]), []);
      var none: seq<Row> := [];
      assert none + none == none;
    }
  }

  lemma {:induction false} StoredLinesCons(rd: Reader, rows: seq<Row>)
    requires rows != [] && Shaped(rd.blob) && forall r :: r in rows ==> RowOk(STORED, r)
    ensures rows[0] in rows && StoredLines(rows) == [StoredLine(rows[0])] + StoredLines(rows[1..])
    ensures [rows[0]] + rows[1..] == rows
    ensures |Plus(rd, [], [], [rows[0]]).blob.stored| == |rd.blob.stored| + 1
  {
  }

  lemma {:induction false} StoredLinesNone(lim: Limits, rd: Reader)
    requires Shaped(rd.blob)
    ensures TakeLines(lim, rd, StoredLines([])) == Ok(Plus(rd, [], [], []))
  {
    assert rd.blob.svcs + [] == rd.blob.svcs && rd.blob.evictions + [] == rd.blob.evictions;
    assert rd.blob.stored + [] == rd.blob.stored;
  }

  lemma TakeStoredLineAs(lim: Limits, rd: Reader, row: Row)
    requires RowOk(STORED, row) && Complete(row) && !rd.ended && Shaped(rd.blob)
    requires |rd.blob.stored| < lim.maxStored
    ensures TakeLine(lim, rd, StoredLine(row)) == Ok(Plus(rd, [], [], [row]))
  {
    hide TakeLine;
    hide RowOk;
    TakeStoredLine(lim, rd, row);
    assert rd.blob.svcs + [] == rd.blob.svcs && rd.blob.evictions + [] == rd.blob.evictions;
    assert rd.blob.stored + [] == rd.blob.stored;
  }

  lemma {:induction false} TakeStoredLines(lim: Limits, rd: Reader, rows: seq<Row>)
    requires forall r :: r in rows ==> RowOk(STORED, r) && Complete(r)
    requires !rd.ended && Shaped(rd.blob) && (rows == [] || |rd.blob.stored| + |rows| <= lim.maxStored)
    ensures TakeLines(lim, rd, StoredLines(rows)) == Ok(Plus(rd, [], [], rows))
    decreases |rows|
  {
    hide *;
    if rows == [] {
      StoredLinesNone(lim, rd);
    } else {
      StoredLinesCons(rd, rows);
      var one := [rows[0]];
      var rd' := Plus(rd, [], [], one);
      TakeStoredLineAs(lim, rd, rows[0]);
      TakeOneLine(lim, rd, StoredLine(rows[0]), StoredLines(rows[1..]));
      TakeStoredLines(lim, rd', rows[1..]);
      PlusPlus(rd, [], [], one, [], [], rows[1..]);
      var none: seq<Row> := [];
      assert none + none == none;
    }
  }

  predicate Roomy(lim: Limits, b: Blob) {
    |b.svcs| <= lim.maxSvc && |b.evictions| <= MAX_EVICTIONS && (b.stored == [] || |b.stored| <= lim.maxStored)
  }

  lemma PlusCounts(rd: Reader, sv: seq<Row>, ev: seq<Row>, st: seq<Row>)
    requires Shaped(rd.blob)
    ensures var b := Plus(rd, sv, ev, st).blob;
            && |b.svcs| == |rd.blob.svcs| + |sv| && |b.evictions| == |rd.blob.evictions| + |ev|
            && |b.stored| == |rd.blob.stored| + |st|
  {
  }

  lemma {:induction false} TakeRepeated(lim: Limits, rd: Reader, sv: seq<Row>, ev: seq<Row>, st: seq<Row>)
    requires forall r :: r in sv ==> RowOk(SVC, r) && Named(r)
    requires forall r :: r in ev ==> RowOk(EVICT, r)
    requires forall r :: r in st ==> RowOk(STORED, r) && Complete(r)
    requires Shaped(rd.blob) && !rd.ended
    requires |rd.blob.svcs| + |sv| <= lim.maxSvc && |rd.blob.evictions| + |ev| <= MAX_EVICTIONS
    requires st == [] || |rd.blob.stored| + |st| <= lim.maxStored
    requires forall r :: r in ev ==> |r| == |EVICT|
    ensures TakeLines(lim, rd, SvcLines(sv) + (EvictLines(ev) + StoredLines(st))) ==
            Ok(Plus(rd, sv, NormalEvictions(ev), st))
  {
    hide *;
    var ne := NormalEvictions(ev);
    var rd1 := Plus(rd, sv, [], []);
    var rd2 := Plus(rd1, [], ne, []);
    PlusCounts(rd, sv, [], []);
    PlusCounts(rd1, [], ne, []);
    TakeSvcLines(lim, rd, sv);
    TakeLinesAppend(lim, rd, SvcLines(sv), EvictLines(ev) + StoredLines(st));
    TakeEvictLines(lim, rd1, ev);
    TakeLinesAppend(lim, rd1, EvictLines(ev), StoredLines(st));
    TakeStoredLines(lim, rd2, st);
    PlusPlus(rd, sv, [], [], [], ne, []);
    PlusPlus(rd, sv + [], [] + ne, [] + [], [], [], st);
    assert sv + [] + [] == sv && [] + ne + [] == ne && [] + [] + st == st;
  }

  lemma BlobParts(b: Blob, rd: Reader)
    requires BlobOk(b) && rd == Reader(Blob(b.global, b.fds, [], [], []), false)
    ensures forall r :: r in b.svcs ==> RowOk(SVC, r) && Named(r)
    ensures forall r :: r in b.evictions ==> RowOk(EVICT, r) && |r| == |EVICT|
    ensures forall r :: r in b.stored ==> RowOk(STORED, r) && Complete(r)
    ensures RowOk(GLOBAL, b.global) && RowOk(OWN_FDS, b.fds) && Shaped(b)
    ensures |All(|GLOBAL|)| == |GLOBAL| && |All(|OWN_FDS|)| == |OWN_FDS|
    ensures BodyLines(b) ==
            [RecordLine("global", GLOBAL, b.global, All(|GLOBAL|))] +
            ([RecordLine("fd", OWN_FDS, b.fds, All(|OWN_FDS|))] +
             (SvcLines(b.svcs) + (EvictLines(b.evictions) + StoredLines(b.stored))))
    ensures Reader(Normal(b), false) == Plus(rd, b.svcs, NormalEvictions(b.evictions), b.stored)
  {
    assert [] + b.svcs == b.svcs && [] + b.stored == b.stored;
    assert [] + NormalEvictions(b.evictions) == NormalEvictions(b.evictions);
  }

  lemma StartIs(rd: Reader, b: Blob)
    requires rd == Start() && Shaped(b)
    ensures rd == Reader(Blob(Zeros(GLOBAL), Zeros(OWN_FDS), [], [], []), false)
    ensures Shaped(Blob(b.global, Zeros(OWN_FDS), [], [], [])) && Shaped(Blob(b.global, b.fds, [], [], []))
  {
  }

  lemma RoomFor(lim: Limits, b: Blob)
    requires Roomy(lim, b)
    ensures |b.svcs| <= lim.maxSvc && |b.evictions| <= MAX_EVICTIONS && (b.stored == [] || |b.stored| <= lim.maxStored)
  {
  }

  lemma {:induction false} TakeBody(lim: Limits, b: Blob)
    requires BlobOk(b) && Roomy(lim, b)
    ensures TakeLines(lim, Start(), BodyLines(b)) == Ok(Reader(Normal(b), false))
  {
    hide *;
    var rd0 := Start();
    var rd2 := Reader(Blob(b.global, b.fds, [], [], []), false);
    BlobParts(b, rd2);
    StartIs(rd0, b);
    RoomFor(lim, b);
    var rd1 := Reader(Blob(b.global, Zeros(OWN_FDS), [], [], []), false);
    var rest := SvcLines(b.svcs) + (EvictLines(b.evictions) + StoredLines(b.stored));
    var global := RecordLine("global", GLOBAL, b.global, All(|GLOBAL|));
    var fd := RecordLine("fd", OWN_FDS, b.fds, All(|OWN_FDS|));
    TakeGlobalLine(lim, rd0, b.global);
    TakeOneLine(lim, rd0, global, [fd] + rest);
    TakeFdLine(lim, rd1, b.fds);
    TakeOneLine(lim, rd1, fd, rest);
    TakeRepeated(lim, rd2, b.svcs, b.evictions, b.stored);
  }

  lemma HeaderAccepted()
    ensures CheckHeader(HeaderLine()) == Ok(REEXEC_FORMAT)
    ensures Free(HeaderLine(), '\n')
  {
    var line := HeaderLine();
    assert line[|MAGIC|..] == " " + IntText(REEXEC_FORMAT);
    assert SkipSpaces(" " + IntText(1)) == SkipSpaces(IntText(1)) by {
      assert (" " + IntText(1))[1..] == IntText(1);
    }
    ScanText(1, []);
    assert IntText(1) + [] == IntText(1);
    IntTextPlain(1);
  }

  /** None of these lines can be taken for the `end` line, even in part. */
  ghost predicate BodyLine(line: string) {
    Free(line, '\n') && exists rec :: IsRecordOf(rec, line)
  }

  predicate IsRecordOf(rec: string, line: string) {
    && IsWord(rec) && !("end" <= rec)
    && rec <= line && (|line| > |rec| ==> line[|rec|] == ' ')
  }

  lemma RecordIsBodyLine(rec: string, schema: Schema, row: Row, show: seq<bool>)
    requires SchemaOk(schema) && RowOk(schema, row) && |show| == |schema|
    requires IsWord(rec) && Free(rec, '\n') && !("end" <= rec)
    ensures BodyLine(RecordLine(rec, schema, row, show))
  {
    RecordWords(rec, schema, row, show);
    hide RowOk;
    hide SchemaOk;
    assert IsRecordOf(rec, RecordLine(rec, schema, row, show));
  }

  ghost predicate AllBody(lines: seq<string>) {
    forall l :: l in lines ==> BodyLine(l)
  }

  /** Stated with `in`, which literals settle quickly. */
  predicate GoodName(rec: string) {
    rec != [] && ' ' !in rec && '\n' !in rec && (|rec| < 3 || rec[..3] != "end")
  }

  lemma RecordNames()
    ensures GoodName("global") && GoodName("fd") && GoodName("svc") && GoodName("evict") && GoodName("fdstore")
  {
    assert GoodName("fd");
    assert "svc"[0] != 'e' && GoodName("svc");
    assert "evict"[1] != 'n' && "evict"[..3][1] == "evict"[1] && GoodName("evict");
    assert "global"[0] != 'e' && "global"[..3][0] == "global"[0] && GoodName("global");
    assert "fdstore"[0] != 'e' && "fdstore"[..3][0] == "fdstore"[0] && GoodName("fdstore");
  }

  lemma AllBodyCons(line: string, lines: seq<string>)
    requires BodyLine(line) && AllBody(lines)
    ensures AllBody([line] + lines)
  {
  }

  lemma AllBodyAppend(a: seq<string>, b: seq<string>)
    requires AllBody(a) && AllBody(b)
    ensures AllBody(a + b)
  {
  }

  lemma RecordBody(rec: string, schema: Schema, row: Row, show: seq<bool>)
    requires SchemaOk(schema) && RowOk(schema, row) && |show| == |schema| && GoodName(rec)
    ensures BodyLine(RecordLine(rec, schema, row, show))
  {
    hide SchemaOk;
    hide RowOk;
    assert forall i :: 0 <= i < |rec| ==> rec[i] in rec;
    RecordIsBodyLine(rec, schema, row, show);
  }

  lemma SvcLineBody(row: Row)
    requires RowOk(SVC, row)
    ensures BodyLine(SvcLine(row))
  {
    var line := SvcLine(row);
    assert line == RecordLine("svc", SVC, row, All(|SVC|)) && |All(|SVC|)| == |SVC|;
    hide *;
    RecordNames();
    SvcOk();
    RecordBody("svc", SVC, row, All(|SVC|));
  }

  lemma EvictLineBody(row: Row)
    requires RowOk(EVICT, row)
    ensures BodyLine(EvictLine(row))
  {
    var line := EvictLine(row);
    NormalEvictionOk(row);
    assert line == RecordLine("evict", EVICT, NormalEviction(row), EvictionShow(row));
    hide *;
    RecordNames();
    EvictOk();
    RecordBody("evict", EVICT, NormalEviction(row), EvictionShow(row));
  }

  lemma StoredLineBody(row: Row)
    requires RowOk(STORED, row)
    ensures BodyLine(StoredLine(row))
  {
    var line := StoredLine(row);
    assert line == RecordLine("fdstore", STORED, row, All(|STORED|)) && |All(|STORED|)| == |STORED|;
    hide *;
    RecordNames();
    StoredOk();
    RecordBody("fdstore", STORED, row, All(|STORED|));
  }

  lemma {:induction false} SvcLinesBody(rows: seq<Row>)
    requires forall r :: r in rows ==> RowOk(SVC, r)
    ensures AllBody(SvcLines(rows))
  {
    if rows != [] {
      assert rows[0] in rows;
      assert SvcLines(rows) == [SvcLine(rows[0])] + SvcLines(rows[1..]);
      hide *;
      SvcLineBody(rows[0]);
      SvcLinesBody(rows[1..]);
      AllBodyCons(SvcLine(rows[0]), SvcLines(rows[1..]));
    }
  }

  lemma {:induction false} EvictLinesBody(rows: seq<Row>)
    requires forall r :: r in rows ==> RowOk(EVICT, r)
    ensures AllBody(EvictLines(rows))
  {
    if rows != [] {
      assert rows[0] in rows;
      assert EvictLines(rows) == [EvictLine(rows[0])] + EvictLines(rows[1..]);
      hide *;
      EvictLineBody(rows[0]);
      EvictLinesBody(rows[1..]);
      AllBodyCons(EvictLine(rows[0]), EvictLines(rows[1..]));
    }
  }

  lemma {:induction false} StoredLinesBody(rows: seq<Row>)
    requires forall r :: r in rows ==> RowOk(STORED, r)
    ensures AllBody(StoredLines(rows))
  {
    if rows != [] {
      assert rows[0] in rows;
      assert StoredLines(rows) == [StoredLine(rows[0])] + StoredLines(rows[1..]);
      hide *;
      StoredLineBody(rows[0]);
      StoredLinesBody(rows[1..]);
      AllBodyCons(StoredLine(rows[0]), StoredLines(rows[1..]));
    }
  }

  lemma SingleLinesBody(b: Blob)
    requires BlobOk(b)
    ensures BodyLine(RecordLine("global", GLOBAL, b.global, All(|GLOBAL|)))
    ensures BodyLine(RecordLine("fd", OWN_FDS, b.fds, All(|OWN_FDS|)))
  {
    assert RowOk(GLOBAL, b.global) && RowOk(OWN_FDS, b.fds);
    assert |All(|GLOBAL|)| == |GLOBAL| && |All(|OWN_FDS|)| == |OWN_FDS|;
    hide *;
    RecordNames();
    GlobalOk();
    OwnFdsOk();
    RecordBody("global", GLOBAL, b.global, All(|GLOBAL|));
    RecordBody("fd", OWN_FDS, b.fds, All(|OWN_FDS|));
  }

  lemma BodyLinesBody(b: Blob)
    requires BlobOk(b)
    ensures AllBody(BodyLines(b))
  {
    var global := RecordLine("global", GLOBAL, b.global, All(|GLOBAL|));
    var fd := RecordLine("fd", OWN_FDS, b.fds, All(|OWN_FDS|));
    var sv, ev, st := SvcLines(b.svcs), EvictLines(b.evictions), StoredLines(b.stored);
    assert BodyLines(b) == [global] + ([fd] + (sv + (ev + st)));
    SvcLinesBody(b.svcs);
    EvictLinesBody(b.evictions);
    StoredLinesBody(b.stored);
    SingleLinesBody(b);
    hide *;
    AllBodyAppend(ev, st);
    AllBodyAppend(sv, ev + st);
    AllBodyCons(fd, sv + (ev + st));
    AllBodyCons(global, [fd] + (sv + (ev + st)));
  }

  predicate AllFree(lines: seq<string>) {
    forall i :: 0 <= i < |lines| ==> Free(lines[i], '\n')
  }

  lemma BodyIsFree(lines: seq<string>)
    requires AllBody(lines)
    ensures AllFree(lines)
  {
    forall i | 0 <= i < |lines|
      ensures Free(lines[i], '\n')
    {
      assert lines[i] in lines;
    }
  }

  lemma FreeAround(first: string, lines: seq<string>, last: string)
    requires Free(first, '\n') && AllFree(lines) && Free(last, '\n')
    ensures AllFree([first] + lines + [last])
  {
    hide Free;
    var all := [first] + lines + [last];
    forall i | 0 <= i < |all|
      ensures Free(all[i], '\n')
    {
      assert 0 < i < |all| - 1 ==> all[i] == lines[i - 1];
    }
  }

  lemma BlobLinesFree(b: Blob)
    requires BlobOk(b)
    ensures AllFree(BlobLines(b))
  {
    hide *;
    WriteIs(b);
    EndIsFree();
    HeaderAccepted();
    BodyLinesBody(b);
    BodyIsFree(BodyLines(b));
    FreeAround(HeaderLine(), BodyLines(b), "end");
  }

  lemma EndIsFree()
    ensures Free("end", '\n')
  {
  }

  /** What the writer prints, the reader hands over: every field of every
      record, the eviction flags as 0 or 1. */
  lemma RoundTrip(lim: Limits, b: Blob)
    requires BlobOk(b) && Roomy(lim, b)
    ensures Parse(lim, Write(b)) == Ok(Normal(b))
  {
    hide *;
    BlobLinesFree(b);
    FreeLines(BlobLines(b));
    LinesJoined(BlobLines(b));
    HeaderAccepted();
    TakeBody(lim, b);
    var rd := Reader(Normal(b), false);
    NormalShaped(b);
    TakeLinesAppend(lim, Start(), BodyLines(b), ["end"]);
    EndLine(lim, rd);
    ParseIs(lim, b, rd);
  }

  lemma FreeLines(lines: seq<string>)
    requires AllFree(lines)
    ensures forall i :: 0 <= i < |lines| ==> Free(lines[i], '\n')
  {
  }

  lemma NormalShaped(b: Blob)
    requires BlobOk(b)
    ensures Shaped(Normal(b))
  {
  }

  lemma {:induction false} ParseIs(lim: Limits, b: Blob, rd: Reader)
    requires BlobOk(b) && !rd.ended
    requires Lines(Joined(BlobLines(b))) == BlobLines(b)
    requires CheckHeader(HeaderLine()) == Ok(REEXEC_FORMAT)
    requires TakeLines(lim, Start(), BodyLines(b) + ["end"]) == Ok(rd.(ended := true))
    ensures Parse(lim, Write(b)) == Ok(rd.blob)
  {
    hide Lines;
    hide TakeLines;
    hide CheckHeader;
    hide BodyLines;
    hide HeaderLine;
    hide BlobOk;
    assert BlobLines(b)[0] == HeaderLine() && BlobLines(b)[1..] == BodyLines(b) + ["end"];
  }

  lemma {:induction false} EndLine(lim: Limits, rd: Reader)
    requires Shaped(rd.blob) && !rd.ended
    ensures TakeLines(lim, rd, ["end"]) == Ok(rd.(ended := true))
  {
    OneWord("end");
    TakeOneLine(lim, rd, "end", []);
    assert ["end"] + [] == ["end"];
  }

  // ---- truncation ----

  predicate IsEnd(line: string) {
    var words := Words(line);
    words != [] && words[0] == "end"
  }

  /** An accepted blob has an `end` line. */
  lemma {:induction false} EndedNeedsEnd(lim: Limits, rd: Reader, lines: seq<string>)
    requires Shaped(rd.blob) && !rd.ended
    requires forall l :: l in lines ==> !IsEnd(l)
    ensures TakeLines(lim, rd, lines).Ok? ==> !TakeLines(lim, rd, lines).value.ended
    decreases |lines|
  {
    if lines != [] {
      assert lines[0] in lines;
      var r := TakeLine(lim, rd, lines[0]);
      hide TakeRecord;
      if r.Ok? {
        EndedNeedsEnd(lim, r.value, lines[1..]);
      }
    }
  }

  lemma NoEndNoBlob(lim: Limits, lines: seq<string>)
    requires lines != [] ==> forall l :: l in lines[1..] ==> !IsEnd(l)
    ensures ParseLines(lim, lines).Err?
  {
    if lines != [] {
      EndedNeedsEnd(lim, Start(), lines[1..]);
    }
  }

  /** Part of a record line is never an `end` line. */
  lemma PartOfRecord(rec: string, line: string, part: string)
    requires IsRecordOf(rec, line) && part <= line
    ensures !IsEnd(part)
  {
    if part == [] {
    } else if |part| <= |rec| {
      assert part == rec[..|part|];
      assert IsWord(part);
      OneWord(part);
      assert part <= rec;
    } else {
      var rest := part[|rec|..];
      assert part == rec + rest && rest[0] == line[|rec|];
      FirstWord(rec, rest);
    }
  }

  lemma BodyPartNotEnd(line: string, part: string)
    requires BodyLine(line) && part <= line
    ensures !IsEnd(part)
  {
    var rec :| IsRecordOf(rec, line);
    PartOfRecord(rec, line, part);
  }

  lemma ShortOfEnd(part: string)
    requires part <= "end" && part != "end"
    ensures !IsEnd(part)
  {
    if part != [] {
      assert part == "end"[..|part|];
      assert IsWord(part);
      OneWord(part);
    }
  }

  /** Whole record lines followed by part of another, or of the last line. */
  lemma NoEndBefore(first: string, body: seq<string>, n: nat, part: string)
    requires AllBody(body) && n < |body| + 2
    requires part <= ([first] + body + ["end"])[n] && !(n == |body| + 1 && part == "end")
    ensures var cut := ([first] + body + ["end"])[..n] + (if part == [] then [] else [part]);
            cut != [] ==> forall l :: l in cut[1..] ==> !IsEnd(l)
  {
    var lines := [first] + body + ["end"];
    var cut := lines[..n] + (if part == [] then [] else [part]);
    if cut != [] {
      forall l | l in cut[1..]
        ensures !IsEnd(l)
      {
        var i :| 0 <= i < |cut| - 1 && cut[i + 1] == l;
        if i + 1 < n {
          assert l == body[i] && body[i] in body;
          BodyPartNotEnd(l, l);
        } else if n <= |body| {
          assert l == part && lines[n] == body[n - 1] && body[n - 1] in body;
          BodyPartNotEnd(lines[n], part);
        } else {
          ShortOfEnd(part);
        }
      }
    }
  }

  /** A blob cut anywhere, except for just its last newline, is refused. */
  lemma TruncationRejected(lim: Limits, b: Blob, k: nat)
    requires BlobOk(b) && k < |Write(b)| - 1
    ensures Parse(lim, Write(b)[..k]).Err?
  {
    hide *;
    BlobLinesFree(b);
    FreeLines(BlobLines(b));
    WriteIs(b);
    var n, part := LinesOfPrefix(BlobLines(b), k);
    CutIs(BlobLines(b), k, n, part);
    BodyLinesBody(b);
    NoEndBefore(HeaderLine(), BodyLines(b), n, part);
    NoEndNoBlob(lim, Lines(Write(b)[..k]));
    ParseIsLines(lim, Write(b)[..k]);
  }

  lemma WriteIs(b: Blob)
    requires BlobOk(b)
    ensures Write(b) == Joined(BlobLines(b))
    ensures BlobLines(b) == [HeaderLine()] + BodyLines(b) + ["end"]
  {
  }

  lemma {:induction false} CutIs(lines: seq<string>, k: nat, n: nat, part: string)
    requires k < |Joined(lines)| && CutAt(lines, k, n, part)
    ensures n < |lines| && part <= lines[n]
    ensures Lines(Joined(lines)[..k]) == lines[..n] + (if part == [] then [] else [part])
    ensures part == lines[n] && n + 1 == |lines| ==> k == |Joined(lines)| - 1
  {
  }

  lemma {:induction false} ParseIsLines(lim: Limits, text: string)
    ensures Parse(lim, text) == ParseLines(lim, Lines(text))
  {
  }

  // ---- newer writers ----

  predicate KnownRecord(rec: string) {
    rec == "end" || rec == "svc" || rec == "evict" || rec == "fdstore" || rec == "global" || rec == "fd"
  }

  /** A record this reader has no name for. */
  predicate UnknownLine(line: string) {
    Words(line) != [] && !KnownRecord(Words(line)[0])
  }

  lemma UnknownLineSkipped(lim: Limits, rd: Reader, line: string)
    requires Shaped(rd.blob) && !rd.ended && UnknownLine(line)
    ensures TakeLine(lim, rd, line) == Ok(rd)
  {
  }

  lemma {:induction false} InsertLine(lim: Limits, rd: Reader, a: seq<string>, line: string, b: seq<string>)
    requires Shaped(rd.blob) && !rd.ended && UnknownLine(line)
    requires forall l :: l in a ==> !IsEnd(l)
    ensures TakeLines(lim, rd, a + ([line] + b)) == TakeLines(lim, rd, a + b)
  {
    hide TakeLines;
    hide TakeLine;
    TakeLinesAppend(lim, rd, a, [line] + b);
    TakeLinesAppend(lim, rd, a, b);
    EndedNeedsEnd(lim, rd, a);
    var r := TakeLines(lim, rd, a);
    if r.Ok? {
      TakeOneLine(lim, r.value, line, b);
      UnknownLineSkipped(lim, r.value, line);
    }
  }

  /** Unknown records anywhere between the header and `end` change nothing. */
  lemma UnknownRecordsIgnored(lim: Limits, header: string, a: seq<string>, line: string,
                      b: seq<string>)
    requires UnknownLine(line) && forall l :: l in a ==> !IsEnd(l)
    ensures ParseLines(lim, [header] + a + [line] + b) == ParseLines(lim, [header] + a + b)
  {
    hide TakeLines;
    hide CheckHeader;
    hide UnknownLine;
    hide IsEnd;
    hide Zeros;
    InsertLine(lim, Start(), a, line, b);
    assert ([header] + a + [line] + b)[1..] == a + ([line] + b);
    assert ([header] + a + b)[1..] == a + b;
  }

  function SchemaOf(rec: string): Schema {
    if rec == "svc" then SVC
    else if rec == "evict" then EVICT
    else if rec == "fdstore" then STORED
    else if rec == "global" then GLOBAL
    else if rec == "fd" then OWN_FDS
    else []
  }

  lemma TokenInRecord(lim: Limits, b: Blob, rec: string, x: seq<string>, tok: string, y: seq<string>)
    requires Shaped(b) && Unknown(SchemaOf(rec), tok)
    ensures TakeRecord(lim, b, rec, x + [tok] + y) == TakeRecord(lim, b, rec, x + y)
  {
    hide TakeTokens;
    hide Unknown;
    hide Zeros;
    if rec == "svc" { UnknownTokenIgnored(SVC, Zeros(SVC), x, tok, y); }
    if rec == "evict" { UnknownTokenIgnored(EVICT, Zeros(EVICT), x, tok, y); }
    if rec == "fdstore" { UnknownTokenIgnored(STORED, Zeros(STORED), x, tok, y); }
    if rec == "global" { UnknownTokenIgnored(GLOBAL, b.global, x, tok, y); }
    if rec == "fd" { UnknownTokenIgnored(OWN_FDS, b.fds, x, tok, y); }
  }

  lemma {:induction false} TokenInWords(u: string, tok: string, v: string)
    requires Words(u) != [] && IsWord(tok)
    ensures Words(u + " " + v) == [Words(u)[0]] + (Words(u)[1..] + Words(v))
    ensures Words(u + " " + tok + " " + v) == [Words(u)[0]] + (Words(u)[1..] + [tok] + Words(v))
  {
    hide *;
    WordsAcrossBlank(u, v);
    assert u + " " + tok + " " + v == u + " " + (tok + " " + v);
    WordsAcrossBlank(u, tok + " " + v);
    WordsAcrossBlank(tok, v);
    OneWord(tok);
    var w, y := Words(u), Words(v);
    assert w == [w[0]] + w[1..];
    assert w + y == [w[0]] + (w[1..] + y);
    assert w + ([tok] + y) == [w[0]] + (w[1..] + [tok] + y);
  }

  lemma {:induction false} TokenInLine(lim: Limits, rd: Reader, u: string, tok: string, v: string)
    requires Shaped(rd.blob) && Words(u) != [] && IsWord(tok)
    requires Unknown(SchemaOf(Words(u)[0]), tok)
    ensures TakeLine(lim, rd, u + " " + tok + " " + v) == TakeLine(lim, rd, u + " " + v)
  {
    TokenInWords(u, tok, v);
    TokenInRecord(lim, rd.blob, Words(u)[0], Words(u)[1..], tok, Words(v));
    hide Words;
    hide TakeRecord;
    hide Unknown;
    hide SchemaOf;
    var rec, x, y := Words(u)[0], Words(u)[1..], Words(v);
    assert ([rec] + (x + [tok] + y))[1..] == x + [tok] + y;
    assert ([rec] + (x + y))[1..] == x + y;
  }

  /** A `key=value` token with an unknown key, added to any record after its
      name, changes nothing. */
  lemma {:induction false} UnknownTokensIgnored(lim: Limits, header: string, a: seq<string>, u: string, tok: string,
                      v: string, b: seq<string>)
    requires Words(u) != [] && IsWord(tok) && Unknown(SchemaOf(Words(u)[0]), tok)
    ensures ParseLines(lim, [header] + a + [u + " " + tok + " " + v] + b) ==
            ParseLines(lim, [header] + a + [u + " " + v] + b)
  {
    hide TakeLines;
    hide TakeLine;
    hide CheckHeader;
    hide Words;
    hide Unknown;
    var l, l' := u + " " + v, u + " " + tok + " " + v;
    assert ([header] + a + [l] + b)[1..] == a + ([l] + b);
    assert ([header] + a + [l'] + b)[1..] == a + ([l'] + b);
    TakeLinesAppend(lim, Start(), a, [l] + b);
    TakeLinesAppend(lim, Start(), a, [l'] + b);
    var r := TakeLines(lim, Start(), a);
    if r.Ok? {
      TakeOneLine(lim, r.value, l, b);
      TakeOneLine(lim, r.value, l', b);
      TokenInLine(lim, r.value, u, tok, v);
    }
  }
}

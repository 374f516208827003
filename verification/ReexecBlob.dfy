/**
 The state blob as a whole: what the writer prints line by line, and the
 reader as a fold over the lines. The reader takes what the writer printed,
 refuses every truncated blob, and skips what it does not know.
 */
module ReexecBlob {
  import opened Decimal
  import opened TextLines
  import opened ReexecValues
  import opened ReexecRecord
  import opened ReexecSchemas

  const REEXEC_FORMAT := 1
  const MAX_EVICTIONS := 16

  datatype Blob = Blob(global: Row, fds: Row, svcs: seq<Row>, evictions: seq<Row>, stored: seq<Row>)

  /** How many services and stored descriptors the reader has room for. */
  datatype Limits = Limits(maxSvc: nat, maxStored: int)

  predicate Shaped(b: Blob) {
    |b.global| == |GLOBAL| && |b.fds| == |OWN_FDS|
  }

  // ---- reading ----

  datatype Reader = Reader(blob: Blob, ended: bool)

  function Start(): (rd: Reader)
    ensures Shaped(rd.blob)
  {
    Reader(Blob(Zeros(GLOBAL), Zeros(OWN_FDS), [], [], []), false)
  }

  predicate Named(row: Row) {
    |row| > 0 && row[0].Str? && row[0].s != []
  }

  /** A stored descriptor needs its service, its name and its number. */
  predicate Complete(row: Row) {
    |row| == 3 && Named(row) && row[1].Str? && row[1].s != [] && row[2].Num? && row[2].n >= 0
  }

  function TakeSvc(lim: Limits, b: Blob, toks: seq<string>): Result<Blob> {
    if |b.svcs| >= lim.maxSvc then Err(TooMany) else
      var r := TakeTokens(SVC, Zeros(SVC), toks);
      if r.Err? then Err(r.reason)
      else if !Named(r.value) then Err(NoName)
      else Ok(b.(svcs := b.svcs + [r.value]))
  }

  function TakeEvict(b: Blob, toks: seq<string>): Result<Blob> {
    if |b.evictions| >= MAX_EVICTIONS then Err(TooMany) else
      var r := TakeTokens(EVICT, Zeros(EVICT), toks);
      if r.Err? then Err(r.reason) else Ok(b.(evictions := b.evictions + [r.value]))
  }

  function TakeStored(lim: Limits, b: Blob, toks: seq<string>): Result<Blob> {
    if lim.maxStored <= 0 then Ok(b)
    else if |b.stored| >= lim.maxStored then Err(TooMany) else
      var r := TakeTokens(STORED, Zeros(STORED), toks);
      if r.Err? then Err(r.reason)
      else if !Complete(r.value) then Err(Incomplete)
      else Ok(b.(stored := b.stored + [r.value]))
  }

  function TakeRecord(lim: Limits, b: Blob, rec: string, toks: seq<string>): Result<Blob>
    requires Shaped(b)
  {
    if rec == "svc" then TakeSvc(lim, b, toks)
    else if rec == "evict" then TakeEvict(b, toks)
    else if rec == "fdstore" then TakeStored(lim, b, toks)
    else if rec == "global" then
      var r := TakeTokens(GLOBAL, b.global, toks);
      if r.Err? then Err(r.reason) else Ok(b.(global := r.value))
    else if rec == "fd" then
      var r := TakeTokens(OWN_FDS, b.fds, toks);
      if r.Err? then Err(r.reason) else Ok(b.(fds := r.value))
    else Ok(b)
  }

  lemma TakeRecordShaped(lim: Limits, b: Blob, rec: string, toks: seq<string>)
    requires Shaped(b)
    ensures TakeRecord(lim, b, rec, toks).Ok? ==> Shaped(TakeRecord(lim, b, rec, toks).value)
  {
    hide TakeTokens;
  }

  function TakeLine(lim: Limits, rd: Reader, line: string): (r: Result<Reader>)
    requires Shaped(rd.blob)
    ensures r.Ok? ==> Shaped(r.value.blob)
  {
    if rd.ended then Err(AfterEnd) else
      var words := Words(line);
      if words == [] then Ok(rd)
      else if words[0] == "end" then Ok(rd.(ended := true))
      else
        var b := TakeRecord(lim, rd.blob, words[0], words[1..]);
        TakeRecordShaped(lim, rd.blob, words[0], words[1..]);
        if b.Err? then Err(b.reason) else Ok(rd.(blob := b.value))
  }

  function TakeLines(lim: Limits, rd: Reader, lines: seq<string>): (r: Result<Reader>)
    requires Shaped(rd.blob)
    ensures r.Ok? ==> Shaped(r.value.blob)
    decreases |lines|
  {
    if lines == [] then Ok(rd) else
      var r := TakeLine(lim, rd, lines[0]);
      if r.Err? then r else TakeLines(lim, r.value, lines[1..])
  }

  const MAGIC := "schema-init-state"

  /** What a 32-bit int holds of a number scanf reads into it. */
  function ToInt32(n: int): int {
    var c := if n > INT64_MAX then INT64_MAX else if n < INT64_MIN then INT64_MIN else n;
    var w := c % 0x1_0000_0000;
    if w > INT32_MAX then w - 0x1_0000_0000 else w
  }

  function CheckHeader(line: string): Result<int> {
    if !(MAGIC <= line) then Err(NotABlob) else
      var x := Scan(line[|MAGIC|..]);
      if !x.found || x.rest != [] then Err(NotABlob)
      else if ToInt32(x.value) < 1 || ToInt32(x.value) > REEXEC_FORMAT then Err(NewerFormat(ToInt32(x.value)))
      else Ok(ToInt32(x.value))
  }

  function ParseLines(lim: Limits, lines: seq<string>): Result<Blob> {
    if lines == [] then Err(Empty) else
      var h := CheckHeader(lines[0]);
      if h.Err? then Err(h.reason) else
        var r := TakeLines(lim, Start(), lines[1..]);
        if r.Err? then Err(r.reason)
        else if !r.value.ended then Err(Truncated)
        else Ok(r.value.blob)
  }

  function Parse(lim: Limits, text: string): Result<Blob> {
    ParseLines(lim, Lines(text))
  }

  // ---- writing ----

  function All(n: nat): seq<bool> {
    seq(n, _ => true)
  }

  /** The flags of an eviction are printed only when set, and always as 1. */
  function Bit(v: Val): Val {
    if v == Num(0) then v else Num(1)
  }

  function NormalEviction(row: Row): (r: Row)
    requires |row| == |EVICT|
    ensures |r| == |EVICT|
  {
    [row[0], row[1], row[2], Bit(row[3]), Bit(row[4])]
  }

  function EvictionShow(row: Row): (show: seq<bool>)
    requires |row| == |EVICT|
    ensures |show| == |EVICT|
  {
    [true, true, true, row[3] != Num(0), row[4] != Num(0)]
  }

  predicate BlobOk(b: Blob) {
    && RowOk(GLOBAL, b.global) && RowOk(OWN_FDS, b.fds)
    && (forall r :: r in b.svcs ==> RowOk(SVC, r) && Named(r))
    && (forall r :: r in b.evictions ==> RowOk(EVICT, r))
    && (forall r :: r in b.stored ==> RowOk(STORED, r) && Complete(r))
  }

  function RecordLine(rec: string, schema: Schema, row: Row, show: seq<bool>): string
    requires RowOk(schema, row) && |show| == |schema|
  {
    rec + Blanked(Tokens(schema, row, show, 0))
  }

  function SvcLine(row: Row): string
    requires RowOk(SVC, row)
  {
    RecordLine("svc", SVC, row, All(|SVC|))
  }

  lemma NormalEvictionOk(row: Row)
    requires RowOk(EVICT, row)
    ensures RowOk(EVICT, NormalEviction(row))
  {
    var r := NormalEviction(row);
    forall i | 0 <= i < |r|
      ensures InRange(EVICT[i].kind, r[i])
    {
      assert InRange(EVICT[i].kind, row[i]);
    }
  }

  function EvictLine(row: Row): string
    requires RowOk(EVICT, row)
  {
    NormalEvictionOk(row);
    RecordLine("evict", EVICT, NormalEviction(row), EvictionShow(row))
  }

  function StoredLine(row: Row): string
    requires RowOk(STORED, row)
  {
    RecordLine("fdstore", STORED, row, All(|STORED|))
  }

  function SvcLines(rows: seq<Row>): seq<string>
    requires forall r :: r in rows ==> RowOk(SVC, r)
  {
    if rows == [] then [] else [SvcLine(rows[0])] + SvcLines(rows[1..])
  }

  function EvictLines(rows: seq<Row>): seq<string>
    requires forall r :: r in rows ==> RowOk(EVICT, r)
  {
    if rows == [] then [] else [EvictLine(rows[0])] + EvictLines(rows[1..])
  }

  function StoredLines(rows: seq<Row>): seq<string>
    requires forall r :: r in rows ==> RowOk(STORED, r)
  {
    if rows == [] then [] else [StoredLine(rows[0])] + StoredLines(rows[1..])
  }

  function HeaderLine(): string {
    MAGIC + " " + IntText(REEXEC_FORMAT)
  }

  /** The lines between the header and `end`. */
  function BodyLines(b: Blob): seq<string>
    requires BlobOk(b)
  {
    [RecordLine("global", GLOBAL, b.global, All(|GLOBAL|))] +
    ([RecordLine("fd", OWN_FDS, b.fds, All(|OWN_FDS|))] +
     (SvcLines(b.svcs) + (EvictLines(b.evictions) + StoredLines(b.stored))))
  }

  function BlobLines(b: Blob): seq<string>
    requires BlobOk(b)
  {
    [HeaderLine()] + BodyLines(b) + ["end"]
  }

  function Write(b: Blob): string
    requires BlobOk(b)
  {
    Joined(BlobLines(b))
  }

  function NormalEvictions(rows: seq<Row>): seq<Row>
    requires forall r :: r in rows ==> |r| == |EVICT|
  {
    if rows == [] then [] else [NormalEviction(rows[0])] + NormalEvictions(rows[1..])
  }

  /** What is handed over: everything, with the eviction flags as 0 or 1. */
  function Normal(b: Blob): Blob
    requires BlobOk(b)
  {
    b.(evictions := NormalEvictions(b.evictions))
  }

  // ---- one printed record ----

  lemma {:induction false} RecordWords(rec: string, schema: Schema, row: Row, show: seq<bool>)
    requires SchemaOk(schema) && RowOk(schema, row) && |show| == |schema|
    requires IsWord(rec) && Free(rec, '\n')
    ensures Words(RecordLine(rec, schema, row, show)) == [rec] + Tokens(schema, row, show, 0)
    ensures Free(RecordLine(rec, schema, row, show), '\n')
    ensures rec <= RecordLine(rec, schema, row, show)
  {
    var toks := Tokens(schema, row, show, 0);
    TokensAreWords(schema, row, show, 0);
    assert forall k :: 0 <= k < |toks| ==> toks[k] in toks;
    hide Tokens;
    hide RowOk;
    hide SchemaOk;
    WordsBlanked(toks);
    FirstWord(rec, Blanked(toks));
    BlankedFree(toks);
  }

  lemma {:induction false} BlankedFree(toks: seq<string>)
    requires AllWords(toks)
    ensures Free(Blanked(toks), '\n')
  {
    if toks != [] {
      assert toks[0] in toks;
      BlankedFree(toks[1..]);
    }
  }

  lemma ShownAll(schema: Schema, row: Row)
    requires |row| == |schema|
    ensures Shown(schema, row, All(|schema|), |schema|) == row
  {
  }

  /** All fields shown: the record is read back as it was. */
  lemma {:induction false} TakeWholeRow(schema: Schema, row: Row)
    requires SchemaOk(schema) && RowOk(schema, row)
    ensures TakeTokens(schema, Zeros(schema), Tokens(schema, row, All(|schema|), 0)) == Ok(row)
  {
    TakePrintedRow(schema, row, All(|schema|));
    ShownAll(schema, row);
  }

  lemma TakeEvictionRow(row: Row)
    requires RowOk(EVICT, row)
    ensures RowOk(EVICT, NormalEviction(row))
    ensures TakeTokens(EVICT, Zeros(EVICT), Tokens(EVICT, NormalEviction(row), EvictionShow(row), 0)) ==
            Ok(NormalEviction(row))
  {
    NormalEvictionOk(row);
    EvictOk();
    var r, show := NormalEviction(row), EvictionShow(row);
    TakePrintedRow(EVICT, r, show);
    hide TakeTokens;
    hide Tokens;
    assert Shown(EVICT, r, show, |EVICT|) == r;
  }
}

/**
 One record of the state blob: a row of fields, printed as `key=value` tokens
 in the order of its schema and read back token by token, in any order,
 skipping keys the schema does not have.
 */
module ReexecRecord {
  import opened Common
  import opened TextLines
  import opened ReexecValues

  /** `zero` is what the field holds before any token sets it. */
  datatype Field = Field(key: string, kind: Kind, zero: Val)

  datatype Reason =
    | NoEquals | BadValue(key: string) | AfterEnd | TooMany | NoName | Incomplete
    | NotABlob | NewerFormat(version: int) | Empty | Truncated

  datatype Result<+T> = Ok(value: T) | Err(reason: Reason)

  type Schema = seq<Field>
  type Row = seq<Val>

  function FieldIndex(schema: Schema, key: string): (i: nat)
    ensures i <= |schema|
    ensures i < |schema| ==> schema[i].key == key
    ensures forall j :: 0 <= j < i ==> schema[j].key != key
  {
    if schema == [] || schema[0].key == key then 0 else 1 + FieldIndex(schema[1..], key)
  }

  function Store(f: Field, old_: Val, v: Val): Val {
    if !f.kind.FLAG? then v else if v == Num(0) then old_ else Num(1)
  }

  function TakeToken(schema: Schema, row: Row, tok: string): (r: Result<Row>)
    requires |row| == |schema|
    ensures r.Ok? ==> |r.value| == |schema|
  {
    var k := Find(tok, '=');
    if k == |tok| then Err(NoEquals) else
      var i := FieldIndex(schema, tok[..k]);
      if i == |schema| then Ok(row) else
        var v := Read(schema[i].kind, tok[k + 1..]);
        if v.None? then Err(BadValue(tok[..k])) else Ok(row[i := Store(schema[i], row[i], v.value)])
  }

  function TakeTokens(schema: Schema, row: Row, toks: seq<string>): (r: Result<Row>)
    requires |row| == |schema|
    ensures r.Ok? ==> |r.value| == |schema|
    decreases |toks|
  {
    if toks == [] then Ok(row) else
      var r := TakeToken(schema, row, toks[0]);
      if r.Err? then r else TakeTokens(schema, r.value, toks[1..])
  }

  lemma {:induction false} TakeAppend(schema: Schema, row: Row, a: seq<string>, b: seq<string>)
    requires |row| == |schema|
    ensures TakeTokens(schema, row, a + b) ==
            var r := TakeTokens(schema, row, a);
            if r.Err? then r else TakeTokens(schema, r.value, b)
    decreases |a|
  {
    if a == [] {
      assert a + b == b;
    } else {
      assert (a + b)[0] == a[0] && (a + b)[1..] == a[1..] + b;
      var r := TakeToken(schema, row, a[0]);
      if r.Ok? {
        TakeAppend(schema, r.value, a[1..], b);
      }
    }
  }

  /** A `key=value` token whose key a reader of this schema does not know. */
  predicate Unknown(schema: Schema, tok: string) {
    var k := Find(tok, '=');
    k < |tok| && FieldIndex(schema, tok[..k]) == |schema|
  }

  /** A newer writer's extra token, anywhere in the record, changes nothing. */
  lemma {:induction false} UnknownTokenIgnored(schema: Schema, row: Row, a: seq<string>, tok: string, b: seq<string>)
    requires |row| == |schema| && Unknown(schema, tok)
    ensures TakeTokens(schema, row, a + [tok] + b) == TakeTokens(schema, row, a + b)
  {
    TakeAppend(schema, row, a, b);
    assert a + [tok] + b == a + ([tok] + b);
    TakeAppend(schema, row, a, [tok] + b);
    var r := TakeTokens(schema, row, a);
    if r.Ok? {
      assert ([tok] + b)[1..] == b;
      assert TakeToken(schema, r.value, tok) == r;
    }
  }

  // ---- printing ----

  /** Nothing below the digits, so no blank or newline, and no equals sign. */
  predicate KeyOk(key: string) {
    forall i :: 0 <= i < |key| ==> '0' <= key[i] && key[i] != '='
  }

  /** Distinct plain keys, and bits that start out off. */
  predicate SchemaOk(schema: Schema) {
    && (forall i, j :: 0 <= i < j < |schema| ==> schema[i].key != schema[j].key)
    && (forall i :: 0 <= i < |schema| ==> KeyOk(schema[i].key))
    && (forall i :: 0 <= i < |schema| && schema[i].kind.FLAG? ==> schema[i].zero == Num(0))
  }

  predicate RowOk(schema: Schema, row: Row) {
    |row| == |schema| && forall i :: 0 <= i < |row| ==> InRange(schema[i].kind, row[i])
  }

  function Zeros(schema: Schema): (row: Row)
    ensures |row| == |schema|
  {
    seq(|schema|, i requires 0 <= i < |schema| => schema[i].zero)
  }

  function Token(f: Field, v: Val): string
    requires InRange(f.kind, v)
  {
    f.key + "=" + Print(f.kind, v)
  }

  /** The tokens of the fields from `i` on that are shown. */
  function Tokens(schema: Schema, row: Row, show: seq<bool>, i: nat): seq<string>
    requires RowOk(schema, row) && |show| == |schema| && i <= |schema|
    decreases |schema| - i
  {
    if i == |schema| then []
    else (if show[i] then [Token(schema[i], row[i])] else []) + Tokens(schema, row, show, i + 1)
  }

  /** Hidden fields read back as their zero. */
  function Shown(schema: Schema, row: Row, show: seq<bool>, i: nat): (r: Row)
    requires |row| == |show| == |schema| && i <= |schema|
    ensures |r| == |schema|
  {
    seq(|schema|, j requires 0 <= j < |schema| => if j < i && show[j] then row[j] else schema[j].zero)
  }

  lemma TokenIsWord(f: Field, v: Val)
    requires InRange(f.kind, v) && KeyOk(f.key)
    ensures IsWord(Token(f, v)) && Free(Token(f, v), '\n')
  {
    PrintIsPlain(f.kind, v);
    assert forall i :: 0 <= i < |f.key| ==> f.key[i] in f.key;
  }

  predicate AllWords(toks: seq<string>) {
    forall w :: w in toks ==> IsWord(w) && Free(w, '\n')
  }

  lemma {:induction false} TokensAreWords(schema: Schema, row: Row, show: seq<bool>, i: nat)
    requires SchemaOk(schema) && RowOk(schema, row) && |show| == |schema| && i <= |schema|
    ensures AllWords(Tokens(schema, row, show, i))
    decreases |schema| - i
  {
    if i < |schema| {
      TokensAreWords(schema, row, show, i + 1);
      TokenIsWord(schema[i], row[i]);
      var head, rest := if show[i] then [Token(schema[i], row[i])] else [], Tokens(schema, row, show, i + 1);
      hide IsWord;
      hide Free;
      hide Token;
      assert AllWords(head) && AllWords(rest);
      assert AllWords(head + rest);
    }
  }

  lemma {:induction false} FieldIndexIs(schema: Schema, i: nat)
    requires SchemaOk(schema) && i < |schema|
    ensures FieldIndex(schema, schema[i].key) == i
  {
  }

  lemma TakePrinted(schema: Schema, row: Row, i: nat, v: Val)
    requires SchemaOk(schema) && |row| == |schema| && i < |schema| && InRange(schema[i].kind, v)
    ensures TakeToken(schema, row, Token(schema[i], v)) == Ok(row[i := Store(schema[i], row[i], v)])
  {
    hide Print;
    hide Read;
    hide InRange;
    var f := schema[i];
    var tok := Token(f, v);
    assert tok == f.key + ['='] + Print(f.kind, v);
    assert forall j :: 0 <= j < |f.key| ==> f.key[j] in f.key;
    FindIs(f.key, '=', Print(f.kind, v));
    assert tok[..|f.key|] == f.key && tok[|f.key| + 1..] == Print(f.kind, v);
    FieldIndexIs(schema, i);
    ReadPrint(f.kind, v);
  }

  lemma ShownStep(schema: Schema, row: Row, show: seq<bool>, i: nat)
    requires SchemaOk(schema) && RowOk(schema, row) && |show| == |schema| && i < |schema|
    ensures Shown(schema, row, show, i + 1) ==
            if show[i]
            then Shown(schema, row, show, i)[i := Store(schema[i], Shown(schema, row, show, i)[i], row[i])]
            else Shown(schema, row, show, i)
  {
    assert InRange(schema[i].kind, row[i]);
  }

  lemma {:induction false} TakeCons(schema: Schema, row: Row, tok: string, row': Row, toks: seq<string>)
    requires |row| == |schema| && TakeToken(schema, row, tok) == Ok(row')
    ensures TakeTokens(schema, row, [tok] + toks) == TakeTokens(schema, row', toks)
  {
    assert ([tok] + toks)[1..] == toks;
  }

  lemma {:induction false} TakeTokensFrom(schema: Schema, row: Row, show: seq<bool>, i: nat)
    requires SchemaOk(schema) && RowOk(schema, row) && |show| == |schema| && i <= |schema|
    ensures TakeTokens(schema, Shown(schema, row, show, i), Tokens(schema, row, show, i)) ==
            Ok(Shown(schema, row, show, |schema|))
    decreases |schema| - i
  {
    if i < |schema| {
      var now, next := Shown(schema, row, show, i), Shown(schema, row, show, i + 1);
      var rest := Tokens(schema, row, show, i + 1);
      assert InRange(schema[i].kind, row[i]);
      assert Tokens(schema, row, show, i) == (if show[i] then [Token(schema[i], row[i])] else []) + rest;
      hide *;
      TakeTokensFrom(schema, row, show, i + 1);
      ShownStep(schema, row, show, i);
      if show[i] {
        TakePrinted(schema, now, i, row[i]);
        TakeCons(schema, now, Token(schema[i], row[i]), next, rest);
      } else {
        assert [] + rest == rest;
      }
    }
  }

  /** A printed record is read back: shown fields as they were, hidden ones zero. */
  lemma {:induction false} TakePrintedRow(schema: Schema, row: Row, show: seq<bool>)
    requires SchemaOk(schema) && RowOk(schema, row) && |show| == |schema|
    ensures TakeTokens(schema, Zeros(schema), Tokens(schema, row, show, 0)) ==
            Ok(Shown(schema, row, show, |schema|))
  {
    TakeTokensFrom(schema, row, show, 0);
    assert Shown(schema, row, show, 0) == Zeros(schema);
  }
}

/**
 The holders of one bus name: the primary owner first, the waiting queue after
 it. What a request and a drop do to that list, and what they leave alone.
 */
module NameHolders {

  const NONE := -1

  const ALLOW_REPLACEMENT := 1
  const REPLACE_EXISTING := 2
  const DO_NOT_QUEUE := 4

  const PRIMARY_OWNER := 1
  const IN_QUEUE := 2
  const EXISTS := 3
  const ALREADY_OWNER := 4

  datatype Holder = Holder(conn: int, flags: nat)

  predicate Has(flags: nat, bit: nat)
    requires bit > 0
  {
    flags / bit % 2 == 1
  }

  function Owner(hs: seq<Holder>): int {
    if hs == [] then NONE else hs[0].conn
  }

  /** Position of a connection among the holders, or -1. */
  function Find(hs: seq<Holder>, conn: int): (r: int)
    ensures -1 <= r < |hs|
    ensures r >= 0 ==> hs[r].conn == conn
    ensures forall i :: 0 <= i < (if r < 0 then |hs| else r) ==> hs[i].conn != conn
  {
    if hs == [] then -1
    else if hs[0].conn == conn then 0
    else var t := Find(hs[1..], conn); if t < 0 then -1 else t + 1
  }

  predicate Holds(hs: seq<Holder>, conn: int) {
    exists i :: 0 <= i < |hs| && hs[i].conn == conn
  }

  predicate Distinct(hs: seq<Holder>) {
    forall i, j :: 0 <= i < j < |hs| ==> hs[i].conn != hs[j].conn
  }

  /** Whoever holds the name both before and after stands in the same order. */
  predicate KeepsOrder(a: seq<Holder>, b: seq<Holder>) {
    forall i, j, p, q | 0 <= i < j < |b| && 0 <= p < |a| && 0 <= q < |a| ::
      b[i].conn == a[p].conn && b[j].conn == a[q].conn ==> p < q
  }

  function Inserted(hs: seq<Holder>, k: nat, h: Holder): seq<Holder>
    requires k <= |hs|
  {
    hs[..k] + [h] + hs[k..]
  }

  function Removed(hs: seq<Holder>, k: nat): seq<Holder>
    requires k < |hs|
  {
    hs[..k] + hs[k + 1..]
  }

  /** A request finds another owner that it may push aside. */
  predicate TakesOver(hs: seq<Holder>, conn: int, flags: nat) {
    hs != [] && Find(hs, conn) < 0 && Has(flags, REPLACE_EXISTING) && Has(hs[0].flags, ALLOW_REPLACEMENT)
  }

  /** Holders after a request, and the reply code. */
  function Ask(hs: seq<Holder>, conn: int, flags: nat): (seq<Holder>, int) {
    var k := Find(hs, conn);
    if hs == [] then ([Holder(conn, flags)], PRIMARY_OWNER)
    else if k == 0 then (hs[0 := Holder(conn, flags)], ALREADY_OWNER)
    else if k > 0 then (hs[k := Holder(conn, flags)], IN_QUEUE)
    else if TakesOver(hs, conn, flags) then
      (Inserted(if Has(hs[0].flags, DO_NOT_QUEUE) then hs[1..] else hs, 0, Holder(conn, flags)), PRIMARY_OWNER)
    else if Has(flags, DO_NOT_QUEUE) then (hs, EXISTS)
    else (hs + [Holder(conn, flags)], IN_QUEUE)
  }

  /** Holders after a connection is taken out, if it was there. */
  function Drop(hs: seq<Holder>, conn: int): seq<Holder> {
    var k := Find(hs, conn);
    if k < 0 then hs else Removed(hs, k)
  }

  // ---- what a drop means ----

  lemma DropDistinct(hs: seq<Holder>, conn: int)
    requires Distinct(hs)
    ensures Distinct(Drop(hs, conn)) && !Holds(Drop(hs, conn), conn)
  {
  }

  lemma SamePlace(hs: seq<Holder>, p: nat, q: nat)
    requires Distinct(hs) && p < |hs| && q < |hs| && hs[p].conn == hs[q].conn
    ensures p == q
  {
  }

  lemma DropKeepsOrder(hs: seq<Holder>, conn: int)
    requires Distinct(hs)
    ensures KeepsOrder(hs, Drop(hs, conn))
  {
    var b, k := Drop(hs, conn), Find(hs, conn);
    forall i, j, p, q | 0 <= i < j < |b| && 0 <= p < |hs| && 0 <= q < |hs| &&
                        b[i].conn == hs[p].conn && b[j].conn == hs[q].conn
      ensures p < q
    {
      SamePlace(hs, p, if k < 0 || i < k then i else i + 1);
      SamePlace(hs, q, if k < 0 || j < k then j else j + 1);
    }
  }

  lemma DropKeepsOthers(hs: seq<Holder>, conn: int, h: Holder)
    requires h.conn != conn
    ensures h in Drop(hs, conn) <==> h in hs
  {
    var k := Find(hs, conn);
    if k >= 0 && h in hs {
      var i :| 0 <= i < |hs| && hs[i] == h;
      assert Removed(hs, k)[if i < k then i else i - 1] == h;
    }
  }

  lemma DropHolds(hs: seq<Holder>, conn: int, c: int)
    requires Distinct(hs)
    ensures Holds(Drop(hs, conn), c) <==> Holds(hs, c) && c != conn
  {
    DropDistinct(hs, conn);
    if Holds(hs, c) && c != conn {
      var i :| 0 <= i < |hs| && hs[i].conn == c;
      DropKeepsOthers(hs, conn, hs[i]);
      var j :| 0 <= j < |Drop(hs, conn)| && Drop(hs, conn)[j] == hs[i];
    }
    if Holds(Drop(hs, conn), c) {
      var j :| 0 <= j < |Drop(hs, conn)| && Drop(hs, conn)[j].conn == c;
      DropKeepsOthers(hs, conn, Drop(hs, conn)[j]);
    }
  }

  // ---- what a request means ----

  /** The reply code says where the requester stands, before and after. */
  lemma AskCode(hs: seq<Holder>, conn: int, flags: nat)
    requires Distinct(hs) && conn != NONE
    ensures var (after, code) := Ask(hs, conn, flags);
            && (code == PRIMARY_OWNER <==> Owner(hs) != conn && Owner(after) == conn)
            && (code == ALREADY_OWNER <==> Owner(hs) == conn)
            && (code == ALREADY_OWNER ==> Owner(after) == conn)
            && (code == IN_QUEUE <==> Holds(after, conn) && Owner(after) != conn)
            && (code == EXISTS <==> !Holds(after, conn))
            && (code == EXISTS ==> after == hs)
            && code in {PRIMARY_OWNER, ALREADY_OWNER, IN_QUEUE, EXISTS}
  {
    var (after, code) := Ask(hs, conn, flags);
    var k := Find(hs, conn);
    if code == IN_QUEUE {
      assert after[if k > 0 then k else |hs|].conn == conn;
    } else if code != EXISTS {
      assert after[0].conn == conn;
    }
  }

  lemma AskDistinct(hs: seq<Holder>, conn: int, flags: nat)
    requires Distinct(hs)
    ensures Distinct(Ask(hs, conn, flags).0)
  {
  }

  lemma AskKeepsOrder(hs: seq<Holder>, conn: int, flags: nat)
    requires Distinct(hs)
    ensures KeepsOrder(hs, Ask(hs, conn, flags).0)
  {
  }

  /** Nobody else is touched, except an owner that was replaced and had asked
      not to be queued. */
  lemma AskKeepsOthers(hs: seq<Holder>, conn: int, flags: nat, h: Holder)
    requires Distinct(hs) && h.conn != conn
    ensures h in Ask(hs, conn, flags).0 <==>
            h in hs && !(TakesOver(hs, conn, flags) && h == hs[0] && Has(h.flags, DO_NOT_QUEUE))
  {
    var after := Ask(hs, conn, flags).0;
    if h in hs {
      var i :| 0 <= i < |hs| && hs[i] == h;
      if TakesOver(hs, conn, flags) {
        if !Has(hs[0].flags, DO_NOT_QUEUE) {
          assert after[i + 1] == h;
        } else if i > 0 {
          assert after[i] == h;
        }
      } else {
        assert after[i] == h;
      }
    }
  }

  /** A requester that got in holds the name with the flags it gave, at the end
      of the queue if it was not there before. */
  lemma {:induction false} AskPlacement(hs: seq<Holder>, conn: int, flags: nat)
    requires Distinct(hs) && Ask(hs, conn, flags).1 != EXISTS
    ensures Holder(conn, flags) in Ask(hs, conn, flags).0
    ensures Find(hs, conn) < 0 && Ask(hs, conn, flags).1 == IN_QUEUE ==>
              Ask(hs, conn, flags).0[|Ask(hs, conn, flags).0| - 1] == Holder(conn, flags)
  {
    var (after, code) := Ask(hs, conn, flags);
    var k := Find(hs, conn);
    if k > 0 {
      assert after[k] == Holder(conn, flags);
    } else if code == IN_QUEUE {
      assert after[|after| - 1] == Holder(conn, flags);
    } else {
      assert after[0] == Holder(conn, flags);
    }
  }

  lemma AskHolds(hs: seq<Holder>, conn: int, flags: nat, c: int)
    requires Holds(Ask(hs, conn, flags).0, c)
    ensures c == conn || Holds(hs, c)
  {
    var after := Ask(hs, conn, flags).0;
    var i :| 0 <= i < |after| && after[i].conn == c;
    if c != conn {
      if TakesOver(hs, conn, flags) {
        assert after[i] in hs;
      }
    }
  }

  // ---- order over a run ----

  lemma {:induction false} FindHeld(hs: seq<Holder>, conn: int)
    requires Holds(hs, conn)
    ensures 0 <= Find(hs, conn) && hs[Find(hs, conn)].conn == conn
  {
  }

  /** Two connections that hold a name before and after a step keep their order. */
  lemma {:induction false} OrderAcross(a: seq<Holder>, b: seq<Holder>, x: int, y: int)
    requires KeepsOrder(a, b) && x != y
    requires Holds(a, x) && Holds(a, y) && Holds(b, x) && Holds(b, y)
    ensures Find(a, x) < Find(a, y) <==> Find(b, x) < Find(b, y)
  {
    FindHeld(a, x);
    FindHeld(a, y);
    FindHeld(b, x);
    FindHeld(b, y);
  }

  // ---- the loops ----

  method HolderIndex(hs: seq<Holder>, conn: int) returns (r: int)
    ensures r == Find(hs, conn)
  {
    for i := 0 to |hs|
      invariant Find(hs, conn) == if Find(hs[i..], conn) < 0 then -1 else i + Find(hs[i..], conn)
    {
      assert hs[i..][0] == hs[i] && hs[i..][1..] == hs[i + 1..];
      if hs[i].conn == conn { return i; }
    }
    return -1;
  }

  method HolderInsert(hs: seq<Holder>, k: nat, h: Holder) returns (r: seq<Holder>)
    requires k <= |hs|
    ensures r == Inserted(hs, k, h)
  {
    var nh := new Holder[|hs| + 1](_ => h);
    for i := 0 to k
      invariant nh[..i] == hs[..i]
    {
      nh[i] := hs[i];
    }
    nh[k] := h;
    for i := k to |hs|
      invariant nh[..i + 1] == hs[..k] + [h] + hs[k..i]
    {
      nh[i + 1] := hs[i];
      assert nh[..i + 2] == nh[..i + 1] + [hs[i]];
      assert hs[k..i + 1] == hs[k..i] + [hs[i]];
    }
    r := nh[..];
  }

  method HolderRemove(hs: seq<Holder>, k: nat) returns (r: seq<Holder>)
    requires k < |hs|
    ensures r == Removed(hs, k)
  {
    r := hs;
    for i := k to |hs| - 1
      invariant r == hs[..k] + hs[k + 1..i + 1] + hs[i..]
    {
      r := r[i := r[i + 1]];
      assert r == hs[..k] + (hs[k + 1..i + 1] + [hs[i + 1]]) + hs[i + 1..];
      assert hs[k + 1..i + 2] == hs[k + 1..i + 1] + [hs[i + 1]];
    }
    r := r[..|hs| - 1];
  }

  method AskLoop(hs: seq<Holder>, conn: int, flags: nat) returns (after: seq<Holder>, code: int, moved: bool)
    requires Distinct(hs) && conn != NONE
    ensures (after, code) == Ask(hs, conn, flags)
    ensures moved <==> Owner(after) != Owner(hs)
  {
    if |hs| == 0 {
      after := HolderInsert(hs, 0, Holder(conn, flags));
      assert after == [Holder(conn, flags)];
      return after, PRIMARY_OWNER, true;
    }
    var k := HolderIndex(hs, conn);
    if k == 0 {
      return hs[0 := Holder(conn, flags)], ALREADY_OWNER, false;
    }
    if k > 0 {
      return hs[k := Holder(conn, flags)], IN_QUEUE, false;
    }
    if Has(flags, REPLACE_EXISTING) && Has(hs[0].flags, ALLOW_REPLACEMENT) {
      after := hs;
      if Has(hs[0].flags, DO_NOT_QUEUE) {
        after := HolderRemove(hs, 0);
        assert after == hs[1..];
      }
      after := HolderInsert(after, 0, Holder(conn, flags));
      return after, PRIMARY_OWNER, true;
    }
    if Has(flags, DO_NOT_QUEUE) {
      return hs, EXISTS, false;
    }
    after := HolderInsert(hs, |hs|, Holder(conn, flags));
    assert after == hs + [Holder(conn, flags)];
    return after, IN_QUEUE, false;
  }
}

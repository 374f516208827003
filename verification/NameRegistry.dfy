/**
 The bus name registry: an append-only table of names, each with its holders.
 Replaying the emitted ownership changes from nothing always gives the present
 owners, and nobody overtakes anybody in a waiting queue.
 */
module NameRegistry {
  import opened NameHolders

  const MAX_NAMES_PER_CONN := 512

  const RELEASED := 1
  const NON_EXISTENT := 2
  const NOT_OWNER := 3

  datatype Entry = Entry(name: string, holders: seq<Holder>)

  datatype Transition = Transition(name: string, before: int, after: int)

  // ---- the table ----

  predicate Named(es: seq<Entry>) {
    forall i, j :: 0 <= i < j < |es| ==> es[i].name != es[j].name
  }

  predicate Orderly(es: seq<Entry>) {
    forall i :: 0 <= i < |es| ==> Distinct(es[i].holders)
  }

  function Index(es: seq<Entry>, name: string): (r: nat)
    ensures r <= |es|
    ensures r < |es| ==> es[r].name == name
    ensures forall i :: 0 <= i < r ==> es[i].name != name
  {
    if es == [] || es[0].name == name then 0 else 1 + Index(es[1..], name)
  }

  function HoldersOf(es: seq<Entry>, name: string): seq<Holder> {
    var k := Index(es, name);
    if k < |es| then es[k].holders else []
  }

  function With(es: seq<Entry>, k: nat, hs: seq<Holder>): seq<Entry>
    requires k < |es|
  {
    es[k := Entry(es[k].name, hs)]
  }

  lemma {:induction false} IndexIs(es: seq<Entry>, k: nat)
    requires Named(es) && k < |es|
    ensures Index(es, es[k].name) == k && HoldersOf(es, es[k].name) == es[k].holders
  {
  }

  lemma HoldersWith(es: seq<Entry>, k: nat, hs: seq<Holder>, name: string)
    requires Named(es) && k < |es|
    ensures Named(With(es, k, hs))
    ensures HoldersOf(With(es, k, hs), name) == if name == es[k].name then hs else HoldersOf(es, name)
  {
    var es' := With(es, k, hs);
    assert forall i :: 0 <= i < |es| ==> es'[i].name == es[i].name;
    if name == es[k].name {
      IndexIs(es', k);
    } else {
      var a, b := Index(es, name), Index(es', name);
      assert a == b;
    }
  }

  lemma {:induction false} HoldersAppend(es: seq<Entry>, added: string, name: string)
    requires Named(es) && Index(es, added) == |es|
    ensures Named(es + [Entry(added, [])])
    ensures HoldersOf(es + [Entry(added, [])], name) == HoldersOf(es, name)
  {
    var es' := es + [Entry(added, [])];
    assert forall i :: 0 <= i < |es| ==> es'[i] == es[i];
    var a, b := Index(es, name), Index(es', name);
    if a < |es| {
      assert b == a;
    }
  }

  // ---- ownership changes and their replay ----

  /** What must be announced when a name's holders change. */
  function Change(name: string, before: seq<Holder>, after: seq<Holder>): seq<Transition> {
    if Owner(before) == Owner(after) then [] else [Transition(name, Owner(before), Owner(after))]
  }

  /** The owner a listener believes in after hearing all announcements. */
  function Heard(log: seq<Transition>, name: string): int {
    if log == [] then NONE
    else if log[|log| - 1].name == name then log[|log| - 1].after
    else Heard(log[..|log| - 1], name)
  }

  /** Every announcement names the owner of the moment before it. */
  predicate Faithful(log: seq<Transition>) {
    log == [] ||
    var rest, t := log[..|log| - 1], log[|log| - 1];
    Faithful(rest) && t.before == Heard(rest, t.name)
  }

  ghost predicate Agrees(log: seq<Transition>, es: seq<Entry>) {
    forall name :: Heard(log, name) == Owner(HoldersOf(es, name))
  }

  lemma {:induction false} HeardSnoc(log: seq<Transition>, t: Transition, name: string)
    ensures Heard(log + [t], name) == if t.name == name then t.after else Heard(log, name)
    ensures Faithful(log) && t.before == Heard(log, t.name) ==> Faithful(log + [t])
  {
    assert (log + [t])[..|log|] == log;
  }

  /** Changing one name's holders and announcing it keeps listeners right. */
  lemma {:induction false} AnnounceOne(log: seq<Transition>, es: seq<Entry>, k: nat, hs: seq<Holder>)
    requires Named(es) && k < |es| && Faithful(log) && Agrees(log, es)
    ensures var log' := log + Change(es[k].name, es[k].holders, hs);
            Faithful(log') && Agrees(log', With(es, k, hs)) && Named(With(es, k, hs))
  {
    var name, was := es[k].name, es[k].holders;
    var out := Change(name, was, hs);
    IndexIs(es, k);
    assert Heard(log, name) == Owner(was);
    forall m
      ensures Heard(log + out, m) == Owner(HoldersOf(With(es, k, hs), m))
    {
      HoldersWith(es, k, hs, m);
      assert Heard(log, m) == Owner(HoldersOf(es, m));
      if out == [] {
        assert log + out == log;
      } else {
        HeardSnoc(log, out[0], m);
      }
    }
    if out == [] {
      assert log + out == log;
    } else {
      HeardSnoc(log, out[0], name);
    }
    HoldersWith(es, k, hs, name);
  }

  lemma {:induction false} AnnounceNone(log: seq<Transition>, es: seq<Entry>, added: string)
    requires Named(es) && Index(es, added) == |es| && Agrees(log, es)
    ensures Agrees(log, es + [Entry(added, [])]) && Named(es + [Entry(added, [])])
  {
    forall m
      ensures Heard(log, m) == Owner(HoldersOf(es + [Entry(added, [])], m))
    {
      HoldersAppend(es, added, m);
      assert Heard(log, m) == Owner(HoldersOf(es, m));
    }
    HoldersAppend(es, added, added);
  }

  // ---- nobody overtakes ----

  ghost predicate OrderKept(a: seq<Entry>, b: seq<Entry>) {
    forall name :: KeepsOrder(HoldersOf(a, name), HoldersOf(b, name))
  }

  ghost predicate StepKept(history: seq<seq<Entry>>, k: nat)
    requires k + 1 < |history|
  {
    OrderKept(history[k], history[k + 1])
  }

  ghost predicate Steady(history: seq<seq<Entry>>) {
    forall k {:trigger StepKept(history, k)} :: 0 <= k < |history| - 1 ==> StepKept(history, k)
  }

  /** Both connections hold the name in a state. */
  predicate BothHold(es: seq<Entry>, name: string, x: int, y: int) {
    Holds(HoldersOf(es, name), x) && Holds(HoldersOf(es, name), y)
  }

  predicate Ahead(es: seq<Entry>, name: string, x: int, y: int) {
    Find(HoldersOf(es, name), x) < Find(HoldersOf(es, name), y)
  }

  lemma AheadAcross(history: seq<seq<Entry>>, k: nat, name: string, x: int, y: int)
    requires k + 1 < |history| && StepKept(history, k) && x != y
    requires BothHold(history[k], name, x, y) && BothHold(history[k + 1], name, x, y)
    ensures Ahead(history[k], name, x, y) <==> Ahead(history[k + 1], name, x, y)
  {
    hide HoldersOf;
    hide Holds;
    hide KeepsOrder;
    assert KeepsOrder(HoldersOf(history[k], name), HoldersOf(history[k + 1], name));
    OrderAcross(HoldersOf(history[k], name), HoldersOf(history[k + 1], name), x, y);
  }

  /** Two connections that hold a name all through a stretch of a run keep
      their order over the whole stretch. */
  lemma {:induction false} NobodyOvertakes(history: seq<seq<Entry>>, i: nat, j: nat, name: string, x: int, y: int)
    requires Steady(history) && i <= j < |history| && x != y
    requires forall k :: i <= k <= j ==> BothHold(history[k], name, x, y)
    ensures Ahead(history[i], name, x, y) <==> Ahead(history[j], name, x, y)
    decreases j - i
  {
    hide *;
    if i < j {
      NobodyOvertakes(history, i, j - 1, name, x, y);
      assert StepKept(history, j - 1) by { SteadyAt(history, j - 1); }
      AheadAcross(history, j - 1, name, x, y);
    }
  }

  lemma SteadyAt(history: seq<seq<Entry>>, k: nat)
    requires Steady(history) && k + 1 < |history|
    ensures StepKept(history, k)
  {
  }

  lemma KeepsOwnOrder(hs: seq<Holder>)
    requires Distinct(hs)
    ensures KeepsOrder(hs, hs)
  {
  }

  lemma HoldersDistinct(es: seq<Entry>, name: string)
    requires Orderly(es)
    ensures Distinct(HoldersOf(es, name))
  {
  }

  lemma OrderWith(es: seq<Entry>, k: nat, hs: seq<Holder>)
    requires Named(es) && Orderly(es) && k < |es| && KeepsOrder(es[k].holders, hs)
    ensures OrderKept(es, With(es, k, hs))
  {
    forall name
      ensures KeepsOrder(HoldersOf(es, name), HoldersOf(With(es, k, hs), name))
    {
      HoldersWith(es, k, hs, name);
      IndexIs(es, k);
      HoldersDistinct(es, name);
      KeepsOwnOrder(HoldersOf(es, name));
    }
  }

  lemma {:induction false} OrderAppend(es: seq<Entry>, added: string)
    requires Named(es) && Orderly(es) && Index(es, added) == |es|
    ensures OrderKept(es, es + [Entry(added, [])])
  {
    forall name
      ensures KeepsOrder(HoldersOf(es, name), HoldersOf(es + [Entry(added, [])], name))
    {
      HoldersAppend(es, added, name);
      HoldersDistinct(es, name);
      KeepsOwnOrder(HoldersOf(es, name));
    }
  }

  lemma SteadySnoc(history: seq<seq<Entry>>, es: seq<Entry>)
    requires Steady(history) && |history| > 0 && OrderKept(history[|history| - 1], es)
    ensures Steady(history + [es])
  {
    hide OrderKept;
    forall k | 0 <= k < |history|
      ensures StepKept(history + [es], k)
    {
      if k + 1 < |history| {
        assert StepKept(history, k);
      }
    }
  }

  // ---- how many names a connection holds ----

  function CountHeld(es: seq<Entry>, conn: int): nat {
    if es == [] then 0 else
      CountHeld(es[..|es| - 1], conn) + (if Holds(es[|es| - 1].holders, conn) then 1 else 0)
  }

  lemma {:induction false} CountWith(es: seq<Entry>, k: nat, hs: seq<Holder>, conn: int)
    requires k < |es|
    ensures CountHeld(With(es, k, hs), conn) == CountHeld(es, conn)
              - (if Holds(es[k].holders, conn) then 1 else 0) + (if Holds(hs, conn) then 1 else 0)
    decreases |es|
  {
    var n := |es| - 1;
    if k == n {
      assert With(es, k, hs)[..n] == es[..n];
    } else {
      assert With(es, k, hs)[..n] == With(es[..n], k, hs);
      CountWith(es[..n], k, hs, conn);
    }
  }

  lemma {:induction false} CountAppend(es: seq<Entry>, added: string, conn: int)
    ensures CountHeld(es + [Entry(added, [])], conn) == CountHeld(es, conn)
  {
    assert (es + [Entry(added, [])])[..|es|] == es;
  }

  ghost predicate Capped(es: seq<Entry>) {
    forall conn :: CountHeld(es, conn) <= MAX_NAMES_PER_CONN
  }

  /** Under the guard, a request never takes anybody past the limit. */
  lemma {:induction false} AskCapped(es: seq<Entry>, k: nat, conn: int, flags: nat)
    requires k < |es| && Capped(es)
    requires Holds(es[k].holders, conn) || CountHeld(es, conn) < MAX_NAMES_PER_CONN
    ensures Capped(With(es, k, Ask(es[k].holders, conn, flags).0))
  {
    var hs := Ask(es[k].holders, conn, flags).0;
    forall c
      ensures CountHeld(With(es, k, hs), c) <= MAX_NAMES_PER_CONN
    {
      assert CountHeld(es, c) <= MAX_NAMES_PER_CONN;
      CountWith(es, k, hs, c);
      if Holds(hs, c) {
        AskHolds(es[k].holders, conn, flags, c);
      }
    }
  }

  lemma DropCapped(es: seq<Entry>, k: nat, conn: int)
    requires k < |es| && Capped(es) && Orderly(es)
    ensures Capped(With(es, k, Drop(es[k].holders, conn)))
  {
    forall c
      ensures CountHeld(With(es, k, Drop(es[k].holders, conn)), c) <= MAX_NAMES_PER_CONN
    {
      assert CountHeld(es, c) <= MAX_NAMES_PER_CONN;
      CountWith(es, k, Drop(es[k].holders, conn), c);
      DropHolds(es[k].holders, conn, c);
    }
  }

  // ---- who is held ----

  predicate HeldBy(es: seq<Entry>, live: set<int>) {
    forall i, h :: 0 <= i < |es| && h in es[i].holders ==> h.conn in live
  }

  /** The table after a connection is gone from every name. */
  function DropAll(es: seq<Entry>, conn: int): seq<Entry> {
    seq(|es|, i requires 0 <= i < |es| => Entry(es[i].name, Drop(es[i].holders, conn)))
  }

  /** The announcements of a disconnect, in table order. */
  function Changes(es: seq<Entry>, conn: int): seq<Transition> {
    if es == [] then [] else
      var e := es[|es| - 1];
      Changes(es[..|es| - 1], conn) + Change(e.name, e.holders, Drop(e.holders, conn))
  }

  method NameFind(es: seq<Entry>, name: string) returns (k: nat)
    ensures k == Index(es, name)
  {
    k := 0;
    while k < |es|
      invariant k <= |es| && Index(es, name) == k + Index(es[k..], name)
    {
      if es[k].name == name { return; }
      assert es[k..][1..] == es[k + 1..];
      k := k + 1;
    }
  }

  method HoldsLoop(hs: seq<Holder>, conn: int) returns (r: bool)
    ensures r <==> Holds(hs, conn)
  {
    for h := 0 to |hs|
      invariant forall i :: 0 <= i < h ==> hs[i].conn != conn
    {
      if hs[h].conn == conn { return true; }
    }
    return false;
  }

  method CountHeldLoop(es: seq<Entry>, conn: int) returns (n: nat)
    ensures n == CountHeld(es, conn)
  {
    n := 0;
    for i := 0 to |es|
      invariant n == CountHeld(es[..i], conn)
    {
      var held := HoldsLoop(es[i].holders, conn);
      if held { n := n + 1; }
      assert es[..i + 1][..i] == es[..i];
    }
    assert es[..|es|] == es;
  }
}

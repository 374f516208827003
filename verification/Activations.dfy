/**
 Pending service activations. A message for a name that is being started is
 held with its activation; an activation is taken out by swapping the last one
 into its place. Every held message is still pending, released or failed, and
 in only one of these.
 */
module Activations {
  import opened Common

  const SPAWN_TIMEOUT_MS := 25000

  datatype Held = Held(caller: int, serial: int, expectsReply: bool, isExplicit: bool, bytes: seq<int>)

  datatype Act = Act(name: string, pid: int, deadline: int, held: seq<Held>)

  /** A held message together with the name it waits for. */
  datatype Tagged = Tagged(name: string, msg: Held)

  /** What the broker does for one held message. */
  datatype Action = Started(caller: int, serial: int) | Routed(caller: int, bytes: seq<int>) | Error(caller: int, serial: int)

  // ---- the account ----

  function Tags(name: string, held: seq<Held>): multiset<Tagged> {
    if held == [] then multiset{} else
      Tags(name, held[..|held| - 1]) + multiset{Tagged(name, held[|held| - 1])}
  }

  function Pending(acts: seq<Act>): multiset<Tagged> {
    if acts == [] then multiset{} else
      Pending(acts[..|acts| - 1]) + Tags(acts[|acts| - 1].name, acts[|acts| - 1].held)
  }

  datatype Ledger = Ledger(taken: multiset<Tagged>, released: multiset<Tagged>, failed: multiset<Tagged>)

  predicate Balanced(acts: seq<Act>, g: Ledger) {
    g.taken == Pending(acts) + g.released + g.failed
  }

  /** At most one pending activation per name. */
  predicate OnePerName(acts: seq<Act>) {
    forall i, j :: 0 <= i < j < |acts| ==> acts[i].name != acts[j].name
  }

  predicate Starting(acts: seq<Act>, name: string) {
    exists i :: 0 <= i < |acts| && acts[i].name == name
  }

  lemma {:induction false} PendingWith(acts: seq<Act>, i: nat, a: Act)
    requires i < |acts|
    ensures Pending(acts[i := a]) + Tags(acts[i].name, acts[i].held) == Pending(acts) + Tags(a.name, a.held)
    decreases |acts|
  {
    hide Tags;
    var n := |acts| - 1;
    var o, t, l := Tags(acts[i].name, acts[i].held), Tags(a.name, a.held), Tags(acts[n].name, acts[n].held);
    if i == n {
      assert acts[i := a][..n] == acts[..n];
      Exchange(Pending(acts[..n]), o, t);
    } else {
      assert acts[i := a][..n] == acts[..n][i := a];
      PendingWith(acts[..n], i, a);
      Carry(Pending(acts[..n][i := a]), Pending(acts[..n]), o, t, l);
    }
  }

  lemma {:induction false} PendingPopped(acts: seq<Act>, i: nat)
    requires i < |acts|
    ensures Pending(acts) == Pending(Popped(acts, i)) + Tags(acts[i].name, acts[i].held)
  {
    hide Tags;
    var n := |acts| - 1;
    var all := acts[i := acts[n]];
    var o, l := Tags(acts[i].name, acts[i].held), Tags(acts[n].name, acts[n].held);
    PendingWith(acts, i, acts[n]);
    assert Pending(all) == Pending(all[..n]) + l;
    hide Pending;
    Exchange(Pending(all[..n]), o, l);
    Cancel(Pending(acts), Pending(all[..n]) + o, l);
  }

  /** Holding one more message puts it in the account and in the table. */
  lemma HoldBalanced(acts: seq<Act>, g: Ledger, i: nat, m: Held)
    requires i < |acts| && Balanced(acts, g)
    ensures Balanced(acts[i := acts[i].(held := acts[i].held + [m])],
                     g.(taken := g.taken + multiset{Tagged(acts[i].name, m)}))
  {
    hide Tags;
    hide Pending;
    var a := acts[i];
    var t, one := Tags(a.name, a.held), multiset{Tagged(a.name, m)};
    TagsSnoc(a.name, a.held, m);
    PendingWith(acts, i, a.(held := a.held + [m]));
    Exchange(Pending(acts), t, one);
    assert Pending(acts) + (t + one) == (Pending(acts) + one) + t;
    Cancel(Pending(acts[i := a.(held := a.held + [m])]), Pending(acts) + one, t);
  }

  lemma PoppedNames(acts: seq<Act>, i: nat)
    requires OnePerName(acts) && i < |acts|
    ensures OnePerName(Popped(acts, i)) && !Starting(Popped(acts, i), acts[i].name)
    ensures forall m :: m != acts[i].name ==> (Starting(Popped(acts, i), m) <==> Starting(acts, m))
  {
    var rest, n := Popped(acts, i), |acts| - 1;
    forall m | m != acts[i].name && Starting(acts, m)
      ensures Starting(rest, m)
    {
      var k :| 0 <= k < |acts| && acts[k].name == m;
      assert rest[if k == n then i else k].name == m;
    }
  }

  lemma {:induction false} TagsSnoc(name: string, held: seq<Held>, m: Held)
    ensures Tags(name, held + [m]) == Tags(name, held) + multiset{Tagged(name, m)}
  {
    assert (held + [m])[..|held|] == held;
  }

  // ---- what releasing and failing send ----

  /** A caller that asked for the start gets a success; any other message is
      sent on. A caller that is gone gets neither. */
  function Releases(held: seq<Held>, conns: set<int>): seq<Action> {
    if held == [] then [] else
      var m := held[|held| - 1];
      Releases(held[..|held| - 1], conns) +
      (if m.caller !in conns then []
       else if m.isExplicit then [Started(m.caller, m.serial)] else [Routed(m.caller, m.bytes)])
  }

  function Failures(held: seq<Held>, conns: set<int>): seq<Action> {
    if held == [] then [] else
      var m := held[|held| - 1];
      Failures(held[..|held| - 1], conns) +
      (if m.caller in conns && m.expectsReply then [Error(m.caller, m.serial)] else [])
  }

  /** Everything that failing all activations would send. */
  function AllFailures(acts: seq<Act>, conns: set<int>): multiset<Action> {
    if acts == [] then multiset{} else
      AllFailures(acts[..|acts| - 1], conns) + multiset(Failures(acts[|acts| - 1].held, conns))
  }

  lemma {:induction false} FailuresWith(acts: seq<Act>, conns: set<int>, i: nat, a: Act)
    requires i < |acts|
    ensures AllFailures(acts[i := a], conns) + multiset(Failures(acts[i].held, conns)) ==
            AllFailures(acts, conns) + multiset(Failures(a.held, conns))
    decreases |acts|
  {
    hide Failures;
    var n := |acts| - 1;
    var o, t, l := multiset(Failures(acts[i].held, conns)), multiset(Failures(a.held, conns)), multiset(Failures(acts[n].held, conns));
    if i == n {
      assert acts[i := a][..n] == acts[..n];
      Exchange(AllFailures(acts[..n], conns), o, t);
    } else {
      assert acts[i := a][..n] == acts[..n][i := a];
      FailuresWith(acts[..n], conns, i, a);
      Carry(AllFailures(acts[..n][i := a], conns), AllFailures(acts[..n], conns), o, t, l);
    }
  }

  lemma {:induction false} FailuresPopped(acts: seq<Act>, conns: set<int>, i: nat)
    requires i < |acts|
    ensures AllFailures(acts, conns) == AllFailures(Popped(acts, i), conns) + multiset(Failures(acts[i].held, conns))
  {
    hide Failures;
    var n := |acts| - 1;
    var all := acts[i := acts[n]];
    var o, l := multiset(Failures(acts[i].held, conns)), multiset(Failures(acts[n].held, conns));
    FailuresWith(acts, conns, i, acts[n]);
    assert AllFailures(all, conns) == AllFailures(all[..n], conns) + l;
    hide AllFailures;
    Exchange(AllFailures(all[..n], conns), o, l);
    Cancel(AllFailures(acts, conns), AllFailures(all[..n], conns) + o, l);
  }

  method ReleaseHeld(held: seq<Held>, conns: set<int>) returns (out: seq<Action>)
    ensures out == Releases(held, conns)
  {
    out := [];
    for i := 0 to |held|
      invariant out == Releases(held[..i], conns)
    {
      assert held[..i + 1][..i] == held[..i];
      var m := held[i];
      if m.isExplicit {
        if m.caller in conns { out := out + [Started(m.caller, m.serial)]; }
        continue;
      }
      if m.caller in conns { out := out + [Routed(m.caller, m.bytes)]; }
    }
    assert held[..|held|] == held;
  }

  method FailHeld(held: seq<Held>, conns: set<int>) returns (out: seq<Action>)
    ensures out == Failures(held, conns)
  {
    out := [];
    for i := 0 to |held|
      invariant out == Failures(held[..i], conns)
    {
      assert held[..i + 1][..i] == held[..i];
      if held[i].caller in conns && held[i].expectsReply {
        out := out + [Error(held[i].caller, held[i].serial)];
      }
    }
    assert held[..|held|] == held;
  }

  method FindAct(acts: seq<Act>, name: string) returns (i: nat)
    ensures i <= |acts| && (i < |acts| ==> acts[i].name == name)
    ensures i == |acts| ==> !Starting(acts, name)
  {
    i := 0;
    while i < |acts|
      invariant i <= |acts| && forall j :: 0 <= j < i ==> acts[j].name != name
    {
      if acts[i].name == name { return; }
      i := i + 1;
    }
  }

  /** Every message held for a name, in the order it came. */
  function HeldFor(acts: seq<Act>, name: string): seq<Held> {
    if acts == [] then [] else if acts[0].name == name then acts[0].held else HeldFor(acts[1..], name)
  }

  lemma {:induction false} HeldAt(acts: seq<Act>, i: nat)
    requires OnePerName(acts) && i < |acts|
    ensures HeldFor(acts, acts[i].name) == acts[i].held
  {
    if i > 0 {
      assert acts[0].name != acts[i].name;
      HeldAt(acts[1..], i - 1);
    }
  }

  lemma {:induction false} NotHeld(acts: seq<Act>, name: string)
    requires !Starting(acts, name)
    ensures HeldFor(acts, name) == []
  {
    if acts != [] {
      assert acts[0].name != name;
      assert forall k :: 0 <= k < |acts[1..]| ==> acts[1..][k] == acts[k + 1];
      NotHeld(acts[1..], name);
    }
  }

  /** One more message held for a name that is being started. */
  function AddHeld(acts: seq<Act>, name: string, m: Held): seq<Act> {
    seq(|acts|, i requires 0 <= i < |acts| =>
      if acts[i].name == name then acts[i].(held := acts[i].held + [m]) else acts[i])
  }

  class Table {
    var acts: seq<Act>
    ghost var g: Ledger

    ghost predicate Valid()
      reads this
    {
      OnePerName(acts) && Balanced(acts, g)
    }

    constructor ()
      ensures Valid() && acts == [] && g == Ledger(multiset{}, multiset{}, multiset{})
    {
      acts := [];
      g := Ledger(multiset{}, multiset{}, multiset{});
    }

    /** A message for a name nobody owns: held, after starting the service
        unless it is being started. False when the service cannot be started. */
    method Hold(name: string, m: Held, spawned: int, now: int) returns (held: bool)
      requires Valid()
      modifies this
      ensures Valid() && (held <==> old(Starting(acts, name)) || spawned >= 0)
      ensures !held ==> acts == old(acts) && g == old(g)
      ensures held ==> g == old(g).(taken := old(g).taken + multiset{Tagged(name, m)})
      ensures held && !old(Starting(acts, name)) ==>
                acts == old(acts) + [Act(name, spawned, now + SPAWN_TIMEOUT_MS, [m])]
      ensures old(Starting(acts, name)) ==> acts == AddHeld(old(acts), name, m)
    {
      hide Pending;
      hide Tags;
      var i := FindAct(acts, name);
      if i == |acts| {
        if spawned < 0 { return false; }
        BeginAct(acts, Act(name, spawned, now + SPAWN_TIMEOUT_MS, []));
        acts := acts + [Act(name, spawned, now + SPAWN_TIMEOUT_MS, [])];
      }
      var a := acts[i];
      HoldBalanced(acts, g, i, m);
      if i < |old(acts)| {
        assert acts[i := a.(held := a.held + [m])] == AddHeld(old(acts), name, m);
      } else {
        assert [] + [m] == [m];
        assert acts[i := a.(held := a.held + [m])] == old(acts) + [Act(name, spawned, now + SPAWN_TIMEOUT_MS, [m])];
      }
      acts := acts[i := a.(held := a.held + [m])];
      g := g.(taken := g.taken + multiset{Tagged(name, m)});
      return true;
    }

    /** Takes an activation out and hands over what it held. */
    method Pop(i: nat) returns (held: seq<Held>)
      requires OnePerName(acts) && i < |acts|
      modifies this`acts
      ensures acts == Popped(old(acts), i) && OnePerName(acts) && held == old(acts[i].held)
      ensures !Starting(acts, old(acts[i].name))
      ensures forall m :: m != old(acts[i].name) ==> (Starting(acts, m) <==> old(Starting(acts, m)))
      ensures Pending(old(acts)) == Pending(acts) + Tags(old(acts[i].name), held)
    {
      PendingPopped(acts, i);
      PoppedNames(acts, i);
      held := acts[i].held;
      acts := Popped(acts, i);
    }

    /** The name got an owner: everything held for it goes out. */
    method Release(name: string, conns: set<int>) returns (out: seq<Action>)
      requires Valid()
      modifies this
      ensures Valid() && !Starting(acts, name)
      ensures forall m :: m != name ==> (Starting(acts, m) <==> old(Starting(acts, m)))
      ensures out == Releases(HeldFor(old(acts), name), conns)
      ensures g == old(g).(released := old(g).released + Tags(name, HeldFor(old(acts), name)))
    {
      hide Pending;
      var i := FindAct(acts, name);
      if i == |acts| {
        NotHeld(acts, name);
        return [];
      }
      hide Tags;
      HeldAt(acts, i);
      var held := Pop(i);
      g := g.(released := g.released + Tags(name, held));
      out := ReleaseHeld(held, conns);
    }

    method FailAt(i: nat, conns: set<int>) returns (out: seq<Action>)
      requires Valid() && i < |acts|
      modifies this
      ensures Valid() && acts == Popped(old(acts), i) && !Starting(acts, old(acts[i].name))
      ensures out == Failures(old(acts[i].held), conns)
      ensures g == old(g).(failed := old(g).failed + Tags(old(acts[i].name), old(acts[i].held)))
      ensures AllFailures(old(acts), conns) == AllFailures(acts, conns) + multiset(out)
    {
      hide Pending;
      hide Tags;
      hide AllFailures;
      FailuresPopped(acts, conns, i);
      ghost var name := acts[i].name;
      var held := Pop(i);
      g := g.(failed := g.failed + Tags(name, held));
      out := FailHeld(held, conns);
    }

    /** The started child went away before its name was claimed. */
    method ChildExited(pid: int, conns: set<int>) returns (out: seq<Action>, ghost i: nat)
      requires Valid()
      modifies this
      ensures Valid() && g.taken == old(g.taken) && g.released == old(g.released)
      ensures i <= |old(acts)| && forall j :: 0 <= j < i ==> old(acts)[j].pid != pid
      ensures i < |old(acts)| ==> old(acts)[i].pid == pid
      ensures i == |old(acts)| ==> acts == old(acts) && out == []
      ensures i < |old(acts)| ==> acts == Popped(old(acts), i) && out == Failures(old(acts)[i].held, conns)
    {
      var k := 0;
      while k < |acts| && acts[k].pid != pid
        invariant k <= |acts| && forall j :: 0 <= j < k ==> acts[j].pid != pid
      {
        k := k + 1;
      }
      i := k;
      if k == |acts| { return [], k; }
      var at := FindAct(acts, acts[k].name);
      assert at == k by {
        assert Starting(acts, acts[k].name);
      }
      out := FailAt(at, conns);
    }

    /** Activations past their deadline fail, one after another, until none is left. */
    method ReapExpired(now: int, conns: set<int>) returns (out: seq<Action>)
      requires Valid()
      modifies this
      ensures Valid() && g.taken == old(g.taken) && g.released == old(g.released)
      ensures forall i :: 0 <= i < |acts| ==> acts[i].deadline > now && acts[i] in old(acts)
      ensures forall a :: a in old(acts) && a.deadline > now ==> a in acts
      ensures AllFailures(old(acts), conns) == AllFailures(acts, conns) + multiset(out)
    {
      hide AllFailures;
      hide Balanced;
      hide OnePerName;
      out := [];
      var i := 0;
      while i < |acts|
        invariant Valid() && g.taken == old(g.taken) && g.released == old(g.released)
        invariant i <= |acts| && forall j :: 0 <= j < i ==> acts[j].deadline > now
        invariant forall a :: a in acts ==> a in old(acts)
        invariant forall a :: a in old(acts) && a.deadline > now ==> a in acts
        invariant AllFailures(old(acts), conns) == AllFailures(acts, conns) + multiset(out)
        decreases |acts|, |acts| - i
      {
        if acts[i].deadline <= now {
          ghost var was := acts;
          var more := FailAt(i, conns);
          PoppedKeeps(was, i);
          Sent(AllFailures(acts, conns), out, more);
          out := out + more;
          i := 0;
        } else {
          i := i + 1;
        }
      }
    }

    /** The broker is going down: nothing is left pending. */
    method FailAll(conns: set<int>) returns (out: seq<Action>)
      requires Valid()
      modifies this
      ensures Valid() && acts == [] && g.taken == g.released + g.failed
      ensures g.taken == old(g.taken) && g.released == old(g.released)
      ensures multiset(out) == AllFailures(old(acts), conns)
    {
      out := [];
      while |acts| > 0
        invariant Valid() && g.taken == old(g.taken) && g.released == old(g.released)
        invariant AllFailures(old(acts), conns) == AllFailures(acts, conns) + multiset(out)
        decreases |acts|
      {
        var more := FailAt(0, conns);
        Sent(AllFailures(acts, conns), out, more);
        out := out + more;
      }
    }
  }

  lemma Sent(rest: multiset<Action>, out: seq<Action>, more: seq<Action>)
    ensures (rest + multiset(more)) + multiset(out) == rest + multiset(out + more)
  {
    assert multiset(out + more) == multiset(out) + multiset(more);
  }

  lemma {:induction false} BeginAct(acts: seq<Act>, a: Act)
    requires OnePerName(acts) && !Starting(acts, a.name) && a.held == []
    ensures OnePerName(acts + [a]) && Pending(acts + [a]) == Pending(acts)
  {
    assert (acts + [a])[..|acts|] == acts;
  }

  lemma PoppedKeeps(acts: seq<Act>, i: nat)
    requires i < |acts|
    ensures forall a :: a in Popped(acts, i) ==> a in acts
    ensures forall a :: a in acts && a != acts[i] ==> a in Popped(acts, i)
  {
    var rest, n := Popped(acts, i), |acts| - 1;
    forall a | a in acts && a != acts[i]
      ensures a in rest
    {
      var k :| 0 <= k < |acts| && acts[k] == a;
      assert rest[if k == n then i else k] == a;
    }
  }
}

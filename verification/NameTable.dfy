/**
 The registry object of the broker: requests, releases and disconnects on the
 name table, and the per-connection limit the driver puts in front of requests.
 */
module NameTable {
  import opened NameHolders
  import opened NameRegistry

  /** What happened so far: announcements, past tables, and connections that
      asked for a name since they last disconnected. */
  datatype Past = Past(log: seq<Transition>, history: seq<seq<Entry>>, live: set<int>)

  ghost predicate Sound(es: seq<Entry>, g: Past) {
    && Named(es) && Orderly(es) && HeldBy(es, g.live)
    && Faithful(g.log) && Agrees(g.log, es)
    && g.history != [] && g.history[|g.history| - 1] == es && Steady(g.history)
  }

  lemma {:induction false} InternSound(es: seq<Entry>, g: Past, name: string)
    requires Sound(es, g) && Index(es, name) == |es|
    ensures var es' := es + [Entry(name, [])];
            Sound(es', g.(history := g.history + [es']))
  {
    hide Steady;
    hide Agrees;
    hide OrderKept;
    hide Faithful;
    var es' := es + [Entry(name, [])];
    AnnounceNone(g.log, es, name);
    OrderAppend(es, name);
    SteadySnoc(g.history, es');
  }

  predicate AllLive(hs: seq<Holder>, live: set<int>) {
    forall h :: h in hs ==> h.conn in live
  }

  lemma UpdateSound(es: seq<Entry>, g: Past, k: nat, hs: seq<Holder>, live: set<int>)
    requires Sound(es, g) && k < |es| && Distinct(hs) && KeepsOrder(es[k].holders, hs)
    requires g.live <= live && AllLive(hs, live)
    ensures var es' := With(es, k, hs);
            Sound(es', Past(g.log + Change(es[k].name, es[k].holders, hs), g.history + [es'], live))
  {
    hide Steady;
    hide Agrees;
    hide OrderKept;
    hide Faithful;
    hide KeepsOrder;
    hide Distinct;
    hide Change;
    AnnounceOne(g.log, es, k, hs);
    OrderWith(es, k, hs);
    SteadySnoc(g.history, With(es, k, hs));
  }

  lemma AskLive(hs: seq<Holder>, conn: int, flags: nat, live: set<int>)
    requires Distinct(hs) && AllLive(hs, live)
    ensures AllLive(Ask(hs, conn, flags).0, live + {conn})
  {
    var after := Ask(hs, conn, flags).0;
    forall h | h in after
      ensures h.conn in live + {conn}
    {
      if h.conn != conn {
        AskKeepsOthers(hs, conn, flags, h);
      }
    }
  }

  lemma DropLive(hs: seq<Holder>, conn: int, live: set<int>)
    requires AllLive(hs, live)
    ensures AllLive(Drop(hs, conn), live)
  {
  }

  lemma AskSound(es: seq<Entry>, g: Past, k: nat, conn: int, flags: nat)
    requires Sound(es, g) && k < |es|
    ensures var hs := Ask(es[k].holders, conn, flags).0;
            Sound(With(es, k, hs), Past(g.log + Change(es[k].name, es[k].holders, hs),
                                        g.history + [With(es, k, hs)], g.live + {conn}))
  {
    hide Ask;
    hide Steady;
    hide Agrees;
    hide Faithful;
    var was := es[k].holders;
    assert AllLive(was, g.live);
    AskDistinct(was, conn, flags);
    AskKeepsOrder(was, conn, flags);
    AskLive(was, conn, flags, g.live);
    UpdateSound(es, g, k, Ask(was, conn, flags).0, g.live + {conn});
  }

  lemma DropSound(es: seq<Entry>, g: Past, k: nat, conn: int)
    requires Sound(es, g) && k < |es|
    ensures var hs := Drop(es[k].holders, conn);
            Sound(With(es, k, hs), Past(g.log + Change(es[k].name, es[k].holders, hs),
                                        g.history + [With(es, k, hs)], g.live))
  {
    hide Drop;
    hide Steady;
    hide Agrees;
    hide Faithful;
    var was := es[k].holders;
    assert AllLive(was, g.live);
    DropDistinct(was, conn);
    DropKeepsOrder(was, conn);
    DropLive(was, conn, g.live);
    UpdateSound(es, g, k, Drop(was, conn), g.live);
  }

  /** Once dropped from every name, a connection is held nowhere. */
  lemma GoneSound(es: seq<Entry>, es': seq<Entry>, g: Past, conn: int)
    requires Orderly(es) && es' == DropAll(es, conn) && Sound(es', g)
    ensures Sound(es', g.(live := g.live - {conn}))
  {
    hide Steady;
    hide Agrees;
    hide Faithful;
    forall i, h | 0 <= i < |es'| && h in es'[i].holders
      ensures h.conn in g.live - {conn}
    {
      DropDistinct(es[i].holders, conn);
    }
  }

  /** A name the connection does not own first makes no announcement. */
  lemma {:induction false} DropQuiet(name: string, hs: seq<Holder>, conn: int)
    requires Distinct(hs) && conn != NONE
    ensures Change(name, hs, Drop(hs, conn)) ==
            if Find(hs, conn) == 0 then [Transition(name, conn, Owner(Drop(hs, conn)))] else []
  {
    DropDistinct(hs, conn);
  }

  lemma {:induction false} DropAllStep(was: seq<Entry>, i: nat, conn: int)
    requires i < |was|
    ensures var now := DropAll(was[..i], conn) + was[i..];
            && now[i] == was[i]
            && With(now, i, Drop(was[i].holders, conn)) == DropAll(was[..i + 1], conn) + was[i + 1..]
    ensures Changes(was[..i + 1], conn) ==
            Changes(was[..i], conn) + Change(was[i].name, was[i].holders, Drop(was[i].holders, conn))
  {
    assert was[..i + 1][..i] == was[..i];
  }

  lemma {:induction false} DropAllEnds(was: seq<Entry>, conn: int)
    ensures DropAll(was[..0], conn) + was[0..] == was && Changes(was[..0], conn) == []
    ensures DropAll(was[..|was|], conn) + was[|was|..] == DropAll(was, conn)
    ensures Changes(was[..|was|], conn) == Changes(was, conn)
  {
    assert was[..|was|] == was;
  }

  lemma Joined(log: seq<Transition>, before: seq<Transition>, step: seq<Transition>, out: seq<Transition>)
    requires out == before + step
    ensures (log + before) + step == log + out
  {
  }

  function FirstOf(s: seq<Transition>, max: nat): seq<Transition> {
    if |s| <= max then s else s[..max]
  }

  lemma FirstOfMore(s: seq<Transition>, step: seq<Transition>, max: nat)
    requires |step| <= 1
    ensures FirstOf(s + step, max) ==
            if |step| > 0 && |FirstOf(s, max)| < max then FirstOf(s, max) + [step[0]] else FirstOf(s, max)
  {
    if step == [] {
      assert s + step == s;
    } else {
      assert step == [step[0]];
    }
  }

  lemma Grown(a: seq<seq<Entry>>, b: seq<seq<Entry>>, c: seq<seq<Entry>>)
    requires a <= b <= c
    ensures a <= c
  {
  }

  lemma UnchangedWith(es: seq<Entry>, k: nat)
    requires k < |es|
    ensures With(es, k, es[k].holders) == es
  {
  }

  /** The driver's guard: the request adds no holding, or there is room for one. */
  predicate Allowed(es: seq<Entry>, conn: int, name: string) {
    Holds(HoldersOf(es, name), conn) || CountHeld(es, conn) < MAX_NAMES_PER_CONN
  }

  class Registry {
    var names: seq<Entry>
    ghost var g: Past

    ghost predicate Valid()
      reads this
    {
      Sound(names, g)
    }

    constructor ()
      ensures Valid() && names == [] && g == Past([], [[]], {})
    {
      names := [];
      g := Past([], [[]], {});
    }

    /** Position of the name's entry, added at the end if it is new. */
    method Intern(name: string) returns (k: nat)
      requires Valid()
      modifies this
      ensures Valid() && k < |names| && names[k].name == name
      ensures names[k].holders == HoldersOf(old(names), name)
      ensures forall m :: HoldersOf(names, m) == HoldersOf(old(names), m)
      ensures forall c :: CountHeld(names, c) == CountHeld(old(names), c)
      ensures g.log == old(g.log) && g.live == old(g.live) && old(g.history) <= g.history
    {
      hide Sound;
      k := NameFind(names, name);
      if k < |names| { return; }
      ghost var was := names;
      assert Named(was) by { Parts(was, g); }
      InternSound(names, g, name);
      forall m
        ensures HoldersOf(was + [Entry(name, [])], m) == HoldersOf(was, m)
      {
        HoldersAppend(was, name, m);
      }
      forall c
        ensures CountHeld(was + [Entry(name, [])], c) == CountHeld(was, c)
      {
        CountAppend(was, name, c);
      }
      names := names + [Entry(name, [])];
      g := g.(history := g.history + [names]);
    }

    method Request(conn: int, name: string, flags: nat) returns (code: int, out: seq<Transition>)
      requires Valid() && conn != NONE
      modifies this
      ensures Valid() && code == Ask(HoldersOf(old(names), name), conn, flags).1
      ensures forall m :: HoldersOf(names, m) ==
                if m == name then Ask(HoldersOf(old(names), m), conn, flags).0 else HoldersOf(old(names), m)
      ensures out == Change(name, HoldersOf(old(names), name), HoldersOf(names, name))
      ensures g.log == old(g.log) + out && g.live == old(g.live) + {conn} && old(g.history) <= g.history
      ensures old(Capped(names) && Allowed(names, conn, name)) ==> Capped(names)
    {
      hide Sound;
      hide HoldersOf;
      hide CountHeld;
      hide Ask;
      hide Holds;
      hide Change;
      var k := Intern(name);
      ghost var mid := names;
      assert Named(mid) && Orderly(mid) by { Parts(mid, g); }
      var hs := names[k].holders;
      var after, rc, moved := AskLoop(hs, conn, flags);
      AskSound(mid, g, k, conn, flags);
      forall m
        ensures HoldersOf(With(mid, k, after), m) == if m == name then after else HoldersOf(mid, m)
      {
        HoldersWith(mid, k, after, m);
      }
      if old(Capped(names)) && (Holds(hs, conn) || CountHeld(mid, conn) < MAX_NAMES_PER_CONN) {
        AskCapped(mid, k, conn, flags);
      }
      out := if moved then [Transition(name, if |hs| == 0 then NONE else hs[0].conn, conn)] else [];
      assert out == Change(name, hs, after) by { AskChange(name, hs, conn, flags); }
      names := With(names, k, after);
      g := Past(g.log + out, g.history + [names], g.live + {conn});
      code := rc;
    }

    method Release(conn: int, name: string) returns (code: int, out: seq<Transition>)
      requires Valid() && conn != NONE
      modifies this
      ensures Valid()
      ensures code == var hs := HoldersOf(old(names), name);
                      if hs == [] then NON_EXISTENT else if !Holds(hs, conn) then NOT_OWNER else RELEASED
      ensures forall m :: HoldersOf(names, m) ==
                if m == name then Drop(HoldersOf(old(names), m), conn) else HoldersOf(old(names), m)
      ensures out == Change(name, HoldersOf(old(names), name), HoldersOf(names, name))
      ensures g.log == old(g.log) + out && g.live == old(g.live) && old(g.history) <= g.history
      ensures old(Capped(names)) ==> Capped(names)
    {
      hide Sound;
      hide Change;
      hide CountHeld;
      var k := NameFind(names, name);
      if k == |names| || |names[k].holders| == 0 {
        QuietDrop(names, name, conn);
        return NON_EXISTENT, [];
      }
      ghost var was := names;
      assert Named(was) && Orderly(was) by { Parts(was, g); }
      var hs := names[k].holders;
      var idx := HolderIndex(hs, conn);
      if idx < 0 {
        QuietDrop(names, name, conn);
        return NOT_OWNER, [];
      }
      var after := HolderRemove(hs, idx);
      out := if idx == 0 then [Transition(name, conn, if |after| > 0 then after[0].conn else NONE)] else [];
      DropQuiet(name, hs, conn);
      DropSound(was, g, k, conn);
      forall m
        ensures HoldersOf(With(was, k, after), m) == if m == name then after else HoldersOf(was, m)
      {
        HoldersWith(was, k, after, m);
      }
      if Capped(was) {
        DropCapped(was, k, conn);
      }
      names := With(names, k, after);
      g := Past(g.log + out, g.history + [names], g.live);
      code := RELEASED;
    }

    /** Drops a connection from one name; what to announce. */
    method DropAt(i: nat, conn: int) returns (step: seq<Transition>)
      requires Valid() && conn != NONE && i < |names|
      modifies this
      ensures Valid() && |names| == |old(names)| && names == With(old(names), i, Drop(old(names)[i].holders, conn))
      ensures |step| <= 1 && step == var e := old(names)[i]; Change(e.name, e.holders, Drop(e.holders, conn))
      ensures g.log == old(g.log) + step && g.live == old(g.live) && old(g.history) <= g.history
      ensures old(Capped(names)) ==> Capped(names)
    {
      hide Sound;
      hide Capped;
      ghost var was := names;
      var e := names[i];
      assert Named(was) && Orderly(was) by { Parts(was, g); }
      DropQuiet(e.name, e.holders, conn);
      hide Change;
      var idx := HolderIndex(e.holders, conn);
      if idx < 0 {
        UnchangedWith(names, i);
        return [];
      }
      DropSound(names, g, i, conn);
      if Capped(was) {
        DropCapped(was, i, conn);
      }
      var after := HolderRemove(e.holders, idx);
      step := if idx == 0 then [Transition(e.name, conn, if |after| > 0 then after[0].conn else NONE)] else [];
      names := With(names, i, after);
      g := Past(g.log + step, g.history + [names], g.live);
    }

    /** Drops a connection from every name. Announcements past the room of the
        caller's buffer are lost; one place per name is always enough. */
    method Disconnect(conn: int, max: nat) returns (out: seq<Transition>)
      requires Valid() && conn != NONE
      modifies this
      ensures Valid() && names == DropAll(old(names), conn)
      ensures g.log == old(g.log) + Changes(old(names), conn)
      ensures out == FirstOf(Changes(old(names), conn), max)
      ensures |old(names)| <= max ==> out == Changes(old(names), conn)
      ensures g.live == old(g.live) - {conn} && old(g.history) <= g.history
      ensures old(Capped(names)) ==> Capped(names)
    {
      hide Sound;
      hide Change;
      hide Capped;
      hide Drop;
      hide DropAll;
      hide Changes;
      hide With;
      ghost var was := names;
      assert Orderly(was) by { Parts(was, g); }
      out := [];
      DropAllEnds(was, conn);
      assert g.log + [] == g.log;
      ghost var all := [];
      for i := 0 to |names|
        invariant names == DropAll(was[..i], conn) + was[i..] && |names| == |was| && Sound(names, g)
        invariant all == Changes(was[..i], conn) && |all| <= i && out == FirstOf(all, max)
        invariant g.log == old(g.log) + all && g.live == old(g.live) && old(g.history) <= g.history
        invariant old(Capped(names)) ==> Capped(names)
      {
        DropAllStep(was, i, conn);
        ghost var before, past := all, g.history;
        var step := DropAt(i, conn);
        if |step| > 0 && |out| < max {
          out := out + [step[0]];
        }
        all := all + step;
        FirstOfMore(before, step, max);
        Joined(old(g.log), before, step, all);
        Grown(old(g.history), past, g.history);
      }
      GoneSound(was, names, g, conn);
      g := g.(live := g.live - {conn});
    }

    /** RequestName as the driver calls it: a request that would add a holding
        is refused at the limit. */
    method RequestName(conn: int, name: string, flags: nat) returns (refused: bool, code: int, out: seq<Transition>)
      requires Valid() && conn != NONE && Capped(names)
      modifies this
      ensures Valid() && Capped(names)
      ensures refused <==> !Allowed(old(names), conn, name)
      ensures refused ==> names == old(names) && out == [] && g == old(g)
      ensures !refused ==> code == Ask(HoldersOf(old(names), name), conn, flags).1 &&
                           out == Change(name, HoldersOf(old(names), name), HoldersOf(names, name))
      ensures g.log == old(g.log) + out
    {
      hide Sound;
      hide Capped;
      var k := NameFind(names, name);
      var holds := HoldsLoop(if k < |names| then names[k].holders else [], conn);
      var count := CountHeldLoop(names, conn);
      if !holds && count >= MAX_NAMES_PER_CONN {
        return true, 0, [];
      }
      refused := false;
      code, out := Request(conn, name, flags);
    }
  }

  lemma Parts(es: seq<Entry>, g: Past)
    requires Sound(es, g)
    ensures Named(es) && Orderly(es)
  {
  }

  lemma AskChange(name: string, hs: seq<Holder>, conn: int, flags: nat)
    requires Distinct(hs) && conn != NONE
    ensures var after := Ask(hs, conn, flags).0;
            Change(name, hs, after) ==
            if Owner(after) != Owner(hs) then [Transition(name, Owner(hs), conn)] else []
  {
    AskCode(hs, conn, flags);
  }

  lemma QuietDrop(es: seq<Entry>, name: string, conn: int)
    requires !Holds(HoldersOf(es, name), conn)
    ensures Drop(HoldersOf(es, name), conn) == HoldersOf(es, name)
    ensures Change(name, HoldersOf(es, name), HoldersOf(es, name)) == []
  {
  }
}

/**
 What a lookup keeps of the values it collects: per property name the one with
 the greatest (priority, line), the later of two equal ones, in a table of at
 most 64 names.
 */
module HwdbProps {
  import opened Common
  import opened HwdbTrie

  const MAX_PROPS := 64
  const UE_KEY_MAX := 64
  const UE_VAL_MAX := 512

  datatype Prop = Prop(key: string, val: string, prio: nat, line: nat)

  /** A stored key counts only with its leading blank, which is not part of the name. */
  predicate IsProperty(v: Value) {
    v.key != [] && v.key[0] == ' '
  }

  function Name(v: Value): string
    requires IsProperty(v)
  {
    v.key[1..]
  }

  function IndexOf(props: seq<Prop>, name: string): (i: nat)
    ensures i <= |props|
    ensures i < |props| ==> props[i].key == name
    ensures forall j :: 0 <= j < i ==> props[j].key != name
  {
    if props == [] || props[0].key == name then 0 else 1 + IndexOf(props[1..], name)
  }

  predicate NotBelow(v: Value, p: Prop) {
    v.prio > p.prio || (v.prio == p.prio && v.line >= p.line)
  }

  function Add(props: seq<Prop>, v: Value): (r: seq<Prop>)
    ensures |props| <= MAX_PROPS ==> |r| <= MAX_PROPS
  {
    if !IsProperty(v) then props else
      var i := IndexOf(props, Name(v));
      if i < |props| then
        if NotBelow(v, props[i])
        then props[i := props[i].(val := Fitted(v.val, UE_VAL_MAX), prio := v.prio, line := v.line)]
        else props
      else if |props| < MAX_PROPS then
        props + [Prop(Fitted(Name(v), UE_KEY_MAX), Fitted(v.val, UE_VAL_MAX), v.prio, v.line)]
      else props
  }

  function AddAll(props: seq<Prop>, vs: seq<Value>): seq<Prop>
    decreases |vs|
  {
    if vs == [] then props else AddAll(Add(props, vs[0]), vs[1..])
  }

  lemma {:induction false} AddAllAppend(props: seq<Prop>, a: seq<Value>, b: seq<Value>)
    ensures AddAll(props, a + b) == AddAll(AddAll(props, a), b)
    decreases |a|
  {
    if a == [] {
      assert a + b == b;
    } else {
      assert (a + b)[0] == a[0] && (a + b)[1..] == a[1..] + b;
      AddAllAppend(Add(props, a[0]), a[1..], b);
    }
  }

  // ---- what the table means ----

  function Names(vs: seq<Value>): set<string> {
    set v | v in vs && IsProperty(v) :: Name(v)
  }

  predicate Named(v: Value, name: string) {
    IsProperty(v) && Name(v) == name
  }

  predicate Outranks(v: Value, w: Value) {
    v.prio > w.prio || (v.prio == w.prio && v.line >= w.line)
  }

  datatype Choice = Nothing | Chosen(value: Value)

  /** The value a name ends up with: the last of its highest-ranked values. */
  function Best(vs: seq<Value>, name: string): Choice {
    if vs == [] then Nothing else
      var b := Best(vs[..|vs| - 1], name);
      var v := vs[|vs| - 1];
      if Named(v, name) && (b.Nothing? || Outranks(v, b.value)) then Chosen(v) else b
  }

  lemma {:induction false} BestIsHighest(vs: seq<Value>, name: string)
    ensures Best(vs, name).Chosen? ==> Best(vs, name).value in vs && Named(Best(vs, name).value, name)
    ensures forall w :: w in vs && Named(w, name) ==>
                        Best(vs, name).Chosen? && Outranks(Best(vs, name).value, w)
  {
    if vs != [] {
      BestIsHighest(vs[..|vs| - 1], name);
      assert vs == vs[..|vs| - 1] + [vs[|vs| - 1]];
    }
  }

  function Stored(v: Value): Prop
    requires IsProperty(v)
  {
    Prop(Name(v), Fitted(v.val, UE_VAL_MAX), v.prio, v.line)
  }

  predicate Holds(p: Prop, vs: seq<Value>) {
    Best(vs, p.key).Chosen? && Named(Best(vs, p.key).value, p.key) && p == Stored(Best(vs, p.key).value)
  }

  /** One entry per collected name, holding the best value of that name. */
  ghost predicate Table(props: seq<Prop>, vs: seq<Value>) {
    && (forall i, j :: 0 <= i < j < |props| ==> props[i].key != props[j].key)
    && (forall i :: 0 <= i < |props| ==> Holds(props[i], vs))
    && (forall name :: Best(vs, name).Chosen? ==> IndexOf(props, name) < |props|)
  }

  function Keys(props: seq<Prop>): set<string> {
    set i | 0 <= i < |props| :: props[i].key
  }

  lemma {:induction false} KeysCount(props: seq<Prop>)
    requires forall i, j :: 0 <= i < j < |props| ==> props[i].key != props[j].key
    ensures |Keys(props)| == |props|
  {
    if props != [] {
      var k := |props| - 1;
      var front := props[..k];
      KeysCount(front);
      forall x | x in Keys(props)
        ensures x in Keys(front) + {props[k].key}
      {
        var i :| 0 <= i < |props| && props[i].key == x;
        assert i < k ==> front[i].key == x;
      }
      assert Keys(props) == Keys(front) + {props[k].key};
    }
  }

  lemma KeysAreNames(props: seq<Prop>, vs: seq<Value>)
    requires forall i :: 0 <= i < |props| ==> Holds(props[i], vs)
    ensures Keys(props) <= Names(vs)
  {
    forall x | x in Keys(props)
      ensures x in Names(vs)
    {
      BestIsHighest(vs, x);
    }
  }

  lemma {:induction false} NewNameFits(props: seq<Prop>, vs: seq<Value>, v: Value)
    requires Table(props, vs)
    requires IsProperty(v) && IndexOf(props, Name(v)) == |props|
    requires |Names(vs + [v])| <= MAX_PROPS
    ensures |props| < MAX_PROPS
  {
    KeysCount(props);
    KeysAreNames(props, vs);
    assert v in vs + [v];
    assert forall w :: w in vs ==> w in vs + [v];
    assert Name(v) !in Keys(props);
    assert Keys(props) + {Name(v)} <= Names(vs + [v]);
    SubsetSize(Keys(props) + {Name(v)}, Names(vs + [v]));
  }

  lemma {:induction false} BestSnoc(vs: seq<Value>, v: Value, name: string)
    ensures Best(vs + [v], name) ==
            var b := Best(vs, name);
            if Named(v, name) && (b.Nothing? || Outranks(v, b.value)) then Chosen(v) else b
  {
    assert (vs + [v])[..|vs|] == vs;
  }

  lemma {:induction false} IndexOfAppend(props: seq<Prop>, p: Prop, name: string)
    ensures IndexOf(props + [p], name) ==
            if IndexOf(props, name) < |props| then IndexOf(props, name)
            else if p.key == name then |props| else |props| + 1
  {
    var i, j := IndexOf(props, name), IndexOf(props + [p], name);
    if j < |props| {
      assert (props + [p])[j] == props[j];
    }
    if i < |props| {
      assert (props + [p])[i] == props[i];
    } else if j <= |props| {
      assert (props + [p])[j].key == name;
    } else {
      assert (props + [p])[|props|].key != name;
    }
  }

  lemma {:induction false} AddNew(props: seq<Prop>, vs: seq<Value>, v: Value)
    requires Table(props, vs)
    requires IsProperty(v) && IndexOf(props, Name(v)) == |props|
    ensures Table(props + [Stored(v)], vs + [v])
  {
    var props' := props + [Stored(v)];
    BestSnoc(vs, v, Name(v));
    assert Best(vs, Name(v)).Nothing?;
    forall i | 0 <= i < |props'|
      ensures Holds(props'[i], vs + [v])
    {
      BestSnoc(vs, v, props'[i].key);
    }
    forall name | Best(vs + [v], name).Chosen?
      ensures IndexOf(props', name) < |props'|
    {
      BestSnoc(vs, v, name);
      IndexOfAppend(props, Stored(v), name);
    }
  }

  /** An entry after one more value of any name. */
  lemma HoldsMore(p: Prop, vs: seq<Value>, v: Value)
    requires Holds(p, vs) && IsProperty(v)
    ensures Holds(if p.key == Name(v) && NotBelow(v, p)
                  then p.(val := Fitted(v.val, UE_VAL_MAX), prio := v.prio, line := v.line) else p, vs + [v])
  {
    BestSnoc(vs, v, p.key);
    hide Best;
  }

  lemma {:induction false} Updated(props: seq<Prop>, v: Value, i: nat)
    requires IsProperty(v) && IndexOf(props, Name(v)) < |props| && i < |props|
    requires forall i, j :: 0 <= i < j < |props| ==> props[i].key != props[j].key
    ensures var p, props' := props[i], Add(props, v);
            |props'| == |props| && props'[i].key == p.key &&
            props'[i] == if p.key == Name(v) && NotBelow(v, p)
                         then p.(val := Fitted(v.val, UE_VAL_MAX), prio := v.prio, line := v.line) else p
  {
  }

  lemma {:induction false} Indexed(props: seq<Prop>, i: nat, name: string)
    requires i < |props| && props[i].key == name
    ensures IndexOf(props, name) < |props|
  {
  }

  lemma {:induction false} AddExisting(props: seq<Prop>, vs: seq<Value>, v: Value)
    requires Table(props, vs)
    requires IsProperty(v) && IndexOf(props, Name(v)) < |props|
    ensures Table(Add(props, v), vs + [v])
  {
    hide Best;
    hide Add;
    hide Holds;
    var props' := Add(props, v);
    Updated(props, v, 0);
    forall i | 0 <= i < |props'|
      ensures props'[i].key == props[i].key && Holds(props'[i], vs + [v])
    {
      Updated(props, v, i);
      HoldsMore(props[i], vs, v);
    }
    forall name | Best(vs + [v], name).Chosen?
      ensures IndexOf(props', name) < |props'|
    {
      BestSnoc(vs, v, name);
      var i := IndexOf(props, name);
      assert i < |props|;
      Indexed(props', i, name);
    }
  }

  lemma AddKeepsTable(props: seq<Prop>, vs: seq<Value>, v: Value)
    requires Table(props, vs)
    requires IsProperty(v) ==> |Name(v)| < UE_KEY_MAX
    requires |Names(vs + [v])| <= MAX_PROPS
    ensures Table(Add(props, v), vs + [v])
  {
    if !IsProperty(v) {
      forall name
        ensures Best(vs + [v], name) == Best(vs, name)
      {
        BestSnoc(vs, v, name);
      }
      assert forall p :: Holds(p, vs) ==> Holds(p, vs + [v]);
    } else if IndexOf(props, Name(v)) < |props| {
      AddExisting(props, vs, v);
    } else {
      NewNameFits(props, vs, v);
      AddNew(props, vs, v);
    }
  }

  predicate ShortNames(vs: seq<Value>) {
    forall v :: v in vs && IsProperty(v) ==> |Name(v)| < UE_KEY_MAX
  }

  lemma {:induction false} AddAllKeepsTable(props: seq<Prop>, done: seq<Value>, vs: seq<Value>)
    requires Table(props, done)
    requires ShortNames(vs)
    requires |Names(done + vs)| <= MAX_PROPS
    ensures Table(AddAll(props, vs), done + vs)
    decreases |vs|
  {
    if vs == [] {
      assert done + vs == done;
    } else {
      var v := vs[0];
      assert done + vs == (done + [v]) + vs[1..];
      assert forall w :: w in done + [v] ==> w in done + vs;
      SubsetSize(Names(done + [v]), Names(done + vs));
      AddKeepsTable(props, done, v);
      AddAllKeepsTable(Add(props, v), done + [v], vs[1..]);
    }
  }

  /** The table kept for a name: there is an entry exactly when some value has
      that name, it stores one of them, and no other ranks higher. */
  predicate KeptFor(props: seq<Prop>, vs: seq<Value>, name: string) {
    var i := IndexOf(props, name);
    && (i < |props| <==> exists v :: v in vs && Named(v, name))
    && (i < |props| ==> exists v :: v in vs && Named(v, name) && props[i] == Stored(v))
    && (i < |props| ==> forall v :: v in vs && Named(v, name) ==>
          props[i].prio > v.prio || (props[i].prio == v.prio && props[i].line >= v.line))
  }

  /** Collecting `vs` in any order keeps, per name of `all`, a highest-ranked value. */
  lemma {:induction false} KeptIsHighest(vs: seq<Value>, all: seq<Value>, name: string)
    requires forall v :: v in vs <==> v in all
    requires ShortNames(all)
    requires |Names(all)| <= MAX_PROPS
    ensures KeptFor(AddAll([], vs), all, name)
  {
    assert Table([], []) by { assert forall n :: Best([], n).Nothing?; }
    assert [] + vs == vs;
    assert Names(vs) == Names(all);
    AddAllKeepsTable([], [], vs);
    var props := AddAll([], vs);
    BestIsHighest(vs, name);
    var i := IndexOf(props, name);
    if i < |props| {
      assert Holds(props[i], vs);
      var v := Best(vs, name).value;
      assert v in all && Named(v, name) && props[i] == Stored(v);
    }
  }
}

/**
 The lookup as the code runs it: a loop down the literal part of the key, a
 recursive descent below the first glob that spells each pattern in one shared
 line buffer, and a table of properties filled in place.
 */
module HwdbSearch {
  import opened Common
  import opened Fnmatch
  import opened HwdbTrie
  import opened HwdbAgreement
  import opened HwdbProps

  const LINE_MAX := 2048

  // ---- the line buffer as a value ----

  /** Text that would not leave room for the terminator is not added at all. */
  function Push(line: string, s: string): string {
    if |line| + |s| >= LINE_MAX then line else line + s
  }

  function Pop(line: string, n: nat): string {
    if n <= |line| then line[..|line| - n] else line
  }

  datatype Tested = Tested(line: string, hits: seq<Value>)

  /** Descends below `n`, whose prefix is spelled from `p` on. */
  function TestBelow(header: string, n: Node, p: nat, line: string, search: string): Tested
    requires n.Node? ==> p <= |Text(header, n.prefix)|
    decreases n, 1
  {
    if n.Missing? then Tested(line, []) else
      var pre := Text(header, n.prefix)[p..];
      var t := TestForest(header, n.children, Push(line, pre), search);
      Tested(Pop(t.line, |pre|), t.hits + (if Matches(t.line, search) then n.values else []))
  }

  function TestForest(header: string, es: seq<Node>, line: string, search: string): Tested
    decreases es, 0
  {
    if es == [] then Tested(line, []) else
      var t := TestBelow(header, es[0], 0, Push(line, [es[0].c]), search);
      var rest := TestForest(header, es[1..], Pop(t.line, 1), search);
      Tested(rest.line, t.hits + rest.hits)
  }

  predicate HasEdge(es: seq<Node>, c: char) {
    exists i :: 0 <= i < |es| && es[i].c == c
  }

  function TestGlob(header: string, es: seq<Node>, g: char, line: string, search: string): Tested {
    if !HasEdge(es, g) then Tested(line, []) else
      var t := TestBelow(header, Lookup(es, g), 0, Push(line, [g]), search);
      Tested(Pop(t.line, 1), t.hits)
  }

  function TestGlobs(header: string, es: seq<Node>, line: string, search: string): Tested {
    var a := TestGlob(header, es, '*', line, search);
    var b := TestGlob(header, es, '?', a.line, search);
    var c := TestGlob(header, es, '[', b.line, search);
    Tested(c.line, a.hits + b.hits + c.hits)
  }

  /** One turn of the search loop: what it collects, the buffer it leaves, the
      node to go on with (`Missing` to stop) and how much of the key it used. */
  datatype Turn = Turn(hits: seq<Value>, line: string, next: Node, used: nat)

  function OneTurn(header: string, n: Node, line: string, key: string): (t: Turn)
    requires n.Node?
    ensures t.used <= |key|
    ensures t.next.Node? ==> t.next in n.children
  {
    var pre := Text("", n.prefix);
    var k := LiteralLen(pre);
    if !(pre[..k] <= key) then Turn([], line, Missing('\0'), 0)
    else if k < |pre| then
      var t := TestBelow(header, n, k, line, key[k..]);
      Turn(t.hits, t.line, Missing('\0'), 0)
    else
      var rest := key[k..];
      var t := TestGlobs(header, n.children, line, rest);
      if rest == [] then Turn(t.hits + n.values, t.line, Missing('\0'), |key|)
      else Turn(t.hits, t.line, Lookup(n.children, rest[0]), k + 1)
  }

  function Searched(header: string, n: Node, line: string, key: string): seq<Value>
    decreases n
  {
    if n.Missing? then [] else
      var t := OneTurn(header, n, line, key);
      t.hits + (if t.next.Missing? then [] else Searched(header, t.next, t.line, key[t.used..]))
  }

  // ---- while the patterns fit, the buffer is a stack ----

  function Longest(header: string, n: Node): nat
    decreases n, 1
  {
    if n.Missing? then 0 else |Text(header, n.prefix)| + LongestForest(header, n.children)
  }

  function LongestForest(header: string, es: seq<Node>): nat
    decreases es, 0
  {
    if es == [] then 0 else
      var a, b := 1 + Longest(header, es[0]), LongestForest(header, es[1..]);
      if a > b then a else b
  }

  lemma {:induction false} TestBelowFits(header: string, n: Node, p: nat, line: string, search: string)
    requires n.Node? ==> p <= |Text(header, n.prefix)|
    requires n.Node? ==> |line| + Longest(header, n) - p < LINE_MAX
    ensures n.Missing? ==> TestBelow(header, n, p, line, search) == Tested(line, [])
    ensures n.Node? ==>
              var q := line + Text(header, n.prefix)[p..];
              TestBelow(header, n, p, line, search) ==
              Tested(line, ForestHits(header, n.children, q, search) + (if Matches(q, search) then n.values else []))
    decreases n, 1
  {
    if n.Node? {
      var pre := Text(header, n.prefix)[p..];
      var q := line + pre;
      TestForestFits(header, n.children, q, search);
      assert q[..|q| - |pre|] == line;
    }
  }

  lemma {:induction false} TestForestFits(header: string, es: seq<Node>, line: string, search: string)
    requires |line| + LongestForest(header, es) < LINE_MAX
    ensures TestForest(header, es, line, search) == Tested(line, ForestHits(header, es, line, search))
    decreases es, 0
  {
    hide Matches;
    if es != [] {
      var line' := line + [es[0].c];
      TestBelowFits(header, es[0], 0, line', search);
      if es[0].Node? {
        assert Text(header, es[0].prefix)[0..] == Text(header, es[0].prefix);
      }
      assert line'[..|line'| - 1] == line;
      TestForestFits(header, es[1..], line, search);
    }
  }

  lemma {:induction false} LookupLongest(header: string, es: seq<Node>, c: char)
    ensures Lookup(es, c).Node? ==> 1 + Longest(header, Lookup(es, c)) <= LongestForest(header, es)
    ensures HasEdge(es, c) || Lookup(es, c).Missing?
  {
    if es != [] {
      LookupLongest(header, es[1..], c);
      if HasEdge(es[1..], c) {
        var i :| 0 <= i < |es[1..]| && es[1..][i].c == c;
        assert es[i + 1].c == c;
      }
      if es[0].c == c {
        assert HasEdge(es, c);
      }
    }
  }

  lemma {:induction false} TestGlobFits(header: string, es: seq<Node>, g: char, search: string)
    requires LongestForest(header, es) < LINE_MAX
    ensures TestGlob(header, es, g, [], search) == Tested([], GlobChild(header, es, g, search))
  {
    LookupLongest(header, es, g);
    var n := Lookup(es, g);
    assert [] + [g] == [g] && [g][..0] == [];
    if n.Node? {
      TestBelowFits(header, n, 0, [g], search);
      assert Text(header, n.prefix)[0..] == Text(header, n.prefix);
    }
  }

  /** With every root-to-node pattern under 2048 bytes, the buffered descent
      reports what the unbounded one does. */
  lemma {:induction false} SearchedIsWalk(header: string, n: Node, key: string)
    requires Longest(header, n) < LINE_MAX
    ensures Searched(header, n, [], key) == Walk(header, n, key)
    decreases n
  {
    hide Matches;
    hide Hits;
    if n.Node? {
      var pre := Text("", n.prefix);
      var k := LiteralLen(pre);
      if pre[..k] <= key {
        if k < |pre| {
          TestBelowFits(header, n, k, [], key[k..]);
          assert [] + pre[k..] == pre[k..];
        } else {
          var rest := key[k..];
          TestGlobFits(header, n.children, '*', rest);
          TestGlobFits(header, n.children, '?', rest);
          TestGlobFits(header, n.children, '[', rest);
          if rest != [] && Lookup(n.children, rest[0]).Node? {
            LookupLongest(header, n.children, rest[0]);
            assert rest[1..] == key[k + 1..];
            SearchedIsWalk(header, Lookup(n.children, rest[0]), rest[1..]);
          }
        }
      }
    }
  }

  // ---- the code ----

  class LineBuffer {
    const b: array<char>
    var len: nat

    ghost predicate Valid()
      reads this
    {
      b.Length == LINE_MAX && len < LINE_MAX
    }

    function Contents(): string
      reads this, b
      requires Valid()
    {
      b[..len]
    }

    constructor ()
      ensures Valid() && fresh(b)
      ensures Contents() == []
    {
      b := new char[LINE_MAX];
      len := 0;
    }

    method Add(s: string)
      requires Valid()
      modifies this, b
      ensures Valid()
      ensures Contents() == Push(old(Contents()), s)
    {
      if len + |s| >= LINE_MAX { return; }
      var i := 0;
      while i < |s|
        invariant 0 <= i <= |s|
        invariant len == old(len)
        invariant b[..len] == old(b[..len])
        invariant b[len..len + i] == s[..i]
      {
        b[len + i] := s[i];
        i := i + 1;
      }
      assert b[..len + |s|] == b[..len] + b[len..len + |s|];
      len := len + |s|;
    }

    method Remove(n: nat)
      requires Valid()
      modifies `len
      ensures Valid()
      ensures Contents() == Pop(old(Contents()), n)
    {
      if n <= len {
        len := len - n;
      }
    }
  }

  class Collector {
    const props: array<Prop>
    var n: nat

    ghost predicate Valid()
      reads this
    {
      props.Length == MAX_PROPS && n <= MAX_PROPS
    }

    function Contents(): seq<Prop>
      reads this, props
      requires Valid()
    {
      props[..n]
    }

    constructor ()
      ensures Valid() && fresh(props)
      ensures Contents() == []
    {
      props := new Prop[MAX_PROPS](_ => Prop("", "", 0, 0));
      n := 0;
    }

    method AddValue(v: Value)
      requires Valid()
      modifies this, props
      ensures Valid()
      ensures Contents() == HwdbProps.Add(old(Contents()), v)
    {
      if !IsProperty(v) { return; }
      var name := Name(v);
      var i := 0;
      while i < n && props[i].key != name
        invariant 0 <= i <= n
        invariant forall j :: 0 <= j < i ==> props[j].key != name
      {
        i := i + 1;
      }
      assert i == IndexOf(Contents(), name);
      if i < n {
        if NotBelow(v, props[i]) {
          props[i] := props[i].(val := Fitted(v.val, UE_VAL_MAX), prio := v.prio, line := v.line);
        }
      } else if n < MAX_PROPS {
        props[n] := Prop(Fitted(name, UE_KEY_MAX), Fitted(v.val, UE_VAL_MAX), v.prio, v.line);
        n := n + 1;
      }
    }

    method AddValues(vs: seq<Value>)
      requires Valid()
      modifies this, props
      ensures Valid()
      ensures Contents() == AddAll(old(Contents()), vs)
    {
      var i := 0;
      while i < |vs|
        invariant Valid() && 0 <= i <= |vs|
        invariant AddAll(Contents(), vs[i..]) == AddAll(old(Contents()), vs)
      {
        AddValue(vs[i]);
        assert vs[i..][1..] == vs[i + 1..];
        i := i + 1;
      }
    }
  }

  method ChildLookup(es: seq<Node>, want: char) returns (found: bool, child: Node)
    ensures found == HasEdge(es, want)
    ensures child == Lookup(es, want)
  {
    var i := 0;
    while i < |es|
      invariant 0 <= i <= |es|
      invariant forall j :: 0 <= j < i ==> es[j].c != want
      invariant Lookup(es[i..], want) == Lookup(es, want)
    {
      assert es[i..][0] == es[i] && es[i..][1..] == es[i + 1..];
      if es[i].c == want { return true, es[i]; }
      i := i + 1;
    }
    return false, Missing(want);
  }

  method FnmatchBelow(header: string, n: Node, p: nat, lb: LineBuffer, search: string, col: Collector)
    requires n.Node? ==> p <= |Text(header, n.prefix)|
    requires lb.Valid() && col.Valid()
    modifies lb, lb.b, col, col.props
    ensures lb.Valid() && col.Valid()
    ensures var t := TestBelow(header, n, p, old(lb.Contents()), search);
            lb.Contents() == t.line && col.Contents() == AddAll(old(col.Contents()), t.hits)
    decreases n, 1
  {
    if n.Missing? { return; }
    var pre := Text(header, n.prefix)[p..];
    lb.Add(pre);
    ghost var t := TestForest(header, n.children, lb.Contents(), search);
    FnmatchChildren(header, n.children, lb, search, col);
    AddAllAppend(old(col.Contents()), t.hits, n.values);
    assert t.hits + [] == t.hits;
    if |n.values| > 0 {
      if Matches(lb.Contents(), search) {
        col.AddValues(n.values);
      }
    }
    lb.Remove(|pre|);
  }

  method FnmatchChildren(header: string, es: seq<Node>, lb: LineBuffer, search: string, col: Collector)
    requires lb.Valid() && col.Valid()
    modifies lb, lb.b, col, col.props
    ensures lb.Valid() && col.Valid()
    ensures var t := TestForest(header, es, old(lb.Contents()), search);
            lb.Contents() == t.line && col.Contents() == AddAll(old(col.Contents()), t.hits)
    decreases es, 0
  {
    ghost var line, props := lb.Contents(), col.Contents();
    assert es[0..] == es;
    var i := 0;
    while i < |es|
      invariant 0 <= i <= |es|
      invariant lb.Valid() && col.Valid()
      invariant Pending(header, es[i..], lb.Contents(), search, col.Contents()) ==
                Pending(header, es, line, search, props)
    {
      ghost var before := (lb.Contents(), col.Contents());
      lb.Add([es[i].c]);
      ghost var t := TestBelow(header, es[i], 0, lb.Contents(), search);
      FnmatchBelow(header, es[i], 0, lb, search, col);
      lb.Remove(1);
      PendingStep(header, es, i, before.0, search, before.1, t);
      i := i + 1;
    }
  }

  /** The outcome of descending into `es` from the given buffer and table. */
  ghost function Pending(header: string, es: seq<Node>, line: string, search: string, props: seq<Prop>)
    : (string, seq<Prop>)
  {
    var t := TestForest(header, es, line, search);
    (t.line, AddAll(props, t.hits))
  }

  lemma {:induction false} PendingStep(header: string, es: seq<Node>, i: nat, line: string, search: string,
                      props: seq<Prop>, t: Tested)
    requires i < |es| && t == TestBelow(header, es[i], 0, Push(line, [es[i].c]), search)
    ensures Pending(header, es[i..], line, search, props) ==
            Pending(header, es[i + 1..], Pop(t.line, 1), search, AddAll(props, t.hits))
  {
    assert es[i..][0] == es[i] && es[i..][1..] == es[i + 1..];
    AddAllAppend(props, t.hits, TestForest(header, es[i + 1..], Pop(t.line, 1), search).hits);
  }

  method GlobEdge(header: string, es: seq<Node>, g: char, lb: LineBuffer, search: string, col: Collector)
    requires lb.Valid() && col.Valid()
    modifies lb, lb.b, col, col.props
    ensures lb.Valid() && col.Valid()
    ensures var t := TestGlob(header, es, g, old(lb.Contents()), search);
            lb.Contents() == t.line && col.Contents() == AddAll(old(col.Contents()), t.hits)
  {
    var found, child := ChildLookup(es, g);
    if found {
      lb.Add([g]);
      FnmatchBelow(header, child, 0, lb, search, col);
      lb.Remove(1);
    }
  }

  method GlobEdges(header: string, es: seq<Node>, lb: LineBuffer, search: string, col: Collector)
    requires lb.Valid() && col.Valid()
    modifies lb, lb.b, col, col.props
    ensures lb.Valid() && col.Valid()
    ensures var t := TestGlobs(header, es, old(lb.Contents()), search);
            lb.Contents() == t.line && col.Contents() == AddAll(old(col.Contents()), t.hits)
  {
    ghost var a := TestGlob(header, es, '*', lb.Contents(), search);
    GlobEdge(header, es, '*', lb, search, col);
    ghost var b := TestGlob(header, es, '?', lb.Contents(), search);
    GlobEdge(header, es, '?', lb, search, col);
    ghost var c := TestGlob(header, es, '[', lb.Contents(), search);
    GlobEdge(header, es, '[', lb, search, col);
    AddAllAppend(old(col.Contents()), a.hits, b.hits);
    AddAllAppend(old(col.Contents()), a.hits + b.hits, c.hits);
  }

  /** Compares a prefix with the key up to the prefix's first glob character. */
  method PrefixCompare(pre: string, key: string) returns (p: nat, ok: bool)
    ensures ok <==> pre[..LiteralLen(pre)] <= key
    ensures ok ==> p == LiteralLen(pre)
  {
    p := 0;
    var k := LiteralLen(pre);
    while p < |pre|
      invariant p <= k && p <= |key|
      invariant pre[..p] == key[..p]
    {
      if IsGlob(pre[p]) { break; }
      if p >= |key| || pre[p] != key[p] {
        assert pre[..k][p] == pre[p];
        return p, false;
      }
      p := p + 1;
    }
    return p, true;
  }

  method VisitNode(header: string, n: Node, lb: LineBuffer, key: string, col: Collector)
    returns (next: Node, used: nat)
    requires n.Node? && lb.Valid() && col.Valid()
    modifies lb, lb.b, col, col.props
    ensures lb.Valid() && col.Valid()
    ensures var t := OneTurn(header, n, old(lb.Contents()), key);
            && next == t.next && used == t.used
            && lb.Contents() == t.line && col.Contents() == AddAll(old(col.Contents()), t.hits)
  {
    var pre := Text("", n.prefix);
    var p, ok := PrefixCompare(pre, key);
    if !ok { return Missing('\0'), 0; }
    if p < |pre| {
      FnmatchBelow(header, n, p, lb, key[p..], col);
      return Missing('\0'), 0;
    }
    var rest := key[p..];
    ghost var t := TestGlobs(header, n.children, lb.Contents(), rest);
    GlobEdges(header, n.children, lb, rest, col);
    if rest == [] {
      col.AddValues(n.values);
      AddAllAppend(old(col.Contents()), t.hits, n.values);
      return Missing('\0'), |key|;
    }
    var found, child := ChildLookup(n.children, rest[0]);
    return child, p + 1;
  }

  /** The table once the search has run on from this point. */
  ghost function Outcome(header: string, n: Node, line: string, key: string, props: seq<Prop>): seq<Prop> {
    AddAll(props, Searched(header, n, line, key))
  }

  lemma {:induction false} OutcomeTurn(header: string, n: Node, line: string, key: string, props: seq<Prop>)
    requires n.Node?
    ensures var t := OneTurn(header, n, line, key);
            Outcome(header, n, line, key, props) ==
            Outcome(header, t.next, t.line, key[t.used..], AddAll(props, t.hits))
  {
    var t := OneTurn(header, n, line, key);
    AddAllAppend(props, t.hits, Searched(header, t.next, t.line, key[t.used..]));
  }

  lemma OutcomeDone(header: string, n: Node, line: string, key: string, props: seq<Prop>)
    requires n.Missing?
    ensures Outcome(header, n, line, key, props) == props
  {
  }

  method Search(header: string, root: Node, key: string, col: Collector)
    requires col.Valid()
    modifies col, col.props
    ensures col.Valid()
    ensures col.Contents() == AddAll(old(col.Contents()), Searched(header, root, [], key))
  {
    hide Searched;
    hide OneTurn;
    hide AddAll;
    var lb := new LineBuffer();
    var n, i := root, 0;
    ghost var goal := Outcome(header, root, [], key, col.Contents());
    assert key[0..] == key;
    while n.Node?
      invariant 0 <= i <= |key|
      invariant lb.Valid() && col.Valid() && fresh(lb) && fresh(lb.b)
      invariant goal == Outcome(header, n, lb.Contents(), key[i..], col.Contents())
      decreases n.Node?, n
    {
      OutcomeTurn(header, n, lb.Contents(), key[i..], col.Contents());
      var next, used := VisitNode(header, n, lb, key[i..], col);
      assert key[i..][used..] == key[i + used..];
      n, i := next, i + used;
    }
    OutcomeDone(header, n, lb.Contents(), key[i..], col.Contents());
  }

  const UE_MAX_KEYS := 128

  /** One key and value of an event record. */
  datatype Pair = Pair(key: string, val: string)

  function Pairs(props: seq<Prop>): seq<Pair> {
    seq(|props|, i requires 0 <= i < |props| =>
      Pair(Fitted(props[i].key, UE_KEY_MAX), Fitted(props[i].val, UE_VAL_MAX)))
  }

  /** How many of `n` pairs a record still has room for. */
  function Room(record: seq<Pair>, n: nat): (k: nat)
    ensures k <= n
  {
    if |record| + n <= UE_MAX_KEYS then n else if |record| < UE_MAX_KEYS then UE_MAX_KEYS - |record| else 0
  }

  method CopyInto(col: Collector, record: seq<Pair>) returns (out: seq<Pair>)
    requires col.Valid()
    ensures out == record + Pairs(col.Contents())[..Room(record, col.n)]
  {
    out := record;
    var i := 0;
    while i < col.n && |out| < UE_MAX_KEYS
      invariant i <= Room(record, col.n) && out == record + Pairs(col.Contents())[..i]
    {
      var p := col.props[i];
      assert Pairs(col.Contents())[..i + 1] ==
             Pairs(col.Contents())[..i] + [Pair(Fitted(p.key, UE_KEY_MAX), Fitted(p.val, UE_VAL_MAX))];
      out := out + [Pair(Fitted(p.key, UE_KEY_MAX), Fitted(p.val, UE_VAL_MAX))];
      i := i + 1;
    }
  }

  /** A lookup in a well-formed database, with a walkable key, keeps for every
      property name what testing every stored pattern would keep, and adds it
      to an event record as far as that has room. */
  method Query(header: string, root: Node, key: string, record: seq<Pair>)
    returns (col: Collector, out: seq<Pair>)
    ensures fresh(col) && fresh(col.props) && col.Valid()
    ensures out == record + Pairs(col.Contents())[..Room(record, col.n)]
    ensures WellFormed(root, false) && Longest(header, root) < LINE_MAX && Walkable(key) &&
            ShortNames(LinearScan(root, key)) && |Names(LinearScan(root, key))| <= MAX_PROPS ==>
              forall name :: KeptFor(col.Contents(), LinearScan(root, key), name)
  {
    col := new Collector();
    Search(header, root, key, col);
    if WellFormed(root, false) && Longest(header, root) < LINE_MAX && Walkable(key) &&
       ShortNames(LinearScan(root, key)) && |Names(LinearScan(root, key))| <= MAX_PROPS {
      forall name
        ensures KeptFor(col.Contents(), LinearScan(root, key), name)
      {
        LookupIsLinearScan(header, root, key, name);
      }
    }
    out := CopyInto(col, record);
  }

  lemma {:induction false} LookupIsLinearScan(header: string, root: Node, key: string, name: string)
    requires WellFormed(root, false) && Longest(header, root) < LINE_MAX && Walkable(key)
    requires ShortNames(LinearScan(root, key)) && |Names(LinearScan(root, key))| <= MAX_PROPS
    ensures KeptFor(AddAll([], Searched(header, root, [], key)), LinearScan(root, key), name)
  {
    SearchedIsWalk(header, root, key);
    WalkFindsTheSame(header, root, key);
    HitsAreFiltered(root, [], key);
    KeptIsHighest(Walk(header, root, key), LinearScan(root, key), name);
  }

  /** Without glob characters in the key every matching entry is collected
      exactly as often as it is stored. */
  lemma {:induction false} SearchCollectsEachOnce(header: string, root: Node, key: string)
    requires WellFormed(root, false) && Longest(header, root) < LINE_MAX && !HasGlob(key)
    ensures multiset(Searched(header, root, [], key)) == multiset(LinearScan(root, key))
  {
    SearchedIsWalk(header, root, key);
    WalkAgrees(header, root, key);
    HitsAreFiltered(root, [], key);
  }
}

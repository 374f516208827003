/**
 The hardware database: a trie whose edges and node prefixes spell shell
 patterns, each node holding the properties of one pattern. This module has
 the data and two readings of a lookup: testing every stored pattern, and the
 walk that follows the literal part of the key and only then tests patterns.
 */
module HwdbTrie {
  import opened Fnmatch

  datatype Value = Value(key: string, val: string, prio: nat, line: nat)

  /** A prefix offset of zero means "no prefix" to the walk. */
  datatype Prefix = NoPrefix | Prefix(text: string)

  /** A node with the byte of the child entry that leads to it. `Missing` is a
      child offset at which no whole node fits in the file. */
  datatype Node =
    | Missing(c: char)
    | Node(c: char, prefix: Prefix, children: seq<Node>, values: seq<Value>)

  /** The string at a prefix offset; offset zero is the file's own header. */
  function Text(header: string, p: Prefix): string {
    if p.NoPrefix? then header else p.text
  }

  // ---- every stored pattern, and the ones that match ----

  datatype Entry = Entry(pattern: string, value: Value)

  function Entries(n: Node, path: string): seq<Entry>
    decreases n, 1
  {
    if n.Missing? then [] else
      var q := path + Text("", n.prefix);
      ForestEntries(n.children, q) + OwnEntries(q, n.values)
  }

  function ForestEntries(es: seq<Node>, path: string): seq<Entry>
    decreases es, 0
  {
    if es == [] then []
    else Entries(es[0], path + [es[0].c]) + ForestEntries(es[1..], path)
  }

  function OwnEntries(q: string, vs: seq<Value>): seq<Entry> {
    if vs == [] then [] else [Entry(q, vs[0])] + OwnEntries(q, vs[1..])
  }

  function Keep(e: Entry, key: string): seq<Value> {
    if Matches(e.pattern, key) then [e.value] else []
  }

  function Filter(entries: seq<Entry>, key: string): seq<Value> {
    if entries == [] then [] else Keep(entries[0], key) + Filter(entries[1..], key)
  }

  /** The reference answer: test every stored pattern against the key. */
  function LinearScan(root: Node, key: string): seq<Value> {
    Filter(Entries(root, []), key)
  }

  /** The same answer, node by node. */
  function Hits(header: string, n: Node, path: string, key: string): seq<Value>
    decreases n, 1
  {
    if n.Missing? then [] else
      var q := path + Text(header, n.prefix);
      ForestHits(header, n.children, q, key) + (if Matches(q, key) then n.values else [])
  }

  function ForestHits(header: string, es: seq<Node>, path: string, key: string): seq<Value>
    decreases es, 0
  {
    if es == [] then []
    else Hits(header, es[0], path + [es[0].c], key) + ForestHits(header, es[1..], path, key)
  }

  lemma {:induction false} FilterAppend(a: seq<Entry>, b: seq<Entry>, key: string)
    ensures Filter(a + b, key) == Filter(a, key) + Filter(b, key)
  {
    if a == [] {
      assert a + b == b;
    } else {
      calc {
        Filter(a + b, key);
        { assert (a + b)[0] == a[0] && (a + b)[1..] == a[1..] + b; }
        Keep(a[0], key) + Filter(a[1..] + b, key);
        { FilterAppend(a[1..], b, key); }
        Keep(a[0], key) + (Filter(a[1..], key) + Filter(b, key));
        (Keep(a[0], key) + Filter(a[1..], key)) + Filter(b, key);
        Filter(a, key) + Filter(b, key);
      }
    }
  }

  lemma {:induction false} FilterOwn(q: string, vs: seq<Value>, key: string)
    ensures Filter(OwnEntries(q, vs), key) == if Matches(q, key) then vs else []
  {
    if vs != [] {
      FilterOwn(q, vs[1..], key);
      assert vs == [vs[0]] + vs[1..];
    }
  }

  lemma {:induction false} HitsAreFiltered(n: Node, path: string, key: string)
    ensures Filter(Entries(n, path), key) == Hits("", n, path, key)
    decreases n, 1
  {
    if n.Node? {
      var q := path + Text("", n.prefix);
      ForestHitsAreFiltered(n.children, q, key);
      FilterOwn(q, n.values, key);
      FilterAppend(ForestEntries(n.children, q), OwnEntries(q, n.values), key);
    }
  }

  lemma {:induction false} ForestHitsAreFiltered(es: seq<Node>, path: string, key: string)
    ensures Filter(ForestEntries(es, path), key) == ForestHits("", es, path, key)
    decreases es, 0
  {
    if es != [] {
      HitsAreFiltered(es[0], path + [es[0].c], key);
      ForestHitsAreFiltered(es[1..], path, key);
      FilterAppend(Entries(es[0], path + [es[0].c]), ForestEntries(es[1..], path), key);
    }
  }

  // ---- the walk ----

  function Lookup(es: seq<Node>, c: char): (r: Node)
    ensures r.c == c
    ensures r.Missing? || r in es
  {
    if es == [] then Missing(c)
    else if es[0].c == c then es[0]
    else Lookup(es[1..], c)
  }

  /** Length of the part of a prefix before its first glob character. */
  function LiteralLen(s: string): (k: nat)
    ensures k <= |s|
    ensures forall i :: 0 <= i < k ==> !IsGlob(s[i])
    ensures k < |s| ==> IsGlob(s[k])
  {
    if s == [] || IsGlob(s[0]) then 0 else 1 + LiteralLen(s[1..])
  }

  /** What lies under the glob edge `g` of a node, tested as patterns. */
  function GlobChild(header: string, es: seq<Node>, g: char, rest: string): seq<Value> {
    Hits(header, Lookup(es, g), [g], rest)
  }

  function GlobChildren(header: string, es: seq<Node>, rest: string): seq<Value> {
    GlobChild(header, es, '*', rest) + GlobChild(header, es, '?', rest) + GlobChild(header, es, '[', rest)
  }

  /** The walk with a pattern buffer that never runs out of room. */
  function Walk(header: string, n: Node, key: string): seq<Value>
    decreases n
  {
    if n.Missing? then [] else
      var pre := Text("", n.prefix);
      var k := LiteralLen(pre);
      if !(pre[..k] <= key) then []
      else if k < |pre| then
        ForestHits(header, n.children, pre[k..], key[k..]) +
        (if Matches(pre[k..], key[k..]) then n.values else [])
      else
        var rest := key[k..];
        GlobChildren(header, n.children, rest) +
        (if rest == [] then n.values
         else var next := Lookup(n.children, rest[0]);
           if next.Missing? then [] else Walk(header, next, rest[1..]))
  }

  // ---- well-formed tries ----

  predicate NoBackslash(s: string) {
    '\\' !in s
  }

  predicate HasGlob(s: string) {
    exists i :: 0 <= i < |s| && IsGlob(s[i])
  }

  predicate DistinctEdges(es: seq<Node>) {
    forall i, j :: 0 <= i < j < |es| ==> es[i].c != es[j].c
  }

  /** Nothing is stored at the node or below it. */
  predicate Barren(n: Node)
    decreases n, 1
  {
    n.Missing? || (n.values == [] && BarrenEdges(n.children))
  }

  predicate BarrenEdges(es: seq<Node>)
    decreases es, 0
  {
    es == [] || (Barren(es[0]) && BarrenEdges(es[1..]))
  }

  /** Distinct child bytes, no backslash in any pattern, and a real prefix
      offset in every node reached through a glob (`under`) unless nothing is
      stored there. */
  predicate WellFormed(n: Node, under: bool)
    decreases n, 1
  {
    n.Missing? ||
    (NoBackslash(Text("", n.prefix)) &&
     (under ==> n.prefix.Prefix? || Barren(n)) &&
     DistinctEdges(n.children) &&
     WellFormedEdges(n.children, under || HasGlob(Text("", n.prefix))))
  }

  predicate WellFormedEdges(es: seq<Node>, under: bool)
    decreases es, 0
  {
    es == [] ||
    (es[0].c != '\\' &&
     WellFormed(es[0], under || IsGlob(es[0].c)) &&
     WellFormedEdges(es[1..], under))
  }

  lemma {:induction false} LookupWellFormed(es: seq<Node>, c: char, under: bool)
    requires WellFormedEdges(es, under)
    ensures WellFormed(Lookup(es, c), under || IsGlob(c))
    ensures c == '\\' ==> Lookup(es, c).Missing?
  {
    if es != [] {
      LookupWellFormed(es[1..], c, under);
    }
  }

  lemma {:induction false} WellFormedUnder(n: Node)
    requires WellFormed(n, true)
    ensures WellFormed(n, false)
    decreases n, 1
  {
    if n.Node? && !HasGlob(Text("", n.prefix)) {
      WellFormedEdgesUnder(n.children);
    }
  }

  lemma {:induction false} WellFormedEdgesUnder(es: seq<Node>)
    requires WellFormedEdges(es, true)
    ensures WellFormedEdges(es, false)
    decreases es, 0
  {
    if es != [] {
      WellFormedUnder(es[0]);
      WellFormedEdgesUnder(es[1..]);
    }
  }

  lemma {:induction false} BarrenHits(header: string, n: Node, path: string, key: string)
    requires Barren(n)
    ensures Hits(header, n, path, key) == []
    decreases n, 1
  {
    if n.Node? {
      BarrenForestHits(header, n.children, path + Text(header, n.prefix), key);
    }
  }

  lemma {:induction false} BarrenForestHits(header: string, es: seq<Node>, path: string, key: string)
    requires BarrenEdges(es)
    ensures ForestHits(header, es, path, key) == []
    decreases es, 0
  {
    if es != [] {
      BarrenHits(header, es[0], path + [es[0].c], key);
      BarrenForestHits(header, es[1..], path, key);
    }
  }

  /** Below a glob no node reads the header as its prefix. */
  lemma {:induction false} HeaderUnused(header: string, n: Node, path: string, key: string)
    requires WellFormed(n, true)
    ensures Hits(header, n, path, key) == Hits("", n, path, key)
    decreases n, 1
  {
    if n.Node? {
      if n.prefix.NoPrefix? {
        BarrenHits(header, n, path, key);
        BarrenHits("", n, path, key);
      } else {
        ForestHeaderUnused(header, n.children, path + Text("", n.prefix), key);
      }
    }
  }

  lemma {:induction false} ForestHeaderUnused(header: string, es: seq<Node>, path: string, key: string)
    requires WellFormedEdges(es, true)
    ensures ForestHits(header, es, path, key) == ForestHits("", es, path, key)
    decreases es, 0
  {
    if es != [] {
      HeaderUnused(header, es[0], path + [es[0].c], key);
      ForestHeaderUnused(header, es[1..], path, key);
    }
  }

  // ---- stripping the literal head of a path ----

  /** A literal first path character selects the keys that start with it. */
  lemma {:induction false} StripOne(n: Node, c: char, path: string, key: string)
    requires !IsGlob(c) && c != '\\'
    ensures Hits("", n, [c] + path, key) ==
            if key != [] && key[0] == c then Hits("", n, path, key[1..]) else []
    decreases n, 1
  {
    if n.Node? {
      var q := path + Text("", n.prefix);
      assert ([c] + path) + Text("", n.prefix) == [c] + q;
      LiteralFirst(c, q, key);
      StripOneForest(n.children, c, q, key);
    }
  }

  lemma {:induction false} StripOneForest(es: seq<Node>, c: char, path: string, key: string)
    requires !IsGlob(c) && c != '\\'
    ensures ForestHits("", es, [c] + path, key) ==
            if key != [] && key[0] == c then ForestHits("", es, path, key[1..]) else []
    decreases es, 0
  {
    if es != [] {
      assert ([c] + path) + [es[0].c] == [c] + (path + [es[0].c]);
      StripOne(es[0], c, path + [es[0].c], key);
      StripOneForest(es[1..], c, path, key);
    }
  }

  /** The same for a node's own prefix: strip its literal head `u`. */
  lemma {:induction false} StripPrefix(es: seq<Node>, vs: seq<Value>, u: string, w: string, key: string)
    requires forall i :: 0 <= i < |u| ==> !IsGlob(u[i]) && u[i] != '\\'
    ensures ForestHits("", es, u + w, key) + (if Matches(u + w, key) then vs else []) ==
            if u <= key
            then ForestHits("", es, w, key[|u|..]) + (if Matches(w, key[|u|..]) then vs else [])
            else []
  {
    if u == [] {
      assert u + w == w && key[0..] == key;
    } else {
      assert u + w == [u[0]] + (u[1..] + w);
      LiteralFirst(u[0], u[1..] + w, key);
      StripOneForest(es, u[0], u[1..] + w, key);
      if key != [] && key[0] == u[0] {
        StripPrefix(es, vs, u[1..], w, key[1..]);
        assert u[1..] <= key[1..] <==> u <= key by {
          assert u == [u[0]] + u[1..] && key == [key[0]] + key[1..];
        }
        if u <= key {
          assert key[1..][|u[1..]|..] == key[|u|..];
        }
      }
    }
  }
}

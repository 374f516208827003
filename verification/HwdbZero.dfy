/**
 Prefix offset zero. Above any glob the walk takes it for "no prefix"; below one
 it tests the string at offset zero, the file's own header, as part of the
 pattern. The walk then answers for another trie, and differs from the linear
 scan exactly when something is stored at or below such a node.
 */
module HwdbZero {
  import opened Fnmatch
  import opened HwdbTrie
  import opened HwdbAgreement

  /** What a file that opens begins with. */
  const MAGIC := "KSLPHHRH"

  // ---- the trie the walk sees ----

  /** The header in place of every zero prefix offset below a glob. */
  function Patch(header: string, n: Node, under: bool): (r: Node)
    ensures r.c == n.c
    decreases n, 1
  {
    if n.Missing? then n else
      Node(n.c, if under && n.prefix.NoPrefix? then Prefix(header) else n.prefix,
           PatchAll(header, n.children, under || HasGlob(Text("", n.prefix))), n.values)
  }

  function PatchAll(header: string, es: seq<Node>, under: bool): (r: seq<Node>)
    ensures |r| == |es| && forall i :: 0 <= i < |es| ==> r[i].c == es[i].c
    decreases es, 0
  {
    if es == [] then []
    else [Patch(header, es[0], under || IsGlob(es[0].c))] + PatchAll(header, es[1..], under)
  }

  /** Distinct child bytes and no backslash; prefix offsets are free. */
  predicate Structured(n: Node)
    decreases n, 1
  {
    n.Missing? || (NoBackslash(Text("", n.prefix)) && DistinctEdges(n.children) && StructuredEdges(n.children))
  }

  predicate StructuredEdges(es: seq<Node>)
    decreases es, 0
  {
    es == [] || (es[0].c != '\\' && Structured(es[0]) && StructuredEdges(es[1..]))
  }

  lemma {:induction false} PatchWellFormed(header: string, n: Node, under: bool)
    requires Structured(n) && NoBackslash(header)
    ensures WellFormed(Patch(header, n, under), under)
    decreases n, 1
  {
    if n.Node? {
      var r := Patch(header, n, under);
      var inner := under || HasGlob(Text("", n.prefix));
      PatchAllWellFormed(header, n.children, inner);
      assert under || HasGlob(Text("", r.prefix)) == HasGlob(Text("", n.prefix));
    }
  }

  lemma {:induction false} PatchAllWellFormed(header: string, es: seq<Node>, under: bool)
    requires StructuredEdges(es) && NoBackslash(header)
    ensures WellFormedEdges(PatchAll(header, es, under), under)
    decreases es, 0
  {
    if es != [] {
      PatchWellFormed(header, es[0], under || IsGlob(es[0].c));
      PatchAllWellFormed(header, es[1..], under);
      assert PatchAll(header, es, under)[1..] == PatchAll(header, es[1..], under);
    }
  }

  lemma {:induction false} PatchHits(header: string, n: Node, path: string, key: string)
    ensures Hits(header, Patch(header, n, true), path, key) == Hits(header, n, path, key)
    decreases n, 1
  {
    if n.Node? {
      PatchForestHits(header, n.children, path + Text(header, n.prefix), key);
    }
  }

  lemma {:induction false} PatchForestHits(header: string, es: seq<Node>, path: string, key: string)
    ensures ForestHits(header, PatchAll(header, es, true), path, key) == ForestHits(header, es, path, key)
    decreases es, 0
  {
    if es != [] {
      PatchHits(header, es[0], path + [es[0].c], key);
      PatchForestHits(header, es[1..], path, key);
      assert PatchAll(header, es, true)[1..] == PatchAll(header, es[1..], true);
    }
  }

  lemma {:induction false} PatchLookup(header: string, es: seq<Node>, under: bool, c: char)
    ensures Lookup(PatchAll(header, es, under), c) == Patch(header, Lookup(es, c), under || IsGlob(c))
  {
    if es != [] {
      PatchLookup(header, es[1..], under, c);
      assert PatchAll(header, es, under)[1..] == PatchAll(header, es[1..], under);
    }
  }

  lemma {:induction false} PatchGlobChildren(header: string, es: seq<Node>, rest: string)
    ensures GlobChildren(header, PatchAll(header, es, false), rest) == GlobChildren(header, es, rest)
  {
    hide Hits;
    hide Patch;
    PatchLookup(header, es, false, '*');
    PatchLookup(header, es, false, '?');
    PatchLookup(header, es, false, '[');
    PatchHits(header, Lookup(es, '*'), "*", rest);
    PatchHits(header, Lookup(es, '?'), "?", rest);
    PatchHits(header, Lookup(es, '['), "[", rest);
  }

  /** The walk cannot tell the two tries apart. */
  lemma {:induction false} WalkPatched(header: string, n: Node, key: string)
    requires !HasGlob(key)
    ensures Walk(header, Patch(header, n, false), key) == Walk(header, n, key)
    decreases n
  {
    if n.Node? {
      var pre := Text("", n.prefix);
      var k := LiteralLen(pre);
      var r := Patch(header, n, false);
      assert r.prefix == n.prefix && r.values == n.values;
      if pre[..k] <= key {
        if k < |pre| {
          assert IsGlob(pre[k]) && HasGlob(pre);
          PatchForestHits(header, n.children, pre[k..], key[k..]);
        } else {
          assert !HasGlob(pre);
          var rest := key[k..];
          PatchGlobChildren(header, n.children, rest);
          if rest != [] {
            assert rest[0] == key[k] && !IsGlob(rest[0]);
            PatchLookup(header, n.children, false, rest[0]);
            var next := Lookup(n.children, rest[0]);
            if next.Node? {
              WalkPatched(header, next, rest[1..]);
            }
          }
        }
      }
    }
  }

  /** For every structured trie the walk finds what testing the patterns of the
      patched trie finds. */
  lemma {:induction false} WalkReadsHeader(header: string, n: Node, key: string)
    requires Structured(n) && NoBackslash(header) && !HasGlob(key)
    ensures multiset(Walk(header, n, key)) == multiset(LinearScan(Patch(header, n, false), key))
  {
    var r := Patch(header, n, false);
    PatchWellFormed(header, n, false);
    WalkPatched(header, n, key);
    WalkAgrees(header, r, key);
    HitsAreFiltered(r, [], key);
  }

  // ---- the shortest key a pattern matches ----

  /** How many characters other than stars a pattern has. */
  function Least(p: string): nat {
    if p == [] then 0 else (if p[0] == '*' then 0 else 1) + Least(p[1..])
  }

  lemma {:induction false} LeastAdds(a: string, b: string)
    ensures Least(a + b) == Least(a) + Least(b)
  {
    if a == [] {
      assert a + b == b;
    } else {
      assert (a + b)[1..] == a[1..] + b;
      LeastAdds(a[1..], b);
    }
  }

  /** Neither brackets nor backslashes: every character stands alone. */
  predicate Bare(p: string) {
    '[' !in p && '\\' !in p
  }

  lemma {:induction false} MatchNeedsLength(p: string, s: string)
    requires Bare(p) && Matches(p, s)
    ensures |s| >= Least(p)
    decreases |p| + |s|
  {
    if p != [] {
      if p[0] == '*' {
        if Matches(p[1..], s) {
          MatchNeedsLength(p[1..], s);
        } else {
          MatchNeedsLength(p, s[1..]);
        }
      } else {
        MatchNeedsLength(p[1..], s[1..]);
      }
    }
  }

  /** A shortest key: no character for a star, an `x` for a question mark. */
  function Shortest(p: string): string {
    if p == [] then []
    else (if p[0] == '*' then [] else if p[0] == '?' then ['x'] else [p[0]]) + Shortest(p[1..])
  }

  lemma {:induction false} ShortestMatches(p: string)
    requires Bare(p)
    ensures Matches(p, Shortest(p)) && |Shortest(p)| == Least(p) && !HasGlob(Shortest(p))
  {
    if p != [] {
      ShortestMatches(p[1..]);
      var rest := Shortest(p[1..]);
      if p[0] == '*' {
        assert Shortest(p) == [] + rest == rest;
      } else {
        assert Shortest(p)[1..] == rest;
        forall i | 0 <= i < |Shortest(p)|
          ensures !IsGlob(Shortest(p)[i])
        {
          if i > 0 {
            assert Shortest(p)[i] == rest[i - 1];
          }
        }
      }
    }
  }

  // ---- the two tries, entry by entry ----

  lemma {:induction false} OwnAre(q: string, vs: seq<Value>)
    ensures |OwnEntries(q, vs)| == |vs|
    ensures forall i :: 0 <= i < |vs| ==> OwnEntries(q, vs)[i] == Entry(q, vs[i])
  {
    if vs != [] {
      OwnAre(q, vs[1..]);
    }
  }

  /** The second pattern needs a longer key, or is the same one unless `strictly`. */
  predicate Grown(p: string, q: string, strictly: bool) {
    (Least(q) > Least(p) && (Bare(p) ==> Bare(q))) || (!strictly && q == p)
  }

  /** A header that stands for itself in a pattern and needs a longer key. */
  predicate Sturdy(header: string) {
    Bare(header) && Least(header) > 0
  }

  lemma GrownMore(p: string, q: string, text: string, strictly: bool)
    requires Grown(p, q, strictly)
    ensures Grown(p + text, q + text, strictly)
  {
    hide Least;
    LeastAdds(p, text);
    LeastAdds(q, text);
  }

  /** The same values in the same places, with grown patterns. */
  predicate AllGrown(a: seq<Entry>, b: seq<Entry>, strictly: bool) {
    && |a| == |b|
    && forall i :: 0 <= i < |a| ==> b[i].value == a[i].value && Grown(a[i].pattern, b[i].pattern, strictly)
  }

  lemma AllGrownAppend(a: seq<Entry>, b: seq<Entry>, a': seq<Entry>, b': seq<Entry>, strictly: bool)
    requires AllGrown(a, b, strictly) && AllGrown(a', b', strictly)
    ensures AllGrown(a + a', b + b', strictly)
  {
    hide Grown;
  }

  lemma {:induction false} OwnGrown(p: string, q: string, vs: seq<Value>, strictly: bool)
    requires Grown(p, q, strictly)
    ensures AllGrown(OwnEntries(p, vs), OwnEntries(q, vs), strictly)
  {
    OwnAre(p, vs);
    OwnAre(q, vs);
  }

  /** The header makes a pattern grow. */
  lemma {:induction false} HeaderGrows(header: string, n: Node, under: bool, pa: string, pb: string, strictly: bool)
    requires n.Node? && Grown(pa, pb, strictly) && Sturdy(header)
    ensures var qa, qb := pa + Text("", n.prefix), pb + Text("", Patch(header, n, under).prefix);
            Grown(qa, qb, strictly) && (under && n.prefix.NoPrefix? ==> Grown(qa, qb, true))
  {
    hide Least;
    if under && n.prefix.NoPrefix? {
      assert pa + "" == pa;
      LeastAdds(pb, header);
    } else {
      GrownMore(pa, pb, Text("", n.prefix), strictly);
    }
  }

  lemma {:induction false} PatchGrows(header: string, n: Node, under: bool, pa: string, pb: string, strictly: bool)
    requires Grown(pa, pb, strictly) && Sturdy(header)
    ensures AllGrown(Entries(n, pa), Entries(Patch(header, n, under), pb), strictly)
    decreases n, 1
  {
    if n.Node? {
      hide Least;
      HeaderGrows(header, n, under, pa, pb, strictly);
      NodeGrows(header, n, under, pa, pb, strictly);
    }
  }

  lemma {:induction false} NodeGrows(header: string, n: Node, under: bool, pa: string, pb: string, strictly: bool)
    requires n.Node? && Sturdy(header)
    requires Grown(pa + Text("", n.prefix), pb + Text("", Patch(header, n, under).prefix), strictly)
    ensures AllGrown(Entries(n, pa), Entries(Patch(header, n, under), pb), strictly)
    decreases n, 0
  {
    hide Grown;
    var r := Patch(header, n, under);
    var qa, qb := pa + Text("", n.prefix), pb + Text("", r.prefix);
    PatchAllGrows(header, n.children, under || HasGlob(Text("", n.prefix)), qa, qb, strictly);
    OwnGrown(qa, qb, n.values, strictly);
    AllGrownAppend(ForestEntries(n.children, qa), ForestEntries(r.children, qb),
                   OwnEntries(qa, n.values), OwnEntries(qb, n.values), strictly);
  }

  lemma {:induction false} PatchAllGrows(header: string, es: seq<Node>, under: bool, pa: string, pb: string,
                                         strictly: bool)
    requires Grown(pa, pb, strictly) && Sturdy(header)
    ensures AllGrown(ForestEntries(es, pa), ForestEntries(PatchAll(header, es, under), pb), strictly)
    decreases es, 0
  {
    if es != [] {
      hide Grown;
      var rs := PatchAll(header, es, under);
      var c := [es[0].c];
      GrownMore(pa, pb, c, strictly);
      PatchGrows(header, es[0], under || IsGlob(es[0].c), pa + c, pb + c, strictly);
      PatchAllGrows(header, es[1..], under, pa, pb, strictly);
      assert rs[1..] == PatchAll(header, es[1..], under);
      AllGrownAppend(Entries(es[0], pa + c), Entries(rs[0], pb + c),
                     ForestEntries(es[1..], pa), ForestEntries(rs[1..], pb), strictly);
    }
  }

  lemma {:induction false} StoredSomewhere(n: Node, path: string)
    requires !Barren(n)
    ensures Entries(n, path) != []
    decreases n, 1
  {
    var q := path + Text("", n.prefix);
    OwnAre(q, n.values);
    if n.values == [] {
      StoredSomewhereEdges(n.children, q);
    }
  }

  lemma {:induction false} StoredSomewhereEdges(es: seq<Node>, path: string)
    requires !BarrenEdges(es)
    ensures ForestEntries(es, path) != []
    decreases es, 0
  {
    if !Barren(es[0]) {
      StoredSomewhere(es[0], path + [es[0].c]);
    } else {
      StoredSomewhereEdges(es[1..], path);
    }
  }

  // ---- what is stored at or below a zero prefix offset under a glob ----

  function Stranded(n: Node, under: bool, path: string): seq<Entry>
    decreases n, 1
  {
    if n.Missing? then []
    else if under && n.prefix.NoPrefix? then Entries(n, path)
    else StrandedForest(n.children, under || HasGlob(Text("", n.prefix)), path + Text("", n.prefix))
  }

  function StrandedForest(es: seq<Node>, under: bool, path: string): seq<Entry>
    decreases es, 0
  {
    if es == [] then []
    else Stranded(es[0], under || IsGlob(es[0].c), path + [es[0].c]) + StrandedForest(es[1..], under, path)
  }

  /** Nothing is stranded exactly in the tries the walk is right about. */
  lemma {:induction false} NothingStranded(n: Node, under: bool, path: string)
    requires Structured(n)
    ensures WellFormed(n, under) <==> Stranded(n, under, path) == []
    decreases n, 1
  {
    if n.Node? {
      var q := path + Text("", n.prefix);
      if under && n.prefix.NoPrefix? {
        if Barren(n) {
          NothingStored(n, path);
          BarrenWellFormed(n, under);
        } else {
          StoredSomewhere(n, path);
        }
      } else {
        NothingStrandedBelow(n.children, under || HasGlob(Text("", n.prefix)), q);
      }
    }
  }

  lemma {:induction false} NothingStrandedBelow(es: seq<Node>, under: bool, path: string)
    requires StructuredEdges(es)
    ensures WellFormedEdges(es, under) <==> StrandedForest(es, under, path) == []
    decreases es, 0
  {
    if es != [] {
      NothingStranded(es[0], under || IsGlob(es[0].c), path + [es[0].c]);
      NothingStrandedBelow(es[1..], under, path);
    }
  }

  lemma {:induction false} NothingStored(n: Node, path: string)
    requires Barren(n)
    ensures Entries(n, path) == []
    decreases n, 1
  {
    if n.Node? {
      NothingStoredBelow(n.children, path + Text("", n.prefix));
    }
  }

  lemma {:induction false} NothingStoredBelow(es: seq<Node>, path: string)
    requires BarrenEdges(es)
    ensures ForestEntries(es, path) == []
    decreases es, 0
  {
    if es != [] {
      NothingStored(es[0], path + [es[0].c]);
      NothingStoredBelow(es[1..], path);
    }
  }

  lemma {:induction false} BarrenWellFormed(n: Node, under: bool)
    requires Structured(n) && Barren(n)
    ensures WellFormed(n, under)
    decreases n, 1
  {
    if n.Node? {
      BarrenWellFormedEdges(n.children, under || HasGlob(Text("", n.prefix)));
    }
  }

  lemma {:induction false} BarrenWellFormedEdges(es: seq<Node>, under: bool)
    requires StructuredEdges(es) && BarrenEdges(es)
    ensures WellFormedEdges(es, under)
    decreases es, 0
  {
    if es != [] {
      BarrenWellFormed(es[0], under || IsGlob(es[0].c));
      BarrenWellFormedEdges(es[1..], under);
    }
  }

  /** Each entry of the first list stays as it is or is among `strays`. */
  predicate SameBut(a: seq<Entry>, b: seq<Entry>, strays: seq<Entry>) {
    |a| == |b| && forall i :: 0 <= i < |a| ==> a[i] == b[i] || a[i] in strays
  }

  lemma SameButAppend(a: seq<Entry>, b: seq<Entry>, s: seq<Entry>, a': seq<Entry>, b': seq<Entry>, s': seq<Entry>)
    requires SameBut(a, b, s) && SameBut(a', b', s')
    ensures SameBut(a + a', b + b', s + s')
  {
  }

  /** Only what is stranded changes. */
  lemma {:induction false} OnlyStranded(header: string, n: Node, under: bool, path: string)
    requires Sturdy(header)
    ensures SameBut(Entries(n, path), Entries(Patch(header, n, under), path), Stranded(n, under, path))
    decreases n, 1
  {
    if n.Node? {
      if under && n.prefix.NoPrefix? {
        PatchGrows(header, n, under, path, path, false);
      } else {
        var q := path + Text("", n.prefix);
        var inner := under || HasGlob(Text("", n.prefix));
        var own := OwnEntries(q, n.values);
        OnlyStrandedBelow(header, n.children, inner, q);
        SameButAppend(ForestEntries(n.children, q), ForestEntries(PatchAll(header, n.children, inner), q),
                      StrandedForest(n.children, inner, q), own, own, []);
        assert StrandedForest(n.children, inner, q) + [] == StrandedForest(n.children, inner, q);
      }
    }
  }

  lemma {:induction false} OnlyStrandedBelow(header: string, es: seq<Node>, under: bool, path: string)
    requires Sturdy(header)
    ensures SameBut(ForestEntries(es, path), ForestEntries(PatchAll(header, es, under), path),
                    StrandedForest(es, under, path))
    decreases es, 0
  {
    if es != [] {
      var rs := PatchAll(header, es, under);
      var p, u := path + [es[0].c], under || IsGlob(es[0].c);
      OnlyStranded(header, es[0], u, p);
      OnlyStrandedBelow(header, es[1..], under, path);
      assert rs[1..] == PatchAll(header, es[1..], under);
      SameButAppend(Entries(es[0], p), Entries(rs[0], p), Stranded(es[0], u, p),
                    ForestEntries(es[1..], path), ForestEntries(rs[1..], path), StrandedForest(es[1..], under, path));
    }
  }

  // ---- an entry the walk asks too much of ----

  /** The i-th entries: the second one needs a longer key. */
  predicate GrownAt(a: seq<Entry>, b: seq<Entry>, i: int) {
    0 <= i < |a| == |b| && Grown(a[i].pattern, b[i].pattern, true)
  }

  lemma {:induction false} StrandedEntry(header: string, n: Node, under: bool, pa: string, pb: string)
    returns (i: nat)
    requires Structured(n) && !WellFormed(n, under) && Grown(pa, pb, false) && Sturdy(header)
    ensures GrownAt(Entries(n, pa), Entries(Patch(header, n, under), pb), i)
    decreases n, 1
  {
    hide Grown;
    hide Least;
    var r := Patch(header, n, under);
    HeaderGrows(header, n, under, pa, pb, false);
    NodeGrows(header, n, under, pa, pb, false);
    if under && n.prefix.NoPrefix? && !Barren(n) {
      StoredSomewhere(n, pa);
      NodeGrows(header, n, under, pa, pb, true);
      i := 0;
    } else {
      var inner := under || HasGlob(Text("", n.prefix));
      i := StrandedEdge(header, n.children, inner, pa + Text("", n.prefix), pb + Text("", r.prefix));
    }
  }

  lemma {:induction false} StrandedEdge(header: string, es: seq<Node>, under: bool, pa: string, pb: string)
    returns (i: nat)
    requires StructuredEdges(es) && !WellFormedEdges(es, under) && Grown(pa, pb, false) && Sturdy(header)
    ensures GrownAt(ForestEntries(es, pa), ForestEntries(PatchAll(header, es, under), pb), i)
    decreases es, 0
  {
    hide Grown;
    hide Least;
    var rs := PatchAll(header, es, under);
    var c := [es[0].c];
    GrownMore(pa, pb, c, false);
    assert rs[1..] == PatchAll(header, es[1..], under);
    PatchGrows(header, es[0], under || IsGlob(es[0].c), pa + c, pb + c, false);
    PatchAllGrows(header, es[1..], under, pa, pb, false);
    var a, b := Entries(es[0], pa + c), Entries(rs[0], pb + c);
    hide Entries;
    if !WellFormed(es[0], under || IsGlob(es[0].c)) {
      i := StrandedEntry(header, es[0], under || IsGlob(es[0].c), pa + c, pb + c);
      assert GrownAt(a, b, i);
    } else {
      var j := StrandedEdge(header, es[1..], under, pa, pb);
      i := |a| + j;
    }
  }

  /** Of the grown entries, one whose own pattern needs the shortest key. */
  lemma {:induction false} EasiestGrown(a: seq<Entry>, b: seq<Entry>, i: int) returns (k: int)
    requires GrownAt(a, b, i)
    ensures GrownAt(a, b, k)
    ensures forall j :: GrownAt(a, b, j) ==> Least(a[k].pattern) <= Least(a[j].pattern)
    decreases Least(a[i].pattern)
  {
    hide Least;
    if forall j :: GrownAt(a, b, j) ==> Least(a[i].pattern) <= Least(a[j].pattern) {
      k := i;
    } else {
      var j :| GrownAt(a, b, j) && Least(a[j].pattern) < Least(a[i].pattern);
      k := EasiestGrown(a, b, j);
    }
  }

  /** The same values, and no pattern of the second list matches where the
      first one's does not. */
  predicate NoMore(a: seq<Entry>, b: seq<Entry>, key: string) {
    && |a| == |b|
    && forall i :: 0 <= i < |a| ==>
         b[i].value == a[i].value && (Matches(b[i].pattern, key) ==> Matches(a[i].pattern, key))
  }

  lemma {:induction false} FilterNoMore(a: seq<Entry>, b: seq<Entry>, key: string)
    requires NoMore(a, b, key)
    ensures multiset(Filter(b, key)) <= multiset(Filter(a, key)) && |Filter(b, key)| <= |Filter(a, key)|
  {
    hide Matches;
    if a != [] {
      FilterNoMore(a[1..], b[1..], key);
      var k, l := multiset(Keep(a[0], key)), multiset(Keep(b[0], key));
      assert Keep(b[0], key) == [] || Keep(b[0], key) == Keep(a[0], key);
      assert multiset(Filter(a, key)) == k + multiset(Filter(a[1..], key));
      assert multiset(Filter(b, key)) == l + multiset(Filter(b[1..], key));
    }
  }

  lemma {:induction false} FilterFewer(a: seq<Entry>, b: seq<Entry>, key: string, i: nat)
    requires NoMore(a, b, key) && i < |a|
    requires Matches(a[i].pattern, key) && !Matches(b[i].pattern, key)
    ensures |Filter(b, key)| < |Filter(a, key)|
  {
    hide Matches;
    if i == 0 {
      FilterNoMore(a[1..], b[1..], key);
    } else {
      FilterFewer(a[1..], b[1..], key, i - 1);
    }
  }

  lemma SmallerBag(s: seq<Value>, t: seq<Value>)
    requires multiset(s) <= multiset(t) && |s| < |t|
    ensures multiset(s) < multiset(t)
  {
    assert |multiset(s)| == |s| && |multiset(t)| == |t|;
  }

  predicate AllBare(es: seq<Entry>) {
    forall i :: 0 <= i < |es| ==> Bare(es[i].pattern)
  }

  /** With something stranded there is a key for which the walk finds only a
      part of what is stored. */
  lemma StrandedIsMissed(header: string, n: Node) returns (key: string)
    requires Structured(n) && Stranded(n, false, []) != [] && AllBare(Stranded(n, false, []))
    requires Sturdy(header)
    ensures !HasGlob(key) && multiset(Walk(header, n, key)) < multiset(LinearScan(n, key))
  {
    hide Matches;
    hide HasGlob;
    hide WellFormed;
    var r, strays := Patch(header, n, false), Stranded(n, false, []);
    var a, b := Entries(n, []), Entries(r, []);
    NothingStranded(n, false, []);
    var i := StrandedEntry(header, n, false, [], []);
    i := EasiestGrown(a, b, i);
    OnlyStranded(header, n, false, []);
    PatchGrows(header, n, false, [], [], false);
    assert a[i] in strays && Bare(a[i].pattern);
    key := Shortest(a[i].pattern);
    ShortestMatches(a[i].pattern);
    forall j | 0 <= j < |b| && Matches(b[j].pattern, key)
      ensures !GrownAt(a, b, j) && Matches(a[j].pattern, key)
    {
      if GrownAt(a, b, j) {
        assert a[j] in strays && Bare(b[j].pattern);
        MatchNeedsLength(b[j].pattern, key);
      }
    }
    FilterNoMore(a, b, key);
    FilterFewer(a, b, key, i);
    WalkReadsHeader(header, n, key);
    SmallerBag(Filter(b, key), Filter(a, key));
  }

  lemma MagicIsSturdy(header: string)
    requires MAGIC <= header && Bare(header)
    ensures Sturdy(header)
  {
    assert header[0] == MAGIC[0];
  }

  /** The walk agrees with the linear scan on all keys without glob characters
      exactly when nothing is stored at or below a zero prefix offset under a
      glob. */
  lemma {:induction false} ZeroPrefixIsExact(header: string, n: Node)
    requires Structured(n) && AllBare(Stranded(n, false, [])) && MAGIC <= header && Bare(header)
    ensures Stranded(n, false, []) == [] <==>
            forall key :: !HasGlob(key) ==> multiset(Walk(header, n, key)) == multiset(LinearScan(n, key))
  {
    hide Walk;
    hide LinearScan;
    NothingStranded(n, false, []);
    if WellFormed(n, false) {
      forall key | !HasGlob(key)
        ensures multiset(Walk(header, n, key)) == multiset(LinearScan(n, key))
      {
        WalkSame(header, n, key);
      }
    } else {
      MagicIsSturdy(header);
      var key := StrandedIsMissed(header, n);
      assert multiset(Walk(header, n, key)) != multiset(LinearScan(n, key));
    }
  }

  /** This half needs nothing of the header or of brackets. */
  lemma {:induction false} WalkSame(header: string, n: Node, key: string)
    requires WellFormed(n, false) && !HasGlob(key)
    ensures multiset(Walk(header, n, key)) == multiset(LinearScan(n, key))
  {
    WalkAgrees(header, n, key);
    HitsAreFiltered(n, [], key);
  }

  /** A root with one pattern below it. */
  function Pair(text: string, c: char, p: Prefix, v: Value): Node {
    Node('\0', Prefix(text), [Node(c, p, [], [v])], [])
  }

  /** The smallest such trie, for every header a file that opens can have. */
  lemma {:induction false} ZeroPrefixMisses(header: string, v: Value)
    requires MAGIC <= header
    ensures var n := Pair("", '*', NoPrefix, v);
            LinearScan(n, "") == [v] && Walk(header, n, "") == []
  {
    var leaf := Node('*', NoPrefix, [], [v]);
    var n := Pair("", '*', NoPrefix, v);
    HitsAreFiltered(n, [], "");
    assert Matches("*", "") by { assert "*"[1..] == []; }
    assert [leaf][1..] == [];
    assert [] + [leaf.c] == "*" && "*" + "" == "*" && [] + "" == [];
    assert Hits("", leaf, "*", "") == [v];
    assert ForestHits("", [leaf], "", "") == [v];
    assert !Matches("*" + header, "") by {
      assert ("*" + header)[1..] == header && header[0] == 'K';
    }
    WalkStep(header, n, "");
    assert Hits(header, leaf, "*", "") == [];
    assert Lookup([leaf], '*') == leaf;
    assert Lookup([leaf], '?') == Missing('?') && Lookup([leaf], '[') == Missing('[');
    assert GlobChildren(header, [leaf], "") == [];
  }

  lemma {:induction false} StarBracket(rest: string, s: string)
    requires !HasGlob(s)
    ensures !Matches("[*]" + rest, s)
  {
    var p := "[*]" + rest;
    assert p[1..] == "*]" + rest && p[1..][1..] == "]" + rest && ("]" + rest)[1..] == rest;
    if s != [] {
      assert !IsGlob(s[0]);
      assert Scan("]" + rest, s[0], false, false) == Closed(false, rest);
      assert Scan("*]" + rest, s[0], false, true) == Closed(false, rest);
    }
  }

  lemma PairEntries(text: string, c: char, p: Prefix, v: Value)
    ensures Entries(Pair(text, c, p, v), []) == [Entry(text + [c] + Text("", p), v)]
  {
    var leaf := Node(c, p, [], [v]);
    assert [leaf][1..] == [] && [] + text == text && [v][1..] == [];
    assert OwnEntries(text + [c] + Text("", p), [v]) == [Entry(text + [c] + Text("", p), v)];
    assert Entries(leaf, text + [c]) == OwnEntries(text + [c] + Text("", p), [v]);
    assert ForestEntries([leaf], text) == Entries(leaf, text + [c]) + [];
  }

  lemma {:induction false} PairStranded(header: string, text: string, c: char, v: Value)
    requires HasGlob(text)
    ensures Stranded(Pair(text, c, NoPrefix, v), false, []) == Entries(Pair(text, c, NoPrefix, v), [])
    ensures Patch(header, Pair(text, c, NoPrefix, v), false) == Pair(text, c, Prefix(header), v)
  {
    var leaf := Node(c, NoPrefix, [], [v]);
    assert [leaf][1..] == [] && [] + text == text;
    assert Stranded(leaf, true, text + [c]) == Entries(leaf, text + [c]);
    assert StrandedForest([leaf], true, text) == ForestEntries([leaf], text);
    assert Patch(header, leaf, true) == Node(c, Prefix(header), [], [v]);
  }

  lemma PairStructured(text: string, c: char, v: Value)
    requires NoBackslash(text) && c != '\\'
    ensures Structured(Pair(text, c, NoPrefix, v))
  {
    var leaf := Node(c, NoPrefix, [], [v]);
    assert [leaf][1..] == [];
    assert Structured(leaf) && StructuredEdges([leaf]);
  }

  /** Not found with any key without glob characters. */
  lemma PairHidden(p: Prefix, v: Value, key: string)
    requires !HasGlob(key)
    ensures LinearScan(Pair("[*]", 'x', p, v), key) == []
  {
    hide Matches;
    hide Entries;
    PairEntries("[*]", 'x', p, v);
    StarBracket("x" + Text("", p), key);
    assert "[*]" + ['x'] + Text("", p) == "[*]" + ("x" + Text("", p));
    var e := Entry("[*]" + ("x" + Text("", p)), v);
    assert Keep(e, key) == [] && [e][1..] == [] && Filter([e], key) == [];
  }

  /** With a bracket in a stranded pattern nothing may come of it: here neither
      finds the value with any such key, whatever the header. */
  lemma {:induction false} BracketMayHide(header: string, v: Value, key: string)
    requires NoBackslash(header) && !HasGlob(key)
    ensures var n := Pair("[*]", 'x', NoPrefix, v);
            Structured(n) && Stranded(n, false, []) != [] && Walk(header, n, key) == LinearScan(n, key) == []
  {
    hide Matches;
    hide Walk;
    hide Entries;
    hide Stranded;
    hide Structured;
    hide Patch;
    hide Pair;
    hide LinearScan;
    PairStructured("[*]", 'x', v);
    assert IsGlob("[*]"[0]);
    PairEntries("[*]", 'x', NoPrefix, v);
    PairStranded(header, "[*]", 'x', v);
    PairHidden(NoPrefix, v, key);
    PairHidden(Prefix(header), v, key);
    WalkReadsHeader(header, Pair("[*]", 'x', NoPrefix, v), key);
    var w := Walk(header, Pair("[*]", 'x', NoPrefix, v), key);
    assert |multiset(w)| == |w|;
  }
}

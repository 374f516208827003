/**
 The walk agrees with testing every pattern: as a multiset for keys free of
 glob characters, as a set for exactly the keys in which no `[` can be taken
 for the start of a bracket expression.
 */
module HwdbAgreement {
  import opened Fnmatch
  import opened HwdbTrie

  lemma {:induction false} LookupAbsent(es: seq<Node>, c: char)
    requires forall e :: e in es ==> e.c != c
    ensures Lookup(es, c) == Missing(c)
  {
    if es != [] {
      LookupAbsent(es[1..], c);
    }
  }

  /** The entries under literal edges that a key starting with `rest` can reach. */
  function LiteralHits(es: seq<Node>, rest: string): seq<Value> {
    if rest == [] || IsGlob(rest[0]) || rest[0] == '\\' then []
    else Hits("", Lookup(es, rest[0]), [], rest[1..])
  }

  lemma {:induction false} GlobChildCons(e: Node, tail: seq<Node>, g: char, rest: string)
    requires forall x :: x in tail ==> x.c != e.c
    ensures GlobChild("", [e] + tail, g, rest) ==
            (if e.c == g then Hits("", e, [e.c], rest) else []) + GlobChild("", tail, g, rest)
  {
    var es := [e] + tail;
    assert es[0] == e && es[1..] == tail;
    if e.c == g {
      LookupAbsent(tail, g);
      assert GlobChild("", tail, g, rest) == [];
    }
  }

  lemma {:induction false} LiteralHitsCons(e: Node, tail: seq<Node>, rest: string)
    requires forall x :: x in tail ==> x.c != e.c
    requires e.c != '\\'
    ensures LiteralHits([e] + tail, rest) ==
            (if IsGlob(e.c) then [] else Hits("", e, [e.c], rest)) + LiteralHits(tail, rest)
  {
    var es := [e] + tail;
    assert es[0] == e && es[1..] == tail;
    if !IsGlob(e.c) {
      assert [e.c] == [e.c] + [];
      StripOne(e, e.c, [], rest);
      if rest != [] && rest[0] == e.c {
        LookupAbsent(tail, e.c);
        assert LiteralHits(tail, rest) == [];
      }
    }
  }

  predicate Splits(es: seq<Node>, rest: string) {
    multiset(ForestHits("", es, [], rest)) ==
    multiset(GlobChildren("", es, rest)) + multiset(LiteralHits(es, rest))
  }

  lemma {:induction false} GlobChildrenCons(e: Node, tail: seq<Node>, rest: string, h: seq<Value>)
    requires forall x :: x in tail ==> x.c != e.c
    requires h == Hits("", e, [e.c], rest)
    ensures GlobChildren("", [e] + tail, rest) ==
            ((if e.c == '*' then h else []) + GlobChild("", tail, '*', rest)) +
            ((if e.c == '?' then h else []) + GlobChild("", tail, '?', rest)) +
            ((if e.c == '[' then h else []) + GlobChild("", tail, '[', rest))
  {
    GlobChildCons(e, tail, '*', rest);
    GlobChildCons(e, tail, '?', rest);
    GlobChildCons(e, tail, '[', rest);
  }

  lemma {:induction false} ForestHitsCons(e: Node, tail: seq<Node>, rest: string)
    ensures ForestHits("", [e] + tail, [], rest) == Hits("", e, [e.c], rest) + ForestHits("", tail, [], rest)
  {
    assert ([e] + tail)[1..] == tail;
    assert [] + [e.c] == [e.c];
  }

  lemma SplitsCons(e: Node, tail: seq<Node>, rest: string)
    requires forall x :: x in tail ==> x.c != e.c
    requires e.c != '\\'
    requires Splits(tail, rest)
    ensures Splits([e] + tail, rest)
  {
    var h := Hits("", e, [e.c], rest);
    ForestHitsCons(e, tail, rest);
    GlobChildrenCons(e, tail, rest, h);
    LiteralHitsCons(e, tail, rest);
    HeadJoins(e.c, h, ForestHits("", tail, [], rest),
              GlobChild("", tail, '*', rest), GlobChild("", tail, '?', rest), GlobChild("", tail, '[', rest),
              LiteralHits(tail, rest));
  }

  lemma DistinctTail(es: seq<Node>)
    requires es != [] && DistinctEdges(es)
    requires forall e :: e in es ==> e.c != '\\'
    ensures DistinctEdges(es[1..])
    ensures es[0].c != '\\'
    ensures forall x :: x in es[1..] ==> x.c != es[0].c && x.c != '\\'
    ensures es == [es[0]] + es[1..]
  {
    assert es[0] in es;
  }

  /** Whatever edge an entry lies under, it is found under a glob edge or under
      the one literal edge the key follows. */
  lemma {:induction false} ForestSplit(es: seq<Node>, rest: string)
    requires DistinctEdges(es)
    requires forall e :: e in es ==> e.c != '\\'
    ensures Splits(es, rest)
  {
    if es != [] {
      hide *;
      DistinctTail(es);
      ForestSplit(es[1..], rest);
      SplitsCons(es[0], es[1..], rest);
    }
  }

  lemma HeadJoins(c: char, h: seq<Value>, all: seq<Value>,
                  star: seq<Value>, mark: seq<Value>, bracket: seq<Value>, literal: seq<Value>)
    requires multiset(all) == multiset(star + mark + bracket) + multiset(literal)
    ensures multiset(h + all) ==
            multiset(((if c == '*' then h else []) + star) + ((if c == '?' then h else []) + mark) +
                     ((if c == '[' then h else []) + bracket)) +
            multiset((if IsGlob(c) then [] else h) + literal)
  {
  }

  lemma {:induction false} NoBackslashEdges(es: seq<Node>, under: bool)
    requires WellFormedEdges(es, under)
    ensures forall e :: e in es ==> e.c != '\\'
  {
    if es != [] {
      NoBackslashEdges(es[1..], under);
    }
  }

  lemma {:induction false} GlobHeaderUnused(header: string, es: seq<Node>, rest: string, under: bool)
    requires WellFormedEdges(es, under)
    ensures GlobChildren(header, es, rest) == GlobChildren("", es, rest)
  {
    LookupWellFormed(es, '*', under);
    LookupWellFormed(es, '?', under);
    LookupWellFormed(es, '[', under);
    HeaderUnused(header, Lookup(es, '*'), ['*'], rest);
    HeaderUnused(header, Lookup(es, '?'), ['?'], rest);
    HeaderUnused(header, Lookup(es, '['), ['['], rest);
  }

  lemma {:induction false} HitsAfter(n: Node, u: string, w: string, key: string)
    requires n.Node? && Text("", n.prefix) == u + w
    requires forall i :: 0 <= i < |u| ==> !IsGlob(u[i]) && u[i] != '\\'
    ensures Hits("", n, [], key) ==
            if u <= key
            then ForestHits("", n.children, w, key[|u|..]) + (if Matches(w, key[|u|..]) then n.values else [])
            else []
  {
    hide ForestHits;
    hide Matches;
    assert [] + (u + w) == u + w;
    StripPrefix(n.children, n.values, u, w, key);
  }

  lemma {:induction false} LiteralHead(s: string)
    requires NoBackslash(s)
    ensures var k := LiteralLen(s);
            && s == s[..k] + s[k..] && |s[..k]| == k
            && forall i :: 0 <= i < k ==> !IsGlob(s[..k][i]) && s[..k][i] != '\\'
  {
    assert forall i :: 0 <= i < LiteralLen(s) ==> s[..LiteralLen(s)][i] == s[i] && s[i] in s;
  }

  lemma {:induction false} HitsStripped(n: Node, key: string)
    requires n.Node? && WellFormed(n, false)
    ensures var pre := Text("", n.prefix);
            var k := LiteralLen(pre);
            Hits("", n, [], key) ==
            if pre[..k] <= key
            then ForestHits("", n.children, pre[k..], key[k..]) + (if Matches(pre[k..], key[k..]) then n.values else [])
            else []
  {
    var pre := Text("", n.prefix);
    LiteralHead(pre);
    hide *;
    HitsAfter(n, pre[..LiteralLen(pre)], pre[LiteralLen(pre)..], key);
  }

  /** A node whose prefix holds a glob, or does not fit the key, is settled. */
  lemma {:induction false} PrefixStep(header: string, n: Node, key: string)
    requires n.Node? && WellFormed(n, false)
    ensures var pre := Text("", n.prefix);
            var k := LiteralLen(pre);
            if pre[..k] <= key && k == |pre|
            then Hits("", n, [], key) ==
                 ForestHits("", n.children, [], key[k..]) + (if key[k..] == [] then n.values else [])
            else Walk(header, n, key) == Hits("", n, [], key)
  {
    var pre := Text("", n.prefix);
    var k := LiteralLen(pre);
    HitsStripped(n, key);
    hide ForestHits;
    hide Hits;
    if pre[..k] <= key && k < |pre| {
      assert HasGlob(pre);
      ForestHeaderUnused(header, n.children, pre[k..], key[k..]);
    }
  }

  predicate Follows(n: Node, key: string)
    requires n.Node?
  {
    var pre := Text("", n.prefix);
    LiteralLen(pre) == |pre| && pre <= key
  }

  /** At a node the key runs through, both readings add up child by child. */
  lemma {:induction false} NodeStep(header: string, n: Node, key: string)
    requires n.Node? && WellFormed(n, false) && Follows(n, key)
    ensures var rest := key[|Text("", n.prefix)|..];
            && WellFormedEdges(n.children, false)
            && multiset(Hits("", n, [], key)) ==
               multiset(GlobChildren(header, n.children, rest)) + multiset(LiteralHits(n.children, rest)) +
               multiset(if rest == [] then n.values else [])
  {
    var pre := Text("", n.prefix);
    PrefixStep(header, n, key);
    assert pre[..|pre|] == pre;
    assert !HasGlob(pre);
    NoBackslashEdges(n.children, false);
    ForestSplit(n.children, key[|pre|..]);
    GlobHeaderUnused(header, n.children, key[|pre|..], false);
  }

  function Beyond(header: string, n: Node, rest: string): seq<Value>
    requires n.Node?
  {
    if rest == [] || Lookup(n.children, rest[0]).Missing? then []
    else Walk(header, Lookup(n.children, rest[0]), rest[1..])
  }

  lemma {:induction false} WalkStep(header: string, n: Node, key: string)
    requires n.Node? && Follows(n, key)
    ensures var rest := key[|Text("", n.prefix)|..];
            Walk(header, n, key) ==
            GlobChildren(header, n.children, rest) +
            (if rest == [] then n.values else Beyond(header, n, rest))
  {
    var pre := Text("", n.prefix);
    assert pre[..|pre|] == pre;
  }

  lemma {:induction false} LiteralStep(header: string, n: Node, rest: string)
    requires n.Node? && WellFormedEdges(n.children, false)
    requires rest != [] && !IsGlob(rest[0])
    ensures var next := Lookup(n.children, rest[0]);
            if next.Missing? then Beyond(header, n, rest) == LiteralHits(n.children, rest) == []
            else Beyond(header, n, rest) == Walk(header, next, rest[1..]) &&
                 LiteralHits(n.children, rest) == Hits("", next, [], rest[1..])
  {
    LookupWellFormed(n.children, rest[0], false);
  }

  /** For a key without glob characters the walk finds exactly the entries
      whose pattern matches, each as often as it is stored. */
  lemma {:induction false} WalkAgrees(header: string, n: Node, key: string)
    requires WellFormed(n, false)
    requires !HasGlob(key)
    ensures multiset(Walk(header, n, key)) == multiset(Hits("", n, [], key))
    decreases n
  {
    if n.Missing? {
    } else if !Follows(n, key) {
      PrefixStep(header, n, key);
    } else {
      var rest := key[|Text("", n.prefix)|..];
      assert forall i :: 0 <= i < |rest| ==> rest[i] == key[|Text("", n.prefix)| + i];
      assert rest != [] ==> !IsGlob(rest[0]) && !HasGlob(rest[1..]);
      hide Walk;
      hide Hits;
      hide ForestHits;
      hide HasGlob;
      NodeStep(header, n, key);
      WalkStep(header, n, key);
      if rest != [] {
        LookupWellFormed(n.children, rest[0], false);
        LiteralStep(header, n, rest);
        if Lookup(n.children, rest[0]).Node? {
          WalkAgrees(header, Lookup(n.children, rest[0]), rest[1..]);
        }
      }
    }
  }

  // ---- keys that hold glob characters ----

  /** No `[` that the walk can follow as a literal has anything after it. The
      walk never gets past a backslash, since no pattern holds one. */
  predicate Walkable(key: string) {
    key == [] || key[0] == '\\' ||
    if key[0] == '[' then |key| == 1 else Walkable(key[1..])
  }

  lemma {:induction false} WalkableAfter(u: string, key: string)
    requires u <= key && Walkable(key)
    requires forall i :: 0 <= i < |u| ==> !IsGlob(u[i]) && u[i] != '\\'
    ensures Walkable(key[|u|..])
  {
    if u == [] {
      assert key[0..] == key;
    } else {
      assert u[0] == key[0];
      assert u[1..] <= key[1..] && key[1..][|u[1..]|..] == key[|u|..];
      WalkableAfter(u[1..], key[1..]);
    }
  }

  ghost predicate Lifts(c: char, key: string) {
    forall p :: Matches(p, key) ==> Matches([c] + p, [c] + key)
  }

  lemma GlobLifts(c: char, key: string)
    requires c == '*' || c == '?' || (c == '[' && key == [])
    ensures Lifts(c, key)
  {
    forall p | Matches(p, key)
      ensures Matches([c] + p, [c] + key)
    {
      if c == '[' {
        OpenBracketMatchesItself(p);
        assert ['['] + [] == ['['];
      } else {
        GlobMatchesItself(c, p, key);
      }
    }
  }

  /** What matches after a glob character also matches with it in front. */
  lemma {:induction false} HitsLift(n: Node, c: char, path: string, key: string, v: Value)
    requires Lifts(c, key)
    requires v in Hits("", n, path, key)
    ensures v in Hits("", n, [c] + path, [c] + key)
    decreases n, 1
  {
    var q := path + Text("", n.prefix);
    assert ([c] + path) + Text("", n.prefix) == [c] + q;
    if v in ForestHits("", n.children, q, key) {
      ForestHitsLift(n.children, c, q, key, v);
    } else {
      assert Matches(q, key);
    }
  }

  lemma {:induction false} ForestHitsLift(es: seq<Node>, c: char, path: string, key: string, v: Value)
    requires Lifts(c, key)
    requires v in ForestHits("", es, path, key)
    ensures v in ForestHits("", es, [c] + path, [c] + key)
    decreases es, 0
  {
    assert ([c] + path) + [es[0].c] == [c] + (path + [es[0].c]);
    if v in Hits("", es[0], path + [es[0].c], key) {
      HitsLift(es[0], c, path + [es[0].c], key, v);
    } else {
      ForestHitsLift(es[1..], c, path, key, v);
    }
  }

  ghost predicate SameValues(a: seq<Value>, b: seq<Value>) {
    forall v :: v in a <==> v in b
  }

  /** Following a glob character of the key as a literal finds nothing new. */
  lemma {:induction false} GlobEdgeAddsNothing(n: Node, rest: string, v: Value)
    requires n.Node? && rest != [] && IsGlob(rest[0]) && Walkable(rest)
    requires v in Hits("", Lookup(n.children, rest[0]), [], rest[1..])
    ensures v in GlobChildren("", n.children, rest)
  {
    var c := rest[0];
    GlobLifts(c, rest[1..]);
    HitsLift(Lookup(n.children, c), c, [], rest[1..], v);
    assert [c] + [] == [c] && [c] + rest[1..] == rest;
  }

  /** For every walkable key the walk and the linear scan find the same values. */
  lemma {:induction false} WalkFindsTheSame(header: string, n: Node, key: string)
    requires WellFormed(n, false)
    requires Walkable(key)
    ensures SameValues(Walk(header, n, key), Hits("", n, [], key))
    decreases n
  {
    if n.Missing? {
    } else if !Follows(n, key) {
      PrefixStep(header, n, key);
    } else {
      var pre := Text("", n.prefix);
      var rest := key[|pre|..];
      WalkableAfter(pre, key);
      hide Walk;
      hide Hits;
      hide ForestHits;
      hide Walkable;
      NodeStep(header, n, key);
      WalkStep(header, n, key);
      if rest != [] {
        BeyondFindsTheSame(header, n, rest);
      }
      MembersOf(Walk(header, n, key), Hits("", n, [], key), GlobChildren(header, n.children, rest),
                if rest == [] then n.values else Beyond(header, n, rest), LiteralHits(n.children, rest),
                if rest == [] then n.values else []);
    }
  }

  lemma MembersOf(walk: seq<Value>, hits: seq<Value>, glob: seq<Value>, beyond: seq<Value>,
                  literal: seq<Value>, own: seq<Value>)
    requires walk == glob + beyond
    requires multiset(hits) == multiset(glob) + multiset(literal) + multiset(own)
    requires forall v :: v in beyond ==> v in glob || v in literal || v in own
    requires forall v :: v in literal || v in own ==> v in beyond
    ensures SameValues(walk, hits)
  {
    forall v
      ensures v in walk <==> v in hits
    {
      assert v in hits <==> v in multiset(hits);
    }
  }

  lemma {:induction false} BeyondFindsTheSame(header: string, n: Node, rest: string)
    requires n.Node? && WellFormedEdges(n.children, false)
    requires rest != [] && Walkable(rest)
    ensures forall v :: v in Beyond(header, n, rest) ==>
                        v in GlobChildren(header, n.children, rest) || v in LiteralHits(n.children, rest)
    ensures forall v :: v in LiteralHits(n.children, rest) ==> v in Beyond(header, n, rest)
    decreases n, 0
  {
    var c := rest[0];
    LookupWellFormed(n.children, c, false);
    var next := Lookup(n.children, c);
    if next.Node? {
      if IsGlob(c) {
        WellFormedUnder(next);
      }
      WalkFindsTheSame(header, next, rest[1..]);
      if IsGlob(c) {
        GlobHeaderUnused(header, n.children, rest, false);
        forall v | v in Beyond(header, n, rest)
          ensures v in GlobChildren(header, n.children, rest)
        {
          GlobEdgeAddsNothing(n, rest, v);
        }
      }
    }
  }
}

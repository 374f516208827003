/**
 The condition on keys is exact: for every key with a `[` the walk can follow
 as a literal, some well-formed trie holds an entry that the walk collects
 although its pattern does not match the key.
 */
module HwdbTrap {
  import opened Fnmatch
  import opened HwdbTrie
  import opened HwdbAgreement

  const BAIT := Value(" TRAP", "1", 0, 0)

  /** Matches `w` on its own, but reads differently with a `[` in front. */
  function BaitTail(w: string): string
    requires w != []
  {
    (if w[0] == ']' then "[]x]" else "[!]]") + Marks(|w| - 1)
  }

  function BaitPath(key: string): string
    requires !Walkable(key)
  {
    if key[0] == '[' then "[" + BaitTail(key[1..]) else [key[0]] + BaitPath(key[1..])
  }

  function Trap(c: char, key: string): (n: Node)
    requires !Walkable(key)
    ensures n.Node? && n.c == c
    decreases |key|
  {
    var child := if key[0] == '[' then Node('[', Prefix(BaitTail(key[1..])), [], [BAIT])
                 else Trap(key[0], key[1..]);
    Node(c, Prefix(""), [child], [])
  }

  lemma {:induction false} TailMatches(w: string)
    requires w != []
    ensures Matches(BaitTail(w), w)
  {
    var m := Marks(|w| - 1);
    MarksMatch(|w| - 1, w[1..]);
    if w[0] == ']' {
      assert BaitTail(w)[1..] == "]x]" + m;
      assert ("]x]" + m)[1..] == "x]" + m && ("x]" + m)[1..] == "]" + m && ("]" + m)[1..] == m;
      assert Scan("]" + m, w[0], true, false) == Closed(true, m);
      assert Scan("x]" + m, w[0], true, false) == Closed(true, m);
    } else {
      assert BaitTail(w)[1..] == "!]]" + m && BaitTail(w)[2..] == "]]" + m;
      assert ("]]" + m)[1..] == "]" + m && ("]" + m)[1..] == m;
      assert Scan("]]" + m, w[0], false, true) == Closed(false, m);
    }
  }

  lemma {:induction false} XThenBracket(m: string, s: string)
    requires Matches("x]" + m, s)
    ensures |s| >= 2 && Matches(m, s[2..])
  {
    assert "x]" + m == ['x'] + ([']'] + m);
    LiteralFirst('x', [']'] + m, s);
    LiteralFirst(']', m, s[1..]);
    assert s[1..][1..] == s[2..];
  }

  lemma {:induction false} TailWithBracketWhenClose(w: string, s: string)
    requires w != [] && w[0] == ']'
    requires Matches("[" + BaitTail(w), s)
    ensures |s| == |w| + 2 && s[0] == '['
  {
    var m := Marks(|w| - 1);
    var p := "[" + BaitTail(w);
    assert p[1..] == "[]x]" + m;
    assert ("[]x]" + m)[1..] == "]x]" + m && ("]x]" + m)[1..] == "x]" + m;
    assert Scan(p[1..], s[0], false, true) == Closed(s[0] == '[', "x]" + m);
    XThenBracket(m, s[1..]);
    MarksMatch(|w| - 1, s[1..][2..]);
  }

  lemma {:induction false} TailWithBracketOtherwise(w: string, s: string)
    requires w != [] && w[0] != ']'
    requires Matches("[" + BaitTail(w), s)
    ensures |s| == |w| + 1 && s[1] == ']'
  {
    var m := Marks(|w| - 1);
    var p := "[" + BaitTail(w);
    assert p[1..] == "[!]]" + m;
    assert ("[!]]" + m)[1..] == "!]]" + m && ("!]]" + m)[1..] == "]]" + m && ("]]" + m)[1..] == "]" + m;
    var hit := s[0] == '[' || s[0] == '!';
    assert Scan("!]]" + m, s[0], s[0] == '[', false) == Closed(hit, "]" + m);
    assert Scan(p[1..], s[0], false, true) == Closed(hit, "]" + m);
    assert Matches("]" + m, s[1..]);
    assert ("]" + m)[1..] == m;
    MarksMatch(|w| - 1, s[1..][1..]);
  }

  /** The key's part before its first `[`. */
  function Before(key: string): (u: string)
    requires !Walkable(key)
    ensures |u| + 1 < |key| && u == key[..|u|] && key[|u|] == '['
    ensures forall i :: 0 <= i < |u| ==> u[i] != '[' && u[i] != '\\'
  {
    if key[0] == '[' then [] else [key[0]] + Before(key[1..])
  }

  lemma {:induction false} BaitPathIs(key: string)
    requires !Walkable(key)
    ensures BaitPath(key) == Before(key) + ("[" + BaitTail(key[|Before(key)| + 1..]))
  {
    if key[0] == '[' {
      assert Before(key) == [];
    } else {
      BaitPathIs(key[1..]);
      var u := Before(key[1..]);
      assert Before(key) == [key[0]] + u;
      var tail := "[" + BaitTail(key[1..][|u| + 1..]);
      assert key[1..][|u| + 1..] == key[|u| + 2..];
      assert [key[0]] + (u + tail) == ([key[0]] + u) + tail;
    }
  }

  lemma {:induction false} PathMisses(key: string)
    requires !Walkable(key)
    ensures !Matches(BaitPath(key), key)
  {
    if Matches(BaitPath(key), key) {
      var u := Before(key);
      var w := key[|u| + 1..];
      BaitPathIs(key);
      var n := if w[0] == ']' then |w| + 2 else |w| + 1;
      forall t | Matches("[" + BaitTail(w), t)
        ensures |t| == n
      {
        if w[0] == ']' { TailWithBracketWhenClose(w, t); } else { TailWithBracketOtherwise(w, t); }
      }
      TailIsForced(u, "[" + BaitTail(w), n, key);
      var t := key[|key| - n..];
      assert |u| > 0 ==> key[|u| - 1] == u[|u| - 1] != '[';
      assert key[|u| + 1] == w[0];
      if w[0] == ']' { TailWithBracketWhenClose(w, t); } else { TailWithBracketOtherwise(w, t); }
      assert false;
    }
  }

  lemma {:induction false} TrapWellFormed(c: char, key: string, under: bool)
    requires !Walkable(key)
    ensures WellFormed(Trap(c, key), under)
    decreases |key|
  {
    var child := Trap(c, key).children[0];
    assert [child][1..] == [];
    if key[0] == '[' {
      assert NoBackslash(BaitTail(key[1..]));
      assert WellFormed(child, true);
    } else {
      TrapWellFormed(key[0], key[1..], under || IsGlob(key[0]));
    }
  }

  lemma {:induction false} OneChild(c: char, child: Node, path: string, text: string)
    ensures Hits("", Node(c, Prefix(""), [child], []), path, text) == Hits("", child, path + [child.c], text)
  {
    var h := Hits("", child, path + [child.c], text);
    assert path + "" == path;
    assert [child][1..] == [];
    assert ForestHits("", [child], path, text) == h + [] == h;
  }

  lemma {:induction false} LeafHits(leaf: Node, path: string, text: string)
    requires leaf.Node? && leaf.children == [] && leaf.prefix.Prefix?
    requires BAIT in Hits("", leaf, path, text)
    ensures Matches(path + leaf.prefix.text, text)
  {
    assert ForestHits("", leaf.children, path + leaf.prefix.text, text) == [];
  }

  lemma {:induction false} TrapChild(c: char, key: string, path: string, text: string)
    requires !Walkable(key)
    ensures Hits("", Trap(c, key), path, text) ==
            Hits("", if key[0] == '[' then Node('[', Prefix(BaitTail(key[1..])), [], [BAIT])
                     else Trap(key[0], key[1..]), path + [key[0]], text)
  {
    OneChild(c, Trap(c, key).children[0], path, text);
  }

  lemma {:induction false} TrapHits(c: char, key: string, path: string, text: string)
    requires !Walkable(key)
    requires BAIT in Hits("", Trap(c, key), path, text)
    ensures Matches(path + BaitPath(key), text)
    decreases |key|
  {
    hide Hits;
    hide Matches;
    hide Trap;
    TrapChild(c, key, path, text);
    var path' := path + [key[0]];
    if key[0] == '[' {
      LeafHits(Node('[', Prefix(BaitTail(key[1..])), [], [BAIT]), path', text);
      assert path' + BaitTail(key[1..]) == path + BaitPath(key);
    } else {
      TrapHits(key[0], key[1..], path', text);
      assert path' + BaitPath(key[1..]) == path + BaitPath(key);
    }
  }

  lemma {:induction false} TrapWalk(header: string, c: char, key: string)
    requires !Walkable(key)
    ensures BAIT in Walk(header, Trap(c, key), key)
    decreases |key|
  {
    var n := Trap(c, key);
    assert key[0..] == key;
    assert n.children[0].c == key[0];
    assert Lookup(n.children, key[0]) == n.children[0];
    WalkStep(header, n, key);
    if key[0] == '[' {
      TailMatches(key[1..]);
      assert BAIT in Walk(header, n.children[0], key[1..]);
    } else {
      TrapWalk(header, key[0], key[1..]);
    }
  }

  /** The walk agrees with the linear scan on every well-formed trie exactly
      when the key is walkable. */
  lemma WalkableIsExact(header: string, key: string)
    ensures Walkable(key) <==>
            forall n :: WellFormed(n, false) ==> SameValues(Walk(header, n, key), LinearScan(n, key))
  {
    if Walkable(key) {
      forall n | WellFormed(n, false)
        ensures SameValues(Walk(header, n, key), LinearScan(n, key))
      {
        WalkFindsTheSame(header, n, key);
        HitsAreFiltered(n, [], key);
      }
    } else {
      var n := Trap('\0', key);
      TrapWellFormed('\0', key, false);
      TrapWalk(header, '\0', key);
      HitsAreFiltered(n, [], key);
      PathMisses(key);
      assert [] + BaitPath(key) == BaitPath(key);
      if BAIT in LinearScan(n, key) {
        TrapHits('\0', key, [], key);
      }
      assert !SameValues(Walk(header, n, key), LinearScan(n, key));
    }
  }
}

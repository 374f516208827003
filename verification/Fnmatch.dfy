/**
 Shell pattern matching with no flags, as section 2.13 of the POSIX Shell
 Command Language defines it: `*`, `?`, bracket expressions with ranges and
 complement, and backslash escapes. A `[` that no `]` closes is an ordinary
 character. Character classes such as `[:alpha:]` are not part of this model.
 */
module Fnmatch {

  datatype Bracket = Unterminated | Closed(hit: bool, rest: string)

  /** Reads the items of a bracket expression up to its closing `]`; `first` is
      set while a `]` still stands for itself. */
  function Scan(p: string, c: char, hit: bool, first: bool): (r: Bracket)
    ensures r.Closed? ==> |r.rest| < |p|
    decreases |p|
  {
    if p == [] then Unterminated
    else if p[0] == ']' && !first then Closed(hit, p[1..])
    else if |p| >= 3 && p[1] == '-' && p[2] != ']' then Scan(p[3..], c, hit || p[0] <= c <= p[2], false)
    else Scan(p[1..], c, hit || p[0] == c, false)
  }

  predicate Complemented(p: string) {
    p != [] && (p[0] == '!' || p[0] == '^')
  }

  /** Does the whole of `s` match the pattern `p`? */
  predicate Matches(p: string, s: string)
    decreases |p| + |s|
  {
    if p == [] then s == []
    else if p[0] == '*' then Matches(p[1..], s) || (s != [] && Matches(p, s[1..]))
    else if s == [] then false
    else if p[0] == '?' then Matches(p[1..], s[1..])
    else if p[0] == '[' then
      var not := Complemented(p[1..]);
      var b := Scan(p[if not then 2 else 1..], s[0], false, true);
      if b.Closed? then b.hit != not && Matches(b.rest, s[1..])
      else s[0] == '[' && Matches(p[1..], s[1..])
    else if p[0] == '\\' then |p| > 1 && p[1] == s[0] && Matches(p[2..], s[1..])
    else p[0] == s[0] && Matches(p[1..], s[1..])
  }

  predicate IsGlob(c: char) {
    c == '*' || c == '?' || c == '['
  }

  /** A literal first character is matched by itself and by nothing else. */
  lemma {:induction false} LiteralFirst(c: char, p: string, s: string)
    requires !IsGlob(c) && c != '\\'
    ensures Matches([c] + p, s) <==> s != [] && s[0] == c && Matches(p, s[1..])
  {
    assert ([c] + p)[1..] == p;
  }

  /** `*` and `?` also match the characters `*` and `?` themselves. */
  lemma {:induction false} GlobMatchesItself(c: char, p: string, s: string)
    requires c == '*' || c == '?'
    requires Matches(p, s)
    ensures Matches([c] + p, [c] + s)
  {
    assert ([c] + p)[1..] == p && ([c] + s)[1..] == s;
    if c == '*' {
      StarSwallowsNothing(p, s);
      assert Matches([c] + p, s);
    }
  }

  lemma {:induction false} StarSwallowsNothing(p: string, s: string)
    requires Matches(p, s)
    ensures Matches(['*'] + p, s)
  {
    assert (['*'] + p)[1..] == p;
  }

  /** Only a run of stars matches the empty string. */
  lemma {:induction false} EmptyNeedsStars(p: string)
    requires Matches(p, [])
    ensures forall i :: 0 <= i < |p| ==> p[i] == '*'
  {
    if p != [] {
      EmptyNeedsStars(p[1..]);
    }
  }

  lemma {:induction false} StarsNeverClose(p: string, c: char, hit: bool, first: bool)
    requires forall i :: 0 <= i < |p| ==> p[i] == '*'
    ensures Scan(p, c, hit, first).Unterminated?
    decreases |p|
  {
    if p != [] {
      StarsNeverClose(p[1..], c, hit || p[0] == c, false);
    }
  }

  /** A final `[` in the text is matched by an unclosed `[` in the pattern. */
  lemma {:induction false} OpenBracketMatchesItself(p: string)
    requires Matches(p, [])
    ensures Matches(['['] + p, ['['])
  {
    EmptyNeedsStars(p);
    StarsNeverClose(p, '[', false, true);
    assert (['['] + p)[1..] == p;
    assert ['['][1..] == [];
  }

  /** When every text `tail` matches has length `n`, a match of `u + tail`
      gives `tail` exactly the last `n` characters. */
  lemma {:induction false} TailIsForced(u: string, tail: string, n: nat, s: string)
    requires forall i :: 0 <= i < |u| ==> u[i] != '[' && u[i] != '\\'
    requires forall t :: Matches(tail, t) ==> |t| == n
    requires Matches(u + tail, s)
    ensures n <= |s| && Matches(tail, s[|s| - n..])
    decreases |u| + |s|
  {
    if u == [] {
      assert u + tail == tail;
      assert s[|s| - n..] == s;
    } else {
      assert (u + tail)[1..] == u[1..] + tail;
      if u[0] == '*' && Matches(u[1..] + tail, s) {
        TailIsForced(u[1..], tail, n, s);
      } else {
        var u' := if u[0] == '*' then u else u[1..];
        TailIsForced(u', tail, n, s[1..]);
        assert s[1..][|s[1..]| - n..] == s[|s| - n..];
      }
    }
  }

  function Marks(n: nat): (r: string) {
    seq(n, _ => '?')
  }

  lemma {:induction false} MarksMatch(n: nat, s: string)
    ensures Matches(Marks(n), s) <==> |s| == n
    decreases n
  {
    if n > 0 && s != [] {
      assert Marks(n)[1..] == Marks(n - 1);
      MarksMatch(n - 1, s[1..]);
    }
  }
}

/**
 Lines as getline hands them out (without their newline, the last one possibly
 unterminated) and blank-separated words as strtok hands them out.
 */
module TextLines {
  import opened Common

  predicate Free(s: string, c: char) {
    forall i :: 0 <= i < |s| ==> s[i] != c
  }

  /** Index of the first `c`, or the length. */
  function Find(s: string, c: char): (k: nat)
    ensures k <= |s| && Free(s[..k], c)
    ensures k < |s| ==> s[k] == c
  {
    if s == [] || s[0] == c then 0 else 1 + Find(s[1..], c)
  }

  lemma {:induction false} FindIs(a: string, c: char, b: string)
    requires Free(a, c)
    ensures Find(a + [c] + b, c) == |a|
  {
    var s := a + [c] + b;
    if a == [] {
      assert s[0] == c;
    } else {
      assert s[0] == a[0] && s[1..] == a[1..] + [c] + b;
      FindIs(a[1..], c, b);
    }
  }

  lemma {:induction false} FindNone(a: string, c: char)
    requires Free(a, c)
    ensures Find(a, c) == |a|
  {
  }

  function Lines(s: string): seq<string> {
    if s == [] then [] else
      var k := Find(s, '\n');
      [s[..k]] + (if k == |s| then [] else Lines(s[k + 1..]))
  }

  function Joined(lines: seq<string>): string {
    if lines == [] then [] else lines[0] + "\n" + Joined(lines[1..])
  }

  lemma {:induction false} LinesCons(line: string, s: string)
    requires Free(line, '\n')
    ensures Lines(line + "\n" + s) == [line] + Lines(s)
  {
    FindIs(line, '\n', s);
    var t := line + "\n" + s;
    assert t[..|line|] == line && t[|line| + 1..] == s;
  }

  /** Lines printed one per row are read back as they were. */
  lemma {:induction false} LinesJoined(lines: seq<string>)
    requires forall i :: 0 <= i < |lines| ==> Free(lines[i], '\n')
    ensures Lines(Joined(lines)) == lines
  {
    if lines != [] {
      LinesJoined(lines[1..]);
      LinesCons(lines[0], Joined(lines[1..]));
    }
  }

  lemma {:induction false} LastLine(line: string)
    requires line != [] && Free(line, '\n')
    ensures Lines(line) == [line]
  {
    FindNone(line, '\n');
    assert line[..|line|] == line;
  }

  predicate CutAt(lines: seq<string>, k: nat, n: nat, part: string)
    requires k < |Joined(lines)|
  {
    && n < |lines| && part <= lines[n]
    && Lines(Joined(lines)[..k]) == lines[..n] + (if part == [] then [] else [part])
    && (part == lines[n] && n + 1 == |lines| ==> k == |Joined(lines)| - 1)
  }

  lemma {:induction false} CutInFirst(lines: seq<string>, k: nat)
    requires lines != [] && Free(lines[0], '\n') && k <= |lines[0]|
    requires k < |Joined(lines)|
    ensures CutAt(lines, k, 0, lines[0][..k])
  {
    var part := lines[0][..k];
    assert Joined(lines)[..k] == part;
    if part != [] {
      LastLine(part);
    }
  }

  lemma {:induction false} PrefixOfJoined(lines: seq<string>, k: nat)
    requires lines != [] && |lines[0]| < k <= |Joined(lines)|
    ensures |Joined(lines)| == |lines[0]| + 1 + |Joined(lines[1..])|
    ensures Joined(lines)[..k] == lines[0] + "\n" + Joined(lines[1..])[..k - |lines[0]| - 1]
  {
  }

  lemma HeadAndTake(lines: seq<string>, n: nat, tail: seq<string>)
    requires n < |lines|
    ensures [lines[0]] + (lines[1..][..n] + tail) == lines[..n + 1] + tail
  {
  }

  lemma {:induction false} CutLater(lines: seq<string>, k: nat, n: nat, part: string)
    requires lines != [] && Free(lines[0], '\n') && |lines[0]| < k < |Joined(lines)|
    requires |Joined(lines)| == |lines[0]| + 1 + |Joined(lines[1..])|
    requires CutAt(lines[1..], k - |lines[0]| - 1, n, part)
    ensures CutAt(lines, k, n + 1, part)
  {
    hide Lines;
    hide Joined;
    PrefixOfJoined(lines, k);
    LinesCons(lines[0], Joined(lines[1..])[..k - |lines[0]| - 1]);
    HeadAndTake(lines, n, if part == [] then [] else [part]);
  }

  /** A cut anywhere leaves whole lines and then part of the next one. */
  lemma {:induction false} LinesOfPrefix(lines: seq<string>, k: nat) returns (n: nat, part: string)
    requires forall i :: 0 <= i < |lines| ==> Free(lines[i], '\n')
    requires k < |Joined(lines)|
    ensures CutAt(lines, k, n, part)
  {
    if k <= |lines[0]| {
      n, part := 0, lines[0][..k];
      CutInFirst(lines, k);
    } else {
      PrefixOfJoined(lines, k);
      n, part := LinesOfPrefix(lines[1..], k - |lines[0]| - 1);
      CutLater(lines, k, n, part);
      n := n + 1;
    }
  }

  // ---- words ----

  function SkipBlanks(s: string): (r: string)
    ensures |r| <= |s| && (r == [] || r[0] != ' ')
  {
    if s != [] && s[0] == ' ' then SkipBlanks(s[1..]) else s
  }

  function Words(s: string): seq<string>
    decreases |s|
  {
    var t := SkipBlanks(s);
    if t == [] then [] else
      var k := Find(t, ' ');
      [t[..k]] + Words(t[k..])
  }

  predicate IsWord(w: string) {
    w != [] && Free(w, ' ')
  }

  lemma {:induction false} WordsBlank(s: string)
    ensures Words(" " + s) == Words(s)
  {
    assert (" " + s)[1..] == s;
  }

  lemma NoWords()
    ensures Words([]) == []
  {
  }

  lemma {:induction false} AcrossWord(w: string, rest: string, b: string)
    requires IsWord(w) && (rest == [] || rest[0] == ' ') && Words(rest + " " + b) == Words(rest) + Words(b)
    ensures Words(w + rest + " " + b) == Words(w + rest) + Words(b)
  {
    FirstWord(w, rest + " " + b);
    FirstWord(w, rest);
    hide *;
    Regrouped(w, rest, " ");
    Regrouped(w, rest + " ", b);
    Regrouped([w], Words(rest), Words(b));
  }

  /** Words on the two sides of a blank are read independently. */
  lemma {:induction false} WordsAcrossBlank(a: string, b: string)
    ensures Words(a + " " + b) == Words(a) + Words(b)
    decreases |a|
  {
    hide Words;
    if a == [] {
      assert a + " " + b == " " + b;
      WordsBlank(b);
      NoWords();
    } else if a[0] == ' ' {
      assert a + " " + b == " " + (a[1..] + " " + b);
      assert a == " " + a[1..];
      WordsBlank(a[1..] + " " + b);
      WordsBlank(a[1..]);
      WordsAcrossBlank(a[1..], b);
    } else {
      var k := Find(a, ' ');
      WordsAcrossBlank(a[k..], b);
      AcrossWord(a[..k], a[k..], b);
      assert a == a[..k] + a[k..];
    }
  }

  lemma {:induction false} FirstWord(w: string, rest: string)
    requires IsWord(w) && (rest == [] || rest[0] == ' ')
    ensures Words(w + rest) == [w] + Words(rest)
  {
    var s := w + rest;
    assert s[0] == w[0];
    if rest == [] {
      assert s == w;
      FindNone(w, ' ');
    } else {
      assert s == w + [' '] + rest[1..];
      FindIs(w, ' ', rest[1..]);
    }
    assert s[..|w|] == w && s[|w|..] == rest;
  }

  lemma {:induction false} OneWord(w: string)
    requires IsWord(w)
    ensures Words(w) == [w]
  {
    assert w + [] == w;
    FirstWord(w, []);
  }

  /** Each word preceded by one blank, as the writer prints them. */
  function Blanked(words: seq<string>): string {
    if words == [] then [] else " " + words[0] + Blanked(words[1..])
  }

  lemma {:induction false} WordsBlanked(words: seq<string>)
    requires forall i :: 0 <= i < |words| ==> IsWord(words[i])
    ensures Words(Blanked(words)) == words
  {
    if words != [] {
      WordsBlanked(words[1..]);
      assert Blanked(words) == " " + (words[0] + Blanked(words[1..]));
      WordsBlank(words[0] + Blanked(words[1..]));
      FirstWord(words[0], Blanked(words[1..]));
    }
  }
}

/**
 Names of rule links under /dev: their components, the relative target that
 leads from a link back to its device, and the escaping that makes a name one
 directory entry of the claims registry.
 */
module LinkNames {
  import opened TextLines

  // ---- components ----

  function Components(s: string): (r: seq<string>)
    ensures |r| > 0
  {
    var k := Find(s, '/');
    if k == |s| then [s] else [s[..k]] + Components(s[k + 1..])
  }

  /** How deep below /dev the link's directory is. */
  function Depth(name: string): nat {
    |Components(name)| - 1
  }

  predicate Proper(c: string) {
    c != "" && c != "." && c != ".."
  }

  predicate AllProper(cs: seq<string>) {
    cs == [] || (Proper(cs[0]) && AllProper(cs[1..]))
  }

  /** A name that cannot lead out of /dev. */
  predicate NameOk(name: string) {
    AllProper(Components(name))
  }

  lemma {:induction false} FindSkip(s: string, p: nat, i: nat)
    requires p <= i <= |s| && Free(s[p..i], '/')
    ensures Find(s[p..], '/') == i - p + Find(s[i..], '/')
    decreases i - p
  {
    if p < i {
      assert s[p..][1..] == s[p + 1..] && s[p..i][0] == s[p];
      assert Free(s[p + 1..i], '/') by {
        assert s[p + 1..i] == s[p..i][1..];
      }
      FindSkip(s, p + 1, i);
    }
  }

  lemma {:induction false} ComponentsCons(s: string, k: nat)
    requires k < |s| && Find(s, '/') == k
    ensures Components(s) == [s[..k]] + Components(s[k + 1..])
  {
  }

  lemma {:induction false} ComponentsEnd(s: string)
    requires Find(s, '/') == |s|
    ensures Components(s) == [s]
  {
  }

  /** One step of the walk over a name's components. */
  lemma StepAt(name: string, p: nat, end: nat)
    requires p <= end <= |name| && Free(name[p..end], '/') && (end < |name| ==> name[end] == '/')
    ensures NameOk(name[p..]) <==> Proper(name[p..end]) && (end == |name| || NameOk(name[end + 1..]))
  {
    hide Components;
    hide Proper;
    FindSkip(name, p, end);
    var s, c := name[p..], name[p..end];
    if end == |name| {
      assert s == c;
      ComponentsEnd(s);
      assert [c][1..] == [] && AllProper([]);
      assert Find(name[end..], '/') == 0;
    } else {
      ComponentsCons(s, end - p);
      assert s[..end - p] == c && s[end - p + 1..] == name[end + 1..];
      assert ([c] + Components(name[end + 1..]))[1..] == Components(name[end + 1..]);
    }
  }

  method NextSlash(name: string, p: nat) returns (end: nat)
    requires p <= |name|
    ensures p <= end <= |name| && Free(name[p..end], '/') && (end < |name| ==> name[end] == '/')
  {
    end := p;
    while end < |name| && name[end] != '/'
      invariant p <= end <= |name| && Free(name[p..end], '/')
    {
      assert name[p..end + 1] == name[p..end] + [name[end]];
      end := end + 1;
    }
  }

  lemma ProperIs(c: string)
    ensures Proper(c) <==> !(|c| == 0 || (|c| == 1 && c[0] == '.') || (|c| == 2 && c[0] == '.' && c[1] == '.'))
  {
  }

  method NameOkLoop(name: string) returns (ok: bool)
    ensures ok <==> NameOk(name)
  {
    if |name| == 0 || name[0] == '/' {
      assert name[0..0] == "" && name[0..] == name;
      StepAt(name, 0, 0);
      return false;
    }
    hide NameOk;
    hide Proper;
    var p := 0;
    assert name[0..] == name;
    while true
      invariant p <= |name| && (NameOk(name) <==> NameOk(name[p..]))
      decreases |name| - p
    {
      var end := NextSlash(name, p);
      StepAt(name, p, end);
      ProperIs(name[p..end]);
      var l := end - p;
      if l == 0 || (l == 1 && name[p] == '.') || (l == 2 && name[p] == '.' && name[p + 1] == '.') {
        return false;
      }
      if end == |name| {
        return true;
      }
      p := end + 1;
    }
  }

  // ---- relative targets ----

  function Ups(k: nat): string {
    if k == 0 then "" else "../" + Ups(k - 1)
  }

  function Target(name: string, devname: string): string {
    Ups(Depth(name)) + devname
  }

  /** Following path components from a directory. */
  function Follow(base: seq<string>, path: seq<string>): seq<string>
    decreases |path|
  {
    if path == [] then base
    else Follow(if path[0] == ".." then (if base == [] then [] else base[..|base| - 1]) else base + [path[0]], path[1..])
  }

  lemma {:induction false} FollowPlain(base: seq<string>, path: seq<string>)
    requires ".." !in path
    ensures Follow(base, path) == base + path
    decreases |path|
  {
    if path != [] {
      FollowPlain(base + [path[0]], path[1..]);
      assert base + [path[0]] + path[1..] == base + path;
    } else {
      assert base + [] == base;
    }
  }

  lemma {:induction false} UpFirst(rest: string)
    ensures Components("../" + rest) == [".."] + Components(rest)
  {
    var whole := "../" + rest;
    assert whole == ".." + ['/'] + rest;
    FindIs("..", '/', rest);
    ComponentsCons(whole, 2);
    assert whole[..2] == ".." && whole[3..] == rest;
  }

  lemma {:induction false} FollowUps(base: seq<string>, devname: string)
    ensures Follow(base, Components(Ups(|base|) + devname)) == Follow([], Components(devname))
    decreases |base|
  {
    var k := |base|;
    if k == 0 {
      assert Ups(0) + devname == devname;
    } else {
      var rest := Ups(k - 1) + devname;
      assert Ups(k) + devname == "../" + rest;
      UpFirst(rest);
      hide Components;
      hide Ups;
      FollowUps(base[..k - 1], devname);
      assert ([".."] + Components(rest))[1..] == Components(rest);
    }
  }

  /** From the directory a link is in, its target leads to the device. */
  lemma {:induction false} TargetLeadsToDevice(name: string, devname: string)
    requires ".." !in Components(devname)
    ensures Follow(Components(name)[..Depth(name)], Components(Target(name, devname))) == Components(devname)
  {
    FollowUps(Components(name)[..Depth(name)], devname);
    FollowPlain([], Components(devname));
  }

  lemma TargetInjective(name: string, a: string, b: string)
    requires Target(name, a) == Target(name, b)
    ensures a == b
  {
    var u := Ups(Depth(name));
    assert (u + a)[|u|..] == a && (u + b)[|u|..] == b;
  }

  lemma DepthStep(s: string)
    requires s != ""
    ensures Depth(s) == (if s[0] == '/' then 1 else 0) + Depth(s[1..])
  {
    if s[0] == '/' {
    } else {
      assert Free([s[0]], '/');
      var k := Find(s[1..], '/');
      if k < |s| - 1 {
        assert s[1..][k + 1..] == s[k + 2..];
      }
    }
  }

  lemma {:induction false} UpsAdd(k: nat)
    ensures Ups(k) + "../" == Ups(k + 1)
  {
    if k > 0 {
      UpsAdd(k - 1);
      assert "../" + Ups(k - 1) + "../" == "../" + (Ups(k - 1) + "../");
    }
  }

  method TargetLoop(name: string, devname: string) returns (r: string)
    ensures r == Target(name, devname)
  {
    r := "";
    ghost var k := 0;
    assert name[0..] == name;
    for p := 0 to |name|
      invariant r == Ups(k) && k + Depth(name[p..]) == Depth(name)
    {
      DepthStep(name[p..]);
      assert name[p..][1..] == name[p + 1..];
      if name[p] != '/' { continue; }
      UpsAdd(k);
      r := r + "../";
      k := k + 1;
    }
    r := r + devname;
  }

  // ---- escaping ----

  const ESC := "\\x2f"

  function Escape(name: string): string {
    if name == "" then "" else (if name[0] == '/' then ESC else [name[0]]) + Escape(name[1..])
  }

  function Unescape(s: string): string {
    if s == "" then ""
    else if ESC <= s then "/" + Unescape(s[4..])
    else [s[0]] + Unescape(s[1..])
  }

  /** The escape sequence itself occurs nowhere in the name. */
  predicate NoLiteral(name: string) {
    name == "" || (!(ESC <= name) && NoLiteral(name[1..]))
  }

  /** Text without slash or backslash stands at the front of an escaped name
      exactly when it stands at the front of the name. */
  lemma {:induction false} FrontText(w: string, name: string)
    requires Free(w, '/') && Free(w, '\\')
    ensures w <= Escape(name) <==> w <= name
    ensures w <= name ==> Escape(name)[|w|..] == Escape(name[|w|..])
    decreases |w|
  {
    if w == "" {
    } else if name != "" && name[0] != '/' {
      assert Escape(name)[1..] == Escape(name[1..]);
      FrontText(w[1..], name[1..]);
      FrontCons(w, Escape(name));
      FrontCons(w, name);
      if w <= name {
        assert name[1..][|w| - 1..] == name[|w|..];
        assert Escape(name)[1..][|w| - 1..] == Escape(name)[|w|..];
      }
    } else if name != "" {
      assert Escape(name)[0] == ESC[0] == '\\';
      FrontCons(w, Escape(name));
      FrontCons(w, name);
      assert w[0] in w;
    }
  }

  lemma FrontCons(w: string, s: string)
    requires w != ""
    ensures w <= s <==> s != "" && s[0] == w[0] && w[1..] <= s[1..]
  {
    if s != "" && s[0] == w[0] && w[1..] <= s[1..] {
      assert forall i :: 1 <= i < |w| ==> w[i] == w[1..][i - 1] && s[i] == s[1..][i - 1];
      assert w == s[..|w|];
    }
  }

  /** Escaping puts the sequence at the front only out of a slash or out of the
      sequence itself. */
  lemma {:induction false} EscapeFront(name: string)
    requires name != "" && name[0] != '/'
    ensures ESC <= Escape(name) <==> ESC <= name
    ensures ESC <= name ==> Escape(name)[4..] == Escape(name[4..])
  {
    var w := "x2f";
    assert ESC[1..] == w && Escape(name)[1..] == Escape(name[1..]);
    FrontText(w, name[1..]);
    FrontCons(ESC, Escape(name));
    FrontCons(ESC, name);
    if ESC <= name {
      assert name[1..][3..] == name[4..];
      assert Escape(name)[1..][3..] == Escape(name)[4..];
    }
  }

  lemma {:induction false} UnescapeShorter(name: string)
    ensures |Unescape(Escape(name))| <= |name|
    decreases |name|
  {
    if name == "" {
    } else if name[0] == '/' {
      assert Escape(name)[4..] == Escape(name[1..]);
      UnescapeShorter(name[1..]);
    } else {
      EscapeFront(name);
      if ESC <= name {
        UnescapeShorter(name[4..]);
      } else {
        assert Escape(name)[1..] == Escape(name[1..]);
        UnescapeShorter(name[1..]);
      }
    }
  }

  /** A registry entry gives back the name it was made from exactly when the
      name is free of the escape sequence. */
  lemma {:induction false} EscapeRoundTrip(name: string)
    ensures Unescape(Escape(name)) == name <==> NoLiteral(name)
    decreases |name|
  {
    if name == "" {
    } else {
      if name[0] == '/' {
        assert Escape(name)[4..] == Escape(name[1..]);
        EscapeRoundTrip(name[1..]);
        assert "/" + name[1..] == name;
        SameTail('/', Unescape(Escape(name[1..])), name[1..]);
      } else {
        EscapeFront(name);
        if ESC <= name {
          UnescapeShorter(name[4..]);
        } else {
          assert Escape(name)[1..] == Escape(name[1..]);
          EscapeRoundTrip(name[1..]);
          assert [name[0]] + name[1..] == name;
          SameTail(name[0], Unescape(Escape(name[1..])), name[1..]);
        }
      }
    }
  }

  lemma SameTail(c: char, a: string, b: string)
    ensures [c] + a == [c] + b <==> a == b
  {
    assert ([c] + a)[1..] == a && ([c] + b)[1..] == b;
  }

  lemma {:induction false} EscapeInjective(a: string, b: string)
    requires NoLiteral(a) && NoLiteral(b) && Escape(a) == Escape(b)
    ensures a == b
  {
    EscapeRoundTrip(a);
    EscapeRoundTrip(b);
  }

  lemma {:induction false} EscapeFree(name: string)
    ensures Free(Escape(name), '/')
  {
    if name != "" {
      EscapeFree(name[1..]);
    }
  }

  /** An entry without a slash is the escaped form of what it stands for, which
      is free of the escape sequence. */
  lemma {:induction false} EscapeUnescape(e: string)
    requires Free(e, '/')
    ensures Escape(Unescape(e)) == e
  {
    if e != "" {
      if ESC <= e {
        EscapeUnescape(e[4..]);
        assert Unescape(e) == "/" + Unescape(e[4..]);
        assert (("/" + Unescape(e[4..]))[1..]) == Unescape(e[4..]);
        assert e == ESC + e[4..];
      } else {
        EscapeUnescape(e[1..]);
        assert Unescape(e) == [e[0]] + Unescape(e[1..]);
        assert ([e[0]] + Unescape(e[1..]))[1..] == Unescape(e[1..]);
        assert e == [e[0]] + e[1..];
      }
    }
  }

  lemma {:induction false} UnescapedIsPlain(e: string)
    requires Escape(Unescape(e)) == e
    ensures NoLiteral(Unescape(e))
  {
    EscapeRoundTrip(Unescape(e));
  }

  /** Escaping never makes or hides a leading dot. */
  lemma {:induction false} EscapeDot(name: string)
    ensures (Escape(name) != "" && Escape(name)[0] == '.') <==> (name != "" && name[0] == '.')
  {
  }

  method EscapeLoop(name: string) returns (r: string)
    ensures r == Escape(name)
  {
    r := "";
    assert name[0..] == name;
    for p := 0 to |name|
      invariant r + Escape(name[p..]) == Escape(name)
    {
      assert name[p..][1..] == name[p + 1..];
      ghost var was := r;
      if name[p] == '/' { r := r + ESC; } else { r := r + [name[p]]; }
      assert r + Escape(name[p + 1..]) == was + Escape(name[p..]);
    }
    assert r + "" == r;
  }

  lemma FrontAt(s: string, p: nat)
    requires p <= |s|
    ensures ESC <= s[p..] <==> p + 4 <= |s| && s[p..p + 4] == ESC
  {
    if p + 4 <= |s| {
      assert s[p..][..4] == s[p..p + 4];
    }
  }

  method UnescapeLoop(s: string) returns (r: string)
    ensures r == Unescape(s)
  {
    r := "";
    var p := 0;
    assert s[0..] == s;
    while p < |s|
      invariant p <= |s| && r + Unescape(s[p..]) == Unescape(s)
    {
      ghost var was := r;
      FrontAt(s, p);
      if p + 4 <= |s| && s[p..p + 4] == ESC {
        assert s[p..][4..] == s[p + 4..];
        r := r + "/";
        assert r + Unescape(s[p + 4..]) == was + Unescape(s[p..]);
        p := p + 4;
      } else {
        assert s[p..][1..] == s[p + 1..];
        r := r + [s[p]];
        assert r + Unescape(s[p + 1..]) == was + Unescape(s[p..]);
        p := p + 1;
      }
    }
    assert r + "" == r;
  }
}

/**
 The registry object: a device's update withdraws the names it no longer claims,
 claims the names it lists, and resolves every name it touched.
 */
module DeviceRegistry {
  import opened Common
  import opened LinkNames
  import opened TextLines
  import opened DeviceLinks

  class Registry {
    var claims: Claims
    var links: Links
    ghost var asked: map<string, Ask>
    ghost var made: Made
    ghost var shared: set<string>

    ghost predicate Valid()
      reads this
    {
      Sound(claims, links, shared) && Reflects(claims, asked, made, shared) && EscapedStay(links, made)
    }

    constructor ()
      ensures Valid() && claims == map[] && links == map[] && asked == map[] && made == map[] && shared == {}
    {
      claims, links, asked, made, shared := map[], map[], map[], map[], {};
    }

    /** Points the link of a name at the winner among its claims, or drops link
        and entry. A holder that ties for the highest priority keeps the link. */
    method Resolve(name: string)
      requires SoundBut(claims, links, shared, name)
      modifies this`claims, this`links
      ensures Sound(claims, links, shared) && Resolved(old(claims), old(links), name, claims, links)
      ensures var cs, cur := ClaimsOn(old(claims), name), if name in old(links) then old(links)[name] else "";
              cs != map[] ==> name in links && WonBy(name, cur, cs, links[name])
      ensures name in old(links) && AtTop(ClaimsOn(old(claims), name), name, old(links)[name]) ==> links == old(links)
    {
      hide SoundBut;
      hide Sound;
      hide Best;
      hide AtTop;
      hide Escape;
      hide Target;
      hide WonBy;
      var e := EscapeLoop(name);
      var cs := if e in claims then claims[e] else map[];
      var cur := if name in links then links[name] else "";
      var best := Winner(name, cur, cs);
      ghost var was := links;
      if best.Some? {
        BestMeaning(name, cur, cs, best.value);
        var target := TargetLoop(name, best.value.devname);
        assert WonBy(name, cur, cs, target) by { Won(name, cur, cs, best.value); }
        links := links[name := target];
      } else {
        claims := claims - {e};
        links := links - {name};
      }
      ResolvedSound(old(claims), was, shared, name, claims, links);
      hide Resolved;
      if name in was && AtTop(cs, name, was[name]) {
        NoneAtTop(cs, name, was[name]);
        assert links == was;
      }
    }

    /** Removes one device's claim from one entry, if it has one. */
    method Withdraw(e: string, d: string)
      requires Sound(claims, links, shared) && Entry(e)
      modifies this`claims, this`links
      ensures Sound(claims, links, shared)
      ensures forall f, x :: ClaimAt(claims, f, x) == if f == e && x == d then None else ClaimAt(old(claims), f, x)
      ensures forall n :: !NoLiteral(n) ==> (n in links <==> n in old(links))
    {
      hide Sound;
      hide SoundBut;
      hide NoLiteral;
      hide NameOk;
      hide Settled;
      var name := UnescapeLoop(e);
      if e !in claims || d !in claims[e] { return; }
      UnescapedIsPlain(e);
      OthersSettled(claims, links, shared, e, claims[e] - {d}, name);
      claims := claims[e := claims[e] - {d}];
      var ok := NameOkLoop(name);
      if ok {
        ghost var was, wasLinks := claims, links;
        Resolve(name);
        ResolvedClaims(was, wasLinks, name, claims, links);
      } else {
        NoSuchName(claims, links, shared, name);
      }
    }

    method AddClaim(name: string, d: string, c: Claim)
      requires Sound(claims, links, shared) && NameOk(name) && (NoLiteral(name) || Escape(name) in shared)
      modifies this`claims, this`links
      ensures Sound(claims, links, shared) && name in links && Settled(claims, links, name)
      ensures forall f, x :: ClaimAt(claims, f, x) ==
                if f == Escape(name) && x == d then Some(c) else ClaimAt(old(claims), f, x)
      ensures forall n :: n != name ==> (n in links <==> n in old(links))
      ensures forall n :: Settled(old(claims), old(links), n) && ClaimAt(old(claims), Escape(n), d) == Some(c) ==>
                Settled(claims, links, n)
    {
      hide Sound;
      hide SoundBut;
      hide NameOk;
      hide NoLiteral;
      hide AtTop;
      hide Escape;
      var e := EscapeLoop(name);
      EscapeIsEntry(name);
      if NoLiteral(name) {
        EntryIsOf(name, e);
      }
      var cs := (if e in claims then claims[e] else map[])[d := c];
      OthersSettled(claims, links, shared, e, cs, name);
      claims := claims[e := cs];
      ghost var was, wasLinks := claims, links;
      Resolve(name);
      ResolvedClaims(was, wasLinks, name, claims, links);
      assert d in ClaimsOn(was, name);
      hide Resolved;
      hide Settled;
      forall n | Settled(old(claims), old(links), n) && ClaimAt(old(claims), Escape(n), d) == Some(c)
        ensures Settled(claims, links, n)
      {
        SettledBefore(old(claims), wasLinks, name, d, c, n);
        ResolvedSettled(was, wasLinks, name, claims, links, n);
      }
    }

    /** Withdraws the names a device claimed before and does not list now,
        reading the registry's entries in any order. */
    method WithdrawUnlisted(d: string, names: seq<string>)
      requires Sound(claims, links, shared)
      modifies this`claims, this`links
      ensures Sound(claims, links, shared)
      ensures forall e, x :: ClaimAt(claims, e, x) ==
                if x == d && !Dot(e) && Unescape(e) !in names then None else ClaimAt(old(claims), e, x)
      ensures forall n :: !NoLiteral(n) ==> (n in links <==> n in old(links))
    {
      var unread := claims.Keys;
      assert forall e :: e in unread ==> Entry(e);
      hide Sound;
      hide Entry;
      hide NoLiteral;
      while unread != {}
        invariant Sound(claims, links, shared) && forall e :: e in unread ==> Entry(e)
        invariant forall e, x :: ClaimAt(claims, e, x) ==
                    if x == d && !Dot(e) && Unescape(e) !in names && e !in unread then None
                    else ClaimAt(old(claims), e, x)
        invariant forall n :: !NoLiteral(n) ==> (n in links <==> n in old(links))
        decreases |unread|
      {
        var e :| e in unread;
        unread := unread - {e};
        var name := UnescapeLoop(e);
        var hidden := |e| > 0 && e[0] == '.';
        var kept := name in names;
        if !hidden && !kept {
          Withdraw(e, d);
        }
      }
    }

    method ClaimListed(d: string, devname: string, prio: int, names: seq<string>)
      requires Sound(claims, links, shared)
      requires forall n :: n in names && NameOk(n) ==> NoLiteral(n) || Escape(n) in shared
      modifies this`claims, this`links
      ensures Sound(claims, links, shared)
      ensures forall e, x :: ClaimAt(claims, e, x) ==
                if x == d && Listed(SetOf(names), e) then Some(Claim(prio, devname)) else ClaimAt(old(claims), e, x)
      ensures forall n :: !NoLiteral(n) ==> (n in links <==> n in old(links) || (n in names && NameOk(n)))
      ensures forall n :: n in names && NameOk(n) ==> Settled(claims, links, n)
    {
      hide Sound;
      hide ClaimAt;
      hide NameOk;
      hide NoLiteral;
      hide Escape;
      hide Settled;
      var c := Claim(prio, devname);
      ghost var was := claims;
      assert names[..0] == [];
      for j := 0 to |names|
        invariant Sound(claims, links, shared)
        invariant ClaimsAfter(was, claims, d, c, SetOf(names[..j]))
        invariant forall n :: !NoLiteral(n) ==> (n in links <==> n in old(links) || (n in names[..j] && NameOk(n)))
        invariant forall n :: n in names[..j] && NameOk(n) ==> Settled(claims, links, n)
      {
        assert names[..j + 1] == names[..j] + [names[j]];
        assert names[j] in names;
        var ok := NameOkLoop(names[j]);
        ghost var now := claims;
        if ok {
          assert forall n :: n in names[..j] && NameOk(n) ==> ClaimAt(claims, Escape(n), d) == Some(c) by {
            ClaimedBefore(was, claims, d, c, names[..j]);
          }
          AddClaim(names[j], d, c);
        }
        OneMore(was, now, claims, d, c, names[..j], names[j], ok);
      }
      assert names[..|names|] == names;
    }

    /** One device's update. An empty list withdraws everything it claimed. */
    method Update(d: string, devname: string, prio: int, names: seq<string>)
      requires Valid()
      modifies this
      ensures Valid()
      ensures d == "" ==> claims == old(claims) && links == old(links) && asked == old(asked) && made == old(made)
      ensures d != "" ==> asked == AskedAfter(old(asked), d, devname, prio, SetOf(names))
      ensures d != "" ==> made == MadeAfter(old(made), d, devname, prio, SetOf(names))
      ensures shared == old(shared) + if d == "" then {} else SharedBy(devname, SetOf(names))
      ensures forall e, x | d != "" :: ClaimAt(claims, e, x) ==
                NextClaim(ClaimAt(old(claims), e, x), e, x == d, devname, prio, SetOf(names))
      ensures d != "" && devname != "" ==> forall n :: n in names && NameOk(n) ==> Settled(claims, links, n)
    {
      if d == "" { return; }
      hide ClaimAt;
      hide Sound;
      hide Settled;
      hide Reflects;
      hide EscapedStay;
      hide NoLiteral;
      hide NameOk;
      hide Escape;
      hide Unescape;
      hide Listed;
      ghost var listed := SetOf(names);
      WithdrawUnlisted(d, names);
      ghost var more := SharedBy(devname, listed);
      SoundMore(claims, links, shared, more);
      shared := shared + more;
      if devname != "" {
        ClaimListed(d, devname, prio, names);
      }
      ReflectsAfter(old(claims), claims, asked, made, old(shared), d, devname, prio, listed);
      EscapedStayAfter(old(links), links, made, d, devname, prio, listed);
      asked := AskedAfter(asked, d, devname, prio, listed);
      made := MadeAfter(made, d, devname, prio, listed);
    }
  }

  function SetOf(names: seq<string>): set<string> {
    set n | n in names
  }

  lemma SoundMore(claims: Claims, links: Links, shared: set<string>, more: set<string>)
    requires Sound(claims, links, shared)
    ensures Sound(claims, links, shared + more)
  {
    hide Settled;
    hide Clean;
  }

  /** The claims after the good names in `done` have been claimed. */
  ghost predicate ClaimsAfter(was: Claims, now: Claims, d: string, c: Claim, done: set<string>) {
    forall e, x :: ClaimAt(now, e, x) == if x == d && Listed(done, e) then Some(c) else ClaimAt(was, e, x)
  }

  lemma ClaimedBefore(was: Claims, now: Claims, d: string, c: Claim, done: seq<string>)
    requires ClaimsAfter(was, now, d, c, SetOf(done))
    ensures forall n :: n in done && NameOk(n) ==> ClaimAt(now, Escape(n), d) == Some(c)
  {
    hide ClaimAt;
    hide NameOk;
    forall n | n in done && NameOk(n)
      ensures ClaimAt(now, Escape(n), d) == Some(c)
    {
      assert n in SetOf(done) && Names(n, Escape(n));
    }
  }

  lemma {:induction false} OneMore(was: Claims, now: Claims, next: Claims, d: string, c: Claim, done: seq<string>,
                                   name: string, ok: bool)
    requires ClaimsAfter(was, now, d, c, SetOf(done)) && (ok <==> NameOk(name))
    requires if ok then forall e, x :: ClaimAt(next, e, x) ==
                          if e == Escape(name) && x == d then Some(c) else ClaimAt(now, e, x)
             else next == now
    ensures ClaimsAfter(was, next, d, c, SetOf(done + [name]))
  {
    hide ClaimAt;
    hide NameOk;
    hide Escape;
    forall e
      ensures Listed(SetOf(done + [name]), e) <==> Listed(SetOf(done), e) || Names(name, e)
    {
      if Listed(SetOf(done), e) {
        var n :| n in SetOf(done) && Names(n, e);
        assert n in SetOf(done + [name]);
      }
      if Names(name, e) {
        assert name in SetOf(done + [name]);
      }
    }
  }

  /** Claiming once more what is claimed already unsettles nothing. */
  lemma {:induction false} SettledBefore(claims: Claims, links: Links, name: string, d: string, c: Claim, n: string)
    requires Settled(claims, links, n) && ClaimAt(claims, Escape(n), d) == Some(c)
    ensures Settled(claims[Escape(name) := ClaimsOn(claims, name)[d := c]], links, n)
  {
    hide Escape;
    hide AtTop;
    assert Escape(n) == Escape(name) ==> ClaimsOn(claims, name)[d := c] == ClaimsOn(claims, n);
  }

  lemma NoSuchName(claims: Claims, links: Links, shared: set<string>, name: string)
    requires SoundBut(claims, links, shared, name) && !NameOk(name)
    ensures Sound(claims, links, shared)
  {
  }

  lemma Won(name: string, cur: string, cs: map<string, Claim>, b: Claim)
    requires Best(name, cur, cs.Values, b)
    ensures WonBy(name, cur, cs, Target(name, b.devname))
  {
  }

  lemma NoneAtTop(cs: map<string, Claim>, name: string, target: string)
    requires AtTop(cs, name, target)
    ensures cs != map[]
  {
  }

  // ---- names that are never withdrawn, and one that misleads ----

  /** Any clean name that starts with a dot is accepted, claimed and linked, and
      stays linked after its only device has withdrawn it. */
  method DotNameStays(name: string) returns (r: Registry)
    requires Clean(name) && Dot(name)
    ensures fresh(r) && r.Valid() && name in r.links
    ensures forall d :: d in r.asked ==> name !in r.asked[d].names
  {
    hide ClaimAt;
    hide NextClaim;
    hide NameOk;
    hide NoLiteral;
    hide Escape;
    r := new Registry();
    r.Update("b8:0", "sda", 0, [name]);
    assert SetOf([name]) == {name} && SetOf([]) == {};
    r.Update("b8:0", "", 0, []);
    assert name in r.made["b8:0"];
    assert Own(name, r.shared);
    DotLinksStay(r.claims, r.links, r.asked, r.made, r.shared, name);
  }

  lemma DotX()
    ensures Clean(".x") && Dot(".x")
  {
    var s: string := ".x";
    assert s[1..] == "x" && s[1..][1..] == "";
    assert NoLiteral(s[1..]);
    StepAt(s, 0, 2);
    assert s[0..] == s && s[0..2] == s;
    ProperIs(s);
  }

  /** Whenever two good names share an entry, the link of one can be made to
      lead to a device that only ever asked for the other. */
  method SharedNameMisleads(name: string, other: string) returns (r: Registry)
    requires NameOk(name) && NameOk(other) && name != other && Escape(name) == Escape(other)
    ensures fresh(r) && r.Valid() && name in r.links && r.links[name] == Target(name, "sda")
    ensures forall d :: d in r.asked && r.asked[d].devname == "sda" ==> r.asked[d].names == {other}
  {
    hide ClaimAt;
    hide Escape;
    hide Unescape;
    hide NameOk;
    hide Sound;
    hide Reflects;
    hide EscapedStay;
    hide MadeAfter;
    hide SharedBy;
    hide Settled;
    r := new Registry();
    ghost var e := Escape(name);
    Unclaimed(e);
    r.Update("b8:0", "sda", 5, [other]);
    assert SetOf([other]) == {other} && SetOf([name]) == {name};
    OneListed(other, e);
    OneListed(name, e);
    assert forall x :: ClaimAt(r.claims, e, x) == if x == "b8:0" then Some(Claim(5, "sda")) else None;
    r.Update("b8:16", "sdb", 0, [name]);
    assert name in [name];
    SdaOnTop(r.claims, r.links, name);
  }

  lemma {:induction false} OneListed(name: string, e: string)
    requires NameOk(name) && Escape(name) == e
    ensures Listed({name}, e)
  {
    assert Names(name, e);
  }

  lemma Unclaimed(e: string)
    ensures forall x :: ClaimAt(map[], e, x) == None
  {
  }

  lemma {:induction false} SdaOnTop(claims: Claims, links: Links, name: string)
    requires Settled(claims, links, name)
    requires forall x :: ClaimAt(claims, Escape(name), x) ==
               if x == "b8:16" then Some(Claim(0, "sdb")) else if x == "b8:0" then Some(Claim(5, "sda")) else None
    ensures name in links && links[name] == Target(name, "sda")
  {
    hide Escape;
    hide Target;
    assert ClaimAt(claims, Escape(name), "b8:0") == Some(Claim(5, "sda"));
    var cs := ClaimsOn(claims, name);
    var d :| d in cs && Top(cs, d) && links[name] == Target(name, cs[d].devname);
    assert ClaimAt(claims, Escape(name), d) == Some(cs[d]);
  }

  /** Any good name with the escape sequence in it shares its entry with the name
      the entry stands for. */
  lemma {:induction false} EscapedIsShared(name: string)
    requires !NoLiteral(name)
    ensures Unescape(Escape(name)) != name && Escape(Unescape(Escape(name))) == Escape(name)
  {
    EscapeRoundTrip(name);
    EscapeIsEntry(name);
  }

  /** Such a pair. */
  lemma SharedPair()
    ensures var n, m: string := "a/b", "a\\x2fb"; NameOk(n) && NameOk(m) && n != m && Escape(n) == Escape(m)
  {
    var n, m: string := "a/b", "a\\x2fb";
    OneComponent(m);
    SlashFree(m);
    AB(n, "b");
  }

  lemma {:induction false} AB(n: string, b: string)
    requires n == "a/" + b && Free(b, '/') && Proper(b)
    ensures NameOk(n) && Escape(n) == "a" + (ESC + b)
  {
    hide Escape;
    StepAt(n, 0, 1);
    assert n[0..1] == "a" && n[0..] == n && n[2..] == b;
    ProperIs("a");
    OneComponent(b);
    assert Escape(n) == "a" + (ESC + Escape(b)) by { EscapeAB(n, b); }
    SlashFree(b);
  }

  lemma {:induction false} EscapeAB(n: string, b: string)
    requires n == "a/" + b
    ensures Escape(n) == "a" + (ESC + Escape(b))
  {
    assert n[1..] == "/" + b && n[1..][1..] == b;
  }

  lemma OneComponent(name: string)
    requires Free(name, '/') && Proper(name)
    ensures NameOk(name)
  {
    StepAt(name, 0, |name|);
    assert name[0..|name|] == name && name[0..] == name;
  }

  lemma {:induction false} SlashFree(name: string)
    requires Free(name, '/')
    ensures Escape(name) == name
  {
    if name != "" {
      SlashFree(name[1..]);
      assert name == [name[0]] + name[1..];
    }
  }
}

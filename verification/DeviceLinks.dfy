/**
 The registry of link claims: every device may claim any name, the link goes to
 a claimant of highest priority, the current holder keeps it on a tie, and when
 a device withdraws the next claimant takes over. Directory entries come in any
 order; the winner does not depend on it.
 */
module DeviceLinks {
  import opened Common
  import opened LinkNames

  datatype Claim = Claim(prio: int, devname: string)

  type Claims = map<string, map<string, Claim>>

  type Links = map<string, string>

  // ---- the winner ----

  /** Byte order, as strcmp decides it. */
  predicate Less(a: string, b: string) {
    b != "" && (a == "" || a[0] < b[0] || (a[0] == b[0] && Less(a[1..], b[1..])))
  }

  lemma {:induction false} LessTransitive(a: string, b: string, c: string)
    requires Less(a, b) && Less(b, c)
    ensures Less(a, c)
  {
    if a != "" && a[0] == b[0] == c[0] {
      LessTransitive(a[1..], b[1..], c[1..]);
    }
  }

  lemma {:induction false} LessTotal(a: string, b: string)
    requires a != b
    ensures Less(a, b) || Less(b, a)
  {
    if a != "" && b != "" && a[0] == b[0] {
      assert a == [a[0]] + a[1..] && b == [b[0]] + b[1..];
      LessTotal(a[1..], b[1..]);
    }
  }

  predicate IsCurrent(name: string, cur: string, c: Claim) {
    Target(name, c.devname) == cur
  }

  /** Claim `c` takes the link from `b`. */
  predicate Beats(name: string, cur: string, c: Claim, b: Claim) {
    || c.prio > b.prio
    || (c.prio == b.prio && IsCurrent(name, cur, c) && !IsCurrent(name, cur, b))
    || (c.prio == b.prio && !IsCurrent(name, cur, c) && !IsCurrent(name, cur, b) && Less(c.devname, b.devname))
  }

  predicate Best(name: string, cur: string, cs: set<Claim>, b: Claim) {
    b in cs && forall c :: c in cs ==> !Beats(name, cur, c, b)
  }

  lemma BeatenStaysBeaten(name: string, cur: string, c: Claim, b: Claim, b': Claim)
    requires Beats(name, cur, b', b) && !Beats(name, cur, c, b)
    ensures !Beats(name, cur, c, b')
  {
    if Less(c.devname, b'.devname) && Less(b'.devname, b.devname) {
      LessTransitive(c.devname, b'.devname, b.devname);
    }
  }

  /** There is one winner, in whatever order the claims are read. */
  lemma BestUnique(name: string, cur: string, cs: set<Claim>, a: Claim, b: Claim)
    requires Best(name, cur, cs, a) && Best(name, cur, cs, b)
    ensures a == b
  {
    assert !Beats(name, cur, a, b) && !Beats(name, cur, b, a);
    if IsCurrent(name, cur, a) {
      TargetInjective(name, a.devname, b.devname);
    } else if a.devname != b.devname {
      LessTotal(a.devname, b.devname);
    }
  }

  /** The target leads to the one winner. */
  predicate WonBy(name: string, cur: string, cs: map<string, Claim>, target: string) {
    exists b :: b in cs.Values && Best(name, cur, cs.Values, b) && target == Target(name, b.devname)
  }

  /** Some claimant of highest priority is where the target leads. */
  predicate AtTop(cs: map<string, Claim>, name: string, target: string) {
    exists d :: d in cs && Top(cs, d) && target == Target(name, cs[d].devname)
  }

  predicate Top(cs: map<string, Claim>, d: string)
    requires d in cs
  {
    forall x :: x in cs ==> cs[x].prio <= cs[d].prio
  }

  /** What the winner is worth: it has the highest priority, and a current
      holder of that priority is not replaced. */
  lemma BestMeaning(name: string, cur: string, cs: map<string, Claim>, b: Claim)
    requires Best(name, cur, cs.Values, b)
    ensures AtTop(cs, name, Target(name, b.devname))
    ensures AtTop(cs, name, cur) ==> Target(name, b.devname) == cur
  {
    var d :| d in cs && cs[d] == b;
    forall x | x in cs
      ensures cs[x].prio <= b.prio
    {
      assert cs[x] in cs.Values && !Beats(name, cur, cs[x], b);
    }
    if AtTop(cs, name, cur) {
      var h :| h in cs && Top(cs, h) && cur == Target(name, cs[h].devname);
      assert cs[h] in cs.Values && !Beats(name, cur, cs[h], b);
    }
  }

  /** Reads the claims in any order and keeps a running best. */
  method Winner(name: string, cur: string, cs: map<string, Claim>) returns (best: Option<Claim>)
    ensures best.None? <==> cs == map[]
    ensures best.Some? ==> Best(name, cur, cs.Values, best.value)
  {
    best := None;
    var bestIsCurrent := false;
    var unread := cs.Keys;
    while unread != {}
      invariant unread <= cs.Keys
      invariant best.None? <==> unread == cs.Keys
      invariant best.Some? ==> best.value in cs.Values && bestIsCurrent == IsCurrent(name, cur, best.value)
      invariant best.Some? ==> forall d :: d in cs && d !in unread ==> !Beats(name, cur, cs[d], best.value)
      decreases |unread|
    {
      var d :| d in unread;
      unread := unread - {d};
      var c := cs[d];
      assert c in cs.Values;
      var target := TargetLoop(name, c.devname);
      var isCurrent := target == cur;
      var takes := best.None? || c.prio > best.value.prio
        || (c.prio == best.value.prio && isCurrent && !bestIsCurrent)
        || (c.prio == best.value.prio && !isCurrent && !bestIsCurrent && Less(c.devname, best.value.devname));
      if takes {
        if best.Some? {
          TakenOver(name, cur, cs, unread, d, best.value);
        } else {
          NotItself(name, cur, c);
        }
        best, bestIsCurrent := Some(c), isCurrent;
      }
    }
    if best.Some? {
      AllRead(name, cur, cs, best.value);
    }
  }

  lemma NotItself(name: string, cur: string, c: Claim)
    ensures !Beats(name, cur, c, c)
  {
    if Less(c.devname, c.devname) {
      NotLess(c.devname);
    }
  }

  lemma {:induction false} NotLess(a: string)
    ensures !Less(a, a)
  {
    if a != "" {
      NotLess(a[1..]);
    }
  }

  lemma TakenOver(name: string, cur: string, cs: map<string, Claim>, unread: set<string>,
                      d: string, b: Claim)
    requires d in cs && Beats(name, cur, cs[d], b)
    requires forall x :: x in cs && x !in unread + {d} ==> !Beats(name, cur, cs[x], b)
    ensures forall x :: x in cs && x !in unread ==> !Beats(name, cur, cs[x], cs[d])
  {
    forall x | x in cs && x !in unread
      ensures !Beats(name, cur, cs[x], cs[d])
    {
      if x == d {
        NotItself(name, cur, cs[d]);
      } else {
        BeatenStaysBeaten(name, cur, cs[x], b, cs[d]);
      }
    }
  }

  lemma AllRead(name: string, cur: string, cs: map<string, Claim>, b: Claim)
    requires b in cs.Values && forall d :: d in cs ==> !Beats(name, cur, cs[d], b)
    ensures Best(name, cur, cs.Values, b)
  {
  }

  // ---- claims and links ----

  /** Names that stay below /dev and survive escaping. */
  predicate Clean(name: string) {
    NameOk(name) && NoLiteral(name)
  }

  predicate Dot(name: string) {
    name != "" && name[0] == '.'
  }

  /** A device's claim in a registry entry. */
  function ClaimAt(claims: Claims, e: string, d: string): Option<Claim> {
    if e in claims && d in claims[e] then Some(claims[e][d]) else None
  }

  function ClaimsOn(claims: Claims, name: string): map<string, Claim> {
    if Escape(name) in claims then claims[Escape(name)] else map[]
  }

  /** The link of a name is there exactly when somebody claims the name, and
      leads to a claimant of highest priority. */
  predicate Settled(claims: Claims, links: Links, name: string) {
    var cs := ClaimsOn(claims, name);
    if cs == map[] then name !in links else name in links && AtTop(cs, name, links[name])
  }

  predicate Entry(e: string) {
    Escape(Unescape(e)) == e
  }

  /** A good name that holds the escape sequence shares its entry with another
      name; `shared` are the entries such names have used. */
  predicate Own(name: string, shared: set<string>) {
    Clean(name) && Escape(name) !in shared
  }

  /** Every name that has its entry for itself is settled, but for `name`. */
  ghost predicate SoundBut(claims: Claims, links: Links, shared: set<string>, name: string) {
    && (forall e :: e in claims ==> Entry(e))
    && (forall n :: Own(n, shared) && n != name ==> Settled(claims, links, n))
  }

  ghost predicate Sound(claims: Claims, links: Links, shared: set<string>) {
    && (forall e :: e in claims ==> Entry(e))
    && (forall n :: Own(n, shared) ==> Settled(claims, links, n))
  }

  lemma {:induction false} EscapeIsEntry(name: string)
    ensures Entry(Escape(name))
  {
    EscapeFree(name);
    EscapeUnescape(Escape(name));
  }

  /** Clean names have different entries. */
  lemma {:induction false} EntryIsOf(name: string, e: string)
    requires Clean(name) && Escape(name) == e
    ensures Unescape(e) == name
  {
    EscapeRoundTrip(name);
  }

  /** Changing one entry leaves the other names settled. */
  lemma {:induction false} OthersSettled(claims: Claims, links: Links, shared: set<string>, e: string, cs: map<string, Claim>,
                      name: string)
    requires Sound(claims, links, shared) && Entry(e)
    requires name == Unescape(e) || e in shared
    ensures SoundBut(claims[e := cs], links, shared, name)
  {
    hide NameOk;
    hide NoLiteral;
    hide AtTop;
    forall n | Own(n, shared) && n != name
      ensures Settled(claims[e := cs], links, n)
    {
      assert Settled(claims, links, n);
      if Escape(n) == e {
        EntryIsOf(n, e);
      }
    }
  }

  predicate SameBut(links: Links, links': Links, name: string) {
    && (forall n :: n in links && n != name ==> n in links' && links'[n] == links[n])
    && (forall n :: n in links' && n != name ==> n in links)
  }

  /** Claims and links after one name has been resolved: only its link changes,
      and an entry without claims goes. */
  ghost predicate Resolved(claims: Claims, links: Links, name: string, claims': Claims, links': Links) {
    && claims' == (if ClaimsOn(claims, name) == map[] then claims - {Escape(name)} else claims)
    && SameBut(links, links', name) && Settled(claims', links', name)
  }

  lemma ResolvedSettled(claims: Claims, links: Links, name: string, claims': Claims, links': Links, n: string)
    requires Resolved(claims, links, name, claims', links') && (n == name || Settled(claims, links, n))
    ensures Settled(claims', links', n)
  {
    hide AtTop;
    hide Escape;
  }

  lemma ResolvedSound(claims: Claims, links: Links, shared: set<string>, name: string, claims': Claims, links': Links)
    requires SoundBut(claims, links, shared, name) && Resolved(claims, links, name, claims', links')
    ensures Sound(claims', links', shared)
  {
    hide Own;
    hide Entry;
    hide Settled;
    forall n | Own(n, shared)
      ensures Settled(claims', links', n)
    {
      ResolvedSettled(claims, links, name, claims', links', n);
    }
  }

  lemma ResolvedClaims(claims: Claims, links: Links, name: string, claims': Claims, links': Links)
    requires Resolved(claims, links, name, claims', links')
    ensures forall e, d :: ClaimAt(claims', e, d) == ClaimAt(claims, e, d)
  {
    hide Escape;
  }

  // ---- what an update does to an entry ----

  predicate Names(n: string, e: string) {
    NameOk(n) && Escape(n) == e
  }

  /** Some good listed name belongs in the entry. */
  predicate Listed(names: set<string>, e: string) {
    exists n :: n in names && Names(n, e)
  }

  /** A claim after an update. An entry that starts with a dot is skipped like a
      hidden file when claims are withdrawn. */
  function NextClaim(was: Option<Claim>, e: string, mine: bool, devname: string, prio: int,
                     names: set<string>): Option<Claim> {
    if !mine then was
    else if devname != "" && Listed(names, e) then Some(Claim(prio, devname))
    else if Dot(e) || Unescape(e) in names then was
    else None
  }

  /** Entries that the listed names with the escape sequence come to use. */
  function SharedBy(devname: string, names: set<string>): set<string> {
    if devname == "" then {} else set n | n in names && NameOk(n) && !NoLiteral(n) :: Escape(n)
  }

  // ---- what each device asked for ----

  datatype Ask = Ask(devname: string, prio: int, names: set<string>)

  function Wanted(asked: map<string, Ask>, name: string, d: string): Option<Claim> {
    if d in asked && name in asked[d].names then Some(Claim(asked[d].prio, asked[d].devname)) else None
  }

  /** What each device last asked for. An update with no device name withdraws
      what it does not list and adds nothing. */
  function AskedAfter(asked: map<string, Ask>, d: string, devname: string, prio: int,
                      names: set<string>): map<string, Ask> {
    if devname != "" then asked[d := Ask(devname, prio, names)]
    else if d in asked then asked[d := asked[d].(names := asked[d].names * names)]
    else asked
  }

  /** The last claim each device ever made on each name. */
  type Made = map<string, map<string, Claim>>

  function MadeBy(made: Made, name: string, d: string): Option<Claim> {
    if d in made && name in made[d] then Some(made[d][name]) else None
  }

  function MadeAfter(made: Made, d: string, devname: string, prio: int, names: set<string>): Made {
    if devname == "" then made else
      made[d := (if d in made then made[d] else map[]) +
                (map n | n in names && NameOk(n) :: Claim(prio, devname))]
  }

  /** The claim a device has on a name: what it last asked for, or for a name
      that starts with a dot whatever it claimed last. */
  function Standing(asked: map<string, Ask>, made: Made, name: string, d: string): Option<Claim> {
    if Dot(name) then MadeBy(made, name, d) else Wanted(asked, name, d)
  }

  ghost predicate Reflects(claims: Claims, asked: map<string, Ask>, made: Made, shared: set<string>) {
    forall n, d :: Own(n, shared) ==> ClaimAt(claims, Escape(n), d) == Standing(asked, made, n, d)
  }

  /** For a name that has its entry for itself, being listed is what counts. */
  lemma {:induction false} OwnIsListed(name: string, shared: set<string>, devname: string, names: set<string>)
    requires Own(name, shared + SharedBy(devname, names)) && devname != ""
    ensures Listed(names, Escape(name)) <==> name in names
  {
    hide NameOk;
    hide NoLiteral;
    if name in names {
      assert Names(name, Escape(name));
    }
    if Listed(names, Escape(name)) {
      var n :| n in names && Names(n, Escape(name));
      if NoLiteral(n) {
        EscapeInjective(n, name);
      }
    }
  }

  lemma ReflectsAfter(claims: Claims, claims': Claims, asked: map<string, Ask>, made: Made, shared: set<string>,
                      d: string, devname: string, prio: int, names: set<string>)
    requires Reflects(claims, asked, made, shared)
    requires forall e, x :: ClaimAt(claims', e, x) ==
               NextClaim(ClaimAt(claims, e, x), e, x == d, devname, prio, names)
    ensures Reflects(claims', AskedAfter(asked, d, devname, prio, names),
                     MadeAfter(made, d, devname, prio, names), shared + SharedBy(devname, names))
  {
    hide ClaimAt;
    hide NameOk;
    hide NoLiteral;
    hide Listed;
    hide Escape;
    hide Unescape;
    var asked', made' := AskedAfter(asked, d, devname, prio, names), MadeAfter(made, d, devname, prio, names);
    var shared' := shared + SharedBy(devname, names);
    forall n, x | Own(n, shared')
      ensures ClaimAt(claims', Escape(n), x) == Standing(asked', made', n, x)
    {
      assert ClaimAt(claims, Escape(n), x) == Standing(asked, made, n, x);
      EntryIsOf(n, Escape(n));
      EscapeDot(n);
      if devname != "" {
        OwnIsListed(n, shared, devname, names);
      }
    }
  }

  // ---- which links there are ----

  ghost predicate Highest(asked: map<string, Ask>, made: Made, name: string, prio: int) {
    forall x :: Standing(asked, made, name, x).Some? ==> Standing(asked, made, name, x).value.prio <= prio
  }

  ghost predicate LeadsToHighest(asked: map<string, Ask>, made: Made, name: string, target: string) {
    exists d :: Standing(asked, made, name, d).Some? &&
                target == Target(name, Standing(asked, made, name, d).value.devname) &&
                Highest(asked, made, name, Standing(asked, made, name, d).value.prio)
  }

  /** A link exists exactly when some device has a claim on the name, and leads
      to such a device of highest priority. */
  lemma LinksFollowClaims(claims: Claims, links: Links, asked: map<string, Ask>, made: Made, shared: set<string>,
                          name: string)
    requires Sound(claims, links, shared) && Reflects(claims, asked, made, shared) && Own(name, shared)
    ensures name in links <==> exists d :: Standing(asked, made, name, d).Some?
    ensures name in links ==> LeadsToHighest(asked, made, name, links[name])
  {
    hide Own;
    hide Escape;
    hide Standing;
    assert Settled(claims, links, name);
    var cs := ClaimsOn(claims, name);
    forall d
      ensures Standing(asked, made, name, d) == if d in cs then Some(cs[d]) else None
    {
      assert ClaimAt(claims, Escape(name), d) == Standing(asked, made, name, d);
    }
    if name in links {
      var d :| d in cs && Top(cs, d) && links[name] == Target(name, cs[d].devname);
      assert Standing(asked, made, name, d).Some? && Highest(asked, made, name, cs[d].prio);
    }
  }

  /** A link exists exactly when some device's last update asked for it. */
  lemma LinksFollowRequests(claims: Claims, links: Links, asked: map<string, Ask>, made: Made, shared: set<string>,
                            name: string)
    requires Sound(claims, links, shared) && Reflects(claims, asked, made, shared)
    requires Own(name, shared) && !Dot(name)
    ensures name in links <==> exists d :: d in asked && name in asked[d].names
    ensures name in links ==> LeadsToHighest(asked, made, name, links[name])
  {
    LinksFollowClaims(claims, links, asked, made, shared, name);
    if name in links {
      var d :| Standing(asked, made, name, d).Some?;
      assert d in asked && name in asked[d].names;
    }
    if d :| d in asked && name in asked[d].names {
      assert Standing(asked, made, name, d).Some?;
    }
  }

  /** For a name that starts with a dot: exactly when some device ever claimed it. */
  lemma DotLinksStay(claims: Claims, links: Links, asked: map<string, Ask>, made: Made, shared: set<string>,
                     name: string)
    requires Sound(claims, links, shared) && Reflects(claims, asked, made, shared)
    requires Own(name, shared) && Dot(name)
    ensures name in links <==> exists d :: d in made && name in made[d]
    ensures name in links ==> LeadsToHighest(asked, made, name, links[name])
  {
    LinksFollowClaims(claims, links, asked, made, shared, name);
    if name in links {
      var d :| Standing(asked, made, name, d).Some?;
      assert d in made && name in made[d];
    }
    if d :| d in made && name in made[d] {
      assert Standing(asked, made, name, d).Some?;
    }
  }

  /** A name with the escape sequence is never withdrawn either: its link exists
      exactly when some device ever claimed it. */
  ghost predicate EscapedStay(links: Links, made: Made) {
    forall n :: !NoLiteral(n) ==> (n in links <==> exists d :: MadeBy(made, n, d).Some?)
  }

  lemma EscapedStayAfter(links: Links, links': Links, made: Made, d: string, devname: string, prio: int,
                         names: set<string>)
    requires EscapedStay(links, made)
    requires forall n :: !NoLiteral(n) ==>
               (n in links' <==> n in links || (devname != "" && n in names && NameOk(n)))
    ensures EscapedStay(links', MadeAfter(made, d, devname, prio, names))
  {
    hide NoLiteral;
    hide NameOk;
    var made' := MadeAfter(made, d, devname, prio, names);
    forall n | !NoLiteral(n)
      ensures n in links' <==> exists x :: MadeBy(made', n, x).Some?
    {
      if n in links {
        var x :| MadeBy(made, n, x).Some?;
        assert MadeBy(made', n, x).Some?;
      }
      if devname != "" && n in names && NameOk(n) {
        assert MadeBy(made', n, d).Some?;
      }
      if x :| MadeBy(made', n, x).Some? {
        assert MadeBy(made, n, x).Some? || (devname != "" && n in names && NameOk(n));
      }
    }
  }
}

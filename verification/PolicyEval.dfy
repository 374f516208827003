/**
 Policy decisions as the broker computes them: nested loops with a running
 verdict, the guard in front of a live policy swap, and the entries a live
 reload holds back.
 */
module PolicyEval {
  import opened Common
  import opened Policy

  // ---- one rule ----

  method PeerLoop(names: seq<string>, address: Option<string>, value: string) returns (r: bool)
    ensures r <==> PeerMatches(names, address, value)
  {
    var n := |names|;
    var fallback := None;
    if n == 0 {
      if address.Some? { fallback, n := address, 1; }
    }
    if value == "*" {
      return n != 0;
    }
    var found := false;
    for k := 0 to |names|
      invariant found <==> value in names[..k]
    {
      assert names[..k + 1] == names[..k] + [names[k]];
      if names[k] == value { found := true; }
    }
    assert names[..|names|] == names;
    if !found && fallback == Some(value) { found := true; }
    return found;
  }

  method PredHolds(p: Pred, req: Request) returns (r: bool)
    ensures r <==> Holds(p, req)
  {
    hide AttrOf;
    match AttrOf(p.attr) {
      case Anybody => return p.value == "*";
      case OwnName => return req.op == Own && (p.value == "*" || p.value == Wanted(req));
      case OwnPrefix => return req.op == Own && p.value <= Wanted(req);
      case SendTo =>
        if req.op != Send { return false; }
        r := PeerLoop(req.destNames, req.destination, p.value);
      case ReceiveFrom =>
        if req.op != Receive { return false; }
        r := PeerLoop(req.senderNames, req.senderName, p.value);
      case Field(op, f) => return req.op == op && FieldMatches(FieldValue(req, f), p.value);
      case UnknownAttr => return false;
    }
  }

  method RuleMatches(rule: Rule, req: Request) returns (r: bool)
    ensures r <==> Matches(rule, req)
  {
    hide Holds;
    for i := 0 to |rule.preds|
      invariant forall j :: 0 <= j < i ==> Holds(rule.preds[j], req)
    {
      var holds := PredHolds(rule.preds[i], req);
      if !holds { return false; }
    }
    return true;
  }

  method IsApplicable(c: Context, req: Request) returns (r: bool)
    ensures r <==> Applicable(c, req)
  {
    if c.kind == Default || c.kind == Mandatory { return true; }
    if c.kind == User {
      if req.uid < 0 { return false; }
      if c.wildcard { return true; }
      return c.selector == req.uid;
    }
    if |req.gids| == 0 { return false; }
    if c.wildcard { return true; }
    for i := 0 to |req.gids|
      invariant c.selector !in req.gids[..i]
    {
      assert req.gids[..i + 1] == req.gids[..i] + [req.gids[i]];
      if req.gids[i] == c.selector { return true; }
    }
    assert req.gids[..|req.gids|] == req.gids;
    return false;
  }

  // ---- the running verdict ----

  /** The verdict after some more rules have been tried. */
  method TryRules(ghost done: seq<Rule>, rules: seq<Rule>, req: Request, verdict: bool) returns (v: bool)
    requires verdict <==> LastAllows(done, req)
    ensures v <==> LastAllows(done + rules, req)
  {
    hide LastAllows;
    hide Matches;
    v := verdict;
    assert done + rules[..0] == done;
    for r := 0 to |rules|
      invariant v <==> LastAllows(done + rules[..r], req)
    {
      assert done + rules[..r + 1] == (done + rules[..r]) + [rules[r]];
      LastAllowsSnoc(done + rules[..r], rules[r], req);
      var matches := RuleMatches(rules[r], req);
      if matches { v := rules[r].allow; }
    }
    assert rules[..|rules|] == rules;
  }

  method TryKind(ghost done: seq<Rule>, pol: PolicyTable, kind: Kind, req: Request, verdict: bool) returns (v: bool)
    requires verdict <==> LastAllows(done, req)
    ensures v <==> LastAllows(done + OfKind(pol, kind, req), req)
  {
    hide LastAllows;
    v := verdict;
    assert done + OfKind(pol[..0], kind, req) == done;
    for c := 0 to |pol|
      invariant v <==> LastAllows(done + OfKind(pol[..c], kind, req), req)
    {
      ghost var before := OfKind(pol[..c], kind, req);
      assert pol[..c + 1][..c] == pol[..c];
      assert before + [] == before;
      if pol[c].kind != kind { continue; }
      var applicable := IsApplicable(pol[c], req);
      if !applicable { continue; }
      assert (done + before) + pol[c].rules == done + (before + pol[c].rules);
      v := TryRules(done + before, pol[c].rules, req, v);
    }
    assert pol[..|pol|] == pol;
  }

  /** Allowed or denied: a requested reply, or what the last matching rule of
      the flattened policy says. */
  method Eval(pol: PolicyTable, req: Request) returns (allow: bool)
    ensures allow <==> Allowed(pol, req)
  {
    hide LastAllows;
    if IsRequestedReply(req) { return true; }
    allow := false;
    assert !LastAllows([], req) by { NothingAllows(req); }
    assert Flat(pol, ORDER[..0], req) == [];
    for o := 0 to 4
      invariant allow <==> LastAllows(Flat(pol, ORDER[..o], req), req)
    {
      assert ORDER[..o + 1][..o] == ORDER[..o];
      allow := TryKind(Flat(pol, ORDER[..o], req), pol, ORDER[o], req, allow);
    }
    assert ORDER[..4] == ORDER;
  }

  lemma NothingAllows(req: Request)
    ensures !LastAllows([], req)
  {
  }

  // ---- the guard of a live swap ----

  datatype Owner = Owner(name: string, uid: int, gids: seq<int>)

  function RuleCount(pol: PolicyTable): nat {
    if pol == [] then 0 else RuleCount(pol[..|pol| - 1]) + |pol[|pol| - 1].rules|
  }

  method CountRules(pol: PolicyTable) returns (n: nat)
    ensures n == RuleCount(pol)
  {
    n := 0;
    for c := 0 to |pol|
      invariant n == RuleCount(pol[..c])
    {
      assert pol[..c + 1][..c] == pol[..c];
      n := n + |pol[c].rules|;
    }
    assert pol[..|pol|] == pol;
  }

  method RuleNames(rule: Rule, name: string) returns (r: bool)
    ensures r <==> RuleMentions(rule, name)
  {
    hide AttrOf;
    for i := 0 to |rule.preds|
      invariant forall j :: 0 <= j < i ==> !Mentions(rule.preds[j], name)
    {
      var p := rule.preds[i];
      if AttrOf(p.attr) == OwnName && p.value == name { return true; }
      if AttrOf(p.attr) == OwnPrefix && p.value <= name { return true; }
    }
    return false;
  }

  method PolicyNames(pol: PolicyTable, name: string) returns (r: bool)
    ensures r <==> NamesOwn(pol, name)
  {
    hide RuleMentions;
    for c := 0 to |pol|
      invariant forall j :: 0 <= j < c ==> !ContextMentions(pol[j], name)
    {
      for i := 0 to |pol[c].rules|
        invariant forall j :: 0 <= j < i ==> !RuleMentions(pol[c].rules[j], name)
      {
        var names := RuleNames(pol[c].rules[i], name);
        if names {
          assert ContextMentions(pol[c], name);
          return true;
        }
      }
    }
    return false;
  }

  /** A current owner is not hurt by a policy: it may own its name, or the
      policy has nothing to say about the name. */
  predicate OwnerSafe(pol: PolicyTable, o: Owner) {
    Allowed(pol, OwnRequest(o.uid, o.gids, o.name)) || !NamesOwn(pol, o.name)
  }

  /** A new policy may replace the running one: at least half the rules stay,
      and no current owner is hurt. */
  predicate SwapOk(oldPolicy: PolicyTable, newPolicy: PolicyTable, owners: seq<Owner>) {
    && 2 * RuleCount(newPolicy) >= RuleCount(oldPolicy)
    && forall i :: 0 <= i < |owners| ==> OwnerSafe(newPolicy, owners[i])
  }

  /** Whether a new policy may replace the running one, and the owners whose
      name it no longer mentions. */
  method PolicyOk(oldPolicy: PolicyTable, newPolicy: PolicyTable, owners: seq<Owner>)
    returns (ok: bool, noted: seq<string>)
    ensures ok <==> SwapOk(oldPolicy, newPolicy, owners)
    ensures ok ==> forall i :: 0 <= i < |owners| ==>
              (Allowed(newPolicy, OwnRequest(owners[i].uid, owners[i].gids, owners[i].name)) || owners[i].name in noted)
  {
    hide Allowed;
    hide NamesOwn;
    var before := CountRules(oldPolicy);
    var after := CountRules(newPolicy);
    noted := [];
    if before > 0 && after * 2 < before { return false, noted; }
    for i := 0 to |owners|
      invariant forall j :: 0 <= j < i ==> OwnerSafe(newPolicy, owners[j])
      invariant forall j :: 0 <= j < i ==>
                  (Allowed(newPolicy, OwnRequest(owners[j].uid, owners[j].gids, owners[j].name)) || owners[j].name in noted)
    {
      var o := owners[i];
      var allowed := Eval(newPolicy, OwnRequest(o.uid, o.gids, o.name));
      if allowed { continue; }
      var names := PolicyNames(newPolicy, o.name);
      if names {
        assert !OwnerSafe(newPolicy, owners[i]);
        return false, noted;
      }
      noted := noted + [o.name];
    }
    return true, noted;
  }

  // ---- entries held back from a live reload ----

  datatype Service = Service(name: string, dir: string, isSystemd: bool)

  predicate Listed(table: seq<Service>, name: string) {
    exists i :: 0 <= i < |table| && table[i].name == name
  }

  /** A new entry that only another service manager's file vouches for. */
  predicate HeldBack(e: Service, running: seq<Service>, overrides: string) {
    e.isSystemd && e.dir != overrides && !Listed(running, e.name)
  }

  function Admitted(table: seq<Service>, running: seq<Service>, overrides: string): seq<Service> {
    if table == [] then [] else
      var e := table[|table| - 1];
      Admitted(table[..|table| - 1], running, overrides) + (if HeldBack(e, running, overrides) then [] else [e])
  }

  method FindService(table: seq<Service>, name: string) returns (r: bool)
    ensures r <==> Listed(table, name)
  {
    for i := 0 to |table|
      invariant forall j :: 0 <= j < i ==> table[j].name != name
    {
      if table[i].name == name { return true; }
    }
    return false;
  }

  /** Compacts a freshly read table in place; returns how many entries stay. */
  method HoldRaw(table: array<Service>, n: nat, running: seq<Service>, overrides: string) returns (w: nat, held: nat)
    requires n <= table.Length
    modifies table
    ensures w + held == n && table[..w] == Admitted(old(table[..n]), running, overrides)
  {
    ghost var was := table[..n];
    w, held := 0, 0;
    for i := 0 to n
      invariant w + held == i && w <= i && table[..w] == Admitted(was[..i], running, overrides)
      invariant forall j :: i <= j < n ==> table[j] == was[j]
    {
      var e := table[i];
      AdmittedStep(was, i, running, overrides);
      if e.isSystemd && e.dir != overrides {
        var known := FindService(running, e.name);
        if !known {
          held := held + 1;
          continue;
        }
      }
      table[w] := e;
      w := w + 1;
      assert table[..w] == table[..w - 1] + [e];
    }
    assert was[..n] == was;
  }

  lemma {:induction false} AdmittedStep(table: seq<Service>, i: nat, running: seq<Service>, overrides: string)
    requires i < |table|
    ensures Admitted(table[..i + 1], running, overrides) == Admitted(table[..i], running, overrides) +
            (if HeldBack(table[i], running, overrides) then [] else [table[i]])
    ensures HeldBack(table[i], running, overrides) ==>
              Admitted(table[..i + 1], running, overrides) == Admitted(table[..i], running, overrides)
  {
    assert table[..i + 1][..i] == table[..i];
    assert Admitted(table[..i], running, overrides) + [] == Admitted(table[..i], running, overrides);
  }

  /** Every entry that stays is the running table's, an override, or plain. */
  lemma {:induction false} AdmittedIsSafe(table: seq<Service>, running: seq<Service>, overrides: string, e: Service)
    ensures e in Admitted(table, running, overrides) <==> e in table && !HeldBack(e, running, overrides)
  {
    hide HeldBack;
    if table != [] {
      var n := |table| - 1;
      AdmittedIsSafe(table[..n], running, overrides, e);
      assert table == table[..n] + [table[n]];
    }
  }
}

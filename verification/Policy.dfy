/**
 The broker's security policy: rules in contexts, tried in a fixed order of
 context kinds, the last one that matches deciding.
 */
module Policy {
  import opened Common

  datatype Op = Send | Own | Receive | NoOp

  datatype Request = Request(op: Op, uid: int, gids: seq<int>,
    interface: Option<string>, member: Option<string>, msgtype: Option<string>, path: Option<string>,
    destination: Option<string>, destNames: seq<string>, name: Option<string>, isReply: bool,
    senderName: Option<string>, senderNames: seq<string>)

  datatype Pred = Pred(attr: string, value: string)

  datatype Rule = Rule(allow: bool, preds: seq<Pred>)

  datatype Kind = Default | Mandatory | User | Group

  /** `wildcard` when the context names no user or group; otherwise the id it
      resolves to, or -1. */
  datatype Context = Context(kind: Kind, wildcard: bool, selector: int, rules: seq<Rule>)

  type PolicyTable = seq<Context>

  // ---- one rule ----

  datatype Attr = Anybody | OwnName | OwnPrefix | SendTo | ReceiveFrom | Field(op: Op, field: FieldName) | UnknownAttr

  datatype FieldName = Interface | Member | MsgType | Path

  function AttrOf(attr: string): Attr {
    if attr == "user" || attr == "group" then Anybody
    else if attr == "own" then OwnName
    else if attr == "own_prefix" then OwnPrefix
    else if attr == "send_destination" then SendTo
    else if attr == "send_interface" then Field(Send, Interface)
    else if attr == "send_member" then Field(Send, Member)
    else if attr == "send_type" then Field(Send, MsgType)
    else if attr == "send_path" then Field(Send, Path)
    else if attr == "receive_sender" then ReceiveFrom
    else if attr == "receive_interface" then Field(Receive, Interface)
    else if attr == "receive_member" then Field(Receive, Member)
    else if attr == "receive_type" then Field(Receive, MsgType)
    else if attr == "receive_path" then Field(Receive, Path)
    else UnknownAttr
  }

  function FieldValue(req: Request, f: FieldName): Option<string> {
    match f
    case Interface => req.interface
    case Member => req.member
    case MsgType => req.msgtype
    case Path => req.path
  }

  predicate FieldMatches(field: Option<string>, value: string) {
    if value == "*" then field.Some? else field == Some(value)
  }

  /** The names a peer goes by: those it owns, else its own address. */
  function Known(names: seq<string>, fallback: Option<string>): seq<string> {
    if names != [] then names else if fallback.Some? then [fallback.value] else []
  }

  predicate PeerMatches(names: seq<string>, fallback: Option<string>, value: string) {
    if value == "*" then Known(names, fallback) != [] else value in Known(names, fallback)
  }

  function Wanted(req: Request): string {
    if req.name.Some? then req.name.value else ""
  }

  /** One condition of a rule. */
  predicate Holds(p: Pred, req: Request) {
    match AttrOf(p.attr)
    case Anybody => p.value == "*"
    case OwnName => req.op == Own && (p.value == "*" || p.value == Wanted(req))
    case OwnPrefix => req.op == Own && p.value <= Wanted(req)
    case SendTo => req.op == Send && PeerMatches(req.destNames, req.destination, p.value)
    case ReceiveFrom => req.op == Receive && PeerMatches(req.senderNames, req.senderName, p.value)
    case Field(op, f) => req.op == op && FieldMatches(FieldValue(req, f), p.value)
    case UnknownAttr => false
  }

  predicate Matches(rule: Rule, req: Request) {
    forall i :: 0 <= i < |rule.preds| ==> Holds(rule.preds[i], req)
  }

  predicate Applicable(c: Context, req: Request) {
    match c.kind
    case Default => true
    case Mandatory => true
    case User => req.uid >= 0 && (c.wildcard || c.selector == req.uid)
    case Group => req.gids != [] && (c.wildcard || c.selector in req.gids)
  }

  predicate IsRequestedReply(req: Request) {
    req.op == Send && req.isReply && (req.msgtype == Some("method_return") || req.msgtype == Some("error"))
  }

  // ---- the whole policy ----

  const ORDER: seq<Kind> := [Default, Group, User, Mandatory]

  /** The applicable rules of one kind of context, in table order. */
  function OfKind(pol: PolicyTable, kind: Kind, req: Request): seq<Rule> {
    if pol == [] then [] else
      var c := pol[|pol| - 1];
      OfKind(pol[..|pol| - 1], kind, req) + (if c.kind == kind && Applicable(c, req) then c.rules else [])
  }

  /** All applicable rules, the first kinds of contexts first. */
  function Flat(pol: PolicyTable, kinds: seq<Kind>, req: Request): seq<Rule> {
    if kinds == [] then [] else
      Flat(pol, kinds[..|kinds| - 1], req) + OfKind(pol, kinds[|kinds| - 1], req)
  }

  /** The last matching rule is an allow. */
  predicate LastAllows(rules: seq<Rule>, req: Request) {
    exists k :: 0 <= k < |rules| && Matches(rules[k], req) && rules[k].allow && LastMatch(rules, k, req)
  }

  predicate LastMatch(rules: seq<Rule>, k: nat, req: Request)
    requires k < |rules|
  {
    forall j :: k < j < |rules| ==> !Matches(rules[j], req)
  }

  predicate Allowed(pol: PolicyTable, req: Request) {
    IsRequestedReply(req) || LastAllows(Flat(pol, ORDER, req), req)
  }

  lemma LastAllowsSnoc(rules: seq<Rule>, r: Rule, req: Request)
    ensures LastAllows(rules + [r], req) <==> if Matches(r, req) then r.allow else LastAllows(rules, req)
  {
    hide Matches;
    var all, n := rules + [r], |rules|;
    if Matches(r, req) {
      if r.allow {
        assert Matches(all[n], req) && LastMatch(all, n, req);
      }
      assert Matches(all[n], req);
    } else {
      if LastAllows(rules, req) {
        var k :| 0 <= k < n && Matches(rules[k], req) && rules[k].allow && LastMatch(rules, k, req);
        assert Matches(all[k], req) && LastMatch(all, k, req);
      }
      if LastAllows(all, req) {
        var k :| 0 <= k < n + 1 && Matches(all[k], req) && all[k].allow && LastMatch(all, k, req);
        assert k < n && Matches(rules[k], req);
        assert forall j :: k < j < n ==> rules[j] == all[j];
      }
    }
  }

  // ---- names nobody mentions ----

  predicate Mentions(p: Pred, name: string) {
    || (AttrOf(p.attr) == OwnName && p.value == name)
    || (AttrOf(p.attr) == OwnPrefix && p.value <= name)
  }

  predicate RuleMentions(rule: Rule, name: string) {
    exists i :: 0 <= i < |rule.preds| && Mentions(rule.preds[i], name)
  }

  predicate ContextMentions(c: Context, name: string) {
    exists r :: 0 <= r < |c.rules| && RuleMentions(c.rules[r], name)
  }

  predicate NamesOwn(pol: PolicyTable, name: string) {
    exists c :: 0 <= c < |pol| && ContextMentions(pol[c], name)
  }

  function OwnRequest(uid: int, gids: seq<int>, name: string): Request {
    Request(Own, uid, gids, None, None, None, None, None, [], Some(name), false, None, [])
  }

  lemma HoldsAlike(p: Pred, uid: int, gids: seq<int>, a: string, b: string)
    requires !Mentions(p, a) && !Mentions(p, b)
    ensures Holds(p, OwnRequest(uid, gids, a)) <==> Holds(p, OwnRequest(uid, gids, b))
  {
    hide AttrOf;
  }

  lemma MatchesAlike(rule: Rule, uid: int, gids: seq<int>, a: string, b: string)
    requires !RuleMentions(rule, a) && !RuleMentions(rule, b)
    ensures Matches(rule, OwnRequest(uid, gids, a)) <==> Matches(rule, OwnRequest(uid, gids, b))
  {
    hide Holds;
    hide Mentions;
    forall i | 0 <= i < |rule.preds|
      ensures Holds(rule.preds[i], OwnRequest(uid, gids, a)) <==> Holds(rule.preds[i], OwnRequest(uid, gids, b))
    {
      HoldsAlike(rule.preds[i], uid, gids, a, b);
    }
  }

  predicate NoneMentions(rules: seq<Rule>, name: string) {
    forall r :: 0 <= r < |rules| ==> !RuleMentions(rules[r], name)
  }

  lemma LastAlike(rules: seq<Rule>, uid: int, gids: seq<int>, a: string, b: string)
    requires NoneMentions(rules, a) && NoneMentions(rules, b)
    ensures LastAllows(rules, OwnRequest(uid, gids, a)) <==> LastAllows(rules, OwnRequest(uid, gids, b))
  {
    hide Matches;
    hide RuleMentions;
    forall k | 0 <= k < |rules|
      ensures Matches(rules[k], OwnRequest(uid, gids, a)) <==> Matches(rules[k], OwnRequest(uid, gids, b))
    {
      MatchesAlike(rules[k], uid, gids, a, b);
    }
  }

  lemma {:induction false} OfKindUnmentioned(pol: PolicyTable, kind: Kind, req: Request, name: string)
    requires !NamesOwn(pol, name)
    ensures NoneMentions(OfKind(pol, kind, req), name)
  {
    if pol != [] {
      var n := |pol| - 1;
      hide RuleMentions;
      assert !ContextMentions(pol[n], name);
      assert forall c :: 0 <= c < n ==> pol[..n][c] == pol[c];
      OfKindUnmentioned(pol[..n], kind, req, name);
      NoneBoth(OfKind(pol[..n], kind, req), pol[n].rules, name);
    }
  }

  lemma NoneBoth(a: seq<Rule>, b: seq<Rule>, name: string)
    requires NoneMentions(a, name)
    ensures NoneMentions(b, name) ==> NoneMentions(a + b, name)
    ensures NoneMentions(a + [], name)
  {
    assert a + [] == a;
  }

  lemma {:induction false} FlatUnmentioned(pol: PolicyTable, kinds: seq<Kind>, req: Request, name: string)
    requires !NamesOwn(pol, name)
    ensures NoneMentions(Flat(pol, kinds, req), name)
    decreases |kinds|
  {
    hide NamesOwn;
    hide RuleMentions;
    if kinds != [] {
      var k := |kinds| - 1;
      FlatUnmentioned(pol, kinds[..k], req, name);
      OfKindUnmentioned(pol, kinds[k], req, name);
      NoneBoth(Flat(pol, kinds[..k], req), OfKind(pol, kinds[k], req), name);
    }
  }

  /** The flattened rules depend on who asks, not on the name asked for. */
  lemma {:induction false} OfKindSame(pol: PolicyTable, kind: Kind, a: Request, b: Request)
    requires a.uid == b.uid && a.gids == b.gids
    ensures OfKind(pol, kind, a) == OfKind(pol, kind, b)
  {
    if pol != [] {
      OfKindSame(pol[..|pol| - 1], kind, a, b);
    }
  }

  lemma {:induction false} FlatSame(pol: PolicyTable, kinds: seq<Kind>, a: Request, b: Request)
    requires a.uid == b.uid && a.gids == b.gids
    ensures Flat(pol, kinds, a) == Flat(pol, kinds, b)
    decreases |kinds|
  {
    if kinds != [] {
      FlatSame(pol, kinds[..|kinds| - 1], a, b);
      OfKindSame(pol, kinds[|kinds| - 1], a, b);
    }
  }

  /** A policy treats all names it does not mention alike. */
  lemma UnmentionedAlike(pol: PolicyTable, uid: int, gids: seq<int>, a: string, b: string)
    requires !NamesOwn(pol, a) && !NamesOwn(pol, b)
    ensures Allowed(pol, OwnRequest(uid, gids, a)) <==> Allowed(pol, OwnRequest(uid, gids, b))
  {
    hide Flat;
    hide LastAllows;
    hide NamesOwn;
    hide NoneMentions;
    var x, y := OwnRequest(uid, gids, a), OwnRequest(uid, gids, b);
    FlatSame(pol, ORDER, x, y);
    FlatUnmentioned(pol, ORDER, x, a);
    FlatUnmentioned(pol, ORDER, x, b);
    LastAlike(Flat(pol, ORDER, x), uid, gids, a, b);
  }
}

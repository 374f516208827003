/**
 The account of a broker's live reloads: who asked, who was answered and by
 which reload. Requests are answered in the order they came, so the answered
 ones are a prefix of all and the waiting ones are the rest.
 */
module ReloadBooks {
  import opened Policy
  import opened PolicyEval

  datatype Waiter = Waiter(conn: int, serial: int)

  datatype Verdict = Success | Failure(why: string)

  datatype Reply = Reply(conn: int, serial: int, verdict: Verdict)

  /** A request, and how many reloads had started before it. */
  datatype Asked = Asked(conn: int, serial: int, since: nat)

  /** A request's end: whether a reply went out, and the reload that ended it. */
  datatype Closed = Closed(sent: bool, verdict: Verdict, nth: int)

  /** A policy and a table that were put in use together, and who owned names then. */
  datatype Adopted = Adopted(policy: PolicyTable, table: int, nth: int, owners: seq<Owner>)

  datatype Past = Past(asked: seq<Asked>, closed: seq<Closed>, starts: nat,
                       seen: set<int>, adopted: seq<Adopted>)

  /** The requests not yet answered are exactly the waiting ones, in order. */
  predicate Waits(asked: seq<Asked>, k: nat, waiting: seq<Waiter>) {
    && k + |waiting| == |asked|
    && forall i :: 0 <= i < |waiting| ==> waiting[i] == Waiter(asked[k + i].conn, asked[k + i].serial)
  }

  /** A success never comes from a reload that started before its request. */
  predicate Fresh(asked: seq<Asked>, closed: seq<Closed>) {
    && |closed| <= |asked|
    && forall i :: 0 <= i < |closed| ==> closed[i].verdict.Success? ==> closed[i].nth >= asked[i].since
  }

  /** Nobody who is still connected was passed over. */
  predicate Reached(asked: seq<Asked>, closed: seq<Closed>, conns: set<int>) {
    && |closed| <= |asked|
    && forall i :: 0 <= i < |closed| ==> asked[i].conn in conns ==> closed[i].sent
  }

  /** The replies on the wire: one for each request that was sent one. */
  function Wire(asked: seq<Asked>, closed: seq<Closed>): seq<Reply>
    requires |closed| <= |asked|
    decreases |closed|
  {
    if closed == [] then [] else
      var k := |closed| - 1;
      Wire(asked, closed[..k]) +
      (if closed[k].sent then [Reply(asked[k].conn, asked[k].serial, closed[k].verdict)] else [])
  }

  predicate Known(asked: seq<Asked>, seen: set<int>, starts: nat) {
    forall i :: 0 <= i < |asked| ==> asked[i].conn in seen && asked[i].since <= starts
  }

  /** Requests from `k` up to `n` all came before the reload now running. */
  predicate Due(asked: seq<Asked>, k: nat, n: nat, starts: nat) {
    n <= |asked| && forall i :: k <= i < n ==> asked[i].since < starts
  }

  predicate Books(g: Past, waiting: seq<Waiter>, conns: set<int>, wire: seq<Reply>) {
    && conns <= g.seen && Known(g.asked, g.seen, g.starts)
    && Fresh(g.asked, g.closed) && Reached(g.asked, g.closed, conns)
    && Waits(g.asked, |g.closed|, waiting)
    && wire == Wire(g.asked, g.closed)
  }

  lemma {:induction false} WireSnoc(asked: seq<Asked>, closed: seq<Closed>, c: Closed)
    requires |closed| < |asked|
    ensures Wire(asked, closed + [c]) == Wire(asked, closed) +
            (if c.sent then [Reply(asked[|closed|].conn, asked[|closed|].serial, c.verdict)] else [])
  {
    assert (closed + [c])[..|closed|] == closed;
  }

  lemma {:induction false} WireMore(asked: seq<Asked>, a: Asked, closed: seq<Closed>)
    requires |closed| <= |asked|
    ensures Wire(asked + [a], closed) == Wire(asked, closed)
    decreases |closed|
  {
    if closed != [] {
      WireMore(asked, a, closed[..|closed| - 1]);
    }
  }

  /** When every answered caller is still there, the wire holds one reply for
      each, in order, with its own serial and verdict. */
  lemma {:induction false} OneReplyEach(asked: seq<Asked>, closed: seq<Closed>, conns: set<int>, i: nat)
    requires Reached(asked, closed, conns)
    requires forall j :: 0 <= j < |closed| ==> asked[j].conn in conns
    requires i < |closed|
    ensures |Wire(asked, closed)| == |closed|
    ensures Wire(asked, closed)[i] == Reply(asked[i].conn, asked[i].serial, closed[i].verdict)
    decreases |closed|
  {
    var k := |closed| - 1;
    assert asked[k].conn in conns;
    if k > 0 {
      OneReplyEach(asked, closed[..k], conns, if i < k then i else 0);
    }
  }

  /** Nobody who is gone gets in the way of the others: the replies to one
      connection are those of its own requests, in order. */
  function RepliesTo(wire: seq<Reply>, conn: int): seq<Reply> {
    if wire == [] then [] else
      RepliesTo(wire[..|wire| - 1], conn) + (if wire[|wire| - 1].conn == conn then [wire[|wire| - 1]] else [])
  }

  function OwedTo(asked: seq<Asked>, closed: seq<Closed>, conn: int): seq<Reply>
    requires |closed| <= |asked|
    decreases |closed|
  {
    if closed == [] then [] else
      var k := |closed| - 1;
      OwedTo(asked, closed[..k], conn) +
      (if asked[k].conn == conn then [Reply(conn, asked[k].serial, closed[k].verdict)] else [])
  }

  lemma {:induction false} RepliesSnoc(wire: seq<Reply>, r: Reply, conn: int)
    ensures RepliesTo(wire + [r], conn) == RepliesTo(wire, conn) + (if r.conn == conn then [r] else [])
  {
    assert (wire + [r])[..|wire|] == wire;
  }

  /** A connection that is still there has had exactly one reply for each of
      its closed requests, in order. */
  lemma {:induction false} EveryoneAnsweredOnce(asked: seq<Asked>, closed: seq<Closed>, conns: set<int>, conn: int)
    requires Reached(asked, closed, conns) && conn in conns
    ensures RepliesTo(Wire(asked, closed), conn) == OwedTo(asked, closed, conn)
    decreases |closed|
  {
    if closed != [] {
      var k := |closed| - 1;
      var w := Wire(asked, closed[..k]);
      EveryoneAnsweredOnce(asked, closed[..k], conns, conn);
      if closed[k].sent {
        RepliesSnoc(w, Reply(asked[k].conn, asked[k].serial, closed[k].verdict), conn);
      } else {
        assert w + [] == w;
      }
    }
  }

  // ---- steps ----

  lemma AskStep(g: Past, waiting: seq<Waiter>, conns: set<int>, wire: seq<Reply>, conn: int,
                      serial: int)
    requires Books(g, waiting, conns, wire) && conn in conns
    ensures Books(g.(asked := g.asked + [Asked(conn, serial, g.starts)]), waiting + [Waiter(conn, serial)], conns, wire)
  {
    WireMore(g.asked, Asked(conn, serial, g.starts), g.closed);
  }

  lemma CloseStep(g: Past, waiting: seq<Waiter>, conns: set<int>, wire: seq<Reply>, v: Verdict,
                      nth: int)
    requires Books(g, waiting, conns, wire) && waiting != []
    requires v.Success? ==> |g.closed| < |g.asked| && nth >= g.asked[|g.closed|].since
    ensures var w := waiting[0];
            var c := Closed(w.conn in conns, v, nth);
            Books(g.(closed := g.closed + [c]), waiting[1..], conns,
                  wire + if c.sent then [Reply(w.conn, w.serial, v)] else [])
  {
    var c := Closed(waiting[0].conn in conns, v, nth);
    WireSnoc(g.asked, g.closed, c);
    CloseFresh(g.asked, g.closed, c);
    CloseReached(g.asked, g.closed, conns, c);
    hide Wire;
    hide Fresh;
    hide Reached;
    hide Known;
  }

  lemma CloseFresh(asked: seq<Asked>, closed: seq<Closed>, c: Closed)
    requires Fresh(asked, closed) && |closed| < |asked|
    requires c.verdict.Success? ==> c.nth >= asked[|closed|].since
    ensures Fresh(asked, closed + [c])
  {
  }

  lemma CloseReached(asked: seq<Asked>, closed: seq<Closed>, conns: set<int>, c: Closed)
    requires Reached(asked, closed, conns) && |closed| < |asked|
    requires asked[|closed|].conn in conns ==> c.sent
    ensures Reached(asked, closed + [c], conns)
  {
  }

  lemma LeaveStep(g: Past, waiting: seq<Waiter>, conns: set<int>, wire: seq<Reply>, conn: int)
    requires Books(g, waiting, conns, wire)
    ensures Books(g, waiting, conns - {conn}, wire)
  {
  }

  /** A new connection has an id nobody had before. */
  lemma ArriveStep(g: Past, waiting: seq<Waiter>, conns: set<int>, wire: seq<Reply>, conn: int)
    requires Books(g, waiting, conns, wire) && conn !in g.seen
    ensures Books(g.(seen := g.seen + {conn}), waiting, conns + {conn}, wire)
  {
  }

  lemma StartStep(g: Past, waiting: seq<Waiter>, conns: set<int>, wire: seq<Reply>)
    requires Books(g, waiting, conns, wire)
    ensures Books(g.(starts := g.starts + 1), waiting, conns, wire)
    ensures Due(g.asked, |g.closed|, |g.asked|, g.starts + 1)
  {
  }

  lemma NoneDue(g: Past, waiting: seq<Waiter>, conns: set<int>, wire: seq<Reply>)
    requires Books(g, waiting, conns, wire)
    ensures Due(g.asked, |g.closed|, |g.closed|, g.starts)
  {
  }

  // ---- what was in use over time ----

  /** Policies in the order they were adopted: each is the one before it, or
      keeps at least half of its rules and hurts nobody who owned a name then. */
  predicate Guarded(adopted: seq<Adopted>) {
    forall i :: 0 < i < |adopted| ==> Follows(adopted[i - 1], adopted[i])
  }

  predicate Follows(a: Adopted, b: Adopted) {
    b.policy == a.policy || SwapOk(a.policy, b.policy, b.owners)
  }

  lemma GuardedMore(adopted: seq<Adopted>, a: Adopted)
    requires Guarded(adopted) && (adopted != [] ==> Follows(adopted[|adopted| - 1], a))
    ensures Guarded(adopted + [a])
  {
    hide Follows;
  }

  /** No adoption loses more than half of the rules or hurts a name's owner. */
  lemma AdoptionIsSafe(adopted: seq<Adopted>, i: nat)
    requires Guarded(adopted) && 0 < i < |adopted|
    ensures 2 * RuleCount(adopted[i].policy) >= RuleCount(adopted[i - 1].policy)
    ensures adopted[i].policy != adopted[i - 1].policy ==>
              forall k :: 0 <= k < |adopted[i].owners| ==> OwnerSafe(adopted[i].policy, adopted[i].owners[k])
  {
    assert Follows(adopted[i - 1], adopted[i]);
  }
}

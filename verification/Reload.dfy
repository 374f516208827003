/**
 The broker's live reload: one reload at a time, requests that arrive during it
 wait for the next one, and an aborted broker leaves nobody waiting.
 */
module Reload {
  import opened Common
  import opened Policy
  import opened PolicyEval
  import opened ReloadBooks

  /** What the outside gives a reload that starts: the freshly parsed table,
      whether the policy file can be written, the child's pid (negative when
      the fork fails) and the time. */
  datatype World = World(table: int, canWrite: bool, forked: int, now: int)

  /** What the dissolve child left behind: it was killed, exited with a status,
      or gave a text that parses to a policy or does not. */
  datatype Child = Killed(signal: int) | Exited(status: int) | Empty | Unparsed | Gave(policy: PolicyTable)

  /** A reload goes through: it did not fail, and a policy it brought may replace
      the one in use, given who owns names now. */
  predicate Accepted(pol: Option<PolicyTable>, current: PolicyTable, owners: seq<Owner>, verdict: Verdict) {
    verdict.Success? && (pol.Some? ==> SwapOk(current, pol.value, owners))
  }

  class Reloader {
    const dissolves: bool
    const timeout: int

    var pid: int
    var deadline: int
    var running: bool
    var dirty: bool
    var run: seq<Waiter>
    var next: seq<Waiter>
    var tab: Option<int>
    var policy: PolicyTable
    var svctab: int
    var conns: set<int>
    var wire: seq<Reply>

    ghost var g: Past

    /** Holds while a handler is at work: the account is right, and what is in
        use was adopted as one pair. */
    ghost predicate Sound()
      reads this
    {
      && Books(g, run + next, conns, wire)
      && Due(g.asked, |g.closed|, |g.closed| + |run|, g.starts)
      && (next != [] ==> dirty)
      && g.adopted != []
      && policy == g.adopted[|g.adopted| - 1].policy
      && svctab == g.adopted[|g.adopted| - 1].table
      && Guarded(g.adopted)
    }

    /** Holds between events: whoever waits, a child is at work for them. */
    ghost predicate Valid()
      reads this
    {
      && Sound()
      && (running <==> pid != 0) && (running <==> tab.Some?)
      && (!running ==> run == [] && !dirty)
      && (running ==> dissolves)
    }

    ghost predicate SameOutside(old_g: Past, old_conns: set<int>)
      reads this
    {
      g.asked == old_g.asked && g.seen == old_g.seen && conns == old_conns
    }

    constructor (dissolves: bool, timeout: int, policy: PolicyTable, table: int)
      ensures Valid() && !running && wire == [] && conns == {}
      ensures g == Past([], [], 0, {}, [Adopted(policy, table, -1, [])])
    {
      this.dissolves, this.timeout := dissolves, timeout;
      pid, deadline, running, dirty := 0, 0, false, false;
      run, next, tab := [], [], None;
      this.policy, svctab, conns, wire := policy, table, {}, [];
      g := Past([], [], 0, {}, [Adopted(policy, table, -1, [])]);
    }

    /** Answers the first waiting requests, those of one list. */
    method ReplyAll(ws: seq<Waiter>, ghost rest: seq<Waiter>, v: Verdict)
      requires Books(g, ws + rest, conns, wire)
      requires v.Success? ==> Due(g.asked, |g.closed|, |g.closed| + |ws|, g.starts)
      modifies this`wire, this`g
      ensures Books(g, rest, conns, wire)
      ensures |g.closed| == |old(g.closed)| + |ws| && old(g.closed) <= g.closed
      ensures forall i :: |old(g.closed)| <= i < |g.closed| ==> g.closed[i].verdict == v
      ensures g == old(g).(closed := g.closed)
    {
      hide Books;
      assert ws[0..] + rest == ws + rest;
      for i := 0 to |ws|
        invariant Books(g, ws[i..] + rest, conns, wire)
        invariant |g.closed| == |old(g.closed)| + i && old(g.closed) <= g.closed
        invariant forall j :: |old(g.closed)| <= j < |g.closed| ==> g.closed[j].verdict == v
        invariant g == old(g).(closed := g.closed)
      {
        var w := ws[i];
        ghost var waiting := ws[i..] + rest;
        assert waiting[0] == w && waiting[1..] == ws[i + 1..] + rest;
        CloseStep(g, waiting, conns, wire, v, g.starts - 1);
        ghost var c := Closed(w.conn in conns, v, g.starts - 1);
        assert wire + [] == wire;
        if w.conn in conns {
          wire := wire + [Reply(w.conn, w.serial, v)];
        }
        g := g.(closed := g.closed + [c]);
      }
      assert ws[|ws|..] + rest == rest;
    }

    /** The policy in use after a reload that brought `pol`, or brought none. */
    function PolicyOr(pol: Option<PolicyTable>): PolicyTable
      reads this
    {
      if pol.Some? then pol.value else policy
    }

    /** What the running reload would adopt. */
    function Offered(pol: Option<PolicyTable>, owners: seq<Owner>, nth: int): Adopted
      reads this
      requires tab.Some?
    {
      Adopted(PolicyOr(pol), tab.value, nth, owners)
    }

    /** Puts the new table in use, with the new policy if there is one. */
    method Swap(pol: Option<PolicyTable>, ghost owners: seq<Owner>)
      requires Sound() && tab.Some? && (pol.Some? ==> SwapOk(policy, pol.value, owners))
      modifies this`policy, this`svctab, this`g
      ensures Sound() && svctab == tab.value && policy == old(PolicyOr(pol))
      ensures g == old(g).(adopted := old(g).adopted + [old(Offered(pol, owners, g.starts - 1))])
    {
      hide SwapOk;
      hide Guarded;
      GuardedMore(g.adopted, Offered(pol, owners, g.starts - 1));
      if pol.Some? { policy := pol.value; }
      svctab := tab.value;
      g := g.(adopted := g.adopted + [Adopted(policy, svctab, g.starts - 1, owners)]);
    }

    /** The outcome of the running reload: policy and table are swapped together
        or not at all, and its callers are answered. */
    method Settle(pol: Option<PolicyTable>, owners: seq<Owner>, verdict: Verdict)
      requires Sound() && tab.Some?
      modifies this`policy, this`svctab, this`g, this`tab, this`run, this`running, this`wire
      ensures Sound() && run == [] && !running && tab.None?
      ensures g == old(g).(closed := g.closed, adopted := g.adopted)
      ensures old(g.closed) <= g.closed && |g.closed| == |old(g.closed)| + |old(run)|
      ensures forall i :: |old(g.closed)| <= i < |g.closed| ==>
                (g.closed[i].verdict.Success? <==> Accepted(pol, old(policy), owners, verdict))
      ensures g.adopted == old(g.adopted) + if Accepted(pol, old(policy), owners, verdict)
                then [old(Offered(pol, owners, g.starts - 1))] else []
    {
      hide Books;
      hide Due;
      hide SwapOk;
      hide Guarded;
      var v := verdict;
      if v.Success? && pol.Some? {
        var ok, _ := PolicyOk(policy, pol.value, owners);
        if !ok { v := Failure("the new policy is refused"); }
      }
      if v.Success? {
        Swap(pol, owners);
      }
      tab := None;
      ReplyAll(run, next, v);
      run, running := [], false;
      assert [] + next == next;
      NoneDue(g, next, conns, wire);
    }

    /** Ends the running reload, and starts the next one if one is due. */
    method Finish(pol: Option<PolicyTable>, owners: seq<Owner>, verdict: Verdict, w: World)
      requires Sound() && running && pid == 0 && tab.Some? && w.forked != 0
      modifies this
      ensures Valid() && SameOutside(old(g), old(conns))
      ensures old(g.closed) <= g.closed && |g.closed| >= |old(g.closed)| + |old(run)|
      ensures old(g.adopted) <= g.adopted
      ensures forall i :: |old(g.closed)| <= i < |old(g.closed)| + |old(run)| ==>
                (g.closed[i].verdict.Success? <==> Accepted(pol, old(policy), owners, verdict))
      ensures Accepted(pol, old(policy), owners, verdict) ==>
                && |g.adopted| > |old(g.adopted)|
                && g.adopted[|old(g.adopted)|] == old(Offered(pol, owners, g.starts - 1))
      ensures dissolves ==> |g.adopted| == |old(g.adopted)| + if Accepted(pol, old(policy), owners, verdict) then 1 else 0
      ensures g.starts == old(g.starts) + if old(dirty) then 1 else 0
      ensures running <==> old(dirty) && dissolves && w.canWrite && w.forked > 0
      decreases if dirty then 2 else 0
    {
      hide Books;
      hide Due;
      hide SwapOk;
      hide Guarded;
      Settle(pol, owners, verdict);
      if dirty {
        dirty := false;
        run, next := next, [];
        assert [] + run == run + next;
        Start(w);
      }
    }

    method Start(w: World)
      requires Books(g, run + next, conns, wire) && next == [] && !dirty
      requires !running && pid == 0 && tab.None? && w.forked != 0
      requires g.adopted != [] && policy == g.adopted[|g.adopted| - 1].policy
      requires svctab == g.adopted[|g.adopted| - 1].table && Guarded(g.adopted)
      modifies this
      ensures Valid() && SameOutside(old(g), old(conns))
      ensures old(g.closed) <= g.closed && old(g.adopted) <= g.adopted
      ensures dissolves ==> g.adopted == old(g.adopted)
      ensures g.starts == old(g.starts) + 1
      ensures running ==> pid == w.forked && deadline == w.now + timeout && tab == Some(w.table)
      ensures running <==> dissolves && w.canWrite && w.forked > 0
      ensures running ==> g.closed == old(g.closed) && run == old(run)
      ensures !running ==> |g.closed| >= |old(g.closed)| + |old(run)|
      ensures !running ==> forall i :: |old(g.closed)| <= i < |old(g.closed)| + |old(run)| ==>
                (g.closed[i].verdict.Success? <==> !dissolves)
      decreases 1
    {
      StartStep(g, run + next, conns, wire);
      running, tab := true, Some(w.table);
      g := g.(starts := g.starts + 1);
      if !dissolves {
        Finish(None, [], Success, w);
        return;
      }
      if !w.canWrite {
        Finish(None, [], Failure("cannot write the new policy"), w);
        return;
      }
      if w.forked < 0 {
        Finish(None, [], Failure("fork failed"), w);
        return;
      }
      pid := w.forked;
      deadline := w.now + timeout;
    }

    /** A reload is asked for: by a caller, or by a signal or a watched file
        when `conn` is 0. */
    method Request(conn: int, serial: int, w: World)
      requires Valid() && w.forked != 0 && (conn != 0 ==> conn in conns)
      modifies this
      ensures Valid() && conns == old(conns) && g.seen == old(g.seen)
      ensures g.asked == old(g.asked) + if conn != 0 then [Asked(conn, serial, old(g.starts))] else []
      ensures old(g.closed) <= g.closed && old(g.adopted) <= g.adopted
      ensures old(running) ==> dirty && wire == old(wire) && g.starts == old(g.starts) && pid == old(pid)
      ensures !old(running) ==> g.starts == old(g.starts) + 1
    {
      if conn != 0 {
        AskStep(g, run + next, conns, wire, conn, serial);
        g := g.(asked := g.asked + [Asked(conn, serial, g.starts)]);
        if running {
          assert (run + next) + [Waiter(conn, serial)] == run + (next + [Waiter(conn, serial)]);
          next := next + [Waiter(conn, serial)];
        } else {
          assert (run + next) + [Waiter(conn, serial)] == (run + [Waiter(conn, serial)]) + next;
          run := run + [Waiter(conn, serial)];
        }
      }
      if running {
        dirty := true;
        return;
      }
      Start(w);
    }

    /** A child was reaped; false if it was not the dissolve child. `owners` are
        the connections that own names now. */
    method Reaped(p: int, child: Child, owners: seq<Owner>, w: World) returns (mine: bool)
      requires Valid() && w.forked != 0
      modifies this
      ensures Valid() && SameOutside(old(g), old(conns))
      ensures mine <==> old(pid) != 0 && p == old(pid)
      ensures !mine ==> g == old(g) && wire == old(wire) && policy == old(policy) && svctab == old(svctab)
      ensures mine ==> |g.closed| >= |old(g.closed)| + |old(run)|
      ensures var good := child.Gave? && SwapOk(old(policy), child.policy, owners);
              mine ==>
                && (forall i :: |old(g.closed)| <= i < |old(g.closed)| + |old(run)| ==>
                      (g.closed[i].verdict.Success? <==> good))
                && g.adopted == old(g.adopted) + if good
                     then [Adopted(child.policy, old(tab.value), old(g.starts) - 1, owners)] else []
      ensures old(g.closed) <= g.closed && old(g.adopted) <= g.adopted
    {
      hide SwapOk;
      hide Guarded;
      hide Books;
      hide Due;
      if pid == 0 || p != pid { return false; }
      pid := 0;
      match child {
        case Killed(_) => Finish(None, [], Failure("dissolver killed by signal"), w);
        case Exited(_) => Finish(None, [], Failure("dissolver exited"), w);
        case Empty => Finish(None, [], Failure("dissolver produced no policy"), w);
        case Unparsed => Finish(None, [], Failure("new policy did not parse"), w);
        case Gave(pol) => Finish(Some(pol), owners, Success, w);
      }
      return true;
    }

    /** A child past its deadline is killed and its reload fails. */
    method CheckTimeout(now: int, w: World)
      requires Valid() && w.forked != 0
      modifies this
      ensures Valid() && SameOutside(old(g), old(conns))
      ensures old(running) && now >= old(deadline) ==> |g.closed| >= |old(g.closed)| + |old(run)|
      ensures old(running) && now >= old(deadline) ==>
                forall i :: |old(g.closed)| <= i < |old(g.closed)| + |old(run)| ==> g.closed[i].verdict.Failure?
      ensures g.adopted == old(g.adopted) && policy == old(policy) && svctab == old(svctab)
      ensures !(old(running) && now >= old(deadline)) ==> g == old(g) && wire == old(wire)
      ensures old(g.closed) <= g.closed
    {
      if pid != 0 && now >= deadline {
        pid := 0;
        Finish(None, [], Failure("dissolver timed out"), w);
      }
    }

    /** The broker is going down: everybody waiting is told, nothing is swapped. */
    method Abort()
      requires Valid()
      modifies this
      ensures Books(g, [], conns, wire) && |g.closed| == |g.asked|
      ensures SameOutside(old(g), old(conns)) && pid == 0
      ensures old(g.closed) <= g.closed && policy == old(policy) && svctab == old(svctab)
    {
      pid := 0;
      ReplyAll(run, next, Failure("Message bus is restarting"));
      assert next + [] == next;
      ReplyAll(next, [], Failure("Message bus is restarting"));
      run, next := [], [];
    }

    // Connections come and go between the steps above.

    method Disconnect(conn: int)
      requires Valid()
      modifies this
      ensures Valid() && conns == old(conns) - {conn} && g == old(g) && wire == old(wire)
    {
      LeaveStep(g, run + next, conns, wire, conn);
      conns := conns - {conn};
    }

    method Connect(conn: int)
      requires Valid() && conn !in g.seen && conn != 0
      modifies this
      ensures Valid() && conns == old(conns) + {conn} && wire == old(wire)
      ensures g == old(g).(seen := old(g).seen + {conn})
    {
      ArriveStep(g, run + next, conns, wire, conn);
      conns := conns + {conn};
      g := g.(seen := g.seen + {conn});
    }
  }
}

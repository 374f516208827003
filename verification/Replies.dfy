/**
 The broker's pending-reply table. Slots are reused, so the account follows the
 calls: each recorded call either waits in one live slot or has left, once, for
 one reason.
 */
module Replies {

  const REPLY_TIMEOUT_MS := 120000

  datatype Slot = Slot(callee: int, caller: int, serial: int, live: bool, deadline: int)

  datatype Call = Call(callee: int, caller: int, serial: int, deadline: int)

  datatype End = Matched | Expired | CalleeGone | CallerGone

  datatype Fate = Waiting(slot: nat) | Left(why: End)

  /** The calls of a run, where each is, and which call each slot last held. */
  datatype Account = Account(calls: seq<Call>, fates: seq<Fate>, ids: seq<nat>)

  function SlotOf(c: Call): Slot {
    Slot(c.callee, c.caller, c.serial, true, c.deadline)
  }

  /** Every waiting call is in its own live slot. */
  predicate Placed(ents: seq<Slot>, g: Account) {
    && |g.fates| == |g.calls| && |g.ids| == |ents|
    && forall id :: 0 <= id < |g.fates| ==> g.fates[id].Waiting? ==>
         g.fates[id].slot < |ents| && ents[g.fates[id].slot] == SlotOf(g.calls[id]) && g.ids[g.fates[id].slot] == id
  }

  /** Every live slot holds a waiting call. */
  predicate Filled(ents: seq<Slot>, g: Account) {
    && |g.ids| == |ents|
    && forall i :: 0 <= i < |ents| ==> ents[i].live ==>
         g.ids[i] < |g.fates| && g.fates[g.ids[i]] == Waiting(i)
  }

  predicate Fits(ents: seq<Slot>, g: Account) {
    Placed(ents, g) && Filled(ents, g)
  }

  function Killed(ents: seq<Slot>, i: nat): seq<Slot>
    requires i < |ents|
  {
    ents[i := ents[i].(live := false)]
  }

  function Ended(g: Account, id: nat, why: End): Account
    requires id < |g.fates|
  {
    g.(fates := g.fates[id := Left(why)])
  }

  lemma KillFits(ents: seq<Slot>, g: Account, i: nat, why: End)
    requires Fits(ents, g) && i < |ents| && ents[i].live
    ensures |g.ids| == |ents| && g.ids[i] < |g.fates| && Fits(Killed(ents, i), Ended(g, g.ids[i], why))
  {
    var ents', g' := Killed(ents, i), Ended(g, g.ids[i], why);
    assert Placed(ents', g');
    forall j | 0 <= j < |ents'| && ents'[j].live
      ensures g'.ids[j] < |g'.fates| && g'.fates[g'.ids[j]] == Waiting(j)
    {
      assert ents[j].live && g.fates[g.ids[j]] == Waiting(j);
    }
  }

  /** A new call goes in a dead slot, or in one more slot at the end. */
  function Recorded(g: Account, c: Call, i: nat): Account
    requires i <= |g.ids|
  {
    Account(g.calls + [c], g.fates + [Waiting(i)],
            if i < |g.ids| then g.ids[i := |g.calls|] else g.ids + [|g.calls|])
  }

  lemma RecordFits(ents: seq<Slot>, g: Account, c: Call, i: nat)
    requires Fits(ents, g) && i <= |ents| && (i < |ents| ==> !ents[i].live)
    ensures Fits(if i < |ents| then ents[i := SlotOf(c)] else ents + [SlotOf(c)], Recorded(g, c, i))
  {
    var ents' := if i < |ents| then ents[i := SlotOf(c)] else ents + [SlotOf(c)];
    var g' := Recorded(g, c, i);
    forall id | 0 <= id < |g'.fates| && g'.fates[id].Waiting?
      ensures var s := g'.fates[id].slot;
              s < |ents'| && ents'[s] == SlotOf(g'.calls[id]) && g'.ids[s] == id
    {
      if id < |g.fates| {
        assert g'.fates[id] == g.fates[id];
        assert g.fates[id].slot < |ents| && ents[g.fates[id].slot].live;
      }
    }
    forall j | 0 <= j < |ents'| && ents'[j].live
      ensures g'.ids[j] < |g'.fates| && g'.fates[g'.ids[j]] == Waiting(j)
    {
      if j != i {
        assert ents[j].live && g.fates[g.ids[j]] == Waiting(j);
      }
    }
  }

  // ---- what a reply may be matched with ----

  predicate Answers(callee: int, caller: int, serial: int, sender: int, reply: int, want: int) {
    callee == sender && serial == reply && (want < 0 || caller == want)
  }

  predicate SlotAnswers(e: Slot, sender: int, reply: int, want: int) {
    e.live && Answers(e.callee, e.caller, e.serial, sender, reply, want)
  }

  predicate CallAnswers(g: Account, id: nat, sender: int, reply: int, want: int)
    requires id < |g.fates| == |g.calls|
  {
    g.fates[id].Waiting? && Answers(g.calls[id].callee, g.calls[id].caller, g.calls[id].serial, sender, reply, want)
  }

  /** No slot matches exactly when no waiting call does. */
  lemma NoSlotNoCall(ents: seq<Slot>, g: Account, sender: int, reply: int, want: int, id: nat)
    requires Fits(ents, g) && id < |g.calls|
    requires forall i :: 0 <= i < |ents| ==> !SlotAnswers(ents[i], sender, reply, want)
    ensures !CallAnswers(g, id, sender, reply, want)
  {
    if g.fates[id].Waiting? {
      assert !SlotAnswers(ents[g.fates[id].slot], sender, reply, want);
    }
  }

  // ---- reports to stranded callers ----

  datatype Reason = Overdue(now: int) | Gone(conn: int)

  /** Which calls end for a reason, whoever is told. */
  predicate Ends(r: Reason, callee: int, caller: int, deadline: int) {
    match r
    case Overdue(now) => deadline <= now
    case Gone(conn) => caller == conn || callee == conn
  }

  /** Whose caller is told: one that is not the connection that went away. */
  predicate Told(r: Reason, e: Slot) {
    e.live && match r
    case Overdue(now) => e.deadline <= now
    case Gone(conn) => e.callee == conn && e.caller != conn
  }

  function Why(r: Reason, caller: int): End {
    match r
    case Overdue(_) => Expired
    case Gone(conn) => if caller == conn then CallerGone else CalleeGone
  }

  datatype Notice = Notice(caller: int, serial: int)

  function Reports(ents: seq<Slot>, r: Reason): seq<Notice> {
    if ents == [] then [] else
      var e := ents[|ents| - 1];
      Reports(ents[..|ents| - 1], r) + (if Told(r, e) then [Notice(e.caller, e.serial)] else [])
  }

  /** Callers waiting on a callee, one of them left out, in slot order. */
  function Stranded(ents: seq<Slot>, callee: int, except: int): seq<Notice> {
    if ents == [] then [] else
      var e := ents[|ents| - 1];
      Stranded(ents[..|ents| - 1], callee, except) +
      (if e.live && e.callee == callee && e.caller != except then [Notice(e.caller, e.serial)] else [])
  }

  lemma {:induction false} ReportsSnoc(ents: seq<Slot>, i: nat, r: Reason)
    requires i < |ents|
    ensures Reports(ents[..i + 1], r) ==
            Reports(ents[..i], r) + (if Told(r, ents[i]) then [Notice(ents[i].caller, ents[i].serial)] else [])
    ensures |Reports(ents[..i + 1], r)| <= |Reports(ents[..i], r)| + 1
  {
    assert ents[..i + 1][..i] == ents[..i];
  }

  function AtMost(s: seq<Notice>, max: nat): seq<Notice> {
    if |s| <= max then s else s[..max]
  }

  /** A call's fate after everything that ends for a reason in slots below `n`
      has been ended. */
  function FateAfter(g: Account, id: nat, r: Reason, n: nat): Fate
    requires id < |g.fates| == |g.calls|
  {
    var c := g.calls[id];
    if g.fates[id].Waiting? && g.fates[id].slot < n && Ends(r, c.callee, c.caller, c.deadline)
    then Left(Why(r, c.caller)) else g.fates[id]
  }

  predicate EndedBelow(g: Account, g': Account, r: Reason, n: nat) {
    && |g.fates| == |g.calls| && g'.calls == g.calls && g'.ids == g.ids && |g'.fates| == |g.fates|
    && forall id :: 0 <= id < |g.fates| ==> g'.fates[id] == FateAfter(g, id, r, n)
  }

  /** Slots from `n` on are as they were. */
  predicate SameAbove(ents: seq<Slot>, ents': seq<Slot>, n: nat) {
    |ents'| == |ents| && forall i :: n <= i < |ents| ==> ents'[i] == ents[i]
  }

  lemma EndedStep(was: seq<Slot>, ents: seq<Slot>, g: Account, g': Account, r: Reason, n: nat)
    requires Fits(was, g) && Fits(ents, g') && EndedBelow(g, g', r, n) && SameAbove(was, ents, n) && n < |ents|
    ensures ents[n] == was[n]
    ensures ents[n].live ==> g'.ids[n] < |g'.fates|
    ensures ents[n].live && Ends(r, ents[n].callee, ents[n].caller, ents[n].deadline) ==>
              EndedBelow(g, Ended(g', g'.ids[n], Why(r, ents[n].caller)), r, n + 1) &&
              SameAbove(was, Killed(ents, n), n + 1)
    ensures !(ents[n].live && Ends(r, ents[n].callee, ents[n].caller, ents[n].deadline)) ==>
              EndedBelow(g, g', r, n + 1) && SameAbove(was, ents, n + 1)
  {
    var e := ents[n];
    assert e == was[n];
    if e.live {
      var here := g.ids[n];
      assert g.fates[here] == Waiting(n) && was[n] == SlotOf(g.calls[here]);
      forall id | 0 <= id < |g.fates|
        ensures id != here ==> FateAfter(g, id, r, n + 1) == FateAfter(g, id, r, n)
      {
      }
    } else {
      forall id | 0 <= id < |g.fates|
        ensures FateAfter(g, id, r, n + 1) == FateAfter(g, id, r, n)
      {
      }
    }
  }

  /** Connection ids and times are never negative. */
  predicate Plain(ents: seq<Slot>) {
    forall i :: 0 <= i < |ents| ==> ents[i].caller >= 0 && ents[i].deadline >= 0
  }

  class Table {
    var ents: seq<Slot>
    ghost var g: Account

    ghost predicate Valid()
      reads this
    {
      Fits(ents, g) && Plain(ents)
    }

    constructor ()
      ensures Valid() && ents == [] && g == Account([], [], [])
    {
      ents := [];
      g := Account([], [], []);
    }

    /** A method call was sent on: its reply is awaited. */
    method Record(callee: int, serial: int, caller: int, now: int)
      requires Valid() && caller >= 0 && now >= 0
      modifies this
      ensures Valid()
      ensures g.calls == old(g.calls) + [Call(callee, caller, serial, now + REPLY_TIMEOUT_MS)]
      ensures |g.fates| == |old(g.fates)| + 1 && old(g.fates) <= g.fates && g.fates[|old(g.fates)|].Waiting?
    {
      var c := Call(callee, caller, serial, now + REPLY_TIMEOUT_MS);
      for i := 0 to |ents|
        invariant ents == old(ents) && g == old(g)
      {
        if !ents[i].live {
          RecordFits(ents, g, c, i);
          ents := ents[i := SlotOf(c)];
          g := Recorded(g, c, i);
          return;
        }
      }
      RecordFits(ents, g, c, |ents|);
      g := Recorded(g, c, |ents|);
      ents := ents + [SlotOf(c)];
    }

    /** The caller a reply goes to, taken off the table, or -1. */
    method Match(sender: int, reply: int, want: int) returns (caller: int, ghost id: nat)
      requires Valid()
      modifies this
      ensures Valid()
      ensures caller >= 0 ==>
                && id < |old(g.calls)| && CallAnswers(old(g), id, sender, reply, want)
                && caller == old(g.calls)[id].caller && (want >= 0 ==> caller == want)
                && g == Ended(old(g), id, Matched)
      ensures caller < 0 ==> g == old(g) && ents == old(ents)
      ensures caller < 0 ==> forall k :: 0 <= k < |g.calls| ==> !CallAnswers(g, k, sender, reply, want)
    {
      id := 0;
      for i := 0 to |ents|
        invariant ents == old(ents) && g == old(g)
        invariant forall j :: 0 <= j < i ==> !SlotAnswers(ents[j], sender, reply, want)
      {
        if SlotAnswers(ents[i], sender, reply, want) {
          KillFits(ents, g, i, Matched);
          id := g.ids[i];
          caller := ents[i].caller;
          g := Ended(g, id, Matched);
          ents := Killed(ents, i);
          return;
        }
      }
      forall k | 0 <= k < |g.calls|
        ensures !CallAnswers(g, k, sender, reply, want)
      {
        NoSlotNoCall(ents, g, sender, reply, want, k);
      }
      caller := -1;
    }

    /** Callers waiting on a callee, but for one of them. */
    method PendingOn(callee: int, except: int, max: nat) returns (told: seq<Notice>)
      ensures told == AtMost(Stranded(ents, callee, except), max)
    {
      told := [];
      var i := 0;
      while i < |ents| && |told| < max
        invariant i <= |ents| && |Stranded(ents[..i], callee, except)| <= max
        invariant told == Stranded(ents[..i], callee, except)
      {
        assert ents[..i + 1][..i] == ents[..i];
        if ents[i].live && ents[i].callee == callee && ents[i].caller != except {
          told := told + [Notice(ents[i].caller, ents[i].serial)];
        }
        i := i + 1;
      }
      assert ents[..|ents|] == ents;
      if i < |ents| {
        StrandedPrefix(ents, i, callee, except);
      }
    }

    /** Earliest deadline of a waiting call, or -1. */
    method NextDeadline() returns (best: int)
      requires Valid()
      ensures best < 0 <==> forall id :: 0 <= id < |g.fates| ==> g.fates[id].Left?
      ensures best >= 0 ==> forall id :: 0 <= id < |g.fates| && g.fates[id].Waiting? ==> best <= g.calls[id].deadline
      ensures best >= 0 ==> exists id :: 0 <= id < |g.fates| && g.fates[id].Waiting? && best == g.calls[id].deadline
    {
      best := -1;
      ghost var at := -1;
      for i := 0 to |ents|
        invariant best < 0 ==> best == -1 && forall j :: 0 <= j < i ==> !ents[j].live
        invariant best >= 0 ==> 0 <= at < i && ents[at].live && ents[at].deadline == best
        invariant best >= 0 ==> forall j :: 0 <= j < i && ents[j].live ==> best <= ents[j].deadline
      {
        if ents[i].live && (best < 0 || ents[i].deadline < best) {
          best := ents[i].deadline;
          at := i;
        }
      }
      if best >= 0 {
        assert g.fates[g.ids[at]] == Waiting(at);
      }
      forall id | 0 <= id < |g.fates| && g.fates[id].Waiting?
        ensures best >= 0 && best <= g.calls[id].deadline
      {
        assert ents[g.fates[id].slot] == SlotOf(g.calls[id]);
      }
    }

    /** Calls whose deadline has passed leave, and their callers are reported. */
    method ReapExpired(now: int, max: nat) returns (told: seq<Notice>)
      requires Valid()
      modifies this
      ensures Valid() && told == AtMost(Reports(old(ents), Overdue(now)), max)
      ensures EndedBelow(old(g), g, Overdue(now), |ents|) && |ents| == |old(ents)|
    {
      hide Fits;
      hide EndedBelow;
      ghost var r := Overdue(now);
      ghost var was := ents;
      told := [];
      StartEnding(ents, g, r);
      for i := 0 to |ents|
        invariant Fits(ents, g) && Plain(ents) && |ents| == |was| && EndedBelow(old(g), g, r, i) && SameAbove(was, ents, i)
        invariant told == AtMost(Reports(was[..i], r), max)
      {
        EndedStep(was, ents, old(g), g, r, i);
        ReportsSnoc(was, i, r);
        if ents[i].live && ents[i].deadline <= now {
          if |told| < max { told := told + [Notice(ents[i].caller, ents[i].serial)]; }
          KillFits(ents, g, i, Expired);
          g := Ended(g, g.ids[i], Expired);
          ents := Killed(ents, i);
        }
      }
      assert was[..|was|] == was;
    }

    /** Everything a gone connection called or was called for leaves. */
    method Purge(conn: int)
      requires Valid()
      modifies this
      ensures Valid() && EndedBelow(old(g), g, Gone(conn), |ents|) && |ents| == |old(ents)|
    {
      hide Fits;
      hide EndedBelow;
      ghost var r := Gone(conn);
      ghost var was := ents;
      StartEnding(ents, g, r);
      for i := 0 to |ents|
        invariant Fits(ents, g) && Plain(ents) && |ents| == |was| && EndedBelow(old(g), g, r, i) && SameAbove(was, ents, i)
      {
        EndedStep(was, ents, old(g), g, r, i);
        if ents[i].live && (ents[i].caller == conn || ents[i].callee == conn) {
          KillFits(ents, g, i, Why(r, ents[i].caller));
          g := Ended(g, g.ids[i], Why(r, ents[i].caller));
          ents := Killed(ents, i);
        }
      }
    }

    /** A connection goes away: whoever waited on it is told, and every call it
        was part of leaves the table. */
    method RemoveConn(conn: int) returns (told: seq<Notice>)
      requires Valid()
      modifies this
      ensures Valid() && told == Reports(old(ents), Gone(conn))
      ensures EndedBelow(old(g), g, Gone(conn), |ents|) && |ents| == |old(ents)|
    {
      told := [];
      if |ents| > 0 {
        told := PendingOn(conn, conn, |ents|);
        StrandedIsTold(ents, conn);
      }
      Purge(conn);
    }
  }

  lemma StartEnding(ents: seq<Slot>, g: Account, r: Reason)
    requires Fits(ents, g)
    ensures EndedBelow(g, g, r, 0) && SameAbove(ents, ents, 0)
  {
  }

  /** When the callee itself is the one left out, those are the callers that
      are told of its going. */
  lemma {:induction false} StrandedIsTold(ents: seq<Slot>, conn: int)
    ensures Stranded(ents, conn, conn) == Reports(ents, Gone(conn)) && |Stranded(ents, conn, conn)| <= |ents|
  {
    if ents != [] {
      StrandedIsTold(ents[..|ents| - 1], conn);
    }
  }

  lemma {:induction false} StrandedPrefix(ents: seq<Slot>, i: nat, callee: int, except: int)
    requires i <= |ents|
    ensures Stranded(ents[..i], callee, except) <= Stranded(ents, callee, except)
  {
    if i == |ents| {
      assert ents[..i] == ents;
    } else {
      StrandedPrefix(ents[..|ents| - 1], i, callee, except);
      assert ents[..|ents| - 1][..i] == ents[..i];
    }
  }

  // ---- what the steps add up to ----

  /** Across a step, a call that had left stays as it was: nobody leaves twice. */
  predicate LeftStays(g: Account, g': Account) {
    |g.fates| <= |g'.fates| && forall id :: 0 <= id < |g.fates| && g.fates[id].Left? ==> g'.fates[id] == g.fates[id]
  }

  lemma EndingKeepsLeft(g: Account, g': Account, r: Reason, n: nat)
    requires EndedBelow(g, g', r, n)
    ensures LeftStays(g, g')
  {
  }

  /** After a connection is gone no waiting call names it. */
  lemma GoneIsGone(ents: seq<Slot>, g: Account, g': Account, conn: int, id: nat)
    requires Fits(ents, g) && EndedBelow(g, g', Gone(conn), |ents|)
    requires id < |g'.fates| && g'.fates[id].Waiting?
    ensures g'.calls[id].caller != conn && g'.calls[id].callee != conn
  {
    assert g'.fates[id] == FateAfter(g, id, Gone(conn), |ents|);
  }

  /** A caller is told of a call exactly when the call ends without a reply and
      the caller is still there: the told slots are those of the calls that
      expired or lost their callee. */
  lemma ToldIsEnded(ents: seq<Slot>, g: Account, g': Account, r: Reason, id: nat)
    requires Fits(ents, g) && EndedBelow(g, g', r, |ents|) && id < |g.calls| && g.fates[id].Waiting?
    ensures g.fates[id].slot < |ents|
    ensures Told(r, ents[g.fates[id].slot]) <==> g'.fates[id] in {Left(Expired), Left(CalleeGone)}
  {
    assert g'.fates[id] == FateAfter(g, id, r, |ents|);
    assert ents[g.fates[id].slot] == SlotOf(g.calls[id]);
  }
}

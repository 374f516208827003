/**
 Every run of the shutdown loop ends. Each round either makes progress that
 can happen only a bounded number of times, or the clock moves towards a
 deadline that some live service cannot outlast.
 */
module ShutdownProof {
  import opened ShutdownModel

  // ---- progress left ----

  /** Steps this service can still take; its exec_stop_post counts for three
      because it can also bring a stop_first hold back once. */
  function Weight(t: Track): nat {
    (if t.stopAt == 0 then 1 else 0) + (if t.termAt == 0 then 1 else 0) +
    (if t.killed then 0 else 1) + (if t.postAt == 0 then 3 else 0)
  }

  function Total(ts: seq<Track>): nat {
    if ts == [] then 0 else Weight(ts[0]) + Total(ts[1..])
  }

  function Progress(s: State): nat {
    Total(s.ts) + (if s.held || s.first then 1 else 0)
  }

  lemma {:induction false} TotalBound(ts: seq<Track>)
    ensures Total(ts) <= 6 * |ts|
  {
    if ts != [] {
      TotalBound(ts[1..]);
    }
  }

  lemma {:induction false} TotalDrops(a: seq<Track>, b: seq<Track>, i: int)
    requires |a| == |b|
    requires forall j :: 0 <= j < |a| ==> Weight(b[j]) <= Weight(a[j])
    ensures Total(b) <= Total(a)
    ensures 0 <= i < |a| ==> Total(b) + Weight(a[i]) <= Total(a) + Weight(b[i])
  {
    if a != [] {
      TotalDrops(a[1..], b[1..], i - 1);
    }
  }

  // ---- the environment ----

  /** The next round comes later, and an empty cgroup gains no process. */
  predicate Later(prev: Round, r: Round) {
    && prev.now < r.now
    && |prev.seen| == |r.seen|
    && (forall i :: 0 <= i < |r.seen| && r.seen[i].up ==> prev.seen[i].up)
  }

  /** Children forked in round `r` have a pid and started before round `next`. */
  predicate ForkedBefore(r: Round, next: Round) {
    forall i :: 0 <= i < |r.seen| ==> ForkOk(r.seen[i].postFork, next.now) && ForkOk(r.seen[i].stopFork, next.now)
  }

  predicate ForkOk(f: Fork, limit: nat) {
    f.Child? ==> f.pid > 0 && f.at <= limit
  }

  // ---- invariants of a service ----

  /** No deadline of this service counts from later than `mark`. */
  predicate Anchored(t: Track, mark: nat) {
    t.termAt <= mark && t.stopAt <= mark && t.postAt <= mark && (t.pid > 0 ==> t.pidStart <= mark)
  }

  /** A service counted out stays out unless its exec_stop_post starts. */
  predicate Out(c: Service, t: Track, now: nat, up: bool) {
    && (t.killed || !up)
    && (!t.wasUp ==> t.postAt == 0)
    && t.postAt <= now
    && (t.postAt == 0 && t.wasUp && t.pid > 0 ==>
          t.killed || (t.pidStart <= now && Since(now, t.pidStart) >= Grace(c) + 1000))
    && (t.postAt != 0 && t.pid > 0 ==> Since(now, t.postAt) >= Grace(c))
  }

  predicate Kept(t: Track, t': Track) {
    && t'.termAt == t.termAt && t'.stopAt == t.stopAt && t'.postAt == t.postAt
    && (t'.pid > 0 ==> t'.pid == t.pid && t'.pidStart == t.pidStart)
  }

  function OneService(c: Service, t: Track, o: Seen, now: nat, first: bool, free: bool): Track {
    var t1 := Look(c, t, o, now, first);
    Apply(t1, Choose(c, t1, o, now, free), o, now)
  }

  /** A service never loses progress, and keeps its deadlines when it makes none. */
  lemma ServiceStep(c: Service, t: Track, o: Seen, now: nat, first: bool, free: bool)
    requires now > 0
    ensures var t' := OneService(c, t, o, now, first, free);
            && Weight(t') <= Weight(t)
            && (Weight(t') == Weight(t) ==> Kept(t, t'))
  {
  }

  lemma ServiceAnchored(c: Service, t: Track, o: Seen, now: nat, first: bool, free: bool,
                      mark: nat, next: nat)
    requires 0 < now <= next && mark <= next && Anchored(t, mark)
    requires ForkOk(o.postFork, next) && ForkOk(o.stopFork, next)
    ensures Anchored(OneService(c, t, o, now, first, free), next)
  {
  }

  /** Not alive after a round: out for good, as far as this round could see. */
  lemma ServiceOut(c: Service, t: Track, o: Seen, now: nat, first: bool, free: bool)
    requires now > 0 && Anchored(t, now)
    requires first || (!t.wasUp ==> t.postAt == 0)
    requires first ==> t.postAt == 0
    ensures var t' := OneService(c, t, o, now, first, free);
            && t'.alive == Look(c, t, o, now, first).alive
            && (!t'.wasUp ==> t'.postAt == 0)
            && (!t'.alive ==> Out(c, t', now, o.up))
  {
  }

  /** Only its exec_stop_post brings a service back, and that happens once. */
  lemma Returns(c: Service, t: Track, o: Seen, prevNow: nat, prevUp: bool, now: nat)
    requires prevNow < now
    requires o.up ==> prevUp
    requires !t.alive && Out(c, t, prevNow, prevUp)
    ensures Look(c, t, o, now, false).alive ==> t.postAt == 0 && Look(c, t, o, now, false).postAt != 0
  {
  }

  lemma ReturnCosts(c: Service, t: Track, o: Seen, now: nat, free: bool)
    requires now > 0 && t.postAt == 0 && Look(c, t, o, now, false).postAt != 0
    ensures Weight(OneService(c, t, o, now, false, free)) + 3 <= Weight(t)
  {
  }

  /** A live service whose deadlines all lie `Grace + 1000` or more in the past,
      and that nothing holds back, takes a step. */
  lemma DueServiceSteps(c: Service, t: Track, o: Seen, now: nat, first: bool, mark: nat)
    requires now > 0 && Anchored(t, mark) && now >= mark + Grace(c) + 1000
    requires Look(c, t, o, now, first).alive
    ensures Weight(OneService(c, t, o, now, first, true)) < Weight(t)
  {
  }

  // ---- invariants of the loop ----

  function MaxGrace(svcs: seq<Service>): (g: nat)
    ensures forall i :: 0 <= i < |svcs| ==> Grace(svcs[i]) <= g
  {
    if svcs == [] then 0 else
      var g := MaxGrace(svcs[1..]);
      if Grace(svcs[0]) > g then Grace(svcs[0]) else g
  }

  /** Nothing alive can sit this long without a step of some service. */
  function Window(cfg: Config): nat {
    SHUT_TOTAL_MS + MaxGrace(cfg.svcs) + 1000
  }

  predicate AllAnchored(s: State, mark: nat) {
    s.start <= mark && forall i :: 0 <= i < |s.ts| ==> Anchored(s.ts[i], mark)
  }

  predicate AllOut(cfg: Config, s: State, prev: Round)
    requires |s.ts| == |cfg.svcs| == |prev.seen|
  {
    forall i :: 0 <= i < |s.ts| ==>
      && (!s.ts[i].wasUp ==> s.ts[i].postAt == 0)
      && (!s.ts[i].alive ==> Out(cfg.svcs[i], s.ts[i], prev.now, prev.seen[i].up))
  }

  /** At the start of a round: before the first one nothing has run
      exec_stop_post yet; later `held` says whether a stop_first service is alive. */
  predicate Coherent(cfg: Config, s: State, prev: Round) {
    && |s.ts| == |cfg.svcs| == |prev.seen|
    && (s.first ==> !s.held && forall i :: 0 <= i < |s.ts| ==> s.ts[i].postAt == 0)
    && (!s.first ==> AllOut(cfg, s, prev) && s.held == Hold(cfg, s.ts))
  }

  lemma SettleIsOneService(cfg: Config, s: State, r: Round, i: int)
    requires Shaped(cfg, s, r) && 0 <= i < |cfg.svcs|
    ensures exists free ::
              Next(cfg, s, r).ts[i] == OneService(cfg.svcs[i], s.ts[i], r.seen[i], r.now, s.first, free)
  {
    var ts := LookAll(cfg, s, r);
    var free := Free(cfg, ts, i, NewStart(s, Hold(cfg, ts), r.now), r.now);
    assert Next(cfg, s, r).ts[i] == OneService(cfg.svcs[i], s.ts[i], r.seen[i], r.now, s.first, free);
  }

  lemma WeightsFall(cfg: Config, s: State, r: Round)
    requires Shaped(cfg, s, r) && r.now > 0
    ensures forall i :: 0 <= i < |s.ts| ==> Weight(Next(cfg, s, r).ts[i]) <= Weight(s.ts[i])
  {
    forall i | 0 <= i < |s.ts|
      ensures Weight(Next(cfg, s, r).ts[i]) <= Weight(s.ts[i])
    {
      SettleIsOneService(cfg, s, r, i);
      var free :| Next(cfg, s, r).ts[i] == OneService(cfg.svcs[i], s.ts[i], r.seen[i], r.now, s.first, free);
      ServiceStep(cfg.svcs[i], s.ts[i], r.seen[i], r.now, s.first, free);
    }
  }

  /** When the hold comes back, the service behind it has just spent its
      exec_stop_post. */
  lemma HoldReturns(cfg: Config, s: State, prev: Round, r: Round)
    requires Shaped(cfg, s, r) && Coherent(cfg, s, prev) && Later(prev, r)
    requires !s.first && !s.held && Hold(cfg, LookAll(cfg, s, r))
    ensures exists i :: 0 <= i < |s.ts| && Weight(Next(cfg, s, r).ts[i]) + 3 <= Weight(s.ts[i])
  {
    var ts := LookAll(cfg, s, r);
    var i :| 0 <= i < |ts| && ts[i].alive && cfg.svcs[i].stopFirst;
    assert !s.ts[i].alive && Out(cfg.svcs[i], s.ts[i], prev.now, prev.seen[i].up);
    assert ts[i] == Look(cfg.svcs[i], s.ts[i], r.seen[i], r.now, false);
    Returns(cfg.svcs[i], s.ts[i], r.seen[i], prev.now, prev.seen[i].up, r.now);
    SettleIsOneService(cfg, s, r, i);
    hide Weight;
    hide OneService;
    hide Next;
    var free :| Next(cfg, s, r).ts[i] == OneService(cfg.svcs[i], s.ts[i], r.seen[i], r.now, s.first, free);
    ReturnCosts(cfg.svcs[i], s.ts[i], r.seen[i], r.now, free);
  }

  /** One service's step is not undone by what the others and the hold do. */
  lemma StepCounts(cfg: Config, s: State, prev: Round, r: Round, i: int)
    requires Shaped(cfg, s, r) && Coherent(cfg, s, prev) && Later(prev, r)
    ensures Total(Next(cfg, s, r).ts) <= Total(s.ts)
    ensures Progress(Next(cfg, s, r)) <= Progress(s)
    ensures 0 <= i < |s.ts| && Weight(Next(cfg, s, r).ts[i]) < Weight(s.ts[i]) ==>
              Progress(Next(cfg, s, r)) < Progress(s)
    ensures Progress(Next(cfg, s, r)) == Progress(s) ==> Total(Next(cfg, s, r).ts) == Total(s.ts)
  {
    var s' := Next(cfg, s, r);
    WeightsFall(cfg, s, r);
    TotalDrops(s.ts, s'.ts, i);
    if !s.first && !s.held && s'.held {
      HoldReturns(cfg, s, prev, r);
      var j :| 0 <= j < |s.ts| && Weight(s'.ts[j]) + 3 <= Weight(s.ts[j]);
      hide *;
      TotalDrops(s.ts, s'.ts, j);
    }
  }

  lemma HoldEnds(cfg: Config, s: State, prev: Round, r: Round)
    requires Shaped(cfg, s, r) && Coherent(cfg, s, prev) && Later(prev, r)
    requires s.held && !Next(cfg, s, r).held
    ensures Progress(Next(cfg, s, r)) < Progress(s)
  {
    StepCounts(cfg, s, prev, r, 0);
  }

  /** No progress: every deadline stands where it stood. */
  lemma StandingStill(cfg: Config, s: State, prev: Round, r: Round, mark: nat)
    requires Shaped(cfg, s, r) && Coherent(cfg, s, prev) && Later(prev, r)
    requires AllAnchored(s, mark)
    requires Progress(Next(cfg, s, r)) == Progress(s)
    ensures AllAnchored(Next(cfg, s, r), mark)
  {
    var s' := Next(cfg, s, r);
    WeightsFall(cfg, s, r);
    StepCounts(cfg, s, prev, r, 0);
    if s.held && !s'.held {
      HoldEnds(cfg, s, prev, r);
    }
    forall i | 0 <= i < |s.ts|
      ensures Anchored(s'.ts[i], mark)
    {
      SettleIsOneService(cfg, s, r, i);
      var free :| s'.ts[i] == OneService(cfg.svcs[i], s.ts[i], r.seen[i], r.now, s.first, free);
      ServiceStep(cfg.svcs[i], s.ts[i], r.seen[i], r.now, s.first, free);
      StepCounts(cfg, s, prev, r, i);
    }
  }

  lemma AnchoredBy(cfg: Config, s: State, r: Round, next: Round, mark: nat)
    requires Shaped(cfg, s, r) && AllAnchored(s, mark) && mark <= r.now && 0 < r.now
    requires Later(r, next) && ForkedBefore(r, next)
    ensures AllAnchored(Next(cfg, s, r), next.now)
  {
    var s' := Next(cfg, s, r);
    forall i | 0 <= i < |s.ts|
      ensures Anchored(s'.ts[i], next.now)
    {
      SettleIsOneService(cfg, s, r, i);
      var free :| s'.ts[i] == OneService(cfg.svcs[i], s.ts[i], r.seen[i], r.now, s.first, free);
      ServiceAnchored(cfg.svcs[i], s.ts[i], r.seen[i], r.now, s.first, free, mark, next.now);
    }
  }

  lemma StaysCoherent(cfg: Config, s: State, prev: Round, r: Round, mark: nat)
    requires Shaped(cfg, s, r) && Coherent(cfg, s, prev) && Later(prev, r)
    requires AllAnchored(s, mark) && mark <= r.now
    ensures Coherent(cfg, Next(cfg, s, r), r)
  {
    var s', ts := Next(cfg, s, r), LookAll(cfg, s, r);
    forall i | 0 <= i < |s.ts|
      ensures s'.ts[i].alive == ts[i].alive
      ensures !s'.ts[i].wasUp ==> s'.ts[i].postAt == 0
      ensures !s'.ts[i].alive ==> Out(cfg.svcs[i], s'.ts[i], r.now, r.seen[i].up)
    {
      SettleIsOneService(cfg, s, r, i);
      var free :| s'.ts[i] == OneService(cfg.svcs[i], s.ts[i], r.seen[i], r.now, s.first, free);
      ServiceOut(cfg.svcs[i], s.ts[i], r.seen[i], r.now, s.first, free);
    }
  }

  /** Some live service is neither held back nor blocked once the window is over. */
  lemma SomeServiceIsDue(cfg: Config, s: State, r: Round, mark: nat) returns (i: int)
    requires Shaped(cfg, s, r) && r.now > 0
    requires AllAnchored(s, mark) && r.now >= mark + Window(cfg)
    requires !Finished(cfg, s, r) && !(s.held && !Hold(cfg, LookAll(cfg, s, r)))
    ensures 0 <= i < |s.ts| && Look(cfg.svcs[i], s.ts[i], r.seen[i], r.now, s.first).alive
    ensures Next(cfg, s, r).ts[i] == OneService(cfg.svcs[i], s.ts[i], r.seen[i], r.now, s.first, true)
  {
    var ts := LookAll(cfg, s, r);
    i :| 0 <= i < |ts| && ts[i].alive && (Hold(cfg, ts) ==> cfg.svcs[i].stopFirst);
    assert Free(cfg, ts, i, s.start, r.now);
  }

  /** A whole window without a step cannot pass while anything is alive. */
  lemma WindowForcesProgress(cfg: Config, s: State, prev: Round, r: Round, mark: nat)
    requires Shaped(cfg, s, r) && Coherent(cfg, s, prev) && Later(prev, r)
    requires AllAnchored(s, mark) && r.now >= mark + Window(cfg)
    requires !Finished(cfg, s, r)
    ensures Progress(Next(cfg, s, r)) < Progress(s)
  {
    if s.held && !Hold(cfg, LookAll(cfg, s, r)) {
      HoldEnds(cfg, s, prev, r);
    } else {
      var i := SomeServiceIsDue(cfg, s, r, mark);
      assert Anchored(s.ts[i], mark);
      hide Next;
      hide OneService;
      hide Progress;
      DueServiceSteps(cfg.svcs[i], s.ts[i], r.seen[i], r.now, s.first, mark);
      StepCounts(cfg, s, prev, r, i);
    }
  }

  // ---- whole runs ----

  predicate Tick(r: Round, next: Round) {
    Later(r, next) && ForkedBefore(r, next)
  }

  /** The rounds to come: a clock that advances, services whose empty cgroups
      stay empty, and forks between one look at the clock and the next. */
  predicate World(cfg: Config, world: seq<Round>) {
    && (forall k :: 0 <= k < |world| ==> |world[k].seen| == |cfg.svcs|)
    && (forall k :: 0 <= k < |world| - 1 ==> Tick(world[k], world[k + 1]))
    && (|world| > 0 ==> 0 < world[0].now)
  }

  /** The loop's variables before the first round; a stop runner may already run. */
  predicate Initial(cfg: Config, s: State, r: Round) {
    && |s.ts| == |cfg.svcs|
    && s.first && !s.held && s.start <= r.now
    && forall i :: 0 <= i < |s.ts| ==>
         && s.ts[i].termAt == s.ts[i].stopAt == s.ts[i].postAt == 0 && !s.ts[i].killed
         && (s.ts[i].pid > 0 ==> s.ts[i].pidStart <= r.now)
  }

  /** The state before round `k`. */
  function RunTo(cfg: Config, s: State, world: seq<Round>, k: nat): (s': State)
    requires |s.ts| == |cfg.svcs| && World(cfg, world) && k <= |world|
    ensures |s'.ts| == |cfg.svcs|
  {
    if k == 0 then s else Next(cfg, RunTo(cfg, s, world, k - 1), world[k - 1])
  }

  /** Rounds left when the last step was seen at clock `mark`. */
  function Budget(cfg: Config, s: State, mark: nat, now: nat): nat {
    Progress(s) * (Window(cfg) + 2) + (if now < mark + Window(cfg) then mark + Window(cfg) - now else 0)
  }

  function Bound(cfg: Config): (b: nat)
    ensures b > 0
  {
    (6 * |cfg.svcs| + 2) * (Window(cfg) + 2)
  }

  /** Where the loop stands before round `k`. */
  ghost predicate At(cfg: Config, s: State, prev: Round, r: Round, mark: nat) {
    Shaped(cfg, s, r) && Coherent(cfg, s, prev) && Later(prev, r) && AllAnchored(s, mark) && mark <= r.now
  }

  /** A round that does not finish leaves less of the budget. */
  lemma RoundSpendsBudget(cfg: Config, s: State, prev: Round, r: Round, next: Round,
                      mark: nat) returns (mark': nat)
    requires At(cfg, s, prev, r, mark) && Later(r, next) && ForkedBefore(r, next)
    requires !Finished(cfg, s, r)
    ensures At(cfg, Next(cfg, s, r), r, next, mark')
    ensures Budget(cfg, Next(cfg, s, r), mark', next.now) < Budget(cfg, s, mark, r.now)
  {
    hide Next;
    hide Coherent;
    hide AllAnchored;
    hide Progress;
    hide Window;
    hide Finished;
    hide ForkedBefore;
    var s' := Next(cfg, s, r);
    StepCounts(cfg, s, prev, r, 0);
    StaysCoherent(cfg, s, prev, r, mark);
    if Progress(s') < Progress(s) {
      mark' := next.now;
      AnchoredBy(cfg, s, r, next, mark);
      BudgetStep(Progress(s'), Progress(s), Window(cfg));
    } else {
      mark' := mark;
      StandingStill(cfg, s, prev, r, mark);
      if r.now >= mark + Window(cfg) {
        WindowForcesProgress(cfg, s, prev, r, mark);
      }
    }
  }

  lemma BudgetPositive(cfg: Config, s: State, mark: nat, now: nat)
    requires Progress(s) > 0
    ensures Budget(cfg, s, mark, now) > 0
  {
    BudgetStep(0, Progress(s), Window(cfg));
  }

  lemma BudgetLeft(cfg: Config, s: State, prev: Round, r: Round, mark: nat)
    requires At(cfg, s, prev, r, mark) && !Finished(cfg, s, r)
    ensures Budget(cfg, s, mark, r.now) > 0
  {
    if r.now >= mark + Window(cfg) {
      WindowForcesProgress(cfg, s, prev, r, mark);
      hide *;
      BudgetPositive(cfg, s, mark, r.now);
    }
  }

  lemma BudgetStep(a: nat, b: nat, w: nat)
    requires a < b
    ensures a * (w + 2) + w < b * (w + 2)
  {
    assert (a + 1) * (w + 2) <= b * (w + 2);
    assert (a + 1) * (w + 2) == a * (w + 2) + (w + 2);
  }

  lemma BeforeFirst(cfg: Config, s: State, r: Round)
    requires Initial(cfg, s, r) && |r.seen| == |cfg.svcs| && 0 < r.now
    ensures At(cfg, s, Round(0, r.seen), r, r.now)
    ensures Budget(cfg, s, r.now, r.now) < Bound(cfg)
  {
    TotalBound(s.ts);
    var n, w := 6 * |cfg.svcs| + 1, Window(cfg);
    assert Progress(s) <= n;
    assert Progress(s) * (w + 2) <= n * (w + 2);
    assert (n + 1) * (w + 2) == n * (w + 2) + (w + 2);
  }

  lemma {:induction false} Ends(cfg: Config, s0: State, world: seq<Round>, k: nat, prev: Round,
                      mark: nat) returns (m: nat)
    requires World(cfg, world) && |s0.ts| == |cfg.svcs| && k < |world|
    requires At(cfg, RunTo(cfg, s0, world, k), prev, world[k], mark)
    requires k + Budget(cfg, RunTo(cfg, s0, world, k), mark, world[k].now) < |world|
    ensures k <= m <= k + Budget(cfg, RunTo(cfg, s0, world, k), mark, world[k].now)
    ensures Finished(cfg, RunTo(cfg, s0, world, m), world[m])
    decreases Budget(cfg, RunTo(cfg, s0, world, k), mark, world[k].now)
  {
    var s := RunTo(cfg, s0, world, k);
    hide Budget;
    if Finished(cfg, s, world[k]) {
      m := k;
    } else {
      BudgetLeft(cfg, s, prev, world[k], mark);
      assert Tick(world[k], world[k + 1]);
      var mark' := RoundSpendsBudget(cfg, s, prev, world[k], world[k + 1], mark);
      m := Ends(cfg, s0, world, k + 1, world[k], mark');
    }
  }

  /** The loop is left within a number of rounds that depends only on how many
      services there are and on the longest grace, whatever the services do. */
  lemma {:induction false} ShutdownTerminates(cfg: Config, s0: State, world: seq<Round>)
    requires World(cfg, world) && |world| >= Bound(cfg) && Initial(cfg, s0, world[0])
    ensures exists m :: 0 <= m < Bound(cfg) && Finished(cfg, RunTo(cfg, s0, world, m), world[m])
  {
    BeforeFirst(cfg, s0, world[0]);
    var m := Ends(cfg, s0, world, 0, Round(0, world[0].seen), world[0].now);
  }
}

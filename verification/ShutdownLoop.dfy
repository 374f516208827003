/**
 The loop itself: three passes over the services per round, until a round
 finds nothing alive. Dafny accepts it as terminating because the budget of
 the remaining rounds falls.
 */
module ShutdownLoop {
  import opened ShutdownModel
  import opened ShutdownProof

  method ShutDependsOn(cfg: Config, s: Service, target: int) returns (r: bool)
    ensures r == DependsOn(cfg, s, target)
  {
    for k := 0 to |s.deps|
      invariant forall j :: 0 <= j < k ==> !Names(cfg, s.deps[j], target)
    {
      if s.deps[k].svc == target { return true; }
      var g := s.deps[k].group;
      if 0 <= g < |cfg.groups| {
        for m := 0 to |cfg.groups[g]|
          invariant target !in cfg.groups[g][..m]
        {
          if cfg.groups[g][m] == target { return true; }
        }
        assert cfg.groups[g][..|cfg.groups[g]|] == cfg.groups[g];
      }
    }
    return false;
  }

  /** The first pass at one service: reaped runner, liveness, exec_stop_post. */
  method LookOn(c: Service, t: Track, o: Seen, now: nat, first: bool) returns (r: Track)
    ensures r == Look(c, t, o, now, first)
  {
    var pid, pidStart, postAt := if o.reaped then 0 else t.pid, t.pidStart, t.postAt;
    var alive := !t.killed && o.up;
    var wasUp := t.wasUp;
    if first { wasUp := alive; }
    if !alive && wasUp && postAt == 0 {
      if pid > 0 {
        var ran := Since(now, pidStart);
        if !t.killed && ran < Grace(c) + 1000 { alive := true; }
      } else if c.nPost > 0 && o.postFork.Child? {
        pid, pidStart := o.postFork.pid, o.postFork.at;
        postAt := now;
      }
    }
    if postAt != 0 && pid > 0 {
      if Since(now, postAt) < Grace(c) { alive := true; }
    }
    r := t.(alive := alive, wasUp := wasUp, postAt := postAt, pid := pid, pidStart := pidStart);
  }

  method LookPass(cfg: Config, s: State, r: Round) returns (ts: seq<Track>, left: nat)
    requires Shaped(cfg, s, r)
    ensures ts == LookAll(cfg, s, r)
    ensures left == 0 <==> Finished(cfg, s, r)
  {
    ts, left := [], 0;
    for i := 0 to |cfg.svcs|
      invariant |ts| == i
      invariant forall j :: 0 <= j < i ==> ts[j] == LookAll(cfg, s, r)[j]
      invariant left == 0 <==> forall j :: 0 <= j < i ==> !ts[j].alive
    {
      var t := LookOn(cfg.svcs[i], s.ts[i], r.seen[i], r.now, s.first);
      ghost var before := ts;
      ts := ts + [t];
      assert ts[i] == t && forall j :: 0 <= j < i ==> ts[j] == before[j];
      if t.alive { left := left + 1; }
    }
    assert forall j :: 0 <= j < |ts| ==> ts[j] == LookAll(cfg, s, r)[j];
    assert ts == LookAll(cfg, s, r);
  }

  method HoldPass(cfg: Config, ts: seq<Track>) returns (hold: bool)
    requires |ts| == |cfg.svcs|
    ensures hold == Hold(cfg, ts)
  {
    hold := false;
    for i := 0 to |ts|
      invariant hold <==> exists j :: 0 <= j < i && ts[j].alive && cfg.svcs[j].stopFirst
    {
      if ts[i].alive && cfg.svcs[i].stopFirst { hold := true; }
    }
  }

  method IsBlocked(cfg: Config, ts: seq<Track>, i: int) returns (blocked: bool)
    requires |ts| == |cfg.svcs|
    ensures blocked == Blocked(cfg, ts, i)
  {
    blocked := false;
    var j := 0;
    while j < |ts| && !blocked
      invariant 0 <= j <= |ts|
      invariant blocked <==> exists m :: 0 <= m < j && m != i && ts[m].alive && DependsOn(cfg, cfg.svcs[m], i)
    {
      var d := ShutDependsOn(cfg, cfg.svcs[j], i);
      blocked := j != i && ts[j].alive && d;
      j := j + 1;
    }
  }

  /** What the round does to service `i`. */
  method ActOn(cfg: Config, s: State, r: Round, ts: seq<Track>, hold: bool, start: nat, i: int) returns (a: Act)
    requires Shaped(cfg, s, r) && 0 <= i < |cfg.svcs|
    requires ts == LookAll(cfg, s, r) && hold == Hold(cfg, ts) && start == NewStart(s, hold, r.now)
    ensures a == Choice(cfg, s, r, i)
  {
    var c, t, o := cfg.svcs[i], ts[i], r.seen[i];
    if !t.alive { return Wait; }
    if t.termAt != 0 {
      if Since(r.now, t.termAt) < Grace(c) { return Wait; }
      return KillTree;
    }
    if hold && !c.stopFirst { return Wait; }
    if Since(r.now, start) < SHUT_TOTAL_MS {
      var blocked := IsBlocked(cfg, ts, i);
      if blocked { return Wait; }
    }
    if t.stopAt == 0 {
      if t.pid > 0 { return Note; }
      if c.nStop > 0 && o.stopFork.Child? { return Begin; }
    } else if t.pid > 0 && Since(r.now, t.stopAt) < Grace(c) {
      return Wait;
    }
    return Terminate;
  }

  method ActPass(cfg: Config, s: State, r: Round, ts: seq<Track>) returns (s': State)
    requires Shaped(cfg, s, r)
    requires ts == LookAll(cfg, s, r)
    ensures s' == Next(cfg, s, r)
  {
    var hold := HoldPass(cfg, ts);
    var start := if s.held && !hold then r.now else s.start;
    var out: seq<Track> := [];
    for i := 0 to |cfg.svcs|
      invariant |out| == i
      invariant forall j :: 0 <= j < i ==> out[j] == Settle(cfg, s, r, j)
    {
      var a := ActOn(cfg, s, r, ts, hold, start, i);
      out := out + [Apply(ts[i], a, r.seen[i], r.now)];
    }
    assert forall j :: 0 <= j < |out| ==> out[j] == Next(cfg, s, r).ts[j];
    assert out == Next(cfg, s, r).ts;
    s' := State(out, start, hold, false);
  }

  /** Runs the loop against the rounds of `world` until one finds nothing alive. */
  method ShutdownOrdered(cfg: Config, s0: State, world: seq<Round>) returns (rounds: nat, ts: seq<Track>)
    requires World(cfg, world) && |world| >= Bound(cfg) && Initial(cfg, s0, world[0])
    ensures rounds < Bound(cfg)
    ensures ts == LookAll(cfg, RunTo(cfg, s0, world, rounds), world[rounds]) && !AnyAlive(ts)
    ensures forall k :: 0 <= k < rounds ==> !Finished(cfg, RunTo(cfg, s0, world, k), world[k])
  {
    var s := s0;
    rounds := 0;
    ghost var prev, mark := Round(0, world[0].seen), world[0].now;
    BeforeFirst(cfg, s0, world[0]);
    hide Budget;
    hide LookAll;
    hide Next;
    hide Coherent;
    hide AllAnchored;
    hide Bound;
    while true
      invariant rounds < |world| && s == RunTo(cfg, s0, world, rounds)
      invariant At(cfg, s, prev, world[rounds], mark)
      invariant rounds + Budget(cfg, s, mark, world[rounds].now) < Bound(cfg)
      invariant forall k :: 0 <= k < rounds ==> !Finished(cfg, RunTo(cfg, s0, world, k), world[k])
      decreases Budget(cfg, s, mark, world[rounds].now)
    {
      var r := world[rounds];
      var left;
      ts, left := LookPass(cfg, s, r);
      if left == 0 { return; }
      BudgetLeft(cfg, s, prev, r, mark);
      assert Tick(r, world[rounds + 1]);
      ghost var mark' := RoundSpendsBudget(cfg, s, prev, r, world[rounds + 1], mark);
      s := ActPass(cfg, s, r, ts);
      prev, mark := r, mark';
      rounds := rounds + 1;
    }
  }
}

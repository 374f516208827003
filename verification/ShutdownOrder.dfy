/**
 What a whole shutdown run promises each service: its signals come in order,
 at most once, never before the grace is over, and never while a live service
 that depends on it is still within the overall time limit.
 */
module ShutdownOrder {
  import opened ShutdownModel
  import opened ShutdownProof

  /** What round `k` of the run does to service `i`. */
  function Did(cfg: Config, s0: State, world: seq<Round>, k: nat, i: nat): Act
    requires |s0.ts| == |cfg.svcs| && World(cfg, world) && k < |world| && i < |cfg.svcs|
  {
    Choice(cfg, RunTo(cfg, s0, world, k), world[k], i)
  }

  /** Round `k` starts the exec_stop_post of service `i`. */
  predicate StartsPost(cfg: Config, s0: State, world: seq<Round>, k: nat, i: nat)
    requires |s0.ts| == |cfg.svcs| && World(cfg, world) && k < |world| && i < |cfg.svcs|
  {
    var s := RunTo(cfg, s0, world, k);
    s.ts[i].postAt == 0 && LookAll(cfg, s, world[k])[i].postAt != 0
  }

  function TrackAt(cfg: Config, s0: State, world: seq<Round>, k: nat, i: nat): Track
    requires |s0.ts| == |cfg.svcs| && World(cfg, world) && k <= |world| && i < |cfg.svcs|
  {
    RunTo(cfg, s0, world, k).ts[i]
  }

  predicate Setting(cfg: Config, s0: State, world: seq<Round>) {
    World(cfg, world) && |world| > 0 && Initial(cfg, s0, world[0])
  }

  lemma ClockPositive(cfg: Config, world: seq<Round>, k: nat)
    requires World(cfg, world) && k < |world|
    ensures 0 < world[k].now
  {
    if k > 0 {
      assert Tick(world[k - 1], world[k]);
    }
  }

  lemma {:induction false} ClockAdvances(cfg: Config, world: seq<Round>, j: nat, k: nat)
    requires World(cfg, world) && j <= k < |world|
    ensures world[j].now <= world[k].now
  {
    if j < k {
      ClockAdvances(cfg, world, j, k - 1);
      assert Tick(world[k - 1], world[k]);
    }
  }

  /** One round's effect on the marks of one service. */
  lemma Marks(cfg: Config, s0: State, world: seq<Round>, k: nat, i: nat)
    requires Setting(cfg, s0, world) && k < |world| && i < |cfg.svcs|
    ensures var t, t' := TrackAt(cfg, s0, world, k, i), TrackAt(cfg, s0, world, k + 1, i);
            var a := Did(cfg, s0, world, k, i);
            && t'.termAt == (if a.Terminate? then world[k].now else t.termAt)
            && t'.killed == (t.killed || a.KillTree?)
            && (t'.postAt == if StartsPost(cfg, s0, world, k, i) then world[k].now else t.postAt)
            && (a.Terminate? ==> t.termAt == 0)
            && (a.KillTree? ==> t.termAt != 0 && Since(world[k].now, t.termAt) >= Grace(cfg.svcs[i]))
            && (a.Begin? || a.Note? ==> t.stopAt == 0 && t'.stopAt != 0)
            && (t.stopAt != 0 ==> t'.stopAt != 0)
  {
    ClockPositive(cfg, world, k);
    MarksNext(cfg, RunTo(cfg, s0, world, k), world[k], i);
    hide Next;
    hide LookAll;
    hide Choice;
    hide World;
  }

  lemma MarksNext(cfg: Config, s: State, r: Round, i: nat)
    requires Shaped(cfg, s, r) && i < |cfg.svcs| && r.now > 0
    ensures var t, u, t' := s.ts[i], LookAll(cfg, s, r)[i], Next(cfg, s, r).ts[i];
            var a := Choice(cfg, s, r, i);
            && t'.termAt == (if a.Terminate? then r.now else t.termAt)
            && t'.killed == (t.killed || a.KillTree?)
            && (t'.postAt == if t.postAt == 0 && u.postAt != 0 then r.now else t.postAt)
            && (a.Terminate? ==> t.termAt == 0)
            && (a.KillTree? ==> t.termAt != 0 && Since(r.now, t.termAt) >= Grace(cfg.svcs[i]))
            && (a.Begin? || a.Note? ==> t.stopAt == 0 && t'.stopAt != 0)
            && (t.stopAt != 0 ==> t'.stopAt != 0)
  {
    hide Free;
    hide Hold;
  }

  /** A mark that is set stays set. */
  lemma {:induction false} MarksStay(cfg: Config, s0: State, world: seq<Round>, j: nat, k: nat, i: nat)
    requires Setting(cfg, s0, world) && j <= k <= |world| && i < |cfg.svcs|
    ensures var t, t' := TrackAt(cfg, s0, world, j, i), TrackAt(cfg, s0, world, k, i);
            && (t.termAt != 0 ==> t'.termAt != 0) && (t.postAt != 0 ==> t'.postAt != 0)
            && (t.stopAt != 0 ==> t'.stopAt != 0) && (t.killed ==> t'.killed)
  {
    if j < k {
      MarksStay(cfg, s0, world, j, k - 1, i);
      Marks(cfg, s0, world, k - 1, i);
      ClockPositive(cfg, world, k - 1);
    }
  }

  /** In a whole run a service gets at most one SIGTERM, one start of its
      exec_stop commands and one start of its exec_stop_post commands. */
  lemma AtMostOnce(cfg: Config, s0: State, world: seq<Round>, j: nat, k: nat, i: nat)
    requires Setting(cfg, s0, world) && j < k < |world| && i < |cfg.svcs|
    ensures !(Did(cfg, s0, world, j, i).Terminate? && Did(cfg, s0, world, k, i).Terminate?)
    ensures !(Did(cfg, s0, world, j, i).Begin? && Did(cfg, s0, world, k, i).Begin?)
    ensures !(StartsPost(cfg, s0, world, j, i) && StartsPost(cfg, s0, world, k, i))
  {
    ClockPositive(cfg, world, j);
    Marks(cfg, s0, world, j, i);
    MarksStay(cfg, s0, world, j + 1, k, i);
    Marks(cfg, s0, world, k, i);
  }

  lemma Unmarked(cfg: Config, s0: State, world: seq<Round>, i: nat)
    requires Setting(cfg, s0, world) && i < |cfg.svcs|
    ensures |s0.ts| == |cfg.svcs|
    ensures var t := TrackAt(cfg, s0, world, 0, i); t.termAt == 0 && !t.killed
  {
  }

  /** `termAt` is the clock of the round that sent the SIGTERM. */
  lemma {:induction false} TermAtIsWhen(cfg: Config, s0: State, world: seq<Round>, k: nat, i: nat) returns (j: nat)
    requires Setting(cfg, s0, world) && k <= |world| && i < |cfg.svcs|
    requires TrackAt(cfg, s0, world, k, i).termAt != 0
    ensures j < k && Did(cfg, s0, world, j, i).Terminate?
    ensures world[j].now == TrackAt(cfg, s0, world, k, i).termAt
  {
    hide World;
    hide Initial;
    hide RunTo;
    hide TrackAt;
    hide Did;
    Unmarked(cfg, s0, world, i);
    Marks(cfg, s0, world, k - 1, i);
    if Did(cfg, s0, world, k - 1, i).Terminate? {
      j := k - 1;
    } else {
      j := TermAtIsWhen(cfg, s0, world, k - 1, i);
    }
  }

  /** A kill comes only after a SIGTERM and a full grace period. */
  lemma KillAfterGrace(cfg: Config, s0: State, world: seq<Round>, k: nat, i: nat)
    requires Setting(cfg, s0, world) && k < |world| && i < |cfg.svcs|
    requires Did(cfg, s0, world, k, i).KillTree?
    ensures exists j :: 0 <= j < k && Did(cfg, s0, world, j, i).Terminate? &&
                        world[k].now >= world[j].now + Grace(cfg.svcs[i])
  {
    Marks(cfg, s0, world, k, i);
    var j := TermAtIsWhen(cfg, s0, world, k, i);
    ClockAdvances(cfg, world, j, k);
  }

  /** Round `k` still finds something of service `j` running. */
  predicate AliveIn(cfg: Config, s0: State, world: seq<Round>, k: nat, j: nat)
    requires |s0.ts| == |cfg.svcs| && World(cfg, world) && k < |world| && j < |cfg.svcs|
  {
    LookAll(cfg, RunTo(cfg, s0, world, k), world[k])[j].alive
  }

  /** The exec_stop_post runner of service `i` is at work in round `k`: it was
      just started, or it runs on within its grace. */
  predicate PostRuns(cfg: Config, s0: State, world: seq<Round>, k: nat, i: nat)
    requires |s0.ts| == |cfg.svcs| && World(cfg, world) && k < |world| && i < |cfg.svcs|
  {
    var t, o := TrackAt(cfg, s0, world, k, i), world[k].seen[i];
    if StartsPost(cfg, s0, world, k, i) then o.postFork.Child? && o.postFork.pid > 0
    else t.postAt != 0 && t.pid > 0 && !o.reaped && Since(world[k].now, t.postAt) < Grace(cfg.svcs[i])
  }

  /** A killed service got its SIGTERM a full grace before. */
  lemma {:induction false} KilledIsDue(cfg: Config, s0: State, world: seq<Round>, k: nat, i: nat)
    requires Setting(cfg, s0, world) && k < |world| && i < |cfg.svcs|
    requires TrackAt(cfg, s0, world, k, i).killed
    ensures k > 0 && TrackAt(cfg, s0, world, k, i).termAt != 0
    ensures world[k].now >= TrackAt(cfg, s0, world, k, i).termAt + Grace(cfg.svcs[i])
  {
    hide World;
    hide Initial;
    hide RunTo;
    hide TrackAt;
    hide Did;
    Unmarked(cfg, s0, world, i);
    Marks(cfg, s0, world, k - 1, i);
    ClockAdvances(cfg, world, k - 1, k);
    if TrackAt(cfg, s0, world, k - 1, i).killed {
      KilledIsDue(cfg, s0, world, k - 1, i);
    } else {
      var j := TermAtIsWhen(cfg, s0, world, k - 1, i);
      ClockAdvances(cfg, world, j, k - 1);
    }
  }

  /** Once killed, a service counts as alive exactly while its exec_stop_post
      commands run, and in every such round, and in no other, it is killed again. */
  lemma KilledAgainDuringPost(cfg: Config, s0: State, world: seq<Round>, k: nat, i: nat)
    requires Setting(cfg, s0, world) && k < |world| && i < |cfg.svcs|
    requires TrackAt(cfg, s0, world, k, i).killed
    ensures AliveIn(cfg, s0, world, k, i) <==> PostRuns(cfg, s0, world, k, i)
    ensures Did(cfg, s0, world, k, i).KillTree? <==> PostRuns(cfg, s0, world, k, i)
  {
    KilledIsDue(cfg, s0, world, k, i);
    ClockPositive(cfg, world, k);
    Started(cfg, s0, world, k);
    hide World;
    hide RunTo;
    hide Free;
    hide Hold;
  }

  /** Only the first round is the first. */
  lemma {:induction false} Started(cfg: Config, s0: State, world: seq<Round>, k: nat)
    requires Setting(cfg, s0, world) && 0 < k <= |world|
    ensures !RunTo(cfg, s0, world, k).first
  {
  }

  // ---- a service that is killed twice ----

  /** One service with a grace of a second and an exec_stop_post command. */
  const LINGERING := Config([Service(false, 0, 1, 1, [])], [])

  const LINGERING_START := State([Track(false, false, false, 0, 0, 0, 0, 0)], 1, false, true)

  /** It ignores its SIGTERM for a second, is killed, and then its
      exec_stop_post runs. */
  const LINGERING_WORLD := [
    Round(1, [Seen(true, false, NoChild, NoChild)]),
    Round(1001, [Seen(true, false, NoChild, NoChild)]),
    Round(1002, [Seen(false, false, Child(7, 1002), NoChild)])]

  lemma KilledTwice()
    ensures Setting(LINGERING, LINGERING_START, LINGERING_WORLD)
    ensures Did(LINGERING, LINGERING_START, LINGERING_WORLD, 1, 0).KillTree?
    ensures Did(LINGERING, LINGERING_START, LINGERING_WORLD, 2, 0).KillTree?
  {
    var cfg, s0, world := LINGERING, LINGERING_START, LINGERING_WORLD;
    assert Tick(world[0], world[1]) && Tick(world[1], world[2]);
    assert World(cfg, world);
    var s1 := RunTo(cfg, s0, world, 1);
    assert !Blocked(cfg, LookAll(cfg, s0, world[0]), 0) && !Hold(cfg, LookAll(cfg, s0, world[0]));
    assert s1 == Next(cfg, s0, world[0]) && s1.ts[0] == Track(true, false, true, 1, 0, 0, 0, 0);
    var s2 := RunTo(cfg, s0, world, 2);
    assert s2 == Next(cfg, s1, world[1]) && s2.ts[0] == Track(true, true, true, 1, 0, 0, 0, 0);
  }

  /** Reverse dependency order: while the time limit has not passed since the
      shutdown began or the last stop_first hold ended, nothing stops a service
      that a live one depends on, nor anything else while a stop_first service
      is alive. */
  lemma {:induction false} DependentsGoFirst(cfg: Config, s0: State, world: seq<Round>, k: nat, i: nat, j: nat)
    requires Setting(cfg, s0, world) && k < |world| && i < |cfg.svcs| && j < |cfg.svcs| && i != j
    requires AliveIn(cfg, s0, world, k, j)
    requires var a := Did(cfg, s0, world, k, i); a.Begin? || a.Note? || a.Terminate?
    ensures AliveIn(cfg, s0, world, k, i)
    ensures cfg.svcs[j].stopFirst ==> cfg.svcs[i].stopFirst
    ensures DependsOn(cfg, cfg.svcs[j], i) ==>
              Since(world[k].now, RunTo(cfg, s0, world, k + 1).start) >= SHUT_TOTAL_MS
  {
    var s := RunTo(cfg, s0, world, k);
    var ts := LookAll(cfg, s, world[k]);
    assert ts[j].alive;
    if cfg.svcs[j].stopFirst {
      assert Hold(cfg, ts);
    }
    if DependsOn(cfg, cfg.svcs[j], i) {
      assert Blocked(cfg, ts, i);
    }
  }
}

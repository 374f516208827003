/**
 PID 1's ordered shutdown, one service and one round at a time. A round looks
 at every service (is anything of it still running?) and then acts on those
 that are: stop commands, SIGTERM, and a kill once the grace has run out. What
 the kernel and the services do is an input of each round.
 */
module ShutdownModel {

  const SHUT_GRACE_MS := 3000
  const SHUT_TOTAL_MS := 12000

  /** One dependency as written: a service index, a group index, or -1 for neither. */
  datatype Dep = Dep(svc: int, group: int)

  datatype Service = Service(stopFirst: bool, nStop: nat, nPost: nat, timeoutSec: nat, deps: seq<Dep>)

  datatype Config = Config(svcs: seq<Service>, groups: seq<seq<int>>)

  function Grace(c: Service): (g: nat)
    ensures g > 0
  {
    if c.timeoutSec != 0 then c.timeoutSec * 1000 else SHUT_GRACE_MS
  }

  predicate DependsOn(cfg: Config, s: Service, target: int) {
    exists k :: 0 <= k < |s.deps| && Names(cfg, s.deps[k], target)
  }

  predicate Names(cfg: Config, d: Dep, target: int) {
    d.svc == target || (0 <= d.group < |cfg.groups| && target in cfg.groups[d.group])
  }

  // ---- what a round is told about one service ----

  datatype Fork = NoChild | Child(pid: nat, at: nat)

  /** `up`: something of the service still runs. `reaped`: its stop runner was
      waited for just now. The two forks are the outcome of spawning a stop
      runner, if the round tries to. */
  datatype Seen = Seen(up: bool, reaped: bool, postFork: Fork, stopFork: Fork)

  datatype Round = Round(now: nat, seen: seq<Seen>)

  // ---- what the loop remembers about one service ----

  datatype Track = Track(alive: bool, killed: bool, wasUp: bool,
                         termAt: nat, stopAt: nat, postAt: nat,
                         pid: nat, pidStart: nat)

  /** Unsigned 64-bit difference of two clock readings. */
  function Since(now: nat, earlier: nat): int {
    if now >= earlier then now - earlier else 0x1_0000_0000_0000_0000 + now - earlier
  }

  /** Is the service still something to wait for? Starts exec_stop_post once a
      service that was up is gone and no other stop runner of it is running. */
  function Look(c: Service, t: Track, o: Seen, now: nat, first: bool): Track {
    var pid := if o.reaped then 0 else t.pid;
    var up := !t.killed && o.up;
    var wasUp := if first then up else t.wasUp;
    var t1 :=
      if !up && wasUp && t.postAt == 0 then
        if pid > 0 then
          t.(alive := !t.killed && Since(now, t.pidStart) < Grace(c) + 1000, wasUp := wasUp, pid := pid)
        else if c.nPost > 0 && o.postFork.Child? then
          t.(alive := false, wasUp := wasUp, postAt := now, pid := o.postFork.pid, pidStart := o.postFork.at)
        else t.(alive := false, wasUp := wasUp, pid := pid)
      else t.(alive := up, wasUp := wasUp, pid := pid);
    if t1.postAt != 0 && t1.pid > 0 && Since(now, t1.postAt) < Grace(c) then t1.(alive := true) else t1
  }

  /** What the round does to a service that is still alive. `free`: it is not
      held back by stop_first services nor by a live service that depends on it. */
  datatype Act = Wait | KillTree | Begin | Note | Terminate

  function Choose(c: Service, t: Track, o: Seen, now: nat, free: bool): Act {
    if !t.alive then Wait
    else if t.termAt != 0 then if Since(now, t.termAt) < Grace(c) then Wait else KillTree
    else if !free then Wait
    else if t.stopAt == 0 && t.pid > 0 then Note
    else if t.stopAt == 0 && c.nStop > 0 && o.stopFork.Child? then Begin
    else if t.stopAt != 0 && t.pid > 0 && Since(now, t.stopAt) < Grace(c) then Wait
    else Terminate
  }

  function Apply(t: Track, a: Act, o: Seen, now: nat): Track {
    match a
    case Wait => t
    case KillTree => t.(killed := true)
    case Note => t.(stopAt := now)
    case Begin => if o.stopFork.Child? then t.(stopAt := now, pid := o.stopFork.pid, pidStart := o.stopFork.at) else t
    case Terminate => t.(termAt := now)
  }

  // ---- one round of the loop ----

  datatype State = State(ts: seq<Track>, start: nat, held: bool, first: bool)

  predicate Shaped(cfg: Config, s: State, r: Round) {
    |s.ts| == |cfg.svcs| == |r.seen|
  }

  function LookAll(cfg: Config, s: State, r: Round): (ts: seq<Track>)
    requires Shaped(cfg, s, r)
    ensures |ts| == |cfg.svcs|
  {
    seq(|cfg.svcs|, i requires 0 <= i < |cfg.svcs| => Look(cfg.svcs[i], s.ts[i], r.seen[i], r.now, s.first))
  }

  predicate AnyAlive(ts: seq<Track>) {
    exists i :: 0 <= i < |ts| && ts[i].alive
  }

  /** A live stop_first service holds everything else back. */
  predicate Hold(cfg: Config, ts: seq<Track>)
    requires |ts| == |cfg.svcs|
  {
    exists i :: 0 <= i < |ts| && ts[i].alive && cfg.svcs[i].stopFirst
  }

  /** Some other live service depends on service `i`. */
  predicate Blocked(cfg: Config, ts: seq<Track>, i: int)
    requires |ts| == |cfg.svcs|
  {
    exists j :: 0 <= j < |ts| && j != i && ts[j].alive && DependsOn(cfg, cfg.svcs[j], i)
  }

  function NewStart(s: State, hold: bool, now: nat): nat {
    if s.held && !hold then now else s.start
  }

  predicate Free(cfg: Config, ts: seq<Track>, i: int, start: nat, now: nat)
    requires |ts| == |cfg.svcs| && 0 <= i < |ts|
  {
    && (Hold(cfg, ts) ==> cfg.svcs[i].stopFirst)
    && (Since(now, start) < SHUT_TOTAL_MS ==> !Blocked(cfg, ts, i))
  }

  function Choice(cfg: Config, s: State, r: Round, i: int): Act
    requires Shaped(cfg, s, r) && 0 <= i < |cfg.svcs|
  {
    var ts := LookAll(cfg, s, r);
    Choose(cfg.svcs[i], ts[i], r.seen[i], r.now,
           Free(cfg, ts, i, NewStart(s, Hold(cfg, ts), r.now), r.now))
  }

  function Settle(cfg: Config, s: State, r: Round, i: int): Track
    requires Shaped(cfg, s, r) && 0 <= i < |cfg.svcs|
  {
    Apply(LookAll(cfg, s, r)[i], Choice(cfg, s, r, i), r.seen[i], r.now)
  }

  /** The round over: nothing alive means the loop is left before it acts. */
  predicate Finished(cfg: Config, s: State, r: Round)
    requires Shaped(cfg, s, r)
  {
    !AnyAlive(LookAll(cfg, s, r))
  }

  function Next(cfg: Config, s: State, r: Round): (s': State)
    requires Shaped(cfg, s, r)
    ensures |s'.ts| == |s.ts|
  {
    var hold := Hold(cfg, LookAll(cfg, s, r));
    State(seq(|cfg.svcs|, i requires 0 <= i < |cfg.svcs| => Settle(cfg, s, r, i)),
          NewStart(s, hold, r.now), hold, false)
  }
}

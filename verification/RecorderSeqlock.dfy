/**
 The recorder's shared memory: one writer that bumps a 32-bit counter before
 and after changing the cells, one reader that copies a range of cells one by
 one and keeps the copy only if the counter was even and has not moved. Steps
 of the two interleave in any order.
 */
module RecorderSeqlock {
  import opened Common

  const ATTEMPTS := 100

  /** `version` counts every bump; the shared counter is its low 32 bits.
      `committed` holds the memory after each finished write, the first entry
      the initial one. */
  datatype Writer<T> = Writer(cells: seq<T>, version: nat, committed: seq<seq<T>>)

  function Counter<T>(w: Writer<T>): nat {
    w.version % TWO32
  }

  datatype Reader<T> =
    | Trying(attempt: nat)
    | Copying(attempt: nat, s1: nat, began: nat, copy: seq<T>)
    | Accepted(copy: seq<T>, began: nat)
    | Failed

  /** The reader wants the cells from `lo` up to `hi`. */
  datatype State<T> = State(w: Writer<T>, r: Reader<T>, lo: nat, hi: nat)

  datatype Step<T> = Begin | Store(cell: nat, value: T) | End | Load | CopyCell | Recheck

  predicate Enabled<T>(s: State<T>, step: Step<T>) {
    match step
    case Begin => s.w.version % 2 == 0
    case Store(cell, _) => s.w.version % 2 == 1 && cell < |s.w.cells|
    case End => s.w.version % 2 == 1
    case Load => s.r.Trying? && s.r.attempt < ATTEMPTS
    case CopyCell => s.r.Copying? && s.lo + |s.r.copy| < s.hi
    case Recheck => s.r.Copying? && s.lo + |s.r.copy| >= s.hi
  }

  function Retry<T>(attempt: nat): Reader<T> {
    if attempt + 1 < ATTEMPTS then Trying(attempt + 1) else Failed
  }

  function Next<T>(s: State<T>, step: Step<T>): State<T>
    requires Enabled(s, step) && s.lo <= s.hi <= |s.w.cells|
  {
    match step
    case Begin => s.(w := s.w.(version := s.w.version + 1))
    case Store(cell, value) => s.(w := s.w.(cells := s.w.cells[cell := value]))
    case End => s.(w := s.w.(version := s.w.version + 1, committed := s.w.committed + [s.w.cells]))
    case Load =>
      if Counter(s.w) % 2 == 1 then s.(r := Retry(s.r.attempt))
      else s.(r := Copying(s.r.attempt, Counter(s.w), s.w.version, []))
    case CopyCell =>
      s.(r := Copying(s.r.attempt, s.r.s1, s.r.began, s.r.copy + [s.w.cells[s.lo + |s.r.copy|]]))
    case Recheck =>
      if Counter(s.w) == s.r.s1 then s.(r := Accepted(s.r.copy, s.r.began)) else s.(r := Retry(s.r.attempt))
  }

  predicate Initial<T(==)>(s: State<T>) {
    s.w.version == 0 && s.w.committed == [s.w.cells] && s.r == Trying(0) && s.lo <= s.hi <= |s.w.cells|
  }

  /** Fewer than 2^31 writes finish, and so fewer than 2^32 bumps happen, while
      one copy is under way. */
  predicate CopyInTime<T>(s: State<T>) {
    s.r.Copying? ==> s.w.version - s.r.began < TWO32
  }

  // ---- the invariant ----

  predicate WriterOk<T(==)>(w: Writer<T>) {
    && |w.committed| == w.version / 2 + 1
    && (w.version % 2 == 0 ==> w.cells == w.committed[w.version / 2])
    && forall k :: 0 <= k < |w.committed| ==> |w.committed[k]| == |w.cells|
  }

  predicate CopyOk<T(==)>(s: State<T>) {
    s.r.Copying? ==>
      && s.r.began <= s.w.version && s.r.began % 2 == 0 && s.r.s1 == s.r.began % TWO32
      && s.lo + |s.r.copy| <= s.hi <= |s.w.cells|
      && (s.w.version == s.r.began ==> s.r.copy == s.w.cells[s.lo..s.lo + |s.r.copy|])
  }

  /** The copy is the range as one finished write left it: the one in force
      when the reader first looked. */
  predicate Faithful<T(==)>(s: State<T>) {
    s.r.Accepted? ==>
      s.r.began / 2 < |s.w.committed| && s.lo <= s.hi <= |s.w.committed[s.r.began / 2]| &&
      s.r.copy == s.w.committed[s.r.began / 2][s.lo..s.hi]
  }

  predicate Inv<T(==)>(s: State<T>) {
    s.lo <= s.hi <= |s.w.cells| && WriterOk(s.w) && CopyOk(s) && Faithful(s)
  }

  lemma CounterParity(v: nat)
    ensures (v % TWO32) % 2 == v % 2
  {
    var q, r := v / TWO32, v % TWO32;
    assert v == 2 * (0x8000_0000 * q) + r;
  }

  lemma SameCounter(a: nat, b: nat)
    requires a <= b < a + TWO32 && a % TWO32 == b % TWO32
    ensures a == b
  {
  }

  lemma WriterStep<T>(s: State<T>, step: Step<T>)
    requires Inv(s) && Enabled(s, step) && (step.Begin? || step.Store? || step.End?)
    ensures Inv(Next(s, step))
  {
    var s' := Next(s, step);
    if step.End? {
      assert s'.w.committed[s'.w.version / 2] == s'.w.cells;
    }
  }

  lemma ReaderStep<T>(s: State<T>, step: Step<T>)
    requires Inv(s) && Enabled(s, step) && (step.Load? || step.CopyCell? || step.Recheck?)
    requires CopyInTime(s)
    ensures Inv(Next(s, step))
  {
    CounterParity(s.w.version);
    if step.Recheck? && Counter(s.w) == s.r.s1 {
      SameCounter(s.r.began, s.w.version);
    }
  }

  // ---- whole runs ----

  predicate Run<T(==)>(states: seq<State<T>>, steps: seq<Step<T>>) {
    && |states| == |steps| + 1 && Initial(states[0])
    && forall i :: 0 <= i < |steps| ==> Moves(states[i], steps[i], states[i + 1])
  }

  predicate Moves<T(==)>(s: State<T>, step: Step<T>, s': State<T>) {
    s.lo <= s.hi <= |s.w.cells| && Enabled(s, step) && CopyInTime(s) && s' == Next(s, step)
  }

  lemma {:induction false} InvHolds<T>(states: seq<State<T>>, steps: seq<Step<T>>, i: nat)
    requires Run(states, steps) && i < |states|
    ensures Inv(states[i])
  {
    if i > 0 {
      InvHolds(states, steps, i - 1);
      assert Moves(states[i - 1], steps[i - 1], states[i]);
      if steps[i - 1].Begin? || steps[i - 1].Store? || steps[i - 1].End? {
        WriterStep(states[i - 1], steps[i - 1]);
      } else {
        ReaderStep(states[i - 1], steps[i - 1]);
      }
    }
  }

  /** In every interleaving an accepted snapshot is one committed state, never
      a mixture of two. */
  lemma SnapshotIsCommitted<T>(states: seq<State<T>>, steps: seq<Step<T>>, i: nat)
    requires Run(states, steps) && i < |states| && states[i].r.Accepted?
    ensures exists k :: 0 <= k < |states[i].w.committed| &&
                        states[i].lo <= states[i].hi <= |states[i].w.committed[k]| &&
                        states[i].r.copy == states[i].w.committed[k][states[i].lo..states[i].hi]
  {
    InvHolds(states, steps, i);
    assert Faithful(states[i]);
  }

  lemma {:induction false} Later<T>(states: seq<State<T>>, steps: seq<Step<T>>, j: nat, i: nat)
    requires Run(states, steps) && j <= i < |states|
    ensures states[i].lo == states[j].lo && states[i].hi == states[j].hi
    ensures states[j].w.committed <= states[i].w.committed
    ensures |states[j].w.cells| == |states[i].w.cells|
  {
    if j < i {
      Later(states, steps, j, i - 1);
      assert Moves(states[i - 1], steps[i - 1], states[i]);
    }
  }

  /** Once a copy has begun, later copies begin no earlier. */
  lemma BeganHere<T>(states: seq<State<T>>, steps: seq<Step<T>>, j: nat, i: nat)
    requires Run(states, steps) && j < i < |states| && states[i].r.Accepted?
    requires steps[j].Load? && states[j + 1].r.Copying?
    requires forall m :: j < m < i ==> !steps[m].Load?
    ensures states[i].r.began == states[j].w.version
  {
    assert Moves(states[j], steps[j], states[j + 1]);
    StaysBegun(states, steps, j + 1, i);
  }

  lemma {:induction false} StaysBegun<T>(states: seq<State<T>>, steps: seq<Step<T>>, j: nat, i: nat)
    requires Run(states, steps) && j <= i < |states| && states[j].r.Copying?
    requires forall m :: j <= m < i ==> !steps[m].Load?
    ensures states[i].r.Copying? || states[i].r.Accepted? ==> states[i].r.began == states[j].r.began
  {
    if j < i {
      StaysBegun(states, steps, j, i - 1);
      assert Moves(states[i - 1], steps[i - 1], states[i]);
    }
  }

  /** The snapshot is exactly the memory at the moment of the reader's last
      look at the counter before copying. */
  lemma SnapshotIsTheMemoryAtLoad<T>(states: seq<State<T>>, steps: seq<Step<T>>, j: nat, i: nat)
    requires Run(states, steps) && j < i < |states| && states[i].r.Accepted?
    requires steps[j].Load? && states[j + 1].r.Copying?
    requires forall m :: j < m < i ==> !steps[m].Load?
    ensures states[j].lo <= states[j].hi <= |states[j].w.cells|
    ensures states[i].r.copy == states[j].w.cells[states[j].lo..states[j].hi]
  {
    InvHolds(states, steps, j);
    InvHolds(states, steps, i);
    Later(states, steps, j, i);
    BeganHere(states, steps, j, i);
    assert Moves(states[j], steps[j], states[j + 1]);
    CounterParity(states[j].w.version);
    assert Faithful(states[i]);
  }
}

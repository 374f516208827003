/**
 The ring in the recorder's shared memory, cell by cell: an event and the arrow
 take several cells, so a copy may catch half of one. The writer's pushes and
 arrow changes are stores between two bumps of the counter, and whatever a
 reader accepts, read oldest first, is the newest events of some prefix of the
 pushes.
 */
module RecorderShared {
  import opened Common
  import opened RecorderRing
  import opened RecorderSeqlock

  /** How many cells an event and the arrow take. */
  datatype Layout = Layout(event: nat, arrow: nat)

  function Start(l: Layout, slot: nat): nat {
    slot * l.event
  }

  function Head(l: Layout): nat {
    Start(l, REC_RING)
  }

  function Count(l: Layout): nat {
    Head(l) + 1
  }

  function Size(l: Layout): nat {
    Head(l) + 2 + l.arrow
  }

  predicate Shaped(l: Layout, cells: seq<int>) {
    |cells| == Size(l) && cells[Head(l)] >= 0 && cells[Count(l)] >= 0
  }

  /** Slots lie one behind the other, before everything else. */
  lemma SlotsApart(l: Layout, s: nat, t: nat)
    requires s < t
    ensures Start(l, s) + l.event <= Start(l, t)
  {
    var d := t - s - 1;
    assert t * l.event == s * l.event + l.event + d * l.event;
  }

  function EventAt(l: Layout, cells: seq<int>, slot: nat): seq<int>
    requires |cells| == Size(l) && slot < REC_RING
  {
    SlotsApart(l, slot, REC_RING);
    cells[Start(l, slot)..Start(l, slot) + l.event]
  }

  // ---- the writes ----

  datatype Write = Push(event: seq<int>) | SetArrow(arrow: seq<int>)

  predicate Sized(l: Layout, w: Write) {
    match w
    case Push(e) => |e| == l.event
    case SetArrow(a) => |a| == l.arrow
  }

  /** The memory after a write. */
  function Written(l: Layout, cells: seq<int>, w: Write): (r: seq<int>)
    requires Shaped(l, cells) && Sized(l, w)
    ensures Shaped(l, r)
  {
    match w
    case SetArrow(a) => cells[..Head(l) + 2] + a
    case Push(e) =>
      var head, count := cells[Head(l)], cells[Count(l)];
      var pushed := Copied(l, cells, head % REC_RING, e)[Head(l) := (head + 1) % TWO32];
      if count < REC_RING then pushed[Count(l) := count + 1] else pushed
  }

  /** An event copied into its slot. */
  function Copied(l: Layout, cells: seq<int>, slot: nat, e: seq<int>): (r: seq<int>)
    requires |cells| == Size(l) && slot < REC_RING && |e| == l.event
    ensures |r| == |cells| && r[Head(l)..] == cells[Head(l)..]
  {
    SlotsApart(l, slot, REC_RING);
    cells[..Start(l, slot)] + e + cells[Start(l, slot) + l.event..]
  }

  datatype Put = Put(cell: nat, value: int)

  function After(cells: seq<int>, puts: seq<Put>): (r: seq<int>)
    ensures |r| == |cells|
  {
    if puts == [] then cells else
      var p, before := puts[|puts| - 1], After(cells, puts[..|puts| - 1]);
      if p.cell < |cells| then before[p.cell := p.value] else before
  }

  /** Stores that copy `values` to the cells from `at` on. */
  function CopyTo(at: nat, values: seq<int>): seq<Put> {
    seq(|values|, i requires 0 <= i < |values| => Put(at + i, values[i]))
  }

  /** The stores of one write, in program order. */
  function Puts(l: Layout, cells: seq<int>, w: Write): seq<Put>
    requires Shaped(l, cells)
  {
    match w
    case SetArrow(a) => CopyTo(Head(l) + 2, a)
    case Push(e) =>
      var head, count := cells[Head(l)], cells[Count(l)];
      CopyTo(Start(l, head % REC_RING), e) + [Put(Head(l), (head + 1) % TWO32)] +
      (if count < REC_RING then [Put(Count(l), count + 1)] else [])
  }

  lemma {:induction false} CopyIs(cells: seq<int>, at: nat, values: seq<int>)
    requires at + |values| <= |cells|
    ensures After(cells, CopyTo(at, values)) == cells[..at] + values + cells[at + |values|..]
  {
    if values != [] {
      var n := |values| - 1;
      CopyIs(cells, at, values[..n]);
      assert CopyTo(at, values)[..n] == CopyTo(at, values[..n]);
    }
  }

  lemma {:induction false} AfterOne(cells: seq<int>, puts: seq<Put>, p: Put)
    requires p.cell < |cells|
    ensures After(cells, puts + [p]) == After(cells, puts)[p.cell := p.value]
  {
    assert (puts + [p])[..|puts|] == puts;
  }

  lemma {:induction false} StoresCopy(l: Layout, cells: seq<int>, slot: nat, e: seq<int>)
    requires |cells| == Size(l) && |e| == l.event && slot < REC_RING
    ensures After(cells, CopyTo(Start(l, slot), e)) == Copied(l, cells, slot, e)
  {
    SlotsApart(l, slot, REC_RING);
    CopyIs(cells, Start(l, slot), e);
  }

  lemma {:induction false} StoresPush(l: Layout, cells: seq<int>, e: seq<int>)
    requires Shaped(l, cells) && Sized(l, Push(e))
    ensures After(cells, Puts(l, cells, Push(e))) == Written(l, cells, Push(e))
  {
    hide Shaped;
    hide Sized;
    hide Puts;
    hide Written;
    hide After;
    hide CopyTo;
    hide Copied;
    hide Head;
    hide Count;
    hide Size;
    hide Start;
    PutsPush(l, cells, e);
    ShapedIs(l, cells);
    SizedIs(l, e);
    var head, count := cells[Head(l)], cells[Count(l)];
    StoresCopy(l, cells, head % REC_RING, e);
    Bumped(cells, CopyTo(Start(l, head % REC_RING), e), Put(Head(l), (head + 1) % TWO32),
           Put(Count(l), count + 1), count < REC_RING);
  }

  lemma {:induction false} StoresArrow(l: Layout, cells: seq<int>, a: seq<int>)
    requires Shaped(l, cells) && Sized(l, SetArrow(a))
    ensures After(cells, Puts(l, cells, SetArrow(a))) == Written(l, cells, SetArrow(a))
  {
    hide Start;
    CopyIs(cells, Head(l) + 2, a);
    assert cells[Head(l) + 2 + |a|..] == [];
  }

  /** The stores of the program amount to the write. */
  lemma {:induction false} StoresWrite(l: Layout, cells: seq<int>, w: Write)
    requires Shaped(l, cells) && Sized(l, w)
    ensures After(cells, Puts(l, cells, w)) == Written(l, cells, w)
  {
    hide *;
    match w
    case SetArrow(a) => StoresArrow(l, cells, a);
    case Push(e) => StoresPush(l, cells, e);
  }

  lemma ShapedIs(l: Layout, cells: seq<int>)
    requires Shaped(l, cells)
    ensures |cells| == Size(l) && Head(l) < Count(l) < |cells| && cells[Head(l)] >= 0 && cells[Count(l)] >= 0
  {
  }

  lemma SizedIs(l: Layout, e: seq<int>)
    requires Sized(l, Push(e))
    ensures |e| == l.event
  {
  }

  lemma PutsPush(l: Layout, cells: seq<int>, e: seq<int>)
    requires Shaped(l, cells) && Sized(l, Push(e))
    ensures var head, count := cells[Head(l)], cells[Count(l)];
            var one := Copied(l, cells, head % REC_RING, e)[Head(l) := (head + 1) % TWO32];
            && Puts(l, cells, Push(e)) ==
               CopyTo(Start(l, head % REC_RING), e) + [Put(Head(l), (head + 1) % TWO32)] +
               (if count < REC_RING then [Put(Count(l), count + 1)] else [])
            && Written(l, cells, Push(e)) == if count < REC_RING then one[Count(l) := count + 1] else one
  {
    hide Copied;
    hide CopyTo;
  }

  lemma {:induction false} Bumped(cells: seq<int>, copy: seq<Put>, p: Put, q: Put, both: bool)
    requires p.cell < |cells| && q.cell < |cells|
    ensures var one := After(cells, copy)[p.cell := p.value];
            After(cells, copy + [p] + (if both then [q] else [])) == if both then one[q.cell := q.value] else one
  {
    AfterOne(cells, copy, p);
    hide After;
    if both {
      AfterOne(cells, copy + [p], q);
    } else {
      assert copy + [p] + [] == copy + [p];
    }
  }

  function Events(writes: seq<Write>): seq<seq<int>> {
    if writes == [] then [] else
      var w := writes[|writes| - 1];
      Events(writes[..|writes| - 1]) + (if w.Push? then [w.event] else [])
  }

  // ---- the ring in memory ----

  /** The memory holds the newest events of a history. */
  predicate Holds(l: Layout, cells: seq<int>, history: seq<seq<int>>) {
    && Shaped(l, cells)
    && cells[Head(l)] == |history| % TWO32
    && cells[Count(l)] == (if |history| < REC_RING then |history| else REC_RING)
    && forall k :: |history| - cells[Count(l)] <= k < |history| ==> EventAt(l, cells, k % REC_RING) == history[k]
  }

  /** A copy changes its own slot and no other. */
  lemma CopiedSlot(l: Layout, cells: seq<int>, mine: nat, e: seq<int>, slot: nat)
    requires |cells| == Size(l) && |e| == l.event && mine < REC_RING && slot < REC_RING
    ensures EventAt(l, Copied(l, cells, mine, e), slot) == if slot == mine then e else EventAt(l, cells, slot)
  {
    SlotsApart(l, slot, REC_RING);
    SlotsApart(l, mine, REC_RING);
    if mine < slot {
      SlotsApart(l, mine, slot);
    } else if slot < mine {
      SlotsApart(l, slot, mine);
    }
    hide Start;
    PatchedSlice(cells, Start(l, mine), e, Start(l, slot));
  }

  lemma PatchedSlice(cells: seq<int>, at: nat, e: seq<int>, lo: nat)
    requires at + |e| <= |cells| && lo + |e| <= |cells|
    requires lo == at || lo + |e| <= at || at + |e| <= lo
    ensures (cells[..at] + e + cells[at + |e|..])[lo..lo + |e|] == if lo == at then e else cells[lo..lo + |e|]
  {
    var r := cells[..at] + e + cells[at + |e|..];
    if lo == at {
      assert r[lo..lo + |e|] == e;
    } else if lo < at {
      assert r[..at] == cells[..at];
      assert r[lo..lo + |e|] == r[..at][lo..lo + |e|];
    } else {
      assert r[at + |e|..] == cells[at + |e|..];
      assert forall i :: lo <= i < lo + |e| ==> r[i] == cells[i];
    }
  }

  /** The counters are in no slot. */
  lemma CounterNoSlot(l: Layout, cells: seq<int>, at: nat, n: int, slot: nat)
    requires |cells| == Size(l) && Head(l) <= at < Size(l) && slot < REC_RING
    ensures EventAt(l, cells[at := n], slot) == EventAt(l, cells, slot)
  {
    SlotsApart(l, slot, REC_RING);
    hide Start;
  }

  /** What a push leaves in the slots and the counters. */
  lemma PushedIs(l: Layout, cells: seq<int>, e: seq<int>, slot: nat)
    requires Shaped(l, cells) && Sized(l, Push(e)) && slot < REC_RING
    ensures var head, count, r := cells[Head(l)], cells[Count(l)], Written(l, cells, Push(e));
            && EventAt(l, r, slot) == (if slot == head % REC_RING then e else EventAt(l, cells, slot))
            && r[Head(l)] == (head + 1) % TWO32
            && r[Count(l)] == if count < REC_RING then count + 1 else count
  {
    hide EventAt;
    hide Start;
    var head, count := cells[Head(l)], cells[Count(l)];
    var copied := Copied(l, cells, head % REC_RING, e);
    CopiedSlot(l, cells, head % REC_RING, e, slot);
    assert copied[Count(l)] == copied[Head(l)..][1] == count;
    hide Copied;
    CounterNoSlot(l, copied, Head(l), (head + 1) % TWO32, slot);
    CounterNoSlot(l, copied[Head(l) := (head + 1) % TWO32], Count(l), count + 1, slot);
  }

  lemma NextCount(n: nat)
    ensures (n % TWO32 + 1) % TWO32 == (n + 1) % TWO32
  {
  }

  lemma PushHolds(l: Layout, cells: seq<int>, history: seq<seq<int>>, e: seq<int>)
    requires Holds(l, cells, history) && Sized(l, Push(e))
    ensures Holds(l, Written(l, cells, Push(e)), history + [e])
  {
    hide EventAt;
    hide Start;
    var n, all, r := |history|, history + [e], Written(l, cells, Push(e));
    SlotSurvivesWrap(n);
    NextCount(n);
    PushedIs(l, cells, e, 0);
    hide Written;
    forall k | n + 1 - r[Count(l)] <= k < n + 1
      ensures EventAt(l, r, k % REC_RING) == all[k]
    {
      PushedIs(l, cells, e, k % REC_RING);
      if k < n {
        SlotsDiffer(k, n);
      }
    }
  }

  lemma ArrowHolds(l: Layout, cells: seq<int>, history: seq<seq<int>>, a: seq<int>)
    requires Holds(l, cells, history) && Sized(l, SetArrow(a))
    ensures Holds(l, Written(l, cells, SetArrow(a)), history)
  {
    var r := Written(l, cells, SetArrow(a));
    forall s: nat | s < REC_RING
      ensures EventAt(l, r, s) == EventAt(l, cells, s)
    {
      SlotsApart(l, s, REC_RING);
    }
    hide EventAt;
  }

  lemma WriteHolds(l: Layout, cells: seq<int>, history: seq<seq<int>>, w: Write)
    requires Holds(l, cells, history) && Sized(l, w)
    ensures Holds(l, Written(l, cells, w), history + if w.Push? then [w.event] else [])
  {
    hide Holds;
    hide Written;
    match w
    case Push(e) => PushHolds(l, cells, history, e);
    case SetArrow(a) =>
      ArrowHolds(l, cells, history, a);
      assert history + [] == history;
  }

  /** The events oldest first, indexed with 32-bit arithmetic from `head - count`. */
  function ReadRing(l: Layout, cells: seq<int>): seq<seq<int>>
    requires Shaped(l, cells)
  {
    var base := (cells[Head(l)] - cells[Count(l)]) % TWO32;
    seq(cells[Count(l)], i requires 0 <= i => EventAt(l, cells, ((base + i) % TWO32) % REC_RING))
  }

  lemma ReadIsNewest(l: Layout, cells: seq<int>, history: seq<seq<int>>)
    requires Holds(l, cells, history)
    ensures ReadRing(l, cells) == Newest(history, REC_RING)
  {
    hide EventAt;
    hide Start;
    var n, count := |history|, cells[Count(l)];
    forall i | 0 <= i < count
      ensures ReadRing(l, cells)[i] == history[n - count + i]
    {
      BaseSlot(n, count, i);
    }
    assert |Newest(history, REC_RING)| == count;
  }

  // ---- a writer that runs this program ----

  predicate Zeroed(l: Layout, cells: seq<int>) {
    Shaped(l, cells) && cells[Head(l)] == 0 && cells[Count(l)] == 0
  }

  /** The stores since the last bump amount to the next of `writes`, whatever
      their order. */
  predicate Finishes(l: Layout, s: State<int>, writes: seq<Write>) {
    var k := |s.w.committed| - 1;
    0 <= k < |writes| && Sized(l, writes[k]) && Shaped(l, s.w.committed[k]) &&
    s.w.cells == Written(l, s.w.committed[k], writes[k])
  }

  predicate Program(l: Layout, states: seq<State<int>>, steps: seq<Step<int>>, writes: seq<Write>) {
    && Run(states, steps) && Zeroed(l, states[0].w.cells)
    && forall i :: 0 <= i < |steps| && steps[i].End? ==> Finishes(l, states[i], writes)
  }

  /** Every committed memory holds the events of the writes before it. */
  predicate AllHold(l: Layout, committed: seq<seq<int>>, writes: seq<Write>) {
    |committed| <= |writes| + 1 && forall k :: 0 <= k < |committed| ==> Holds(l, committed[k], Events(writes[..k]))
  }

  lemma EventsSnoc(writes: seq<Write>, k: nat)
    requires k < |writes|
    ensures Events(writes[..k + 1]) == Events(writes[..k]) + if writes[k].Push? then [writes[k].event] else []
  {
    assert writes[..k + 1][..k] == writes[..k];
  }

  lemma EndHolds(l: Layout, s: State<int>, writes: seq<Write>)
    requires AllHold(l, s.w.committed, writes) && Finishes(l, s, writes)
    ensures AllHold(l, s.w.committed + [s.w.cells], writes)
  {
    hide Holds;
    hide Written;
    hide Events;
    var k := |s.w.committed| - 1;
    assert Holds(l, s.w.committed[k], Events(writes[..k]));
    WriteHolds(l, s.w.committed[k], Events(writes[..k]), writes[k]);
    EventsSnoc(writes, k);
  }

  lemma StartHolds(l: Layout, cells: seq<int>, writes: seq<Write>)
    requires Zeroed(l, cells)
    ensures AllHold(l, [cells], writes)
  {
    assert writes[..0] == [];
  }

  lemma {:induction false} CommittedHold(l: Layout, states: seq<State<int>>, steps: seq<Step<int>>,
                                         writes: seq<Write>, i: nat)
    requires Program(l, states, steps, writes) && i < |states|
    ensures AllHold(l, states[i].w.committed, writes)
  {
    hide AllHold;
    hide Finishes;
    if i == 0 {
      StartHolds(l, states[0].w.cells, writes);
    } else {
      CommittedHold(l, states, steps, writes, i - 1);
      assert Moves(states[i - 1], steps[i - 1], states[i]);
      if steps[i - 1].End? {
        EndHolds(l, states[i - 1], writes);
      }
    }
  }

  /** Whatever whole snapshot a reader accepts, in any interleaving, its events
      are the last min(k, 128) of some prefix of the pushes. */
  lemma SnapshotIsNewest(l: Layout, states: seq<State<int>>, steps: seq<Step<int>>, writes: seq<Write>, i: nat)
    returns (k: nat)
    requires Program(l, states, steps, writes) && i < |states| && states[i].r.Accepted?
    requires states[i].lo == 0 && states[i].hi == Size(l)
    ensures k <= |writes| && Shaped(l, states[i].r.copy)
    ensures ReadRing(l, states[i].r.copy) == Newest(Events(writes[..k]), REC_RING)
  {
    hide Program;
    hide Start;
    assert Run(states, steps) by { ProgramRuns(l, states, steps, writes); }
    CommittedHold(l, states, steps, writes, i);
    SnapshotIsCommitted(states, steps, i);
    var w := states[i].w;
    k :| 0 <= k < |w.committed| && Size(l) <= |w.committed[k]| && states[i].r.copy == w.committed[k][0..Size(l)];
    assert Holds(l, w.committed[k], Events(writes[..k]));
    assert states[i].r.copy == w.committed[k];
    ReadIsNewest(l, w.committed[k], Events(writes[..k]));
  }

  lemma ProgramRuns(l: Layout, states: seq<State<int>>, steps: seq<Step<int>>, writes: seq<Write>)
    requires Program(l, states, steps, writes)
    ensures Run(states, steps)
  {
  }
}

/**
 Putting a service's stored descriptors at 3, 4, 5 and on: each is first
 duplicated above the target range, then moved down, so that no move overwrites
 a source still waiting its turn, however sources and targets overlap.
 */
module FdPlacement {
  import opened Common

  /** A process's descriptors, each with the open file it refers to. */
  type Table = map<int, int>

  /** Free numbers from `lo` up to a limit. */
  function Free(t: Table, lo: int, hi: int): set<int> {
    set f | lo <= f < hi && f !in t
  }

  function Numbers(s: seq<int>): set<int> {
    set x | x in s
  }

  /** Each source that is open gives its file. */
  predicate FromSources(t: Table, src: seq<int>, files: seq<int>) {
    |files| <= |src| && forall k :: 0 <= k < |files| ==> src[k] in t ==> files[k] == t[src[k]]
  }

  predicate Carries(extra: Table, tmp: seq<int>, files: seq<int>) {
    |files| == |tmp| && forall k :: 0 <= k < |tmp| ==> tmp[k] in extra && extra[tmp[k]] == files[k]
  }

  /** The temporaries `extra`: new numbers above the targets, one per source. */
  predicate Duplicated(t: Table, extra: Table, src: seq<int>, tmp: seq<int>, files: seq<int>, lo: int, hi: int) {
    && FromSources(t, src, files) && Carries(extra, tmp, files)
    && extra.Keys == Numbers(tmp) && |extra| == |tmp|
    && extra.Keys <= Free(t, lo, hi)
  }

  lemma FromSourcesSnoc(t: Table, src: seq<int>, files: seq<int>, file: int)
    requires FromSources(t, src, files) && |files| < |src| && (src[|files|] in t ==> file == t[src[|files|]])
    ensures FromSources(t, src, files + [file])
  {
  }

  lemma CarriesSnoc(extra: Table, tmp: seq<int>, files: seq<int>, r: int, file: int)
    requires Carries(extra, tmp, files) && r !in extra
    ensures Carries(extra[r := file], tmp + [r], files + [file])
  {
  }

  lemma OneMore(extra: Table, r: int, file: int)
    requires r !in extra
    ensures extra[r := file].Keys == extra.Keys + {r} && |extra[r := file]| == |extra| + 1
  {
    assert extra[r := file].Keys == extra.Keys + {r};
  }

  lemma NumbersSnoc(s: seq<int>, r: int)
    ensures Numbers(s + [r]) == Numbers(s) + {r}
  {
  }

  lemma FreeBoth(t: Table, extra: Table, lo: int, hi: int, r: int)
    requires r in Free(t + extra, lo, hi)
    ensures r in Free(t, lo, hi) && r !in t && r !in extra
  {
  }

  lemma LookUp(t: Table, extra: Table, f: int)
    requires f in t + extra && extra.Keys !! t.Keys
    ensures f in t ==> (t + extra)[f] == t[f]
  {
  }

  lemma Apart(t: Table, extra: Table, lo: int, hi: int)
    requires extra.Keys <= Free(t, lo, hi)
    ensures extra.Keys !! t.Keys
  {
  }

  lemma DuplicatedSnoc(t: Table, extra: Table, src: seq<int>, tmp: seq<int>, files: seq<int>,
                      lo: int, hi: int, r: int)
    requires Duplicated(t, extra, src, tmp, files, lo, hi) && |tmp| < |src|
    requires src[|tmp|] in t + extra && r in Free(t + extra, lo, hi)
    ensures var file := (t + extra)[src[|tmp|]];
            && Duplicated(t, extra[r := file], src, tmp + [r], files + [file], lo, hi)
            && (t + extra)[r := file] == t + extra[r := file]
  {
    hide Numbers;
    hide Free;
    Apart(t, extra, lo, hi);
    FreeBoth(t, extra, lo, hi, r);
    LookUp(t, extra, src[|tmp|]);
    var file := (t + extra)[src[|tmp|]];
    assert |files| == |tmp| && (src[|tmp|] in t ==> file == t[src[|tmp|]]);
    FromSourcesSnoc(t, src, files, file);
    CarriesSnoc(extra, tmp, files, r, file);
    hide FromSources;
    hide Carries;
    OneMore(extra, r, file);
    Overlay(t, extra, r, file);
    NumbersSnoc(tmp, r);
  }

  // ---- which temporaries there will be ----

  /** The lowest free number from `lo` on, or one past them all. */
  function NextFree(t: Table, lo: int, hi: int): (r: int)
    ensures r >= lo && forall f :: lo <= f < r ==> f in t
    ensures r < hi ==> r !in t
    decreases hi - lo
  {
    if lo >= hi || lo !in t then lo else NextFree(t, lo + 1, hi)
  }

  /** The i-th temporary, if there are enough free numbers. */
  function TempAt(t: Table, lo: int, hi: int, i: nat): int {
    NextFree(t, if i == 0 then lo else TempAt(t, lo, hi, i - 1) + 1, hi)
  }

  /** Each source is open, or is the number of an earlier source's temporary. */
  predicate Reachable(t: Table, src: seq<int>, lo: int, hi: int) {
    forall i :: 0 <= i < |src| ==> src[i] in t || IsTemp(t, lo, hi, i, src[i])
  }

  predicate IsTemp(t: Table, lo: int, hi: int, i: nat, f: int) {
    exists j :: 0 <= j < i && f == TempAt(t, lo, hi, j)
  }

  predicate AreTemps(t: Table, tmp: seq<int>, lo: int, hi: int) {
    forall k :: 0 <= k < |tmp| ==> lo <= tmp[k] < hi && tmp[k] == TempAt(t, lo, hi, k)
  }

  predicate Rising(tmp: seq<int>) {
    forall j, k :: 0 <= j < k < |tmp| ==> tmp[j] < tmp[k]
  }

  /** A source that was not open gave the file of the temporary it names. */
  predicate Echoes(t: Table, src: seq<int>, tmp: seq<int>, files: seq<int>) {
    && |files| == |tmp| <= |src|
    && forall j, k :: 0 <= j < k < |tmp| && src[k] !in t && src[k] == tmp[j] ==> files[k] == files[j]
  }

  /** The temporaries so far are the lowest free numbers, all from sources
      within reach. */
  predicate Lowest(t: Table, src: seq<int>, tmp: seq<int>, files: seq<int>, lo: int, hi: int) {
    && AreTemps(t, tmp, lo, hi) && Rising(tmp) && Echoes(t, src, tmp, files)
    && Reachable(t, src[..|tmp|], lo, hi)
  }

  /** Where the search for the next temporary begins anew. */
  function Bound(tmp: seq<int>, lo: int): int {
    if tmp == [] then lo else tmp[|tmp| - 1] + 1
  }

  lemma {:induction false} NextIs(t: Table, lo: int, hi: int, r: int)
    requires lo <= r < hi && r !in t && forall f :: lo <= f < r ==> f in t
    ensures NextFree(t, lo, hi) == r
    decreases r - lo
  {
    if lo < r {
      NextIs(t, lo + 1, hi, r);
    }
  }

  lemma {:induction false} TempNext(t: Table, lo: int, hi: int, tmp: seq<int>)
    requires tmp != [] ==> tmp[|tmp| - 1] == TempAt(t, lo, hi, |tmp| - 1)
    ensures TempAt(t, lo, hi, |tmp|) == NextFree(t, Bound(tmp, lo), hi)
  {
  }

  predicate Taken(t: Table, lo: int, hi: int) {
    forall f :: lo <= f < hi ==> f in t
  }

  lemma BelowBound(tmp: seq<int>, lo: int)
    requires Rising(tmp)
    ensures forall x :: x in tmp ==> x < Bound(tmp, lo)
  {
    forall x | x in tmp
      ensures x < Bound(tmp, lo)
    {
      var j :| 0 <= j < |tmp| && tmp[j] == x;
      assert j < |tmp| - 1 ==> tmp[j] < tmp[|tmp| - 1];
    }
  }

  /** Everything below the bound is taken, so the kernel's lowest free number
      lies above the temporaries so far. */
  lemma AboveBound(t: Table, extra: Table, now: Table, tmp: seq<int>, lo: int, r: int)
    requires now == t + extra && extra.Keys == Numbers(tmp) && Rising(tmp)
    requires lo <= r && r !in now && Taken(now, lo, r) && Taken(now, lo, Bound(tmp, lo)) && lo <= Bound(tmp, lo)
    ensures r >= Bound(tmp, lo) && Taken(t, Bound(tmp, lo), r)
  {
    BelowBound(tmp, lo);
    forall f | Bound(tmp, lo) <= f < r
      ensures f in t
    {
      assert f in now && f !in tmp;
    }
  }

  /** The kernel's lowest free number is the next temporary. */
  lemma {:induction false} NextTemp(t: Table, extra: Table, now: Table, tmp: seq<int>, lo: int, hi: int, r: int)
    requires AreTemps(t, tmp, lo, hi) && Rising(tmp) && extra.Keys == Numbers(tmp) && now == t + extra
    requires lo <= r < hi && r !in now && Taken(now, lo, r) && Taken(now, lo, Bound(tmp, lo))
    ensures r == TempAt(t, lo, hi, |tmp|) && r >= Bound(tmp, lo)
  {
    hide TempAt;
    hide NextFree;
    TempNext(t, lo, hi, tmp);
    AboveBound(t, extra, now, tmp, lo, r);
    NextIs(t, Bound(tmp, lo), hi, r);
  }

  /** A source that is not open is a temporary among those so far. */
  lemma WhichTemp(t: Table, extra: Table, tmp: seq<int>, lo: int, hi: int, f: int)
    requires AreTemps(t, tmp, lo, hi) && extra.Keys == Numbers(tmp)
    ensures f in extra <==> IsTemp(t, lo, hi, |tmp|, f)
  {
    hide TempAt;
    if f in extra {
      var j :| 0 <= j < |tmp| && tmp[j] == f;
      assert f == TempAt(t, lo, hi, j);
    }
    if IsTemp(t, lo, hi, |tmp|, f) {
      var j :| 0 <= j < |tmp| && f == TempAt(t, lo, hi, j);
      assert tmp[j] in Numbers(tmp);
    }
  }

  lemma EchoesSnoc(t: Table, extra: Table, src: seq<int>, tmp: seq<int>, files: seq<int>, r: int)
    requires Echoes(t, src, tmp, files) && Carries(extra, tmp, files) && extra.Keys !! t.Keys
    requires |tmp| < |src| && src[|tmp|] in t + extra
    ensures Echoes(t, src, tmp + [r], files + [(t + extra)[src[|tmp|]]])
  {
    var n, file := |tmp|, (t + extra)[src[|tmp|]];
    forall j | 0 <= j < n && src[n] !in t && src[n] == tmp[j]
      ensures file == files[j]
    {
      assert extra[tmp[j]] == files[j];
    }
  }

  lemma ReachableSnoc(t: Table, src: seq<int>, n: nat, lo: int, hi: int)
    requires n < |src| && Reachable(t, src[..n], lo, hi)
    ensures Reachable(t, src[..n + 1], lo, hi) <==> src[n] in t || IsTemp(t, lo, hi, n, src[n])
  {
    hide IsTemp;
    assert src[..n + 1] == src[..n] + [src[n]];
    assert forall i :: 0 <= i < n ==> src[..n + 1][i] == src[..n][i];
    assert src[..n + 1][n] == src[n];
  }

  lemma {:induction false} LowestSnoc(t: Table, extra: Table, src: seq<int>, tmp: seq<int>, files: seq<int>,
                   lo: int, hi: int, r: int)
    requires Lowest(t, src, tmp, files, lo, hi) && Carries(extra, tmp, files) && extra.Keys == Numbers(tmp)
    requires |tmp| < |src| && src[|tmp|] in t + extra && extra.Keys !! t.Keys
    requires lo <= r < hi && r == TempAt(t, lo, hi, |tmp|) && r >= Bound(tmp, lo)
    ensures Lowest(t, src, tmp + [r], files + [(t + extra)[src[|tmp|]]], lo, hi)
  {
    hide TempAt;
    hide IsTemp;
    hide Numbers;
    hide Echoes;
    hide Reachable;
    hide Carries;
    hide AreTemps;
    hide Rising;
    WhichTemp(t, extra, tmp, lo, hi, src[|tmp|]);
    EchoesSnoc(t, extra, src, tmp, files, r);
    ReachableSnoc(t, src, |tmp|, lo, hi);
    TempsSnoc(t, tmp, lo, hi, r);
  }

  lemma {:induction false} TempsSnoc(t: Table, tmp: seq<int>, lo: int, hi: int, r: int)
    requires AreTemps(t, tmp, lo, hi) && Rising(tmp)
    requires lo <= r < hi && r == TempAt(t, lo, hi, |tmp|) && r >= Bound(tmp, lo)
    ensures AreTemps(t, tmp + [r], lo, hi) && Rising(tmp + [r])
  {
    hide TempAt;
    BelowBound(tmp, lo);
    assert forall j :: 0 <= j < |tmp| ==> tmp[j] in tmp;
  }

  /** A source that is neither open nor a temporary so far cannot be duplicated. */
  lemma OutOfReach(t: Table, extra: Table, src: seq<int>, tmp: seq<int>, files: seq<int>, lo: int, hi: int)
    requires Lowest(t, src, tmp, files, lo, hi) && extra.Keys == Numbers(tmp)
    requires |tmp| < |src| && src[|tmp|] !in t + extra
    ensures !Reachable(t, src, lo, hi)
  {
    hide TempAt;
    hide IsTemp;
    WhichTemp(t, extra, tmp, lo, hi, src[|tmp|]);
    ReachableSnoc(t, src, |tmp|, lo, hi);
    ReachablePrefix(t, src, |tmp| + 1, lo, hi);
  }

  lemma ReachablePrefix(t: Table, src: seq<int>, n: nat, lo: int, hi: int)
    requires n <= |src|
    ensures Reachable(t, src, lo, hi) ==> Reachable(t, src[..n], lo, hi)
  {
    hide IsTemp;
  }

  /** The first pass so far. */
  predicate Underway(t: Table, extra: Table, now: Table, src: seq<int>, tmp: seq<int>, files: seq<int>,
                     lo: int, hi: int) {
    && Duplicated(t, extra, src, tmp, files, lo, hi) && Lowest(t, src, tmp, files, lo, hi)
    && now == t + extra && Taken(now, lo, Bound(tmp, lo))
  }

  lemma NothingYet(t: Table, src: seq<int>, lo: int, hi: int)
    ensures Underway(t, map[], t, src, [], [], lo, hi)
  {
    assert t + map[] == t;
  }

  lemma OneFurther(t: Table, extra: Table, now: Table, src: seq<int>, tmp: seq<int>, files: seq<int>,
                   lo: int, hi: int, r: int)
    requires Underway(t, extra, now, src, tmp, files, lo, hi) && |tmp| < |src|
    requires src[|tmp|] in now && r in Free(now, lo, hi) && Taken(now, lo, r)
    ensures var file := now[src[|tmp|]];
            Underway(t, extra[r := file], now[r := file], src, tmp + [r], files + [file], lo, hi)
  {
    hide FromSources;
    hide Carries;
    hide Echoes;
    hide AreTemps;
    hide Rising;
    hide Numbers;
    hide Free;
    hide Reachable;
    IsFree(now, lo, hi, r);
    Apart(t, extra, lo, hi);
    NextTemp(t, extra, now, tmp, lo, hi, r);
    LowestSnoc(t, extra, src, tmp, files, lo, hi, r);
    DuplicatedSnoc(t, extra, src, tmp, files, lo, hi, r);
    hide Duplicated;
    hide Lowest;
    TakenMore(now, lo, r, now[src[|tmp|]]);
  }

  lemma TakenMore(now: Table, lo: int, r: int, file: int)
    requires Taken(now, lo, r)
    ensures Taken(now[r := file], lo, r + 1)
  {
  }

  /** Without a number or with a source out of reach it cannot go on. */
  lemma Stuck(t: Table, extra: Table, now: Table, src: seq<int>, tmp: seq<int>, files: seq<int>, lo: int, hi: int)
    requires Underway(t, extra, now, src, tmp, files, lo, hi) && |tmp| < |src|
    requires src[|tmp|] !in now || Free(now, lo, hi) == {}
    ensures !(|Free(t, lo, hi)| >= |src| && Reachable(t, src, lo, hi))
  {
    hide Free;
    hide Reachable;
    Crowded(t, extra, src, tmp, files, lo, hi);
    if src[|tmp|] !in now {
      OutOfReach(t, extra, src, tmp, files, lo, hi);
    }
  }

  lemma AllReached(t: Table, extra: Table, now: Table, src: seq<int>, tmp: seq<int>, files: seq<int>,
                   lo: int, hi: int)
    requires Underway(t, extra, now, src, tmp, files, lo, hi) && |tmp| == |src|
    ensures |Free(t, lo, hi)| >= |src| && Reachable(t, src, lo, hi)
  {
    hide Free;
    hide Duplicated;
    hide Reachable;
    hide AreTemps;
    hide Rising;
    hide Echoes;
    hide Taken;
    Crowded(t, extra, src, tmp, files, lo, hi);
    assert src[..|src|] == src;
  }

  lemma UnderwayIs(t: Table, extra: Table, now: Table, src: seq<int>, tmp: seq<int>, files: seq<int>, lo: int, hi: int)
    requires Underway(t, extra, now, src, tmp, files, lo, hi)
    ensures Duplicated(t, extra, src, tmp, files, lo, hi) && Lowest(t, src, tmp, files, lo, hi) && now == t + extra
  {
  }

  lemma IsFree(t: Table, lo: int, hi: int, r: int)
    requires r in Free(t, lo, hi)
    ensures lo <= r < hi && r !in t
  {
  }

  /** The place of the i-th source. */
  function Slot(i: nat): int {
    3 + i
  }

  /** The first targets with the files that belong there. */
  function Targets(files: seq<int>, k: nat): Table
    requires k <= |files|
  {
    if k == 0 then map[] else Targets(files, k - 1)[Slot(k - 1) := files[k - 1]]
  }

  lemma {:induction false} TargetsAt(files: seq<int>, k: nat, f: int)
    requires k <= |files|
    ensures f in Targets(files, k) <==> 3 <= f < 3 + k
    ensures f in Targets(files, k) ==> Targets(files, k)[f] == files[f - 3]
    decreases k
  {
    if k > 0 {
      TargetsAt(files, k - 1, f);
    }
  }

  lemma Overlay(a: Table, b: Table, f: int, file: int)
    ensures (a + b)[f := file] == a + b[f := file]
  {
  }

  lemma MovedSnoc(t: Table, extra: Table, tmp: seq<int>, files: seq<int>, k: nat)
    requires Carries(extra, tmp, files) && k < |tmp| && (forall f :: f in extra ==> f >= 3 + |tmp|)
    ensures var now := t + extra + Targets(files, k);
            && tmp[k] in now && now[tmp[k]] == files[k]
            && now[Slot(k) := files[k]] == t + extra + Targets(files, k + 1)
  {
    assert tmp[k] in extra;
    TargetsAt(files, k, tmp[k]);
    Overlay(t + extra, Targets(files, k), Slot(k), files[k]);
  }

  /** Sources that named a temporary share its file. */
  predicate Shared(t: Table, t': Table, src: seq<int>, lo: int, hi: int) {
    forall i, j :: 0 <= j < i < |src| && src[i] !in t && src[i] == TempAt(t, lo, hi, j) ==>
      Slot(i) in t' && Slot(j) in t' && t'[Slot(i)] == t'[Slot(j)]
  }

  /** What a placement must achieve: the file of `src[i]` at its place, every
      descriptor outside the target range untouched. */
  predicate Placed(t: Table, t': Table, src: seq<int>) {
    && (forall i :: 0 <= i < |src| ==> Slot(i) in t')
    && (forall i :: 0 <= i < |src| && src[i] in t ==> t'[Slot(i)] == t[src[i]])
    && (forall f :: f in t && !(3 <= f < 3 + |src|) ==> f in t' && t'[f] == t[f])
    && (forall f :: f in t' && !(3 <= f < 3 + |src|) ==> f in t)
  }

  /** Once the temporaries are closed, only the targets differ. */
  lemma TemporariesGone(t: Table, extra: Table, more: Table)
    requires extra.Keys !! t.Keys && extra.Keys !! more.Keys
    ensures (t + extra + more) - extra.Keys == t + more
  {
  }

  lemma {:induction false} PlacedBy(t: Table, src: seq<int>, files: seq<int>)
    requires FromSources(t, src, files) && |files| == |src|
    ensures Placed(t, t + Targets(files, |src|), src)
    ensures forall i :: 0 <= i < |src| ==> Slot(i) in t + Targets(files, |src|)
    ensures forall i :: 0 <= i < |src| ==> (t + Targets(files, |src|))[Slot(i)] == files[i]
  {
    var n, more := |src|, Targets(files, |src|);
    var now := t + more;
    hide Targets;
    forall i | 0 <= i < n
      ensures Slot(i) in now && now[Slot(i)] == files[i]
    {
      TargetsAt(files, n, Slot(i));
    }
    forall f | !(3 <= f < 3 + n)
      ensures f !in more
    {
      TargetsAt(files, n, f);
    }
  }

  lemma {:induction false} Finished(t: Table, extra: Table, src: seq<int>, tmp: seq<int>, files: seq<int>, hi: int)
    requires Duplicated(t, extra, src, tmp, files, 3 + |src|, hi) && |tmp| == |src|
    requires Lowest(t, src, tmp, files, 3 + |src|, hi)
    ensures var t' := (t + extra + Targets(files, |src|)) - Numbers(tmp);
            Placed(t, t', src) && Shared(t, t', src, 3 + |src|, hi)
  {
    hide Targets;
    hide TempAt;
    hide Placed;
    hide Numbers;
    Apart(t, extra, 3 + |src|, hi);
    forall f | f in extra
      ensures f !in Targets(files, |src|)
    {
      TargetsAt(files, |src|, f);
    }
    PlacedBy(t, src, files);
    TemporariesGone(t, extra, Targets(files, |src|));
  }

  lemma {:induction false} Starting(t: Table, extra: Table, src: seq<int>, tmp: seq<int>, files: seq<int>, hi: int)
    requires Duplicated(t, extra, src, tmp, files, 3 + |src|, hi) && |tmp| == |src|
    ensures |files| == |src| && Carries(extra, tmp, files) && (forall f :: f in extra ==> f >= 3 + |tmp|)
    ensures t + extra + Targets(files, 0) == t + extra
  {
    assert t + extra + map[] == t + extra;
  }

  lemma NothingLeft(t: Table, extra: Table, src: seq<int>, tmp: seq<int>, files: seq<int>,
                      lo: int, hi: int)
    requires Duplicated(t, extra, src, tmp, files, lo, hi)
    ensures (t + extra) - Numbers(tmp) == t
  {
  }

  /** With every number taken there were fewer free ones than sources, and with
      a temporary for each source there were enough. */
  lemma Crowded(t: Table, extra: Table, src: seq<int>, tmp: seq<int>, files: seq<int>, lo: int,
                      hi: int)
    requires Duplicated(t, extra, src, tmp, files, lo, hi)
    ensures Free(t + extra, lo, hi) == {} ==> |Free(t, lo, hi)| <= |tmp|
    ensures |Free(t, lo, hi)| >= |tmp|
  {
    SubsetSize(extra.Keys, Free(t, lo, hi));
    if Free(t + extra, lo, hi) == {} {
      forall f | f in Free(t, lo, hi)
        ensures f in extra.Keys
      {
        assert f !in Free(t + extra, lo, hi);
      }
      SubsetSize(Free(t, lo, hi), extra.Keys);
    }
  }

  /** When a placement can be done. */
  predicate Possible(t: Table, src: seq<int>, hard: nat, raisable: bool) {
    && hard >= 2 * |src| + 3 + 16 && raisable
    && |Free(t, 3 + |src|, hard)| >= |src|
    && Reachable(t, src, 3 + |src|, hard)
  }

  /** Open files and the two limits on their numbers. A hard limit of 2^64 - 1
      is no limit, and no number of sources fails the test against it. */
  class Process {
    var table: Table
    var soft: nat
    var hard: nat

    constructor (table: Table, soft: nat, hard: nat)
      ensures this.table == table && this.soft == soft && this.hard == hard
    {
      this.table, this.soft, this.hard := table, soft, hard;
    }

    /** Duplicates onto the lowest free number from `lo` on, below the limit. */
    method DupFd(fd: int, lo: nat) returns (r: int)
      modifies this`table
      ensures r < 0 <==> fd !in old(table) || Free(old(table), lo, soft) == {}
      ensures r < 0 ==> table == old(table)
      ensures r >= 0 ==> r in Free(old(table), lo, soft) && table == old(table)[r := old(table)[fd]]
      ensures r >= 0 ==> Taken(old(table), lo, r)
    {
      if fd !in table { return -1; }
      r := lo;
      while r < soft && r in table
        invariant lo <= r && forall f :: lo <= f < r ==> f in table
      {
        r := r + 1;
      }
      if r >= soft {
        assert Free(table, lo, soft) == {};
        return -1;
      }
      assert r in Free(table, lo, soft);
      table := table[r := table[fd]];
    }

    method Dup2(fd: int, to: int) returns (r: int)
      requires to >= 0
      modifies this`table
      ensures r == if fd !in old(table) || to >= soft then -1 else to
      ensures table == if r < 0 then old(table) else old(table)[to := old(table)[fd]]
    {
      if fd !in table || to >= soft { return -1; }
      table := table[to := table[fd]];
      return to;
    }

    method Close(fd: int)
      modifies this`table
      ensures table == old(table) - {fd}
    {
      table := table - {fd};
    }

    /** Puts the sources at 3, 4, 5 and on. `raisable` is whether the soft limit
        may be raised. */
    method Place(src: seq<int>, raisable: bool) returns (ok: bool)
      requires soft <= hard
      modifies this
      ensures ok <==> Possible(old(table), src, hard, raisable || old(soft) == hard)
      ensures ok ==> Placed(old(table), table, src) && Shared(old(table), table, src, 3 + |src|, hard)
      ensures !ok ==> table == old(table)
      ensures soft == old(soft) && hard == old(hard)
    {
      hide Placed;
      hide Free;
      hide Shared;
      hide Reachable;
      if hard < |src| * 2 + 3 + 16 { return false; }
      var saved := soft;
      if soft != hard {
        if !raisable { return false; }
        soft := hard;
      }
      ok := Shuffle(src);
      soft := saved;
    }

    /** The two passes, under a limit that leaves room for the targets. */
    method Shuffle(src: seq<int>) returns (ok: bool)
      requires soft >= 3 + |src|
      modifies this`table
      ensures ok <==> |Free(old(table), 3 + |src|, soft)| >= |src| && Reachable(old(table), src, 3 + |src|, soft)
      ensures ok ==> Placed(old(table), table, src) && Shared(old(table), table, src, 3 + |src|, soft)
      ensures !ok ==> table == old(table)
    {
      hide *;
      ghost var t := table;
      var tmp, full, files, extra := Duplicate(src);
      UnderwayIs(t, extra, table, src, tmp, files, 3 + |src|, soft);
      if full {
        MoveDown(src, tmp, files, extra, t);
        CloseAll(tmp);
        Finished(t, extra, src, tmp, files, soft);
      } else {
        CloseAll(tmp);
        NothingLeft(t, extra, src, tmp, files, 3 + |src|, soft);
      }
      ok := full;
    }

    /** A temporary for each source, as far as it goes. */
    method Duplicate(src: seq<int>) returns (tmp: seq<int>, full: bool, ghost files: seq<int>, ghost extra: Table)
      modifies this`table
      ensures Underway(old(table), extra, table, src, tmp, files, 3 + |src|, soft)
      ensures full ==> |tmp| == |src|
      ensures full <==> |Free(old(table), 3 + |src|, soft)| >= |src| && Reachable(old(table), src, 3 + |src|, soft)
    {
      hide Free;
      hide Reachable;
      hide Underway;
      hide Taken;
      tmp, files, extra := [], [], map[];
      ghost var t, lo := table, 3 + |src|;
      NothingYet(t, src, lo, soft);
      for i := 0 to |src|
        invariant |tmp| == i && Underway(t, extra, table, src, tmp, files, lo, soft)
      {
        ghost var now := table;
        var r := DupFd(src[i], 3 + |src|);
        if r < 0 {
          Stuck(t, extra, now, src, tmp, files, lo, soft);
          return tmp, false, files, extra;
        }
        OneFurther(t, extra, now, src, tmp, files, lo, soft, r);
        ghost var file := now[src[i]];
        tmp, files, extra := tmp + [r], files + [file], extra[r := file];
      }
      AllReached(t, extra, table, src, tmp, files, lo, soft);
      full := true;
    }

    method MoveDown(src: seq<int>, tmp: seq<int>, ghost files: seq<int>, ghost extra: Table, ghost t: Table)
      requires Duplicated(t, extra, src, tmp, files, 3 + |src|, soft) && table == t + extra
      requires |tmp| == |src| && soft >= 3 + |src|
      modifies this`table
      ensures |files| == |src| && table == t + extra + Targets(files, |src|)
    {
      hide Duplicated;
      hide Targets;
      hide Carries;
      Starting(t, extra, src, tmp, files, soft);
      for i := 0 to |src|
        invariant table == t + extra + Targets(files, i)
      {
        MovedSnoc(t, extra, tmp, files, i);
        var r := Dup2(tmp[i], Slot(i));
      }
    }

    method CloseAll(tmp: seq<int>)
      modifies this`table
      ensures table == old(table) - Numbers(tmp)
    {
      for i := 0 to |tmp|
        invariant table == old(table) - Numbers(tmp[..i])
      {
        assert Numbers(tmp[..i + 1]) == Numbers(tmp[..i]) + {tmp[i]};
        Close(tmp[i]);
      }
      assert tmp[..|tmp|] == tmp;
    }
  }
}

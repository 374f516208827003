/**
 Choosing the arrow: one pass over the ring that pairs events with the ends of
 their episodes, a second that keeps a running best.
 */
module RecorderBest {
  import opened RecorderArrow
  import opened RecorderRing

  // ---- first pass ----

  lemma SinceStep(es: seq<Event>, i: nat, k: nat, live: bool)
    requires i < |es|
    ensures Since(es, i + 1, k, live) <==>
            !EndsEpisode(es[i], k) &&
            ((if live then GoesLive(es[i], k) else OpensEpisode(es[i], k)) || Since(es, i, k, live))
  {
    if Since(es, i + 1, k, live) {
      var j :| 0 <= j < i + 1 && (if live then GoesLive(es[j], k) else OpensEpisode(es[j], k)) &&
               forall m :: j < m < i + 1 ==> !EndsEpisode(es[m], k);
      assert j < i ==> !EndsEpisode(es[i], k);
    }
    if !EndsEpisode(es[i], k) && Since(es, i, k, live) {
      var j :| 0 <= j < i && (if live then GoesLive(es[j], k) else OpensEpisode(es[j], k)) &&
               forall m :: j < m < i ==> !EndsEpisode(es[m], k);
      assert forall m :: j < m < i + 1 ==> !EndsEpisode(es[m], k);
    }
  }

  lemma EndStep(es: seq<Event>, i: nat, j: nat, end: int)
    requires j < i < |es| && IsEndOf(es, i, j, end)
    ensures IsEndOf(es, i + 1, j, if end == -2 && EndsEpisode(es[i], es[j].psi) then i else end)
  {
  }

  lemma EndFresh(es: seq<Event>, i: nat)
    requires i < |es|
    ensures IsEndOf(es, i + 1, i, if InEpisode(es, i) then -2 else -1)
  {
  }

  /** The first pass after `i` events: ends found so far, which ends are
      skipped, and per pressure kind whether an episode is open and live and
      which events still wait for its end. */
  datatype Pass = Pass(ends: seq<int>, skip: seq<bool>, open: seq<bool>, saw: seq<bool>, pend: seq<seq<nat>>)

  predicate Kinds(es: seq<Event>) {
    forall i :: 0 <= i < |es| ==> es[i].psi < 3
  }

  predicate EndsOk(es: seq<Event>, i: nat, ends: seq<int>)
    requires i <= |es|
  {
    |ends| == i && forall j :: 0 <= j < i ==> IsEndOf(es, i, j, ends[j])
  }

  predicate SkipOk(es: seq<Event>, i: nat, skip: seq<bool>)
    requires i <= |es|
  {
    |skip| == i && forall j :: 0 <= j < i ==> skip[j] == Skipped(es, j)
  }

  predicate FlagsOk(es: seq<Event>, i: nat, open: seq<bool>, saw: seq<bool>, k: nat)
    requires i <= |es| && k < 3
  {
    |open| == |saw| == 3 && open[k] == Since(es, i, k, false) && saw[k] == Since(es, i, k, true)
  }

  /** The events of kind `k` that wait for the end of their episode. */
  predicate PendOk(es: seq<Event>, ends: seq<int>, pend: seq<nat>, k: nat)
    requires |ends| <= |es|
  {
    && (forall j :: j in pend ==> j < |ends|)
    && (forall j :: 0 <= j < |ends| ==> (j in pend <==> ends[j] == -2 && es[j].psi == k))
  }

  predicate PassOk(es: seq<Event>, i: nat, p: Pass)
    requires i <= |es|
  {
    && EndsOk(es, i, p.ends) && SkipOk(es, i, p.skip) && |p.pend| == 3
    && FlagsOk(es, i, p.open, p.saw, 1) && FlagsOk(es, i, p.open, p.saw, 2)
    && PendOk(es, p.ends, p.pend[1], 1) && PendOk(es, p.ends, p.pend[2], 2)
  }

  // ---- how each part moves on by one event ----

  predicate Settled(es: seq<Event>, i: nat, ends: seq<int>, ends': seq<int>)
    requires i < |es| && |ends| == i
  {
    |ends'| == i &&
    forall j :: 0 <= j < i ==> ends'[j] == if ends[j] == -2 && EndsEpisode(es[i], es[j].psi) then i else ends[j]
  }

  lemma EndsMove(es: seq<Event>, i: nat, ends: seq<int>, ends': seq<int>)
    requires i < |es| && EndsOk(es, i, ends) && Settled(es, i, ends, ends')
    ensures EndsOk(es, i + 1, ends' + [if InEpisode(es, i) then -2 else -1])
  {
    var all := ends' + [if InEpisode(es, i) then -2 else -1];
    forall j | 0 <= j < i + 1
      ensures IsEndOf(es, i + 1, j, all[j])
    {
      if j < i {
        EndStep(es, i, j, ends[j]);
      } else {
        EndFresh(es, i);
      }
    }
  }

  lemma SkipMove(es: seq<Event>, i: nat, skip: seq<bool>)
    requires i < |es| && SkipOk(es, i, skip)
    ensures SkipOk(es, i + 1, skip + [Skipped(es, i)])
  {
  }

  lemma FlagsMove(es: seq<Event>, i: nat, open: seq<bool>, saw: seq<bool>, k: nat,
                      open': seq<bool>, saw': seq<bool>)
    requires i < |es| && k < 3 && FlagsOk(es, i, open, saw, k) && |open'| == |saw'| == 3
    requires open'[k] == (!EndsEpisode(es[i], k) && (OpensEpisode(es[i], k) || open[k]))
    requires saw'[k] == (!EndsEpisode(es[i], k) && (GoesLive(es[i], k) || saw[k]))
    ensures FlagsOk(es, i + 1, open', saw', k)
  {
    SinceStep(es, i, k, false);
    SinceStep(es, i, k, true);
  }

  /** An end leaves nothing waiting; an event in an episode starts to wait. */
  lemma PendMove(es: seq<Event>, i: nat, ends: seq<int>, pend: seq<nat>, k: nat, ends': seq<int>)
    requires i < |es| && 1 <= k < 3 && |ends| == i && PendOk(es, ends, pend, k) && Settled(es, i, ends, ends')
    ensures var waits := InEpisode(es, i);
            PendOk(es, ends' + [if waits then -2 else -1],
                   if EndsEpisode(es[i], k) then [] else if waits && es[i].psi == k then pend + [i] else pend, k)
  {
  }

  /** Gives every waiting event its end. */
  method Resolve(ends: seq<int>, pend: seq<nat>, i: nat) returns (r: seq<int>)
    requires forall j :: j in pend ==> j < |ends|
    ensures |r| == |ends|
    ensures forall j :: 0 <= j < |ends| ==> r[j] == if j in pend then i else ends[j]
  {
    r := ends;
    for m := 0 to |pend|
      invariant |r| == |ends|
      invariant forall j :: 0 <= j < |ends| ==> r[j] == if j in pend[..m] then i else ends[j]
    {
      assert pend[m] in pend;
      r := r[pend[m] := i];
      assert pend[..m + 1] == pend[..m] + [pend[m]];
    }
    assert pend[..|pend|] == pend;
  }

  /** All parts of the pass moved on together. */
  predicate Moved(es: seq<Event>, i: nat, p: Pass, q: Pass, ends': seq<int>)
    requires i < |es| && PassOk(es, i, p)
  {
    var e, waits := es[i], InEpisode(es, i);
    && Settled(es, i, p.ends, ends') && q.ends == ends' + [if waits then -2 else -1]
    && q.skip == p.skip + [Skipped(es, i)]
    && |q.open| == |q.saw| == |q.pend| == 3
    && forall k :: 1 <= k < 3 ==>
         && q.open[k] == (!EndsEpisode(e, k) && (OpensEpisode(e, k) || p.open[k]))
         && q.saw[k] == (!EndsEpisode(e, k) && (GoesLive(e, k) || p.saw[k]))
         && q.pend[k] == if EndsEpisode(e, k) then [] else if waits && e.psi == k then p.pend[k] + [i] else p.pend[k]
  }

  lemma MovedIsOk(es: seq<Event>, i: nat, p: Pass, q: Pass, ends': seq<int>)
    requires i < |es| && PassOk(es, i, p) && Moved(es, i, p, q, ends')
    ensures PassOk(es, i + 1, q)
  {
    hide IsEndOf;
    hide InEpisode;
    hide Skipped;
    hide Since;
    EndsMove(es, i, p.ends, ends');
    SkipMove(es, i, p.skip);
    FlagsMove(es, i, p.open, p.saw, 1, q.open, q.saw);
    FlagsMove(es, i, p.open, p.saw, 2, q.open, q.saw);
    PendMove(es, i, p.ends, p.pend[1], 1, ends');
    PendMove(es, i, p.ends, p.pend[2], 2, ends');
  }

  lemma WaitingHasKind(es: seq<Event>, i: nat, ends: seq<int>)
    requires i <= |es| && EndsOk(es, i, ends)
    ensures forall j :: 0 <= j < i && ends[j] == -2 ==> es[j].psi != 0
  {
    forall j | 0 <= j < i && ends[j] == -2
      ensures es[j].psi != 0
    {
      assert IsEndOf(es, i, j, ends[j]);
    }
  }

  /** One event of the first pass. */
  method Pair(es: seq<Event>, i: nat, p: Pass) returns (q: Pass)
    requires i < |es| && Kinds(es) && PassOk(es, i, p)
    ensures PassOk(es, i + 1, q)
  {
    hide IsEndOf;
    hide Since;
    var e := es[i];
    var k := e.psi;
    var ends := p.ends;
    if k == 0 {
      q := p.(ends := p.ends + [-1], skip := p.skip + [false]);
    } else if e.src.Psi? {
      if e.phase.End? {
        ends := Resolve(p.ends, p.pend[k], i);
        q := Pass(ends + [-1], p.skip + [p.saw[k]], p.open[k := false], p.saw[k := false], p.pend[k := []]);
      } else if e.phase.Start? {
        q := p.(ends := p.ends + [-1], skip := p.skip + [false], open := p.open[k := true]);
      } else if e.phase.Live? {
        q := Pass(p.ends + [-2], p.skip + [false], p.open[k := true], p.saw[k := true], p.pend[k := p.pend[k] + [i]]);
      } else {
        q := p.(ends := p.ends + [-1], skip := p.skip + [false]);
      }
    } else if e.src.Session? && p.open[k] && e.tier != TIER_TRACE {
      q := p.(ends := p.ends + [-2], skip := p.skip + [false], pend := p.pend[k := p.pend[k] + [i]]);
    } else {
      q := p.(ends := p.ends + [-1], skip := p.skip + [false]);
    }
    WaitingHasKind(es, i, p.ends);
    assert k == 1 || k == 2 ==> PendOk(es, p.ends, p.pend[k], k) && FlagsOk(es, i, p.open, p.saw, k);
    assert Settled(es, i, p.ends, ends);
    MovedIsOk(es, i, p, q, ends);
  }

  method PairAll(es: seq<Event>) returns (p: Pass)
    requires Kinds(es)
    ensures PassOk(es, |es|, p)
  {
    p := Pass([], [], [false, false, false], [false, false, false], [[], [], []]);
    for i := 0 to |es|
      invariant PassOk(es, i, p)
    {
      p := Pair(es, i, p);
    }
  }

  // ---- second pass ----

  predicate Offered(es: seq<Event>, i: nat, lv: seq<Ongoing>, t0: nat, now: nat, a: Arrow)
    requires i < |es| && |lv| == 3 && es[i].psi < 3
  {
    Offers(es, i, lv, t0, a) && Shown(a, now)
  }

  /** The last of the highest-ranked arrows that events before `n` offer. */
  ghost predicate IsBest(es: seq<Event>, n: nat, lv: seq<Ongoing>, t0: nat, now: nat, best: int, out: Arrow)
    requires n <= |es| && |lv| == 3 && Kinds(es)
  {
    if best < 0 then
      out == NO_ARROW && forall j, a :: 0 <= j < n ==> !Offered(es, j, lv, t0, now, a)
    else
      && best < n && Offered(es, best, lv, t0, now, out)
      && (forall j, a :: 0 <= j < n && Offered(es, j, lv, t0, now, a) ==>
            AtLeast(RankOf(out, now), RankOf(a, now)))
      && (forall j, a :: best < j < n && Offered(es, j, lv, t0, now, a) ==>
            !AtLeast(RankOf(a, now), RankOf(out, now)))
  }

  lemma OneOffer(es: seq<Event>, i: nat, end: int, skip: bool, lv: seq<Ongoing>, t0: nat,
                      now: nat, a: Arrow)
    requires i < |es| && |lv| == 3 && Kinds(es) && IsEndOf(es, |es|, i, end) && skip == Skipped(es, i) && -2 <= end < |es|
    ensures Offered(es, i, lv, t0, now, a) <==>
            es[i].tier != TIER_TRACE && !skip && a == Candidate(es, i, end, lv, t0) && Shown(a, now)
  {
    forall e | -2 <= e < |es| && IsEndOf(es, |es|, i, e)
      ensures e == end
    {
      EndIsUnique(es, |es|, i, e, end);
    }
  }

  lemma BestStands(es: seq<Event>, i: nat, lv: seq<Ongoing>, t0: nat, now: nat, best: int,
                      out: Arrow, c: Arrow, offered: bool)
    requires i < |es| && |lv| == 3 && Kinds(es) && IsBest(es, i, lv, t0, now, best, out)
    requires forall a :: Offered(es, i, lv, t0, now, a) <==> offered && a == c
    requires offered ==> Shown(c, now)
    ensures if offered && Beats(c, out, now) then IsBest(es, i + 1, lv, t0, now, i, c)
            else IsBest(es, i + 1, lv, t0, now, best, out)
  {
    hide Offered;
    if offered && best >= 0 {
      assert Shown(out, now) by { OfferedIsShown(es, best, lv, t0, now, out); }
      BeatsIsRank(c, out, now);
      AtLeastTotal(RankOf(c, now), RankOf(out, now));
      if Beats(c, out, now) {
        forall j, a | 0 <= j < i && Offered(es, j, lv, t0, now, a)
          ensures AtLeast(RankOf(c, now), RankOf(a, now))
        {
          AtLeastTransitive(RankOf(c, now), RankOf(out, now), RankOf(a, now));
        }
      }
    } else if offered {
      AtLeastTotal(RankOf(c, now), RankOf(c, now));
    }
  }

  lemma OfferedIsShown(es: seq<Event>, i: nat, lv: seq<Ongoing>, t0: nat, now: nat, a: Arrow)
    requires i < |es| && |lv| == 3 && es[i].psi < 3 && Offered(es, i, lv, t0, now, a)
    ensures Shown(a, now)
  {
  }

  /** The last highest-ranked arrow still shown, or none exactly when no event
      offers one. */
  method BestArrow(es: seq<Event>, lv: seq<Ongoing>, t0: nat, now: nat) returns (out: Arrow, best: int)
    requires Kinds(es) && |lv| == 3
    ensures IsBest(es, |es|, lv, t0, now, best, out)
  {
    var p := PairAll(es);
    out, best := NO_ARROW, -1;
    for i := 0 to |es|
      invariant IsBest(es, i, lv, t0, now, best, out)
    {
      var c := Candidate(es, i, p.ends[i], lv, t0);
      var offered := es[i].tier != TIER_TRACE && !p.skip[i];
      forall a
        ensures Offered(es, i, lv, t0, now, a) <==> offered && Shown(c, now) && a == c
      {
        OneOffer(es, i, p.ends[i], p.skip[i], lv, t0, now, a);
      }
      BestStands(es, i, lv, t0, now, best, out, c, offered && Shown(c, now));
      if offered && Beats(c, out, now) {
        out, best := c, i;
      }
    }
  }

  /** The same for the events a ring still holds. */
  method BestOfRing(r: Ring<Event>, lv: seq<Ongoing>, t0: nat, now: nat) returns (out: Arrow, best: int)
    requires r.Valid() && Kinds(r.history) && |lv| == 3
    ensures Kinds(Newest(r.history, REC_RING))
    ensures var es := Newest(r.history, REC_RING); IsBest(es, |es|, lv, t0, now, best, out)
  {
    var es := r.Read();
    out, best := BestArrow(es, lv, t0, now);
  }
}

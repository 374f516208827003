/**
 The arrow on the board: of everything the ring remembers, the one event still
 worth showing. Candidates are ranked by shade, tier, live desktop sessions
 first, and time; the last of the highest wins.
 */
module RecorderArrow {

  const TIER_TRACE := 0
  const TIER_MINOR := 1
  const TIER_CRIT := 2
  const TIER_SESSION := 3
  const TIER_LIVE := 4

  datatype Source = Pid1 | Coredump | Session | Earlyoom | Psi | Other

  /** What the ranking looks at: `psi` is 1 or 2 for a message about pinned CPU
      or memory pressure, else 0; `phase` is the episode word of its kind. */
  datatype Phase = NoPhase | Start | Live | End

  datatype Event = Event(ts: nat, src: Source, tier: nat, psi: nat, phase: Phase)

  /** A pressure episode running now: when it began, and when its arrow went live. */
  datatype Ongoing = Ongoing(start: nat, liveTs: nat)

  datatype Arrow = Arrow(state: nat, tier: nat, src: Source, eventTs: nat, resolvedTs: nat)

  const NO_ARROW := Arrow(0, 0, Other, 0, 0)

  // ---- shade and order ----

  function Shade(a: Arrow, now: nat): (s: nat)
    ensures s <= 2
  {
    if a.state == 0 then 0
    else if a.state == 1 || now < a.resolvedTs then 1
    else if now - a.resolvedTs < 12 * 3600 then 1
    else if now - a.resolvedTs < 36 * 3600 then 2
    else 0
  }

  predicate Shown(a: Arrow, now: nat) {
    Shade(a, now) != 0 && a.tier != TIER_TRACE
  }

  predicate Beats(cand: Arrow, cur: Arrow, now: nat) {
    var cs, us := Shade(cand, now), Shade(cur, now);
    if cs == 0 || cand.tier == TIER_TRACE then false
    else if us == 0 then true
    else if cs != us then cs < us
    else if cand.tier != cur.tier then cand.tier > cur.tier
    else if cand.tier == TIER_LIVE && cand.src.Session? != cur.src.Session? then cand.src.Session?
    else cand.eventTs >= cur.eventTs
  }

  /** The rank of a shown arrow, compared lexicographically. */
  datatype Rank = Rank(shade: int, tier: int, session: int, time: int)

  function RankOf(a: Arrow, now: nat): Rank {
    Rank(-(Shade(a, now) as int), a.tier, if a.tier == TIER_LIVE && a.src.Session? then 1 else 0, a.eventTs)
  }

  predicate AtLeast(a: Rank, b: Rank) {
    if a.shade != b.shade then a.shade > b.shade
    else if a.tier != b.tier then a.tier > b.tier
    else if a.session != b.session then a.session > b.session
    else a.time >= b.time
  }

  lemma AtLeastTotal(a: Rank, b: Rank)
    ensures AtLeast(a, a) && (AtLeast(a, b) || AtLeast(b, a))
  {
  }

  lemma AtLeastTransitive(a: Rank, b: Rank, c: Rank)
    requires AtLeast(a, b) && AtLeast(b, c)
    ensures AtLeast(a, c)
  {
  }

  /** On arrows that are shown, "beats" is "ranks at least as high". */
  lemma BeatsIsRank(cand: Arrow, cur: Arrow, now: nat)
    requires Shown(cand, now) && Shown(cur, now)
    ensures Beats(cand, cur, now) <==> AtLeast(RankOf(cand, now), RankOf(cur, now))
  {
  }

  // ---- episodes, declaratively ----

  predicate EndsEpisode(e: Event, k: nat) {
    e.src.Psi? && e.psi == k && e.phase.End?
  }

  predicate OpensEpisode(e: Event, k: nat) {
    e.src.Psi? && e.psi == k && (e.phase.Start? || e.phase.Live?)
  }

  predicate GoesLive(e: Event, k: nat) {
    e.src.Psi? && e.psi == k && e.phase.Live?
  }

  /** Some earlier event satisfies `want` with no end of the episode since. */
  predicate Since(es: seq<Event>, i: nat, k: nat, live: bool)
    requires i <= |es|
  {
    exists j :: 0 <= j < i && (if live then GoesLive(es[j], k) else OpensEpisode(es[j], k)) &&
      forall m :: j < m < i ==> !EndsEpisode(es[m], k)
  }

  /** An event whose arrow belongs to an episode: a live mark, or a session that
      ended badly while the episode was open. */
  predicate InEpisode(es: seq<Event>, i: nat)
    requires i < |es|
  {
    var e := es[i];
    e.psi != 0 &&
    if e.src.Psi? then e.phase.Live? else e.src.Session? && Since(es, i, e.psi, false) && e.tier != TIER_TRACE
  }

  /** An episode's end is not shown itself when the episode had gone live. */
  predicate Skipped(es: seq<Event>, i: nat)
    requires i < |es|
  {
    var e := es[i];
    e.psi != 0 && EndsEpisode(e, e.psi) && Since(es, i, e.psi, true)
  }

  /** Among the first `n` events: the end of the episode event `i` belongs to,
      -2 while it is open, -1 when it belongs to none. */
  predicate IsEndOf(es: seq<Event>, n: nat, i: nat, end: int)
    requires i < n <= |es|
  {
    if !InEpisode(es, i) then end == -1
    else if end == -2 then forall m :: i < m < n ==> !EndsEpisode(es[m], es[i].psi)
    else i < end < n && EndsEpisode(es[end], es[i].psi) &&
         forall m :: i < m < end ==> !EndsEpisode(es[m], es[i].psi)
  }

  lemma EndIsUnique(es: seq<Event>, n: nat, i: nat, a: int, b: int)
    requires i < n <= |es| && IsEndOf(es, n, i, a) && IsEndOf(es, n, i, b)
    ensures a == b
  {
  }

  // ---- candidates ----

  function Candidate(es: seq<Event>, i: nat, end: int, lv: seq<Ongoing>, t0: nat): Arrow
    requires i < |es| && |lv| == 3 && es[i].psi < 3 && end < |es|
  {
    var e := es[i];
    if end == -1 then Arrow(2, e.tier, e.src, e.ts, e.ts)
    else
      var tier := if e.src.Session? then TIER_SESSION else TIER_MINOR;
      if end >= 0 then Arrow(2, tier, e.src, e.ts, es[end].ts)
      else if (if e.src.Psi? then lv[e.psi].liveTs != 0 && e.ts == lv[e.psi].liveTs
               else lv[e.psi].start != 0 && e.ts >= lv[e.psi].start)
      then Arrow(1, TIER_LIVE, e.src, e.ts, 0)
      else Arrow(2, tier, e.src, e.ts, t0)
  }

  /** Event `i` offers this arrow. */
  predicate Offers(es: seq<Event>, i: nat, lv: seq<Ongoing>, t0: nat, a: Arrow)
    requires i < |es| && |lv| == 3 && es[i].psi < 3
  {
    && es[i].tier != TIER_TRACE && !Skipped(es, i)
    && exists end :: -2 <= end < |es| && IsEndOf(es, |es|, i, end) && a == Candidate(es, i, end, lv, t0)
  }
}

/**
 Descriptors that other processes passed in are closed by closer children: one
 child per descriptor up to a limit, a park list beyond it, and one overflow
 child that takes the whole park list at once. Every descriptor handed over is
 in exactly one of these places or closed.
 */
module FdClosers {
  import opened Common

  const MAX_INFLIGHT := 32
  const PARK_MAX := 4096

  type Bag = multiset<int>

  // ---- descriptors in the hands of single closers ----

  /** Closer `pid` has `fd` to close, unless it is the overflow closer. */
  function Load(pid: int, fd: int, ovf: int): Bag {
    if pid == ovf then multiset{} else multiset{fd}
  }

  function InHands(pids: seq<int>, hands: seq<int>, ovf: int): Bag
    requires |pids| == |hands|
  {
    if pids == [] then multiset{} else
      var k := |pids| - 1;
      InHands(pids[..k], hands[..k], ovf) + Load(pids[k], hands[k], ovf)
  }

  lemma {:induction false} HandsSnoc(pids: seq<int>, hands: seq<int>, ovf: int, pid: int, fd: int)
    requires |pids| == |hands|
    ensures InHands(pids + [pid], hands + [fd], ovf) == InHands(pids, hands, ovf) + Load(pid, fd, ovf)
  {
    assert (pids + [pid])[..|pids|] == pids && (hands + [fd])[..|pids|] == hands;
  }

  /** Only which tracked pid is the overflow closer matters. */
  lemma {:induction false} HandsSame(pids: seq<int>, hands: seq<int>, a: int, b: int)
    requires |pids| == |hands| && a !in pids && b !in pids
    ensures InHands(pids, hands, a) == InHands(pids, hands, b)
    decreases |pids|
  {
    if pids != [] {
      var k := |pids| - 1;
      assert pids[k] in pids;
      HandsSame(pids[..k], hands[..k], a, b);
    }
  }

  lemma {:induction false} HandsWith(pids: seq<int>, hands: seq<int>, ovf: int, i: nat, pid: int, fd: int)
    requires |pids| == |hands| && i < |pids|
    ensures InHands(pids[i := pid], hands[i := fd], ovf) + Load(pids[i], hands[i], ovf) ==
            InHands(pids, hands, ovf) + Load(pid, fd, ovf)
    decreases |pids|
  {
    hide Load;
    var k := |pids| - 1;
    if i == k {
      assert pids[i := pid][..k] == pids[..k] && hands[i := fd][..k] == hands[..k];
      Exchange(InHands(pids[..k], hands[..k], ovf), Load(pids[i], hands[i], ovf), Load(pid, fd, ovf));
    } else {
      assert pids[i := pid][..k] == pids[..k][i := pid] && hands[i := fd][..k] == hands[..k][i := fd];
      HandsWith(pids[..k], hands[..k], ovf, i, pid, fd);
      Carry(InHands(pids[..k][i := pid], hands[..k][i := fd], ovf), InHands(pids[..k], hands[..k], ovf),
            Load(pids[i], hands[i], ovf), Load(pid, fd, ovf), Load(pids[k], hands[k], ovf));
    }
  }

  lemma {:induction false} HandsPopped(pids: seq<int>, hands: seq<int>, ovf: int, i: nat)
    requires |pids| == |hands| && i < |pids|
    ensures InHands(pids, hands, ovf) ==
            InHands(Popped(pids, i), Popped(hands, i), ovf) + Load(pids[i], hands[i], ovf)
  {
    hide Load;
    var k := |pids| - 1;
    var o, l := Load(pids[i], hands[i], ovf), Load(pids[k], hands[k], ovf);
    var ps, hs := pids[i := pids[k]], hands[i := hands[k]];
    HandsWith(pids, hands, ovf, i, pids[k], hands[k]);
    assert InHands(ps, hs, ovf) == InHands(ps[..k], hs[..k], ovf) + l;
    hide InHands;
    Exchange(InHands(ps[..k], hs[..k], ovf), o, l);
    Cancel(InHands(pids, hands, ovf), InHands(ps[..k], hs[..k], ovf) + o, l);
  }

  lemma PoppedDistinct(s: seq<int>, i: nat)
    requires Distinct(s) && i < |s|
    ensures Distinct(Popped(s, i)) && s[i] !in Popped(s, i)
    ensures forall x :: x in s && x != s[i] ==> x in Popped(s, i)
    ensures forall x :: x in Popped(s, i) ==> x in s
  {
    var rest, k := Popped(s, i), |s| - 1;
    forall x | x in s && x != s[i]
      ensures x in rest
    {
      var j :| 0 <= j < |s| && s[j] == x;
      assert rest[if j == k then i else j] == x;
    }
  }

  // ---- where everything is ----

  /** What was handed over, and what has been closed. */
  datatype Ledger = Ledger(given: Bag, closed: Bag)

  predicate Balance(inHands: Bag, parked: Bag, batch: Bag, g: Ledger) {
    g.given == inHands + parked + batch + g.closed
  }

  predicate Tracked(pids: seq<int>, ovf: int) {
    && Distinct(pids) && (forall p :: p in pids ==> p > 0)
    && (ovf != 0 ==> ovf in pids)
    && |pids| - (if ovf != 0 then 1 else 0) <= MAX_INFLIGHT
  }

  predicate Kept(pids: seq<int>, hands: seq<int>, ovf: int, parked: seq<int>, batch: seq<int>, g: Ledger) {
    && Tracked(pids, ovf) && |hands| == |pids|
    && (ovf == 0 ==> batch == [])
    && Balance(InHands(pids, hands, ovf), multiset(parked), multiset(batch), g)
  }

  lemma SpawnKept(pids: seq<int>, hands: seq<int>, ovf: int, parked: seq<int>, batch: seq<int>,
                      g: Ledger, pid: int, fd: int)
    requires Kept(pids, hands, ovf, parked, batch, g) && pid > 0 && pid !in pids
    requires |pids| - (if ovf != 0 then 1 else 0) < MAX_INFLIGHT
    ensures Kept(pids + [pid], hands + [fd], ovf, parked, batch, g.(given := g.given + multiset{fd}))
  {
    hide InHands;
    HandsSnoc(pids, hands, ovf, pid, fd);
  }

  lemma ParkKept(pids: seq<int>, hands: seq<int>, ovf: int, parked: seq<int>, batch: seq<int>,
                      g: Ledger, fd: int)
    requires Kept(pids, hands, ovf, parked, batch, g)
    ensures Kept(pids, hands, ovf, parked + [fd], batch, g.(given := g.given + multiset{fd}))
  {
    hide InHands;
    hide Tracked;
    assert multiset(parked + [fd]) == multiset(parked) + multiset{fd};
  }

  lemma InlineKept(pids: seq<int>, hands: seq<int>, ovf: int, parked: seq<int>, batch: seq<int>,
                      g: Ledger, fd: int)
    requires Kept(pids, hands, ovf, parked, batch, g)
    ensures Kept(pids, hands, ovf, parked, batch, Ledger(g.given + multiset{fd}, g.closed + multiset{fd}))
  {
    hide InHands;
    hide Tracked;
  }

  lemma HandsMatch(pids: seq<int>, hands: seq<int>, ovf: int, parked: seq<int>, batch: seq<int>,
                      g: Ledger)
    requires Kept(pids, hands, ovf, parked, batch, g)
    ensures |hands| == |pids|
  {
  }

  lemma NoBatch(pids: seq<int>, hands: seq<int>, parked: seq<int>, batch: seq<int>, g: Ledger)
    requires Kept(pids, hands, 0, parked, batch, g)
    ensures batch == [] && |pids| <= MAX_INFLIGHT
  {
  }

  lemma TrackedOvf(pids: seq<int>, pid: int)
    requires Tracked(pids, 0) && pid > 0 && pid !in pids
    ensures Tracked(pids + [pid], pid) && 0 !in pids
  {
  }

  lemma FlushKept(pids: seq<int>, hands: seq<int>, parked: seq<int>, g: Ledger, pid: int)
    requires Kept(pids, hands, 0, parked, [], g) && pid > 0 && pid !in pids
    ensures Kept(pids + [pid], hands + [0], pid, [], parked, g)
  {
    hide Tracked;
    hide InHands;
    TrackedOvf(pids, pid);
    HandsSnoc(pids, hands, pid, pid, 0);
    HandsSame(pids, hands, 0, pid);
    assert InHands(pids + [pid], hands + [0], pid) == InHands(pids, hands, 0);
  }

  lemma TrackedPopped(pids: seq<int>, ovf: int, i: nat)
    requires Tracked(pids, ovf) && i < |pids|
    ensures Tracked(Popped(pids, i), if pids[i] == ovf then 0 else ovf)
    ensures ovf == 0 ==> pids[i] != ovf
    ensures 0 !in Popped(pids, i) && pids[i] !in Popped(pids, i)
  {
    PoppedDistinct(pids, i);
  }

  lemma CloseOne(h: Bag, p: Bag, b: Bag, g: Ledger, one: Bag)
    requires Balance(h + one, p, b, g)
    ensures Balance(h, p, b, g.(closed := g.closed + one))
  {
  }

  lemma CloseBatch(h: Bag, p: Bag, b: Bag, g: Ledger)
    requires Balance(h, p, b, g)
    ensures Balance(h, p, multiset([]), g.(closed := g.closed + b))
  {
  }

  /** A single closer that exited has closed its descriptor. */
  lemma ReapOne(pids: seq<int>, hands: seq<int>, ovf: int, parked: seq<int>, batch: seq<int>,
                      g: Ledger, i: nat)
    requires Kept(pids, hands, ovf, parked, batch, g) && i < |pids| && pids[i] != ovf
    ensures Kept(Popped(pids, i), Popped(hands, i), ovf, parked, batch, g.(closed := g.closed + multiset{hands[i]}))
  {
    hide Tracked;
    hide InHands;
    hide Balance;
    HandsPopped(pids, hands, ovf, i);
    TrackedPopped(pids, ovf, i);
    CloseOne(InHands(Popped(pids, i), Popped(hands, i), ovf), multiset(parked), multiset(batch), g, multiset{hands[i]});
  }

  /** The overflow closer that exited has closed its whole batch. */
  lemma ReapBatch(pids: seq<int>, hands: seq<int>, ovf: int, parked: seq<int>, batch: seq<int>,
                      g: Ledger, i: nat)
    requires Kept(pids, hands, ovf, parked, batch, g) && i < |pids| && pids[i] == ovf
    ensures Kept(Popped(pids, i), Popped(hands, i), 0, parked, [], g.(closed := g.closed + multiset(batch)))
  {
    hide Tracked;
    hide InHands;
    hide Balance;
    HandsPopped(pids, hands, ovf, i);
    TrackedPopped(pids, ovf, i);
    HandsSame(Popped(pids, i), Popped(hands, i), ovf, 0);
    var h := InHands(Popped(pids, i), Popped(hands, i), 0);
    assert h + multiset{} == h;
    CloseBatch(h, multiset(parked), multiset(batch), g);
  }

  // ---- the park list never fills up ----

  /** Distinct descriptors below the process's limit. */
  predicate Open(fds: seq<int>) {
    Distinct(fds) && forall x :: x in fds ==> 0 <= x < PARK_MAX
  }

  lemma {:induction false} Pigeonhole(fds: seq<int>, limit: nat)
    requires Distinct(fds) && forall x :: x in fds ==> 0 <= x < limit
    ensures |fds| <= limit
    decreases limit
  {
    assert fds != [] ==> fds[0] in fds && 0 <= fds[0] < limit;
    if limit == 0 {
    } else if limit - 1 in fds {
      var i :| 0 <= i < |fds| && fds[i] == limit - 1;
      PoppedDistinct(fds, i);
      Pigeonhole(Popped(fds, i), limit - 1);
    } else {
      Pigeonhole(fds, limit - 1);
    }
  }

  /** A number below the limit that no parked descriptor has. A parked one is
      still open, so the kernel gives no new descriptor its number. */
  predicate Fresh(parked: seq<int>, fd: int) {
    0 <= fd < PARK_MAX && fd !in parked
  }

  lemma OpenMore(parked: seq<int>, fd: int)
    requires Open(parked) && Fresh(parked, fd)
    ensures Open(parked + [fd]) && |parked| < PARK_MAX
  {
    RoomToPark(parked, fd);
  }

  /** A message of distinct such descriptors. */
  predicate FreshMessage(parked: seq<int>, fds: seq<int>) {
    Distinct(fds) && forall x :: x in fds ==> Fresh(parked, x)
  }

  /** Whatever of the message was parked so far, the next descriptor is fresh. */
  lemma NextIsFresh(parked: seq<int>, now: seq<int>, fds: seq<int>, i: nat)
    requires FreshMessage(parked, fds) && i < |fds|
    requires forall x :: x in now ==> x in parked || x in fds[..i]
    ensures Fresh(now, fds[i])
  {
    assert fds[i] in fds && fds[i] !in fds[..i];
  }

  /** One more open descriptor always finds room. */
  lemma RoomToPark(parked: seq<int>, fd: int)
    requires Open(parked + [fd])
    ensures |parked| < PARK_MAX
  {
    Pigeonhole(parked + [fd], PARK_MAX);
  }

  // ---- the closers ----

  datatype Place = OwnCloser | ParkList | InlineNoRoom | InlineNoCloser

  /** The descriptors of a message that had to be closed inline. */
  function Inline(fds: seq<int>, places: seq<Place>): Bag
    requires |fds| == |places|
  {
    if fds == [] then multiset{} else
      var k := |fds| - 1;
      Inline(fds[..k], places[..k]) +
      (if places[k] in {OwnCloser, ParkList} then multiset{} else multiset{fds[k]})
  }

  lemma {:induction false} InlineSnoc(fds: seq<int>, places: seq<Place>, fd: int, place: Place)
    requires |fds| == |places|
    ensures Inline(fds + [fd], places + [place]) ==
            Inline(fds, places) + (if place in {OwnCloser, ParkList} then multiset{} else multiset{fd})
  {
    assert (fds + [fd])[..|fds|] == fds && (places + [place])[..|fds|] == places;
  }

  class Closers {
    const pids: array<int>
    const parked: array<int>
    const batch: array<int>
    var n: nat
    var ovf: int
    var nparked: nat
    var nbatch: nat

    ghost var hands: seq<int>
    ghost var g: Ledger

    /** So far every descriptor handed over was a fresh one below the limit. */
    ghost var honest: bool

    ghost predicate Valid()
      reads this, pids, parked, batch
    {
      && pids.Length == MAX_INFLIGHT + 1 && parked.Length == batch.Length == PARK_MAX
      && pids != parked && pids != batch && parked != batch
      && n <= pids.Length && nparked <= parked.Length && nbatch <= batch.Length
      && Kept(pids[..n], hands, ovf, parked[..nparked], batch[..nbatch], g)
      && (honest ==> Open(parked[..nparked]))
    }

    constructor ()
      ensures Valid() && fresh(pids) && fresh(parked) && fresh(batch)
      ensures n == 0 && nparked == 0 && g == Ledger(multiset{}, multiset{}) && honest
    {
      pids, parked, batch := new int[MAX_INFLIGHT + 1], new int[PARK_MAX], new int[PARK_MAX];
      n, ovf, nparked, nbatch := 0, 0, 0, 0;
      hands, g, honest := [], Ledger(multiset{}, multiset{}), true;
    }

    /** Closers with one descriptor each. */
    function PerFd(): int
      reads this
    {
      n - if ovf != 0 then 1 else 0
    }

    /** Hands over one descriptor. `pid` is what the clone returns: a child not
        tracked yet, or a negative number. */
    method Spawn(fd: int, pid: int) returns (where: Place)
      requires Valid() && pid != 0 && (pid > 0 ==> pid !in pids[..n])
      modifies this, pids, parked
      ensures Valid() && batch[..] == old(batch[..]) && nbatch == old(nbatch) && ovf == old(ovf)
      ensures where == if old(PerFd()) >= MAX_INFLIGHT
                       then (if old(nparked) < PARK_MAX then ParkList else InlineNoRoom)
                       else (if pid > 0 then OwnCloser else InlineNoCloser)
      ensures parked[..nparked] == old(parked[..nparked]) + if where == ParkList then [fd] else []
      ensures pids[..n] == old(pids[..n]) + if where == OwnCloser then [pid] else []
      ensures hands == old(hands) + if where == OwnCloser then [fd] else []
      ensures g == Ledger(old(g).given + multiset{fd},
                          old(g).closed + if where in {OwnCloser, ParkList} then multiset{} else multiset{fd})
      ensures honest == (old(honest) && Fresh(old(parked[..nparked]), fd))
      ensures honest ==> where != InlineNoRoom
    {
      hide Kept;
      ghost var ps, pk, bt := pids[..n], parked[..nparked], batch[..nbatch];
      honest := honest && Fresh(pk, fd);
      if honest {
        OpenMore(pk, fd);
      }
      hide Open;
      hide Fresh;
      if PerFd() >= MAX_INFLIGHT {
        if nparked < PARK_MAX {
          ParkKept(ps, hands, ovf, pk, bt, g, fd);
          parked[nparked] := fd;
          nparked := nparked + 1;
          g := g.(given := g.given + multiset{fd});
          assert parked[..nparked] == pk + [fd];
          return ParkList;
        }
        InlineKept(ps, hands, ovf, pk, bt, g, fd);
        g := Ledger(g.given + multiset{fd}, g.closed + multiset{fd});
        return InlineNoRoom;
      }
      if pid < 0 {
        InlineKept(ps, hands, ovf, pk, bt, g, fd);
        g := Ledger(g.given + multiset{fd}, g.closed + multiset{fd});
        return InlineNoCloser;
      }
      SpawnKept(ps, hands, ovf, pk, bt, g, pid, fd);
      Track(pid, fd);
      g := g.(given := g.given + multiset{fd});
      return OwnCloser;
    }

    /** Remembers one more closer. */
    method Track(pid: int, ghost fd: int)
      requires n < pids.Length
      modifies this`n, this`hands, pids
      ensures n == old(n) + 1 && pids[..n] == old(pids[..n]) + [pid] && hands == old(hands) + [fd]
    {
      pids[n] := pid;
      n := n + 1;
      hands := hands + [fd];
    }

    /** Gives the whole park list to an overflow closer, if there is none yet. */
    method Flush(pid: int)
      requires Valid() && pid != 0 && (pid > 0 ==> pid !in pids[..n])
      modifies this, pids, batch
      ensures Valid() && g == old(g) && parked[..] == old(parked[..]) && honest == old(honest)
      ensures var took := old(ovf) == 0 && old(nparked) > 0 && pid > 0;
              && (took ==> ovf == pid && nparked == 0 && batch[..nbatch] == old(parked[..nparked]) &&
                           pids[..n] == old(pids[..n]) + [pid])
              && (!took ==> ovf == old(ovf) && nparked == old(nparked) && n == old(n) && pids[..] == old(pids[..]))
    {
      if ovf != 0 || nparked == 0 { return; }
      if pid < 0 { return; }
      TakeBatch(pid);
    }

    /** The copied batch is the overflow closer's own list of work. */
    method CopyParked()
      requires parked.Length == batch.Length && parked != batch && nparked <= parked.Length
      modifies this`nbatch, batch
      ensures nbatch == nparked && batch[..nbatch] == old(parked[..nparked])
    {
      forall i | 0 <= i < nparked {
        batch[i] := parked[i];
      }
      nbatch := nparked;
    }

    method TakeBatch(pid: int)
      requires Valid() && pid > 0 && pid !in pids[..n] && ovf == 0 && nparked > 0
      modifies this, pids, batch
      ensures Valid() && honest == old(honest) && g == old(g)
      ensures ovf == pid && nparked == 0 && batch[..nbatch] == old(parked[..nparked])
      ensures pids[..n] == old(pids[..n]) + [pid]
    {
      hide Kept;
      ghost var ps, pk, hs := pids[..n], parked[..nparked], hands;
      NoBatch(ps, hs, pk, batch[..nbatch], g);
      FlushKept(ps, hs, pk, g, pid);
      ovf := pid;
      Track(pid, 0);
      CopyParked();
      nparked := 0;
      assert parked[..0] == [];
    }

    /** Forgets the closer at a place of the table. */
    method Untrack(i: nat)
      requires i < n <= pids.Length && |hands| == n
      modifies this`n, this`ovf, this`hands, pids
      ensures n == old(n) - 1 && pids[..n] == Popped(old(pids[..n]), i) && hands == Popped(old(hands), i)
      ensures ovf == if old(pids[i]) == old(ovf) then 0 else old(ovf)
    {
      if pids[i] == ovf { ovf := 0; }
      n := n - 1;
      pids[i] := pids[n];
      hands := Popped(hands, i);
    }

    /** A child was reaped; false if it was no closer. `next` is the pid of the
        overflow closer that may then be started: the reaped one's may be used
        again. */
    method Reaped(pid: int, next: int) returns (mine: bool, ghost at: nat)
      requires Valid() && next != 0 && (next > 0 ==> next == pid || next !in pids[..n])
      modifies this, pids, batch
      ensures Valid() && (mine <==> pid in old(pids[..n])) && g.given == old(g.given) && honest == old(honest)
      ensures parked[..] == old(parked[..])
      ensures !mine ==> g == old(g) && pids[..n] == old(pids[..n]) && nparked == old(nparked) && ovf == old(ovf)
      ensures mine ==> at < |old(hands)| == old(n) && old(pids[..n])[at] == pid
      ensures var took := (old(ovf) == 0 || pid == old(ovf)) && old(nparked) > 0 && next > 0;
              && (mine && took ==> ovf == next && nparked == 0 && batch[..nbatch] == old(parked[..nparked]) &&
                                   pids[..n] == Popped(old(pids[..n]), at) + [next])
              && (mine && !took ==> ovf == (if pid == old(ovf) then 0 else old(ovf)) && nparked == old(nparked) &&
                                    pids[..n] == Popped(old(pids[..n]), at))
      ensures mine && pid == old(ovf) ==> g.closed == old(g.closed) + multiset(old(batch[..nbatch]))
      ensures mine && pid != old(ovf) ==> g.closed == old(g.closed) + multiset{old(hands)[at]}
    {
      hide Kept;
      assert |hands| == n by { HandsMatch(pids[..n], hands, ovf, parked[..nparked], batch[..nbatch], g); }
      for i := 0 to n
        invariant n == old(n) && pids[..] == old(pids[..]) && Valid() && g == old(g) && hands == old(hands)
        invariant ovf == old(ovf) && nbatch == old(nbatch) && batch[..] == old(batch[..])
        invariant nparked == old(nparked) && honest == old(honest) && parked[..] == old(parked[..])
        invariant forall j :: 0 <= j < i ==> pids[j] != pid
      {
        if pids[i] == pid {
          ReapAt(i);
          Flush(next);
          return true, i;
        }
      }
      return false, 0;
    }

    method ReapAt(i: nat)
      requires Valid() && i < n
      modifies this, pids
      ensures Valid() && honest == old(honest)
      ensures pids[..n] == Popped(old(pids[..n]), i) && parked[..] == old(parked[..]) && nparked == old(nparked)
      ensures ovf == if old(pids[i]) == old(ovf) then 0 else old(ovf)
      ensures forall p :: p in pids[..n] ==> p in old(pids[..n]) && p != old(pids[i])
      ensures g == old(g).(closed := old(g).closed +
                if old(pids[i]) == old(ovf) then multiset(old(batch[..nbatch])) else multiset{old(hands)[i]})
    {
      hide InHands;
      hide Tracked;
      hide Balance;
      ghost var ps, pk, bt := pids[..n], parked[..nparked], batch[..nbatch];
      assert ps[i] == pids[i] && |hands| == n;
      ReapedOut(ps, ovf, i);
      var isOvf := pids[i] == ovf;
      if isOvf {
        ReapBatch(ps, hands, ovf, pk, bt, g, i);
        g := g.(closed := g.closed + multiset(bt));
        nbatch := 0;
      } else {
        ReapOne(ps, hands, ovf, pk, bt, g, i);
        g := g.(closed := g.closed + multiset{hands[i]});
      }
      Untrack(i);
      assert parked[..nparked] == pk;
      assert batch[..nbatch] == if isOvf then [] else bt;
    }

    /** Hands over a message's descriptors, then lets an overflow closer take
        what had to be parked. Fresh descriptors are never closed for want of
        room. */
    method CloseDetached(fds: seq<int>, clones: seq<int>) returns (places: seq<Place>)
      requires Valid() && |clones| == |fds| + 1
      requires forall i :: 0 <= i < |clones| ==> clones[i] != 0 && (clones[i] > 0 ==> clones[i] !in pids[..n])
      requires forall i, j :: 0 <= i < j < |clones| && clones[i] > 0 ==> clones[i] != clones[j]
      modifies this, pids, parked, batch
      ensures Valid() && g.given == old(g.given) + multiset(fds)
      ensures |places| == |fds| && g.closed == old(g.closed) + Inline(fds, places)
      ensures old(honest) && FreshMessage(old(parked[..nparked]), fds) ==> honest && InlineNoRoom !in places
    {
      hide Kept;
      hide Open;
      hide Fresh;
      hide FreshMessage;
      hide Inline;
      places := [];
      ghost var pk := parked[..nparked];
      ghost var good := honest && FreshMessage(pk, fds);
      assert fds[..0] == [] && Inline([], []) == multiset{} by { NothingInline(); }
      for i := 0 to |fds|
        invariant Valid() && g.given == old(g.given) + multiset(fds[..i]) && |places| == i
        invariant g.closed == old(g.closed) + Inline(fds[..i], places)
        invariant forall k :: i <= k < |clones| && clones[k] > 0 ==> clones[k] !in pids[..n]
        invariant forall x :: x in parked[..nparked] ==> x in pk || x in fds[..i]
        invariant good ==> honest && InlineNoRoom !in places
      {
        assert fds[..i + 1] == fds[..i] + [fds[i]];
        if good {
          NextIsFresh(pk, parked[..nparked], fds, i);
        }
        var where := Spawn(fds[i], clones[i]);
        InlineSnoc(fds[..i], places, fds[i], where);
        places := places + [where];
      }
      assert fds[..|fds|] == fds;
      Flush(clones[|fds|]);
    }
  }

  lemma ReapedOut(pids: seq<int>, ovf: int, i: nat)
    requires Tracked(pids, ovf) && i < |pids|
    ensures forall p :: p in Popped(pids, i) ==> p in pids && p != pids[i]
  {
    PoppedDistinct(pids, i);
  }

  lemma NothingInline()
    ensures Inline([], []) == multiset{}
  {
  }
}

/**
 The descriptor store: an array that is filled at the end and compacted in place
 when a service's entries are taken out. Taking and sweeping keep the other
 entries in order and hand over exactly the descriptors that left.
 */
module FdStore {
  import opened Common

  const MAX_TOTAL := 4096
  const HEADROOM := 256
  const NAME_SIZE := 64

  datatype Entry = Entry(svc: string, name: string, fd: int)

  predicate NameChar(c: char) {
    'A' <= c <= 'Z' || 'a' <= c <= 'z' || '0' <= c <= '9' || c == '_' || c == '.' || c == '-'
  }

  predicate ValidName(name: string) {
    1 <= |name| < NAME_SIZE && forall i :: 0 <= i < |name| ==> NameChar(name[i])
  }

  /** Entries a removal is about: a service's, of one name or of any. */
  predicate Picks(e: Entry, svc: string, name: Option<string>) {
    e.svc == svc && (name.None? || e.name == name.value)
  }

  function Kept(es: seq<Entry>, svc: string, name: Option<string>): seq<Entry> {
    if es == [] then [] else
      var e := es[|es| - 1];
      Kept(es[..|es| - 1], svc, name) + (if Picks(e, svc, name) then [] else [e])
  }

  function Gone(es: seq<Entry>, svc: string, name: Option<string>): seq<int> {
    if es == [] then [] else
      var e := es[|es| - 1];
      Gone(es[..|es| - 1], svc, name) + (if Picks(e, svc, name) then [e.fd] else [])
  }

  function Fds(es: seq<Entry>): multiset<int> {
    if es == [] then multiset{} else Fds(es[..|es| - 1]) + multiset{es[|es| - 1].fd}
  }

  function Count(es: seq<Entry>, svc: string): nat {
    if es == [] then 0 else Count(es[..|es| - 1], svc) + (if es[|es| - 1].svc == svc then 1 else 0)
  }

  lemma {:induction false} TakeStep(es: seq<Entry>, i: nat, svc: string, name: Option<string>)
    requires i < |es|
    ensures Kept(es[..i + 1], svc, name) == Kept(es[..i], svc, name) + (if Picks(es[i], svc, name) then [] else [es[i]])
    ensures Gone(es[..i + 1], svc, name) == Gone(es[..i], svc, name) + (if Picks(es[i], svc, name) then [es[i].fd] else [])
    ensures Kept(es[..i], svc, name) + [] == Kept(es[..i], svc, name)
    ensures Gone(es[..i], svc, name) + [] == Gone(es[..i], svc, name)
  {
    assert es[..i + 1][..i] == es[..i];
  }

  lemma {:induction false} TakeEnds(es: seq<Entry>, svc: string, name: Option<string>)
    ensures Kept(es[..0], svc, name) == [] && Gone(es[..0], svc, name) == []
    ensures es[..|es|] == es
  {
  }

  lemma {:induction false} FdsSnoc(es: seq<Entry>, e: Entry)
    ensures Fds(es + [e]) == Fds(es) + multiset{e.fd}
  {
    assert (es + [e])[..|es|] == es;
  }

  lemma BagsLeft(a: multiset<int>, b: multiset<int>, c: multiset<int>)
    ensures (a + b) + c == (a + c) + b && (a + b) + c == a + (b + c)
  {
  }

  lemma BagOf(s: seq<int>, x: int)
    ensures multiset(s + [x]) == multiset(s) + multiset{x}
  {
  }

  /** Nothing is lost and nothing is handed over twice. */
  lemma {:induction false} TakeConserves(es: seq<Entry>, svc: string, name: Option<string>)
    ensures Fds(es) == Fds(Kept(es, svc, name)) + multiset(Gone(es, svc, name))
  {
    if es != [] {
      var k := |es| - 1;
      assert es == es[..k] + [es[k]] && es[..|es|] == es;
      TakeConserves(es[..k], svc, name);
      TakeStep(es, k, svc, name);
      FdsSnoc(es[..k], es[k]);
      hide *;
      var a, b := Kept(es[..k], svc, name), Gone(es[..k], svc, name);
      BagsLeft(Fds(a), multiset(b), multiset{es[k].fd});
      if Picks(es[k], svc, name) {
        BagOf(b, es[k].fd);
      } else {
        FdsSnoc(a, es[k]);
      }
    }
  }

  lemma {:induction false} KeptShorter(es: seq<Entry>, svc: string, name: Option<string>)
    ensures |Kept(es, svc, name)| + |Gone(es, svc, name)| == |es|
    ensures (exists i :: 0 <= i < |es| && Picks(es[i], svc, name)) ==> |Kept(es, svc, name)| < |es|
  {
    if es != [] {
      KeptShorter(es[..|es| - 1], svc, name);
    }
  }

  // ---- sweeping ----

  /** Entries of the services that stay, in order. */
  function Stay(es: seq<Entry>, keep: set<string>): seq<Entry> {
    if es == [] then [] else
      var e := es[|es| - 1];
      Stay(es[..|es| - 1], keep) + (if e.svc in keep then [e] else [])
  }

  /** Dropping a service that does not stay changes nothing about the rest. */
  lemma {:induction false} StayAfterDrop(es: seq<Entry>, keep: set<string>, svc: string)
    requires svc !in keep
    ensures Stay(Kept(es, svc, None), keep) == Stay(es, keep)
  {
    if es != [] {
      var k := |es| - 1;
      StayAfterDrop(es[..k], keep, svc);
      var a := Kept(es[..k], svc, None);
      if es[k].svc != svc {
        StaySnoc(a, es[k], keep);
      } else {
        assert a + [] == a && Stay(es[..k], keep) + [] == Stay(es[..k], keep);
      }
    }
  }

  lemma {:induction false} StaySnoc(es: seq<Entry>, e: Entry, keep: set<string>)
    ensures Stay(es + [e], keep) == Stay(es, keep) + (if e.svc in keep then [e] else [])
  {
    assert (es + [e])[..|es|] == es;
  }

  predicate AllStay(es: seq<Entry>, keep: set<string>) {
    forall i :: 0 <= i < |es| ==> es[i].svc in keep
  }

  lemma {:induction false} StayAll(es: seq<Entry>, keep: set<string>)
    requires AllStay(es, keep)
    ensures Stay(es, keep) == es
  {
    if es != [] {
      var k := |es| - 1;
      hide Stay;
      StayAll(es[..k], keep);
      StaySnoc(es[..k], es[k], keep);
      assert es == es[..k] + [es[k]];
    }
  }

  /** Entries that stay are not touched by a drop in front of others. */
  lemma {:induction false} KeptPrefix(es: seq<Entry>, i: nat, keep: set<string>, svc: string)
    requires i <= |es| && AllStay(es[..i], keep) && svc !in keep
    ensures es[..i] <= Kept(es, svc, None)
  {
    if i == |es| {
      assert es[..i] == es;
      KeptNone(es, keep, svc);
    } else {
      assert es[..|es| - 1][..i] == es[..i];
      KeptPrefix(es[..|es| - 1], i, keep, svc);
    }
  }

  lemma {:induction false} KeptNone(es: seq<Entry>, keep: set<string>, svc: string)
    requires AllStay(es, keep) && svc !in keep
    ensures Kept(es, svc, None) == es
  {
    if es != [] {
      var k := |es| - 1;
      assert es[k].svc in keep;
      TakeStep(es, k, svc, None);
      hide Kept;
      KeptNone(es[..k], keep, svc);
      assert es[..k + 1] == es == es[..k] + [es[k]];
    }
  }

  class Store {
    var v: array<Entry>
    var n: nat

    ghost predicate Valid()
      reads this
    {
      n <= v.Length && n <= MAX_TOTAL
    }

    constructor ()
      ensures Valid() && n == 0 && fresh(v)
    {
      v := new Entry[0];
      n := 0;
    }

    method CountOf(svc: string) returns (c: nat)
      requires Valid()
      ensures c == Count(v[..n], svc)
    {
      c := 0;
      for i := 0 to n
        invariant c == Count(v[..i], svc)
      {
        assert v[..i + 1][..i] == v[..i];
        if v[i].svc == svc { c := c + 1; }
      }
    }

    /** Stores a descriptor for a service, under its limits. `limit` is the
        process's soft limit, if it has one. */
    method Add(svc: string, fd: int, name: string, max: int, limit: Option<int>) returns (ok: bool)
      requires Valid()
      modifies this, v
      ensures Valid() && (v == old(v) || fresh(v))
      ensures ok <==>
                && max > 0 && (limit.None? || fd + HEADROOM < limit.value) && |svc| < NAME_SIZE
                && (name == "" || ValidName(name)) && old(n) < MAX_TOTAL && Count(old(v[..n]), svc) < max
      ensures v[..n] == old(v[..n]) + if ok then [Entry(svc, if name == "" then "stored" else name, fd)] else []
    {
      var nm := if name == "" then "stored" else name;
      var count := CountOf(svc);
      if max <= 0 || !(limit.None? || fd + HEADROOM < limit.value) || |svc| >= NAME_SIZE || !ValidName(nm)
         || n >= MAX_TOTAL || count >= max {
        return false;
      }
      if n == v.Length {
        var nv := new Entry[if v.Length > 0 then v.Length * 2 else 16](_ => Entry("", "", 0));
        forall i | 0 <= i < n {
          nv[i] := v[i];
        }
        v := nv;
      }
      v[n] := Entry(svc, nm, fd);
      n := n + 1;
      return true;
    }

    /** Takes out a service's entries and compacts the rest over them. */
    method Take(svc: string, name: Option<string>) returns (gone: seq<int>)
      requires Valid()
      modifies this`n, v
      ensures Valid() && v[..n] == Kept(old(v[..n]), svc, name) && gone == Gone(old(v[..n]), svc, name)
    {
      ghost var es := v[..n];
      gone := [];
      var w := 0;
      TakeEnds(es, svc, name);
      hide Kept;
      hide Gone;
      for i := 0 to n
        invariant w <= i <= n == |es| <= v.Length && forall j :: i <= j < n ==> v[j] == es[j]
        invariant v[..w] == Kept(es[..i], svc, name) && gone == Gone(es[..i], svc, name)
      {
        TakeStep(es, i, svc, name);
        if Picks(v[i], svc, name) {
          gone := gone + [v[i].fd];
        } else {
          v[w] := v[i];
          w := w + 1;
          assert v[..w] == v[..w - 1] + [es[i]];
        }
      }
      n := w;
    }

    /** Drops the service at a position, in front of which all stay. */
    method DropAt(i: nat, keep: set<string>) returns (gone: seq<int>)
      requires Valid() && i < n && AllStay(v[..i], keep) && v[i].svc !in keep
      modifies this`n, v
      ensures Valid() && i <= n < old(n) && AllStay(v[..i], keep)
      ensures Stay(v[..n], keep) == Stay(old(v[..n]), keep)
      ensures Fds(old(v[..n])) == Fds(v[..n]) + multiset(gone)
    {
      hide Fds;
      hide Stay;
      ghost var now := v[..n];
      var svc := v[i].svc;
      assert now[..i] == v[..i] && Picks(now[i], svc, None);
      StayAfterDrop(now, keep, svc);
      TakeConserves(now, svc, None);
      KeptShorter(now, svc, None);
      KeptPrefix(now, i, keep, svc);
      hide Kept;
      gone := Take(svc, None);
      assert v[..i] == v[..n][..i] == now[..i];
    }

    /** Drops every service that does not stay. The array is compacted under
        the scan, so a position is looked at again after a drop. */
    method Sweep(keep: set<string>) returns (gone: seq<int>)
      requires Valid()
      modifies this`n, v
      ensures Valid() && v[..n] == Stay(old(v[..n]), keep)
      ensures Fds(old(v[..n])) == Fds(v[..n]) + multiset(gone)
    {
      hide Fds;
      hide Stay;
      gone := [];
      ghost var es := v[..n];
      var i := 0;
      while i < n
        invariant Valid() && i <= n && AllStay(v[..i], keep)
        invariant Stay(v[..n], keep) == Stay(es, keep)
        invariant Fds(es) == Fds(v[..n]) + multiset(gone)
        decreases n, n - i
      {
        var svc := v[i].svc;
        if svc in keep {
          assert v[..i + 1] == v[..i] + [v[i]];
          i := i + 1;
          continue;
        }
        ghost var now := v[..n];
        var more := DropAt(i, keep);
        BagsLeft(Fds(v[..n]), multiset(more), multiset(gone));
        assert multiset(gone + more) == multiset(gone) + multiset(more);
        gone := gone + more;
      }
      assert v[..i] == v[..n];
      StayAll(v[..n], keep);
    }
  }
}

/**
 Unique connection names: ":1." and a 32-bit counter. No name is given twice
 until the counter has gone all the way round.
 */
module UniqueNames {
  import opened Common
  import opened Decimal

  datatype Unique = Unique(conn: int, name: string)

  /** The counter after `k` names, starting at 1. */
  function CounterAt(k: nat): nat {
    (1 + k) % TWO32
  }

  function NameAt(k: nat): string {
    ":1." + NatText(CounterAt(k))
  }

  /** All names given so far, in order. */
  function Given(k: nat): (r: seq<string>)
    ensures |r| == k
  {
    if k == 0 then [] else Given(k - 1) + [NameAt(k - 1)]
  }

  lemma {:induction false} GivenAt(k: nat, i: nat)
    requires i < k
    ensures Given(k)[i] == NameAt(i)
  {
    if i < k - 1 {
      GivenAt(k - 1, i);
    }
  }

  lemma NameTellsCounter(i: nat, j: nat)
    ensures NameAt(i) == NameAt(j) <==> CounterAt(i) == CounterAt(j)
  {
    if NameAt(i) == NameAt(j) {
      assert NameAt(i)[3..] == NatText(CounterAt(i)) && NameAt(j)[3..] == NatText(CounterAt(j));
      NatOfText(CounterAt(i));
      NatOfText(CounterAt(j));
    }
  }

  lemma CounterRepeats(i: nat, j: nat)
    requires i < j
    ensures CounterAt(i) == CounterAt(j) ==> j - i >= TWO32
    ensures j == i + TWO32 ==> CounterAt(i) == CounterAt(j)
  {
    var a, b := 1 + i, 1 + j;
    assert a == a / TWO32 * TWO32 + a % TWO32 && b == b / TWO32 * TWO32 + b % TWO32;
    if a % TWO32 == b % TWO32 {
      assert b - a == (b / TWO32 - a / TWO32) * TWO32;
      assert b / TWO32 - a / TWO32 >= 1;
    }
  }

  /** The names given are all different if and only if there are at most 2^32. */
  lemma {:induction false} NeverTwice(k: nat)
    ensures Distinct(Given(k)) <==> k <= TWO32
  {
    hide Given;
    hide NameAt;
    if k <= TWO32 {
      forall i, j | 0 <= i < j < k
        ensures Given(k)[i] != Given(k)[j]
      {
        GivenAt(k, i);
        GivenAt(k, j);
        NameTellsCounter(i, j);
        CounterRepeats(i, j);
      }
    } else {
      GivenAt(k, 0);
      GivenAt(k, TWO32);
      NameTellsCounter(0, TWO32);
      CounterRepeats(0, TWO32);
      assert Given(k)[0] == Given(k)[TWO32];
    }
  }

  // ---- the table ----

  /** Every name in the table was given to its connection, at its own turn. */
  predicate Issued(us: seq<Unique>, turns: seq<nat>, owners: seq<int>) {
    && |turns| == |us|
    && (forall i :: 0 <= i < |us| ==> turns[i] < |owners| && us[i] == Unique(owners[turns[i]], NameAt(turns[i])))
    && (forall i, j :: 0 <= i < j < |us| ==> turns[i] != turns[j])
  }

  lemma IssuedPopped(us: seq<Unique>, turns: seq<nat>, owners: seq<int>, i: nat)
    requires Issued(us, turns, owners) && i < |us|
    ensures Issued(Popped(us, i), Popped(turns, i), owners)
  {
    hide NameAt;
    var us', turns', n := Popped(us, i), Popped(turns, i), |us| - 1;
    forall p | 0 <= p < n
      ensures us'[p] == us[if p == i then n else p] && turns'[p] == turns[if p == i then n else p]
    {
    }
  }

  lemma IssuedMore(us: seq<Unique>, turns: seq<nat>, owners: seq<int>, conn: int)
    requires Issued(us, turns, owners)
    ensures Issued(us + [Unique(conn, NameAt(|owners|))], turns + [|owners|], owners + [conn])
  {
    hide NameAt;
  }

  lemma SameCounter(a: nat, b: nat)
    ensures CounterAt(a) == CounterAt(b) <==> (a - b) % TWO32 == 0
  {
  }

  /** Two live connections have the same name exactly when a multiple of 2^32
      names lies between them; with at most 2^32 names given, never. */
  lemma LiveDistinct(us: seq<Unique>, turns: seq<nat>, owners: seq<int>, i: nat, j: nat)
    requires Issued(us, turns, owners) && i < j < |us|
    ensures us[i].name == us[j].name <==> (turns[i] - turns[j]) % TWO32 == 0
    ensures |owners| <= TWO32 ==> us[i].name != us[j].name
  {
    hide NameAt;
    var a, b := turns[i], turns[j];
    NameTellsCounter(a, b);
    SameCounter(a, b);
    CounterRepeats(if a < b then a else b, if a < b then b else a);
  }

  class Table {
    var uniques: seq<Unique>
    var next: nat
    ghost var turns: seq<nat>
    ghost var owners: seq<int>

    ghost predicate Valid()
      reads this
    {
      Issued(uniques, turns, owners) && next == CounterAt(|owners|)
    }

    constructor ()
      ensures Valid() && uniques == [] && owners == []
    {
      uniques, next, turns, owners := [], 1, [], [];
    }

    /** Names a new connection. */
    method Alloc(conn: int) returns (name: string)
      requires Valid()
      modifies this
      ensures Valid() && owners == old(owners) + [conn] && name == NameAt(|old(owners)|)
      ensures uniques == old(uniques) + [Unique(conn, name)]
    {
      IssuedMore(uniques, turns, owners, conn);
      name := ":1." + NatText(next);
      next := (next + 1) % TWO32;
      uniques := uniques + [Unique(conn, name)];
      turns, owners := turns + [|owners|], owners + [conn];
      assert CounterAt(|owners|) == (CounterAt(|owners| - 1) + 1) % TWO32;
    }

    /** Forgets a connection's name: the last one takes its place. */
    method Forget(conn: int) returns (ghost at: nat)
      requires Valid()
      modifies this
      ensures Valid() && owners == old(owners) && next == old(next)
      ensures at <= |old(uniques)| && forall i :: 0 <= i < at ==> old(uniques)[i].conn != conn
      ensures at == |old(uniques)| ==> uniques == old(uniques)
      ensures at < |old(uniques)| ==> old(uniques)[at].conn == conn && uniques == Popped(old(uniques), at)
    {
      for i := 0 to |uniques|
        invariant uniques == old(uniques) && turns == old(turns) && owners == old(owners) && next == old(next)
        invariant forall j :: 0 <= j < i ==> uniques[j].conn != conn
      {
        if uniques[i].conn == conn {
          IssuedPopped(uniques, turns, owners, i);
          uniques, turns := Popped(uniques, i), Popped(turns, i);
          return i;
        }
      }
      at := |uniques|;
    }
  }
}

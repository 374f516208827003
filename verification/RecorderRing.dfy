/**
 The recorder's ring of the last 128 events. `head` counts pushes in 32 bits
 and wraps; the slot of a push is its count modulo the ring size.
 */
module RecorderRing {
  import opened Common

  const REC_RING := 128

  /** The newest `n` events of a history. */
  function Newest<T>(history: seq<T>, n: nat): seq<T> {
    if |history| <= n then history else history[|history| - n..]
  }

  /** The counter wraps on a multiple of the ring size, so slots do not jump. */
  lemma SlotSurvivesWrap(k: int)
    ensures (k % TWO32) % REC_RING == k % REC_RING
  {
    var q, r := k / TWO32, k % TWO32;
    assert k == TWO32 * q + r;
    assert TWO32 * q == REC_RING * (33554432 * q);
    ModAdd(33554432 * q, r);
  }

  lemma ModAdd(a: int, r: int)
    ensures (REC_RING * a + r) % REC_RING == r % REC_RING
  {
  }

  lemma SlotsDiffer(j: int, k: int)
    requires 0 < k - j < REC_RING
    ensures j % REC_RING != k % REC_RING
  {
  }

  class Ring<T> {
    const ring: array<T>
    var head: nat
    var count: nat
    ghost var history: seq<T>

    ghost predicate Valid()
      reads this, ring
    {
      && ring.Length == REC_RING
      && head == |history| % TWO32
      && count == (if |history| < REC_RING then |history| else REC_RING)
      && forall k :: |history| - count <= k < |history| ==> ring[k % REC_RING] == history[k]
    }

    constructor (blank: T)
      ensures Valid() && fresh(ring) && history == []
    {
      ring := new T[REC_RING](_ => blank);
      head, count, history := 0, 0, [];
    }

    method Push(e: T)
      requires Valid()
      modifies this, ring
      ensures Valid() && history == old(history) + [e]
    {
      SlotSurvivesWrap(|history|);
      forall k | |history| - REC_RING < k < |history|
        ensures k % REC_RING != |history| % REC_RING
      {
        SlotsDiffer(k, |history|);
      }
      ring[head % REC_RING] := e;
      history := history + [e];
      head := (head + 1) % TWO32;
      if count < REC_RING {
        count := count + 1;
      }
    }

    /** The events oldest first, indexed with 32-bit arithmetic from `head - count`. */
    method Read() returns (out: seq<T>)
      requires Valid()
      ensures out == Newest(history, REC_RING)
    {
      var base := (head - count) % TWO32;
      out := [];
      for i := 0 to count
        invariant |out| == i
        invariant forall j :: 0 <= j < i ==> out[j] == history[|history| - count + j]
      {
        BaseSlot(|history|, count, i);
        out := out + [ring[((base + i) % TWO32) % REC_RING]];
      }
      assert |Newest(history, REC_RING)| == count;
    }
  }

  lemma BaseSlot(n: int, count: int, i: int)
    ensures (((n % TWO32 - count) % TWO32 + i) % TWO32) % REC_RING == (n - count + i) % REC_RING
  {
    SlotSurvivesWrap((n % TWO32 - count) % TWO32 + i);
    SlotSum((n % TWO32 - count) % TWO32, n % TWO32 - count, i);
    SlotSurvivesWrap(n % TWO32 - count);
    SlotSum(n % TWO32, n, -count + i);
    SlotSurvivesWrap(n);
  }

  lemma SlotSum(a: int, b: int, i: int)
    requires a % REC_RING == b % REC_RING
    ensures (a + i) % REC_RING == (b + i) % REC_RING
  {
  }
}

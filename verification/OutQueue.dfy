/**
 A connection's outbound queue: messages wait in an array whose front is
 consumed by partial sends, compacted when its dead front is at least half and
 doubled otherwise. What has been sent plus what waits is always exactly what
 was accepted, in order, and passed descriptors leave with the first byte of
 their message.
 */
module OutQueue {
  import opened Common

  type Byte = b: int | 0 <= b < 256

  const MAX_FDS := 16
  const MAX_OUTGOING_BYTES := 16 * 1024 * 1024

  /** Size of one queued chunk's own record on a 64-bit machine. */
  const CHUNK_BYTES := 88

  datatype Message = Message(b: seq<Byte>, fds: seq<int>)

  datatype Chunk = Chunk(b: seq<Byte>, off: nat, fds: seq<int>)

  // ---- streams ----

  function Stream(msgs: seq<Message>): seq<Byte> {
    if msgs == [] then [] else Stream(msgs[..|msgs| - 1]) + msgs[|msgs| - 1].b
  }

  function Unsent(live: seq<Chunk>): seq<Byte>
    requires forall c :: c in live ==> c.off <= |c.b|
  {
    if live == [] then [] else live[0].b[live[0].off..] + Unsent(live[1..])
  }

  /** Unsent bytes plus one record per waiting chunk. */
  function Backlog(live: seq<Chunk>): int {
    if live == [] then 0 else |live[0].b| - live[0].off + CHUNK_BYTES + Backlog(live[1..])
  }

  /** Descriptors passed so far: stream position of the byte they went with. */
  datatype Passed = Passed(at: nat, fds: seq<int>)

  /** What the first messages of a stream must have passed: each message's
      descriptors once, at the position of its first byte. */
  function Marks(msgs: seq<Message>): seq<Passed> {
    if msgs == [] then [] else
      var m := msgs[|msgs| - 1];
      Marks(msgs[..|msgs| - 1]) +
      (if m.fds == [] then [] else [Passed(|Stream(msgs[..|msgs| - 1])|, m.fds)])
  }

  lemma {:induction false} StreamSnoc(msgs: seq<Message>, m: Message)
    ensures Stream(msgs + [m]) == Stream(msgs) + m.b
    ensures Marks(msgs + [m]) == Marks(msgs) + (if m.fds == [] then [] else [Passed(|Stream(msgs)|, m.fds)])
  {
    assert (msgs + [m])[..|msgs|] == msgs;
  }

  lemma {:induction false} BacklogSnoc(live: seq<Chunk>, c: Chunk)
    ensures Backlog(live + [c]) == Backlog(live) + |c.b| - c.off + CHUNK_BYTES
  {
    if live == [] {
      assert live + [c] == [c];
    } else {
      assert (live + [c])[1..] == live[1..] + [c];
      BacklogSnoc(live[1..], c);
    }
  }

  lemma {:induction false} BacklogBound(live: seq<Chunk>)
    requires forall c :: c in live ==> c.off <= |c.b|
    ensures Backlog(live) >= CHUNK_BYTES * |live|
  {
    if live != [] {
      assert live[0] in live;
      BacklogBound(live[1..]);
    }
  }

  // ---- the relation between the queue and what was accepted ----

  /** The live chunks are the messages from `done` on; only the first may be
      partly sent, and then its descriptors are gone. */
  predicate Waiting(live: seq<Chunk>, msgs: seq<Message>, done: nat) {
    && done + |live| == |msgs|
    && (forall j :: 0 <= j < |live| ==> live[j].b == msgs[done + j].b && live[j].off <= |live[j].b|)
    && (forall j :: 0 <= j < |live| ==> live[j].off == 0 || (j == 0 && live[j].off < |live[j].b|))
    && (forall j :: 0 <= j < |live| ==> live[j].fds == if live[j].off == 0 then msgs[done + j].fds else [])
  }

  /** Bytes of the message being sent that are already out. */
  function Partial(live: seq<Chunk>): seq<Byte>
    requires live != [] ==> live[0].off <= |live[0].b|
  {
    if live == [] then [] else live[0].b[..live[0].off]
  }

  /** How many messages have at least begun to go out. */
  function Begun(live: seq<Chunk>, done: nat): nat {
    if live != [] && live[0].off > 0 then done + 1 else done
  }

  /** What has happened so far: messages accepted, how many of them are wholly
      sent, the bytes on the wire, and the descriptors passed. */
  datatype Ledger = Ledger(msgs: seq<Message>, done: nat, sent: seq<Byte>, passed: seq<Passed>)

  predicate Conserved(live: seq<Chunk>, g: Ledger) {
    && Waiting(live, g.msgs, g.done)
    && g.sent == Stream(g.msgs[..g.done]) + Partial(live)
    && g.passed == Marks(g.msgs[..Begun(live, g.done)])
  }

  /** Sent plus waiting is everything accepted. */
  lemma {:induction false} SentPlusWaiting(live: seq<Chunk>, g: Ledger)
    requires Conserved(live, g)
    ensures (forall c :: c in live ==> c.off <= |c.b|) && g.sent + Unsent(live) == Stream(g.msgs)
  {
    if live == [] {
      assert g.msgs[..g.done] == g.msgs;
    } else {
      RestOfStream(live, g.msgs, g.done);
      Regroup(Stream(g.msgs[..g.done]), live[0].b, live[0].off, Unsent(live[1..]));
    }
  }

  lemma Regroup(head: seq<Byte>, b: seq<Byte>, off: nat, tail: seq<Byte>)
    requires off <= |b|
    ensures (head + b[..off]) + (b[off..] + tail) == head + (b + tail)
  {
  }


  lemma WaitingRest(live: seq<Chunk>, msgs: seq<Message>, done: nat)
    requires Waiting(live, msgs, done) && live != []
    ensures Waiting(live[1..], msgs, done + 1)
    ensures live[1..] != [] ==> live[1..][0].off == 0
  {
    var rest := live[1..];
    forall j | 0 <= j < |rest|
      ensures rest[j] == live[j + 1] && rest[j].off == 0 && rest[j].b == msgs[done + 1 + j].b
      ensures rest[j].fds == msgs[done + 1 + j].fds
    {
    }
  }

  lemma {:induction false} RestOfStream(live: seq<Chunk>, msgs: seq<Message>, done: nat)
    requires Waiting(live, msgs, done) && live != []
    ensures forall c :: c in live[1..] ==> c.off <= |c.b|
    ensures Stream(msgs[..done]) + (live[0].b + Unsent(live[1..])) == Stream(msgs)
    decreases |live|
  {
    var rest := live[1..];
    WaitingRest(live, msgs, done);
    assert msgs[..done + 1] == msgs[..done] + [msgs[done]];
    StreamSnoc(msgs[..done], msgs[done]);
    Regrouped(Stream(msgs[..done]), live[0].b, Unsent(rest));
    if rest == [] {
      assert msgs[..done + 1] == msgs;
      assert Stream(msgs) + [] == Stream(msgs);
    } else {
      RestOfStream(rest, msgs, done + 1);
      hide Waiting;
      hide Stream;
      assert Unsent(rest) == rest[0].b[0..] + Unsent(rest[1..]);
      assert rest[0].b[0..] == rest[0].b;
    }
  }

  // ---- one accepted message, one successful send ----

  lemma Accepting(live: seq<Chunk>, g: Ledger, m: Message)
    requires Conserved(live, g)
    ensures Conserved(live + [Chunk(m.b, 0, m.fds)], g.(msgs := g.msgs + [m]))
  {
    var live', msgs', done := live + [Chunk(m.b, 0, m.fds)], g.msgs + [m], g.done;
    assert msgs'[..done] == g.msgs[..done];
    assert Begun(live, done) <= |g.msgs| && msgs'[..Begun(live, done)] == g.msgs[..Begun(live, done)];
    if live == [] {
      assert m.b[..0] == [];
    } else {
      assert live'[0] == live[0];
    }
  }

  function NowPassed(c: Chunk, g: Ledger): seq<Passed> {
    if c.fds == [] then g.passed else g.passed + [Passed(|g.sent|, c.fds)]
  }

  /** The ledger after `k` bytes of the front chunk have gone out. */
  function AfterSend(c: Chunk, g: Ledger, k: nat): Ledger
    requires c.off + k <= |c.b|
  {
    g.(done := if c.off + k == |c.b| then g.done + 1 else g.done,
       sent := g.sent + c.b[c.off..c.off + k], passed := NowPassed(c, g))
  }

  function LiveAfter(live: seq<Chunk>, k: nat): seq<Chunk>
    requires live != []
  {
    var c := live[0];
    if c.off + k == |c.b| then live[1..] else [Chunk(c.b, c.off + k, [])] + live[1..]
  }

  /** Descriptors go with the first byte and are then accounted for. */
  lemma PassedOnce(live: seq<Chunk>, g: Ledger)
    requires Conserved(live, g) && live != []
    ensures NowPassed(live[0], g) == Marks(g.msgs[..g.done + 1])
  {
    var c, msgs, done := live[0], g.msgs, g.done;
    assert msgs[..done + 1] == msgs[..done] + [msgs[done]];
    StreamSnoc(msgs[..done], msgs[done]);
    if c.off == 0 {
      assert c.b[..0] == [] && g.sent == Stream(msgs[..done]);
      assert g.passed + [] == g.passed;
    }
  }

  lemma WaitingPart(live: seq<Chunk>, msgs: seq<Message>, done: nat, off: nat)
    requires Waiting(live, msgs, done) && live != [] && 0 < off < |live[0].b|
    ensures Waiting([Chunk(live[0].b, off, [])] + live[1..], msgs, done)
  {
    var live' := [Chunk(live[0].b, off, [])] + live[1..];
    assert forall j :: 1 <= j < |live'| ==> live'[j] == live[j];
  }

  lemma FrontOk(live: seq<Chunk>, g: Ledger)
    requires Conserved(live, g) && live != []
    ensures g.done < |g.msgs| && live[0].b == g.msgs[g.done].b && live[0].off <= |live[0].b|
    ensures live[0].off > 0 ==> live[0].off < |live[0].b|
  {
  }

  /** Sending from `off` to `to` extends what was sent to `to` bytes. */
  lemma Extend(head: seq<Byte>, b: seq<Byte>, off: nat, to: nat)
    requires off <= to <= |b|
    ensures (head + b[..off]) + b[off..to] == head + b[..to]
  {
  }

  lemma FoldRest(live: seq<Chunk>, g: Ledger)
    requires Waiting(live, g.msgs, g.done) && (live != [] ==> live[0].off == 0)
    requires g.done <= |g.msgs| && g.sent == Stream(g.msgs[..g.done])
    requires g.passed == Marks(g.msgs[..g.done])
    ensures Conserved(live, g)
  {
    hide Waiting;
    hide Stream;
    hide Marks;
    assert Partial(live) == [];
  }

  lemma SendingRest(live: seq<Chunk>, g: Ledger)
    requires Conserved(live, g) && live != [] && live[0].off <= |live[0].b|
    ensures Conserved(live[1..], AfterSend(live[0], g, |live[0].b| - live[0].off))
  {
    hide *;
    var c, msgs, done := live[0], g.msgs, g.done;
    Unfold(live, g);
    FrontOk(live, g);
    PassedOnce(live, g);
    WaitingOf(live, g);
    WaitingRest(live, msgs, done);
    Extend(Stream(msgs[..done]), c.b, c.off, |c.b|);
    assert msgs[..done + 1] == msgs[..done] + [msgs[done]];
    StreamSnoc(msgs[..done], msgs[done]);
    assert c.b[..|c.b|] == c.b;
    RestSent(c, g);
    FoldRest(live[1..], AfterSend(c, g, |c.b| - c.off));
  }

  lemma RestSent(c: Chunk, g: Ledger)
    requires c.off <= |c.b|
    ensures AfterSend(c, g, |c.b| - c.off) ==
            Ledger(g.msgs, g.done + 1, g.sent + c.b[c.off..|c.b|], NowPassed(c, g))
  {
  }

  lemma Unfold(live: seq<Chunk>, g: Ledger)
    requires Conserved(live, g) && live != [] && live[0].off <= |live[0].b|
    ensures g.done < |g.msgs|
    ensures g.sent == Stream(g.msgs[..g.done]) + live[0].b[..live[0].off]
  {
  }

  lemma FoldPart(live: seq<Chunk>, g: Ledger)
    requires Waiting(live, g.msgs, g.done) && live != [] && 0 < live[0].off <= |live[0].b|
    requires g.done < |g.msgs| && g.sent == Stream(g.msgs[..g.done]) + live[0].b[..live[0].off]
    requires g.passed == Marks(g.msgs[..g.done + 1])
    ensures Conserved(live, g)
  {
    hide Waiting;
    hide Stream;
    hide Marks;
  }

  lemma SendingPart(live: seq<Chunk>, g: Ledger, k: nat)
    requires Conserved(live, g) && live != []
    requires 0 < k < |live[0].b| - live[0].off
    ensures Conserved([Chunk(live[0].b, live[0].off + k, [])] + live[1..], AfterSend(live[0], g, k))
  {
    hide *;
    var c, msgs, done := live[0], g.msgs, g.done;
    Unfold(live, g);
    PassedOnce(live, g);
    assert Waiting([Chunk(c.b, c.off + k, [])] + live[1..], msgs, done) by {
      assert Waiting(live, msgs, done) by { WaitingOf(live, g); }
      WaitingPart(live, msgs, done, c.off + k);
    }
    Extend(Stream(msgs[..done]), c.b, c.off, c.off + k);
    PartSent(c, g, k);
    FoldPart([Chunk(c.b, c.off + k, [])] + live[1..], AfterSend(c, g, k));
  }

  lemma WaitingOf(live: seq<Chunk>, g: Ledger)
    requires Conserved(live, g)
    ensures Waiting(live, g.msgs, g.done)
  {
  }

  lemma PartSent(c: Chunk, g: Ledger, k: nat)
    requires c.off + k < |c.b|
    ensures AfterSend(c, g, k) == Ledger(g.msgs, g.done, g.sent + c.b[c.off..c.off + k], NowPassed(c, g))
  {
  }

  /** A successful send keeps the ledger, and takes its bytes off the backlog. */
  lemma {:induction false} Sending(live: seq<Chunk>, g: Ledger, k: nat)
    requires Conserved(live, g) && live != [] && k <= |live[0].b| - live[0].off
    requires live[0].off < |live[0].b| ==> k > 0
    ensures Conserved(LiveAfter(live, k), AfterSend(live[0], g, k))
    ensures Backlog(LiveAfter(live, k)) ==
            Backlog(live) - k - (if live[0].off + k == |live[0].b| then CHUNK_BYTES else 0)
  {
    hide Conserved;
    if live[0].off + k == |live[0].b| {
      SendingRest(live, g);
    } else {
      SendingPart(live, g, k);
      assert LiveAfter(live, k)[1..] == live[1..];
    }
  }

  // ---- the queue ----

  datatype Outcome = Again | Broken | Took(n: nat)

  /** What a send takes of the bytes it is offered. A stream socket that takes
      anything takes at least one byte. */
  function Amount(o: Outcome, left: nat): (k: nat)
    requires o.Took?
    ensures k <= left && (left > 0 ==> k > 0)
  {
    if o.n > left then left else if o.n == 0 && left > 0 then 1 else o.n
  }

  /** The account after a flush that meets these send results. */
  function Flushed(live: seq<Chunk>, g: Ledger, kernel: seq<Outcome>): Ledger
    decreases |kernel|
  {
    if live == [] || kernel == [] || !kernel[0].Took? || live[0].off > |live[0].b| then g else
      var c := live[0];
      var k := Amount(kernel[0], |c.b| - c.off);
      var next := AfterSend(c, g, k);
      if c.off + k == |c.b| then Flushed(live[1..], next, kernel[1..]) else next
  }

  class Queue {
    var oq: array<Chunk>
    var n: nat
    var head: nat
    var bytes: int
    var over: bool

    ghost var g: Ledger
    ghost var mostLive: nat

    ghost predicate Shape()
      reads this
    {
      head <= n <= oq.Length
    }

    ghost function Live(): seq<Chunk>
      reads this, oq
      requires Shape()
    {
      oq[head..n]
    }

    ghost predicate Valid()
      reads this, oq
    {
      && Shape()
      && Conserved(Live(), g)
      && bytes == Backlog(Live()) <= MAX_OUTGOING_BYTES
      && n - head <= mostLive
      && (oq.Length <= 16 || oq.Length <= 4 * mostLive)
    }

    constructor ()
      ensures Valid() && fresh(oq) && !over && g == Ledger([], 0, [], [])
    {
      oq := new Chunk[0];
      n, head, bytes, over := 0, 0, 0, false;
      g, mostLive := Ledger([], 0, [], []), 0;
      new;
      assert Live() == [];
      assert Conserved([], g) by {
        assert g.msgs[..0] == [] && Partial([]) == [];
      }
    }

    /** Makes room for one more chunk: compacts the dead front when it is at
        least half of the array, doubles the array otherwise. */
    method Room()
      requires Valid()
      modifies this, oq
      ensures Valid() && Live() == old(Live()) && n < oq.Length
      ensures oq == old(oq) || fresh(oq)
      ensures g == old(g) && bytes == old(bytes) && over == old(over) && mostLive == old(mostLive)
    {
      hide Conserved;
      hide Backlog;
      if n < oq.Length { return; }
      ghost var live := Live();
      if head > 0 && head * 2 >= n {
        var k := n - head;
        forall i | 0 <= i < k {
          oq[i] := oq[head + i];
        }
        n, head := k, 0;
        assert oq[0..k] == live;
      } else {
        var bigger := new Chunk[if oq.Length > 0 then oq.Length * 2 else 16](_ => Chunk([], 0, []));
        forall i | 0 <= i < n {
          bigger[i] := oq[i];
        }
        oq := bigger;
        assert oq[head..n] == live;
      }
    }

    /** Stores one chunk behind the others. */
    method Append(b: seq<Byte>, fds: seq<int>)
      requires Valid() && n < oq.Length && bytes + |b| + CHUNK_BYTES <= MAX_OUTGOING_BYTES
      modifies this, oq
      ensures Valid() && oq == old(oq) && over == old(over)
      ensures g == old(g).(msgs := old(g).msgs + [Message(b, fds)])
    {
      hide Conserved;
      hide Backlog;
      ghost var live := Live();
      Accepting(live, g, Message(b, fds));
      BacklogSnoc(live, Chunk(b, 0, fds));
      oq[n] := Chunk(b, 0, fds);
      n := n + 1;
      bytes := bytes + |b| + CHUNK_BYTES;
      g := g.(msgs := g.msgs + [Message(b, fds)]);
      mostLive := if n - head > mostLive then n - head else mostLive;
      assert Live() == live + [Chunk(b, 0, fds)];
    }

    /** Queues a copy of the message, or drops it and marks the connection when
        the backlog would pass the limit. Returns the descriptors to close. */
    method Enqueue(b: seq<Byte>, fds: seq<int>) returns (closed: seq<int>)
      requires Valid()
      modifies this, oq
      ensures Valid() && (oq == old(oq) || fresh(oq))
      ensures var kept := if |fds| > MAX_FDS then fds[..MAX_FDS] else fds;
              if old(bytes) + |b| + CHUNK_BYTES > MAX_OUTGOING_BYTES
              then over && closed == kept && g == old(g)
              else over == old(over) && closed == [] && g == old(g).(msgs := old(g).msgs + [Message(b, kept)])
    {
      var kept := if |fds| > MAX_FDS then fds[..MAX_FDS] else fds;
      if bytes + |b| + CHUNK_BYTES > MAX_OUTGOING_BYTES {
        over := true;
        return kept;
      }
      Room();
      Append(b, kept);
      return [];
    }

    /** One successful send of `k` bytes from the front chunk, at least one if
        any are left. */
    method SendFront(k: nat) returns (whole: bool)
      requires Valid() && head < n
      requires k <= |oq[head].b| - oq[head].off && (oq[head].off < |oq[head].b| ==> k > 0)
      modifies this, oq
      ensures Valid() && oq == old(oq) && over == old(over)
      ensures g == AfterSend(old(oq[head]), old(g), k)
      ensures whole <==> old(oq[head].off) + k == |old(oq[head].b)|
      ensures n == old(n) && head == if whole then old(head) + 1 else old(head)
      ensures Live() == LiveAfter(old(Live()), k)
    {
      hide Conserved;
      hide Backlog;
      var c := oq[head];
      ghost var live := Live();
      assert live[0] == c && live[1..] == oq[head + 1..n];
      Sending(live, g, k);
      whole := c.off + k >= |c.b|;
      oq[head] := Chunk(c.b, c.off + k, []);
      bytes := bytes - k;
      g := AfterSend(c, g, k);
      if whole {
        bytes := bytes - CHUNK_BYTES;
        head := head + 1;
      }
      assert Live() == LiveAfter(live, k);
    }

    /** Frees the array of a queue with nothing left to send. */
    method Reset()
      requires Valid() && head >= n
      modifies this
      ensures Valid() && over == old(over) && g == old(g) && Live() == []
      ensures n == 0 && bytes == 0 && oq.Length == 0 && g.sent == Stream(g.msgs)
    {
      hide Conserved;
      hide Backlog;
      assert Live() == [];
      AllSent(g);
      n, head, bytes := 0, 0, 0;
      oq := new Chunk[0];
      assert Live() == [];
    }

    /** Sends what the socket takes, chunk by chunk, until it would block,
        breaks, or the queue is empty. */
    method Flush(kernel: seq<Outcome>) returns (ok: bool)
      requires Valid()
      modifies this, oq
      ensures Valid() && over == old(over) && g == Flushed(old(Live()), old(g), kernel) && g.msgs == old(g.msgs)
      ensures old(g.sent) <= g.sent && old(g.passed) <= g.passed
      ensures ok && n == 0 ==> g.sent == Stream(g.msgs) && bytes == 0 && oq.Length == 0
    {
      hide Conserved;
      hide Backlog;
      hide Flushed;
      hide AfterSend;
      hide LiveAfter;
      var i := 0;
      assert kernel[0..] == kernel;
      while head < n
        invariant Valid() && oq == old(oq) && over == old(over) && g.msgs == old(g.msgs) && i <= |kernel|
        invariant old(g.sent) <= g.sent && old(g.passed) <= g.passed
        invariant Flushed(Live(), g, kernel[i..]) == Flushed(old(Live()), old(g), kernel)
        decreases |kernel| - i
      {
        ghost var live, was := Live(), g;
        assert live[0] == oq[head];
        FrontOk(live, g);
        FlushedStep(live, g, kernel, i);
        if i == |kernel| || kernel[i].Again? { return true; }
        if kernel[i].Broken? { return false; }
        var k := Amount(kernel[i], |oq[head].b| - oq[head].off);
        var whole := SendFront(k);
        SendGrows(live[0], was, k);
        if !whole { return true; }
        i := i + 1;
      }
      assert Live() == [];
      FlushedAll(g, kernel[i..]);
      Reset();
      return true;
    }
  }

  lemma {:induction false} FlushedAll(g: Ledger, kernel: seq<Outcome>)
    ensures Flushed([], g, kernel) == g
  {
  }

  /** What the next send result does to a flush. */
  lemma {:induction false} FlushedStep(live: seq<Chunk>, g: Ledger, kernel: seq<Outcome>, i: nat)
    requires live != [] && live[0].off <= |live[0].b| && i <= |kernel|
    ensures i == |kernel| || !kernel[i].Took? ==> Flushed(live, g, kernel[i..]) == g
    ensures i < |kernel| && kernel[i].Took? ==>
              var k := Amount(kernel[i], |live[0].b| - live[0].off);
              var next := AfterSend(live[0], g, k);
              Flushed(live, g, kernel[i..]) ==
              if live[0].off + k == |live[0].b| then Flushed(LiveAfter(live, k), next, kernel[i + 1..]) else next
  {
    if i < |kernel| {
      assert kernel[i..][0] == kernel[i] && kernel[i..][1..] == kernel[i + 1..];
    }
  }

  lemma SendGrows(c: Chunk, g: Ledger, k: nat)
    requires c.off + k <= |c.b|
    ensures var next := AfterSend(c, g, k); next.msgs == g.msgs && g.sent <= next.sent && g.passed <= next.passed
  {
  }

  lemma AllSent(g: Ledger)
    requires Conserved([], g)
    ensures g.sent == Stream(g.msgs) && Backlog([]) == 0
  {
    SentPlusWaiting([], g);
    assert g.sent + [] == g.sent;
  }
}

/** What the delay queue guarantees in every interleaving: statements about all runs of the
    protocol, each a consequence of its invariant. */
module DelayTheorems {
  import opened Packets
  import opened ScheduledPackets
  import opened DelayProtocol

  /** Each of the pool's slots has exactly one owner, in every state of every run. */
  lemma ExactlyOneOwner(run: seq<State>, acts: seq<Action>, i: nat, x: nat)
    requires IsRun(run, acts) && i < |run|
    ensures Claims(run[i], x) == if x < POOL_CAPACITY then 1 else 0
    ensures TotalClaims(run[i]) == POOL_CAPACITY
  {
    Safety(run, acts, i);
  }

  /** A push onto either bounded queue always finds room, so neither thread ever waits for the
      other. */
  lemma PushesNeverBlock(run: seq<State>, acts: seq<Action>, i: nat)
    requires IsRun(run, acts) && i < |run|
    ensures var s := run[i];
            && (s.producer.Written? ==> |s.handoff| < POOL_CAPACITY)
            && (s.drain.Returning? && s.batch != [] ==> |s.free| < POOL_CAPACITY)
            && (s.drain.FlushPopped? || s.drain.FlushDone? ==> |s.free| < POOL_CAPACITY)
  {
    Safety(run, acts, i);
    var s := run[i];
    if s.drain.Copied? {
      assert Claims(s, s.drain.slot) == One(s.drain.slot < POOL_CAPACITY);
      Member(s.heap, s.drain.slot);
    }
  }

  /** Push gives up only when every slot is in flight: handed off, scheduled or being sent. */
  lemma GivesUpOnlyWhenFull(run: seq<State>, acts: seq<Action>, i: nat)
    requires IsRun(run, acts) && i < |acts| && acts[i].PushExhausted?
    ensures var s := run[i];
            |Queued(s)| + |s.heap| + |s.batch| + One(DrainHand(s.drain)) == POOL_CAPACITY
  {
    Safety(run, acts, i);
    assert StepAt(run, acts, i);
  }

  /** Only the slot in the producer's hand is ever written. */
  lemma OnlyHandWritten(s: State, a: Action, t: State)
    requires Step(s, a, t)
    ensures |t.pool| == |s.pool|
    ensures forall x: nat :: x < |s.pool| && t.pool[x] != s.pool[x] ==> HasHand(s.producer) && x == s.producer.slot
  {
    if !a.WritePayload? && !a.WriteRelease? { assert t.pool == s.pool; }
  }

  lemma InFlightApart(s: State, x: nat)
    requires Own(s) && (x in s.heap || x in s.handoff || x in s.batch)
    ensures x < POOL_CAPACITY && !(HasHand(s.producer) && x == s.producer.slot)
  {
    assert Claims(s, x) == One(x < POOL_CAPACITY);
    Member(s.heap, x); Member(Queued(s), x); Member(s.batch, x);
    if s.drain.Copied? { assert s.handoff == [s.drain.slot] + Queued(s); }
  }

  /** No step changes a slot that is handed off, scheduled or in the batch being sent: the
      producer writes only to the slot in its hand, so the heap's order is never disturbed. */
  lemma InFlightSlotsStable(run: seq<State>, acts: seq<Action>, i: nat)
    requires IsRun(run, acts) && i < |acts|
    ensures |run[i].pool| == |run[i + 1].pool| == POOL_CAPACITY
    ensures forall x :: x in run[i].heap || x in run[i].handoff || x in run[i].batch ==>
                          x < POOL_CAPACITY && run[i + 1].pool[x] == run[i].pool[x]
    ensures HeapOrdered(run[i + 1].pool, run[i].heap)
  {
    var s, t := run[i], run[i + 1];
    Safety(run, acts, i);
    assert StepAt(run, acts, i);
    OnlyHandWritten(s, acts[i], t);
    forall x | x in s.heap || x in s.handoff || x in s.batch ensures x < POOL_CAPACITY && t.pool[x] == s.pool[x] {
      InFlightApart(s, x);
    }
    HeapFrame(s.pool, t.pool, s.heap);
  }

  /** What any send call was given is, packet for packet, what Push was given. */
  lemma BytesSentAreBytesPushed(run: seq<State>, acts: seq<Action>, i: nat, j: nat)
    requires IsRun(run, acts) && i < |run| && j < |run[i].wire|
    ensures j < |run[i].sent| && run[i].sent[j] < |run[i].accepted|
    ensures run[i].wire[j] == run[i].accepted[run[i].sent[j]]
    ensures forall k :: 0 <= k < |run[i].sent| && k != j ==> run[i].sent[k] != run[i].sent[j]
  {
    Safety(run, acts, i);
  }

  /** While the drain loop runs: if packet p was accepted before packet q and is due strictly
      earlier, then q is sent only after p. */
  lemma SentInDueOrder(run: seq<State>, acts: seq<Action>, i: nat, p: nat, j: nat)
    requires IsRun(run, acts) && i < |run| && j < |run[i].wire|
    requires InLoop(run[i].drain) || run[i].drain.Joined?
    requires j < |run[i].sent| && Precedes(run[i], p, run[i].sent[j])
    ensures exists h :: 0 <= h < j && run[i].sent[h] == p && run[i].wire[h] == run[i].accepted[p]
  {
    var s := run[i];
    Safety(run, acts, i);
    assert p in s.sent[..j];
    var h :| 0 <= h < j && s.sent[..j][h] == p;
    assert s.sent[h] == p;
  }

  /** The drain loop never sends a packet before its release time. */
  lemma NeverEarly(run: seq<State>, acts: seq<Action>, i: nat, j: nat)
    requires IsRun(run, acts) && i < |run| && j < |run[i].clock|
    ensures j < |run[i].sent| && run[i].sent[j] < |run[i].accepted|
    ensures run[i].accepted[run[i].sent[j]].releaseAt <= run[i].clock[j]
  {
    Safety(run, acts, i);
  }

  /** The packed batch fits the drain loop's buffers: 128 addresses and 128 * 1500 bytes. */
  lemma BatchFits(run: seq<State>, acts: seq<Action>, i: nat)
    requires IsRun(run, acts) && i < |run|
    ensures |run[i].sendBuf| <= BATCH_SIZE && |run[i].batch| <= BATCH_SIZE
    ensures |PackedAddrs(run[i].sendBuf)| <= BATCH_SIZE && |PackedBytes(run[i].sendBuf)| <= BATCH_SIZE * MTU
  {
    Safety(run, acts, i);
    PackedSize(run[i].sendBuf);
  }

  predicate InHandoffLoop(d: DrainPc) {
    d.Handoff? || d.Copied?
  }

  /** How many handoff entries acts[i..j] moves to the heap. */
  function Copies(acts: seq<Action>, i: nat, j: nat): nat
    requires i <= j <= |acts|
  {
    if i == j then 0 else Copies(acts, i, j - 1) + One(acts[j - 1].CopyToHeap?)
  }

  lemma HeapGrowth(run: seq<State>, acts: seq<Action>, k: nat)
    requires IsRun(run, acts) && k < |acts| && InHandoffLoop(run[k].drain) && InHandoffLoop(run[k + 1].drain)
    ensures |run[k + 1].heap| == |run[k].heap| + One(acts[k].CopyToHeap?)
  {
    var s, a, t := run[k], acts[k], run[k + 1];
    Safety(run, acts, k);
    assert StepAt(run, acts, k);
    if a.CopyToHeap? {
      OwnCopyToHeap(s, a.q, t);
      HeapSize(s.heap, a.q, s.handoff[0]);
    }
  }

  lemma {:induction false} HeapCounts(run: seq<State>, acts: seq<Action>, i: nat, j: nat)
    requires IsRun(run, acts) && i <= j < |run|
    requires forall k :: i <= k <= j ==> InHandoffLoop(run[k].drain)
    ensures |run[j].heap| == |run[i].heap| + Copies(acts, i, j)
    decreases j
  {
    if i < j {
      HeapCounts(run, acts, i, j - 1);
      HeapGrowth(run, acts, j - 1);
    }
  }

  /** The inner loop that empties the handoff queue iterates at most once per slot not yet in the
      heap, however often the producer pushes meanwhile: only the drain thread refills the free
      queue, and here it does not. */
  lemma HandoffLoopTerminates(run: seq<State>, acts: seq<Action>, i: nat, j: nat)
    requires IsRun(run, acts) && i <= j < |run|
    requires forall k :: i <= k <= j ==> InHandoffLoop(run[k].drain)
    ensures Copies(acts, i, j) <= POOL_CAPACITY - |run[i].heap|
  {
    HeapCounts(run, acts, i, j);
    Safety(run, acts, j);
  }

  // ----- Stop -----

  /** q lists 0..n-1, each once. */
  ghost predicate Listing(q: seq<nat>, n: nat) {
    && AllBelow(q, n)
    && (forall i, j :: 0 <= i < j < |q| ==> q[i] != q[j])
    && (forall k: nat :: k < n ==> k in q)
  }

  lemma Without(q: seq<nat>, n: nat) returns (l: seq<nat>, r: seq<nat>)
    requires n > 0 && Listing(q, n)
    ensures q == l + [n - 1] + r && Listing(l + r, n - 1)
  {
    assert n - 1 in q;
    var j :| 0 <= j < |q| && q[j] == n - 1;
    l, r := q[..j], q[j + 1..];
    assert q == l + [n - 1] + r;
    var s := l + r;
    forall i | 0 <= i < |s| ensures s[i] < n - 1 {
      Skipped(q, j, s, i);
    }
    forall i, k | 0 <= i < k < |s| ensures s[i] != s[k] {
      Skipped(q, j, s, i);
      Skipped(q, j, s, k);
    }
    forall k: nat | k < n - 1 ensures k in s {
      assert k in q;
      assert k in l || k in r;
    }
  }

  /** Leaving out entry j shifts the later ones. */
  lemma Skipped(q: seq<nat>, j: nat, s: seq<nat>, i: nat)
    requires j < |q| && s == q[..j] + q[j + 1..] && i < |s|
    ensures var k := if i < j then i else i + 1; k < |q| && k != j && s[i] == q[k]
  {
  }

  function Select<T>(items: seq<T>, q: seq<nat>): (r: seq<T>)
    requires AllBelow(q, |items|)
    ensures |r| == |q| && forall i :: 0 <= i < |q| ==> r[i] == items[q[i]]
  {
    if q == [] then [] else [items[q[0]]] + Select(items, q[1..])
  }

  lemma SelectPrefix<T>(items: seq<T>, n: nat, q: seq<nat>)
    requires n <= |items| && AllBelow(q, n)
    ensures AllBelow(q, |items|) && Select(items[..n], q) == Select(items, q)
  {
  }

  lemma SelectConcat<T>(items: seq<T>, a: seq<nat>, b: seq<nat>)
    requires AllBelow(a, |items|) && AllBelow(b, |items|)
    ensures AllBelow(a + b, |items|) && Select(items, a + b) == Select(items, a) + Select(items, b)
  {
  }

  lemma SelectWithout<T>(items: seq<T>, l: seq<nat>, x: nat, r: seq<nat>)
    requires AllBelow(l, |items|) && AllBelow(r, |items|) && x < |items|
    ensures AllBelow(l + [x] + r, |items|)
    ensures AllBelow(l + r, |items|)
    ensures multiset(Select(items, l + [x] + r)) == multiset(Select(items, l + r)) + multiset{items[x]}
  {
    SelectConcat(items, l, [x]);
    SelectConcat(items, l + [x], r);
    SelectConcat(items, l, r);
    assert Select(items, [x]) == [items[x]];
    MiddleBag(Select(items, l), items[x], Select(items, r));
  }

  lemma MiddleBag<T>(a: seq<T>, v: T, b: seq<T>)
    ensures multiset(a + [v] + b) == multiset(a + b) + multiset{v}
  {
  }

  lemma BelowParts(l: seq<nat>, r: seq<nat>, n: nat)
    requires AllBelow(l + r, n)
    ensures AllBelow(l, n) && AllBelow(r, n) && AllBelow(l, n + 1) && AllBelow(r, n + 1)
  {
    forall i | 0 <= i < |l| ensures l[i] < n { assert l[i] == (l + r)[i]; }
    forall i | 0 <= i < |r| ensures r[i] < n { assert r[i] == (l + r)[|l| + i]; }
  }

  lemma BelowSomething(q: seq<nat>, n: nat)
    requires AllBelow(q, n) && q != []
    ensures n > 0
  {
    assert q[0] < n;
  }

  lemma LastBag<T>(items: seq<T>)
    requires items != []
    ensures multiset(items) == multiset(items[..|items| - 1]) + multiset{items[|items| - 1]}
  {
    assert items == items[..|items| - 1] + [items[|items| - 1]];
  }

  /** The entries of q select every item exactly once. */
  ghost predicate SelectsAll<T>(items: seq<T>, q: seq<nat>) {
    AllBelow(q, |items|) && |q| == |items| && multiset(Select(items, q)) == multiset(items)
  }

  lemma AddItem<T>(items: seq<T>, q: seq<nat>, l: seq<nat>, r: seq<nat>)
    requires items != [] && q == l + [|items| - 1] + r && SelectsAll(items[..|items| - 1], l + r)
    ensures SelectsAll(items, q)
  {
    var n := |items| - 1;
    SelectPrefix(items, n, l + r);
    BelowParts(l, r, n);
    SelectWithout(items, l, n, r);
    LastBag(items);
  }

  /** Listing every index once lists every item once. */
  lemma {:induction false} ListingBag<T>(items: seq<T>, q: seq<nat>)
    requires Listing(q, |items|)
    ensures SelectsAll(items, q)
    decreases |items|
  {
    if items == [] {
      ListsNothing(q);
    } else {
      var l, r := Without(q, |items|);
      ListingBag(items[..|items| - 1], l + r);
      AddItem(items, q, l, r);
    }
  }

  lemma ListsNothing(q: seq<nat>)
    requires Listing(q, 0)
    ensures q == []
  {
    if q != [] { BelowSomething(q, 0); }
  }

  lemma StoppedFrees(s: State)
    requires Inv(s) && s.drain.Stopped?
    ensures |s.free| == POOL_CAPACITY
    ensures forall x: nat :: multiset(s.free)[x] == One(x < POOL_CAPACITY)
  {
    assert forall x: nat :: Claims(s, x) == multiset(s.free)[x];
  }

  /** After Stop every slot is back in the free queue. */
  lemma StopFreesEverySlot(run: seq<State>, acts: seq<Action>, i: nat)
    requires IsRun(run, acts) && i < |run| && run[i].drain.Stopped?
    ensures |run[i].free| == POOL_CAPACITY
    ensures forall x: nat :: multiset(run[i].free)[x] == One(x < POOL_CAPACITY)
  {
    Safety(run, acts, i);
    StoppedFrees(run[i]);
  }

  lemma NotCarriedSent(s: State, q: nat)
    requires Ledger(s) && q < |s.accepted| && !Carries(s, s.carrier[q])
    ensures q in s.sent
  {
  }

  lemma NothingCarried(s: State)
    requires Inv(s) && s.drain.Stopped?
    ensures Listing(s.sent, |s.accepted|)
  {
    assert forall x: nat :: !Carries(s, x);
    forall k: nat | k < |s.accepted| ensures k in s.sent { NotCarriedSent(s, k); }
  }

  lemma StoppedSent(s: State)
    requires Inv(s) && s.drain.Stopped?
    ensures Listing(s.sent, |s.accepted|)
    ensures multiset(s.wire) == multiset(s.accepted) && |s.wire| == |s.accepted|
  {
    NothingCarried(s);
    ListingBag(s.accepted, s.sent);
    assert s.wire == Select(s.accepted, s.sent);
  }

  /** After Stop every accepted packet was given exactly one send attempt, bytes intact. */
  lemma StopSendsEachOnce(run: seq<State>, acts: seq<Action>, i: nat)
    requires IsRun(run, acts) && i < |run| && run[i].drain.Stopped?
    ensures Listing(run[i].sent, |run[i].accepted|)
    ensures multiset(run[i].wire) == multiset(run[i].accepted) && |run[i].wire| == |run[i].accepted|
  {
    Safety(run, acts, i);
    StoppedSent(run[i]);
  }
}

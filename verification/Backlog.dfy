/** How a backlog of due packets drains in every interleaving: packets wait in the handoff queue,
    on the heap or in a batch not sent yet, and each pass of the drain loop sends up to 128. */
module Backlogs {
  import opened Packets
  import opened ScheduledPackets
  import opened DelayProtocol
  import opened DelayTheorems

  /** The slots whose packets wait to be sent. */
  function Waiting(s: State): seq<nat> {
    Queued(s) + (s.heap + if s.drain.Popping? then s.batch else [])
  }

  /** How many waiting packets are due at t. */
  function Backlog(s: State, t: Time): nat
    requires AllBelow(Waiting(s), |s.pool|)
  {
    ReadyCount(s.pool, Waiting(s), t)
  }

  lemma WaitingBelow(s: State)
    requires Own(s)
    ensures AllBelow(Waiting(s), |s.pool|)
    ensures AllBelow(Queued(s), |s.pool|) && AllBelow(s.heap, |s.pool|) && (s.drain.Popping? ==> AllBelow(s.batch, |s.pool|))
  {
    forall i | 0 <= i < |Waiting(s)| ensures Waiting(s)[i] < POOL_CAPACITY {
      var x := Waiting(s)[i];
      assert x in Queued(s) || x in s.heap || x in s.batch;
      assert Claims(s, x) == One(x < POOL_CAPACITY);
      Member(Queued(s), x); Member(s.heap, x); Member(s.batch, x);
    }
    BelowOfBag(|s.pool|, Waiting(s), Queued(s));
    BelowOfBag(|s.pool|, Waiting(s), s.heap);
    if s.drain.Popping? { BelowOfBag(|s.pool|, Waiting(s), s.batch); }
  }

  /** The end of a pass: what was popped is sent, or nothing was popped. */
  predicate EndsPass(a: Action) {
    a.SendBatch? || a.NothingDue?
  }

  function Passes(acts: seq<Action>, i: nat, j: nat): nat
    requires i <= j <= |acts|
  {
    if i == j then 0 else Passes(acts, i, j - 1) + One(EndsPass(acts[j - 1]))
  }

  /** While a pass pops: its instant is not before t, what it popped is due no later than what is
      left on the heap, and whatever is handed off meanwhile is due after t. */
  ghost predicate MidPass(s: State, t: Time)
    requires AllBelow(Waiting(s), |s.pool|)
  {
    s.drain.Popping? ==>
      && t <= s.drain.now
      && (forall x, y :: x in s.batch && y in s.heap ==>
            x < |s.pool| && y < |s.pool| && Release(s.pool, x) <= Release(s.pool, y))
      && (forall x :: x in Queued(s) ==> x < |s.pool| && Release(s.pool, x) > t)
  }

  /** A step that adds nothing due at t and reads no clock before t. */
  predicate Late(s: State, a: Action, t: Time) {
    && (a.PushHandOff? && s.producer.Written? ==> s.producer.pkt.releaseAt > t)
    && (a.ReadClock? ==> t <= a.now)
  }

  // ----- One step -----

  lemma {:induction false} SameReleases(pool: seq<ScheduledPacket>, pool': seq<ScheduledPacket>, q: seq<nat>, t: Time)
    requires AllBelow(q, |pool|) && |pool'| == |pool| && forall x :: x in q && x < |pool| ==> pool'[x] == pool[x]
    ensures ReadyCount(pool', q, t) == ReadyCount(pool, q, t)
  {
    if q != [] {
      assert q[0] in q;
      assert forall x :: x in q[1..] ==> x in q;
      SameReleases(pool, pool', q[1..], t);
    }
  }

  predicate Rearranges(a: Action) {
    a.CopyToHeap? || a.PopDue?
  }

  lemma WaitingKept(s: State, a: Action, s': State)
    requires Shape(s) && Step(s, a, s') && InLoop(s'.drain) && !a.PushHandOff? && !EndsPass(a) && !Rearranges(a)
    ensures Waiting(s') == Waiting(s) && Queued(s') == Queued(s) && s'.heap == s.heap
    ensures s'.drain.Popping? && s.drain.Popping? ==> s'.batch == s.batch && s'.drain == s.drain
    ensures s'.drain.Popping? && !s.drain.Popping? ==> a.ReadClock? && s'.batch == [] && Queued(s') == [] && s'.drain.now == a.now
  {
    if ByProducer(a) {
      assert s'.drain == s.drain && s'.handoff == s.handoff && s'.heap == s.heap && s'.batch == s.batch;
    } else if a.StopRequest? {
      assert s' == s.(running := false);
    } else {
      DrainWaitingKept(s, a, s');
    }
  }

  lemma DrainWaitingKept(s: State, a: Action, s': State)
    requires Shape(s) && Step(s, a, s') && InLoop(s'.drain) && !ByProducer(a) && !EndsPass(a) && !Rearranges(a) && !a.StopRequest?
    ensures !s.drain.Popping? && Queued(s') == Queued(s) && s'.heap == s.heap
    ensures s'.drain.Popping? ==> a.ReadClock? && s'.batch == [] && Queued(s') == [] && s'.drain.now == a.now
  {
    assert a.LoopEnter? || a.PopHandoff? || a.ReadClock? || a.ReturnSlot? || a.BatchReturned?;
  }

  lemma PoolKept(s: State, a: Action, s': State)
    requires Own(s) && Step(s, a, s')
    ensures |s'.pool| == |s.pool|
    ensures forall x :: x in Waiting(s) && x < |s.pool| ==> s'.pool[x] == s.pool[x]
  {
    OnlyHandWritten(s, a, s');
    forall x | x in Waiting(s) && x < |s.pool| ensures s'.pool[x] == s.pool[x] {
      if s.drain.Copied? { assert s.handoff == [s.drain.slot] + Queued(s); }
      assert x in s.heap || x in s.handoff || x in s.batch;
      InFlightApart(s, x);
    }
  }

  lemma QuietStep(s: State, a: Action, s': State, t: Time)
    requires Own(s) && Step(s, a, s') && InLoop(s'.drain) && !a.PushHandOff? && !EndsPass(a) && !Rearranges(a)
    requires AllBelow(Waiting(s), |s.pool|) && AllBelow(Waiting(s'), |s'.pool|)
    requires MidPass(s, t) && Late(s, a, t)
    ensures MidPass(s', t) && Backlog(s', t) == Backlog(s, t)
  {
    WaitingKept(s, a, s');
    PoolKept(s, a, s');
    SameReleases(s.pool, s'.pool, Waiting(s), t);
    if s'.drain.Popping? && s.drain.Popping? { MidPassFrame(s, s', t); }
  }

  lemma MidPassFrame(s: State, s': State, t: Time)
    requires AllBelow(Waiting(s), |s.pool|) && AllBelow(Waiting(s'), |s'.pool|) && MidPass(s, t)
    requires s.drain.Popping? && s'.drain == s.drain && s'.heap == s.heap && s'.batch == s.batch && Queued(s') == Queued(s)
    requires |s'.pool| == |s.pool| && forall x :: x in Waiting(s) && x < |s.pool| ==> s'.pool[x] == s.pool[x]
    ensures MidPass(s', t)
  {
    assert forall x :: x in s.batch || x in s.heap || x in Queued(s) ==> x in Waiting(s);
  }

  lemma CopyStep(s: State, q: seq<nat>, s': State, t: Time)
    requires Own(s) && Step(s, CopyToHeap(q), s')
    requires AllBelow(Waiting(s), |s.pool|) && AllBelow(Waiting(s'), |s'.pool|)
    ensures MidPass(s', t) && Backlog(s', t) == Backlog(s, t)
  {
    OwnCopyToHeap(s, q, s');
    assert s.handoff == [s.handoff[0]] + Queued(s');
    assert multiset(Waiting(s')) == multiset(Waiting(s));
    ReadyCountOfBag(s.pool, Waiting(s), Waiting(s'), t);
  }

  lemma PopBag(s: State, q: seq<nat>, s': State)
    requires Step(s, PopDue(q), s') && multiset(q) + multiset{s.heap[0]} == multiset(s.heap)
    ensures multiset(Waiting(s')) == multiset(Waiting(s))
  {
    assert Waiting(s') == Queued(s) + (q + (s.batch + [s.heap[0]]));
  }

  lemma PopOrder(s: State, q: seq<nat>, s': State, t: Time)
    requires HeapOrdered(s.pool, s.heap) && Step(s, PopDue(q), s') && multiset(q) + multiset{s.heap[0]} == multiset(s.heap)
    requires AllBelow(Waiting(s), |s.pool|) && AllBelow(Waiting(s'), |s'.pool|) && MidPass(s, t)
    ensures MidPass(s', t)
  {
    TopIsMin(s.pool, s.heap);
    Shrinks(s.heap, q, s.heap[0]);
  }

  lemma PopStep(s: State, q: seq<nat>, s': State, t: Time)
    requires Own(s) && Step(s, PopDue(q), s')
    requires AllBelow(Waiting(s), |s.pool|) && AllBelow(Waiting(s'), |s'.pool|) && MidPass(s, t)
    ensures MidPass(s', t) && Backlog(s', t) == Backlog(s, t)
  {
    OwnPopDue(s, q, s');
    PopOrder(s, q, s', t);
    PopBag(s, q, s');
    ReadyCountOfBag(s.pool, Waiting(s), Waiting(s'), t);
  }

  lemma HandOffWaiting(s: State, s': State)
    requires Shape(s) && Step(s, PushHandOff, s')
    ensures s'.pool == s.pool && s'.heap == s.heap && s'.batch == s.batch && s'.drain == s.drain
    ensures Queued(s') == Queued(s) + [s.producer.slot] && Shape(s')
    ensures s.producer.slot < |s.pool| && s.pool[s.producer.slot] == s.producer.pkt
  {
    HandOffQueues(s, s');
  }

  lemma HandOffStep(s: State, s': State, t: Time)
    requires Own(s) && Step(s, PushHandOff, s') && Late(s, PushHandOff, t)
    requires AllBelow(Waiting(s), |s.pool|) && AllBelow(Waiting(s'), |s'.pool|) && MidPass(s, t)
    ensures MidPass(s', t) && Backlog(s', t) == Backlog(s, t)
  {
    HandOffWaiting(s, s');
    OneMoreWaiting(s, s', s.producer.slot, t);
  }

  lemma OneMoreWaiting(s: State, s': State, h: nat, t: Time)
    requires AllBelow(Waiting(s), |s.pool|) && AllBelow(Waiting(s'), |s'.pool|) && MidPass(s, t)
    requires s'.pool == s.pool && s'.heap == s.heap && s'.batch == s.batch && s'.drain == s.drain && Queued(s') == Queued(s) + [h]
    requires h < |s.pool| && Release(s.pool, h) > t
    ensures MidPass(s', t) && Backlog(s', t) == Backlog(s, t)
  {
    OneLateMore(s.pool, Queued(s), h, s.heap + (if s.drain.Popping? then s.batch else []), t);
  }

  /** An entry due after t does not count. */
  lemma OneLateMore(pool: seq<ScheduledPacket>, a: seq<nat>, h: nat, b: seq<nat>, t: Time)
    requires AllBelow(a + b, |pool|) && h < |pool| && Release(pool, h) > t
    ensures AllBelow(a + [h] + b, |pool|) && ReadyCount(pool, a + [h] + b, t) == ReadyCount(pool, a + b, t)
  {
    BelowOfBag(|pool|, a + b, a);
    BelowOfBag(|pool|, a + b, b);
    ReadyCountConcat(pool, a, b, t);
    ReadyCountConcat(pool, a, [h], t);
    ReadyCountConcat(pool, a + [h], b, t);
    assert ReadyCount(pool, [h], t) == 0;
  }

  /** A pass that stops popping has a full batch, or nothing is due any more. */
  lemma StopsPopping(s: State, t: Time)
    requires Own(s) && s.drain.Popping? && !Due(s) && t <= s.drain.now
    ensures |s.batch| == BATCH_SIZE || (|s.batch| <= BATCH_SIZE && ReadyCount(s.pool, s.heap, t) == 0)
  {
    if |s.batch| < BATCH_SIZE {
      if s.heap != [] { TopIsMin(s.pool, s.heap); }
      ReadyCountExtremes(s.pool, s.heap, t);
    }
  }

  /** What is waiting in the middle of a pass, part by part. */
  lemma BacklogParts(s: State, t: Time)
    requires s.drain.Popping? && AllBelow(Waiting(s), |s.pool|)
    requires AllBelow(Queued(s), |s.pool|) && AllBelow(s.heap, |s.pool|) && AllBelow(s.batch, |s.pool|)
    requires forall x :: x in Queued(s) ==> Release(s.pool, x) > t
    ensures Backlog(s, t) == ReadyCount(s.pool, s.heap, t) + ReadyCount(s.pool, s.batch, t)
  {
    ReadyCountConcat(s.pool, s.heap, s.batch, t);
    ReadyCountConcat(s.pool, Queued(s), s.heap + s.batch, t);
    ReadyCountExtremes(s.pool, Queued(s), t);
  }

  lemma PassWaiting(s: State, a: Action, s': State)
    requires Shape(s) && Step(s, a, s') && EndsPass(a)
    ensures s.drain.Popping? && !Due(s) && !s'.drain.Popping? && s'.pool == s.pool && s'.heap == s.heap && Queued(s') == Queued(s)
  {
  }

  lemma PassStep(s: State, a: Action, s': State, t: Time)
    requires Own(s) && Step(s, a, s') && EndsPass(a)
    requires AllBelow(Waiting(s), |s.pool|) && AllBelow(Waiting(s'), |s'.pool|) && MidPass(s, t)
    ensures MidPass(s', t) && Backlog(s', t) == Max(0, Backlog(s, t) - BATCH_SIZE)
  {
    WaitingBelow(s);
    PassWaiting(s, a, s');
    BacklogParts(s, t);
    ReadyCountConcat(s.pool, Queued(s), s.heap, t);
    ReadyCountExtremes(s.pool, Queued(s), t);
    assert Waiting(s') == Queued(s) + s.heap;
    StopsPopping(s, t);
    ReadyCountMonotone(s.pool, s.batch, t, t);
    if ReadyCount(s.pool, s.heap, t) > 0 { AllDueBefore(s.pool, s.batch, s.heap, t); }
  }

  lemma BacklogStep(s: State, a: Action, s': State, t: Time)
    requires Own(s) && Own(s') && Step(s, a, s') && InLoop(s'.drain) && Late(s, a, t)
    requires AllBelow(Waiting(s), |s.pool|) && AllBelow(Waiting(s'), |s'.pool|) && MidPass(s, t)
    ensures MidPass(s', t)
    ensures Backlog(s', t) == Max(0, Backlog(s, t) - BATCH_SIZE * One(EndsPass(a)))
  {
    if EndsPass(a) { PassStep(s, a, s', t); }
    else if a.PushHandOff? { HandOffStep(s, s', t); }
    else if a.CopyToHeap? { CopyStep(s, a.q, s', t); }
    else if a.PopDue? { PopStep(s, a.q, s', t); }
    else { QuietStep(s, a, s', t); }
  }

  // ----- Whole runs -----

  ghost predicate LateAt(run: seq<State>, acts: seq<Action>, t: Time, k: nat)
    requires |run| == |acts| + 1 && k < |acts|
  {
    InLoop(run[k + 1].drain) && Late(run[k], acts[k], t)
  }

  /** Of n packets `left` are left after k passes of 128. */
  predicate LeftAfter(n: nat, k: nat, left: nat) {
    left == Max(0, n - BATCH_SIZE * k)
  }

  lemma LeftOn(n: nat, k: nat, left: nat, passEnds: bool)
    requires LeftAfter(n, k, left)
    ensures LeftAfter(n, k + One(passEnds), Max(0, left - BATCH_SIZE * One(passEnds)))
  {
  }

  ghost predicate Sound(s: State, t: Time) {
    AllBelow(Waiting(s), |s.pool|) && MidPass(s, t)
  }

  lemma Owned(run: seq<State>, acts: seq<Action>, k: nat)
    requires IsRun(run, acts) && k < |run|
    ensures Own(run[k]) && AllBelow(Waiting(run[k]), |run[k].pool|)
  {
    Safety(run, acts, k);
    WaitingBelow(run[k]);
  }

  lemma RunStep(run: seq<State>, acts: seq<Action>, k: nat, t: Time)
    requires IsRun(run, acts) && k < |acts| && LateAt(run, acts, t, k) && Sound(run[k], t)
    ensures Sound(run[k + 1], t)
    ensures Backlog(run[k + 1], t) == Max(0, Backlog(run[k], t) - BATCH_SIZE * One(EndsPass(acts[k])))
  {
    Owned(run, acts, k);
    Owned(run, acts, k + 1);
    assert StepAt(run, acts, k);
    BacklogStep(run[k], acts[k], run[k + 1], t);
  }

  lemma {:induction false} BacklogCounts(run: seq<State>, acts: seq<Action>, i: nat, j: nat, t: Time)
    requires IsRun(run, acts) && i <= j < |run| && Sound(run[i], t)
    requires forall k :: i <= k < j ==> LateAt(run, acts, t, k)
    ensures Sound(run[j], t) && LeftAfter(Backlog(run[i], t), Passes(acts, i, j), Backlog(run[j], t))
    decreases j
  {
    if i < j {
      BacklogCounts(run, acts, i, j - 1, t);
      RunStep(run, acts, j - 1, t);
      LeftOn(Backlog(run[i], t), Passes(acts, i, j - 1), Backlog(run[j - 1], t), EndsPass(acts[j - 1]));
    }
  }

  /** In every interleaving, from any point between passes: while the clock reads t or later and
      nothing due by t is added, of n waiting packets due at t there are n - 128k left after k
      passes. They are gone exactly from pass ceil(n / 128) on, whatever else is pushed. */
  lemma BacklogDrains(run: seq<State>, acts: seq<Action>, i: nat, j: nat, t: Time)
    requires IsRun(run, acts) && i <= j < |run| && !run[i].drain.Popping?
    requires forall k :: i <= k < j ==> LateAt(run, acts, t, k)
    ensures AllBelow(Waiting(run[i]), |run[i].pool|) && AllBelow(Waiting(run[j]), |run[j].pool|)
    ensures var n, k := Backlog(run[i], t), Passes(acts, i, j);
            && LeftAfter(n, k, Backlog(run[j], t))
            && (Backlog(run[j], t) == 0 <==> k >= (n + BATCH_SIZE - 1) / BATCH_SIZE)
  {
    Owned(run, acts, i);
    BacklogCounts(run, acts, i, j, t);
  }
}

/** Whether the shutdown flush keeps the order by release time. It reinjects what is handed off
    before what is scheduled, so that depends on what the two queues hold when it begins. */
module FlushOrder {
  import opened Packets
  import opened ScheduledPackets
  import opened DelayProtocol
  import opened DelayTheorems
  import opened DelayPaths
  import opened DelayQueues

  /** Whatever has left, every packet accepted before it and due strictly earlier left before it. */
  ghost predicate DueOrder(s: State) {
    forall j, p {:trigger Precedes(s, p, s.sent[j])} :: 0 <= j < |s.sent| && Precedes(s, p, s.sent[j]) ==> p in s.sent[..j]
  }

  /** No scheduled packet is due strictly before one that is handed off. */
  ghost predicate NoneOvertaken(s: State) {
    forall x, y :: x in s.heap && y in s.handoff ==> x < |s.pool| && y < |s.pool| && Release(s.pool, y) <= Release(s.pool, x)
  }

  predicate Flushing(d: DrainPc) {
    d.FlushHandoff? || d.FlushSent? || d.FlushPopped? || d.FlushHeap? || d.FlushTaken? || d.FlushDone? || d.Stopped?
  }

  /** While flushing, all that happens are the flush's own steps. */
  lemma FlushFrame(s: State, a: Action, t: State)
    requires Shape(s) && Flushing(s.drain) && Step(s, a, t)
    ensures Flushing(t.drain) && t.pool == s.pool && t.accepted == s.accepted && t.carrier == s.carrier && t.tag == s.tag
    ensures a.FlushSend? || a.FlushHeapSend? || t.sent == s.sent
    ensures !a.FlushTake? ==> t.heap == s.heap
    ensures t.handoff == s.handoff || t.handoff == PopFront(s.handoff)
    ensures t.drain.FlushTaken? && !s.drain.FlushTaken? ==> a.FlushTake?
    ensures t.drain.FlushTaken? && s.drain.FlushTaken? ==> t.drain == s.drain
  {
    assert !ByProducer(a) && !ByDrain(a);
    if s.drain.FlushHandoff? || s.drain.FlushSent? || s.drain.FlushPopped? { assert !t.drain.FlushTaken?; }
  }

  lemma SendFrame(s: State, a: Action, t: State)
    requires Shape(s) && Step(s, a, t) && (a.FlushSend? || a.FlushHeapSend?)
    ensures var x := if a.FlushSend? then s.handoff[0] else s.drain.slot;
            && x < |s.tag| && t.sent == s.sent + [s.tag[x]] && Carries(s, x)
            && t.heap == s.heap && t.handoff == s.handoff && !t.drain.FlushTaken?
    ensures if a.FlushSend? then s.drain.FlushHandoff? && s.handoff != [] else s.drain.FlushTaken? && s.handoff == []
  {
  }

  lemma TakeFrame(s: State, q: seq<nat>, t: State)
    requires HeapOrdered(s.pool, s.heap) && Step(s, FlushTake(q), t)
    ensures s.heap != [] && t.drain == FlushTaken(s.heap[0]) && t.heap == q && t.handoff == s.handoff
    ensures forall y :: y in q ==> y in s.heap && y < |s.pool|
    ensures s.heap[0] < |s.pool| && forall y :: y in s.heap ==> Release(s.pool, s.heap[0]) <= Release(s.pool, y)
  {
    TopIsMin(s.pool, s.heap);
    Shrinks(s.heap, q, s.heap[0]);
  }

  // ----- If none is overtaken, the order is kept -----

  /** Nothing still scheduled is due before anything still handed off or just taken. */
  ghost predicate Tidy(s: State) {
    && (forall x, y :: x in s.heap && y in Unread(s) ==> x < |s.pool| && y < |s.pool| && Release(s.pool, y) <= Release(s.pool, x))
    && (s.drain.FlushTaken? ==> forall x :: x in s.heap ==>
          s.drain.slot < |s.pool| && x < |s.pool| && Release(s.pool, s.drain.slot) <= Release(s.pool, x))
  }

  lemma TidyStep(s: State, a: Action, t: State)
    requires Own(s) && Flushing(s.drain) && Step(s, a, t) && Tidy(s)
    ensures Tidy(t)
  {
    FlushFrame(s, a, t);
    if a.FlushTake? {
      TakeFrame(s, a.q, t);
    } else {
      UnreadShrinks(s, a, t);
    }
  }

  lemma UnreadShrinks(s: State, a: Action, t: State)
    requires Shape(s) && Flushing(s.drain) && Step(s, a, t)
    ensures forall x :: x in Unread(t) ==> x in Unread(s)
  {
    assert !ByProducer(a) && !ByDrain(a);
    if a.FlushSend? || a.FlushPop? { assert Unread(t) == PopFront(s.handoff); } else { assert Unread(t) == Unread(s); }
  }

  /** An accepted packet that has not left is on the heap, among the newest, still handed off, or has
      just been taken off the heap. */
  lemma Holder(s: State, p: nat)
    requires Ledger(s) && Fifo(s) && p < |s.accepted|
    ensures p !in s.sent ==>
              var y := s.carrier[p];
              && y < |s.tag| && s.tag[y] == p && y < |s.pool| && s.pool[y] == s.accepted[p]
              && (y in s.heap || p >= |s.accepted| - |Unread(s)| || s.drain == FlushTaken(y))
  {
    if p !in s.sent {
      var y := s.carrier[p];
      assert Carries(s, y) && s.tag[y] == p;
      if y in Unread(s) {
        var i :| 0 <= i < |Unread(s)| && Unread(s)[i] == y;
      }
    }
  }

  /** Whatever precedes the packet being sent has been sent. */
  lemma EarlierSent(s: State, a: Action, t: State, p: nat)
    requires Shape(s) && Ledger(s) && Fifo(s) && Tidy(s) && Step(s, a, t) && (a.FlushSend? || a.FlushHeapSend?)
    requires var x := if a.FlushSend? then s.handoff[0] else s.drain.slot;
             x < |s.tag| && Precedes(s, p, s.tag[x])
    ensures p in s.sent
  {
    SendFrame(s, a, t);
    var x := if a.FlushSend? then s.handoff[0] else s.drain.slot;
    assert Carries(s, x);
    assert a.FlushSend? ==> Unread(s)[0] == x;
    Holder(s, p);
  }

  lemma DueAppend(s: State, t: State, k: nat)
    requires DueOrder(s) && t.accepted == s.accepted && t.sent == s.sent + [k]
    requires forall p: nat :: Precedes(s, p, k) ==> p in s.sent
    ensures DueOrder(t)
  {
    assert t.sent[..|s.sent|] == s.sent;
    forall j, p | 0 <= j < |t.sent| && Precedes(t, p, t.sent[j]) ensures p in t.sent[..j] {
      if j < |s.sent| { assert Precedes(s, p, s.sent[j]) && t.sent[..j] == s.sent[..j]; } else { assert Precedes(s, p, k); }
    }
  }

  lemma DueSame(s: State, t: State)
    requires DueOrder(s) && t.accepted == s.accepted && t.sent == s.sent
    ensures DueOrder(t)
  {
    forall j, p | 0 <= j < |t.sent| && Precedes(t, p, t.sent[j]) ensures p in t.sent[..j] {
      assert Precedes(s, p, s.sent[j]);
    }
  }

  lemma DueStep(s: State, a: Action, t: State)
    requires Shape(s) && Ledger(s) && Fifo(s) && Flushing(s.drain) && Step(s, a, t) && Tidy(s) && DueOrder(s)
    ensures DueOrder(t)
  {
    FlushFrame(s, a, t);
    if a.FlushSend? || a.FlushHeapSend? {
      SendFrame(s, a, t);
      var x := if a.FlushSend? then s.handoff[0] else s.drain.slot;
      forall p: nat | Precedes(s, p, s.tag[x]) ensures p in s.sent { EarlierSent(s, a, t, p); }
      DueAppend(s, t, s.tag[x]);
    } else {
      DueSame(s, t);
    }
  }

  lemma JoinedInOrder(s: State)
    requires Order(s) && s.drain.Joined?
    ensures DueOrder(s)
  {
    forall j, p | 0 <= j < |s.sent| && Precedes(s, p, s.sent[j]) ensures p in s.sent[..j] {
      assert j < |s.clock|;
    }
  }

  lemma BeginsInOrder(run: seq<State>, acts: seq<Action>, i: nat)
    requires IsRun(run, acts) && i < |acts| && acts[i].FlushBegin? && NoneOvertaken(run[i])
    ensures Flushing(run[i + 1].drain) && Tidy(run[i + 1]) && DueOrder(run[i + 1])
  {
    Safety(run, acts, i);
    assert StepAt(run, acts, i);
    JoinedInOrder(run[i]);
    DueSame(run[i], run[i + 1]);
  }

  lemma StaysInOrder(run: seq<State>, acts: seq<Action>, k: nat)
    requires IsRun(run, acts) && k < |acts| && Flushing(run[k].drain) && Tidy(run[k]) && DueOrder(run[k])
    ensures Flushing(run[k + 1].drain) && Tidy(run[k + 1]) && DueOrder(run[k + 1])
  {
    Safety(run, acts, k);
    assert StepAt(run, acts, k);
    FlushFrame(run[k], acts[k], run[k + 1]);
    TidyStep(run[k], acts[k], run[k + 1]);
    DueStep(run[k], acts[k], run[k + 1]);
  }

  lemma {:induction false} KeepsOrder(run: seq<State>, acts: seq<Action>, i: nat, j: nat)
    requires IsRun(run, acts) && i < |acts| && acts[i].FlushBegin? && i < j < |run| && NoneOvertaken(run[i])
    ensures Flushing(run[j].drain) && Tidy(run[j]) && DueOrder(run[j])
    decreases j
  {
    if j == i + 1 {
      BeginsInOrder(run, acts, i);
    } else {
      KeepsOrder(run, acts, i, j - 1);
      StaysInOrder(run, acts, j - 1);
    }
  }

  // ----- If one is overtaken, the order is lost -----

  /** Packet q has left, and p had not. */
  predicate LeftFirst(s: State, q: nat, p: nat, j: nat) {
    j < |s.sent| && s.sent[j] == q && p !in s.sent[..j]
  }

  ghost predicate WentFirst(s: State, q: nat, p: nat) {
    exists j: nat :: LeftFirst(s, q, p, j)
  }

  /** Packet p, accepted before q and due strictly earlier, will leave after q, or has. */
  ghost predicate Overtaken(s: State, p: nat, q: nat, x: nat, y: nat) {
    && Precedes(s, p, q) && q < |s.carrier| && s.carrier[p] == x && s.carrier[q] == y
    && x !in s.handoff && y !in s.heap && s.drain != FlushTaken(y)
    && (p in s.sent ==> WentFirst(s, q, p))
  }

  lemma LeftFirstKept(s: State, t: State, p: nat, q: nat)
    requires s.sent <= t.sent && WentFirst(s, q, p)
    ensures WentFirst(t, q, p)
  {
    var j: nat :| LeftFirst(s, q, p, j);
    assert t.sent[..j] == s.sent[..j];
    assert LeftFirst(t, q, p, j);
  }

  /** What is still handed off is not p. */
  lemma SendsOther(s: State, t: State, p: nat, q: nat, x: nat, y: nat)
    requires Shape(s) && Ledger(s) && Overtaken(s, p, q, x, y) && p !in s.sent && Step(s, FlushSend, t)
    ensures p !in t.sent
  {
    SendFrame(s, FlushSend, t);
    assert Carries(s, s.handoff[0]);
  }

  /** When the flush sends p off the heap, q has left already. */
  lemma LaterSent(s: State, t: State, p: nat, q: nat, x: nat, y: nat)
    requires Shape(s) && Ledger(s) && Overtaken(s, p, q, x, y) && p !in s.sent
    requires Step(s, FlushHeapSend, t) && p in t.sent
    ensures WentFirst(t, q, p)
  {
    SendFrame(s, FlushHeapSend, t);
    NotCarriedSent(s, q);
    var j :| 0 <= j < |s.sent| && s.sent[j] == q;
    assert t.sent[..j] == s.sent[..j];
    assert LeftFirst(t, q, p, j);
  }

  lemma OvertakenSent(s: State, a: Action, t: State, p: nat, q: nat, x: nat, y: nat)
    requires Shape(s) && Ledger(s) && Flushing(s.drain) && Step(s, a, t) && Overtaken(s, p, q, x, y) && p in t.sent
    ensures WentFirst(t, q, p)
  {
    FlushFrame(s, a, t);
    if a.FlushSend? || a.FlushHeapSend? { SendFrame(s, a, t); }
    if p in s.sent { LeftFirstKept(s, t, p, q); }
    else if a.FlushHeapSend? { LaterSent(s, t, p, q, x, y); }
    else if a.FlushSend? { SendsOther(s, t, p, q, x, y); }
  }

  lemma OvertakenStep(s: State, a: Action, t: State, p: nat, q: nat, x: nat, y: nat)
    requires Shape(s) && HeapOrdered(s.pool, s.heap) && Ledger(s) && Flushing(s.drain) && Step(s, a, t)
    requires Overtaken(s, p, q, x, y)
    ensures Overtaken(t, p, q, x, y)
  {
    FlushFrame(s, a, t);
    if a.FlushTake? { TakeFrame(s, a.q, t); }
    if p in t.sent { OvertakenSent(s, a, t, p, q, x, y); }
    assert Precedes(t, p, q);
  }

  /** A scheduled packet due strictly before one handed off will be overtaken by it. */
  lemma WillBeOvertaken(s: State) returns (p: nat, q: nat, x: nat, y: nat)
    requires Own(s) && Ledger(s) && Fifo(s) && s.drain.Joined? && !NoneOvertaken(s)
    ensures Overtaken(s, p, q, x, y)
  {
    TopIsMinOrEmpty(s);
    x, y :| x in s.heap && y in s.handoff && !(x < |s.pool| && y < |s.pool| && Release(s.pool, y) <= Release(s.pool, x));
    Apart(s, x);
    Apart(s, y);
    assert Carries(s, x) && Carries(s, y);
    p, q := s.tag[x], s.tag[y];
    var i :| 0 <= i < |Unread(s)| && Unread(s)[i] == y;
  }

  lemma TopIsMinOrEmpty(s: State)
    requires HeapOrdered(s.pool, s.heap)
    ensures forall x :: x in s.heap ==> x < |s.pool|
  {
    if s.heap != [] { TopIsMin(s.pool, s.heap); }
  }

  lemma Apart(s: State, x: nat)
    requires Own(s) && s.drain.Joined?
    ensures !(x in s.heap && x in s.handoff) && (x in s.heap || x in s.handoff ==> x < |s.pool|)
  {
    assert Claims(s, x) == One(x < POOL_CAPACITY);
    Member(s.heap, x);
    Member(s.handoff, x);
  }

  lemma {:induction false} StaysOvertaken(run: seq<State>, acts: seq<Action>, i: nat, j: nat, p: nat, q: nat, x: nat, y: nat)
    requires IsRun(run, acts) && i < |acts| && acts[i].FlushBegin? && i < j < |run| && Overtaken(run[i], p, q, x, y)
    ensures Flushing(run[j].drain) && Overtaken(run[j], p, q, x, y)
    decreases j
  {
    if j == i + 1 {
      assert StepAt(run, acts, i);
      BeginsOvertaken(run[i], run[j], p, q, x, y);
    } else {
      StaysOvertaken(run, acts, i, j - 1, p, q, x, y);
      StillOvertaken(run, acts, j - 1, p, q, x, y);
    }
  }

  lemma StillOvertaken(run: seq<State>, acts: seq<Action>, k: nat, p: nat, q: nat, x: nat, y: nat)
    requires IsRun(run, acts) && k < |acts| && Flushing(run[k].drain) && Overtaken(run[k], p, q, x, y)
    ensures Flushing(run[k + 1].drain) && Overtaken(run[k + 1], p, q, x, y)
  {
    Safety(run, acts, k);
    assert StepAt(run, acts, k);
    FlushFrame(run[k], acts[k], run[k + 1]);
    OvertakenStep(run[k], acts[k], run[k + 1], p, q, x, y);
  }

  lemma BeginsOvertaken(s: State, t: State, p: nat, q: nat, x: nat, y: nat)
    requires Step(s, FlushBegin, t) && Overtaken(s, p, q, x, y)
    ensures Flushing(t.drain) && Overtaken(t, p, q, x, y)
  {
    if p in s.sent { LeftFirstKept(s, t, p, q); }
    assert Precedes(t, p, q);
  }

  lemma OvertakenOutOfOrder(s: State, p: nat, q: nat, x: nat, y: nat)
    requires Overtaken(s, p, q, x, y) && p in s.sent
    ensures !DueOrder(s)
  {
    var j: nat :| LeftFirst(s, q, p, j);
    assert Precedes(s, p, s.sent[j]);
  }

  /** Over a whole run from Start to Stop, packets leave in due order if and only if, when the flush
      begins, no scheduled packet is due strictly before one that is handed off. */
  lemma FlushKeepsOrderIff(run: seq<State>, acts: seq<Action>, i: nat, j: nat)
    requires IsRun(run, acts) && i < |acts| && acts[i].FlushBegin? && i < j < |run| && run[j].drain.Stopped?
    ensures DueOrder(run[j]) <==> NoneOvertaken(run[i])
  {
    if NoneOvertaken(run[i]) {
      KeepsOrder(run, acts, i, j);
    } else {
      Safety(run, acts, i);
      assert StepAt(run, acts, i);
      var p, q, x, y := WillBeOvertaken(run[i]);
      StaysOvertaken(run, acts, i, j, p, q, x, y);
      AllSent(run, acts, j, p);
      OvertakenOutOfOrder(run[j], p, q, x, y);
    }
  }

  lemma AllSent(run: seq<State>, acts: seq<Action>, j: nat, p: nat)
    requires IsRun(run, acts) && j < |run| && run[j].drain.Stopped? && p < |run[j].accepted|
    ensures p in run[j].sent
  {
    StopSendsEachOnce(run, acts, j);
  }

  // ----- A run that loses the order -----

  /** Packet a has been pushed and scheduled, and is not due at `now`. */
  lemma ScheduleOne(s: State, a: ScheduledPacket, now: Time) returns (states: seq<State>, acts: seq<Action>, t: State)
    requires Init(s) && now < a.releaseAt
    ensures Leads(s, states, acts, t)
    ensures t.producer.Outside? && t.drain.LoopTop? && t.running && t.accepted == [a] && t.wire == []
    ensures t.handoff == [] && t.heap == [0] && |t.pool| == |t.tag| == POOL_CAPACITY && t.pool[0] == a
    ensures t.free != [] && t.free[0] == 1 && |t.free| == POOL_CAPACITY - 1
  {
    InitInv(s);
    var ps, pa := PushPath(s, a);
    var m := Pushed(s, a);
    var ds, da;
    ds, da, t := IdlePass(m, now);
    Chain(s, ps, pa, m, ds, da, t);
    states, acts := ps + ds[1..], pa + da;
  }

  /** A pass over one handed-off packet that is not due yet. */
  lemma IdlePass(m: State, now: Time) returns (states: seq<State>, acts: seq<Action>, t: State)
    requires m.drain.LoopTop? && m.running && m.batch == [] && m.sendBuf == []
    requires |m.pool| == |m.tag| == POOL_CAPACITY && |m.free| < POOL_CAPACITY
    requires m.handoff == [0] && m.heap == [] && now < Release(m.pool, 0)
    ensures Leads(m, states, acts, t) && t == m.(handoff := [], heap := [0])
  {
    var pushes, pops := [[], [0]], [[0]];
    assert PushedAt(m.pool, m.handoff, pushes, 0);
    assert ReadyCount(m.pool, [0], now) == 0;
    assert PopsReady(m.pool, [0], now, BATCH_SIZE, [], [0]);
    states, acts := PassPath(m, pushes, [], pops, now);
    t := Drained(m, [], [0], now);
    assert m.clock + Repeat(now, 0) == m.clock;
  }

  /** Packet b is pushed, the capture thread leaves, and the queue is stopped. */
  lemma StopWithOne(s: State, b: ScheduledPacket) returns (states: seq<State>, acts: seq<Action>, i: nat, t: State)
    requires Own(s) && s.producer.Outside? && s.drain.LoopTop? && s.running && s.wire == []
    requires s.handoff == [] && s.heap == [0] && |s.pool| == |s.tag| == POOL_CAPACITY
    requires s.free != [] && s.free[0] == 1 && |s.free| == POOL_CAPACITY - 1
    ensures Leads(s, states, acts, t) && i < |acts| && acts[i].FlushBegin?
    ensures t.drain.Stopped? && t.accepted == s.accepted + [b] && t.wire == [b, s.pool[0]]
  {
    var m := Pushed(s, b);
    var e := m.(producer := Exited);
    var ps, pa := PushPath(s, b);
    Alone(m, CaptureExit, e);
    Chain(s, ps, pa, m, [m, e], [CaptureExit], e);
    var hs, ha := ps + [m, e][1..], pa + [CaptureExit];
    var trail: seq<seq<nat>> := [[0], []];
    assert multiset{} + multiset{0} == multiset([0]);
    assert TrailAt(e.pool, [0], trail, 0);
    var ss, sa;
    ss, sa, t := StopPath(e, [0], trail);
    Chain(s, hs, ha, e, ss, sa, t);
    states, acts, i := hs + ss[1..], ha + sa, |ha| + 2;
    assert acts[i] == sa[2];
    assert Select(e.pool, e.handoff) == [b] && Select(e.pool, [0]) == [s.pool[0]];
  }

  /** The order is lost, for any two packets a and b of which a is due first: a is pushed and
      scheduled, b is pushed, the queue is stopped, and b leaves before a. */
  lemma OrderLostExample(s: State, a: ScheduledPacket, b: ScheduledPacket)
    returns (run: seq<State>, acts: seq<Action>, i: nat)
    requires Init(s) && a.releaseAt < b.releaseAt
    ensures IsRun(run, acts) && run[0] == s && i < |acts| && acts[i].FlushBegin? && run[|acts|].drain.Stopped?
    ensures run[|acts|].accepted == [a, b] && run[|acts|].wire == [b, a]
    ensures !DueOrder(run[|acts|]) && !NoneOvertaken(run[i])
  {
    var ss, sa, m := ScheduleOne(s, a, a.releaseAt - 1);
    Safety(ss, sa, |sa|);
    var ts, ta, k, t := StopWithOne(m, b);
    Chain(s, ss, sa, m, ts, ta, t);
    run, acts, i := ss + ts[1..], sa + ta, |sa| + k;
    assert acts[i] == ta[k];
    OutOfOrder(run, acts, a, b);
    FlushKeepsOrderIff(run, acts, i, |acts|);
  }

  lemma OutOfOrder(run: seq<State>, acts: seq<Action>, a: ScheduledPacket, b: ScheduledPacket)
    requires IsRun(run, acts) && a.releaseAt < b.releaseAt
    requires run[|acts|].accepted == [a, b] && run[|acts|].wire == [b, a]
    ensures !DueOrder(run[|acts|])
  {
    var t := run[|acts|];
    BytesSentAreBytesPushed(run, acts, |acts|, 0);
    assert t.sent[0] == 1;
    assert Precedes(t, 0, t.sent[0]);
  }
}

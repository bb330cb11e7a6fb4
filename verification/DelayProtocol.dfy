/** The delay queue as two threads that share memory without a lock.

    The capture thread runs Push, the drain thread runs DrainLoop, and the stopping thread joins
    both and runs FlushPackets. Every read or write of a shared object is one step, so every
    interleaving of the threads is a run of this system. Slots stand for pool pointers. */
module DelayProtocol {
  import opened Packets
  import opened ScheduledPackets

  /** Where the capture thread is inside Push. */
  datatype ProducerPc =
    | Outside
    | SawFront(pkt: ScheduledPacket, slot: nat)      // front() was non-null; nothing popped yet
    | Claimed(pkt: ScheduledPacket, slot: nat)       // popped from the free queue
    | HalfWritten(pkt: ScheduledPacket, slot: nat)   // payload stored, release time still stale
    | Written(pkt: ScheduledPacket, slot: nat)       // the slot holds the packet
    | Exited                                         // the capture loop has returned

  /** Where the drain thread is, and after it the thread that flushes. */
  datatype DrainPc =
    | LoopTop
    | Handoff                   // at the inner loop's front()
    | Copied(slot: nat)         // pushed on the heap, not yet popped from the handoff queue
    | Popping(now: Time)        // inside PopReady
    | Returning                 // batch sent, slots going back to the free queue
    | Joined                    // the drain loop has returned
    | FlushHandoff
    | FlushSent(slot: nat)      // reinjected, still at the front of the handoff queue
    | FlushPopped(slot: nat)    // popped, not yet in the free queue
    | FlushHeap
    | FlushTaken(slot: nat)     // popped from the heap, not yet reinjected
    | FlushDone(slot: nat)      // reinjected, not yet in the free queue
    | Stopped

  datatype State = State(
    pool: seq<ScheduledPacket>,      // memory_pool_
    free: seq<nat>,                  // free_queue_
    handoff: seq<nat>,               // handoff_queue_
    heap: seq<nat>,                  // scheduled_packets_
    batch: seq<nat>,                 // ready_packets, those not yet returned
    sendBuf: seq<ScheduledPacket>,   // send_buf and send_addrs
    producer: ProducerPc,
    drain: DrainPc,
    running: bool,
    // History. accepted[k] is the k-th packet handed over, carrier[k] the slot that carried it,
    // tag[slot] the packet a slot carried last; sent lists packets in the order they left.
    accepted: seq<ScheduledPacket>,
    carrier: seq<nat>,
    tag: seq<nat>,
    sent: seq<nat>,
    wire: seq<ScheduledPacket>,      // what the send calls were given
    clock: seq<Time>,                // clock[j]: the instant the drain loop released sent[j]
    exhausted: nat)                  // kPoolExhausted

  datatype Action =
    | PushBegin(pkt: ScheduledPacket) | PushExhausted(pkt: ScheduledPacket) | PushClaim
    | WritePayload | WriteRelease | PushHandOff | CaptureExit
    | LoopEnter | LoopExit | CopyToHeap(q: seq<nat>) | PopHandoff | ReadClock(now: Time)
    | PopDue(q: seq<nat>) | NothingDue | SendBatch | ReturnSlot | BatchReturned
    | StopRequest | FlushBegin | FlushSend | FlushPop | FlushFree | HandoffFlushed
    | FlushTake(q: seq<nat>) | FlushHeapSend | FlushHeapFree | FlushEnd

  function PopFront<T>(q: seq<T>): seq<T> {
    if q == [] then [] else q[1..]
  }

  function Store<T>(mem: seq<T>, i: nat, v: T): (r: seq<T>)
    ensures |r| == |mem|
    ensures forall j :: 0 <= j < |mem| ==> r[j] == if j == i then v else mem[j]
  {
    if i < |mem| then mem[i := v] else mem
  }

  /** The while condition of PopReady. */
  predicate Due(s: State) {
    && s.drain.Popping?
    && s.heap != [] && s.heap[0] < |s.pool|
    && Release(s.pool, s.heap[0]) <= s.drain.now
    && |s.batch| < BATCH_SIZE
  }

  /** Appends the k-th accepted packet, read from its slot, to what is being sent. */
  function Leave(s: State, slot: nat): State
    requires slot < |s.tag|
  {
    s.(sent := s.sent + [s.tag[slot]])
  }

  ghost predicate Step(s: State, a: Action, t: State) {
    match a
    // Push
    case PushBegin(p) => s.producer.Outside? && s.free != [] && t == s.(producer := SawFront(p, s.free[0]))
    case PushExhausted(p) => s.producer.Outside? && s.free == [] && t == s.(exhausted := s.exhausted + 1)
    case PushClaim =>
      && s.producer.SawFront?
      && t == s.(free := PopFront(s.free), producer := Claimed(s.producer.pkt, s.producer.slot))
    case WritePayload =>
      && s.producer.Claimed? && s.producer.slot < |s.pool|
      && t == s.(pool := Store(s.pool, s.producer.slot, s.pool[s.producer.slot].(packet := s.producer.pkt.packet)),
                 producer := HalfWritten(s.producer.pkt, s.producer.slot))
    case WriteRelease =>
      && s.producer.HalfWritten? && s.producer.slot < |s.pool|
      && t == s.(pool := Store(s.pool, s.producer.slot, s.pool[s.producer.slot].(releaseAt := s.producer.pkt.releaseAt)),
                 producer := Written(s.producer.pkt, s.producer.slot))
    case PushHandOff =>
      && s.producer.Written? && |s.handoff| < POOL_CAPACITY
      && t == s.(handoff := s.handoff + [s.producer.slot], producer := Outside,
                 accepted := s.accepted + [s.producer.pkt], carrier := s.carrier + [s.producer.slot],
                 tag := Store(s.tag, s.producer.slot, |s.accepted|))
    case CaptureExit => s.producer.Outside? && t == s.(producer := Exited)
    // DrainLoop
    case LoopEnter => s.drain.LoopTop? && s.running && t == s.(drain := Handoff)
    case LoopExit => s.drain.LoopTop? && !s.running && t == s.(drain := Joined)
    case CopyToHeap(q) =>
      && s.drain.Handoff? && s.handoff != []
      && StdPush(s.pool, s.heap, s.handoff[0], q)
      && t == s.(heap := q, drain := Copied(s.handoff[0]))
    case PopHandoff => s.drain.Copied? && t == s.(handoff := PopFront(s.handoff), drain := Handoff)
    case ReadClock(now) => s.drain.Handoff? && s.handoff == [] && t == s.(drain := Popping(now))
    case PopDue(q) =>
      && Due(s) && s.heap[0] < |s.tag|
      && StdPop(s.pool, s.heap, q)
      && t == Leave(s, s.heap[0]).(heap := q, batch := s.batch + [s.heap[0]],
                                   sendBuf := s.sendBuf + [s.pool[s.heap[0]]], clock := s.clock + [s.drain.now])
    case NothingDue => s.drain.Popping? && !Due(s) && s.batch == [] && t == s.(drain := LoopTop)
    case SendBatch =>
      && s.drain.Popping? && !Due(s) && s.batch != []
      && t == s.(wire := s.wire + s.sendBuf, sendBuf := [], drain := Returning)
    case ReturnSlot =>
      && s.drain.Returning? && s.batch != [] && |s.free| < POOL_CAPACITY
      && t == s.(free := s.free + [s.batch[0]], batch := s.batch[1..])
    case BatchReturned => s.drain.Returning? && s.batch == [] && t == s.(drain := LoopTop)
    // Stop: the capture thread is joined first, then the drain thread, then the queues are flushed
    case StopRequest => s.producer.Exited? && s.running && t == s.(running := false)
    case FlushBegin => s.drain.Joined? && !s.running && t == s.(drain := FlushHandoff)
    case FlushSend =>
      && s.drain.FlushHandoff? && s.handoff != [] && s.handoff[0] < |s.pool| && s.handoff[0] < |s.tag|
      && t == Leave(s, s.handoff[0]).(wire := s.wire + [s.pool[s.handoff[0]]], drain := FlushSent(s.handoff[0]))
    case FlushPop =>
      s.drain.FlushSent? && t == s.(handoff := PopFront(s.handoff), drain := FlushPopped(s.drain.slot))
    case FlushFree =>
      && s.drain.FlushPopped? && |s.free| < POOL_CAPACITY
      && t == s.(free := s.free + [s.drain.slot], drain := FlushHandoff)
    case HandoffFlushed => s.drain.FlushHandoff? && s.handoff == [] && t == s.(drain := FlushHeap)
    case FlushTake(q) =>
      && s.drain.FlushHeap? && s.heap != []
      && StdPop(s.pool, s.heap, q)
      && t == s.(heap := q, drain := FlushTaken(s.heap[0]))
    case FlushHeapSend =>
      && s.drain.FlushTaken? && s.drain.slot < |s.pool| && s.drain.slot < |s.tag|
      && t == Leave(s, s.drain.slot).(wire := s.wire + [s.pool[s.drain.slot]], drain := FlushDone(s.drain.slot))
    case FlushHeapFree =>
      && s.drain.FlushDone? && |s.free| < POOL_CAPACITY
      && t == s.(free := s.free + [s.drain.slot], drain := FlushHeap)
    case FlushEnd => s.drain.FlushHeap? && s.heap == [] && t == s.(drain := Stopped)
  }

  /** The constructor and Start: every slot is free, in pool order. */
  ghost predicate Init(s: State) {
    && |s.pool| == POOL_CAPACITY && |s.tag| == POOL_CAPACITY
    && |s.free| == POOL_CAPACITY && (forall i :: 0 <= i < POOL_CAPACITY ==> s.free[i] == i)
    && s.handoff == [] && s.heap == [] && s.batch == [] && s.sendBuf == []
    && s.producer == Outside && s.drain == LoopTop && s.running
    && s.accepted == [] && s.carrier == [] && s.sent == [] && s.wire == [] && s.clock == []
    && s.exhausted == 0
  }

  ghost predicate StepAt(run: seq<State>, acts: seq<Action>, i: nat)
    requires |run| == |acts| + 1 && i < |acts|
  {
    Step(run[i], acts[i], run[i + 1])
  }

  /** acts[i] leads from states[i] to states[i + 1]. */
  ghost predicate IsPath(states: seq<State>, acts: seq<Action>) {
    |states| == |acts| + 1 && forall i :: 0 <= i < |acts| ==> StepAt(states, acts, i)
  }

  /** A path from the initial state. */
  ghost predicate IsRun(run: seq<State>, acts: seq<Action>) {
    IsPath(run, acts) && Init(run[0])
  }

  // ----- Ownership -----

  /** Handoff entries not owned elsewhere: while the drain thread sits between the heap push and
      the handoff pop, the front entry already belongs to the heap. */
  function Queued(s: State): seq<nat> {
    if s.drain.Copied? then PopFront(s.handoff) else s.handoff
  }

  /** Handoff entries whose packet has not left through the front yet. */
  function Unread(s: State): seq<nat> {
    if s.drain.Copied? || s.drain.FlushSent? then PopFront(s.handoff) else s.handoff
  }

  predicate HasHand(p: ProducerPc) {
    p.Claimed? || p.HalfWritten? || p.Written?
  }

  predicate DrainHand(d: DrainPc) {
    d.FlushPopped? || d.FlushTaken? || d.FlushDone?
  }

  function One(b: bool): nat { if b then 1 else 0 }

  /** How many claims there are on slot x: in the free queue, the handoff queue, the heap, the
      drain batch, the producer's hand or the flusher's hand. */
  function Claims(s: State, x: nat): nat {
    multiset(s.free)[x] + multiset(Queued(s))[x] + multiset(s.heap)[x] + multiset(s.batch)[x]
    + One(HasHand(s.producer) && s.producer.slot == x) + One(DrainHand(s.drain) && s.drain.slot == x)
  }

  function TotalClaims(s: State): nat {
    |s.free| + |Queued(s)| + |s.heap| + |s.batch| + One(HasHand(s.producer)) + One(DrainHand(s.drain))
  }

  /** Each slot of the pool has exactly one owner. */
  ghost predicate Partition(s: State) {
    && TotalClaims(s) == POOL_CAPACITY
    && forall x: nat :: Claims(s, x) == One(x < POOL_CAPACITY)
  }

  /** What the program counters say about the queues, claims apart. */
  ghost predicate Shape(s: State) {
    && |s.pool| == POOL_CAPACITY && |s.tag| == POOL_CAPACITY
    && (s.producer.SawFront? ==> s.free != [] && s.free[0] == s.producer.slot)
    && (s.producer.HalfWritten? ==> s.producer.slot < POOL_CAPACITY && s.pool[s.producer.slot].packet == s.producer.pkt.packet)
    && (s.producer.Written? ==> s.producer.slot < POOL_CAPACITY && s.pool[s.producer.slot] == s.producer.pkt)
    && (s.drain.Copied? || s.drain.FlushSent? ==> s.handoff != [] && s.handoff[0] == s.drain.slot)
    && (s.drain.Copied? ==> s.drain.slot in s.heap)
    && (!s.drain.Popping? ==> s.sendBuf == [])
    && (!s.drain.Popping? && !s.drain.Returning? ==> s.batch == [])
    && |s.batch| <= BATCH_SIZE
    && (s.drain.Popping? ==> |s.sendBuf| == |s.batch|)
    && (s.running ==> InLoop(s.drain))
    && (!s.running ==> s.producer.Exited?)
    && (s.drain.FlushHeap? || s.drain.FlushTaken? || s.drain.FlushDone? || s.drain.Stopped? ==> s.handoff == [])
    && (s.drain.Stopped? ==> s.heap == [])
  }

  ghost predicate Own(s: State) {
    Shape(s) && Partition(s) && HeapOrdered(s.pool, s.heap)
  }

  predicate InLoop(d: DrainPc) {
    d.LoopTop? || d.Handoff? || d.Copied? || d.Popping? || d.Returning?
  }

  // ----- Ledger: which accepted packet each slot carries -----

  predicate Carries(s: State, x: nat) {
    x in s.heap || x in Unread(s) || s.drain == FlushTaken(x)
  }

  ghost predicate Ledger(s: State) {
    && |s.carrier| == |s.accepted|
    && (forall x: nat {:trigger Carries(s, x)} :: Carries(s, x) ==>
          && x < |s.pool| && x < |s.tag| && s.tag[x] < |s.accepted|
          && s.carrier[s.tag[x]] == x && s.pool[x] == s.accepted[s.tag[x]] && s.tag[x] !in s.sent)
    && (forall k {:trigger s.carrier[k]} :: 0 <= k < |s.accepted| && k !in s.sent ==>
          && Carries(s, s.carrier[k]) && s.carrier[k] < |s.tag| && s.tag[s.carrier[k]] == k)
    && (forall j :: 0 <= j < |s.sent| ==> s.sent[j] < |s.accepted|)
    && (forall i, j :: 0 <= i < j < |s.sent| ==> s.sent[i] != s.sent[j])
  }

  /** The handoff queue holds the latest accepted packets in order; the heap holds older ones. */
  ghost predicate Fifo(s: State) {
    var u := Unread(s);
    && |u| <= |s.accepted|
    && (forall i :: 0 <= i < |u| ==> u[i] < |s.tag| && s.tag[u[i]] == |s.accepted| - |u| + i)
    && (forall x :: x in s.heap ==> x < |s.tag| && s.tag[x] < |s.accepted| - |u|)
  }

  /** What is sent or about to be sent is what was accepted. */
  ghost predicate Bytes(s: State) {
    && |s.wire| + |s.sendBuf| == |s.sent|
    && (forall j :: 0 <= j < |s.sent| ==> s.sent[j] < |s.accepted|)
    && (forall j :: 0 <= j < |s.wire| ==> s.wire[j] == s.accepted[s.sent[j]])
    && (forall j :: 0 <= j < |s.sendBuf| ==> s.sendBuf[j] == s.accepted[s.sent[|s.wire| + j]])
  }

  /** Packet p was accepted before packet q and is due strictly earlier. */
  predicate Precedes(s: State, p: nat, q: nat) {
    p < q < |s.accepted| && s.accepted[p].releaseAt < s.accepted[q].releaseAt
  }

  /** What the drain loop has released, it released in order and on time. */
  ghost predicate Order(s: State) {
    && |s.clock| <= |s.sent|
    && (InLoop(s.drain) || s.drain.Joined? ==> |s.clock| == |s.sent|)
    && (forall j, p :: 0 <= j < |s.clock| && Precedes(s, p, s.sent[j]) ==> p in s.sent[..j])
    && (forall j :: 0 <= j < |s.clock| && s.sent[j] < |s.accepted| ==> s.accepted[s.sent[j]].releaseAt <= s.clock[j])
  }

  ghost predicate Inv(s: State) {
    Own(s) && Ledger(s) && Fifo(s) && Bytes(s) && Order(s)
  }

  // ----- Preservation -----

  lemma InitInv(s: State)
    requires Init(s)
    ensures Inv(s)
  {
    RangeBag(s.free, POOL_CAPACITY);
  }

  lemma {:induction false} RangeBag(q: seq<nat>, n: nat)
    requires |q| == n && forall i :: 0 <= i < n ==> q[i] == i
    ensures forall x: nat :: multiset(q)[x] == One(x < n)
  {
    if n > 0 {
      RangeBag(q[..n - 1], n - 1);
      assert q == q[..n - 1] + [n - 1];
    }
  }

  lemma Member(q: seq<nat>, x: nat)
    ensures x in q <==> multiset(q)[x] > 0
  {
    assert x in q <==> x in multiset(q);
  }

  lemma HandApart(s: State)
    requires Own(s) && HasHand(s.producer)
    ensures var h := s.producer.slot; h < POOL_CAPACITY && h !in s.heap && h !in s.handoff && h !in s.batch && !Carries(s, h)
  {
    var h := s.producer.slot;
    assert Claims(s, h) == One(h < POOL_CAPACITY);
    Member(s.heap, h); Member(Queued(s), h); Member(s.batch, h);
    if s.drain.Copied? { assert s.handoff == [s.drain.slot] + Queued(s); }
  }

  lemma HeadBag(q: seq<nat>)
    requires q != []
    ensures forall x: nat :: multiset(q)[x] == multiset(PopFront(q))[x] + One(x == q[0])
  {
    assert q == [q[0]] + q[1..];
  }

  lemma TailBag(q: seq<nat>, v: nat)
    ensures forall x: nat :: multiset(q + [v])[x] == multiset(q)[x] + One(x == v)
  {
  }

  lemma HeapSize(q: seq<nat>, q': seq<nat>, x: nat)
    requires multiset(q') == multiset(q) + multiset{x}
    ensures |q'| == |q| + 1 && x in q'
    ensures forall y: nat :: multiset(q')[y] == multiset(q)[y] + One(y == x)
    ensures forall y: nat :: y in q' <==> y in q || y == x
  {
    assert |multiset(q')| == |multiset(q)| + 1;
    forall y: nat ensures y in q' <==> y in q || y == x { Member(q, y); Member(q', y); }
  }

  /** A write to a slot outside the heap leaves the heap's order alone. */
  lemma HeapFrame(pool: seq<ScheduledPacket>, pool': seq<ScheduledPacket>, q: seq<nat>)
    requires HeapOrdered(pool, q) && |pool'| == |pool|
    requires forall x :: x in q && x < |pool| ==> pool'[x] == pool[x]
    ensures HeapOrdered(pool', q)
  {
    forall i | 0 < i < |q| ensures Release(pool', q[Parent(i)]) <= Release(pool', q[i]) {
      assert q[i] in q && q[Parent(i)] in q;
    }
  }

  // Ledger, Fifo, Bytes and Order under the things that can happen to what they mention.

  lemma LedgerFrame(s: State, t: State)
    requires Ledger(s) && t.accepted == s.accepted && t.carrier == s.carrier && t.tag == s.tag && t.sent == s.sent
    requires |t.pool| == |s.pool|
    requires forall x: nat :: Carries(t, x) <==> Carries(s, x)
    requires forall x: nat :: Carries(s, x) && x < |s.pool| ==> t.pool[x] == s.pool[x]
    ensures Ledger(t)
  {
  }

  lemma LedgerAdd(s: State, t: State, h: nat)
    requires Ledger(s) && t.pool == s.pool && t.sent == s.sent && h < |s.pool| && h < |s.tag| && !Carries(s, h)
    requires t.accepted == s.accepted + [s.pool[h]] && t.carrier == s.carrier + [h] && t.tag == Store(s.tag, h, |s.accepted|)
    requires forall x: nat :: Carries(t, x) <==> Carries(s, x) || x == h
    ensures Ledger(t)
  {
    forall k | 0 <= k < |t.accepted| && k !in t.sent
      ensures Carries(t, t.carrier[k]) && t.carrier[k] < |t.tag| && t.tag[t.carrier[k]] == k
    {
      if k < |s.accepted| { assert Carries(s, s.carrier[k]); }
    }
  }

  lemma LedgerRemove(s: State, t: State, h: nat)
    requires Ledger(s) && t.pool == s.pool && t.accepted == s.accepted && t.carrier == s.carrier && t.tag == s.tag
    requires Carries(s, h) && h < |s.tag| && t.sent == s.sent + [s.tag[h]]
    requires forall x: nat :: Carries(t, x) <==> Carries(s, x) && x != h
    ensures Ledger(t)
  {
    forall x: nat | Carries(t, x) ensures t.tag[x] !in t.sent {
      assert Carries(s, x);
      assert s.carrier[s.tag[h]] == h;
    }
    forall k | 0 <= k < |t.accepted| && k !in t.sent
      ensures Carries(t, t.carrier[k]) && t.carrier[k] < |t.tag| && t.tag[t.carrier[k]] == k
    {
      assert k !in s.sent && k != s.tag[h];
      assert Carries(s, s.carrier[k]);
    }
  }

  /** Accepting more packets changes nothing about those already sent. */
  lemma HistoryFrame(s: State, t: State)
    requires Bytes(s) && Order(s)
    requires s.accepted <= t.accepted && t.sent == s.sent && t.wire == s.wire && t.sendBuf == s.sendBuf && t.clock == s.clock
    requires InLoop(t.drain) || t.drain.Joined? ==> InLoop(s.drain) || s.drain.Joined?
    ensures Bytes(t) && Order(t)
  {
    forall j, p | 0 <= j < |t.clock| && Precedes(t, p, t.sent[j]) ensures p in t.sent[..j] {
      assert Precedes(s, p, s.sent[j]);
    }
  }

  /** Nothing that the last four invariants mention has changed. */
  ghost predicate SameLedger(s: State, t: State) {
    && t.accepted == s.accepted && t.carrier == s.carrier && t.tag == s.tag && t.sent == s.sent
    && t.wire == s.wire && t.sendBuf == s.sendBuf && t.clock == s.clock && t.heap == s.heap
    && Unread(t) == Unread(s) && (s.drain.FlushTaken? || t.drain.FlushTaken? ==> s.drain == t.drain)
    && (InLoop(t.drain) || t.drain.Joined? ==> InLoop(s.drain) || s.drain.Joined?)
  }

  lemma KeepLedger(s: State, t: State)
    requires Inv(s) && SameLedger(s, t) && |t.pool| == |s.pool|
    requires forall x: nat :: Carries(s, x) && x < |s.pool| ==> t.pool[x] == s.pool[x]
    ensures Ledger(t) && Fifo(t) && Bytes(t) && Order(t)
  {
    assert forall x: nat :: Carries(t, x) <==> Carries(s, x);
    LedgerFrame(s, t);
    HistoryFrame(s, t);
  }

  // Steps that only move a program counter, as far as claims and carried packets go.

  predicate OnlyMovesOn(a: Action) {
    || a.PushBegin? || a.PushExhausted? || a.CaptureExit? || a.LoopEnter? || a.LoopExit? || a.ReadClock? || a.NothingDue?
    || a.PopHandoff? || a.BatchReturned? || a.StopRequest? || a.FlushBegin? || a.HandoffFlushed? || a.FlushEnd?
  }

  /** Nothing that claims mention has changed. */
  ghost predicate SameOwners(s: State, t: State) {
    && t.pool == s.pool && t.free == s.free && t.batch == s.batch && t.heap == s.heap && Queued(t) == Queued(s)
    && (if HasHand(s.producer) then s.producer == t.producer else !HasHand(t.producer))
    && (if DrainHand(s.drain) then s.drain == t.drain else !DrainHand(t.drain))
  }

  lemma ProducerMovesOn(s: State, a: Action, t: State)
    requires Shape(s) && Step(s, a, t) && (a.PushBegin? || a.PushExhausted? || a.CaptureExit?)
    ensures Shape(t) && SameLedger(s, t) && SameOwners(s, t)
  {
    assert t.drain == s.drain;
  }

  lemma LoopMovesOn(s: State, a: Action, t: State)
    requires Shape(s) && Step(s, a, t)
    requires a.LoopEnter? || a.LoopExit? || a.ReadClock? || a.NothingDue? || a.PopHandoff? || a.BatchReturned?
    ensures Shape(t) && SameLedger(s, t) && SameOwners(s, t)
  {
    assert t.producer == s.producer && t.running == s.running;
  }

  lemma StopMovesOn(s: State, a: Action, t: State)
    requires Shape(s) && Step(s, a, t) && (a.StopRequest? || a.FlushBegin? || a.HandoffFlushed? || a.FlushEnd?)
    ensures Shape(t) && SameLedger(s, t) && SameOwners(s, t)
  {
    assert t.producer == s.producer && t.handoff == s.handoff;
  }

  lemma MovesOnFrame(s: State, a: Action, t: State)
    requires Shape(s) && Step(s, a, t) && OnlyMovesOn(a)
    ensures Shape(t) && SameLedger(s, t) && SameOwners(s, t)
  {
    if a.PushBegin? || a.PushExhausted? || a.CaptureExit? { ProducerMovesOn(s, a, t); }
    else if a.StopRequest? || a.FlushBegin? || a.HandoffFlushed? || a.FlushEnd? { StopMovesOn(s, a, t); }
    else { LoopMovesOn(s, a, t); }
  }

  lemma KeepPartition(s: State, t: State)
    requires Partition(s) && SameOwners(s, t)
    ensures Partition(t)
  {
    assert forall x: nat :: Claims(t, x) == Claims(s, x);
  }

  lemma KeepMovesOn(s: State, a: Action, t: State)
    requires Inv(s) && Step(s, a, t) && OnlyMovesOn(a)
    ensures Inv(t)
  {
    MovesOnFrame(s, a, t);
    KeepPartition(s, t);
    KeepLedger(s, t);
  }

  // Push

  lemma OwnPushClaim(s: State, t: State)
    requires Own(s) && Step(s, PushClaim, t)
    ensures Own(t)
  {
    HeadBag(s.free);
    assert forall x: nat :: Claims(t, x) == Claims(s, x);
  }

  lemma OwnWrite(s: State, a: Action, t: State)
    requires Own(s) && Step(s, a, t) && (a.WritePayload? || a.WriteRelease?)
    ensures Own(t)
  {
    HandApart(s);
    HeapFrame(s.pool, t.pool, s.heap);
    assert forall x: nat :: Claims(t, x) == Claims(s, x);
  }

  lemma KeepPushLocal(s: State, a: Action, t: State)
    requires Inv(s) && Step(s, a, t) && (a.PushClaim? || a.WritePayload? || a.WriteRelease?)
    ensures Inv(t)
  {
    if a.PushClaim? { OwnPushClaim(s, t); } else { OwnWrite(s, a, t); HandApart(s); }
    KeepLedger(s, t);
  }

  lemma HandOffQueues(s: State, t: State)
    requires Shape(s) && Step(s, PushHandOff, t)
    ensures Shape(t) && Queued(t) == Queued(s) + [s.producer.slot] && Unread(t) == Unread(s) + [s.producer.slot]
  {
  }

  lemma OwnPushHandOff(s: State, t: State)
    requires Own(s) && Step(s, PushHandOff, t)
    ensures Own(t)
  {
    HandOffQueues(s, t);
    TailBag(Queued(s), s.producer.slot);
    assert forall x: nat :: Claims(t, x) == Claims(s, x);
  }

  lemma FifoPushHandOff(s: State, t: State, h: nat)
    requires Fifo(s) && !Carries(s, h) && h < |s.tag|
    requires Unread(t) == Unread(s) + [h] && t.heap == s.heap && |t.accepted| == |s.accepted| + 1
    requires t.tag == Store(s.tag, h, |s.accepted|)
    ensures Fifo(t)
  {
    assert forall i :: 0 <= i < |Unread(s)| ==> Unread(s)[i] in Unread(s);
  }

  lemma KeepPushHandOff(s: State, t: State)
    requires Inv(s) && Step(s, PushHandOff, t)
    ensures Inv(t)
  {
    HandApart(s);
    HandOffQueues(s, t);
    OwnPushHandOff(s, t);
    LedgerAdd(s, t, s.producer.slot);
    FifoPushHandOff(s, t, s.producer.slot);
    HistoryFrame(s, t);
  }

  // DrainLoop

  lemma OwnCopyToHeap(s: State, q: seq<nat>, t: State)
    requires Own(s) && Step(s, CopyToHeap(q), t)
    ensures Own(t) && multiset(q) == multiset(s.heap) + multiset{s.handoff[0]}
  {
    var x := s.handoff[0];
    HeadBag(s.handoff);
    assert Claims(s, x) == One(x < POOL_CAPACITY);
    HeapSize(s.heap, q, x);
    assert forall y: nat :: Claims(t, y) == Claims(s, y);
  }

  lemma FifoShrink(s: State, t: State)
    requires Fifo(s) && Unread(s) != [] && Unread(t) == Unread(s)[1..] && t.tag == s.tag && t.accepted == s.accepted
    requires forall x :: x in t.heap ==> x in s.heap || x == Unread(s)[0]
    ensures Fifo(t)
  {
  }

  lemma LedgerCopyToHeap(s: State, q: seq<nat>, t: State)
    requires Ledger(s) && Fifo(s) && Step(s, CopyToHeap(q), t) && multiset(q) == multiset(s.heap) + multiset{s.handoff[0]}
    ensures Ledger(t) && Fifo(t)
  {
    HeapSize(s.heap, q, s.handoff[0]);
    assert s.handoff == [s.handoff[0]] + Unread(t);
    LedgerFrame(s, t);
    FifoShrink(s, t);
  }

  lemma HistoryCopyToHeap(s: State, q: seq<nat>, t: State)
    requires Bytes(s) && Order(s) && Step(s, CopyToHeap(q), t)
    ensures Bytes(t) && Order(t)
  {
    HistoryFrame(s, t);
  }

  lemma KeepCopyToHeap(s: State, q: seq<nat>, t: State)
    requires Inv(s) && Step(s, CopyToHeap(q), t)
    ensures Inv(t)
  {
    OwnCopyToHeap(s, q, t);
    LedgerCopyToHeap(s, q, t);
    HistoryCopyToHeap(s, q, t);
  }

  lemma OwnPopDue(s: State, q: seq<nat>, t: State)
    requires Own(s) && Step(s, PopDue(q), t)
    ensures Own(t) && multiset(q) + multiset{s.heap[0]} == multiset(s.heap)
    ensures s.heap[0] !in q && s.heap[0] !in s.handoff
  {
    PopDueFrame(s, q, t);
    PoppedPartition(s, t, s.heap[0]);
  }

  lemma PopDueFrame(s: State, q: seq<nat>, t: State)
    requires Shape(s) && HeapOrdered(s.pool, s.heap) && Step(s, PopDue(q), t)
    ensures Shape(t) && t.pool == s.pool && t.free == s.free && t.producer == s.producer && t.drain == s.drain && s.drain.Popping?
    ensures t.handoff == s.handoff && t.heap == q && t.batch == s.batch + [s.heap[0]]
    ensures HeapOrdered(t.pool, q) && multiset(q) + multiset{s.heap[0]} == multiset(s.heap)
  {
  }

  /** Slot x goes from the heap to the batch. */
  lemma PoppedPartition(s: State, t: State, x: nat)
    requires Partition(s) && multiset(t.heap) + multiset{x} == multiset(s.heap) && t.batch == s.batch + [x]
    requires t.free == s.free && t.handoff == s.handoff && t.producer == s.producer && t.drain == s.drain && s.drain.Popping?
    ensures Partition(t) && x !in t.heap && x !in s.handoff
  {
    HeapSize(t.heap, s.heap, x);
    TailBag(s.batch, x);
    assert forall y: nat :: Claims(t, y) == Claims(s, y);
    assert Claims(s, x) == One(x < POOL_CAPACITY);
    Member(t.heap, x); Member(s.handoff, x);
  }

  /** An accepted packet that has not left is in the heap or among the newest, still handed off. */
  lemma NotLeftYet(s: State, p: nat)
    requires Ledger(s) && Fifo(s) && !s.drain.FlushTaken? && p < |s.accepted|
    ensures p !in s.sent ==>
              || p >= |s.accepted| - |Unread(s)|
              || exists y :: y in s.heap && y < |s.pool| && s.pool[y] == s.accepted[p]
  {
    if p !in s.sent {
      var y := s.carrier[p];
      assert Carries(s, y) && s.tag[y] == p;
      if y in Unread(s) {
        var i :| 0 <= i < |Unread(s)| && Unread(s)[i] == y;
      }
    }
  }

  /** The heap's top is preceded only by packets that already left: older ones are in the heap,
      where nothing is due earlier, and the handoff queue holds only newer ones. */
  lemma OlderAlreadyLeft(s: State, p: nat)
    requires HeapOrdered(s.pool, s.heap) && Ledger(s) && Fifo(s) && s.heap != [] && !s.drain.FlushTaken?
    requires s.heap[0] < |s.tag| && Precedes(s, p, s.tag[s.heap[0]])
    ensures p in s.sent
  {
    assert Carries(s, s.heap[0]);
    TopIsMin(s.pool, s.heap);
    NotLeftYet(s, p);
  }

  lemma OrderPopDue(s: State, q: seq<nat>, t: State)
    requires Ledger(s) && Order(s) && Step(s, PopDue(q), t)
    requires forall p: nat :: Precedes(s, p, s.tag[s.heap[0]]) ==> p in s.sent
    ensures Order(t)
  {
    assert Carries(s, s.heap[0]);
    assert s.sent == t.sent[..|s.sent|];
    forall j, p | 0 <= j < |t.clock| && Precedes(t, p, t.sent[j]) ensures p in t.sent[..j] {
      if j < |s.sent| { assert Precedes(s, p, s.sent[j]) && t.sent[..j] == s.sent[..j]; }
    }
  }

  lemma BytesPopDue(s: State, q: seq<nat>, t: State)
    requires Ledger(s) && Bytes(s) && Step(s, PopDue(q), t)
    ensures Bytes(t)
  {
    assert Carries(s, s.heap[0]);
    BytesOneMore(s, t, s.tag[s.heap[0]]);
  }

  lemma BytesOneMore(s: State, t: State, k: nat)
    requires Bytes(s) && k < |s.accepted| && t.accepted == s.accepted && t.wire == s.wire
    requires t.sent == s.sent + [k] && t.sendBuf == s.sendBuf + [s.accepted[k]]
    ensures Bytes(t)
  {
    forall j | 0 <= j < |t.sendBuf| ensures t.sendBuf[j] == t.accepted[t.sent[|t.wire| + j]] {
      if j < |s.sendBuf| { assert t.sent[|t.wire| + j] == s.sent[|s.wire| + j]; }
    }
  }

  lemma KeepPopDue(s: State, q: seq<nat>, t: State)
    requires Inv(s) && Step(s, PopDue(q), t)
    ensures Inv(t)
  {
    OwnPopDue(s, q, t);
    HeapSize(q, s.heap, s.heap[0]);
    LedgerRemove(s, t, s.heap[0]);
    BytesPopDue(s, q, t);
    forall p: nat | Precedes(s, p, s.tag[s.heap[0]]) ensures p in s.sent { OlderAlreadyLeft(s, p); }
    OrderPopDue(s, q, t);
  }

  lemma HistorySendBatch(s: State, t: State)
    requires Bytes(s) && Order(s) && s.wire + s.sendBuf == t.wire && t.sendBuf == []
    requires t.accepted == s.accepted && t.sent == s.sent && t.clock == s.clock && InLoop(s.drain)
    ensures Bytes(t) && Order(t)
  {
    BytesSendBatch(s, t);
    forall j, p | 0 <= j < |t.clock| && Precedes(t, p, t.sent[j]) ensures p in t.sent[..j] {
      assert Precedes(s, p, s.sent[j]);
    }
  }

  lemma BytesSendBatch(s: State, t: State)
    requires Bytes(s) && t.wire == s.wire + s.sendBuf && t.sendBuf == [] && t.accepted == s.accepted && t.sent == s.sent
    ensures Bytes(t)
  {
    forall j | 0 <= j < |t.wire| ensures t.wire[j] == t.accepted[t.sent[j]] {
      if j >= |s.wire| { assert t.wire[j] == s.sendBuf[j - |s.wire|]; }
    }
  }

  lemma OwnSendBatch(s: State, t: State)
    requires Own(s) && Step(s, SendBatch, t)
    ensures Own(t) && t.heap == s.heap && Unread(t) == Unread(s)
  {
    KeepPartition(s, t);
  }

  lemma KeepSendBatch(s: State, t: State)
    requires Inv(s) && Step(s, SendBatch, t)
    ensures Inv(t)
  {
    OwnSendBatch(s, t);
    LedgerFrame(s, t);
    FifoHeap(s, t);
    HistorySendBatch(s, t);
  }

  /** Slot x goes from the drain thread's batch or hand to the free queue. */
  lemma FreedPartition(s: State, t: State, x: nat)
    requires Partition(s) && t.free == s.free + [x] && t.heap == s.heap && Queued(t) == Queued(s) && t.producer == s.producer
    requires |s.batch| + One(DrainHand(s.drain)) == |t.batch| + One(DrainHand(t.drain)) + 1
    requires forall y: nat :: multiset(s.batch)[y] + One(DrainHand(s.drain) && s.drain.slot == y)
                              == multiset(t.batch)[y] + One(DrainHand(t.drain) && t.drain.slot == y) + One(y == x)
    ensures Partition(t)
  {
    TailBag(s.free, x);
    assert forall y: nat :: Claims(t, y) == Claims(s, y);
  }

  lemma ReturnSlotFrame(s: State, t: State)
    requires Shape(s) && Step(s, ReturnSlot, t)
    ensures Shape(t) && t.pool == s.pool && t.heap == s.heap && Queued(t) == Queued(s) && t.producer == s.producer
  {
  }

  lemma OwnReturnSlot(s: State, t: State)
    requires Own(s) && Step(s, ReturnSlot, t)
    ensures Own(t)
  {
    ReturnSlotFrame(s, t);
    HeadBag(s.batch);
    FreedPartition(s, t, s.batch[0]);
  }

  lemma KeepReturnSlot(s: State, t: State)
    requires Inv(s) && Step(s, ReturnSlot, t)
    ensures Inv(t)
  {
    OwnReturnSlot(s, t);
    KeepLedger(s, t);
  }

  // FlushPackets

  lemma OwnFlushPop(s: State, t: State)
    requires Own(s) && Step(s, FlushPop, t)
    ensures Own(t)
  {
    HeadBag(s.handoff);
    assert forall x: nat :: Claims(t, x) == Claims(s, x);
  }

  lemma FlushFreeFrame(s: State, a: Action, t: State)
    requires Shape(s) && Step(s, a, t) && (a.FlushFree? || a.FlushHeapFree?)
    ensures Shape(t) && t.pool == s.pool && t.heap == s.heap && Queued(t) == Queued(s) && t.producer == s.producer
    ensures DrainHand(s.drain) && !DrainHand(t.drain) && t.batch == s.batch && t.free == s.free + [s.drain.slot]
  {
  }

  lemma OwnFlushFree(s: State, a: Action, t: State)
    requires Own(s) && Step(s, a, t) && (a.FlushFree? || a.FlushHeapFree?)
    ensures Own(t)
  {
    FlushFreeFrame(s, a, t);
    FreedPartition(s, t, s.drain.slot);
  }

  lemma FlushMoveFrame(s: State, a: Action, t: State)
    requires Shape(s) && Step(s, a, t) && FlushMoves(a)
    ensures SameLedger(s, t) && t.pool == s.pool
  {
  }

  lemma KeepFlushMove(s: State, a: Action, t: State)
    requires Inv(s) && Step(s, a, t) && FlushMoves(a)
    ensures Inv(t)
  {
    if a.FlushPop? { OwnFlushPop(s, t); } else { OwnFlushFree(s, a, t); }
    FlushMoveFrame(s, a, t);
    KeepLedger(s, t);
  }

  lemma OwnFlushTake(s: State, q: seq<nat>, t: State)
    requires Own(s) && Step(s, FlushTake(q), t)
    ensures Own(t) && multiset(q) + multiset{s.heap[0]} == multiset(s.heap)
  {
    HeapSize(q, s.heap, s.heap[0]);
    assert forall x: nat :: Claims(t, x) == Claims(s, x);
  }

  lemma FifoHeap(s: State, t: State)
    requires Fifo(s) && Unread(t) == Unread(s) && t.tag == s.tag && t.accepted == s.accepted
    requires forall x :: x in t.heap ==> x in s.heap
    ensures Fifo(t)
  {
  }

  lemma FlushTakeCarries(s: State, q: seq<nat>, t: State)
    requires Step(s, FlushTake(q), t) && multiset(q) + multiset{s.heap[0]} == multiset(s.heap)
    ensures Unread(t) == Unread(s) && forall x :: x in t.heap ==> x in s.heap
    ensures forall x: nat :: Carries(t, x) <==> Carries(s, x)
  {
    HeapSize(q, s.heap, s.heap[0]);
  }

  lemma LedgerFlushTake(s: State, q: seq<nat>, t: State)
    requires Ledger(s) && Fifo(s) && Step(s, FlushTake(q), t) && multiset(q) + multiset{s.heap[0]} == multiset(s.heap)
    ensures Ledger(t) && Fifo(t)
  {
    FlushTakeCarries(s, q, t);
    FifoHeap(s, t);
    LedgerFrame(s, t);
  }

  lemma HistoryFlushTake(s: State, q: seq<nat>, t: State)
    requires Bytes(s) && Order(s) && Step(s, FlushTake(q), t)
    ensures Bytes(t) && Order(t)
  {
    HistoryFrame(s, t);
  }

  lemma KeepFlushTake(s: State, q: seq<nat>, t: State)
    requires Inv(s) && Step(s, FlushTake(q), t)
    ensures Inv(t)
  {
    OwnFlushTake(s, q, t);
    LedgerFlushTake(s, q, t);
    HistoryFlushTake(s, q, t);
  }

  /** A packet reinjected straight from its slot. */
  lemma HistoryAppend(s: State, t: State, k: nat)
    requires Bytes(s) && Order(s) && s.sendBuf == [] && k < |s.accepted|
    requires t.accepted == s.accepted && t.sent == s.sent + [k] && t.wire == s.wire + [s.accepted[k]]
    requires t.sendBuf == [] && t.clock == s.clock && !InLoop(t.drain) && !t.drain.Joined?
    ensures Bytes(t) && Order(t)
  {
    forall j, p | 0 <= j < |t.clock| && Precedes(t, p, t.sent[j]) ensures p in t.sent[..j] {
      assert Precedes(s, p, s.sent[j]) && t.sent[..j] == s.sent[..j];
    }
  }

  lemma OwnFlushSend(s: State, t: State)
    requires Own(s) && Step(s, FlushSend, t)
    ensures Own(t) && s.handoff[0] !in s.heap && s.handoff[0] !in s.handoff[1..]
  {
    var x := s.handoff[0];
    KeepPartition(s, t);
    HeadBag(s.handoff);
    assert Claims(s, x) == One(x < POOL_CAPACITY);
    Member(s.heap, x); Member(s.handoff[1..], x);
  }

  lemma LedgerFlushSend(s: State, t: State)
    requires Ledger(s) && Fifo(s) && Step(s, FlushSend, t) && s.handoff[0] !in s.heap && s.handoff[0] !in s.handoff[1..]
    ensures Ledger(t) && Fifo(t)
  {
    var x := s.handoff[0];
    assert s.handoff == [x] + Unread(t);
    assert Carries(s, x);
    LedgerRemove(s, t, x);
    FifoShrink(s, t);
  }

  lemma HistoryFlushSend(s: State, t: State)
    requires Shape(s) && Ledger(s) && Bytes(s) && Order(s) && Step(s, FlushSend, t)
    ensures Bytes(t) && Order(t)
  {
    assert Carries(s, s.handoff[0]);
    HistoryAppend(s, t, s.tag[s.handoff[0]]);
  }

  lemma KeepFlushSend(s: State, t: State)
    requires Inv(s) && Step(s, FlushSend, t)
    ensures Inv(t)
  {
    OwnFlushSend(s, t);
    LedgerFlushSend(s, t);
    HistoryFlushSend(s, t);
  }

  lemma OwnFlushHeapSend(s: State, t: State)
    requires Own(s) && Step(s, FlushHeapSend, t)
    ensures Own(t) && s.drain.slot !in s.heap && s.drain.slot !in s.handoff
  {
    var x := s.drain.slot;
    assert forall y: nat :: Claims(t, y) == Claims(s, y);
    assert Claims(s, x) == One(x < POOL_CAPACITY);
    Member(s.heap, x); Member(s.handoff, x);
  }

  lemma KeepFlushHeapSend(s: State, t: State)
    requires Inv(s) && Step(s, FlushHeapSend, t)
    ensures Inv(t)
  {
    OwnFlushHeapSend(s, t);
    assert Carries(s, s.drain.slot);
    LedgerRemove(s, t, s.drain.slot);
    HistoryAppend(s, t, s.tag[s.drain.slot]);
  }

  predicate ByProducer(a: Action) {
    a.PushBegin? || a.PushExhausted? || a.PushClaim? || a.WritePayload? || a.WriteRelease? || a.PushHandOff? || a.CaptureExit?
  }

  lemma InvByProducer(s: State, a: Action, t: State)
    requires Inv(s) && Step(s, a, t) && ByProducer(a)
    ensures Inv(t)
  {
    if OnlyMovesOn(a) { KeepMovesOn(s, a, t); }
    else if a.PushHandOff? { KeepPushHandOff(s, t); }
    else { KeepPushLocal(s, a, t); }
  }

  predicate ByDrain(a: Action) {
    || a.LoopEnter? || a.LoopExit? || a.CopyToHeap? || a.PopHandoff? || a.ReadClock? || a.PopDue? || a.NothingDue?
    || a.SendBatch? || a.ReturnSlot? || a.BatchReturned?
  }

  lemma InvByDrain(s: State, a: Action, t: State)
    requires Inv(s) && Step(s, a, t) && ByDrain(a)
    ensures Inv(t)
  {
    if OnlyMovesOn(a) { KeepMovesOn(s, a, t); }
    else if a.CopyToHeap? { KeepCopyToHeap(s, a.q, t); }
    else if a.PopDue? { KeepPopDue(s, a.q, t); }
    else if a.SendBatch? { KeepSendBatch(s, t); }
    else { KeepReturnSlot(s, t); }
  }

  predicate FlushMoves(a: Action) {
    a.FlushPop? || a.FlushFree? || a.FlushHeapFree?
  }

  lemma InvByFlush(s: State, a: Action, t: State)
    requires Inv(s) && Step(s, a, t) && !ByProducer(a) && !ByDrain(a) && !OnlyMovesOn(a) && !FlushMoves(a)
    ensures Inv(t)
  {
    if a.FlushSend? { KeepFlushSend(s, t); }
    else if a.FlushTake? { KeepFlushTake(s, a.q, t); }
    else { KeepFlushHeapSend(s, t); }
  }

  lemma InvStep(s: State, a: Action, t: State)
    requires Inv(s) && Step(s, a, t)
    ensures Inv(t)
  {
    if ByProducer(a) { InvByProducer(s, a, t); }
    else if ByDrain(a) { InvByDrain(s, a, t); }
    else if OnlyMovesOn(a) { KeepMovesOn(s, a, t); }
    else if FlushMoves(a) { KeepFlushMove(s, a, t); }
    else { InvByFlush(s, a, t); }
  }

  /** Every state of every run satisfies the invariant. */
  lemma {:induction false} Safety(run: seq<State>, acts: seq<Action>, i: nat)
    requires IsRun(run, acts) && i < |run|
    ensures Inv(run[i])
  {
    if i == 0 {
      InitInv(run[0]);
    } else {
      Safety(run, acts, i - 1);
      assert StepAt(run, acts, i - 1);
      InvStep(run[i - 1], acts[i - 1], run[i]);
    }
  }
}

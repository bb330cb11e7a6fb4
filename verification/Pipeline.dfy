/** The whole pipeline from Start to Stop: the capture thread takes batches, walks them, pushes the
    delayed copies one by one and sends the rest, while the drain thread runs. Every interleaving
    of the capture thread's calls with the delay queue's own steps is a run of this system. */
module Pipeline {
  import opened Packets
  import opened EffectEngines
  import opened EffectTheorems
  import opened DelayProtocol
  import opened DelayTheorems
  import opened DelayPaths
  import opened Capture
  import opened CaptureTheorems

  datatype Sys = Sys(
    queue: State,
    engines: Engines,
    walking: bool,                    // a batch is in hand
    todo: seq<ScheduledPacket>,       // its copies still to be pushed
    outgoing: nat,                    // its packets to be sent at once
    // Totals over the run
    captured: nat, unreached: nat, counts: Counts,
    immediate: nat,                   // packets in the capture loop's send calls
    produced: seq<ScheduledPacket>,   // every copy pushed or still to be pushed
    gaveUp: seq<ScheduledPacket>)     // those Push found no slot for

  datatype Event =
    | Receive(recv: seq<Byte>, addrs: seq<Address>, envs: seq<Env>)
    | SendNow
    | Queue(act: Action)

  /** What the capture thread may do to the queue: push the batch's copies in order, and leave its
      loop only between batches. */
  predicate Allowed(s: Sys, a: Action) {
    && (a.PushBegin? || a.PushExhausted? ==> s.walking && s.todo != [] && s.todo[0] == a.pkt)
    && (a.CaptureExit? ==> !s.walking)
  }

  /** The capture thread's bookkeeping of a queue step. */
  function Noted(s: Sys, a: Action): Sys {
    match a
    case PushBegin(p) => s.(todo := PopFront(s.todo))
    case PushExhausted(p) => s.(todo := PopFront(s.todo), gaveUp := s.gaveUp + [p])
    case _ => s
  }

  /** A batch received and walked. */
  function Received(s: Sys, recv: seq<Byte>, addrs: seq<Address>, envs: seq<Env>): Sys
    requires |addrs| == |envs|
  {
    var r := WalkBatch(s.engines, recv, addrs, envs);
    s.(engines := r.engines, walking := true, todo := r.pushes, outgoing := |r.sendAddrs|,
       captured := s.captured + |addrs|, unreached := s.unreached + |addrs| - Reached(recv, envs),
       counts := Plus(s.counts, r.counts), produced := s.produced + r.pushes)
  }

  ghost predicate SysStep(s: Sys, e: Event, t: Sys) {
    match e
    case Receive(recv, addrs, envs) =>
      && !s.walking && s.queue.producer.Outside? && |addrs| == |envs| && InRange(envs)
      && t == Received(s, recv, addrs, envs)
    case SendNow =>
      && s.walking && s.todo == [] && s.queue.producer.Outside?
      && t == s.(walking := false, outgoing := 0, immediate := s.immediate + s.outgoing)
    case Queue(a) =>
      Allowed(s, a) && Step(s.queue, a, t.queue) && t == Noted(s, a).(queue := t.queue)
  }

  ghost predicate SysInit(s: Sys) {
    && Init(s.queue) && !s.walking && s.todo == [] && s.outgoing == 0
    && s.captured == s.unreached == s.immediate == 0 && s.counts == NO_COUNTS
    && s.produced == [] && s.gaveUp == []
  }

  ghost predicate SysStepAt(run: seq<Sys>, events: seq<Event>, i: nat)
    requires |run| == |events| + 1 && i < |events|
  {
    SysStep(run[i], events[i], run[i + 1])
  }

  ghost predicate IsSysRun(run: seq<Sys>, events: seq<Event>) {
    && |run| == |events| + 1 && SysInit(run[0])
    && forall i :: 0 <= i < |events| ==> SysStepAt(run, events, i)
  }

  function InHand(p: ProducerPc): seq<ScheduledPacket> {
    if p.Outside? || p.Exited? then [] else [p.pkt]
  }

  /** Every captured packet and every extra copy is dropped, oversized, sent at once, about to be, or
      produced for the queue; or its batch's buffer ran out before the walk reached it. */
  predicate Accounts(s: Sys) {
    s.captured + s.counts.duplicated == s.unreached + s.counts.dropped + s.counts.oversized + s.immediate + s.outgoing + |s.produced|
  }

  /** Every copy produced for the queue was accepted, is in the producer's hand, is still to be
      pushed, or found the pool exhausted. */
  ghost predicate Whereabouts(s: Sys) {
    && multiset(s.produced) == multiset(s.queue.accepted) + multiset(InHand(s.queue.producer)) + multiset(s.todo) + multiset(s.gaveUp)
    && |s.gaveUp| == s.queue.exhausted
  }

  predicate Between(s: Sys) {
    && (!s.walking ==> s.todo == [] && s.outgoing == 0 && InHand(s.queue.producer) == [])
    && (s.queue.producer.Exited? ==> !s.walking)
  }

  ghost predicate SysInv(s: Sys) {
    Inv(s.queue) && Accounts(s) && Whereabouts(s) && Between(s)
  }

  /** What a queue step does to the packets that concern the capture thread. */
  ghost predicate Moves(s: State, a: Action, t: State) {
    && multiset(t.accepted) + multiset(InHand(t.producer))
       == multiset(s.accepted) + multiset(InHand(s.producer)) + (if a.PushBegin? then multiset{a.pkt} else multiset{})
    && t.exhausted == s.exhausted + One(a.PushExhausted?)
    && (t.producer.Exited? ==> s.producer.Exited? || a.CaptureExit?)
    && (InHand(t.producer) != [] ==> InHand(s.producer) != [] || a.PushBegin?)
  }

  lemma DrainMoves(s: State, a: Action, t: State)
    requires Step(s, a, t) && !ByProducer(a)
    ensures t.accepted == s.accepted && t.producer == s.producer && t.exhausted == s.exhausted
  {
  }

  lemma HandMoves(s: State, a: Action, t: State)
    requires Step(s, a, t) && ByProducer(a) && !a.PushHandOff?
    ensures t.accepted == s.accepted && t.exhausted == s.exhausted + One(a.PushExhausted?)
    ensures InHand(t.producer) == if a.PushBegin? then [a.pkt] else InHand(s.producer)
    ensures a.PushBegin? ==> InHand(s.producer) == []
    ensures t.producer.Exited? <==> a.CaptureExit?
  {
  }

  lemma PushMoves(s: State, a: Action, t: State)
    requires Step(s, a, t) && ByProducer(a)
    ensures Moves(s, a, t)
  {
    if !a.PushHandOff? { HandMoves(s, a, t); }
  }

  lemma ReceiveStep(s: Sys, e: Event, t: Sys)
    requires SysInv(s) && e.Receive? && SysStep(s, e, t)
    ensures SysInv(t)
  {
    BatchConserves(s.engines, e.recv, e.addrs, e.envs);
  }

  /** A queue step keeps the capture thread's books. */
  lemma BooksKept(s: Sys, a: Action, t: Sys)
    requires Moves(s.queue, a, t.queue) && Allowed(s, a) && t == Noted(s, a).(queue := t.queue)
    requires Accounts(s) && Whereabouts(s) && Between(s)
    ensures Accounts(t) && Whereabouts(t) && Between(t)
  {
    WhereaboutsKept(s, a, t);
  }

  /** The bags of packets still to be pushed and of those given up, before and after a queue step. */
  lemma TodoMoves(s: Sys, a: Action, t: Sys)
    requires Allowed(s, a) && t == Noted(s, a).(queue := t.queue)
    ensures multiset(s.todo) + multiset(s.gaveUp)
            == (if a.PushBegin? then multiset{a.pkt} else multiset{}) + multiset(t.todo) + multiset(t.gaveUp)
    ensures |t.gaveUp| == |s.gaveUp| + One(a.PushExhausted?) && t.produced == s.produced
  {
    if a.PushBegin? || a.PushExhausted? { assert s.todo == [a.pkt] + t.todo; }
  }

  lemma WhereaboutsKept(s: Sys, a: Action, t: Sys)
    requires Moves(s.queue, a, t.queue) && Allowed(s, a) && t == Noted(s, a).(queue := t.queue) && Whereabouts(s)
    ensures Whereabouts(t)
  {
    TodoMoves(s, a, t);
    Recount(multiset(s.queue.accepted) + multiset(InHand(s.queue.producer)), multiset(t.queue.accepted) + multiset(InHand(t.queue.producer)),
            if a.PushBegin? then multiset{a.pkt} else multiset{},
            multiset(s.todo), multiset(s.gaveUp), multiset(t.todo), multiset(t.gaveUp));
  }

  lemma Recount(held: multiset<ScheduledPacket>, held': multiset<ScheduledPacket>, moved: multiset<ScheduledPacket>,
                todo: multiset<ScheduledPacket>, lost: multiset<ScheduledPacket>,
                todo': multiset<ScheduledPacket>, lost': multiset<ScheduledPacket>)
    requires held' == held + moved && todo + lost == moved + todo' + lost'
    ensures held + todo + lost == held' + todo' + lost'
  {
    var before, after := todo + lost, moved + todo' + lost';
    forall x ensures (held + todo + lost)[x] == (held' + todo' + lost')[x] { assert before[x] == after[x]; }
  }

  lemma QueueMoves(s: State, a: Action, t: State)
    requires Step(s, a, t)
    ensures Moves(s, a, t)
  {
    if ByProducer(a) { PushMoves(s, a, t); } else { DrainMoves(s, a, t); }
  }

  lemma QueueStep(s: Sys, a: Action, t: Sys)
    requires SysInv(s) && SysStep(s, Queue(a), t)
    ensures SysInv(t)
  {
    InvStep(s.queue, a, t.queue);
    QueueMoves(s.queue, a, t.queue);
    BooksKept(s, a, t);
  }

  lemma {:induction false} SysSafety(run: seq<Sys>, events: seq<Event>, i: nat)
    requires IsSysRun(run, events) && i < |run|
    ensures SysInv(run[i])
  {
    if i == 0 {
      InitInv(run[0].queue);
    } else {
      SysSafety(run, events, i - 1);
      assert SysStepAt(run, events, i - 1);
      match events[i - 1] {
        case Receive(_, _, _) => ReceiveStep(run[i - 1], events[i - 1], run[i]);
        case SendNow =>
        case Queue(a) => QueueStep(run[i - 1], a, run[i]);
      }
    }
  }

  /** What the engines see over the first n events. */
  function AllInputs(events: seq<Event>, n: nat): seq<Input>
    requires n <= |events|
  {
    if n == 0 then [] else AllInputs(events, n - 1) + NewInputs(events[n - 1])
  }

  function NewInputs(e: Event): seq<Input> {
    if e.Receive? && |e.addrs| == |e.envs| then EngineInputs(e.recv, e.addrs, e.envs) else []
  }

  /** From es the engines have been run on `ins`, what they scheduled is what was produced, and what
      they lost or delayed is what was counted. */
  predicate Ran(es: Engines, s: Sys, ins: seq<Input>) {
    Totals(s.engines, s.produced, s.counts.dropped, s.counts.delayed) == RunTotals(es, ins)
  }

  datatype Totals = Totals(engines: Engines, scheduled: seq<ScheduledPacket>, lost: nat, delayed: nat)

  /** What a run of the engines comes to. */
  function RunTotals(es: Engines, ins: seq<Input>): Totals {
    var ms := EmissionsOfBoth(es, ins);
    Totals(RunBoth(es, ins), ScheduledOf(ms), LostIn(ms), DelayedIn(ms))
  }

  ghost predicate RanAt(run: seq<Sys>, events: seq<Event>, es: Engines, i: nat) {
    i < |run| && i <= |events| && Ran(es, run[i], AllInputs(events, i))
  }

  ghost predicate CarriedOn(run: seq<Sys>, events: seq<Event>, es: Engines) {
    RanAt(run, events, es, 0) && forall i: nat :: i < |events| && RanAt(run, events, es, i) ==> RanAt(run, events, es, i + 1)
  }

  lemma {:induction false} CarriedTo(run: seq<Sys>, events: seq<Event>, es: Engines, i: nat)
    requires CarriedOn(run, events, es) && i <= |events|
    ensures RanAt(run, events, es, i)
  {
    if i > 0 { CarriedTo(run, events, es, i - 1); }
  }

  lemma {:induction false} RunsOn(run: seq<Sys>, events: seq<Event>, es: Engines, i: nat)
    requires IsSysRun(run, events) && i < |events| && RanAt(run, events, es, i)
    ensures RanAt(run, events, es, i + 1)
  {
    assert SysStepAt(run, events, i);
    StepRuns(es, run[i], events[i], run[i + 1], AllInputs(events, i));
  }

  /** The engines' state is carried from batch to batch: over the whole run they are the engines run
      on all targeted packets in order, every copy produced for the queue is one they schedule, and
      the totals of dropped and delayed packets are theirs. So whatever holds of a run of the engines
      holds here. */
  lemma {:induction false} EnginesOverRun(run: seq<Sys>, events: seq<Event>, i: nat)
    requires IsSysRun(run, events) && i < |run|
    ensures Ran(run[0].engines, run[i], AllInputs(events, i))
  {
    var es := run[0].engines;
    NothingRan(run[0], AllInputs(events, 0));
    forall k: nat | k < |events| && RanAt(run, events, es, k) ensures RanAt(run, events, es, k + 1) {
      RunsOn(run, events, es, k);
    }
    CarriedTo(run, events, es, i);
  }

  lemma NothingRan(s: Sys, none: seq<Input>)
    requires SysInit(s) && none == []
    ensures Ran(s.engines, s, none)
  {
  }

  lemma StepRuns(es: Engines, s: Sys, e: Event, t: Sys, before: seq<Input>)
    requires SysStep(s, e, t) && Ran(es, s, before)
    ensures Ran(es, t, before + NewInputs(e))
  {
    if e.Receive? {
      ReceiveRuns(es, s, e, t, before);
    } else {
      EnginesSame(s, e, t);
      assert before + [] == before;
    }
  }

  /** Going on from where the engines are. */
  lemma {:induction false} RanOn(es: Engines, s: Sys, t: Sys, a: seq<Input>, b: seq<Input>, ms: seq<Emission>)
    requires Ran(es, s, a) && ms == EmissionsOfBoth(s.engines, b)
    requires t.engines == RunBoth(s.engines, b) && t.produced == s.produced + ScheduledOf(ms) && Marked(s.counts, t.counts, ms)
    ensures Ran(es, t, a + b)
  {
    RunBothConcat(es, a, b);
    ScheduledConcat(EmissionsOfBoth(es, a), ms);
    MarkedOn(NO_COUNTS, s.counts, t.counts, EmissionsOfBoth(es, a), ms);
  }

  lemma MarkedPlus(c: Counts, d: Counts, ms: seq<Emission>)
    requires Marked(NO_COUNTS, d, ms)
    ensures Marked(c, Plus(c, d), ms)
  {
  }

  lemma {:induction false} ReceiveRuns(es: Engines, s: Sys, e: Event, t: Sys, before: seq<Input>)
    requires e.Receive? && SysStep(s, e, t) && Ran(es, s, before)
    ensures |e.addrs| == |e.envs| && Ran(es, t, before + EngineInputs(e.recv, e.addrs, e.envs))
  {
    var ins := EngineInputs(e.recv, e.addrs, e.envs);
    var ms := EmissionsOfBoth(s.engines, ins);
    BatchEngages(s.engines, e.recv, e.addrs, e.envs);
    MarkedPlus(s.counts, WalkBatch(s.engines, e.recv, e.addrs, e.envs).counts, ms);
    RanOn(es, s, t, before, ins, ms);
  }

  lemma EnginesSame(s: Sys, e: Event, t: Sys)
    requires !e.Receive? && SysStep(s, e, t)
    ensures t.engines == s.engines && t.produced == s.produced && t.counts == s.counts
  {
  }

  // ----- The order of pushes -----

  /** `all` is a and b shuffled together, each in its own order. */
  predicate Merges(all: seq<ScheduledPacket>, a: seq<ScheduledPacket>, b: seq<ScheduledPacket>) {
    if all == [] then a == [] && b == []
    else
      var last, rest := all[|all| - 1], all[..|all| - 1];
      || (a != [] && a[|a| - 1] == last && Merges(rest, a[..|a| - 1], b))
      || (b != [] && b[|b| - 1] == last && Merges(rest, a, b[..|b| - 1]))
  }

  /** `todo` is what is left of `produced`; what came before it was taken or given up, in order. */
  predicate Placed(produced: seq<ScheduledPacket>, todo: seq<ScheduledPacket>, taken: seq<ScheduledPacket>, gaveUp: seq<ScheduledPacket>) {
    && |todo| <= |produced| && produced[|produced| - |todo|..] == todo
    && Merges(produced[..|produced| - |todo|], taken, gaveUp)
  }

  /** What Push has taken, that is accepted or has in hand. */
  function Taken(q: State): seq<ScheduledPacket> {
    q.accepted + InHand(q.producer)
  }

  lemma TakenNext(s: State, a: Action, t: State)
    requires Step(s, a, t)
    ensures Taken(t) == Taken(s) + (if a.PushBegin? then [a.pkt] else [])
  {
    if !ByProducer(a) { DrainMoves(s, a, t); }
    else if !a.PushHandOff? { HandMoves(s, a, t); }
  }

  lemma MergesNext(all: seq<ScheduledPacket>, a: seq<ScheduledPacket>, b: seq<ScheduledPacket>, p: ScheduledPacket)
    requires Merges(all, a, b)
    ensures Merges(all + [p], a + [p], b) && Merges(all + [p], a, b + [p])
  {
    assert (all + [p])[..|all|] == all && (a + [p])[..|a|] == a && (b + [p])[..|b|] == b;
  }

  lemma PlacedMore(produced: seq<ScheduledPacket>, todo: seq<ScheduledPacket>, taken: seq<ScheduledPacket>, gaveUp: seq<ScheduledPacket>)
    requires Placed(produced, [], taken, gaveUp)
    ensures Placed(produced + todo, todo, taken, gaveUp)
  {
    assert (produced + todo)[..|produced|] == produced[..|produced| - 0];
  }

  lemma PlacedNext(produced: seq<ScheduledPacket>, todo: seq<ScheduledPacket>, taken: seq<ScheduledPacket>, gaveUp: seq<ScheduledPacket>)
    requires Placed(produced, todo, taken, gaveUp) && todo != []
    ensures Placed(produced, todo[1..], taken + [todo[0]], gaveUp)
    ensures Placed(produced, todo[1..], taken, gaveUp + [todo[0]])
  {
    var n := |produced| - |todo|;
    assert produced[n + 1..] == produced[n..][1..];
    assert produced[..n + 1] == produced[..n] + [produced[n..][0]];
    MergesNext(produced[..n], taken, gaveUp, todo[0]);
  }

  lemma OrderKept(s: Sys, e: Event, t: Sys)
    requires Between(s) && SysStep(s, e, t) && Placed(s.produced, s.todo, Taken(s.queue), s.gaveUp)
    ensures Placed(t.produced, t.todo, Taken(t.queue), t.gaveUp)
  {
    match e
    case Receive(_, _, _) => PlacedMore(s.produced, t.todo, Taken(s.queue), s.gaveUp);
    case SendNow =>
    case Queue(a) =>
      TakenNext(s.queue, a, t.queue);
      if a.PushBegin? || a.PushExhausted? { PlacedNext(s.produced, s.todo, Taken(s.queue), s.gaveUp); }
      assert Taken(s.queue) + [] == Taken(s.queue);
  }

  predicate InOrder(s: Sys) {
    Placed(s.produced, s.todo, Taken(s.queue), s.gaveUp)
  }

  lemma OrderAtStart(s: Sys)
    requires SysInit(s)
    ensures InOrder(s)
  {
  }

  lemma {:induction false} OrderNext(run: seq<Sys>, events: seq<Event>, i: nat)
    requires IsSysRun(run, events) && i < |events| && InOrder(run[i])
    ensures InOrder(run[i + 1])
  {
    SysSafety(run, events, i);
    assert SysStepAt(run, events, i);
    OrderKept(run[i], events[i], run[i + 1]);
  }

  /** In every interleaving, copies are pushed in the order in which the engines produced them: what
      was accepted, is in hand or was given up is all that came before what is still to be pushed. */
  lemma {:induction false} PushedInOrder(run: seq<Sys>, events: seq<Event>, i: nat)
    requires IsSysRun(run, events) && i < |run|
    ensures InOrder(run[i])
  {
    if i == 0 {
      OrderAtStart(run[0]);
    } else {
      PushedInOrder(run, events, i - 1);
      OrderNext(run, events, i - 1);
    }
  }

  /** Seen from the delay queue, a run of the pipeline is a run of its protocol. */
  lemma {:induction false} QueueRun(run: seq<Sys>, events: seq<Event>, i: nat) returns (states: seq<State>, acts: seq<Action>)
    requires IsSysRun(run, events) && i < |run|
    ensures IsRun(states, acts) && states[|acts|] == run[i].queue
  {
    if i == 0 { return [run[0].queue], []; }
    states, acts := QueueRun(run, events, i - 1);
    assert SysStepAt(run, events, i - 1);
    if events[i - 1].Queue? {
      Alone(run[i - 1].queue, events[i - 1].act, run[i].queue);
      Chain(states[0], states, acts, run[i - 1].queue, [run[i - 1].queue, run[i].queue], [events[i - 1].act], run[i].queue);
      states, acts := states + [run[i].queue], acts + [events[i - 1].act];
    }
  }

  /** Conservation over a whole run, in every interleaving: once stopped, everything captured is
      accounted for, each delayed packet by exactly one send attempt, and every slot is free. */
  lemma Conservation(run: seq<Sys>, events: seq<Event>, i: nat)
    requires IsSysRun(run, events) && i < |run| && run[i].queue.drain.Stopped?
    ensures var s := run[i];
            && s.captured - s.unreached - s.counts.dropped - s.counts.oversized + s.counts.duplicated == s.immediate + |s.queue.wire| + s.queue.exhausted
            && multiset(s.produced) == multiset(s.queue.wire) + multiset(s.gaveUp)
            && Listing(s.queue.sent, |s.queue.accepted|)
            && forall x: nat :: multiset(s.queue.free)[x] == One(x < POOL_CAPACITY)
  {
    var s := run[i];
    SysSafety(run, events, i);
    StoppedSent(s.queue);
    StoppedFrees(s.queue);
    assert s.queue.producer.Exited?;
    assert |multiset(s.produced)| == |multiset(s.queue.accepted)| + |multiset(s.gaveUp)|;
  }

  /** A batch event made of these well-formed packets. */
  ghost predicate MadeOf(e: Event, chunks: seq<seq<Byte>>) {
    && e.Receive? && |chunks| == |e.addrs| == |e.envs|
    && Frames(chunks, e.envs) && Flatten(chunks) == e.recv
  }

  ghost predicate WellFormedAt(events: seq<Event>, i: nat)
    requires i < |events|
  {
    events[i].Receive? ==> exists chunks :: MadeOf(events[i], chunks)
  }

  /** Every batch of the run is made of well-formed packets. */
  ghost predicate WellFormed(events: seq<Event>) {
    forall i :: 0 <= i < |events| ==> WellFormedAt(events, i)
  }

  /** On well-formed batches the walk reaches every packet. */
  lemma {:induction false} NothingUnreached(run: seq<Sys>, events: seq<Event>, i: nat)
    requires IsSysRun(run, events) && WellFormed(events) && i < |run|
    ensures run[i].unreached == 0
  {
    if i > 0 {
      NothingUnreached(run, events, i - 1);
      assert SysStepAt(run, events, i - 1) && WellFormedAt(events, i - 1);
      var e := events[i - 1];
      if e.Receive? {
        var chunks :| MadeOf(e, chunks);
        AllReached(chunks, e.envs);
      }
    }
  }

  /** Captured and extra copies = dropped + oversized + sent at once + delayed and sent once + given
      up for want of a slot. */
  lemma WellFormedConservation(run: seq<Sys>, events: seq<Event>, i: nat)
    requires IsSysRun(run, events) && WellFormed(events) && i < |run| && run[i].queue.drain.Stopped?
    ensures var s := run[i];
            s.captured + s.counts.duplicated == s.counts.dropped + s.counts.oversized + s.immediate + |s.queue.wire| + s.queue.exhausted
  {
    Conservation(run, events, i);
    NothingUnreached(run, events, i);
  }

  /** Packet p is a delayed copy of a packet captured in event e. */
  ghost predicate CapturedIn(p: ScheduledPacket, e: Event) {
    exists chunks :: MadeOf(e, chunks) && FromBatch(p, chunks, e.addrs, e.envs)
  }

  ghost predicate Captured(p: ScheduledPacket, events: seq<Event>, n: nat)
    requires n <= |events|
  {
    exists i :: 0 <= i < n && CapturedIn(p, events[i])
  }

  lemma ReceiveProduces(s: Sys, e: Event, t: Sys)
    requires e.Receive? && SysStep(s, e, t) && exists chunks :: MadeOf(e, chunks)
    ensures forall p :: p in t.produced ==> p in s.produced || CapturedIn(p, e)
  {
    var chunks :| MadeOf(e, chunks);
    PushesFromBatch(s.engines, chunks, e.addrs, e.envs);
  }

  ghost predicate AllCaptured(ps: seq<ScheduledPacket>, events: seq<Event>, n: nat)
    requires n <= |events|
  {
    forall p :: p in ps ==> Captured(p, events, n)
  }

  lemma CapturedNext(ps: seq<ScheduledPacket>, qs: seq<ScheduledPacket>, events: seq<Event>, n: nat)
    requires n < |events| && AllCaptured(ps, events, n)
    requires forall p :: p in qs ==> p in ps || CapturedIn(p, events[n])
    ensures AllCaptured(qs, events, n + 1)
  {
    forall p | p in qs ensures Captured(p, events, n + 1) {
      if p in ps {
        var j :| 0 <= j < n && CapturedIn(p, events[j]);
      }
    }
  }

  lemma {:induction false} ProducedCaptured(run: seq<Sys>, events: seq<Event>, i: nat)
    requires IsSysRun(run, events) && WellFormed(events) && i < |run|
    ensures AllCaptured(run[i].produced, events, i)
  {
    if i > 0 {
      ProducedCaptured(run, events, i - 1);
      assert SysStepAt(run, events, i - 1) && WellFormedAt(events, i - 1);
      if events[i - 1].Receive? { ReceiveProduces(run[i - 1], events[i - 1], run[i]); }
      else { EnginesSame(run[i - 1], events[i - 1], run[i]); }
      CapturedNext(run[i - 1].produced, run[i].produced, events, i - 1);
    }
  }

  lemma Within(a: seq<ScheduledPacket>, b: seq<ScheduledPacket>, p: ScheduledPacket)
    requires multiset(a) <= multiset(b) && p in a
    ensures p in b
  {
    assert p in multiset(a);
  }

  /** Nothing is invented: at any time of a run on well-formed batches, whatever the delay queue has
      sent is a delayed copy of a captured packet, with its bytes and its address. */
  lemma NothingInvented(run: seq<Sys>, events: seq<Event>, i: nat, j: nat)
    requires IsSysRun(run, events) && WellFormed(events) && i < |run| && j < |run[i].queue.wire|
    ensures Captured(run[i].queue.wire[j], events, i)
  {
    var s := run[i];
    SysSafety(run, events, i);
    ProducedCaptured(run, events, i);
    assert s.queue.wire[j] == s.queue.accepted[s.queue.sent[j]];
    Within(s.queue.accepted, s.produced, s.queue.wire[j]);
  }
}

/** The protocol paths that the methods of DelayQueue amount to when nothing interleaves. */
module DelayPaths {
  import opened Packets
  import opened ScheduledPackets
  import opened DelayProtocol
  import opened DelayTheorems

  ghost predicate Leads(s: State, states: seq<State>, acts: seq<Action>, t: State) {
    IsPath(states, acts) && states[0] == s && states[|acts|] == t
  }

  /** A step in front of a path. */
  lemma Before(s: State, a: Action, m: State, states: seq<State>, acts: seq<Action>, t: State)
    requires Step(s, a, m) && Leads(m, states, acts, t)
    ensures Leads(s, [s] + states, [a] + acts, t)
  {
    forall i | 0 <= i < |acts| + 1 ensures StepAt([s] + states, [a] + acts, i) {
      if i > 0 { assert StepAt(states, acts, i - 1); }
    }
  }

  /** Two paths end to end. */
  lemma Chain(s: State, ms: seq<State>, ma: seq<Action>, m: State, states: seq<State>, acts: seq<Action>, t: State)
    requires Leads(s, ms, ma, m) && Leads(m, states, acts, t)
    ensures Leads(s, ms + states[1..], ma + acts, t)
  {
    var r, b := ms + states[1..], ma + acts;
    forall i | 0 <= i < |b| ensures StepAt(r, b, i) {
      if i < |ma| { assert StepAt(ms, ma, i); } else { assert StepAt(states, acts, i - |ma|); }
    }
  }

  /** What an uninterrupted call of Push does. */
  function Pushed(s: State, packet: ScheduledPacket): State {
    if s.free == [] then s.(exhausted := s.exhausted + 1)
    else
      var h := s.free[0];
      s.(pool := Store(s.pool, h, packet), free := s.free[1..], handoff := s.handoff + [h],
         accepted := s.accepted + [packet], carrier := s.carrier + [h], tag := Store(s.tag, h, |s.accepted|))
  }

  /** A path of one step. */
  lemma Alone(s: State, a: Action, t: State)
    requires Step(s, a, t)
    ensures Leads(s, [s, t], [a], t)
  {
    Before(s, a, t, [t], [], t);
  }

  lemma ClaimPath(s: State, p: ScheduledPacket)
    requires s.producer.Outside? && s.free != []
    ensures Leads(s, [s, s.(producer := SawFront(p, s.free[0])), s.(free := s.free[1..], producer := Claimed(p, s.free[0]))],
                  [PushBegin(p), PushClaim], s.(free := s.free[1..], producer := Claimed(p, s.free[0])))
  {
    var a := s.(producer := SawFront(p, s.free[0]));
    var b := s.(free := s.free[1..], producer := Claimed(p, s.free[0]));
    Alone(a, PushClaim, b);
    Before(s, PushBegin(p), a, [a, b], [PushClaim], b);
  }

  /** The two halves of the slot assignment, then the handover. */
  lemma WritePath(s: State, t: State) returns (states: seq<State>, acts: seq<Action>)
    requires s.producer.Claimed? && s.producer.slot < |s.pool| && |s.handoff| < POOL_CAPACITY
    requires var h, p := s.producer.slot, s.producer.pkt;
             t == s.(pool := Store(s.pool, h, p), handoff := s.handoff + [h], producer := Outside,
                     accepted := s.accepted + [p], carrier := s.carrier + [h], tag := Store(s.tag, h, |s.accepted|))
    ensures Leads(s, states, acts, t)
  {
    var h, p := s.producer.slot, s.producer.pkt;
    var a := s.(pool := Store(s.pool, h, s.pool[h].(packet := p.packet)), producer := HalfWritten(p, h));
    var b := s.(pool := Store(s.pool, h, p), producer := Written(p, h));
    assert b.pool == Store(a.pool, h, a.pool[h].(releaseAt := p.releaseAt));
    Alone(b, PushHandOff, t);
    Before(a, WriteRelease, b, [b, t], [PushHandOff], t);
    Before(s, WritePayload, a, [a, b, t], [WriteRelease, PushHandOff], t);
    states, acts := [s, a, b, t], [WritePayload, WriteRelease, PushHandOff];
  }

  lemma PushPath(s: State, p: ScheduledPacket) returns (states: seq<State>, acts: seq<Action>)
    requires Own(s) && s.producer.Outside?
    ensures Leads(s, states, acts, Pushed(s, p))
  {
    var t := Pushed(s, p);
    if s.free == [] {
      Alone(s, PushExhausted(p), t);
      return [s, t], [PushExhausted(p)];
    }
    Room(s);
    ClaimPath(s, p);
    var a := s.(producer := SawFront(p, s.free[0]));
    var b := s.(free := s.free[1..], producer := Claimed(p, s.free[0]));
    var ws, wa := WritePath(b, t);
    Chain(s, [s, a, b], [PushBegin(p), PushClaim], b, ws, wa, t);
    states, acts := [s, a, b] + ws[1..], [PushBegin(p), PushClaim] + wa;
  }

  lemma Room(s: State)
    requires Own(s) && s.free != []
    ensures s.free[0] < POOL_CAPACITY && |s.handoff| < POOL_CAPACITY
  {
    var h := s.free[0];
    assert Claims(s, h) == One(h < POOL_CAPACITY);
    Member(s.free, h);
    if s.drain.Copied? { Member(s.heap, s.drain.slot); assert Claims(s, s.drain.slot) == One(s.drain.slot < POOL_CAPACITY); }
  }

  /** The heaps between successive pushes of q's slots. */
  ghost predicate PushTrail(pool: seq<ScheduledPacket>, q: seq<nat>, trail: seq<seq<nat>>) {
    |trail| == |q| + 1 && forall i :: 0 <= i < |q| ==> PushedAt(pool, q, trail, i)
  }

  ghost predicate PushedAt(pool: seq<ScheduledPacket>, q: seq<nat>, trail: seq<seq<nat>>, i: nat)
    requires i < |q| && |trail| == |q| + 1
  {
    StdPush(pool, trail[i], q[i], trail[i + 1])
  }

  lemma PushTrailOne(pool: seq<ScheduledPacket>, q: seq<nat>, trail: seq<seq<nat>>, x: nat, q': seq<nat>)
    requires PushTrail(pool, q, trail) && StdPush(pool, trail[|q|], x, q')
    ensures PushTrail(pool, q + [x], trail + [q'])
  {
    var all, t := q + [x], trail + [q'];
    forall i | 0 <= i < |all| ensures PushedAt(pool, all, t, i) {
      if i < |q| { assert PushedAt(pool, q, trail, i); }
    }
  }

  lemma PushTrailTail(pool: seq<ScheduledPacket>, q: seq<nat>, trail: seq<seq<nat>>)
    requires PushTrail(pool, q, trail) && q != []
    ensures StdPush(pool, trail[0], q[0], trail[1]) && PushTrail(pool, q[1..], trail[1..])
  {
    assert PushedAt(pool, q, trail, 0);
    var all, t := q[1..], trail[1..];
    forall i | 0 <= i < |all| ensures PushedAt(pool, all, t, i) { assert PushedAt(pool, q, trail, i + 1); }
  }

  lemma {:induction false} HandoffPath(s: State, trail: seq<seq<nat>>) returns (states: seq<State>, acts: seq<Action>)
    requires s.drain.Handoff? && PushTrail(s.pool, s.handoff, trail) && trail[0] == s.heap
    ensures Leads(s, states, acts, s.(handoff := [], heap := trail[|s.handoff|]))
    decreases |s.handoff|
  {
    if s.handoff == [] { return [s], []; }
    var x := s.handoff[0];
    var m := s.(heap := trail[1], drain := Copied(x));
    var n := m.(handoff := s.handoff[1..], drain := Handoff);
    var t := s.(handoff := [], heap := trail[|s.handoff|]);
    PushTrailTail(s.pool, s.handoff, trail);
    states, acts := HandoffPath(n, trail[1..]);
    Before(m, PopHandoff, n, states, acts, t);
    Before(s, CopyToHeap(trail[1]), m, [m] + states, [PopHandoff] + acts, t);
    states, acts := [s] + ([m] + states), [CopyToHeap(trail[1])] + ([PopHandoff] + acts);
  }

  /** PopReady has handed the slots in `out` to the callback, which packed them. */
  function Packed(s: State, out: seq<nat>, q: seq<nat>, now: Time): State
    requires AllBelow(out, |s.pool|) && AllBelow(out, |s.tag|)
  {
    s.(heap := q, batch := s.batch + out, sendBuf := s.sendBuf + Select(s.pool, out),
       sent := s.sent + Select(s.tag, out), clock := s.clock + Repeat(now, |out|))
  }

  lemma {:induction false} PopPath(s: State, out: seq<nat>, trail: seq<seq<nat>>, now: Time)
    returns (states: seq<State>, acts: seq<Action>)
    requires s.drain == Popping(now) && AllBelow(out, |s.pool|) && AllBelow(out, |s.tag|)
    requires PopTrail(s.pool, s.heap, out, trail)
    requires forall x :: x in out ==> Release(s.pool, x) <= now
    requires |s.batch| + |out| <= BATCH_SIZE
    ensures Leads(s, states, acts, Packed(s, out, trail[|out|], now))
    decreases |out|
  {
    var t := Packed(s, out, trail[|out|], now);
    if out == [] { return [s], []; }
    var x := out[0];
    assert TrailAt(s.pool, out, trail, 0);
    assert x in out;
    var m := Packed(s, [x], trail[1], now);
    assert m == Leave(s, x).(heap := trail[1], batch := s.batch + [x], sendBuf := s.sendBuf + [s.pool[x]], clock := s.clock + [now]);
    TrailTail(s.pool, s.heap, out, trail);
    assert forall y :: y in out[1..] ==> y in out;
    states, acts := PopPath(m, out[1..], trail[1..], now);
    PackedTwice(s, out, trail[1], trail[|out|], now);
    Before(s, PopDue(trail[1]), m, states, acts, t);
    states, acts := [s] + states, [PopDue(trail[1])] + acts;
  }

  lemma TrailTail(pool: seq<ScheduledPacket>, q: seq<nat>, out: seq<nat>, trail: seq<seq<nat>>)
    requires PopTrail(pool, q, out, trail) && out != []
    ensures PopTrail(pool, trail[1], out[1..], trail[1..])
  {
    forall i | 0 <= i < |out| - 1 ensures TrailAt(pool, out[1..], trail[1..], i) {
      assert TrailAt(pool, out, trail, i + 1);
    }
  }

  /** Appending the first selection and then the others. */
  lemma SelectInTwo<T>(front: seq<T>, items: seq<T>, q: seq<nat>)
    requires q != [] && AllBelow(q, |items|)
    ensures front + Select(items, [q[0]]) + Select(items, q[1..]) == front + Select(items, q)
  {
    var one, rest, all := Select(items, [q[0]]), Select(items, q[1..]), Select(items, q);
    Assoc(front, one, rest, all);
  }

  lemma Assoc<T>(a: seq<T>, b: seq<T>, c: seq<T>, d: seq<T>)
    requires |b| == 1 && |d| == 1 + |c| && d[0] == b[0] && forall i :: 0 <= i < |c| ==> d[i + 1] == c[i]
    ensures a + b + c == a + d
  {
  }

  lemma PackedTwice(s: State, out: seq<nat>, q1: seq<nat>, q: seq<nat>, now: Time)
    requires out != [] && AllBelow(out, |s.pool|) && AllBelow(out, |s.tag|)
    ensures Packed(Packed(s, [out[0]], q1, now), out[1..], q, now) == Packed(s, out, q, now)
  {
    SelectInTwo(s.sendBuf, s.pool, out);
    SelectInTwo(s.sent, s.tag, out);
    Assoc(s.batch, [out[0]], out[1..], out);
    assert Repeat(now, 1) == [now];
    Assoc(s.clock, [now], Repeat(now, |out| - 1), Repeat(now, |out|));
  }

  lemma {:induction false} ReturnPath(s: State) returns (states: seq<State>, acts: seq<Action>)
    requires s.drain.Returning? && |s.free| + |s.batch| <= POOL_CAPACITY
    ensures Leads(s, states, acts, s.(free := s.free + s.batch, batch := [], drain := LoopTop))
    decreases |s.batch|
  {
    var t := s.(free := s.free + s.batch, batch := [], drain := LoopTop);
    if s.batch == [] {
      Before(s, BatchReturned, t, [t], [], t);
      return [s, t], [BatchReturned];
    }
    var m := s.(free := s.free + [s.batch[0]], batch := s.batch[1..]);
    assert m.free + m.batch == s.free + s.batch;
    states, acts := ReturnPath(m);
    Before(s, ReturnSlot, m, states, acts, t);
    states, acts := [s] + states, [ReturnSlot] + acts;
  }

  /** One iteration of the drain loop: the handoff queue goes through the heap, and what is due
      by `now`, up to a batch, is sent and its slots freed. */
  function Drained(s: State, out: seq<nat>, q: seq<nat>, now: Time): State
    requires AllBelow(out, |s.pool|) && AllBelow(out, |s.tag|)
  {
    s.(handoff := [], heap := q, free := s.free + out, wire := s.wire + Select(s.pool, out),
       sent := s.sent + Select(s.tag, out), clock := s.clock + Repeat(now, |out|))
  }

  lemma DrainPath(s: State, pushes: seq<seq<nat>>, out: seq<nat>, pops: seq<seq<nat>>, now: Time)
    returns (states: seq<State>, acts: seq<Action>)
    requires s.drain.LoopTop? && s.running && s.batch == [] && s.sendBuf == []
    requires AllBelow(out, |s.pool|) && AllBelow(out, |s.tag|) && |s.free| + |out| <= POOL_CAPACITY
    requires PushTrail(s.pool, s.handoff, pushes) && pushes[0] == s.heap
    requires PopTrail(s.pool, pushes[|s.handoff|], out, pops)
    requires |out| == Min(BATCH_SIZE, |out|)
    requires forall x :: x in out ==> Release(s.pool, x) <= now
    requires |out| < BATCH_SIZE && pops[|out|] != [] ==> pops[|out|][0] < |s.pool| && Release(s.pool, pops[|out|][0]) > now
    ensures Leads(s, states, acts, Drained(s, out, pops[|out|], now))
  {
    var a := s.(drain := Handoff);
    var b := a.(handoff := [], heap := pushes[|s.handoff|]);
    var c := b.(drain := Popping(now));
    var d := Packed(c, out, pops[|out|], now);
    var t := Drained(s, out, pops[|out|], now);
    var hs, ha := HandoffPath(a, pushes);
    var ps, pa := PopPath(c, out, pops, now);
    var rs, ra := SendPath(d, out, t);
    Chain(c, ps, pa, d, rs, ra, t);
    Before(b, ReadClock(now), c, ps + rs[1..], pa + ra, t);
    Chain(a, hs, ha, b, [b] + (ps + rs[1..]), [ReadClock(now)] + (pa + ra), t);
    states, acts := hs + ([b] + (ps + rs[1..]))[1..], ha + ([ReadClock(now)] + (pa + ra));
    Before(s, LoopEnter, a, states, acts, t);
    states, acts := [s] + states, [LoopEnter] + acts;
  }

  lemma SendPath(d: State, out: seq<nat>, t: State) returns (states: seq<State>, acts: seq<Action>)
    requires d.drain.Popping? && d.batch == out && !Due(d) && |d.free| + |out| <= POOL_CAPACITY
    requires out == [] ==> d.sendBuf == []
    requires t == d.(wire := d.wire + d.sendBuf, sendBuf := [], free := d.free + out, batch := [], drain := LoopTop)
    ensures Leads(d, states, acts, t)
  {
    if out == [] {
      Before(d, NothingDue, t, [t], [], t);
      return [d, t], [NothingDue];
    }
    var e := d.(wire := d.wire + d.sendBuf, sendBuf := [], drain := Returning);
    states, acts := ReturnPath(e);
    Before(d, SendBatch, e, states, acts, t);
    states, acts := [d] + states, [SendBatch] + acts;
  }

  /** Slots reinjected one by one and given back. */
  function Flushed(s: State, out: seq<nat>): State
    requires AllBelow(out, |s.pool|) && AllBelow(out, |s.tag|)
  {
    s.(free := s.free + out, wire := s.wire + Select(s.pool, out), sent := s.sent + Select(s.tag, out))
  }

  lemma FlushedTwice(s: State, out: seq<nat>)
    requires out != [] && AllBelow(out, |s.pool|) && AllBelow(out, |s.tag|)
    ensures Flushed(Flushed(s, [out[0]]), out[1..]) == Flushed(s, out)
  {
    SelectInTwo(s.wire, s.pool, out);
    SelectInTwo(s.sent, s.tag, out);
    Assoc(s.free, [out[0]], out[1..], out);
  }

  lemma FlushedOne(s: State, x: nat)
    requires x < |s.pool| && x < |s.tag|
    ensures Flushed(s, [x]) == s.(free := s.free + [x], wire := s.wire + [s.pool[x]], sent := s.sent + [s.tag[x]])
  {
    assert Select(s.pool, [x]) == [s.pool[x]];
    assert Select(s.tag, [x]) == [s.tag[x]];
  }

  lemma FlushOnePath(s: State) returns (states: seq<State>, acts: seq<Action>)
    requires s.drain.FlushHandoff? && |s.free| < POOL_CAPACITY && s.handoff != []
    requires s.handoff[0] < |s.pool| && s.handoff[0] < |s.tag|
    ensures Leads(s, states, acts, Flushed(s, [s.handoff[0]]).(handoff := s.handoff[1..]))
  {
    var x := s.handoff[0];
    var a := Leave(s, x).(wire := s.wire + [s.pool[x]], drain := FlushSent(x));
    var b := a.(handoff := s.handoff[1..], drain := FlushPopped(x));
    var c := b.(free := s.free + [x], drain := FlushHandoff);
    FlushedOne(s, x);
    ReturnFlushed(a, s.handoff[1..]);
    Before(s, FlushSend, a, [a, b, c], [FlushPop, FlushFree], c);
    states, acts := [s, a, b, c], [FlushSend, FlushPop, FlushFree];
  }

  /** A reinjected front entry leaves the handoff queue and becomes free. */
  lemma ReturnFlushed(a: State, rest: seq<nat>)
    requires a.drain.FlushSent? && |a.free| < POOL_CAPACITY && rest == PopFront(a.handoff)
    ensures var b := a.(handoff := rest, drain := FlushPopped(a.drain.slot));
            var c := b.(free := a.free + [a.drain.slot], drain := FlushHandoff);
            Leads(a, [a, b, c], [FlushPop, FlushFree], c)
  {
    var b := a.(handoff := rest, drain := FlushPopped(a.drain.slot));
    var c := b.(free := a.free + [a.drain.slot], drain := FlushHandoff);
    Alone(b, FlushFree, c);
    Before(a, FlushPop, b, [b, c], [FlushFree], c);
  }

  lemma {:induction false} FlushHandoffPath(s: State) returns (states: seq<State>, acts: seq<Action>)
    requires s.drain.FlushHandoff? && |s.free| + |s.handoff| <= POOL_CAPACITY
    requires AllBelow(s.handoff, |s.pool|) && AllBelow(s.handoff, |s.tag|)
    ensures Leads(s, states, acts, Flushed(s, s.handoff).(handoff := [], drain := FlushHeap))
    decreases |s.handoff|
  {
    var t := Flushed(s, s.handoff).(handoff := [], drain := FlushHeap);
    if s.handoff == [] {
      Alone(s, HandoffFlushed, t);
      return [s, t], [HandoffFlushed];
    }
    var c := Flushed(s, [s.handoff[0]]).(handoff := s.handoff[1..]);
    var os, oa := FlushOnePath(s);
    FlushedTwice(s, s.handoff);
    states, acts := FlushHandoffPath(c);
    Chain(s, os, oa, c, states, acts, t);
    states, acts := os + states[1..], oa + acts;
  }

  lemma FlushTopPath(s: State, q: seq<nat>) returns (states: seq<State>, acts: seq<Action>)
    requires s.drain.FlushHeap? && |s.free| < POOL_CAPACITY && s.heap != []
    requires s.heap[0] < |s.pool| && s.heap[0] < |s.tag| && StdPop(s.pool, s.heap, q)
    ensures Leads(s, states, acts, Flushed(s, [s.heap[0]]).(heap := q))
  {
    var x := s.heap[0];
    var a := s.(heap := q, drain := FlushTaken(x));
    var b := Leave(a, x).(wire := s.wire + [s.pool[x]], drain := FlushDone(x));
    var c := b.(free := s.free + [x], drain := FlushHeap);
    FlushedOne(s, x);
    ReinjectTaken(a);
    Before(s, FlushTake(q), a, [a, b, c], [FlushHeapSend, FlushHeapFree], c);
    states, acts := [s, a, b, c], [FlushTake(q), FlushHeapSend, FlushHeapFree];
  }

  /** A slot taken off the heap is reinjected and becomes free. */
  lemma ReinjectTaken(a: State)
    requires a.drain.FlushTaken? && a.drain.slot < |a.pool| && a.drain.slot < |a.tag| && |a.free| < POOL_CAPACITY
    ensures var x := a.drain.slot;
            var b := Leave(a, x).(wire := a.wire + [a.pool[x]], drain := FlushDone(x));
            var c := b.(free := a.free + [x], drain := FlushHeap);
            Leads(a, [a, b, c], [FlushHeapSend, FlushHeapFree], c)
  {
    var x := a.drain.slot;
    var b := Leave(a, x).(wire := a.wire + [a.pool[x]], drain := FlushDone(x));
    var c := b.(free := a.free + [x], drain := FlushHeap);
    Alone(b, FlushHeapFree, c);
    Before(a, FlushHeapSend, b, [b, c], [FlushHeapFree], c);
  }

  lemma {:induction false} FlushHeapPath(s: State, out: seq<nat>, trail: seq<seq<nat>>)
    returns (states: seq<State>, acts: seq<Action>)
    requires s.drain.FlushHeap? && |s.free| + |out| <= POOL_CAPACITY
    requires AllBelow(out, |s.pool|) && AllBelow(out, |s.tag|)
    requires PopTrail(s.pool, s.heap, out, trail) && trail[|out|] == []
    ensures Leads(s, states, acts, Flushed(s, out).(heap := [], drain := Stopped))
    decreases |out|
  {
    var t := Flushed(s, out).(heap := [], drain := Stopped);
    if out == [] {
      Alone(s, FlushEnd, t);
      return [s, t], [FlushEnd];
    }
    assert TrailAt(s.pool, out, trail, 0);
    var c := Flushed(s, [out[0]]).(heap := trail[1]);
    var os, oa := FlushTopPath(s, trail[1]);
    FlushedTwice(s, out);
    TrailTail(s.pool, s.heap, out, trail);
    states, acts := FlushHeapPath(c, out[1..], trail[1..]);
    Chain(s, os, oa, c, states, acts, t);
    states, acts := os + states[1..], oa + acts;
  }
}

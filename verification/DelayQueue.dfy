/** The delay queue as code over an array pool, two bounded queues and a heap.

    `run` and `acts` record, as ghost state, the protocol run that the calls made so far amount
    to when they execute one after another; the object is valid when its fields are those of the
    run's last state. DelayTheorems speaks about that run, and about every other interleaving. */
module DelayQueues {
  import opened Packets
  import opened ScheduledPackets
  import opened DelayProtocol
  import opened DelayTheorems
  import opened DelayPaths

  /** The batch and the free queue together never exceed the pool. */
  lemma BatchRoom(s: State, merged: seq<nat>, out: seq<nat>, q: seq<nat>)
    requires AllBelow(s.heap, |s.pool|) && AllBelow(s.handoff, |s.pool|)
    requires |s.free| + |s.handoff| + |s.heap| <= POOL_CAPACITY
    requires multiset(merged) == multiset(s.heap) + multiset(s.handoff)
    requires multiset(out) + multiset(q) == multiset(merged)
    ensures |s.free| + |out| <= POOL_CAPACITY && AllBelow(out, |s.pool|)
  {
    assert multiset(out) <= multiset(s.heap + s.handoff);
    BelowOfBag(|s.pool|, s.heap + s.handoff, out);
    assert |multiset(out) + multiset(q)| == |multiset(s.heap) + multiset(s.handoff)|;
  }

  class DelayQueue {
    const pool: array<ScheduledPacket>              // memory_pool_
    const scheduled: ScheduledPacketQueue           // scheduled_packets_
    var freeQueue: seq<nat>
    var handoffQueue: seq<nat>
    var running: bool
    ghost var run: seq<State>
    ghost var acts: seq<Action>

    ghost predicate Alive()
      reads this
    {
      scheduled.pool == pool && IsRun(run, acts)
    }

    /** The protocol state the object is in. */
    ghost function Now(): State
      reads this
      requires Alive()
    {
      run[|acts|]
    }

    /** The fields are those of the protocol state. */
    ghost predicate Matches(s: State)
      reads this, pool, scheduled
    {
      && s.pool == pool[..] && s.free == freeQueue && s.handoff == handoffQueue
      && s.heap == scheduled.queue && s.running == running
    }

    ghost predicate Valid()
      reads this, pool, scheduled
    {
      Alive() && Matches(Now())
    }

    /** Records the protocol path that a piece of code amounts to. */
    ghost method Follow(states: seq<State>, more: seq<Action>, t: State)
      requires Alive() && Leads(Now(), states, more, t)
      modifies this`run, this`acts
      ensures Alive() && Now() == t && Inv(t)
      ensures old(acts) <= acts
    {
      Chain(run[0], run, acts, Now(), states, more, t);
      run, acts := run + states[1..], acts + more;
      Safety(run, acts, |acts|);
    }

    /** The pool, both queues and the heap, all slots pushed onto the free queue in pool order. */
    constructor ()
      ensures Valid() && fresh(pool) && fresh(scheduled)
      ensures Now().producer == Outside && Now().drain == LoopTop && running
      ensures Now().accepted == [] && Now().wire == [] && |freeQueue| == POOL_CAPACITY
    {
      var none := ScheduledPacket(NO_PACKET, 0);
      var memory := new ScheduledPacket[POOL_CAPACITY](_ => none);
      pool := memory;
      scheduled := new ScheduledPacketQueue(memory);
      freeQueue, handoffQueue, running := [], [], true;
      new;
      for i := 0 to POOL_CAPACITY
        invariant |freeQueue| == i && forall j :: 0 <= j < i ==> freeQueue[j] == j
        invariant handoffQueue == [] && scheduled.queue == [] && running
      {
        freeQueue := freeQueue + [i];
      }
      acts := [];
      run := [State(pool[..], freeQueue, [], [], [], [], Outside, LoopTop, true,
                    [], [], seq(POOL_CAPACITY, _ => 0), [], [], [], 0)];
    }

    method Push(packet: ScheduledPacket)
      requires Valid() && Now().producer.Outside?
      modifies this, pool
      ensures Valid() && old(acts) <= acts
      ensures Now() == Pushed(old(Now()), packet)
    {
      ghost var s := Now();
      Safety(run, acts, |acts|);
      ghost var states, more := PushPath(s, packet);
      if freeQueue != [] {
        Room(s);
        var slot := freeQueue[0];
        freeQueue := freeQueue[1..];
        pool[slot] := packet;
        handoffQueue := handoffQueue + [slot];
      }
      Follow(states, more, Pushed(s, packet));
    }

    /** The inner loop of DrainLoop: every handoff entry goes on the heap. */
    method EmptyHandoff() returns (ghost pushes: seq<seq<nat>>)
      requires scheduled.pool == pool && scheduled.Valid() && AllBelow(handoffQueue, pool.Length)
      modifies this`handoffQueue, scheduled
      ensures scheduled.Valid() && handoffQueue == []
      ensures PushTrail(pool[..], old(handoffQueue), pushes)
      ensures pushes[0] == old(scheduled.queue) && pushes[|old(handoffQueue)|] == scheduled.queue
      ensures multiset(scheduled.queue) == multiset(old(scheduled.queue)) + multiset(old(handoffQueue))
    {
      ghost var all := handoffQueue;
      ghost var k := 0;
      pushes := [scheduled.queue];
      while handoffQueue != []
        invariant 0 <= k <= |all| && handoffQueue == all[k..]
        invariant scheduled.Valid()
        invariant PushTrail(pool[..], all[..k], pushes)
        invariant pushes[0] == old(scheduled.queue) && pushes[k] == scheduled.queue
        invariant multiset(scheduled.queue) == multiset(old(scheduled.queue)) + multiset(all[..k])
        decreases |handoffQueue|
      {
        scheduled.Push(handoffQueue[0]);
        PushTrailOne(pool[..], all[..k], pushes, all[k], scheduled.queue);
        assert all[..k + 1] == all[..k] + [all[k]];
        handoffQueue := handoffQueue[1..];
        pushes := pushes + [scheduled.queue];
        k := k + 1;
      }
      assert all[..k] == all;
    }

    /** The PopReady callback over a whole batch: packets packed back to back, addresses aligned. */
    method Pack(batch: seq<nat>) returns (sendBuf: seq<Byte>, sendAddrs: seq<Address>)
      requires AllBelow(batch, pool.Length)
      ensures sendBuf == PackedBytes(Select(pool[..], batch)) && sendAddrs == PackedAddrs(Select(pool[..], batch))
      ensures |sendAddrs| == |batch| && |sendBuf| <= |batch| * MTU
    {
      sendBuf, sendAddrs := [], [];
      ghost var all := Select(pool[..], batch);
      for i := 0 to |batch|
        invariant sendBuf == PackedBytes(all[..i]) && sendAddrs == PackedAddrs(all[..i])
      {
        assert Payloads(all[..i + 1]) == Payloads(all[..i]) + [all[i].packet];
        PackOne(Payloads(all[..i]), all[i].packet);
        sendBuf := sendBuf + pool[batch[i]].packet.data;
        sendAddrs := sendAddrs + [pool[batch[i]].packet.addr];
      }
      assert all[..|batch|] == all;
      PackedSize(all);
    }

    method ReturnSlots(batch: seq<nat>)
      modifies this`freeQueue
      ensures freeQueue == old(freeQueue) + batch
    {
      for i := 0 to |batch|
        invariant freeQueue == old(freeQueue) + batch[..i]
      {
        freeQueue := freeQueue + [batch[i]];
      }
    }

    /** The body of DrainLoop's outer loop, as memory operations; `pushes` and `pops` are the
        heaps it went through. */
    method DrainOnce(now: Time)
      returns (sendBuf: seq<Byte>, sendAddrs: seq<Address>, ready: seq<nat>, ghost pushes: seq<seq<nat>>, ghost pops: seq<seq<nat>>)
      requires scheduled.pool == pool && scheduled.Valid() && AllBelow(handoffQueue, pool.Length)
      modifies this`handoffQueue, this`freeQueue, scheduled
      ensures scheduled.Valid() && handoffQueue == []
      ensures PushTrail(pool[..], old(handoffQueue), pushes) && pushes[0] == old(scheduled.queue)
      ensures var merged := pushes[|old(handoffQueue)|];
              && multiset(merged) == multiset(old(scheduled.queue)) + multiset(old(handoffQueue))
              && PopsReady(pool[..], merged, now, BATCH_SIZE, ready, scheduled.queue)
              && PopTrail(pool[..], merged, ready, pops) && pops[|ready|] == scheduled.queue
      ensures AllBelow(ready, pool.Length) && freeQueue == old(freeQueue) + ready
      ensures sendBuf == PackedBytes(Select(pool[..], ready)) && sendAddrs == PackedAddrs(Select(pool[..], ready))
      ensures |sendAddrs| == |ready| <= BATCH_SIZE && |sendBuf| <= BATCH_SIZE * MTU
    {
      pushes := EmptyHandoff();
      ready, pops := scheduled.PopReady(now, BATCH_SIZE);
      assert Sorted(pool[..], ready);
      sendBuf, sendAddrs := Pack(ready);
      ReturnSlots(ready);
    }

    /** One iteration of DrainLoop's outer loop, returning what the batch send call is given.
        `merged` is the heap once the handoff queue has been emptied into it. */
    method DrainPass(now: Time)
      returns (sendBuf: seq<Byte>, sendAddrs: seq<Address>, ready: seq<nat>, ghost merged: seq<nat>)
      requires Valid() && Now().drain.LoopTop? && running
      modifies this, scheduled
      ensures Valid() && old(acts) <= acts
      ensures multiset(merged) == multiset(old(scheduled.queue)) + multiset(old(handoffQueue))
      ensures PopsReady(pool[..], merged, now, BATCH_SIZE, ready, scheduled.queue)
      ensures AllBelow(ready, |old(Now()).pool|) && AllBelow(ready, |old(Now()).tag|)
      ensures Now() == Drained(old(Now()), ready, scheduled.queue, now)
      ensures sendBuf == PackedBytes(Select(pool[..], ready)) && sendAddrs == PackedAddrs(Select(pool[..], ready))
      ensures |sendAddrs| == |ready| <= BATCH_SIZE && |sendBuf| <= BATCH_SIZE * MTU
      ensures TakesBatch(pool[..], old(scheduled.queue) + old(handoffQueue), scheduled.queue, now)
    {
      ghost var s := Now();
      AtRest(run, acts);
      ghost var pushes, pops;
      sendBuf, sendAddrs, ready, pushes, pops := DrainOnce(now);
      merged := pushes[|s.handoff|];
      ghost var states, more := PassPath(s, pushes, ready, pops, now);
      Follow(states, more, Drained(s, ready, scheduled.queue, now));
      PassTakesBatch(pool[..], s.heap + s.handoff, merged, now, ready, scheduled.queue);
    }

    /** PacketInterceptor::Stop has joined the capture thread. */
    ghost method CaptureJoined()
      requires Valid() && Now().producer.Outside?
      modifies this`run, this`acts
      ensures Valid() && Now() == old(Now()).(producer := Exited)
    {
      ghost var t := Now().(producer := Exited);
      Alone(Now(), CaptureExit, t);
      Follow([Now(), t], [CaptureExit], t);
    }

    /** The first loop of FlushPackets: the handoff queue in order. */
    method FlushHandoffQueue() returns (sent: seq<ScheduledPacket>)
      requires AllBelow(handoffQueue, pool.Length)
      modifies this`handoffQueue, this`freeQueue
      ensures handoffQueue == [] && freeQueue == old(freeQueue) + old(handoffQueue)
      ensures sent == Select(pool[..], old(handoffQueue))
    {
      ghost var all := handoffQueue;
      ghost var k := 0;
      sent := [];
      while handoffQueue != []
        invariant 0 <= k <= |all| && handoffQueue == all[k..]
        invariant freeQueue == old(freeQueue) + all[..k]
        invariant sent == Select(pool[..], all)[..k]
        decreases |handoffQueue|
      {
        sent := sent + [pool[handoffQueue[0]]];
        freeQueue := freeQueue + [handoffQueue[0]];
        handoffQueue := handoffQueue[1..];
        k := k + 1;
      }
    }

    /** Reinjects each slot's packet and frees the slot. */
    method ReinjectAll(out: seq<nat>) returns (sent: seq<ScheduledPacket>)
      requires AllBelow(out, pool.Length)
      modifies this`freeQueue
      ensures freeQueue == old(freeQueue) + out && sent == Select(pool[..], out)
    {
      sent := [];
      ghost var all := Select(pool[..], out);
      for i := 0 to |out|
        invariant freeQueue == old(freeQueue) + out[..i]
        invariant sent == all[..i]
      {
        assert all[i] == pool[out[i]] && all[..i + 1] == all[..i] + [all[i]];
        assert out[..i + 1] == out[..i] + [out[i]];
        sent := sent + [pool[out[i]]];
        freeQueue := freeQueue + [out[i]];
      }
    }

    /** FlushPackets: what was handed off, in order, then what was scheduled, earliest first. */
    method FlushPackets() returns (sent: seq<ScheduledPacket>, out: seq<nat>, ghost trail: seq<seq<nat>>)
      requires scheduled.pool == pool && scheduled.Valid() && AllBelow(handoffQueue, pool.Length)
      modifies this`handoffQueue, this`freeQueue, scheduled
      ensures scheduled.Valid() && scheduled.queue == [] && handoffQueue == []
      ensures multiset(out) == multiset(old(scheduled.queue)) && Sorted(pool[..], out)
      ensures PopTrail(pool[..], old(scheduled.queue), out, trail) && trail[|out|] == []
      ensures freeQueue == old(freeQueue) + old(handoffQueue) + out
      ensures sent == Select(pool[..], old(handoffQueue)) + Select(pool[..], out)
    {
      sent := FlushHandoffQueue();
      out, trail := scheduled.DrainAll();
      var rest := ReinjectAll(out);
      sent := sent + rest;
    }

    /** Stop: the drain thread ends at its loop condition, then everything left is reinjected. The
        destructor calls it once more, which sends nothing. */
    method Stop() returns (sent: seq<ScheduledPacket>)
      requires Valid() && Now().producer.Exited?
      requires Now().drain.Stopped? || (Now().drain.LoopTop? && running)
      modifies this, scheduled
      ensures Valid() && old(acts) <= acts && Now().drain.Stopped?
      ensures |freeQueue| == POOL_CAPACITY && handoffQueue == [] && scheduled.queue == []
      ensures Now().accepted == old(Now()).accepted && Now().wire == old(Now()).wire + sent
      ensures multiset(Now().wire) == multiset(Now().accepted)
      ensures old(Now().drain.Stopped?) ==> sent == []
    {
      ghost var s := Now();
      AtRest(run, acts);
      running := false;
      var out;
      ghost var trail;
      sent, out, trail := FlushPackets();
      FlushRoom(s, out);
      if s.drain.LoopTop? {
        ghost var states, more, t := StopPath(s, out, trail);
        Follow(states, more, t);
        Regroup(s.wire, Select(s.pool, s.handoff), Select(s.pool, out));
      }
      Emptied(run, acts);
    }
  }

  /** Between iterations, and once stopped, every queued slot is a pool slot and all of them fit the
      free queue. */
  lemma AtRest(run: seq<State>, acts: seq<Action>)
    requires IsRun(run, acts) && (run[|acts|].drain.LoopTop? || run[|acts|].drain.Stopped?)
    ensures var s := run[|acts|];
            && |s.pool| == POOL_CAPACITY && |s.tag| == POOL_CAPACITY && HeapOrdered(s.pool, s.heap)
            && s.batch == [] && s.sendBuf == []
            && AllBelow(s.handoff, POOL_CAPACITY) && |s.free| + |s.handoff| + |s.heap| <= POOL_CAPACITY
            && (s.drain.Stopped? ==> s.handoff == [] && s.heap == [] && !s.running)
  {
    Safety(run, acts, |acts|);
    InFlightBelow(run[|acts|]);
  }

  lemma Emptied(run: seq<State>, acts: seq<Action>)
    requires IsRun(run, acts) && run[|acts|].drain.Stopped?
    ensures var s := run[|acts|]; |s.free| == POOL_CAPACITY && multiset(s.wire) == multiset(s.accepted)
  {
    StopFreesEverySlot(run, acts, |acts|);
    StopSendsEachOnce(run, acts, |acts|);
  }

  lemma FlushRoom(s: State, out: seq<nat>)
    requires AllBelow(s.heap, |s.pool|) && multiset(out) == multiset(s.heap)
    ensures |out| == |s.heap| && AllBelow(out, |s.pool|)
  {
    assert |multiset(out)| == |multiset(s.heap)|;
    BelowOfBag(|s.pool|, s.heap, out);
  }

  lemma InFlightBelow(s: State)
    requires Own(s) && !s.drain.Copied?
    ensures AllBelow(s.handoff, POOL_CAPACITY)
  {
    forall x: nat | x in s.handoff ensures x < POOL_CAPACITY {
      Member(s.handoff, x);
      assert Claims(s, x) == One(x < POOL_CAPACITY);
    }
    assert forall i :: 0 <= i < |s.handoff| ==> s.handoff[i] in s.handoff;
  }

  /** A batch short of the limit leaves nothing due. */
  lemma NothingElseDue(pool: seq<ScheduledPacket>, merged: seq<nat>, now: Time, out: seq<nat>, q: seq<nat>)
    requires PopsReady(pool, merged, now, BATCH_SIZE, out, q)
    ensures |out| < BATCH_SIZE && q != [] ==> q[0] < |pool| && Release(pool, q[0]) > now
  {
    if |out| < BATCH_SIZE && q != [] {
      assert multiset(out + q) == multiset(merged);
      ReadyCountOfBag(pool, merged, out + q, now);
      ReadyCountConcat(pool, out, q, now);
      ReadyCountExtremes(pool, out, now);
    }
  }

  lemma PassPath(s: State, pushes: seq<seq<nat>>, batch: seq<nat>, pops: seq<seq<nat>>, now: Time)
    returns (states: seq<State>, acts: seq<Action>)
    requires s.drain.LoopTop? && s.running && s.batch == [] && s.sendBuf == []
    requires |s.pool| == |s.tag| == POOL_CAPACITY && AllBelow(s.heap, |s.pool|) && AllBelow(s.handoff, |s.pool|)
    requires |s.free| + |s.handoff| + |s.heap| <= POOL_CAPACITY
    requires PushTrail(s.pool, s.handoff, pushes) && pushes[0] == s.heap
    requires multiset(pushes[|s.handoff|]) == multiset(s.heap) + multiset(s.handoff)
    requires PopTrail(s.pool, pushes[|s.handoff|], batch, pops)
    requires PopsReady(s.pool, pushes[|s.handoff|], now, BATCH_SIZE, batch, pops[|batch|])
    ensures AllBelow(batch, |s.pool|) && Leads(s, states, acts, Drained(s, batch, pops[|batch|], now))
  {
    var merged := pushes[|s.handoff|];
    BatchRoom(s, merged, batch, pops[|batch|]);
    NothingElseDue(s.pool, merged, now, batch, pops[|batch|]);
    states, acts := DrainPath(s, pushes, batch, pops, now);
  }

  lemma Regroup<T>(a: seq<T>, b: seq<T>, c: seq<T>)
    ensures a + b + c == a + (b + c)
  {
  }

  lemma StopPath(s: State, out: seq<nat>, trail: seq<seq<nat>>) returns (states: seq<State>, acts: seq<Action>, t: State)
    requires s.producer.Exited? && s.drain.LoopTop? && s.running
    requires |s.pool| == POOL_CAPACITY && |s.tag| == POOL_CAPACITY
    requires PopTrail(s.pool, s.heap, out, trail) && trail[|out|] == []
    requires AllBelow(s.handoff, POOL_CAPACITY) && AllBelow(out, POOL_CAPACITY)
    requires |s.free| + |s.handoff| + |out| <= POOL_CAPACITY
    ensures Leads(s, states, acts, t) && |acts| > 2 && acts[2].FlushBegin?
    ensures t.drain.Stopped? && t.pool == s.pool && t.handoff == [] && t.heap == [] && !t.running && t.accepted == s.accepted
    ensures t.free == s.free + s.handoff + out
    ensures t.wire == s.wire + Select(s.pool, s.handoff) + Select(s.pool, out)
  {
    var a := s.(running := false);
    var b := a.(drain := Joined);
    var c := b.(drain := FlushHandoff);
    var d := Flushed(c, c.handoff).(handoff := [], drain := FlushHeap);
    t := Flushed(d, out).(heap := [], drain := Stopped);
    var hs, ha := FlushHandoffPath(c);
    var ps, pa := FlushHeapPath(d, out, trail);
    Chain(c, hs, ha, d, ps, pa, t);
    states, acts := hs + ps[1..], ha + pa;
    Before(b, FlushBegin, c, states, acts, t);
    Before(a, LoopExit, b, [b] + states, [FlushBegin] + acts, t);
    Before(s, StopRequest, a, [a] + ([b] + states), [LoopExit] + ([FlushBegin] + acts), t);
    states, acts := [s] + ([a] + ([b] + states)), [StopRequest] + ([LoopExit] + ([FlushBegin] + acts));
  }
}

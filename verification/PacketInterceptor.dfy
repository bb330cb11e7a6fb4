/** The packet interceptor: its life from Start to Stop, and the body of its capture loop over the
    buffers it builds and the delay queue it pushes to. */
module Interceptors {
  import opened Packets
  import opened EffectEngines
  import opened DelayProtocol
  import opened DelayPaths
  import opened DelayQueues
  import opened Capture

  /** The WinDivert handle and which of its directions are still open. */
  datatype Handle = Invalid | Open(recv: bool, send: bool)

  datatype Start = Started | AlreadyRunning | OpenFailed

  /** Push called on each packet in order. */
  function PushedAll(s: State, ps: seq<ScheduledPacket>): State {
    if ps == [] then s else Pushed(PushedAll(s, ps[..|ps| - 1]), ps[|ps| - 1])
  }

  /** Pushes add each packet to those accepted or to those the pool had no slot for, in order. */
  lemma {:induction false} PushedAllCounts(s: State, ps: seq<ScheduledPacket>)
    ensures var t := PushedAll(s, ps);
            && |t.accepted| + t.exhausted == |s.accepted| + s.exhausted + |ps|
            && t.accepted == s.accepted + ps[..Min(|ps|, |s.free|)]
            && |t.free| == |s.free| - Min(|ps|, |s.free|)
            && t.wire == s.wire && t.producer == s.producer && t.drain == s.drain && t.running == s.running
  {
    if ps != [] {
      var n := |ps| - 1;
      PushedAllCounts(s, ps[..n]);
      if n < |s.free| { assert ps[..n + 1] == ps[..n] + [ps[n]]; assert ps[..n][..n] == ps[..n]; }
      else { assert ps[..n][..|s.free|] == ps[..|s.free|]; }
    }
  }

  /** Queue q runs, no push under way, its drain thread between two iterations. */
  ghost predicate AtWork(q: DelayQueue)
    reads q, q.pool, q.scheduled
  {
    q.Valid() && q.running && q.Now().producer == Outside && q.Now().drain == LoopTop
  }

  /** Queue q has been stopped: since it was as in `was` it has sent `sent`, which completes one send
      attempt for each accepted packet, and all its slots are free. */
  ghost predicate HasStopped(q: DelayQueue, was: State, sent: seq<ScheduledPacket>)
    reads q, q.pool, q.scheduled
  {
    && q.Valid() && q.Now().drain == Stopped && |q.freeQueue| == POOL_CAPACITY
    && q.Now().accepted == was.accepted && q.Now().wire == was.wire + sent
    && multiset(was.wire + sent) == multiset(was.accepted)
  }

  class PacketInterceptor {
    const engine: PacketEffectEngine
    var handle: Handle
    var running: bool
    var captureThread: bool          // thread_ is joinable
    var delayQueue: DelayQueue?

    ghost function Queue(): set<object>
      reads this
    {
      if delayQueue == null then {} else {delayQueue, delayQueue.pool, delayQueue.scheduled}
    }

    /** Started, with the drain thread between two iterations of its loop; or not started. */
    ghost predicate Valid()
      reads this, Queue(), engine.outbound.config, engine.inbound.config
    {
      && engine.Valid()
      && (running <==> delayQueue != null) && captureThread == running
      && handle == (if running then Open(true, true) else Invalid)
      && (delayQueue != null ==> AtWork(delayQueue))
    }

    constructor (engine: PacketEffectEngine)
      requires engine.Valid()
      ensures Valid() && this.engine == engine && !running
    {
      this.engine := engine;
      handle, running, captureThread, delayQueue := Invalid, false, false, null;
    }

    /** `opens`: whether WinDivertOpen succeeds. */
    method Start(opens: bool) returns (r: Start)
      requires Valid()
      modifies this
      ensures Valid()
      ensures r == if old(running) then AlreadyRunning else if opens then Started else OpenFailed
      ensures running <==> r != OpenFailed
      ensures r == Started ==> fresh(delayQueue) && delayQueue.Now().accepted == [] && |delayQueue.freeQueue| == POOL_CAPACITY
      ensures r != Started ==> delayQueue == old(delayQueue)
    {
      if running { return AlreadyRunning; }
      if !opens { return OpenFailed; }
      handle := Open(true, true);
      delayQueue := new DelayQueue();
      running, captureThread := true, true;
      r := Started;
    }

    /** No new start and no new batch: running_ is cleared and the handle receives no more. */
    method BeginStop()
      modifies this`handle, this`running
      ensures !running && handle == if old(handle) == Invalid then Invalid else old(handle).(recv := false)
    {
      running := false;
      if handle != Invalid { handle := handle.(recv := false); }
    }

    method Close()
      requires engine.Valid() && !running && !captureThread && delayQueue == null
      modifies this`handle
      ensures Valid() && handle == Invalid
    {
      if handle != Invalid {
        handle := handle.(send := false);
        handle := Invalid;
      }
    }

    /** thread_.join(): the capture loop has returned, so nothing is pushed any more. */
    method JoinCapture()
      requires captureThread && delayQueue != null && delayQueue.Valid() && delayQueue.Now().producer.Outside?
      modifies this`captureThread, delayQueue
      ensures !captureThread && delayQueue.Valid() && delayQueue.Now() == old(delayQueue.Now()).(producer := Exited)
    {
      delayQueue.CaptureJoined();
      captureThread := false;
    }

    /** The delay queue is stopped while the handle can still send, so that the flush can reinject,
        and only after the capture thread has ended. */
    method StopQueue() returns (sent: seq<ScheduledPacket>)
      requires handle == Open(false, true) && !captureThread && delayQueue != null
      requires delayQueue.Valid() && delayQueue.Now().producer.Exited? && delayQueue.Now().drain.LoopTop? && delayQueue.running
      modifies this`delayQueue, Queue()
      ensures delayQueue == null && HasStopped(old(delayQueue), old(delayQueue.Now()), sent)
    {
      sent := delayQueue.Stop();
      delayQueue := null;
    }

    method JoinAndStopQueue() returns (sent: seq<ScheduledPacket>)
      requires engine.Valid() && (captureThread <==> delayQueue != null)
      requires delayQueue != null ==> handle == Open(false, true) && AtWork(delayQueue)
      modifies this`delayQueue, this`captureThread, Queue()
      ensures engine.Valid() && delayQueue == null && !captureThread
      ensures if old(delayQueue) == null then sent == [] else HasStopped(old(delayQueue), old(delayQueue.Now()), sent)
    {
      sent := [];
      if captureThread { JoinCapture(); }
      if delayQueue != null { sent := StopQueue(); }
    }

    /** The rest of Stop: both threads have ended before the handle is closed. */
    method EndStop() returns (sent: seq<ScheduledPacket>)
      requires engine.Valid() && !running && (captureThread <==> delayQueue != null)
      requires delayQueue != null ==> handle == Open(false, true) && AtWork(delayQueue)
      modifies this`delayQueue, this`captureThread, this`handle, Queue()
      ensures Valid() && !running && delayQueue == null && handle == Invalid
      ensures if old(delayQueue) == null then sent == [] else HasStopped(old(delayQueue), old(delayQueue.Now()), sent)
    {
      sent := JoinAndStopQueue();
      Close();
    }

    /** Stop: nothing more is received, the capture thread is joined, the queue is stopped, and only
        then the handle is closed. Without a started queue it does nothing. */
    method Stop() returns (sent: seq<ScheduledPacket>)
      requires Valid()
      modifies this, Queue()
      ensures Valid() && !running && delayQueue == null && handle == Invalid
      ensures if old(delayQueue) == null then sent == [] else HasStopped(old(delayQueue), old(delayQueue.Now()), sent)
    {
      BeginStop();
      sent := EndStop();
    }

    /** append_immediate_packet, and its result. */
    method AppendImmediate(bytes: seq<Byte>, addr: Address, buf: seq<Byte>, addrs: seq<Address>)
      returns (appended: bool, buf': seq<Byte>, addrs': seq<Address>)
      ensures appended <==> |bytes| <= MTU
      ensures (buf', addrs') == if appended then (buf + bytes, addrs + [addr]) else (buf, addrs)
    {
      if |bytes| > MTU { return false, buf, addrs; }
      return true, buf + bytes, addrs + [addr];
    }

    /** The immediate copies of an emission, appended one by one. */
    method AppendAll(ps: seq<OwnedPacket>, buf: seq<Byte>, addrs: seq<Address>) returns (buf': seq<Byte>, addrs': seq<Address>)
      ensures buf' == buf + Flatten(Datas(ps)) && addrs' == addrs + Addrs(ps)
    {
      buf', addrs' := buf, addrs;
      for i := 0 to |ps|
        invariant buf' == buf + Flatten(Datas(ps[..i])) && addrs' == addrs + Addrs(ps[..i])
      {
        assert ps[..i + 1][..i] == ps[..i];
        PackOne(ps[..i], ps[i]);
        var _, b, a := AppendImmediate(ps[i].data, ps[i].addr, buf', addrs');
        buf', addrs' := b, a;
      }
      assert ps[..|ps|] == ps;
    }

    method PushAll(ps: seq<ScheduledPacket>)
      requires Valid() && running
      modifies delayQueue, delayQueue.pool
      ensures Valid() && delayQueue.Now() == PushedAll(old(delayQueue.Now()), ps)
    {
      ghost var was := delayQueue.Now();
      for i := 0 to |ps|
        invariant Valid() && delayQueue.Now() == PushedAll(was, ps[..i])
      {
        PushedOneMore(was, ps[..i], ps[i]);
        assert ps[..i + 1] == ps[..i] + [ps[i]];
        delayQueue.Push(ps[i]);
      }
      assert ps[..|ps|] == ps;
    }

    /** The effects applied to one packet, and its delayed copies pushed. */
    method Apply(packet: OwnedPacket, look: Look, buf: seq<Byte>, addrs: seq<Address>, counted: Counts)
      returns (sendBuf: seq<Byte>, sendAddrs: seq<Address>, pushes: seq<ScheduledPacket>, counts: Counts)
      requires Valid() && running
      modifies engine.outbound, engine.inbound, delayQueue, delayQueue.pool
      ensures Valid() && running && delayQueue.scheduled == old(delayQueue.scheduled)
      ensures delayQueue.Now() == PushedAll(old(delayQueue.Now()), pushes)
      ensures var (es, m) := ProcessEither(old(engine.View()), Input(engine.Snapshot(packet.metadata.isOutbound), packet, look.now, look.draws));
              && engine.View() == es && pushes == m.scheduled && counts == Counted(counted, m)
              && sendBuf == buf + Flatten(Datas(m.immediate)) && sendAddrs == addrs + Addrs(m.immediate)
    {
      var emission := engine.Process(packet, look.now, look.draws);
      counts := Counted(counted, emission);
      sendBuf, sendAddrs := AppendAll(emission.immediate, buf, addrs);
      pushes := emission.scheduled;
      PushAll(pushes);
    }

    /** What the loop does with one parsed packet. */
    method RoutePacket(bytes: seq<Byte>, addr: Address, udp: Option<FiveTuple>, look: Look,
                       buf: seq<Byte>, addrs: seq<Address>, counted: Counts)
      returns (sendBuf: seq<Byte>, sendAddrs: seq<Address>, pushes: seq<ScheduledPacket>, counts: Counts)
      requires Valid() && running
      modifies engine.outbound, engine.inbound, delayQueue, delayQueue.pool
      ensures Valid() && delayQueue.Now() == PushedAll(old(delayQueue.Now()), pushes)
      ensures Walk(sendBuf, sendAddrs, pushes, engine.View(), counts) ==
              Route(Walk(buf, addrs, [], old(engine.View()), counted), bytes, addr, udp, Env(look, engine.Snapshot(addr.outbound)))
    {
      sendBuf, sendAddrs, pushes, counts := buf, addrs, [], counted;
      var handled := false;
      if udp.Some? && look.pid != 0 && look.targeted {
        var owned := CopyFrom(bytes, addr, Metadata(udp.value, look.pid, addr.outbound));
        if owned.Some? {
          sendBuf, sendAddrs, pushes, counts := Apply(owned.value, look, buf, addrs, counted);
          handled := true;
        }
      }
      if !handled {
        var appended;
        appended, sendBuf, sendAddrs := AppendImmediate(bytes, addr, sendBuf, sendAddrs);
        if !appended { counts := counts.(oversized := counts.oversized + 1); }
      }
    }

    /** One packet more: the walk so far is w, with it `next`, and the queue was `was` when it began. */
    method RouteNext(ghost was: State, ghost w: Walk, ghost env: Env, ghost next: Walk,
                     bytes: seq<Byte>, addr: Address, udp: Option<FiveTuple>, look: Look,
                     buf: seq<Byte>, addrs: seq<Address>, pushed: seq<ScheduledPacket>, counted: Counts)
      returns (sendBuf: seq<Byte>, sendAddrs: seq<Address>, pushes: seq<ScheduledPacket>, counts: Counts)
      requires Valid() && running && delayQueue.Now() == PushedAll(was, pushed)
      requires w == Walk(buf, addrs, pushed, engine.View(), counted) && env == Env(look, engine.Snapshot(addr.outbound))
      requires next == Route(w, bytes, addr, udp, env)
      modifies engine.outbound, engine.inbound, delayQueue, delayQueue.pool
      ensures Valid() && delayQueue.Now() == PushedAll(was, pushes)
      ensures Walk(sendBuf, sendAddrs, pushes, engine.View(), counts) == next
    {
      RoutePushes(w, bytes, addr, udp, env);
      var more;
      sendBuf, sendAddrs, more, counts := RoutePacket(bytes, addr, udp, look, buf, addrs, counted);
      PushedAllConcat(was, pushed, more);
      pushes := pushed + more;
    }

    /** One iteration of the walk, over packet i, which parses; `rest` is what follows it. */
    method WalkPacket(ghost was: State, ghost w: Walk, current: seq<Byte>, addrs: seq<Address>, looks: seq<Look>,
                      ghost envs: seq<Env>, i: nat, ghost goal: Walk,
                      buf: seq<Byte>, sent: seq<Address>, pushed: seq<ScheduledPacket>, counted: Counts)
      returns (rest: seq<Byte>, sendBuf: seq<Byte>, sendAddrs: seq<Address>, pushes: seq<ScheduledPacket>, counts: Counts)
      requires Valid() && running && delayQueue.Now() == PushedAll(was, pushed)
      requires i < |addrs| == |looks| && envs == Envs(addrs, looks, engine.Snapshot(true), engine.Snapshot(false))
      requires w == Walk(buf, sent, pushed, engine.View(), counted)
      requires looks[i].parse.Parsed? && WalksTo(w, current, addrs, envs, i, goal)
      modifies engine.outbound, engine.inbound, delayQueue, delayQueue.pool
      ensures Valid() && delayQueue.Now() == PushedAll(was, pushes)
      ensures engine.Snapshot(true) == old(engine.Snapshot(true)) && engine.Snapshot(false) == old(engine.Snapshot(false))
      ensures var w' := Walk(sendBuf, sendAddrs, pushes, engine.View(), counts);
              if rest == [] then w' == goal else WalksTo(w', rest, addrs, envs, i + 1, goal)
    {
      var p := looks[i].parse;
      rest := Rest(p, current);
      var bytes := current[..|current| - |rest|];
      ghost var env := envs[i];
      assert env == Env(looks[i], engine.Snapshot(addrs[i].outbound));
      ghost var next := WalkGoes(w, current, addrs, envs, i, goal, p, rest, bytes);
      sendBuf, sendAddrs, pushes, counts := RouteNext(was, w, env, next, bytes, addrs[i], p.udp, looks[i], buf, sent, pushed, counted);
    }

    /** The loop over a received buffer. `goal` is where the walk over it ends. */
    method WalkBuffer(recv: seq<Byte>, addrs: seq<Address>, looks: seq<Look>, ghost envs: seq<Env>, ghost goal: Walk)
      returns (sendBuf: seq<Byte>, sendAddrs: seq<Address>, pushes: seq<ScheduledPacket>, counts: Counts)
      requires Valid() && running && |looks| == |addrs|
      requires envs == Envs(addrs, looks, engine.Snapshot(true), engine.Snapshot(false))
      requires WalksTo(Walk([], [], [], engine.View(), NO_COUNTS), recv, addrs, envs, 0, goal)
      modifies engine.outbound, engine.inbound, delayQueue, delayQueue.pool
      ensures Valid() && delayQueue.Now() == PushedAll(old(delayQueue.Now()), pushes)
      ensures Walk(sendBuf, sendAddrs, pushes, engine.View(), counts) == goal
    {
      ghost var was := delayQueue.Now();
      var current := recv;
      sendBuf, sendAddrs, pushes, counts := [], [], [], NO_COUNTS;
      var i := 0;
      while i < |addrs|
        invariant 0 <= i <= |addrs| && Valid()
        invariant envs == Envs(addrs, looks, engine.Snapshot(true), engine.Snapshot(false))
        invariant delayQueue.Now() == PushedAll(was, pushes)
        invariant WalksTo(Walk(sendBuf, sendAddrs, pushes, engine.View(), counts), current, addrs, envs, i, goal)
      {
        var p := looks[i].parse;
        ghost var w := Walk(sendBuf, sendAddrs, pushes, engine.View(), counts);
        if p.Failed? {
          WalkFails(w, current, addrs, envs, i, goal);
          counts := counts.(parseFailures := counts.parseFailures + 1);
          sendBuf := sendBuf + current;
          sendAddrs := sendAddrs + addrs[i..];
          return;
        }
        current, sendBuf, sendAddrs, pushes, counts :=
          WalkPacket(was, w, current, addrs, looks, envs, i, goal, sendBuf, sendAddrs, pushes, counts);
        if current == [] { return; }
        i := i + 1;
      }
      WalkDone(Walk(sendBuf, sendAddrs, pushes, engine.View(), counts), current, addrs, envs, i, goal);
    }

    /** The body of CaptureLoop after a successful receive: what the send call is given, and every
        delayed copy pushed, in order. */
    method CaptureBatch(recv: seq<Byte>, addrs: seq<Address>, looks: seq<Look>)
      returns (sendBuf: seq<Byte>, sendAddrs: seq<Address>, pushes: seq<ScheduledPacket>, counts: Counts)
      requires Valid() && running && |looks| == |addrs|
      modifies engine.outbound, engine.inbound, delayQueue, delayQueue.pool
      ensures Valid() && delayQueue.Now() == PushedAll(old(delayQueue.Now()), pushes)
      ensures Walk(sendBuf, sendAddrs, pushes, engine.View(), counts) ==
              old(WalkBatch(engine.View(), recv, addrs, Envs(addrs, looks, engine.Snapshot(true), engine.Snapshot(false))))
    {
      ghost var envs := Envs(addrs, looks, engine.Snapshot(true), engine.Snapshot(false));
      sendBuf, sendAddrs, pushes, counts :=
        WalkBuffer(recv, addrs, looks, envs, WalkBatch(engine.View(), recv, addrs, envs));
    }
  }

  lemma {:induction false} PushedAllConcat(s: State, a: seq<ScheduledPacket>, b: seq<ScheduledPacket>)
    ensures PushedAll(PushedAll(s, a), b) == PushedAll(s, a + b)
  {
    if b == [] {
      assert a + b == a;
    } else {
      var n := |b| - 1;
      PushedAllConcat(s, a, b[..n]);
      PushedOneMore(PushedAll(s, a), b[..n], b[n]);
      PushedOneMore(s, a + b[..n], b[n]);
      assert b == b[..n] + [b[n]] && a + b == a + b[..n] + [b[n]];
    }
  }

  lemma {:induction false} PushedOneMore(s: State, ps: seq<ScheduledPacket>, p: ScheduledPacket)
    ensures PushedAll(s, ps + [p]) == Pushed(PushedAll(s, ps), p)
  {
    assert (ps + [p])[..|ps|] == ps;
  }

  /** Routing adds to the pushes and does not depend on them. */
  lemma RoutePushes(w: Walk, bytes: seq<Byte>, addr: Address, udp: Option<FiveTuple>, env: Env)
    ensures var r := Route(w.(pushes := []), bytes, addr, udp, env);
            Route(w, bytes, addr, udp, env) == r.(pushes := w.pushes + r.pushes)
  {
  }
}

/** The capture loop's walk over one received batch, as a function: split the buffer into packets,
    route each, and rebuild what is sent on. The packet parser is an oracle; so is what the flow
    tracker and the target set answer, and the clock. */
module Capture {
  import opened Packets
  import opened EffectConfigs
  import opened EffectEngines

  /** WinDivertHelperParsePacket on the rest of the buffer: the IPv4/UDP headers, if the packet has
      them, and how many bytes follow the packet. */
  datatype Parse = Failed | Parsed(udp: Option<FiveTuple>, nextLen: nat)

  /** What is found out about one packet when the walk gets to it. */
  datatype Look = Look(parse: Parse, pid: Pid, targeted: bool, now: Time, draws: Draws)

  datatype Env = Env(look: Look, snap: EffectSnapshot)

  datatype Counts = Counts(dropped: nat, oversized: nat, duplicated: nat, delayed: nat, parseFailures: nat)

  /** What the walk has built so far: send_buf and send_addrs, the Push calls, the engines. */
  datatype Walk = Walk(sendBuf: seq<Byte>, sendAddrs: seq<Address>, pushes: seq<ScheduledPacket>, engines: Engines, counts: Counts)

  const NO_COUNTS := Counts(0, 0, 0, 0, 0)

  /** The bytes after the packet; the parser never reports more than it was given. */
  function Rest(p: Parse, buf: seq<Byte>): (r: seq<Byte>)
    requires p.Parsed?
    ensures |r| <= |buf|
  {
    if p.nextLen <= |buf| then buf[|buf| - p.nextLen..] else []
  }

  /** The environment of each packet: what was looked up, and its direction's settings. */
  function Envs(addrs: seq<Address>, looks: seq<Look>, outbound: EffectSnapshot, inbound: EffectSnapshot): (envs: seq<Env>)
    requires |looks| == |addrs|
    ensures |envs| == |addrs|
    ensures forall i :: 0 <= i < |envs| ==> envs[i] == Env(looks[i], if addrs[i].outbound then outbound else inbound)
  {
    seq(|addrs|, i requires 0 <= i < |addrs| && |looks| == |addrs| => Env(looks[i], if addrs[i].outbound then outbound else inbound))
  }

  /** append_immediate_packet. */
  function Append(w: Walk, bytes: seq<Byte>, addr: Address): Walk {
    if |bytes| > MTU then w.(counts := w.counts.(oversized := w.counts.oversized + 1))
    else w.(sendBuf := w.sendBuf + bytes, sendAddrs := w.sendAddrs + [addr])
  }

  /** The packet the effects are applied to, if any: a UDP packet of a targeted process that fits
      an MTU. */
  function Target(bytes: seq<Byte>, addr: Address, udp: Option<FiveTuple>, look: Look): Option<OwnedPacket> {
    if udp.Some? && look.pid != 0 && look.targeted then CopyFrom(bytes, addr, Metadata(udp.value, look.pid, addr.outbound))
    else None
  }

  function InputOf(p: OwnedPacket, env: Env): Input {
    Input(env.snap, p, env.look.now, env.look.draws)
  }

  function Counted(c: Counts, m: Emission): Counts {
    c.(dropped := c.dropped + (if Drop in m.effects then 1 else 0),
       delayed := c.delayed + (if m.scheduled != [] then 1 else 0),
       duplicated := c.duplicated +
         if Duplicate in m.effects && |m.immediate| + |m.scheduled| > 0 then |m.immediate| + |m.scheduled| - 1 else 0)
  }

  /** The loop body on one parsed packet. */
  function Route(w: Walk, bytes: seq<Byte>, addr: Address, udp: Option<FiveTuple>, env: Env): Walk {
    match Target(bytes, addr, udp, env.look)
    case None => Append(w, bytes, addr)
    case Some(p) =>
      var (es, m) := ProcessEither(w.engines, InputOf(p, env));
      Walk(w.sendBuf + Flatten(Datas(m.immediate)), w.sendAddrs + Addrs(m.immediate), w.pushes + m.scheduled, es, Counted(w.counts, m))
  }

  /** The walk from packet i on, `buf` being what is left of the receive buffer. */
  function WalkFrom(w: Walk, buf: seq<Byte>, addrs: seq<Address>, envs: seq<Env>, i: nat): Walk
    requires i <= |addrs| == |envs|
    decreases |addrs| - i
  {
    if i == |addrs| then w
    else
      var p := envs[i].look.parse;
      if p.Failed? then
        w.(sendBuf := w.sendBuf + buf, sendAddrs := w.sendAddrs + addrs[i..], counts := w.counts.(parseFailures := w.counts.parseFailures + 1))
      else
        var rest := Rest(p, buf);
        var w' := Route(w, buf[..|buf| - |rest|], addrs[i], p.udp, envs[i]);
        if rest == [] then w' else WalkFrom(w', rest, addrs, envs, i + 1)
  }

  /** One batch. */
  function WalkBatch(es: Engines, recv: seq<Byte>, addrs: seq<Address>, envs: seq<Env>): Walk
    requires |addrs| == |envs|
  {
    WalkFrom(Walk([], [], [], es, NO_COUNTS), recv, addrs, envs, 0)
  }

  /** The walk from packet i on ends in `goal`. */
  predicate WalksTo(w: Walk, buf: seq<Byte>, addrs: seq<Address>, envs: seq<Env>, i: nat, goal: Walk) {
    i <= |addrs| == |envs| && WalkFrom(w, buf, addrs, envs, i) == goal
  }

  lemma WalkDone(w: Walk, buf: seq<Byte>, addrs: seq<Address>, envs: seq<Env>, i: nat, goal: Walk)
    requires WalksTo(w, buf, addrs, envs, i, goal) && i == |addrs|
    ensures w == goal
  {
  }

  lemma WalkFails(w: Walk, buf: seq<Byte>, addrs: seq<Address>, envs: seq<Env>, i: nat, goal: Walk)
    requires WalksTo(w, buf, addrs, envs, i, goal) && i < |addrs| && envs[i].look.parse.Failed?
    ensures goal == w.(sendBuf := w.sendBuf + buf, sendAddrs := w.sendAddrs + addrs[i..],
                       counts := w.counts.(parseFailures := w.counts.parseFailures + 1))
  {
  }

  /** A packet that parses as p, with these bytes: the walk goes on after it, or ends. */
  lemma WalkGoes(w: Walk, buf: seq<Byte>, addrs: seq<Address>, envs: seq<Env>, i: nat, goal: Walk, p: Parse, rest: seq<Byte>, bytes: seq<Byte>)
    returns (w': Walk)
    requires WalksTo(w, buf, addrs, envs, i, goal) && i < |addrs| && envs[i].look.parse == p && p.Parsed?
    requires rest == Rest(p, buf) && bytes == buf[..|buf| - |rest|]
    ensures w' == Route(w, bytes, addrs[i], p.udp, envs[i])
    ensures if rest == [] then w' == goal else WalksTo(w', rest, addrs, envs, i + 1, goal)
  {
    w' := Route(w, bytes, addrs[i], p.udp, envs[i]);
  }
}

/** The packet effect engine of one direction: burst or random loss, duplication, delay with
    jitter, and a bandwidth throttle. The random generator is an oracle: every packet comes with
    the numbers drawn for it. */
module EffectEngines {
  import opened Packets
  import opened EffectConfigs
  import opened Throttling

  datatype Effect = Drop | Delay | Duplicate | BandwidthThrottle | BurstDrop | DelayJitter

  datatype Emission = Emission(effects: set<Effect>, immediate: seq<OwnedPacket>, scheduled: seq<ScheduledPacket>)

  /** A draw from [0, 1). */
  type Unit = u: real | 0.0 <= u < 1.0 witness 0.0

  /** What the generator yields for one packet, used or not. The jitter draw is cut to the range
      the engine asks for. */
  datatype Draws = Draws(burst: Unit, drop: Unit, duplicate: Unit, jitter: nat)

  /** ShouldApplyRate. */
  predicate Applies(rate: real, u: Unit) {
    if rate <= 0.0 then false else if rate >= 1.0 then true else u < rate
  }

  /** The engine's fields. */
  datatype Engine = Engine(burstRemaining: int, nextRelease: Time, lastRevision: nat)

  function Reset(e: Engine, snap: EffectSnapshot): Engine {
    if snap.throttleRevision != e.lastRevision then e.(nextRelease := 0, lastRevision := snap.throttleRevision) else e
  }

  /** How many packets are still to be lost after this one, and why this one is, if it is. */
  function Loss(remaining: int, snap: EffectSnapshot, d: Draws): (int, set<Effect>) {
    if snap.burstDropEnabled then
      if remaining > 0 then (remaining - 1, {Drop, BurstDrop})
      else if Applies(snap.burstDropRate, d.burst) then (snap.burstDropLength - 1, {Drop, BurstDrop})
      else (remaining, {})
    else (0, if Applies(snap.dropRate, d.drop) then {Drop} else {})
  }

  predicate Lost(remaining: int, snap: EffectSnapshot, d: Draws) {
    Drop in Loss(remaining, snap, d).1
  }

  predicate Duplicated(snap: EffectSnapshot, d: Draws) {
    snap.duplicateCount > 0 && Applies(snap.duplicateRate, d.duplicate)
  }

  function CopyCount(snap: EffectSnapshot, d: Draws): nat
  {
    if Duplicated(snap, d) then 1 + snap.duplicateCount else 1
  }

  function DelayNanos(snap: EffectSnapshot, d: Draws): int {
    (snap.delayMs + if snap.delayJitterMs > 0 then Min(d.jitter, snap.delayJitterMs) else 0) * NANOS_PER_MS
  }

  function DelayEffects(snap: EffectSnapshot): set<Effect> {
    (if snap.delayMs > 0 then {Delay} else {}) + (if snap.delayJitterMs > 0 then {DelayJitter} else {})
  }

  /** When the first copy of a packet leaves. */
  function FirstRelease(next: Time, now: Time, delay: int, rate: nat): Time {
    if rate > 0 then Max(now + delay, Max(next, now)) else now + delay
  }

  /** The i-th instant of a progression. */
  function Nth(first: Time, gap: nat, i: nat): (t: Time)
    ensures t >= first && (i > 0 ==> t >= first + gap) && (i == 0 || gap == 0 ==> t == first)
  {
    if i == 0 then first else Nth(first, gap, i - 1) + gap
  }

  /** Of n copies released one gap apart, those due by `now`. */
  function Immediates(p: OwnedPacket, first: Time, gap: nat, n: nat, now: Time): seq<OwnedPacket> {
    if n == 0 then []
    else Immediates(p, first, gap, n - 1, now) + if Nth(first, gap, n - 1) <= now then [p] else []
  }

  /** And those due later, with their release times. */
  function Scheduleds(p: OwnedPacket, first: Time, gap: nat, n: nat, now: Time): seq<ScheduledPacket> {
    if n == 0 then []
    else
      var r := Nth(first, gap, n - 1);
      Scheduleds(p, first, gap, n - 1, now) + if r <= now then [] else [ScheduledPacket(p, r)]
  }

  datatype Input = Input(snap: EffectSnapshot, packet: OwnedPacket, now: Time, draws: Draws)

  function Gap(i: Input): nat {
    TransmissionTime(|i.packet.data|, i.snap.throttleBytesPerSecond)
  }

  function First(next: Time, i: Input): Time {
    FirstRelease(next, i.now, DelayNanos(i.snap, i.draws), i.snap.throttleBytesPerSecond)
  }

  /** Whether the throttle holds back any copy beyond the packet's own delay. */
  predicate HoldsBack(next: Time, i: Input, n: nat) {
    && i.snap.throttleBytesPerSecond > 0
    && (First(next, i) > i.now + DelayNanos(i.snap, i.draws) || (n > 1 && Gap(i) > 0))
  }

  /** A packet that is not lost: engine afterwards, and what is emitted. */
  function Emit(e: Engine, i: Input): (Engine, Emission) {
    var n := CopyCount(i.snap, i.draws);
    var first := First(e.nextRelease, i);
    var effects := (if Duplicated(i.snap, i.draws) then {Duplicate} else {}) + DelayEffects(i.snap)
                   + (if HoldsBack(e.nextRelease, i, n) then {BandwidthThrottle} else {});
    (if i.snap.throttleBytesPerSecond > 0 then e.(nextRelease := Nth(first, Gap(i), n)) else e,
     Emission(effects, Immediates(i.packet, first, Gap(i), n, i.now), Scheduleds(i.packet, first, Gap(i), n, i.now)))
  }

  /** DirectionPacketEffectEngine::Process. */
  function Processed(e: Engine, i: Input): (Engine, Emission) {
    var r := Reset(e, i.snap);
    var (remaining, loss) := Loss(e.burstRemaining, i.snap, i.draws);
    if loss != {} then (r.(burstRemaining := remaining), Emission(loss, [], []))
    else Emit(r.(burstRemaining := remaining), i)
  }

  class DirectionPacketEffectEngine {
    const config: DirectionEffectConfig
    var burstPacketsRemaining: int
    var nextThrottleReleaseAt: Time
    var lastThrottleRevision: nat

    function View(): Engine
      reads this
    {
      Engine(burstPacketsRemaining, nextThrottleReleaseAt, lastThrottleRevision)
    }

    constructor (config: DirectionEffectConfig)
      ensures this.config == config && View() == Engine(0, 0, 0)
    {
      this.config := config;
      burstPacketsRemaining, nextThrottleReleaseAt, lastThrottleRevision := 0, 0, 0;
    }

    method ResetThrottleStateIfNeeded(snap: EffectSnapshot)
      modifies this
      ensures View() == Reset(old(View()), snap)
    {
      if snap.throttleRevision != lastThrottleRevision {
        nextThrottleReleaseAt := 0;
        lastThrottleRevision := snap.throttleRevision;
      }
    }

    method ShouldDropPacket(snap: EffectSnapshot, d: Draws) returns (drop: bool, effects: set<Effect>)
      modifies this`burstPacketsRemaining
      ensures (burstPacketsRemaining, effects) == Loss(old(burstPacketsRemaining), snap, d)
      ensures drop <==> effects != {}
    {
      effects := {};
      if !snap.burstDropEnabled {
        burstPacketsRemaining := 0;
      } else {
        if burstPacketsRemaining > 0 {
          burstPacketsRemaining := burstPacketsRemaining - 1;
          return true, {Drop, BurstDrop};
        }
        if Applies(snap.burstDropRate, d.burst) {
          burstPacketsRemaining := snap.burstDropLength - 1;
          return true, {Drop, BurstDrop};
        }
      }
      if !snap.burstDropEnabled && Applies(snap.dropRate, d.drop) {
        return true, {Drop};
      }
      return false, {};
    }

    method ResolveScheduledDelay(snap: EffectSnapshot, d: Draws) returns (delay: int, effects: set<Effect>)
      ensures delay == DelayNanos(snap, d) && effects == DelayEffects(snap)
    {
      var ms := snap.delayMs;
      effects := {};
      if snap.delayMs > 0 { effects := effects + {Delay}; }
      if snap.delayJitterMs > 0 {
        ms := ms + Min(d.jitter, snap.delayJitterMs);
        effects := effects + {DelayJitter};
      }
      delay := ms * NANOS_PER_MS;
    }

    /** The copy loop, proved to produce an arithmetic progression of release times. */
    method EmitPacketCopies(packet: OwnedPacket, count: nat, now: Time, delay: int, rate: nat)
      returns (immediate: seq<OwnedPacket>, scheduled: seq<ScheduledPacket>, throttled: bool)
      requires count > 0
      modifies this`nextThrottleReleaseAt
      ensures var first, gap := FirstRelease(old(nextThrottleReleaseAt), now, delay, rate), TransmissionTime(|packet.data|, rate);
              && immediate == Immediates(packet, first, gap, count, now)
              && scheduled == Scheduleds(packet, first, gap, count, now)
              && (throttled <==> rate > 0 && (first > now + delay || (count > 1 && gap > 0)))
              && nextThrottleReleaseAt == if rate > 0 then Nth(first, gap, count) else old(nextThrottleReleaseAt)
    {
      var base := now + delay;
      var throttleReleaseAt := if nextThrottleReleaseAt < now then now else nextThrottleReleaseAt;
      var gap := TransmissionTime(|packet.data|, rate);
      ghost var first := FirstRelease(nextThrottleReleaseAt, now, delay, rate);
      immediate, scheduled, throttled := [], [], false;
      var i := 0;
      while i < count
        invariant 0 <= i <= count && nextThrottleReleaseAt == old(nextThrottleReleaseAt)
        invariant immediate == Immediates(packet, first, gap, i, now)
        invariant scheduled == Scheduleds(packet, first, gap, i, now)
        invariant rate > 0 ==> Max(base, throttleReleaseAt) == Nth(first, gap, i)
        invariant rate > 0 && i > 0 ==> throttleReleaseAt == Nth(first, gap, i)
        invariant rate == 0 ==> Nth(first, gap, i) == base
        invariant throttled <==> rate > 0 && ((i > 0 && first > base) || (i > 1 && gap > 0))
      {
        var releaseAt := base;
        if rate > 0 {
          var throttledReleaseAt := Max(releaseAt, throttleReleaseAt);
          if throttledReleaseAt > releaseAt { throttled := true; }
          releaseAt := throttledReleaseAt;
          throttleReleaseAt := throttledReleaseAt + gap;
        }
        if releaseAt <= now {
          immediate := immediate + [packet];
        } else {
          scheduled := scheduled + [ScheduledPacket(packet, releaseAt)];
        }
        i := i + 1;
      }
      if rate > 0 { nextThrottleReleaseAt := throttleReleaseAt; }
    }

    method Process(packet: OwnedPacket, now: Time, draws: Draws) returns (emission: Emission)
      requires config.Valid()
      modifies this
      ensures (View(), emission) == Processed(old(View()), Input(config.Snapshot(), packet, now, draws))
    {
      var snap := config.Snapshot();
      ResetThrottleStateIfNeeded(snap);
      var drop, effects := ShouldDropPacket(snap, draws);
      if drop { return Emission(effects, [], []); }
      var count := 1;
      if snap.duplicateCount > 0 && Applies(snap.duplicateRate, draws.duplicate) {
        count := count + snap.duplicateCount;
        effects := {Duplicate};
      }
      var delay, delayEffects := ResolveScheduledDelay(snap, draws);
      var immediate, scheduled, throttled := EmitPacketCopies(packet, count, now, delay, snap.throttleBytesPerSecond);
      effects := effects + delayEffects + (if throttled then {BandwidthThrottle} else {});
      emission := Emission(effects, immediate, scheduled);
    }
  }

  /** PacketEffectEngine: one engine a direction. */
  datatype Engines = Engines(outbound: Engine, inbound: Engine)

  function ProcessEither(es: Engines, i: Input): (Engines, Emission) {
    if i.packet.metadata.isOutbound then
      var (e, m) := Processed(es.outbound, i);
      (es.(outbound := e), m)
    else
      var (e, m) := Processed(es.inbound, i);
      (es.(inbound := e), m)
  }

  class PacketEffectEngine {
    const outbound: DirectionPacketEffectEngine
    const inbound: DirectionPacketEffectEngine

    ghost predicate Valid()
      reads outbound.config, inbound.config
    {
      outbound != inbound && outbound.config.Valid() && inbound.config.Valid()
    }

    function View(): Engines
      reads outbound, inbound
    {
      Engines(outbound.View(), inbound.View())
    }

    function Snapshot(isOutbound: bool): EffectSnapshot
      reads outbound.config, inbound.config
      requires Valid()
    {
      if isOutbound then outbound.config.Snapshot() else inbound.config.Snapshot()
    }

    constructor (out: DirectionEffectConfig, in_: DirectionEffectConfig)
      requires out.Valid() && in_.Valid()
      ensures Valid() && fresh(outbound) && fresh(inbound)
      ensures View() == Engines(Engine(0, 0, 0), Engine(0, 0, 0))
      ensures outbound.config == out && inbound.config == in_
    {
      outbound := new DirectionPacketEffectEngine(out);
      inbound := new DirectionPacketEffectEngine(in_);
    }

    method Process(packet: OwnedPacket, now: Time, draws: Draws) returns (emission: Emission)
      requires Valid()
      modifies outbound, inbound
      ensures Valid()
      ensures (View(), emission) ==
              ProcessEither(old(View()), Input(Snapshot(packet.metadata.isOutbound), packet, now, draws))
    {
      if packet.metadata.isOutbound {
        emission := outbound.Process(packet, now, draws);
      } else {
        emission := inbound.Process(packet, now, draws);
      }
    }
  }
}

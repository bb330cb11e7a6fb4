/** Properties of the effect engine over single packets and over whole runs. */
module EffectTheorems {
  import opened Packets
  import opened EffectConfigs
  import opened Throttling
  import opened EffectEngines

  predicate IsLost(e: Engine, i: Input) {
    Lost(e.burstRemaining, i.snap, i.draws)
  }

  /** now + delay of a packet: the configured delay and the jitter drawn, in milliseconds. */
  function Base(i: Input): Time {
    i.now + (i.snap.delayMs + Min(i.draws.jitter, i.snap.delayJitterMs)) * NANOS_PER_MS
  }

  // ----- One packet -----

  lemma {:induction false} NthOrdered(first: Time, gap: nat, i: nat, j: nat)
    requires i <= j
    ensures Nth(first, gap, i) <= Nth(first, gap, j)
    ensures i < j && gap > 0 ==> Nth(first, gap, i) < Nth(first, gap, j)
    decreases j
  {
    if i < j { NthOrdered(first, gap, i, j - 1); }
  }

  /** n release times split at `now`: a prefix of copies leaves at once, the rest is scheduled
      strictly later, in order. */
  ghost predicate SplitAt(p: OwnedPacket, first: Time, gap: nat, n: nat, now: Time,
                          imm: seq<OwnedPacket>, sch: seq<ScheduledPacket>)
  {
    && |imm| + |sch| == n
    && (forall i :: 0 <= i < |imm| ==> imm[i] == p && Nth(first, gap, i) == now)
    && (forall i :: 0 <= i < |sch| ==> sch[i] == ScheduledPacket(p, Nth(first, gap, |imm| + i)) && sch[i].releaseAt > now)
    && (gap > 0 ==> |imm| <= 1)
  }

  lemma LastScheduled(p: OwnedPacket, first: Time, gap: nat, n: nat, now: Time, imm: seq<OwnedPacket>, sch: seq<ScheduledPacket>)
    requires SplitAt(p, first, gap, n, now, imm, sch) && sch != []
    ensures n > 0 && Nth(first, gap, n - 1) > now
  {
    assert sch[|sch| - 1].releaseAt > now;
  }

  /** One copy more that is due now: all before it were. */
  lemma SplitNow(p: OwnedPacket, first: Time, gap: nat, n: nat, now: Time, imm: seq<OwnedPacket>, sch: seq<ScheduledPacket>)
    requires first >= now && SplitAt(p, first, gap, n, now, imm, sch) && Nth(first, gap, n) <= now
    ensures sch == [] && SplitAt(p, first, gap, n + 1, now, imm + [p], sch)
  {
    if n > 0 { NthOrdered(first, gap, n - 1, n); }
    if sch != [] { LastScheduled(p, first, gap, n, now, imm, sch); }
  }

  /** One copy more that is due later. */
  lemma SplitLater(p: OwnedPacket, first: Time, gap: nat, n: nat, now: Time, imm: seq<OwnedPacket>, sch: seq<ScheduledPacket>)
    requires SplitAt(p, first, gap, n, now, imm, sch) && Nth(first, gap, n) > now
    ensures SplitAt(p, first, gap, n + 1, now, imm, sch + [ScheduledPacket(p, Nth(first, gap, n))])
  {
    var sch' := sch + [ScheduledPacket(p, Nth(first, gap, n))];
    forall i | 0 <= i < |sch'| ensures sch'[i] == ScheduledPacket(p, Nth(first, gap, |imm| + i)) && sch'[i].releaseAt > now {
      if i == |sch| { assert |imm| + i == n; }
    }
  }

  lemma {:induction false} Split(p: OwnedPacket, first: Time, gap: nat, n: nat, now: Time)
    requires first >= now
    ensures SplitAt(p, first, gap, n, now, Immediates(p, first, gap, n, now), Scheduleds(p, first, gap, n, now))
  {
    if n > 0 {
      Split(p, first, gap, n - 1, now);
      var imm, sch := Immediates(p, first, gap, n - 1, now), Scheduleds(p, first, gap, n - 1, now);
      if Nth(first, gap, n - 1) <= now {
        SplitNow(p, first, gap, n - 1, now, imm, sch);
        assert sch + [] == sch;
      } else {
        SplitLater(p, first, gap, n - 1, now, imm, sch);
        assert imm + [] == imm;
      }
    }
  }

  /** Whatever the rate, an effect applies exactly if the draw is below it. */
  lemma AppliesBelowRate(rate: real, u: Unit)
    ensures Applies(rate, u) <==> u < rate
  {
  }

  lemma DelayIsBase(i: Input)
    requires i.snap.InRange()
    ensures i.now + DelayNanos(i.snap, i.draws) == Base(i) >= i.now
  {
  }

  lemma DelayNonNegative(i: Input)
    requires i.snap.InRange()
    ensures 0 <= DelayNanos(i.snap, i.draws) <= (i.snap.delayMs + MAX_DELAY_JITTER_MS) * NANOS_PER_MS
  {
  }

  /** The throttle's free time that applies to a packet seen under `revision`. */
  function FreeAt(e: Engine, revision: nat): Time {
    if e.lastRevision == revision then e.nextRelease else 0
  }

  /** What Process does to a packet that is not lost, in terms of its first release time, the gap
      between copies and their number. */
  lemma Surviving(e: Engine, i: Input) returns (e': Engine, m: Emission, base: Time, first: Time, gap: nat, n: nat)
    requires i.snap.InRange() && !IsLost(e, i)
    ensures (e', m) == Processed(e, i) && base == Base(i) && gap == Gap(i) && n == CopyCount(i.snap, i.draws)
    ensures base >= i.now && 1 <= n <= 1 + MAX_DUPLICATE_COPIES
    ensures n == if i.draws.duplicate < i.snap.duplicateRate then 1 + i.snap.duplicateCount else 1
    ensures SplitAt(i.packet, first, gap, n, i.now, m.immediate, m.scheduled) && Drop !in m.effects
    ensures i.snap.throttleBytesPerSecond > 0 ==>
              && first == Max(base, FreeAt(e, i.snap.throttleRevision)) && e'.nextRelease == Nth(first, gap, n)
              && (gap > 0 <==> |i.packet.data| > 0)
              && (BandwidthThrottle in m.effects <==> first > base || (n > 1 && gap > 0))
    ensures i.snap.throttleBytesPerSecond == 0 ==> first == base && gap == 0 && BandwidthThrottle !in m.effects
    ensures e'.lastRevision == i.snap.throttleRevision
  {
    var r := Reset(e, i.snap);
    DelayIsBase(i);
    AppliesBelowRate(i.snap.duplicateRate, i.draws.duplicate);
    e', m, base, gap, n := Processed(e, i).0, Processed(e, i).1, Base(i), Gap(i), CopyCount(i.snap, i.draws);
    first := First(r.nextRelease, i);
    Split(i.packet, first, gap, n, i.now);
    if i.snap.throttleBytesPerSecond > 0 { GapPositive(|i.packet.data|, i.snap.throttleBytesPerSecond); }
  }

  lemma GapPositive(bytes: nat, rate: nat)
    requires bytes <= MTU && 0 < rate <= MAX_RATE
    ensures TransmissionTime(bytes, rate) > 0 <==> bytes > 0
  {
    TransmissionTimeIsCeiling(bytes, rate);
  }

  ghost predicate CopiesShaped(p: OwnedPacket, now: Time, m: Emission) {
    && 1 <= |m.immediate| + |m.scheduled| <= 1 + MAX_DUPLICATE_COPIES
    && (forall k :: 0 <= k < |m.immediate| ==> m.immediate[k] == p)
    && (forall k :: 0 <= k < |m.scheduled| ==> m.scheduled[k].packet == p && m.scheduled[k].releaseAt > now)
    && (forall k, l :: 0 <= k < l < |m.scheduled| ==> m.scheduled[k].releaseAt <= m.scheduled[l].releaseAt)
  }

  lemma SplitShaped(p: OwnedPacket, first: Time, gap: nat, n: nat, now: Time, m: Emission)
    requires SplitAt(p, first, gap, n, now, m.immediate, m.scheduled) && 1 <= n <= 1 + MAX_DUPLICATE_COPIES
    ensures CopiesShaped(p, now, m)
  {
    forall k, l | 0 <= k < l < |m.scheduled| ensures m.scheduled[k].releaseAt <= m.scheduled[l].releaseAt {
      NthOrdered(first, gap, |m.immediate| + k, |m.immediate| + l);
    }
  }

  /** When a packet is lost: in burst mode if a burst is under way or the draw starts one, otherwise
      if the drop draw is below the drop rate. */
  lemma LostExactlyIf(e: Engine, i: Input)
    ensures Drop in Processed(e, i).1.effects <==>
            if i.snap.burstDropEnabled then e.burstRemaining > 0 || i.draws.burst < i.snap.burstDropRate
            else i.draws.drop < i.snap.dropRate
  {
    LostPacket(e, i);
    AppliesBelowRate(i.snap.burstDropRate, i.draws.burst);
    AppliesBelowRate(i.snap.dropRate, i.draws.drop);
  }

  /** A packet is lost, and then nothing is emitted; or it yields 1..65 identical copies, those due
      now sent at once and the others scheduled strictly later in order. With a throttle at most
      one nonempty copy leaves at once. */
  lemma EmissionShape(e: Engine, i: Input)
    requires i.snap.InRange()
    ensures var m := Processed(e, i).1;
            && (Drop in m.effects <==> IsLost(e, i))
            && (IsLost(e, i) ==> m.immediate == [] && m.scheduled == [])
            && (!IsLost(e, i) ==> CopiesShaped(i.packet, i.now, m))
            && (!IsLost(e, i) ==> |m.immediate| + |m.scheduled| ==
                                  if i.draws.duplicate < i.snap.duplicateRate then 1 + i.snap.duplicateCount else 1)
            && (i.snap.throttleBytesPerSecond > 0 && |i.packet.data| > 0 ==> |m.immediate| <= 1)
  {
    if !IsLost(e, i) {
      var e', m, base, first, gap, n := Surviving(e, i);
      SplitShaped(i.packet, first, gap, n, i.now, m);
    }
  }

  lemma HeldBack(p: OwnedPacket, base: Time, first: Time, gap: nat, n: nat, now: Time, m: Emission)
    requires SplitAt(p, first, gap, n, now, m.immediate, m.scheduled) && n >= 1 && first >= base >= now
    ensures (first > base || (n > 1 && gap > 0)) <==> exists k :: 0 <= k < |m.scheduled| && m.scheduled[k].releaseAt > base
  {
    var imm := |m.immediate|;
    if first > base || (n > 1 && gap > 0) {
      assert Nth(first, gap, n - 1) > base;
      assert n - 1 >= imm;
      assert m.scheduled[n - 1 - imm].releaseAt > base;
    }
    forall k | 0 <= k < |m.scheduled| && m.scheduled[k].releaseAt > base ensures first > base || (n > 1 && gap > 0) {
      assert Nth(first, gap, imm + k) > base;
    }
  }

  /** The throttle is reported exactly when it makes some copy leave after now + delay. */
  lemma ThrottleReportedIffHeldBack(e: Engine, i: Input)
    requires i.snap.InRange()
    ensures var m := Processed(e, i).1;
            BandwidthThrottle in m.effects <==> exists k :: 0 <= k < |m.scheduled| && m.scheduled[k].releaseAt > Base(i)
  {
    if !IsLost(e, i) {
      var e', m, base, first, gap, n := Surviving(e, i);
      HeldBack(i.packet, base, first, gap, n, i.now, m);
    }
  }

  /** What an emission reports: a lost packet only that it was lost, and in a burst exactly in burst
      mode; another one Delay and DelayJitter as configured, and Duplicate exactly when there is more
      than one copy. */
  lemma EffectsReported(e: Engine, i: Input)
    requires i.snap.InRange()
    ensures var m := Processed(e, i).1;
            if IsLost(e, i) then m.effects == {Drop} + (if i.snap.burstDropEnabled then {BurstDrop} else {})
            else
              && BurstDrop !in m.effects
              && (Delay in m.effects <==> i.snap.delayMs > 0)
              && (DelayJitter in m.effects <==> i.snap.delayJitterMs > 0)
              && (Duplicate in m.effects <==> |m.immediate| + |m.scheduled| > 1)
  {
    EmissionShape(e, i);
  }

  /** Without a throttle every copy of a packet leaves at the same instant: after the configured
      delay and at most the configured jitter on top; at once exactly if that adds up to nothing. */
  lemma UnthrottledDelay(e: Engine, i: Input)
    requires i.snap.InRange() && i.snap.throttleBytesPerSecond == 0 && !IsLost(e, i)
    ensures var m := Processed(e, i).1;
            && i.now + i.snap.delayMs * NANOS_PER_MS <= Base(i) <= i.now + (i.snap.delayMs + i.snap.delayJitterMs) * NANOS_PER_MS
            && (m.scheduled == [] <==> Base(i) == i.now) && (m.immediate == [] <==> Base(i) > i.now)
            && forall k :: 0 <= k < |m.scheduled| ==> m.scheduled[k].releaseAt == Base(i)
  {
    var e', m, base, first, gap, n := Surviving(e, i);
    forall k | 0 <= k < |m.scheduled| ensures m.scheduled[k].releaseAt == Base(i) {
      assert m.scheduled[k] == ScheduledPacket(i.packet, Nth(first, gap, |m.immediate| + k));
    }
    if m.immediate != [] { assert m.immediate[0] == i.packet && Nth(first, gap, 0) == i.now; }
    if m.scheduled != [] { assert m.scheduled[0].releaseAt > i.now; }
  }

  /** With or without a throttle no copy leaves before the packet's own delay is over. */
  lemma NeverBeforeDelay(e: Engine, i: Input)
    requires i.snap.InRange()
    ensures var m := Processed(e, i).1;
            && (forall k :: 0 <= k < |m.scheduled| ==> m.scheduled[k].releaseAt >= Base(i) >= i.now + i.snap.delayMs * NANOS_PER_MS)
            && (m.immediate != [] ==> Base(i) == i.now && i.snap.delayMs == 0)
  {
    if !IsLost(e, i) {
      var e', m, base, first, gap, n := Surviving(e, i);
      forall k | 0 <= k < |m.scheduled| ensures m.scheduled[k].releaseAt >= Base(i) {
        assert m.scheduled[k] == ScheduledPacket(i.packet, Nth(first, gap, |m.immediate| + k));
      }
      if m.immediate != [] { assert m.immediate[0] == i.packet && Nth(first, gap, 0) == i.now; }
    }
  }

  // ----- Whole runs: the throttle -----

  /** The copies of one emission and when each leaves: at once, or at its scheduled time. */
  function CopiesFrom(m: Emission, now: Time, base: Time, bytes: nat, gap: nat): (c: seq<Copy>)
    ensures |c| == |m.immediate| + |m.scheduled|
    ensures forall k :: 0 <= k < |c| ==>
              c[k] == Copy(base, bytes, gap, if k < |m.immediate| then now else m.scheduled[k - |m.immediate|].releaseAt)
  {
    seq(|m.immediate| + |m.scheduled|, k requires 0 <= k < |m.immediate| + |m.scheduled| =>
      Copy(base, bytes, gap, if k < |m.immediate| then now else m.scheduled[k - |m.immediate|].releaseAt))
  }

  /** The copies one packet yields, none if it is lost. */
  function CopiesOf(e: Engine, i: Input): seq<Copy> {
    CopiesFrom(Processed(e, i).1, i.now, Base(i), |i.packet.data|, Gap(i))
  }

  function Run(e: Engine, ins: seq<Input>): Engine
    decreases |ins|
  {
    if ins == [] then e else Run(Processed(e, ins[0]).0, ins[1..])
  }

  /** Every copy emitted over a run, in emission order. */
  function CopiesOfRun(e: Engine, ins: seq<Input>): seq<Copy>
    decreases |ins|
  {
    if ins == [] then [] else CopiesOf(e, ins[0]) + CopiesOfRun(Processed(e, ins[0]).0, ins[1..])
  }

  /** One throttle setting, observed under one revision. */
  predicate OneSetting(ins: seq<Input>, revision: nat, rate: nat) {
    forall k :: 0 <= k < |ins| ==>
                  ins[k].snap.InRange() && ins[k].snap.throttleRevision == revision && ins[k].snap.throttleBytesPerSecond == rate
  }

  lemma ProgressionIsLindley(next: Time, p: OwnedPacket, m: Emission, now: Time, base: Time, first: Time, gap: nat, n: nat)
    requires SplitAt(p, first, gap, n, now, m.immediate, m.scheduled) && n > 0 && first == Max(base, next)
    ensures var copies := CopiesFrom(m, now, base, |p.data|, gap);
            Lindley(next, copies) && |copies| == n && FreeAfter(next, copies, n) == Nth(first, gap, n)
  {
    var copies := CopiesFrom(m, now, base, |p.data|, gap);
    forall k | 0 <= k < n ensures DepartsAt(copies, k, Nth(first, gap, k), base, gap) {
      if k >= |m.immediate| { assert m.scheduled[k - |m.immediate|].releaseAt == Nth(first, gap, k); }
    }
    ProgressionLindley(next, copies, base, first, gap);
  }

  predicate DepartsAt(copies: seq<Copy>, k: nat, t: Time, base: Time, gap: nat) {
    k < |copies| && copies[k].departure == t && copies[k].base == base && copies[k].cost == gap
  }

  lemma ProgressionLindley(next: Time, copies: seq<Copy>, base: Time, first: Time, gap: nat)
    requires copies != [] && first == Max(base, next)
    requires forall k :: 0 <= k < |copies| ==> DepartsAt(copies, k, Nth(first, gap, k), base, gap)
    ensures Lindley(next, copies) && FreeAfter(next, copies, |copies|) == Nth(first, gap, |copies|)
  {
    forall k | 0 <= k < |copies| ensures LindleyAt(next, copies, k) {
      assert DepartsAt(copies, k, Nth(first, gap, k), base, gap);
      if k > 0 { assert DepartsAt(copies, k - 1, Nth(first, gap, k - 1), base, gap); }
    }
    assert DepartsAt(copies, |copies| - 1, Nth(first, gap, |copies| - 1), base, gap);
  }

  lemma PacketIsLindley(e: Engine, i: Input)
    requires i.snap.InRange() && i.snap.throttleBytesPerSecond > 0
    ensures var copies, next, e' := CopiesOf(e, i), FreeAt(e, i.snap.throttleRevision), Processed(e, i).0;
            && Lindley(next, copies) && Priced(copies, i.snap.throttleBytesPerSecond)
            && e'.lastRevision == i.snap.throttleRevision && FreeAfter(next, copies, |copies|) == e'.nextRelease
  {
    if !IsLost(e, i) {
      var e', m, base, first, gap, n := Surviving(e, i);
      ProgressionIsLindley(FreeAt(e, i.snap.throttleRevision), i.packet, m, i.now, base, first, gap, n);
    }
  }

  /** Over any run within one throttle setting, whatever is lost, delayed or duplicated, the copies
      leave as the single-server recursion says. */
  lemma {:induction false} RunIsLindley(e: Engine, ins: seq<Input>, revision: nat, rate: nat)
    requires OneSetting(ins, revision, rate) && 0 < rate <= MAX_RATE
    ensures Lindley(FreeAt(e, revision), CopiesOfRun(e, ins)) && Priced(CopiesOfRun(e, ins), rate)
    decreases |ins|
  {
    if ins != [] {
      PacketIsLindley(e, ins[0]);
      var e' := Processed(e, ins[0]).0;
      RunIsLindley(e', ins[1..], revision, rate);
      LindleyConcat(FreeAt(e, revision), CopiesOf(e, ins[0]), CopiesOfRun(e', ins[1..]));
    }
  }

  lemma BaseNonNegative(e: Engine, i: Input)
    requires i.snap.InRange() && i.now >= 0
    ensures forall k :: 0 <= k < |CopiesOf(e, i)| ==> CopiesOf(e, i)[k].base >= 0
  {
  }

  lemma {:induction false} BasesNonNegative(e: Engine, ins: seq<Input>, revision: nat, rate: nat)
    requires OneSetting(ins, revision, rate) && forall k :: 0 <= k < |ins| ==> ins[k].now >= 0
    ensures forall k :: 0 <= k < |CopiesOfRun(e, ins)| ==> CopiesOfRun(e, ins)[k].base >= 0
    decreases |ins|
  {
    if ins != [] {
      BaseNonNegative(e, ins[0]);
      var e' := Processed(e, ins[0]).0;
      BasesNonNegative(e', ins[1..], revision, rate);
      var a, b := CopiesOf(e, ins[0]), CopiesOfRun(e', ins[1..]);
      assert CopiesOfRun(e, ins) == a + b;
    }
  }

  /** Copy k leaves exactly at the maximum over i <= k of its base time plus the transmission time
      of copies i..k - 1. */
  ghost predicate ClosedFormAt(c: seq<Copy>, k: nat)
    requires k < |c|
  {
    && (forall i :: 0 <= i <= k ==> c[i].base + Work(c, i, k) <= c[k].departure)
    && (exists i :: 0 <= i <= k && c[k].departure == c[i].base + Work(c, i, k))
  }

  /** Under a fresh revision, every copy of the run leaves as the closed form says. */
  lemma DepartureClosedForm(e: Engine, ins: seq<Input>, revision: nat, rate: nat) returns (c: seq<Copy>)
    requires OneSetting(ins, revision, rate) && 0 < rate <= MAX_RATE && e.lastRevision != revision
    requires forall j :: 0 <= j < |ins| ==> ins[j].now >= 0
    ensures c == CopiesOfRun(e, ins) && forall k :: 0 <= k < |c| ==> ClosedFormAt(c, k)
  {
    c := CopiesOfRun(e, ins);
    RunIsLindley(e, ins, revision, rate);
    BasesNonNegative(e, ins, revision, rate);
    forall k | 0 <= k < |c| ensures ClosedFormAt(c, k) {
      ClosedForm(0, c, k);
      if c[k].departure == 0 + Work(c, 0, k) { assert c[k].departure == c[0].base + Work(c, 0, k); }
    }
  }

  /** The run's departures respect the delays and space copies by their transmission times, and no
      other schedule that does lets any copy leave earlier. */
  lemma DeparturesEarliest(e: Engine, ins: seq<Input>, revision: nat, rate: nat) returns (c: seq<Copy>)
    requires OneSetting(ins, revision, rate) && 0 < rate <= MAX_RATE
    ensures c == CopiesOfRun(e, ins) && Allowed(FreeAt(e, revision), c, Departures(c))
    ensures forall s: seq<Time> :: Allowed(FreeAt(e, revision), c, s) ==> forall k :: 0 <= k < |c| ==> c[k].departure <= s[k]
  {
    c := CopiesOfRun(e, ins);
    RunIsLindley(e, ins, revision, rate);
    DeparturesAllowed(FreeAt(e, revision), c);
    forall s: seq<Time>, k | Allowed(FreeAt(e, revision), c, s) && 0 <= k < |c| ensures c[k].departure <= s[k] {
      EarliestSchedule(FreeAt(e, revision), c, s, k);
    }
  }

  /** The real byte rate: the bytes that leave from copy i until copy j fit the configured rate. */
  lemma ByteRateBound(e: Engine, ins: seq<Input>, revision: nat, rate: nat) returns (c: seq<Copy>)
    requires OneSetting(ins, revision, rate) && 0 < rate <= MAX_RATE
    ensures c == CopiesOfRun(e, ins)
    ensures forall i, j :: 0 <= i <= j < |c| ==>
              Bytes(c, i, j) * NANOS_PER_SEC <= rate * (c[j].departure - c[i].departure)
  {
    c := CopiesOfRun(e, ins);
    RunIsLindley(e, ins, revision, rate);
    forall i, j | 0 <= i <= j < |c| ensures Bytes(c, i, j) * NANOS_PER_SEC <= rate * (c[j].departure - c[i].departure) {
      ByteRate(FreeAt(e, revision), c, rate, i, j);
    }
  }

  /** Any window of w nanoseconds carries at most rate * w / 10^9 bytes and one packet more. */
  lemma WindowBytes(e: Engine, ins: seq<Input>, revision: nat, rate: nat, w: nat) returns (c: seq<Copy>)
    requires OneSetting(ins, revision, rate) && 0 < rate <= MAX_RATE
    ensures c == CopiesOfRun(e, ins)
    ensures forall i, j :: 0 <= i <= j < |c| && c[j].departure - c[i].departure <= w ==>
              Bytes(c, i, j + 1) * NANOS_PER_SEC <= rate * w + MTU * NANOS_PER_SEC
  {
    c := CopiesOfRun(e, ins);
    RunIsLindley(e, ins, revision, rate);
    forall i, j | 0 <= i <= j < |c| && c[j].departure - c[i].departure <= w
      ensures Bytes(c, i, j + 1) * NANOS_PER_SEC <= rate * w + MTU * NANOS_PER_SEC
    {
      WindowBound(FreeAt(e, revision), c, rate, i, j, w);
    }
  }

  /** And the rate is met: over a backlogged stretch rounding to nanoseconds loses less than one
      nanosecond a copy. */
  lemma ByteRateMet(e: Engine, ins: seq<Input>, revision: nat, rate: nat) returns (c: seq<Copy>)
    requires OneSetting(ins, revision, rate) && 0 < rate <= MAX_RATE
    ensures c == CopiesOfRun(e, ins)
    ensures forall i: nat, j: nat :: i < j && NeverIdle(FreeAt(e, revision), c, i, j) ==>
              rate * (c[j].departure - c[i].departure) < Bytes(c, i, j) * NANOS_PER_SEC + rate * (j - i)
  {
    c := CopiesOfRun(e, ins);
    RunIsLindley(e, ins, revision, rate);
    forall i: nat, j: nat | i < j && NeverIdle(FreeAt(e, revision), c, i, j)
      ensures rate * (c[j].departure - c[i].departure) < Bytes(c, i, j) * NANOS_PER_SEC + rate * (j - i)
    {
      BackloggedRounding(FreeAt(e, revision), c, rate, i, j);
    }
  }

  // ----- Whole runs: burst loss -----

  predicate CounterOk(remaining: int) {
    0 <= remaining < MAX_BURST_DROP_LENGTH
  }

  /** Over any run the burst counter stays within 0..31, and it is 0 after any packet seen with burst
      mode off. */
  lemma {:induction false} BurstCounterRange(e: Engine, ins: seq<Input>)
    requires (forall k :: 0 <= k < |ins| ==> ins[k].snap.InRange()) && CounterOk(e.burstRemaining)
    ensures CounterOk(Run(e, ins).burstRemaining)
    ensures ins != [] && !ins[|ins| - 1].snap.burstDropEnabled ==> Run(e, ins).burstRemaining == 0
    decreases |ins|
  {
    if ins != [] { BurstCounterRange(Processed(e, ins[0]).0, ins[1..]); }
  }

  /** Which packets of a run are lost, from the loss counter alone. */
  function Losses(remaining: int, ins: seq<Input>): (l: seq<bool>)
    ensures |l| == |ins|
    decreases |ins|
  {
    if ins == [] then []
    else [Lost(remaining, ins[0].snap, ins[0].draws)] + Losses(Loss(remaining, ins[0].snap, ins[0].draws).0, ins[1..])
  }

  function Emissions(e: Engine, ins: seq<Input>): (m: seq<Emission>)
    ensures |m| == |ins|
    decreases |ins|
  {
    if ins == [] then [] else [Processed(e, ins[0]).1] + Emissions(Processed(e, ins[0]).0, ins[1..])
  }

  lemma LostPacket(e: Engine, i: Input)
    ensures Processed(e, i).0.burstRemaining == Loss(e.burstRemaining, i.snap, i.draws).0
    ensures Drop in Processed(e, i).1.effects <==> Lost(e.burstRemaining, i.snap, i.draws)
  {
  }

  /** The engine marks and suppresses exactly those packets. */
  lemma {:induction false} EngineFollowsLosses(e: Engine, ins: seq<Input>, k: nat)
    requires k < |ins|
    ensures Drop in Emissions(e, ins)[k].effects <==> Losses(e.burstRemaining, ins)[k]
    decreases |ins|
  {
    LostPacket(e, ins[0]);
    if k > 0 { EngineFollowsLosses(Processed(e, ins[0]).0, ins[1..], k - 1); }
  }

  /** Outside burst mode, whatever came before: a packet is lost exactly if the drop rate is at least
      1, or positive and above the packet's draw, and never as part of a burst. */
  lemma {:induction false} RandomLosses(e: Engine, ins: seq<Input>, k: nat)
    requires k < |ins| && !ins[k].snap.burstDropEnabled
    ensures var effects, rate := Emissions(e, ins)[k].effects, ins[k].snap.dropRate;
            && (Drop in effects <==> rate >= 1.0 || (0.0 < rate && ins[k].draws.drop < rate))
            && BurstDrop !in effects
    decreases |ins|
  {
    if k == 0 {
      LostExactlyIf(e, ins[0]);
    } else {
      RandomLosses(Processed(e, ins[0]).0, ins[1..], k - 1);
    }
  }

  datatype Block = Pass | Burst(length: nat)

  function Pattern(b: Block): seq<bool> {
    if b.Pass? then [false] else Repeat(true, b.length)
  }

  function Patterns(blocks: seq<Block>): seq<bool> {
    if blocks == [] then [] else Pattern(blocks[0]) + Patterns(blocks[1..])
  }

  /** The draw that starts a burst. */
  predicate StartsBurst(i: Input) {
    i.draws.burst < i.snap.burstDropRate
  }

  /** The blocks a run decomposes into: at each block's first packet the draw decides between a
      pass and a burst, and a burst's length is the one configured at that packet. */
  ghost predicate Explains(ins: seq<Input>, blocks: seq<Block>) {
    if ins == [] then blocks == []
    else
      && blocks != []
      && (if StartsBurst(ins[0]) then
            ins[0].snap.burstDropLength > 0 && blocks[0] == Burst(ins[0].snap.burstDropLength)
          else blocks[0] == Pass)
      && Explains(ins[Min(|Pattern(blocks[0])|, |ins|)..], blocks[1..])
  }

  predicate BurstMode(ins: seq<Input>) {
    forall k :: 0 <= k < |ins| ==> ins[k].snap.InRange() && ins[k].snap.burstDropEnabled
  }

  /** While a burst lasts, everything is lost. */
  lemma {:induction false} BurstContinues(remaining: int, ins: seq<Input>, n: nat)
    requires BurstMode(ins) && 0 <= remaining && n == Min(remaining, |ins|)
    ensures Losses(remaining, ins) == Repeat(true, n) + Losses(remaining - n, ins[n..])
    decreases |ins|
  {
    if n > 0 {
      BurstContinues(remaining - 1, ins[1..], n - 1);
      assert ins[1..][n - 1..] == ins[n..];
      assert Repeat(true, n) == [true] + Repeat(true, n - 1);
    } else {
      assert ins[0..] == ins;
    }
  }

  lemma BurstBlock(length: nat, ins: seq<Input>, n: nat)
    requires BurstMode(ins) && ins != [] && length > 0 && n == Min(length, |ins|)
    requires StartsBurst(ins[0]) && ins[0].snap.burstDropLength == length
    ensures Losses(0, ins) == Repeat(true, length)[..n] + Losses(length - n, ins[n..])
  {
    BurstContinues(length - 1, ins[1..], n - 1);
    assert ins[1..][n - 1..] == ins[n..];
    BurstStarts(length, ins);
    RepeatTrue(length, n, Losses(length - n, ins[n..]));
  }

  lemma BurstStarts(length: nat, ins: seq<Input>)
    requires BurstMode(ins) && ins != [] && StartsBurst(ins[0]) && ins[0].snap.burstDropLength == length
    ensures Losses(0, ins) == [true] + Losses(length - 1, ins[1..])
  {
  }

  lemma RepeatTrue(length: nat, n: nat, rest: seq<bool>)
    requires 0 < n <= length
    ensures [true] + (Repeat(true, n - 1) + rest) == Repeat(true, length)[..n] + rest
  {
  }

  lemma PassBlock(ins: seq<Input>)
    requires BurstMode(ins) && ins != [] && !StartsBurst(ins[0])
    ensures Losses(0, ins) == [false] + Losses(0, ins[1..])
  {
  }

  lemma FirstBlock(ins: seq<Input>, b: Block, n: nat)
    requires BurstMode(ins) && ins != [] && n == Min(|Pattern(b)|, |ins|)
    requires b == if StartsBurst(ins[0]) then Burst(ins[0].snap.burstDropLength) else Pass
    ensures n > 0 && Losses(0, ins) == Pattern(b)[..n] + Losses(|Pattern(b)| - n, ins[n..])
  {
    if b.Burst? {
      BurstBlock(b.length, ins, n);
    } else {
      PassBlock(ins);
      assert Pattern(b)[..1] == [false];
    }
  }

  /** A block's losses first, then the rest's. */
  lemma PatternPrefix(b: Block, n: nat, losses: seq<bool>, tail: seq<bool>, rest: seq<bool>)
    requires n <= |Pattern(b)| && losses == Pattern(b)[..n] + tail
    requires (n == |Pattern(b)| && tail <= rest) || tail == []
    ensures losses <= Pattern(b) + rest
  {
  }

  /** In burst mode, from a cleared counter, the losses are exactly the pattern of the explaining
      blocks, the last block possibly unfinished. */
  lemma {:induction false} LossesFollowBlocks(ins: seq<Input>, blocks: seq<Block>)
    requires BurstMode(ins) && Explains(ins, blocks)
    ensures Losses(0, ins) <= Patterns(blocks)
    ensures blocks != [] ==> |Patterns(blocks[..|blocks| - 1])| < |ins|
    decreases |ins|
  {
    if ins != [] {
      var b, rest := blocks[0], blocks[1..];
      var n := Min(|Pattern(b)|, |ins|);
      FirstBlock(ins, b, n);
      LossesFollowBlocks(ins[n..], rest);
      PatternPrefix(b, n, Losses(0, ins), Losses(|Pattern(b)| - n, ins[n..]), Patterns(rest));
      assert blocks == [b] + rest;
      if rest == [] {
        assert blocks[..|blocks| - 1] == [];
      } else {
        LastBlockApart(b, rest);
      }
    }
  }

  lemma LastBlockApart(b: Block, rest: seq<Block>)
    requires rest != []
    ensures var all := [b] + rest;
            |Patterns(all[..|all| - 1])| == |Pattern(b)| + |Patterns(rest[..|rest| - 1])|
  {
    var all := [b] + rest;
    assert all[..|all| - 1] == [b] + rest[..|rest| - 1];
  }

  /** The blocks that account for a run's draws exist. */
  lemma {:induction false} BlocksExist(ins: seq<Input>) returns (blocks: seq<Block>)
    requires BurstMode(ins)
    ensures Explains(ins, blocks)
    decreases |ins|
  {
    if ins == [] { return []; }
    var b := if StartsBurst(ins[0]) then Burst(ins[0].snap.burstDropLength) else Pass;
    var rest := BlocksExist(ins[Min(|Pattern(b)|, |ins|)..]);
    blocks := [b] + rest;
  }

  /** A block that may start at this packet, whatever was drawn: a pass, or a burst of the length
      configured there. */
  predicate MayStart(b: Block, i: Input) {
    b.Burst? ==> b.length > 0 && b.length == i.snap.burstDropLength
  }

  /** The drop decisions alone split into these blocks, the last one possibly cut short: no draw is
      consulted. */
  ghost predicate Decomposes(losses: seq<bool>, ins: seq<Input>, blocks: seq<Block>)
    requires |losses| == |ins|
    decreases |ins|
  {
    if ins == [] then blocks == []
    else
      && blocks != [] && MayStart(blocks[0], ins[0])
      && var n := Min(|Pattern(blocks[0])|, |ins|);
         losses[..n] == Pattern(blocks[0])[..n] && Decomposes(losses[n..], ins[n..], blocks[1..])
  }

  lemma BlockThenRest(b: Block, n: nat, losses: seq<bool>, rest: seq<bool>)
    requires n <= |Pattern(b)| && losses == Pattern(b)[..n] + rest
    ensures losses[..n] == Pattern(b)[..n] && losses[n..] == rest
  {
  }

  /** The blocks behind the draws split the drop decisions. */
  lemma {:induction false} LossesDecompose(ins: seq<Input>, blocks: seq<Block>)
    requires BurstMode(ins) && Explains(ins, blocks)
    ensures Decomposes(Losses(0, ins), ins, blocks)
    decreases |ins|
  {
    if ins != [] {
      var b := blocks[0];
      var n := Min(|Pattern(b)|, |ins|);
      FirstBlock(ins, b, n);
      BlockThenRest(b, n, Losses(0, ins), Losses(|Pattern(b)| - n, ins[n..]));
      LossesDecompose(ins[n..], blocks[1..]);
      assert Losses(|Pattern(b)| - n, ins[n..]) == Losses(0, ins[n..]);
    }
  }

  lemma FirstDecision(losses: seq<bool>, ins: seq<Input>, blocks: seq<Block>)
    requires |losses| == |ins| && ins != [] && Decomposes(losses, ins, blocks)
    ensures blocks != [] && MayStart(blocks[0], ins[0]) && (losses[0] <==> blocks[0].Burst?)
  {
    var p := Pattern(blocks[0]);
    var n := Min(|p|, |ins|);
    assert losses[0] == losses[..n][0] == p[..n][0];
  }

  lemma {:induction false} SameFirstBlock(losses: seq<bool>, ins: seq<Input>, a: seq<Block>, b: seq<Block>)
    requires |losses| == |ins| && ins != [] && Decomposes(losses, ins, a) && Decomposes(losses, ins, b)
    ensures a != [] && b != [] && a[0] == b[0]
  {
    FirstDecision(losses, ins, a);
    FirstDecision(losses, ins, b);
  }

  /** From the drop decisions and the configured lengths alone, the split into passes and bursts is
      unique: a run of drops longer than one burst can be cut in one way only. */
  lemma {:induction false} BlocksUnique(losses: seq<bool>, ins: seq<Input>, a: seq<Block>, b: seq<Block>)
    requires |losses| == |ins| && Decomposes(losses, ins, a) && Decomposes(losses, ins, b)
    ensures a == b
    decreases |ins|
  {
    if ins != [] {
      SameFirstBlock(losses, ins, a, b);
      var n := Min(|Pattern(a[0])|, |ins|);
      BlocksUnique(losses[n..], ins[n..], a[1..], b[1..]);
      assert a == [a[0]] + a[1..] && b == [b[0]] + b[1..];
    }
  }

  /** Every run in burst mode from a cleared counter: its drop decisions split into passes and bursts
      of exactly the configured lengths, in one way. */
  lemma DropsDecomposeUniquely(ins: seq<Input>) returns (blocks: seq<Block>)
    requires BurstMode(ins)
    ensures Decomposes(Losses(0, ins), ins, blocks)
    ensures forall other :: Decomposes(Losses(0, ins), ins, other) ==> other == blocks
  {
    blocks := BlocksExist(ins);
    LossesDecompose(ins, blocks);
    forall other | Decomposes(Losses(0, ins), ins, other) ensures other == blocks {
      BlocksUnique(Losses(0, ins), ins, other, blocks);
    }
  }

  // ----- Whole runs: directions and lost packets do not interfere -----

  function EmissionsOfBoth(es: Engines, ins: seq<Input>): (m: seq<Emission>)
    ensures |m| == |ins|
    decreases |ins|
  {
    if ins == [] then [] else [ProcessEither(es, ins[0]).1] + EmissionsOfBoth(ProcessEither(es, ins[0]).0, ins[1..])
  }

  /** The packets of one direction, and what was emitted for them. */
  function Side(ins: seq<Input>, outbound: bool): seq<Input> {
    if ins == [] then []
    else (if ins[0].packet.metadata.isOutbound == outbound then [ins[0]] else []) + Side(ins[1..], outbound)
  }

  function SideEmissions(ins: seq<Input>, m: seq<Emission>, outbound: bool): seq<Emission>
    requires |m| == |ins|
  {
    if ins == [] then []
    else (if ins[0].packet.metadata.isOutbound == outbound then [m[0]] else []) + SideEmissions(ins[1..], m[1..], outbound)
  }

  function EngineOf(es: Engines, outbound: bool): Engine {
    if outbound then es.outbound else es.inbound
  }

  lemma OtherSideUntouched(es: Engines, i: Input)
    ensures var (es', m) := ProcessEither(es, i);
            var side := i.packet.metadata.isOutbound;
            && EngineOf(es', !side) == EngineOf(es, !side)
            && (EngineOf(es', side), m) == Processed(EngineOf(es, side), i)
  {
  }

  /** What one direction emits in a mixed run is what its engine alone emits on that direction's
      packets: neither direction can tell whether the other has traffic. */
  lemma {:induction false} DirectionsIndependent(es: Engines, ins: seq<Input>, outbound: bool)
    ensures SideEmissions(ins, EmissionsOfBoth(es, ins), outbound) == Emissions(EngineOf(es, outbound), Side(ins, outbound))
    decreases |ins|
  {
    if ins != [] {
      OtherSideUntouched(es, ins[0]);
      DirectionsIndependent(ProcessEither(es, ins[0]).0, ins[1..], outbound);
      if ins[0].packet.metadata.isOutbound == outbound {
        var rest := Side(ins[1..], outbound);
        assert ([ins[0]] + rest)[1..] == rest;
      } else {
        assert Side(ins, outbound) == Side(ins[1..], outbound);
      }
    }
  }

  /** The packets of a run that are not lost, and their emissions. */
  function Survivors(e: Engine, ins: seq<Input>): seq<Input>
    decreases |ins|
  {
    if ins == [] then []
    else (if IsLost(e, ins[0]) then [] else [ins[0]]) + Survivors(Processed(e, ins[0]).0, ins[1..])
  }

  function SurvivorEmissions(e: Engine, ins: seq<Input>): seq<Emission>
    decreases |ins|
  {
    if ins == [] then []
    else (if IsLost(e, ins[0]) then [] else [Processed(e, ins[0]).1]) + SurvivorEmissions(Processed(e, ins[0]).0, ins[1..])
  }

  /** What an engine without a loss stage would emit. */
  function LosslessEmissions(e: Engine, ins: seq<Input>): seq<Emission>
    decreases |ins|
  {
    if ins == [] then []
    else
      var (e', m) := Emit(Reset(e, ins[0].snap), ins[0]);
      [m] + LosslessEmissions(e', ins[1..])
  }

  predicate RevisionsGrow(last: nat, ins: seq<Input>) {
    && (forall k :: 0 <= k < |ins| ==> last <= ins[k].snap.throttleRevision)
    && (forall k, l :: 0 <= k < l < |ins| ==> ins[k].snap.throttleRevision <= ins[l].snap.throttleRevision)
  }

  /** The throttles of two engines agree, or a lost packet has already reset the first for a
      revision the second has yet to see. */
  predicate Aligned(a: Engine, b: Engine) {
    (a.nextRelease == b.nextRelease && a.lastRevision == b.lastRevision) || (a.nextRelease == 0 && b.lastRevision < a.lastRevision)
  }

  lemma EmitIgnoresLossCounter(a: Engine, b: Engine, i: Input)
    requires a.nextRelease == b.nextRelease && a.lastRevision == b.lastRevision
    ensures Emit(a, i).1 == Emit(b, i).1
    ensures Emit(a, i).0.nextRelease == Emit(b, i).0.nextRelease && Emit(a, i).0.lastRevision == Emit(b, i).0.lastRevision
  {
  }

  lemma ResetAligns(a: Engine, b: Engine, i: Input)
    requires Aligned(a, b) && a.lastRevision <= i.snap.throttleRevision
    ensures Reset(a, i.snap).nextRelease == Reset(b, i.snap).nextRelease
    ensures Reset(a, i.snap).lastRevision == Reset(b, i.snap).lastRevision == i.snap.throttleRevision
    ensures Aligned(Reset(a, i.snap), b)
  {
  }

  lemma ProcessedSplits(e: Engine, i: Input)
    ensures IsLost(e, i) ==> Processed(e, i).0 == Reset(e, i.snap).(burstRemaining := Processed(e, i).0.burstRemaining)
    ensures !IsLost(e, i) ==> exists r :: Processed(e, i) == Emit(Reset(e, i.snap).(burstRemaining := r), i)
  {
    if !IsLost(e, i) {
      assert Processed(e, i) == Emit(Reset(e, i.snap).(burstRemaining := Loss(e.burstRemaining, i.snap, i.draws).0), i);
    }
  }

  /** Lost packets leave no trace in the schedule: with revisions that never go back, the packets
      that survive are emitted exactly as if the lost ones had never arrived. */
  lemma {:induction false} LostPacketsLeaveNoTrace(a: Engine, b: Engine, ins: seq<Input>)
    requires RevisionsGrow(a.lastRevision, ins) && Aligned(a, b)
    ensures SurvivorEmissions(a, ins) == LosslessEmissions(b, Survivors(a, ins))
    decreases |ins|
  {
    if ins != [] {
      var i := ins[0];
      var a' := Processed(a, i).0;
      ResetAligns(a, b, i);
      ProcessedSplits(a, i);
      if IsLost(a, i) {
        assert Survivors(a, ins) == Survivors(a', ins[1..]);
        LostPacketsLeaveNoTrace(a', b, ins[1..]);
      } else {
        var r :| Processed(a, i) == Emit(Reset(a, i.snap).(burstRemaining := r), i);
        EmitIgnoresLossCounter(Reset(a, i.snap).(burstRemaining := r), Reset(b, i.snap), i);
        var b' := Emit(Reset(b, i.snap), i).0;
        assert a'.lastRevision == i.snap.throttleRevision;
        LostPacketsLeaveNoTrace(a', b', ins[1..]);
        var rest := Survivors(a', ins[1..]);
        assert ([i] + rest)[1..] == rest;
      }
    }
  }
}

/** The per-direction effect settings, and the snapshot the engine takes of them per packet.
    Rates are reals; a snapshot is taken atomically. */
module EffectConfigs {
  import opened Packets

  const DEFAULT_DUPLICATE_COPIES := 1
  const MAX_DUPLICATE_COPIES := 64
  const MAX_DELAY_JITTER_MS := 1000
  const DEFAULT_BURST_DROP_LENGTH := 3
  const MAX_BURST_DROP_LENGTH := 32
  const MAX_THROTTLE_KBYTES_PER_SEC := 10240
  const REVISIONS: nat := 0x1_0000_0000_0000_0000  // throttle_revision_ has 64 bits

  function Clamp(x: int, lo: int, hi: int): int {
    if x < lo then lo else if x > hi then hi else x
  }

  function ClampRate(x: real): real {
    if x < 0.0 then 0.0 else if x > 1.0 then 1.0 else x
  }

  function Abs(x: int): int { if x < 0 then -x else x }

  function AbsReal(x: real): real { if x < 0.0 then -x else x }

  /** A setting is stored as the admissible value nearest to the one asked for. */
  lemma ClampNearest(x: int, lo: int, hi: int, y: int)
    requires lo <= y <= hi
    ensures lo <= Clamp(x, lo, hi) <= hi && Abs(x - Clamp(x, lo, hi)) <= Abs(x - y)
  {
  }

  lemma ClampRateNearest(x: real, y: real)
    requires 0.0 <= y <= 1.0
    ensures 0.0 <= ClampRate(x) <= 1.0 && AbsReal(x - ClampRate(x)) <= AbsReal(x - y)
  {
  }

  datatype EffectSnapshot = EffectSnapshot(
    delayMs: int, delayJitterMs: int, throttleBytesPerSecond: nat, throttleRevision: nat,
    burstDropEnabled: bool, burstDropRate: real, burstDropLength: int,
    dropRate: real, duplicateRate: real, duplicateCount: int)
  {
    /** The ranges the setters enforce. */
    predicate InRange() {
      && 0 <= delayMs && 0 <= delayJitterMs <= MAX_DELAY_JITTER_MS
      && throttleBytesPerSecond <= MAX_THROTTLE_KBYTES_PER_SEC * 1024
      && throttleRevision < REVISIONS
      && 1 <= burstDropLength <= MAX_BURST_DROP_LENGTH
      && DEFAULT_DUPLICATE_COPIES <= duplicateCount <= MAX_DUPLICATE_COPIES
      && 0.0 <= burstDropRate <= 1.0 && 0.0 <= dropRate <= 1.0 && 0.0 <= duplicateRate <= 1.0
    }
  }

  class DirectionEffectConfig {
    var delayMs: int
    var delayJitterMs: int
    var throttleKBytesPerSec: int
    var throttleRevision: nat
    var burstDropEnabled: bool
    var burstDropRate: real
    var burstDropLength: int
    var dropRate: real
    var duplicateRate: real
    var duplicateCount: int

    /** DirectionEffectConfig::Snapshot. */
    function Snapshot(): EffectSnapshot
      reads this
      requires throttleKBytesPerSec >= 0
    {
      EffectSnapshot(delayMs, delayJitterMs, throttleKBytesPerSec * 1024, throttleRevision,
        burstDropEnabled, burstDropRate, burstDropLength, dropRate, duplicateRate, duplicateCount)
    }

    ghost predicate Valid()
      reads this
    {
      throttleKBytesPerSec >= 0 && Snapshot().InRange()
    }

    constructor ()
      ensures Valid()
      ensures Snapshot() == EffectSnapshot(0, 0, 0, 0, false, 0.0, DEFAULT_BURST_DROP_LENGTH, 0.0, 0.0, DEFAULT_DUPLICATE_COPIES)
    {
      delayMs, delayJitterMs, throttleKBytesPerSec, throttleRevision := 0, 0, 0, 0;
      burstDropEnabled, burstDropRate, burstDropLength := false, 0.0, DEFAULT_BURST_DROP_LENGTH;
      dropRate, duplicateRate, duplicateCount := 0.0, 0.0, DEFAULT_DUPLICATE_COPIES;
    }

    method SetDelayMs(ms: int)
      requires Valid()
      modifies this`delayMs
      ensures Valid() && Snapshot() == old(Snapshot()).(delayMs := Max(ms, 0))
    {
      delayMs := Max(ms, 0);
    }

    method SetDelayJitterMs(ms: int)
      requires Valid()
      modifies this`delayJitterMs
      ensures Valid() && Snapshot() == old(Snapshot()).(delayJitterMs := Clamp(ms, 0, MAX_DELAY_JITTER_MS))
    {
      delayJitterMs := Clamp(ms, 0, MAX_DELAY_JITTER_MS);
    }

    /** Bumps the revision only when the clamped rate differs from the stored one. */
    method SetThrottleKBytesPerSec(kbytes: int)
      requires Valid()
      modifies this`throttleKBytesPerSec, this`throttleRevision
      ensures Valid()
      ensures Throttle(throttleKBytesPerSec, throttleRevision) == old(Throttle(throttleKBytesPerSec, throttleRevision)).Set(kbytes)
      ensures Snapshot() == old(Snapshot()).(throttleBytesPerSecond := throttleKBytesPerSec * 1024, throttleRevision := throttleRevision)
    {
      var clamped := Clamp(kbytes, 0, MAX_THROTTLE_KBYTES_PER_SEC);
      if throttleKBytesPerSec != clamped {
        throttleKBytesPerSec := clamped;
        throttleRevision := (throttleRevision + 1) % REVISIONS;
      }
    }

    method SetBurstDropEnabled(enabled: bool)
      requires Valid()
      modifies this`burstDropEnabled
      ensures Valid() && Snapshot() == old(Snapshot()).(burstDropEnabled := enabled)
    {
      burstDropEnabled := enabled;
    }

    method SetBurstDropRate(rate: real)
      requires Valid()
      modifies this`burstDropRate
      ensures Valid() && Snapshot() == old(Snapshot()).(burstDropRate := ClampRate(rate))
    {
      burstDropRate := ClampRate(rate);
    }

    method SetBurstDropLength(length: int)
      requires Valid()
      modifies this`burstDropLength
      ensures Valid() && Snapshot() == old(Snapshot()).(burstDropLength := Clamp(length, 1, MAX_BURST_DROP_LENGTH))
    {
      burstDropLength := Clamp(length, 1, MAX_BURST_DROP_LENGTH);
    }

    method SetDropRate(rate: real)
      requires Valid()
      modifies this`dropRate
      ensures Valid() && Snapshot() == old(Snapshot()).(dropRate := ClampRate(rate))
    {
      dropRate := ClampRate(rate);
    }

    method SetDuplicateRate(rate: real)
      requires Valid()
      modifies this`duplicateRate
      ensures Valid() && Snapshot() == old(Snapshot()).(duplicateRate := ClampRate(rate))
    {
      duplicateRate := ClampRate(rate);
    }

    method SetDuplicateCount(count: int)
      requires Valid()
      modifies this`duplicateCount
      ensures Valid()
      ensures Snapshot() == old(Snapshot()).(duplicateCount := Clamp(count, DEFAULT_DUPLICATE_COPIES, MAX_DUPLICATE_COPIES))
    {
      duplicateCount := Clamp(count, DEFAULT_DUPLICATE_COPIES, MAX_DUPLICATE_COPIES);
    }
  }

  // ----- The throttle revision -----

  /** The pair of fields SetThrottleKBytesPerSec writes. */
  datatype Throttle = Throttle(kbytes: int, revision: nat) {
    function Set(kb: int): Throttle {
      var clamped := Clamp(kb, 0, MAX_THROTTLE_KBYTES_PER_SEC);
      if kbytes != clamped then Throttle(clamped, (revision + 1) % REVISIONS) else this
    }

    function SetAll(kbs: seq<int>): Throttle {
      if kbs == [] then this else SetAll(kbs[..|kbs| - 1]).Set(kbs[|kbs| - 1])
    }

    /** How many of the calls changed the rate. */
    function Changes(kbs: seq<int>): nat {
      if kbs == [] then 0
      else
        var before := SetAll(kbs[..|kbs| - 1]);
        Changes(kbs[..|kbs| - 1]) + if before.Set(kbs[|kbs| - 1]) != before then 1 else 0
    }
  }

  lemma {:induction false} RevisionCountsChanges(t: Throttle, kbs: seq<int>)
    requires t.revision < REVISIONS
    ensures t.SetAll(kbs).revision == (t.revision + t.Changes(kbs)) % REVISIONS
    ensures t.Changes(kbs) == 0 ==> t.SetAll(kbs) == t
    ensures t.Changes(kbs) <= |kbs|
  {
    if kbs != [] {
      RevisionCountsChanges(t, kbs[..|kbs| - 1]);
      var before := t.SetAll(kbs[..|kbs| - 1]);
      var n := t.Changes(kbs[..|kbs| - 1]);
      NextRevision(t.revision + n);
      if before.Set(kbs[|kbs| - 1]) != before { assert before.revision == (t.revision + n) % REVISIONS; }
      else { assert t.Changes(kbs) == n; }
    }
  }

  /** After any calls the rate is the last one asked for, or the nearest admissible one. */
  lemma {:induction false} LastRateStored(t: Throttle, kbs: seq<int>, y: int)
    requires kbs != [] && 0 <= y <= MAX_THROTTLE_KBYTES_PER_SEC
    ensures var kb, stored := kbs[|kbs| - 1], t.SetAll(kbs).kbytes;
            0 <= stored <= MAX_THROTTLE_KBYTES_PER_SEC && Abs(kb - stored) <= Abs(kb - y)
  {
    var before := t.SetAll(kbs[..|kbs| - 1]);
    assert t.SetAll(kbs) == before.Set(kbs[|kbs| - 1]);
    ClampNearest(kbs[|kbs| - 1], 0, MAX_THROTTLE_KBYTES_PER_SEC, y);
  }

  lemma NextRevision(r: nat)
    ensures (r % REVISIONS + 1) % REVISIONS == (r + 1) % REVISIONS
  {
  }

  /** The revision identifies the rate: across any calls, short of 2^64 changes, an unchanged
      revision means the rate was never changed in between. */
  lemma {:induction false} SameRevisionSameRate(t: Throttle, kbs: seq<int>)
    requires t.revision < REVISIONS
    ensures t.Changes(kbs) < REVISIONS ==>
              (t.SetAll(kbs).revision == t.revision <==> t.Changes(kbs) == 0)
    ensures t.Changes(kbs) < REVISIONS && t.SetAll(kbs).revision == t.revision ==> t.SetAll(kbs).kbytes == t.kbytes
  {
    RevisionCountsChanges(t, kbs);
    if t.Changes(kbs) < REVISIONS { Wrap(t.revision, t.Changes(kbs)); }
  }

  lemma Wrap(a: nat, c: nat)
    requires a < REVISIONS && c < REVISIONS
    ensures (a + c) % REVISIONS == if a + c < REVISIONS then a + c else a + c - REVISIONS
  {
  }
}

/** The arithmetic of the bandwidth throttle: a single server that releases one copy at a time.

    Copy k may not leave before its base time, nor before the transmission time of copy k - 1 has
    passed since that one left. The engine's loop computes such a schedule (see EffectEngine);
    here is what any such schedule satisfies. */
module Throttling {
  import opened Packets

  const U64: nat := 0x1_0000_0000_0000_0000
  const MAX_RATE: nat := 10240 * 1024  // kMaxThrottleKBytesPerSec in bytes per second

  /** TransmissionTimeForPacket, in 64-bit unsigned arithmetic. */
  function TransmissionTime(bytes: nat, rate: nat): (t: nat) {
    if bytes == 0 || rate == 0 then 0
    else Max((((bytes * NANOS_PER_SEC) % U64 + rate + U64 - 1) % U64) / rate, 1)
  }

  /** For every length and rate the pipeline can produce nothing overflows, and the result is the
      time the bytes take at the rate, rounded up to a whole nanosecond. */
  lemma TransmissionTimeIsCeiling(bytes: nat, rate: nat)
    requires bytes <= MTU && 0 < rate <= MAX_RATE
    ensures var t := TransmissionTime(bytes, rate);
            && t * rate >= bytes * NANOS_PER_SEC
            && (t > 0 ==> (t - 1) * rate < bytes * NANOS_PER_SEC)
            && (t > 0 <==> bytes > 0)
  {
    if bytes > 0 {
      var n := bytes * NANOS_PER_SEC + rate - 1;
      assert (bytes * NANOS_PER_SEC) % U64 == bytes * NANOS_PER_SEC;
      assert (n + U64) % U64 == n;
      Division(n, rate);
      assert n >= rate;
    }
  }

  lemma Division(n: nat, d: nat)
    requires d > 0
    ensures (n / d) * d <= n < (n / d) * d + d
    ensures n >= d ==> n / d >= 1
  {
  }

  /** One emitted copy: base is now + delay of its packet, cost its transmission time, departure
      the instant it was given. */
  datatype Copy = Copy(base: Time, bytes: nat, cost: nat, departure: Time)

  /** When the server is free again after copy k - 1, having been free first at `next`. */
  function FreeAfter(next: Time, copies: seq<Copy>, k: nat): Time
    requires k <= |copies|
  {
    if k == 0 then next else copies[k - 1].departure + copies[k - 1].cost
  }

  /** Each copy leaves at its base time, or when the server is free if that is later. */
  ghost predicate Lindley(next: Time, copies: seq<Copy>) {
    forall k :: 0 <= k < |copies| ==> LindleyAt(next, copies, k)
  }

  predicate LindleyAt(next: Time, copies: seq<Copy>, k: nat)
    requires k < |copies|
  {
    copies[k].departure == Max(copies[k].base, FreeAfter(next, copies, k))
  }

  lemma LindleyConcat(next: Time, a: seq<Copy>, b: seq<Copy>)
    requires Lindley(next, a) && Lindley(FreeAfter(next, a, |a|), b)
    ensures Lindley(next, a + b)
    ensures FreeAfter(next, a + b, |a| + |b|) == FreeAfter(FreeAfter(next, a, |a|), b, |b|)
  {
    var c := a + b;
    forall k | 0 <= k < |c| ensures LindleyAt(next, c, k) {
      if k < |a| { assert LindleyAt(next, a, k); } else { assert LindleyAt(FreeAfter(next, a, |a|), b, k - |a|); }
    }
  }

  /** Time to transmit copies i..k - 1. */
  function Work(copies: seq<Copy>, i: nat, k: nat): nat
    requires i <= k <= |copies|
  {
    if i == k then 0 else Work(copies, i, k - 1) + copies[k - 1].cost
  }

  /** The closed form: copy k leaves at the maximum, over all i <= k, of base_i plus the time to
      transmit copies i..k - 1 (and of the server's initial free time plus all earlier work). */
  lemma {:induction false} ClosedForm(next: Time, copies: seq<Copy>, k: nat)
    requires Lindley(next, copies) && k < |copies|
    ensures forall i :: 0 <= i <= k ==> copies[i].base + Work(copies, i, k) <= copies[k].departure
    ensures next + Work(copies, 0, k) <= copies[k].departure
    ensures || copies[k].departure == next + Work(copies, 0, k)
            || exists i :: 0 <= i <= k && copies[k].departure == copies[i].base + Work(copies, i, k)
    decreases k
  {
    assert LindleyAt(next, copies, k);
    if k > 0 {
      ClosedForm(next, copies, k - 1);
      if copies[k].departure == copies[k].base {
        assert Work(copies, k, k) == 0;
      } else if copies[k - 1].departure != next + Work(copies, 0, k - 1) {
        var i :| 0 <= i <= k - 1 && copies[k - 1].departure == copies[i].base + Work(copies, i, k - 1);
        assert copies[k].departure == copies[i].base + Work(copies, i, k);
      }
    } else {
      assert Work(copies, 0, 0) == 0;
    }
  }

  /** A schedule the throttle's rules allow: nothing before its base time, and at least one
      transmission time between successive copies. */
  ghost predicate Allowed(next: Time, copies: seq<Copy>, schedule: seq<Time>) {
    |schedule| == |copies| && forall k :: 0 <= k < |copies| ==> AllowedAt(next, copies, schedule, k)
  }

  predicate AllowedAt(next: Time, copies: seq<Copy>, schedule: seq<Time>, k: nat)
    requires |schedule| == |copies| && k < |copies|
  {
    && copies[k].base <= schedule[k]
    && (if k == 0 then next else schedule[k - 1] + copies[k - 1].cost) <= schedule[k]
  }

  function Departures(copies: seq<Copy>): (d: seq<Time>)
    ensures |d| == |copies| && forall i :: 0 <= i < |d| ==> d[i] == copies[i].departure
  {
    seq(|copies|, i requires 0 <= i < |copies| => copies[i].departure)
  }

  lemma DeparturesAllowed(next: Time, copies: seq<Copy>)
    requires Lindley(next, copies)
    ensures Allowed(next, copies, Departures(copies))
  {
    forall k | 0 <= k < |copies| ensures AllowedAt(next, copies, Departures(copies), k) {
      assert LindleyAt(next, copies, k);
    }
  }

  /** No allowed schedule releases any copy earlier than the throttle does. */
  lemma {:induction false} EarliestSchedule(next: Time, copies: seq<Copy>, schedule: seq<Time>, k: nat)
    requires Lindley(next, copies) && Allowed(next, copies, schedule) && k < |copies|
    ensures copies[k].departure <= schedule[k]
    decreases k
  {
    assert AllowedAt(next, copies, schedule, k) && LindleyAt(next, copies, k);
    if k > 0 { EarliestSchedule(next, copies, schedule, k - 1); }
  }

  function Bytes(copies: seq<Copy>, i: nat, j: nat): nat
    requires i <= j <= |copies|
  {
    if i == j then 0 else Bytes(copies, i, j - 1) + copies[j - 1].bytes
  }

  /** Every cost is the transmission time of at most an MTU at an admissible rate. */
  ghost predicate Priced(copies: seq<Copy>, rate: nat) {
    && 0 < rate <= MAX_RATE
    && forall k :: 0 <= k < |copies| ==> copies[k].bytes <= MTU && copies[k].cost == TransmissionTime(copies[k].bytes, rate)
  }

  lemma CostIsCeiling(copies: seq<Copy>, rate: nat, k: nat)
    requires Priced(copies, rate) && k < |copies|
    ensures copies[k].cost * rate >= copies[k].bytes * NANOS_PER_SEC
    ensures copies[k].cost > 0 ==> (copies[k].cost - 1) * rate < copies[k].bytes * NANOS_PER_SEC
  {
    TransmissionTimeIsCeiling(copies[k].bytes, rate);
  }

  /** The bytes of copies i..j - 1 fit in the time between copies i and j at the configured rate. */
  lemma {:induction false} ByteRate(next: Time, copies: seq<Copy>, rate: nat, i: nat, j: nat)
    requires Lindley(next, copies) && Priced(copies, rate) && i <= j < |copies|
    ensures Bytes(copies, i, j) * NANOS_PER_SEC <= rate * (copies[j].departure - copies[i].departure)
    decreases j
  {
    if i < j {
      ByteRate(next, copies, rate, i, j - 1);
      var c, d := copies[j - 1], copies[j];
      assert LindleyAt(next, copies, j);
      CostIsCeiling(copies, rate, j - 1);
      Spread(rate, copies[i].departure, c.departure, d.departure, c.cost);
    }
  }

  lemma Spread(rate: nat, a: Time, b: Time, c: Time, t: nat)
    requires c >= b + t
    ensures rate * (b - a) + t * rate <= rate * (c - a)
  {
    assert rate * (c - a) == rate * (b - a) + rate * (c - b);
    assert rate * (c - b) >= rate * t;
  }

  /** Any run of copies that leave within w nanoseconds carries at most rate * w / 10^9 bytes and
      one packet more. */
  lemma WindowBound(next: Time, copies: seq<Copy>, rate: nat, i: nat, j: nat, w: nat)
    requires Lindley(next, copies) && Priced(copies, rate) && i <= j < |copies|
    requires copies[j].departure - copies[i].departure <= w
    ensures Bytes(copies, i, j + 1) * NANOS_PER_SEC <= rate * w + MTU * NANOS_PER_SEC
  {
    ByteRate(next, copies, rate, i, j);
    Scale(rate, copies[j].departure - copies[i].departure, w);
  }

  lemma Scale(rate: nat, a: int, b: int)
    requires a <= b
    ensures rate * a <= rate * b
  {
  }

  /** Each of copies i + 1..j leaves as soon as the one before it allows. */
  ghost predicate NeverIdle(next: Time, copies: seq<Copy>, i: nat, j: nat) {
    i <= j < |copies| && forall k :: i < k <= j ==> copies[k].departure == FreeAfter(next, copies, k)
  }

  lemma BusyStep(next: Time, copies: seq<Copy>, i: nat, j: nat)
    requires NeverIdle(next, copies, i, j) && i < j
    ensures NeverIdle(next, copies, i, j - 1)
    ensures copies[j].departure == copies[j - 1].departure + copies[j - 1].cost
    ensures Bytes(copies, i, j) == Bytes(copies, i, j - 1) + copies[j - 1].bytes
  {
    assert copies[j].departure == FreeAfter(next, copies, j);
  }

  /** n copies of these many bytes took `span`: less than a nanosecond a copy more than the rate asks. */
  predicate Rounded(rate: nat, span: int, bytes: nat, n: nat) {
    if n == 0 then span == 0 && bytes == 0 else rate * span < bytes * NANOS_PER_SEC + rate * n
  }

  /** The copy's cost is its bytes' time at the rate, rounded up. */
  predicate CeilingCost(c: Copy, rate: nat) {
    rate > 0 && (c.cost > 0 ==> (c.cost - 1) * rate < c.bytes * NANOS_PER_SEC)
  }

  ghost predicate CeilingCosts(copies: seq<Copy>, rate: nat) {
    forall k :: 0 <= k < |copies| ==> CeilingCost(copies[k], rate)
  }

  lemma PricedCeilings(copies: seq<Copy>, rate: nat)
    requires Priced(copies, rate)
    ensures CeilingCosts(copies, rate)
  {
    forall k | 0 <= k < |copies| ensures CeilingCost(copies[k], rate) { CostIsCeiling(copies, rate, k); }
  }

  lemma RoundingStep(rate: nat, c: Copy, span: int, bytes: nat, n: nat, span': int, bytes': nat, n': nat)
    requires CeilingCost(c, rate) && Rounded(rate, span, bytes, n)
    requires span' == span + c.cost && bytes' == bytes + c.bytes && n' == n + 1
    ensures Rounded(rate, span', bytes', n')
  {
    var t := c.cost;
    assert rate * (span + t) == rate * span + rate * t;
    assert rate * (n + 1) == rate * n + rate;
    if t > 0 { assert rate * t == (t - 1) * rate + rate; }
    if n == 0 { assert rate * span == 0; }
  }

  lemma {:induction false} CeilingRounding(next: Time, copies: seq<Copy>, rate: nat, i: nat, j: nat)
    requires CeilingCosts(copies, rate) && NeverIdle(next, copies, i, j)
    ensures Rounded(rate, copies[j].departure - copies[i].departure, Bytes(copies, i, j), j - i)
    decreases j
  {
    if i < j {
      BusyStep(next, copies, i, j);
      CeilingRounding(next, copies, rate, i, j - 1);
      var a, c := copies[i].departure, copies[j - 1];
      RoundingStep(rate, c, c.departure - a, Bytes(copies, i, j - 1), j - 1 - i, copies[j].departure - a, Bytes(copies, i, j), j - i);
    }
  }

  /** While the server is never idle, rounding costs less than one nanosecond per copy. */
  lemma {:induction false} BackloggedRounding(next: Time, copies: seq<Copy>, rate: nat, i: nat, j: nat)
    requires Priced(copies, rate) && NeverIdle(next, copies, i, j)
    ensures Rounded(rate, copies[j].departure - copies[i].departure, Bytes(copies, i, j), j - i)
  {
    PricedCeilings(copies, rate);
    CeilingRounding(next, copies, rate, i, j);
  }
}

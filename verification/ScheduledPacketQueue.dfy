/** The min-heap of pool slots ordered by release time. A slot stands for a pointer into the
    pool, and every comparison reads the pool through it. */
module ScheduledPackets {
  import opened Packets

  function Parent(i: nat): (p: nat)
    requires i > 0
    ensures p < i
  {
    (i - 1) / 2
  }

  function Release(pool: seq<ScheduledPacket>, slot: nat): Time
    requires slot < |pool|
  {
    pool[slot].releaseAt
  }

  /** What std::priority_queue keeps true of its vector under CompareScheduledPacketPtr. */
  ghost predicate HeapOrdered(pool: seq<ScheduledPacket>, q: seq<nat>) {
    && AllBelow(q, |pool|)
    && forall i :: 0 < i < |q| ==> Release(pool, q[Parent(i)]) <= Release(pool, q[i])
  }

  lemma {:induction false} TopIsMinAt(pool: seq<ScheduledPacket>, q: seq<nat>, i: nat)
    requires HeapOrdered(pool, q) && i < |q|
    ensures Release(pool, q[0]) <= Release(pool, q[i])
    decreases i
  {
    if i > 0 { TopIsMinAt(pool, q, Parent(i)); }
  }

  lemma {:induction false} TopIsMin(pool: seq<ScheduledPacket>, q: seq<nat>)
    requires HeapOrdered(pool, q) && q != []
    ensures forall x :: x in q ==> x < |pool| && Release(pool, q[0]) <= Release(pool, x)
  {
    forall x | x in q ensures x < |pool| && Release(pool, q[0]) <= Release(pool, x) {
      var i :| 0 <= i < |q| && q[i] == x;
      TopIsMinAt(pool, q, i);
    }
  }

  /** queue_.push as the standard library specifies it: on a heap it yields a heap holding one
      element more; on a vector that is not a heap nothing is promised. */
  ghost predicate StdPush(pool: seq<ScheduledPacket>, q: seq<nat>, x: nat, q': seq<nat>) {
    HeapOrdered(pool, q) && x < |pool| ==>
      HeapOrdered(pool, q') && multiset(q') == multiset(q) + multiset{x}
  }

  /** queue_.pop, specified the same way. */
  ghost predicate StdPop(pool: seq<ScheduledPacket>, q: seq<nat>, q': seq<nat>)
    requires q != []
  {
    HeapOrdered(pool, q) ==>
      HeapOrdered(pool, q') && multiset(q') + multiset{q[0]} == multiset(q)
  }

  ghost predicate Sorted(pool: seq<ScheduledPacket>, out: seq<nat>) {
    && AllBelow(out, |pool|)
    && forall i, j :: 0 <= i < j < |out| ==> Release(pool, out[i]) <= Release(pool, out[j])
  }

  /** How many entries of q are due at `now`. */
  function ReadyCount(pool: seq<ScheduledPacket>, q: seq<nat>, now: Time): nat
    requires AllBelow(q, |pool|)
  {
    if q == [] then 0
    else (if Release(pool, q[0]) <= now then 1 else 0) + ReadyCount(pool, q[1..], now)
  }

  lemma {:induction false} ReadyCountConcat(pool: seq<ScheduledPacket>, a: seq<nat>, b: seq<nat>, now: Time)
    requires AllBelow(a, |pool|) && AllBelow(b, |pool|)
    ensures AllBelow(a + b, |pool|)
    ensures ReadyCount(pool, a + b, now) == ReadyCount(pool, a, now) + ReadyCount(pool, b, now)
  {
    if a == [] {
      assert a + b == b;
    } else {
      assert (a + b)[1..] == a[1..] + b;
      ReadyCountConcat(pool, a[1..], b, now);
    }
  }

  lemma Cancel(x: nat, a: multiset<nat>, b: multiset<nat>)
    requires multiset{x} + a == multiset{x} + b
    ensures a == b
  {
    assert a == multiset{x} + a - multiset{x};
    assert b == multiset{x} + b - multiset{x};
  }

  lemma MatchHead(a: seq<nat>, b: seq<nat>) returns (l: seq<nat>, r: seq<nat>)
    requires a != [] && multiset(a) == multiset(b)
    ensures b == l + ([a[0]] + r) && multiset(a[1..]) == multiset(l + r)
  {
    assert a[0] in multiset(b);
    var j :| 0 <= j < |b| && b[j] == a[0];
    l, r := b[..j], b[j + 1..];
    assert b == l + ([a[0]] + r);
    assert a == [a[0]] + a[1..];
    Cancel(a[0], multiset(a[1..]), multiset(l) + multiset(r));
  }

  lemma BelowOfBag(n: nat, a: seq<nat>, b: seq<nat>)
    requires AllBelow(a, n) && multiset(b) <= multiset(a)
    ensures AllBelow(b, n)
  {
    forall i | 0 <= i < |b| ensures b[i] < n {
      assert b[i] in multiset(b);
      assert b[i] in multiset(a);
      assert b[i] in a;
    }
  }

  /** The count depends on which entries are queued, not on their order. */
  lemma {:induction false} ReadyCountOfBag(pool: seq<ScheduledPacket>, a: seq<nat>, b: seq<nat>, now: Time)
    requires AllBelow(a, |pool|) && AllBelow(b, |pool|) && multiset(a) == multiset(b)
    ensures ReadyCount(pool, a, now) == ReadyCount(pool, b, now)
    decreases |a|
  {
    if a == [] {
      assert |multiset(b)| == 0;
    } else {
      var l, r := MatchHead(a, b);
      var h := [a[0]] + r;
      assert l == b[..|l|] && r == b[|l| + 1..] && h[1..] == r;
      ReadyCountOfBag(pool, a[1..], l + r, now);
      ReadyCountConcat(pool, l, r, now);
      ReadyCountConcat(pool, l, h, now);
    }
  }

  lemma {:induction false} ReadyCountExtremes(pool: seq<ScheduledPacket>, q: seq<nat>, now: Time)
    requires AllBelow(q, |pool|)
    ensures (forall x :: x in q ==> Release(pool, x) <= now) ==> ReadyCount(pool, q, now) == |q|
    ensures (forall x :: x in q ==> Release(pool, x) > now) ==> ReadyCount(pool, q, now) == 0
  {
    if q != [] {
      assert q[0] in q;
      assert forall x :: x in q[1..] ==> x in q;
      ReadyCountExtremes(pool, q[1..], now);
    }
  }

  /** What PopReady(now, limit) promises: `out` is the batch handed to the callback in order and
      q' is what stays queued. */
  ghost predicate PopsReady(pool: seq<ScheduledPacket>, q: seq<nat>, now: Time, limit: nat,
                            out: seq<nat>, q': seq<nat>)
  {
    && AllBelow(q, |pool|) && AllBelow(q', |pool|)
    && multiset(out) + multiset(q') == multiset(q)
    && Sorted(pool, out)
    && |out| == Min(limit, ReadyCount(pool, q, now))
    && (forall x :: x in out ==> Release(pool, x) <= now)
    && (forall x, y :: x in out && y in q' ==> Release(pool, x) <= Release(pool, y))
  }

  /** The batch size follows from the loop's exit condition. */
  lemma {:induction false} BatchSize(pool: seq<ScheduledPacket>, q: seq<nat>, now: Time, limit: nat,
                                     out: seq<nat>, q': seq<nat>)
    requires AllBelow(q, |pool|) && AllBelow(out, |pool|) && AllBelow(q', |pool|)
    requires multiset(out) + multiset(q') == multiset(q)
    requires |out| <= limit
    requires forall x :: x in out ==> Release(pool, x) <= now
    requires |out| < limit ==> forall x :: x in q' ==> Release(pool, x) > now
    ensures |out| == Min(limit, ReadyCount(pool, q, now))
    ensures ReadyCount(pool, q', now) == ReadyCount(pool, q, now) - |out|
  {
    assert multiset(out + q') == multiset(q);
    ReadyCountOfBag(pool, q, out + q', now);
    ReadyCountConcat(pool, out, q', now);
    ReadyCountExtremes(pool, out, now);
    ReadyCountExtremes(pool, q', now);
  }

  lemma {:induction false} ReadyCountMonotone(pool: seq<ScheduledPacket>, q: seq<nat>, t: Time, u: Time)
    requires AllBelow(q, |pool|) && t <= u
    ensures ReadyCount(pool, q, t) <= ReadyCount(pool, q, u) <= |q|
  {
    if q != [] { ReadyCountMonotone(pool, q[1..], t, u); }
  }

  /** If an entry is still due at `t` after `out` left before it, all of `out` was due at `t`. */
  lemma AllDueBefore(pool: seq<ScheduledPacket>, out: seq<nat>, q: seq<nat>, t: Time)
    requires AllBelow(out, |pool|) && AllBelow(q, |pool|) && ReadyCount(pool, q, t) > 0
    requires forall x, y :: x in out && y in q ==> Release(pool, x) <= Release(pool, y)
    ensures ReadyCount(pool, out, t) == |out|
  {
    ReadyCountExtremes(pool, q, t);
    var y :| y in q && Release(pool, y) <= t;
    forall x | x in out ensures Release(pool, x) <= t { assert Release(pool, x) <= Release(pool, y); }
    ReadyCountExtremes(pool, out, t);
  }

  /** What a pass at `now` says about the numbers of entries due at t and at `now`. */
  lemma {:induction false} PassCounts(pool: seq<ScheduledPacket>, q: seq<nat>, now: Time, limit: nat, out: seq<nat>, q': seq<nat>, t: Time)
    requires PopsReady(pool, q, now, limit, out, q') && t <= now
    ensures AllBelow(out, |pool|) && ReadyCount(pool, q, t) == ReadyCount(pool, out, t) + ReadyCount(pool, q', t)
    ensures ReadyCount(pool, out, t) <= |out| <= limit
    ensures |out| < limit ==> ReadyCount(pool, q', t) == 0
  {
    CountSplits(pool, q, out, q', t);
    CountSplits(pool, q, out, q', now);
    ReadyCountMonotone(pool, out, t, now);
    ReadyCountMonotone(pool, q', t, now);
    ReadyCountExtremes(pool, out, now);
  }

  lemma DueFirst(pool: seq<ScheduledPacket>, q: seq<nat>, now: Time, limit: nat, out: seq<nat>, q': seq<nat>, t: Time)
    requires PopsReady(pool, q, now, limit, out, q') && AllBelow(out, |pool|)
    ensures ReadyCount(pool, q', t) > 0 ==> ReadyCount(pool, out, t) == |out|
  {
    if ReadyCount(pool, q', t) > 0 { AllDueBefore(pool, out, q', t); }
  }

  /** The counts of a pass, whose numbers taken and left add up. */
  lemma {:induction false} PassLeaves(pool: seq<ScheduledPacket>, q: seq<nat>, limit: nat, out: seq<nat>, q': seq<nat>, t: Time)
    requires AllBelow(q, |pool|) && AllBelow(out, |pool|) && AllBelow(q', |pool|)
    requires ReadyCount(pool, q, t) == ReadyCount(pool, out, t) + ReadyCount(pool, q', t)
    requires ReadyCount(pool, out, t) <= |out| <= limit
    requires |out| < limit ==> ReadyCount(pool, q', t) == 0
    requires ReadyCount(pool, q', t) > 0 ==> ReadyCount(pool, out, t) == |out|
    ensures ReadyCount(pool, q', t) == Max(0, ReadyCount(pool, q, t) - limit)
  {
    FullOrGone(ReadyCount(pool, q, t), ReadyCount(pool, out, t), ReadyCount(pool, q', t), |out|, limit);
  }

  /** One pass at `now` takes a full batch, as far as there is one, off what is due at any earlier
      instant t. */
  lemma {:induction false} OnePass(pool: seq<ScheduledPacket>, q: seq<nat>, now: Time, limit: nat, out: seq<nat>, q': seq<nat>, t: Time)
    requires PopsReady(pool, q, now, limit, out, q') && t <= now
    ensures ReadyCount(pool, q', t) == Max(0, ReadyCount(pool, q, t) - limit)
  {
    PassCounts(pool, q, now, limit, out, q', t);
    DueFirst(pool, q, now, limit, out, q', t);
    PassLeaves(pool, q, limit, out, q', t);
  }

  lemma CountSplits(pool: seq<ScheduledPacket>, q: seq<nat>, out: seq<nat>, q': seq<nat>, t: Time)
    requires AllBelow(q, |pool|) && multiset(out) + multiset(q') == multiset(q)
    ensures AllBelow(out, |pool|) && AllBelow(q', |pool|)
    ensures ReadyCount(pool, q, t) == ReadyCount(pool, out, t) + ReadyCount(pool, q', t)
  {
    assert multiset(out + q') == multiset(q);
    BelowOfBag(|pool|, q, out);
    BelowOfBag(|pool|, q, q');
    ReadyCountConcat(pool, out, q', t);
    ReadyCountOfBag(pool, q, out + q', t);
  }

  /** Either the batch is full of due packets, or none is left. */
  lemma FullOrGone(n: nat, taken: nat, left: nat, size: nat, limit: nat)
    requires n == taken + left && taken <= size <= limit && (left > 0 ==> taken == size) && (size < limit ==> left == 0)
    ensures left == Max(0, n - limit)
  {
  }

  /** Pass i is made at nows[i], not before t. */
  ghost predicate PassAt(pool: seq<ScheduledPacket>, queues: seq<seq<nat>>, outs: seq<seq<nat>>, nows: seq<Time>, t: Time, i: nat)
    requires |queues| == |outs| + 1 && |nows| == |outs| && i < |outs|
  {
    t <= nows[i] && PopsReady(pool, queues[i], nows[i], BATCH_SIZE, outs[i], queues[i + 1])
  }

  /** Of n packets due at t, n - 128k are left after k passes, each made at its own instant from t
      on, so they are gone exactly from pass ceil(n / 128) on. */
  lemma {:induction false} BacklogClears(pool: seq<ScheduledPacket>, queues: seq<seq<nat>>, outs: seq<seq<nat>>, nows: seq<Time>, t: Time)
    requires |queues| == |outs| + 1 && |nows| == |outs|
    requires forall i :: 0 <= i < |queues| ==> AllBelow(queues[i], |pool|)
    requires forall i :: 0 <= i < |outs| ==> PassAt(pool, queues, outs, nows, t, i)
    ensures var n := ReadyCount(pool, queues[0], t);
            var left := ReadyCount(pool, queues[|outs|], t);
            && left == Max(0, n - BATCH_SIZE * |outs|)
            && (left == 0 <==> |outs| >= (n + BATCH_SIZE - 1) / BATCH_SIZE)
  {
    if outs != [] {
      var k := |outs| - 1;
      var qs, os, ns := queues[..k + 1], outs[..k], nows[..k];
      forall i | 0 <= i < k ensures PassAt(pool, qs, os, ns, t, i) { assert PassAt(pool, queues, outs, nows, t, i); }
      BacklogClears(pool, qs, os, ns, t);
      assert PassAt(pool, queues, outs, nows, t, k);
      OnePass(pool, queues[k], nows[k], BATCH_SIZE, outs[k], queues[k + 1], t);
    }
  }

  /** Whatever the instant up to `now`, a full batch of what was due then is gone, as far as there
      was one. */
  ghost predicate TakesBatch(pool: seq<ScheduledPacket>, q: seq<nat>, q': seq<nat>, now: Time) {
    && AllBelow(q, |pool|) && AllBelow(q', |pool|)
    && forall t: Time :: t <= now ==> ReadyCount(pool, q', t) == Max(0, ReadyCount(pool, q, t) - BATCH_SIZE)
  }

  lemma PassTakesBatch(pool: seq<ScheduledPacket>, q: seq<nat>, merged: seq<nat>, now: Time, out: seq<nat>, q': seq<nat>)
    requires PopsReady(pool, merged, now, BATCH_SIZE, out, q') && multiset(merged) == multiset(q)
    ensures TakesBatch(pool, q, q', now)
  {
    BelowOfBag(|pool|, merged, q);
    forall t: Time | t <= now ensures ReadyCount(pool, q', t) == Max(0, ReadyCount(pool, q, t) - BATCH_SIZE) {
      OnePass(pool, merged, now, BATCH_SIZE, out, q', t);
      ReadyCountOfBag(pool, merged, q, t);
    }
  }

  /** PopsReady leaves no freedom except among equal release times: any two answers release at
      the same instants. */
  lemma {:induction false} PopReadyTimesUnique(pool: seq<ScheduledPacket>, q: seq<nat>, now: Time, limit: nat,
                                               a: seq<nat>, qa: seq<nat>, b: seq<nat>, qb: seq<nat>, k: nat)
    requires PopsReady(pool, q, now, limit, a, qa) && PopsReady(pool, q, now, limit, b, qb)
    requires k < |a|
    ensures |a| == |b| && Release(pool, a[k]) == Release(pool, b[k])
  {
    NotLater(pool, q, now, limit, a, qa, b, qb, k);
    NotLater(pool, q, now, limit, b, qb, a, qa, k);
  }

  /** Counting argument: by the time a[k] leaves, more than k entries are due; if b[k] left
      later than that, at most the k entries before it would be. */
  lemma {:induction false} NotLater(pool: seq<ScheduledPacket>, q: seq<nat>, now: Time, limit: nat,
                                    a: seq<nat>, qa: seq<nat>, b: seq<nat>, qb: seq<nat>, k: nat)
    requires PopsReady(pool, q, now, limit, a, qa) && PopsReady(pool, q, now, limit, b, qb)
    requires k < |a| == |b|
    ensures Release(pool, b[k]) <= Release(pool, a[k])
  {
    var t := Release(pool, a[k]);
    if Release(pool, b[k]) > t {
      assert multiset(a + qa) == multiset(q) == multiset(b + qb);
      ReadyCountOfBag(pool, a + qa, b + qb, t);
      ReadyCountConcat(pool, a, qa, t);
      ReadyCountConcat(pool, b, qb, t);
      DueAtLeast(pool, a, k, t);
      assert b[k] in b;
      DueAtMost(pool, b, k, t);
      ReadyCountExtremes(pool, qb, t);
    }
  }

  lemma {:induction false} DueAtLeast(pool: seq<ScheduledPacket>, a: seq<nat>, k: nat, t: Time)
    requires Sorted(pool, a) && k < |a| && Release(pool, a[k]) <= t
    ensures ReadyCount(pool, a, t) >= k + 1
  {
    var l, r := a[..k + 1], a[k + 1..];
    assert a == l + r;
    ReadyCountConcat(pool, l, r, t);
    ReadyCountExtremes(pool, l, t);
  }

  lemma {:induction false} DueAtMost(pool: seq<ScheduledPacket>, b: seq<nat>, k: nat, t: Time)
    requires Sorted(pool, b) && k < |b| && Release(pool, b[k]) > t
    ensures ReadyCount(pool, b, t) <= k
  {
    var l, r := b[..k], b[k..];
    assert b == l + r;
    ReadyCountConcat(pool, l, r, t);
    ReadyCountExtremes(pool, r, t);
    ReadyCountAtMost(pool, l, t);
  }

  lemma {:induction false} ReadyCountAtMost(pool: seq<ScheduledPacket>, q: seq<nat>, now: Time)
    requires AllBelow(q, |pool|)
    ensures ReadyCount(pool, q, now) <= |q|
  {
    if q != [] { ReadyCountAtMost(pool, q[1..], now); }
  }

  function Swap(q: seq<nat>, i: nat, j: nat): (r: seq<nat>)
    requires i < |q| && j < |q|
    ensures |r| == |q| && r[i] == q[j] && r[j] == q[i]
    ensures forall k :: 0 <= k < |q| && k != i && k != j ==> r[k] == q[k]
    ensures multiset(r) == multiset(q)
  {
    q[i := q[j]][j := q[i]]
  }

  /** A heap but for the entry at i, which may be earlier than its parent. */
  ghost predicate HeapButRising(pool: seq<ScheduledPacket>, q: seq<nat>, i: nat) {
    && i < |q| && AllBelow(q, |pool|)
    && (forall j :: 0 < j < |q| && j != i ==> Release(pool, q[Parent(j)]) <= Release(pool, q[j]))
    && (i > 0 ==> forall j :: 0 < j < |q| && Parent(j) == i ==> Release(pool, q[Parent(i)]) <= Release(pool, q[j]))
  }

  lemma Rise(pool: seq<ScheduledPacket>, q: seq<nat>, i: nat)
    requires HeapButRising(pool, q, i) && i > 0 && Release(pool, q[i]) < Release(pool, q[Parent(i)])
    ensures HeapButRising(pool, Swap(q, i, Parent(i)), Parent(i))
  {
    var p, r := Parent(i), Swap(q, i, Parent(i));
    forall j | 0 < j < |r| && j != p ensures Release(pool, r[Parent(j)]) <= Release(pool, r[j]) {
      assert j != i ==> Release(pool, q[Parent(j)]) <= Release(pool, q[j]);
    }
    forall j | p > 0 && 0 < j < |r| && Parent(j) == p ensures Release(pool, r[Parent(p)]) <= Release(pool, r[j]) {
      assert Release(pool, q[Parent(p)]) <= Release(pool, q[p]);
      assert j != i ==> Release(pool, q[p]) <= Release(pool, q[j]);
    }
  }

  /** A heap but for the entry at i, which may be later than its children. */
  ghost predicate HeapButSinking(pool: seq<ScheduledPacket>, q: seq<nat>, i: nat) {
    && i < |q| && AllBelow(q, |pool|)
    && (forall j :: 0 < j < |q| && Parent(j) != i ==> Release(pool, q[Parent(j)]) <= Release(pool, q[j]))
    && (i > 0 ==> forall j :: 0 < j < |q| && Parent(j) == i ==> Release(pool, q[Parent(i)]) <= Release(pool, q[j]))
  }

  lemma Sink(pool: seq<ScheduledPacket>, q: seq<nat>, i: nat, c: nat)
    requires HeapButSinking(pool, q, i) && 0 < c < |q| && Parent(c) == i
    requires Release(pool, q[c]) < Release(pool, q[i])
    requires forall j :: 0 < j < |q| && Parent(j) == i ==> Release(pool, q[c]) <= Release(pool, q[j])
    ensures HeapButSinking(pool, Swap(q, i, c), c)
  {
    var r := Swap(q, i, c);
    forall j | 0 < j < |r| && Parent(j) != c ensures Release(pool, r[Parent(j)]) <= Release(pool, r[j]) {
      if j == i { assert Release(pool, q[Parent(i)]) <= Release(pool, q[c]); }
      else if Parent(j) != i { assert Release(pool, q[Parent(j)]) <= Release(pool, q[j]); }
    }
    forall j | 0 < j < |r| && Parent(j) == c ensures Release(pool, r[Parent(c)]) <= Release(pool, r[j]) {
      assert Release(pool, q[Parent(j)]) <= Release(pool, q[j]);
    }
  }

  lemma Settled(pool: seq<ScheduledPacket>, q: seq<nat>, i: nat)
    requires HeapButSinking(pool, q, i)
    requires forall c :: 0 < c < |q| && (c == 2 * i + 1 || c == 2 * i + 2) ==> Release(pool, q[i]) <= Release(pool, q[c])
    ensures HeapOrdered(pool, q)
  {
    forall j | 0 < j < |q| ensures Release(pool, q[Parent(j)]) <= Release(pool, q[j]) {
      if Parent(j) == i { assert j == 2 * i + 1 || j == 2 * i + 2; }
    }
  }

  /** The child the sinking entry is compared with: the earlier of the two. */
  function EarlierChild(pool: seq<ScheduledPacket>, q: seq<nat>, i: nat): (c: nat)
    requires AllBelow(q, |pool|) && 2 * i + 1 < |q|
    ensures c < |q| && c > i && Parent(c) == i
    ensures forall j :: 0 < j < |q| && Parent(j) == i ==> Release(pool, q[c]) <= Release(pool, q[j])
  {
    var l := 2 * i + 1;
    assert forall j :: 0 < j && Parent(j) == i ==> j == l || j == l + 1;
    if l + 1 < |q| && Release(pool, q[l + 1]) < Release(pool, q[l]) then l + 1 else l
  }

  /** Dropping the last entry of a heap and putting it at the root. */
  lemma Uproot(pool: seq<ScheduledPacket>, q: seq<nat>)
    requires HeapOrdered(pool, q) && |q| > 1
    ensures var r := q[..|q| - 1][0 := q[|q| - 1]];
            HeapButSinking(pool, r, 0) && multiset(r) + multiset{q[0]} == multiset(q)
  {
    var n := |q| - 1;
    var r := q[..n][0 := q[n]];
    assert q == q[..n] + [q[n]];
    forall j | 0 < j < |r| && Parent(j) != 0 ensures Release(pool, r[Parent(j)]) <= Release(pool, r[j]) {
      assert Release(pool, q[Parent(j)]) <= Release(pool, q[j]);
    }
  }

  /** What taking one entry out says about membership and length. */
  lemma Shrinks(q: seq<nat>, q': seq<nat>, top: nat)
    requires multiset(q') + multiset{top} == multiset(q)
    ensures top in q && (forall y :: y in q' ==> y in q) && |q'| + 1 == |q|
  {
    assert top in multiset(q);
    forall y | y in q' ensures y in q { assert y in multiset(q'); assert y in multiset(q); }
    assert |multiset(q') + multiset{top}| == |multiset(q)|;
  }

  /** Having popped `out` from q, with q' left: the multiset is conserved, the output is in due
      order and nothing left is due before anything popped. */
  ghost predicate Popped(pool: seq<ScheduledPacket>, q: seq<nat>, out: seq<nat>, q': seq<nat>) {
    && AllBelow(q', |pool|)
    && multiset(out) + multiset(q') == multiset(q)
    && Sorted(pool, out)
    && (forall x, y :: x in out && y in q' ==> x < |pool| && y < |pool| && Release(pool, x) <= Release(pool, y))
  }

  lemma PoppedOne(pool: seq<ScheduledPacket>, q: seq<nat>, out: seq<nat>, q1: seq<nat>, q2: seq<nat>)
    requires Popped(pool, q, out, q1) && HeapOrdered(pool, q1) && q1 != [] && AllBelow(q2, |pool|)
    requires multiset(q2) + multiset{q1[0]} == multiset(q1)
    ensures Popped(pool, q, out + [q1[0]], q2) && |q2| < |q1|
  {
    TopIsMin(pool, q1);
    Shrinks(q1, q2, q1[0]);
    assert forall i :: 0 <= i < |out| ==> out[i] in out;
  }

  /** The vectors between successive pops: out[i] is the top of trail[i]. */
  ghost predicate PopTrail(pool: seq<ScheduledPacket>, q: seq<nat>, out: seq<nat>, trail: seq<seq<nat>>) {
    && |trail| == |out| + 1 && trail[0] == q
    && forall i :: 0 <= i < |out| ==> TrailAt(pool, out, trail, i)
  }

  ghost predicate TrailAt(pool: seq<ScheduledPacket>, out: seq<nat>, trail: seq<seq<nat>>, i: nat)
    requires i < |out| && |trail| == |out| + 1
  {
    trail[i] != [] && out[i] == trail[i][0] && StdPop(pool, trail[i], trail[i + 1])
  }

  lemma TrailOne(pool: seq<ScheduledPacket>, q: seq<nat>, out: seq<nat>, trail: seq<seq<nat>>, q': seq<nat>)
    requires PopTrail(pool, q, out, trail) && trail[|out|] != [] && StdPop(pool, trail[|out|], q')
    ensures PopTrail(pool, q, out + [trail[|out|][0]], trail + [q'])
  {
    var o, t := out + [trail[|out|][0]], trail + [q'];
    forall i | 0 <= i < |o| ensures TrailAt(pool, o, t, i) {
      if i < |out| { assert TrailAt(pool, out, trail, i); }
    }
  }

  /** The queue of scheduled packets; `queue` is the vector inside the priority queue. */
  class ScheduledPacketQueue {
    const pool: array<ScheduledPacket>
    var queue: seq<nat>

    ghost predicate Valid()
      reads this, pool
    {
      HeapOrdered(pool[..], queue)
    }

    constructor (pool: array<ScheduledPacket>)
      ensures this.pool == pool && queue == [] && Valid()
    {
      this.pool := pool;
      queue := [];
    }

    /** Appends the slot and lets it rise until its parent is not later. */
    method Push(slot: nat)
      requires Valid() && slot < pool.Length
      modifies this
      ensures Valid()
      ensures multiset(queue) == multiset(old(queue)) + multiset{slot}
    {
      ghost var p := pool[..];
      queue := queue + [slot];
      var i := |queue| - 1;
      while i > 0 && pool[queue[i]].releaseAt < pool[queue[Parent(i)]].releaseAt
        invariant 0 <= i && HeapButRising(p, queue, i)
        invariant multiset(queue) == multiset(old(queue)) + multiset{slot}
      {
        Rise(p, queue, i);
        queue := Swap(queue, i, Parent(i));
        i := Parent(i);
      }
    }

    /** Lets the root sink until no child is earlier. */
    method SiftDown()
      requires HeapButSinking(pool[..], queue, 0)
      modifies this
      ensures Valid() && multiset(queue) == multiset(old(queue))
    {
      ghost var p := pool[..];
      var i := 0;
      while 2 * i + 1 < |queue|
        invariant 0 <= i && HeapButSinking(p, queue, i)
        invariant multiset(queue) == multiset(old(queue))
        decreases |queue| - i
      {
        var c := EarlierChild(pool[..], queue, i);
        if pool[queue[i]].releaseAt <= pool[queue[c]].releaseAt { break; }
        Sink(p, queue, i, c);
        queue := Swap(queue, i, c);
        i := c;
      }
      Settled(p, queue, i);
    }

    /** Takes the top, moves the last entry to the root and lets it sink. */
    method Pop() returns (top: nat)
      requires Valid() && queue != []
      modifies this
      ensures Valid()
      ensures top == old(queue)[0]
      ensures multiset(queue) + multiset{top} == multiset(old(queue))
    {
      top := queue[0];
      var n := |queue| - 1;
      if n == 0 {
        assert queue == [top];
        queue := [];
      } else {
        Uproot(pool[..], queue);
        queue := queue[..n][0 := queue[n]];
        SiftDown();
      }
    }

    /** PopReady; `out` lists the slots the callback receives, in call order, and `trail` the
        vector before and after each of the pops. */
    method PopReady(now: Time, limit: nat) returns (out: seq<nat>, ghost trail: seq<seq<nat>>)
      requires Valid()
      modifies this
      ensures Valid()
      ensures PopsReady(pool[..], old(queue), now, limit, out, queue)
      ensures PopTrail(pool[..], old(queue), out, trail) && trail[|out|] == queue
    {
      out := [];
      ghost var p := pool[..];
      trail := [queue];
      while queue != [] && pool[queue[0]].releaseAt <= now && |out| < limit
        invariant Valid() && |out| <= limit
        invariant Popped(p, old(queue), out, queue)
        invariant forall x :: x in out ==> Release(p, x) <= now
        invariant PopTrail(p, old(queue), out, trail) && trail[|out|] == queue
        decreases |queue|
      {
        ghost var before := queue;
        var top := Pop();
        PoppedOne(p, old(queue), out, before, queue);
        TrailOne(p, old(queue), out, trail, queue);
        out := out + [top];
        trail := trail + [queue];
      }
      if queue != [] { TopIsMin(p, queue); }
      BatchSize(p, old(queue), now, limit, out, queue);
    }

    /** DrainAll: every slot, earliest first. */
    method DrainAll() returns (out: seq<nat>, ghost trail: seq<seq<nat>>)
      requires Valid()
      modifies this
      ensures Valid() && queue == []
      ensures multiset(out) == multiset(old(queue)) && Sorted(pool[..], out)
      ensures PopTrail(pool[..], old(queue), out, trail) && trail[|out|] == []
    {
      out := [];
      ghost var p := pool[..];
      trail := [queue];
      while queue != []
        invariant Valid()
        invariant Popped(p, old(queue), out, queue)
        invariant PopTrail(p, old(queue), out, trail) && trail[|out|] == queue
        decreases |queue|
      {
        ghost var before := queue;
        var top := Pop();
        PoppedOne(p, old(queue), out, before, queue);
        TrailOne(p, old(queue), out, trail, queue);
        out := out + [top];
        trail := trail + [queue];
      }
    }

    /** Peek and Empty: the earliest slot, if there is one. */
    method Peek() returns (slot: Option<nat>)
      requires Valid()
      ensures slot.None? <==> queue == []
      ensures slot.Some? ==> slot.value in queue && slot.value < pool.Length &&
                             forall x :: x in queue ==> x < pool.Length && pool[slot.value].releaseAt <= pool[x].releaseAt
    {
      if queue == [] {
        slot := None;
      } else {
        TopIsMin(pool[..], queue);
        slot := Some(queue[0]);
      }
    }
  }
}

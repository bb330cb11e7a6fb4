/** What one batch's walk sends on, against a reference in which a batch is a list of packets
    rather than one buffer with a cursor in it. */
module CaptureTheorems {
  import opened Packets
  import opened EffectConfigs
  import opened EffectEngines
  import opened EffectTheorems
  import opened Capture

  /** The packets of a batch: nonempty, laid end to end, and wherever the parser succeeds at a
      packet it reports the bytes of the later ones as what follows. */
  ghost predicate Frames(chunks: seq<seq<Byte>>, envs: seq<Env>)
    requires |chunks| == |envs|
  {
    chunks == [] ||
    (&& chunks[0] != []
     && (envs[0].look.parse.Parsed? ==> envs[0].look.parse.nextLen == |Flatten(chunks[1..])|)
     && Frames(chunks[1..], envs[1..]))
  }

  /** What becomes of one packet: how many copies of it leave with the batch, and what is pushed. */
  datatype Fate = Fate(now: nat, later: seq<ScheduledPacket>)

  function FateOf(es: Engines, bytes: seq<Byte>, addr: Address, udp: Option<FiveTuple>, env: Env): (Engines, Fate) {
    match Target(bytes, addr, udp, env.look)
    case None => (es, Fate(if |bytes| > MTU then 0 else 1, []))
    case Some(p) =>
      var (es', m) := ProcessEither(es, InputOf(p, env));
      (es', Fate(|m.immediate|, m.scheduled))
  }

  /** The fates of a batch's packets, up to the first one that does not parse. */
  function Fates(es: Engines, chunks: seq<seq<Byte>>, addrs: seq<Address>, envs: seq<Env>): (fs: seq<Fate>)
    requires |chunks| == |addrs| == |envs|
    ensures |fs| <= |chunks|
    decreases |chunks|
  {
    if chunks == [] || envs[0].look.parse.Failed? then []
    else
      var (es', f) := FateOf(es, chunks[0], addrs[0], envs[0].look.parse.udp, envs[0]);
      [f] + Fates(es', chunks[1..], addrs[1..], envs[1..])
  }

  /** The packets with a fate are exactly those before the first parse failure. */
  lemma {:induction false} FatesUpToFailure(es: Engines, chunks: seq<seq<Byte>>, addrs: seq<Address>, envs: seq<Env>)
    requires |chunks| == |addrs| == |envs|
    ensures var n := |Fates(es, chunks, addrs, envs)|;
            (forall i :: 0 <= i < n ==> envs[i].look.parse.Parsed?) && (n < |chunks| ==> envs[n].look.parse.Failed?)
    decreases |chunks|
  {
    if chunks != [] && envs[0].look.parse.Parsed? {
      var es' := FateOf(es, chunks[0], addrs[0], envs[0].look.parse.udp, envs[0]).0;
      FatesUpToFailure(es', chunks[1..], addrs[1..], envs[1..]);
      assert envs == [envs[0]] + envs[1..];
    }
  }

  /** Each item as often as its fate says, and the items without a fate once, in place. */
  function Spread<T>(items: seq<T>, fs: seq<Fate>): seq<T>
    requires |fs| <= |items|
  {
    if fs == [] then items else Repeat(items[0], fs[0].now) + Spread(items[1..], fs[1..])
  }

  function Laters(fs: seq<Fate>): seq<ScheduledPacket> {
    if fs == [] then [] else fs[0].later + Laters(fs[1..])
  }

  lemma {:induction false} CopiesListed(ps: seq<OwnedPacket>, p: OwnedPacket)
    requires forall k :: 0 <= k < |ps| ==> ps[k] == p
    ensures Datas(ps) == Repeat(p.data, |ps|) && Addrs(ps) == Repeat(p.addr, |ps|)
  {
    if ps != [] { CopiesListed(ps[..|ps| - 1], p); }
  }

  predicate InRange(envs: seq<Env>) {
    forall i :: 0 <= i < |envs| ==> envs[i].snap.InRange()
  }

  lemma EitherShape(es: Engines, i: Input)
    requires i.snap.InRange()
    ensures var m := ProcessEither(es, i).1;
            && (Drop in m.effects ==> m.immediate == [] && m.scheduled == [])
            && (Drop !in m.effects ==> CopiesShaped(i.packet, i.now, m) && |m.immediate| + |m.scheduled| == CopyCount(i.snap, i.draws))
            && (Duplicate in m.effects ==> Drop !in m.effects)
            && (Drop !in m.effects && Duplicate !in m.effects ==> |m.immediate| + |m.scheduled| == 1)
  {
    var e := if i.packet.metadata.isOutbound then es.outbound else es.inbound;
    EmissionShape(e, i);
  }

  /** Not UDP, of no known process, or of a process that is not targeted. */
  predicate Untargeted(udp: Option<FiveTuple>, look: Look) {
    udp.None? || look.pid == 0 || !look.targeted
  }

  /** A packet's fate: oversized, nothing leaves; not targeted, it leaves once; targeted, at most 65
      copies leave now or later, each pushed one with the packet's bytes and address, due after now.
      The other direction's engine is not involved. */
  lemma FateShape(es: Engines, bytes: seq<Byte>, addr: Address, udp: Option<FiveTuple>, env: Env)
    requires env.snap.InRange()
    ensures var f := FateOf(es, bytes, addr, udp, env).1;
            && (|bytes| > MTU ==> f == Fate(0, []))
            && (|bytes| <= MTU && Untargeted(udp, env.look) ==> f == Fate(1, []))
            && f.now + |f.later| <= 1 + MAX_DUPLICATE_COPIES
            && forall k :: 0 <= k < |f.later| ==>
                 && f.later[k].packet.data == bytes && f.later[k].packet.addr == addr
                 && f.later[k].releaseAt > env.look.now
    ensures var es' := FateOf(es, bytes, addr, udp, env).0;
            && EngineOf(es', !addr.outbound) == EngineOf(es, !addr.outbound)
            && (|bytes| > MTU || Untargeted(udp, env.look) ==> es' == es)
  {
    var t := Target(bytes, addr, udp, env.look);
    if t.Some? {
      EitherShape(es, InputOf(t.value, env));
      OtherSideUntouched(es, InputOf(t.value, env));
    }
  }

  /** The packet the engine sees for a captured one, and with what. */
  function Seen(bytes: seq<Byte>, addr: Address, tuple: FiveTuple, env: Env): Input
    requires |bytes| <= MTU
  {
    Input(env.snap, Packet(bytes, addr, Metadata(tuple, env.look.pid, addr.outbound)), env.look.now, env.look.draws)
  }

  /** A targeted packet that fits an MTU goes through its own direction's engine, and its fate is
      exactly what that engine emits: nothing else leaves, nothing bypasses the effects. */
  lemma TargetedFate(es: Engines, bytes: seq<Byte>, addr: Address, udp: Option<FiveTuple>, env: Env)
    requires udp.Some? && env.look.pid != 0 && env.look.targeted && |bytes| <= MTU
    ensures var (e, m) := Processed(EngineOf(es, addr.outbound), Seen(bytes, addr, udp.value, env));
            var (es', f) := FateOf(es, bytes, addr, udp, env);
            f == Fate(|m.immediate|, m.scheduled) && EngineOf(es', addr.outbound) == e
            && EngineOf(es', !addr.outbound) == EngineOf(es, !addr.outbound)
  {
  }

  /** The same of the loop body: what it appends, pushes and counts is what the engine emits. */
  lemma TargetedRoute(w: Walk, bytes: seq<Byte>, addr: Address, udp: Option<FiveTuple>, env: Env)
    requires udp.Some? && env.look.pid != 0 && env.look.targeted && |bytes| <= MTU
    ensures var (e, m) := Processed(EngineOf(w.engines, addr.outbound), Seen(bytes, addr, udp.value, env));
            var r := Route(w, bytes, addr, udp, env);
            && r.sendBuf == w.sendBuf + Flatten(Datas(m.immediate)) && r.sendAddrs == w.sendAddrs + Addrs(m.immediate)
            && r.pushes == w.pushes + m.scheduled && EngineOf(r.engines, addr.outbound) == e
            && EngineOf(r.engines, !addr.outbound) == EngineOf(w.engines, !addr.outbound)
            && r.counts.dropped == w.counts.dropped + (if Drop in m.effects then 1 else 0)
            && r.counts.delayed == w.counts.delayed + (if m.scheduled == [] then 0 else 1)
  {
  }

  /** One loop iteration adds exactly its packet's fate. */
  lemma RouteAdds(w: Walk, bytes: seq<Byte>, addr: Address, udp: Option<FiveTuple>, env: Env)
    requires env.snap.InRange()
    ensures var (es, f) := FateOf(w.engines, bytes, addr, udp, env);
            var r := Route(w, bytes, addr, udp, env);
            && r.sendBuf == w.sendBuf + Flatten(Repeat(bytes, f.now))
            && r.sendAddrs == w.sendAddrs + Repeat(addr, f.now)
            && r.pushes == w.pushes + f.later && r.engines == es
  {
    var t := Target(bytes, addr, udp, env.look);
    if t.Some? {
      EitherShape(w.engines, InputOf(t.value, env));
      CopiesListed(ProcessEither(w.engines, InputOf(t.value, env)).1.immediate, t.value);
    } else {
      assert Flatten([bytes]) == bytes;
      assert Repeat(bytes, 1) == [bytes] && Repeat(addr, 1) == [addr];
      assert Repeat(bytes, 0) == [] && Repeat(addr, 0) == [];
    }
  }

  /** Cutting the first packet off the buffer. */
  lemma CutFirst(chunks: seq<seq<Byte>>, envs: seq<Env>)
    requires |chunks| == |envs| && chunks != [] && Frames(chunks, envs) && envs[0].look.parse.Parsed?
    ensures var buf := Flatten(chunks);
            var rest := Rest(envs[0].look.parse, buf);
            && rest == Flatten(chunks[1..]) && buf[..|buf| - |rest|] == chunks[0]
            && (rest == [] <==> |chunks| == 1)
  {
    if |chunks| > 1 { assert chunks[1..] != []; }
  }

  lemma SpreadFirst<T>(items: seq<T>, f: Fate, rest: seq<Fate>)
    requires |rest| < |items|
    ensures Spread(items, [f] + rest) == Repeat(items[0], f.now) + Spread(items[1..], rest)
  {
    assert ([f] + rest)[1..] == rest;
  }

  lemma LatersFirst(f: Fate, rest: seq<Fate>)
    ensures Laters([f] + rest) == f.later + Laters(rest)
  {
    assert ([f] + rest)[1..] == rest;
  }

  /** From w to r the walk has added the packets' fates. */
  predicate Splices(w: Walk, r: Walk, chunks: seq<seq<Byte>>, addrs: seq<Address>, fs: seq<Fate>)
    requires |fs| <= |chunks| == |addrs|
  {
    && r.sendBuf == w.sendBuf + Flatten(Spread(chunks, fs))
    && r.sendAddrs == w.sendAddrs + Spread(addrs, fs)
    && r.pushes == w.pushes + Laters(fs)
  }

  lemma WalkStep(w: Walk, chunks: seq<seq<Byte>>, addrs: seq<Address>, envs: seq<Env>, i: nat)
    requires i < |addrs| == |envs| && |chunks| == |addrs| - i && Frames(chunks, envs[i..])
    requires envs[i].look.parse.Parsed?
    ensures WalkFrom(w, Flatten(chunks), addrs, envs, i) ==
            WalkFrom(Route(w, chunks[0], addrs[i], envs[i].look.parse.udp, envs[i]), Flatten(chunks[1..]), addrs, envs, i + 1)
  {
    CutFirst(chunks, envs[i..]);
  }

  lemma SplicesFirst(w: Walk, w': Walk, r: Walk, chunks: seq<seq<Byte>>, addrs: seq<Address>, f: Fate, rest: seq<Fate>)
    requires |rest| < |chunks| == |addrs| && Splices(w', r, chunks[1..], addrs[1..], rest)
    requires w'.sendBuf == w.sendBuf + Flatten(Repeat(chunks[0], f.now))
    requires w'.sendAddrs == w.sendAddrs + Repeat(addrs[0], f.now) && w'.pushes == w.pushes + f.later
    ensures Splices(w, r, chunks, addrs, [f] + rest)
  {
    SpreadFirst(chunks, f, rest);
    SpreadFirst(addrs, f, rest);
    var now, later := Repeat(chunks[0], f.now), Spread(chunks[1..], rest);
    FlattenConcat(now, later);
    Joined(w.sendBuf, Flatten(now), Flatten(later));
    Joined(w.sendAddrs, Repeat(addrs[0], f.now), Spread(addrs[1..], rest));
    LatersFirst(f, rest);
    Joined(w.pushes, f.later, Laters(rest));
  }

  lemma Joined<T>(a: seq<T>, b: seq<T>, c: seq<T>)
    ensures a + b + c == a + (b + c)
  {
  }

  lemma {:induction false} WalkSplices(w: Walk, chunks: seq<seq<Byte>>, addrs: seq<Address>, envs: seq<Env>, i: nat)
    requires i <= |addrs| == |envs| && |chunks| == |addrs| - i && Frames(chunks, envs[i..]) && InRange(envs)
    ensures Splices(w, WalkFrom(w, Flatten(chunks), addrs, envs, i), chunks, addrs[i..],
                    Fates(w.engines, chunks, addrs[i..], envs[i..]))
    decreases |chunks|
  {
    if chunks != [] && envs[i].look.parse.Parsed? {
      var udp := envs[i].look.parse.udp;
      var f := FateOf(w.engines, chunks[0], addrs[i], udp, envs[i]).1;
      var w' := Route(w, chunks[0], addrs[i], udp, envs[i]);
      RouteAdds(w, chunks[0], addrs[i], udp, envs[i]);
      assert addrs[i..][1..] == addrs[i + 1..] && envs[i..][1..] == envs[i + 1..];
      WalkSplices(w', chunks[1..], addrs, envs, i + 1);
      WalkStep(w, chunks, addrs, envs, i);
      SplicesFirst(w, w', WalkFrom(w, Flatten(chunks), addrs, envs, i), chunks, addrs[i..], f,
                   Fates(w'.engines, chunks[1..], addrs[i + 1..], envs[i + 1..]));
    }
  }

  /** A batch of well-formed packets: what is sent on is, in order, each packet as often as its fate
      says, followed unchanged by the packets from the first parse failure on; every address stays
      with its packet; and the pushes are the delayed copies, in order. */
  lemma BatchSpliced(es: Engines, chunks: seq<seq<Byte>>, addrs: seq<Address>, envs: seq<Env>)
    requires |chunks| == |addrs| == |envs| && Frames(chunks, envs) && InRange(envs)
    ensures var fs := Fates(es, chunks, addrs, envs);
            var r := WalkBatch(es, Flatten(chunks), addrs, envs);
            r.sendBuf == Flatten(Spread(chunks, fs)) && r.sendAddrs == Spread(addrs, fs) && r.pushes == Laters(fs)
  {
    assert addrs[0..] == addrs && envs[0..] == envs;
    WalkSplices(Walk([], [], [], es, NO_COUNTS), chunks, addrs, envs, 0);
  }

  // ----- The engines behind a batch -----

  function RunBoth(es: Engines, ins: seq<Input>): Engines
    decreases |ins|
  {
    if ins == [] then es else RunBoth(ProcessEither(es, ins[0]).0, ins[1..])
  }

  function ScheduledOf(ms: seq<Emission>): seq<ScheduledPacket> {
    if ms == [] then [] else ms[0].scheduled + ScheduledOf(ms[1..])
  }

  /** How many packets were lost. */
  function LostIn(ms: seq<Emission>): nat {
    if ms == [] then 0 else (if Drop in ms[0].effects then 1 else 0) + LostIn(ms[1..])
  }

  /** How many packets have a copy that leaves later. */
  function DelayedIn(ms: seq<Emission>): nat {
    if ms == [] then 0 else (if ms[0].scheduled == [] then 0 else 1) + DelayedIn(ms[1..])
  }

  /** A packet reaches its engine if it is a targeted UDP packet that fits an MTU. */
  function InputIfTargeted(bytes: seq<Byte>, addr: Address, udp: Option<FiveTuple>, env: Env): seq<Input> {
    if udp.Some? && env.look.pid != 0 && env.look.targeted && |bytes| <= MTU then [Seen(bytes, addr, udp.value, env)] else []
  }

  /** What the engines see of a batch: the targeted UDP packets that fit an MTU, as far as the walk
      gets. */
  function EngineInputs(buf: seq<Byte>, addrs: seq<Address>, envs: seq<Env>): seq<Input>
    requires |addrs| == |envs|
    decreases |envs|
  {
    if envs == [] || envs[0].look.parse.Failed? then []
    else
      var p := envs[0].look.parse;
      var rest := Rest(p, buf);
      InputIfTargeted(buf[..|buf| - |rest|], addrs[0], p.udp, envs[0])
      + if rest == [] then [] else EngineInputs(rest, addrs[1..], envs[1..])
  }

  lemma {:induction false} RunBothConcat(es: Engines, a: seq<Input>, b: seq<Input>)
    ensures RunBoth(es, a + b) == RunBoth(RunBoth(es, a), b)
    ensures EmissionsOfBoth(es, a + b) == EmissionsOfBoth(es, a) + EmissionsOfBoth(RunBoth(es, a), b)
    decreases |a|
  {
    if a == [] {
      assert a + b == b;
    } else {
      RunBothConcat(ProcessEither(es, a[0]).0, a[1..], b);
      assert (a + b)[1..] == a[1..] + b;
    }
  }

  lemma {:induction false} ScheduledConcat(a: seq<Emission>, b: seq<Emission>)
    ensures ScheduledOf(a + b) == ScheduledOf(a) + ScheduledOf(b)
  {
    if a == [] {
      assert a + b == b;
    } else {
      ScheduledConcat(a[1..], b);
      assert (a + b)[1..] == a[1..] + b;
      Joined(a[0].scheduled, ScheduledOf(a[1..]), ScheduledOf(b));
    }
  }

  lemma {:induction false} MarksConcat(a: seq<Emission>, b: seq<Emission>)
    ensures LostIn(a + b) == LostIn(a) + LostIn(b) && DelayedIn(a + b) == DelayedIn(a) + DelayedIn(b)
  {
    if a == [] {
      assert a + b == b;
    } else {
      MarksConcat(a[1..], b);
      assert (a + b)[1..] == a[1..] + b;
    }
  }

  /** The counters of lost and of delayed packets have advanced by these emissions. */
  predicate Marked(c: Counts, d: Counts, ms: seq<Emission>) {
    d.dropped == c.dropped + LostIn(ms) && d.delayed == c.delayed + DelayedIn(ms)
  }

  lemma {:induction false} MarkedOn(c: Counts, d: Counts, e: Counts, a: seq<Emission>, b: seq<Emission>)
    requires Marked(c, d, a) && Marked(d, e, b)
    ensures Marked(c, e, a + b)
  {
    MarksConcat(a, b);
  }

  /** From w to r the engines have seen `ins`, what they scheduled has been pushed, and what they lost
      or delayed counted. */
  predicate Engaged(w: Walk, r: Walk, ins: seq<Input>) {
    var ms := EmissionsOfBoth(w.engines, ins);
    r.engines == RunBoth(w.engines, ins) && r.pushes == w.pushes + ScheduledOf(ms) && Marked(w.counts, r.counts, ms)
  }

  lemma {:induction false} EngagedOn(w: Walk, w': Walk, r: Walk, a: seq<Input>, b: seq<Input>)
    requires Engaged(w, w', a) && Engaged(w', r, b)
    ensures Engaged(w, r, a + b)
  {
    RunBothConcat(w.engines, a, b);
    ScheduledConcat(EmissionsOfBoth(w.engines, a), EmissionsOfBoth(w'.engines, b));
    Joined(w.pushes, ScheduledOf(EmissionsOfBoth(w.engines, a)), ScheduledOf(EmissionsOfBoth(w'.engines, b)));
    MarkedOn(w.counts, w'.counts, r.counts, EmissionsOfBoth(w.engines, a), EmissionsOfBoth(w'.engines, b));
  }

  lemma RouteEngages(w: Walk, bytes: seq<Byte>, addr: Address, udp: Option<FiveTuple>, env: Env)
    ensures Engaged(w, Route(w, bytes, addr, udp, env), InputIfTargeted(bytes, addr, udp, env))
  {
    if udp.Some? && env.look.pid != 0 && env.look.targeted && |bytes| <= MTU {
      var i := Seen(bytes, addr, udp.value, env);
      OneInput(w.engines, i);
      assert Target(bytes, addr, udp, env.look) == Some(i.packet) && InputOf(i.packet, env) == i;
    }
  }

  lemma OneInput(es: Engines, i: Input)
    ensures RunBoth(es, [i]) == ProcessEither(es, i).0
    ensures EmissionsOfBoth(es, [i]) == [ProcessEither(es, i).1]
    ensures ScheduledOf(EmissionsOfBoth(es, [i])) == ProcessEither(es, i).1.scheduled
  {
    assert EmissionsOfBoth(es, [i]) == [ProcessEither(es, i).1];
  }

  /** What the engines see of the first packet and of those after it. */
  lemma {:induction false} FirstInput(buf: seq<Byte>, addrs: seq<Address>, envs: seq<Env>, i: nat, rest: seq<Byte>, bytes: seq<Byte>)
    requires i < |addrs| == |envs| && envs[i].look.parse.Parsed?
    requires rest == Rest(envs[i].look.parse, buf) && bytes == buf[..|buf| - |rest|]
    ensures EngineInputs(buf, addrs[i..], envs[i..]) ==
            InputIfTargeted(bytes, addrs[i], envs[i].look.parse.udp, envs[i])
            + if rest == [] then [] else EngineInputs(rest, addrs[i + 1..], envs[i + 1..])
  {
    assert addrs[i..][1..] == addrs[i + 1..] && envs[i..][1..] == envs[i + 1..];
  }

  /** What a walk does to the engines and pushes is what running them on its inputs does. */
  lemma {:induction false} WalkEngages(w: Walk, buf: seq<Byte>, addrs: seq<Address>, envs: seq<Env>, i: nat)
    requires i <= |addrs| == |envs|
    ensures Engaged(w, WalkFrom(w, buf, addrs, envs, i), EngineInputs(buf, addrs[i..], envs[i..]))
    decreases |addrs| - i
  {
    if i < |addrs| && envs[i].look.parse.Parsed? {
      var p := envs[i].look.parse;
      var rest := Rest(p, buf);
      var bytes := buf[..|buf| - |rest|];
      var w' := Route(w, bytes, addrs[i], p.udp, envs[i]);
      RouteEngages(w, bytes, addrs[i], p.udp, envs[i]);
      var first := InputIfTargeted(bytes, addrs[i], p.udp, envs[i]);
      FirstInput(buf, addrs, envs, i, rest, bytes);
      if rest == [] {
        assert first + [] == first;
      } else {
        WalkEngages(w', rest, addrs, envs, i + 1);
        EngagedOn(w, w', WalkFrom(w', rest, addrs, envs, i + 1), first, EngineInputs(rest, addrs[i + 1..], envs[i + 1..]));
      }
    }
  }

  /** One batch: the engines go on from where they were, over the batch's targeted packets in order,
      the pushes are exactly what they schedule, and the packets counted as lost and as delayed those
      they lose and delay. */
  lemma BatchEngages(es: Engines, recv: seq<Byte>, addrs: seq<Address>, envs: seq<Env>)
    requires |addrs| == |envs|
    ensures var r, ins := WalkBatch(es, recv, addrs, envs), EngineInputs(recv, addrs, envs);
            && r.engines == RunBoth(es, ins) && r.pushes == ScheduledOf(EmissionsOfBoth(es, ins))
            && Marked(NO_COUNTS, r.counts, EmissionsOfBoth(es, ins))
  {
    var w := Walk([], [], [], es, NO_COUNTS);
    WalkEngages(w, recv, addrs, envs, 0);
    EngagedWhole(w, WalkFrom(w, recv, addrs, envs, 0), recv, addrs, envs, 0);
  }

  lemma EngagedWhole(w: Walk, r: Walk, buf: seq<Byte>, addrs: seq<Address>, envs: seq<Env>, i: nat)
    requires |addrs| == |envs| && i == 0 && w.pushes == [] && Engaged(w, r, EngineInputs(buf, addrs[i..], envs[i..]))
    ensures r.engines == RunBoth(w.engines, EngineInputs(buf, addrs, envs))
    ensures r.pushes == ScheduledOf(EmissionsOfBoth(w.engines, EngineInputs(buf, addrs, envs)))
    ensures Marked(w.counts, r.counts, EmissionsOfBoth(w.engines, EngineInputs(buf, addrs, envs)))
  {
    assert addrs[i..] == addrs && envs[i..] == envs;
  }

  // ----- Counters -----

  function Plus(a: Counts, b: Counts): Counts {
    Counts(a.dropped + b.dropped, a.oversized + b.oversized, a.duplicated + b.duplicated, a.delayed + b.delayed,
           a.parseFailures + b.parseFailures)
  }

  /** What one packet's fate adds to the counters. */
  function PacketTally(bytes: seq<Byte>, f: Fate): Counts {
    var copies := f.now + |f.later|;
    Counts(if |bytes| <= MTU && copies == 0 then 1 else 0, if |bytes| > MTU then 1 else 0,
           if copies > 1 then copies - 1 else 0, if f.later != [] then 1 else 0, 0)
  }

  /** The counters of a batch, from what became of its packets. */
  function Tally(chunks: seq<seq<Byte>>, fs: seq<Fate>): Counts
    requires |fs| <= |chunks|
  {
    if chunks == [] then NO_COUNTS
    else if fs == [] then NO_COUNTS.(parseFailures := 1)
    else Plus(PacketTally(chunks[0], fs[0]), Tally(chunks[1..], fs[1..]))
  }

  lemma RouteTallies(w: Walk, bytes: seq<Byte>, addr: Address, udp: Option<FiveTuple>, env: Env)
    requires env.snap.InRange()
    ensures Route(w, bytes, addr, udp, env).counts
            == Plus(w.counts, PacketTally(bytes, FateOf(w.engines, bytes, addr, udp, env).1))
  {
    var t := Target(bytes, addr, udp, env.look);
    if t.Some? {
      var i := InputOf(t.value, env);
      EitherShape(w.engines, i);
      EffectsReported(if i.packet.metadata.isOutbound then w.engines.outbound else w.engines.inbound, i);
    }
  }

  lemma PlusAssociates(a: Counts, b: Counts, c: Counts)
    ensures Plus(Plus(a, b), c) == Plus(a, Plus(b, c))
  {
  }

  lemma TallyFirst(chunks: seq<seq<Byte>>, f: Fate, rest: seq<Fate>)
    requires |rest| < |chunks|
    ensures Tally(chunks, [f] + rest) == Plus(PacketTally(chunks[0], f), Tally(chunks[1..], rest))
  {
    assert ([f] + rest)[1..] == rest;
  }

  lemma {:induction false} WalkTallies(w: Walk, chunks: seq<seq<Byte>>, addrs: seq<Address>, envs: seq<Env>, i: nat)
    requires i <= |addrs| == |envs| && |chunks| == |addrs| - i && Frames(chunks, envs[i..]) && InRange(envs)
    ensures WalkFrom(w, Flatten(chunks), addrs, envs, i).counts
            == Plus(w.counts, Tally(chunks, Fates(w.engines, chunks, addrs[i..], envs[i..])))
    decreases |chunks|
  {
    if chunks != [] && envs[i].look.parse.Parsed? {
      var udp := envs[i].look.parse.udp;
      var f := FateOf(w.engines, chunks[0], addrs[i], udp, envs[i]).1;
      var w' := Route(w, chunks[0], addrs[i], udp, envs[i]);
      RouteAdds(w, chunks[0], addrs[i], udp, envs[i]);
      RouteTallies(w, chunks[0], addrs[i], udp, envs[i]);
      assert addrs[i..][1..] == addrs[i + 1..] && envs[i..][1..] == envs[i + 1..];
      WalkTallies(w', chunks[1..], addrs, envs, i + 1);
      WalkStep(w, chunks, addrs, envs, i);
      var rest := Fates(w'.engines, chunks[1..], addrs[i + 1..], envs[i + 1..]);
      TallyFirst(chunks, f, rest);
      PlusAssociates(w.counts, PacketTally(chunks[0], f), Tally(chunks[1..], rest));
    }
  }

  lemma TalliedFrom(w: Walk, chunks: seq<seq<Byte>>, addrs: seq<Address>, envs: seq<Env>, i: nat)
    requires |chunks| == |addrs| == |envs| && Frames(chunks, envs) && InRange(envs) && i == 0 && w.counts == NO_COUNTS
    ensures WalkFrom(w, Flatten(chunks), addrs, envs, i).counts == Tally(chunks, Fates(w.engines, chunks, addrs, envs))
  {
    assert addrs[i..] == addrs && envs[i..] == envs;
    WalkTallies(w, chunks, addrs, envs, i);
    PlusNone(Tally(chunks, Fates(w.engines, chunks, addrs, envs)));
  }

  /** Each counter counts what it is named for: packets that fit but left no copy, packets over an
      MTU, copies beyond a packet's first, packets with a copy pushed, and one parse failure if the
      walk ended at one. */
  lemma BatchTallied(es: Engines, chunks: seq<seq<Byte>>, addrs: seq<Address>, envs: seq<Env>)
    requires |chunks| == |addrs| == |envs| && Frames(chunks, envs) && InRange(envs)
    ensures WalkBatch(es, Flatten(chunks), addrs, envs).counts == Tally(chunks, Fates(es, chunks, addrs, envs))
  {
    TalliedFrom(Walk([], [], [], es, NO_COUNTS), chunks, addrs, envs, 0);
  }

  lemma PlusNone(c: Counts)
    ensures Plus(NO_COUNTS, c) == c
  {
  }

  /** A delayed copy of one packet: its bytes and its address, due after it was seen. */
  predicate DelayedCopy(p: ScheduledPacket, bytes: seq<Byte>, addr: Address, env: Env) {
    p.packet.data == bytes && p.packet.addr == addr && p.releaseAt > env.look.now
  }

  ghost predicate FromBatch(p: ScheduledPacket, chunks: seq<seq<Byte>>, addrs: seq<Address>, envs: seq<Env>)
    requires |chunks| == |addrs| == |envs|
  {
    exists k :: 0 <= k < |chunks| && DelayedCopy(p, chunks[k], addrs[k], envs[k])
  }

  lemma {:induction false} LatersFromBatch(es: Engines, chunks: seq<seq<Byte>>, addrs: seq<Address>, envs: seq<Env>)
    requires |chunks| == |addrs| == |envs| && InRange(envs)
    ensures forall p :: p in Laters(Fates(es, chunks, addrs, envs)) ==> FromBatch(p, chunks, addrs, envs)
    decreases |chunks|
  {
    if chunks != [] && envs[0].look.parse.Parsed? {
      var udp := envs[0].look.parse.udp;
      var (es', f) := FateOf(es, chunks[0], addrs[0], udp, envs[0]);
      FateShape(es, chunks[0], addrs[0], udp, envs[0]);
      LatersFromBatch(es', chunks[1..], addrs[1..], envs[1..]);
      var rest := Fates(es', chunks[1..], addrs[1..], envs[1..]);
      LatersFirst(f, rest);
      forall p | p in f.later + Laters(rest) ensures FromBatch(p, chunks, addrs, envs) {
        if p in f.later {
          assert DelayedCopy(p, chunks[0], addrs[0], envs[0]);
        } else {
          assert FromBatch(p, chunks[1..], addrs[1..], envs[1..]);
          var k :| 0 <= k < |chunks[1..]| && DelayedCopy(p, chunks[1..][k], addrs[1..][k], envs[1..][k]);
          assert DelayedCopy(p, chunks[k + 1], addrs[k + 1], envs[k + 1]);
        }
      }
    }
  }

  /** Every push of a well-formed batch is a delayed copy of one of its packets. */
  lemma PushesFromBatch(es: Engines, chunks: seq<seq<Byte>>, addrs: seq<Address>, envs: seq<Env>)
    requires |chunks| == |addrs| == |envs| && Frames(chunks, envs) && InRange(envs)
    ensures forall p :: p in WalkBatch(es, Flatten(chunks), addrs, envs).pushes ==> FromBatch(p, chunks, addrs, envs)
  {
    BatchSpliced(es, chunks, addrs, envs);
    LatersFromBatch(es, chunks, addrs, envs);
  }

  // ----- Transparency -----

  /** No effect is configured. */
  predicate Neutral(s: EffectSnapshot) {
    && s.delayMs == 0 && s.delayJitterMs == 0 && s.throttleBytesPerSecond == 0
    && !s.burstDropEnabled && s.dropRate <= 0.0 && s.duplicateRate <= 0.0
  }

  /** A packet the interceptor leaves alone: it fits an MTU, and is not targeted or no effect is on. */
  predicate LeftAlone(bytes: seq<Byte>, udp: Option<FiveTuple>, env: Env) {
    |bytes| <= MTU && (Untargeted(udp, env.look) || Neutral(env.snap))
  }

  lemma LeftAlonePasses(es: Engines, bytes: seq<Byte>, addr: Address, udp: Option<FiveTuple>, env: Env)
    requires LeftAlone(bytes, udp, env)
    ensures FateOf(es, bytes, addr, udp, env).1 == Fate(1, [])
  {
    var t := Target(bytes, addr, udp, env.look);
    if t.Some? {
      var i := InputOf(t.value, env);
      var e := if i.packet.metadata.isOutbound then es.outbound else es.inbound;
      var first := First(Reset(e, i.snap).nextRelease, i);
      assert Nth(first, Gap(i), 0) == first == i.now;
      assert Immediates(i.packet, first, Gap(i), 0, i.now) == [] && Scheduleds(i.packet, first, Gap(i), 0, i.now) == [];
      assert Immediates(i.packet, first, Gap(i), 1, i.now) == [i.packet] && Scheduleds(i.packet, first, Gap(i), 1, i.now) == [];
    }
  }

  /** Every packet of the batch that parses is left alone. */
  ghost predicate AllLeftAlone(chunks: seq<seq<Byte>>, envs: seq<Env>)
    requires |chunks| == |envs|
  {
    forall i :: 0 <= i < |chunks| && envs[i].look.parse.Parsed? ==>
                  LeftAlone(chunks[i], envs[i].look.parse.udp, envs[i])
  }

  lemma LaterLeftAlone(chunks: seq<seq<Byte>>, envs: seq<Env>)
    requires |chunks| == |envs| && chunks != [] && AllLeftAlone(chunks, envs)
    ensures AllLeftAlone(chunks[1..], envs[1..])
  {
    forall i | 0 <= i < |chunks[1..]| && envs[1..][i].look.parse.Parsed?
      ensures LeftAlone(chunks[1..][i], envs[1..][i].look.parse.udp, envs[1..][i])
    {
      assert chunks[1..][i] == chunks[i + 1] && envs[1..][i] == envs[i + 1];
    }
  }

  lemma {:induction false} Untouched<T>(items: seq<T>, es: Engines, chunks: seq<seq<Byte>>, addrs: seq<Address>, envs: seq<Env>)
    requires |items| == |chunks| == |addrs| == |envs| && AllLeftAlone(chunks, envs)
    ensures var fs := Fates(es, chunks, addrs, envs); Spread(items, fs) == items && Laters(fs) == []
    decreases |chunks|
  {
    if chunks != [] && envs[0].look.parse.Parsed? {
      var udp := envs[0].look.parse.udp;
      assert LeftAlone(chunks[0], udp, envs[0]);
      LeftAlonePasses(es, chunks[0], addrs[0], udp, envs[0]);
      var es' := FateOf(es, chunks[0], addrs[0], udp, envs[0]).0;
      LaterLeftAlone(chunks, envs);
      Untouched(items[1..], es', chunks[1..], addrs[1..], envs[1..]);
      var rest := Fates(es', chunks[1..], addrs[1..], envs[1..]);
      SpreadFirst(items, Fate(1, []), rest);
      LatersFirst(Fate(1, []), rest);
      assert Repeat(items[0], 1) + items[1..] == items;
    }
  }

  /** With every packet left alone the batch goes out byte for byte as it came in. */
  lemma BatchTransparent(es: Engines, chunks: seq<seq<Byte>>, addrs: seq<Address>, envs: seq<Env>)
    requires |chunks| == |addrs| == |envs| && Frames(chunks, envs) && InRange(envs) && AllLeftAlone(chunks, envs)
    ensures var r := WalkBatch(es, Flatten(chunks), addrs, envs);
            r.sendBuf == Flatten(chunks) && r.sendAddrs == addrs && r.pushes == []
  {
    BatchSpliced(es, chunks, addrs, envs);
    Untouched(chunks, es, chunks, addrs, envs);
    Untouched(addrs, es, chunks, addrs, envs);
  }

  // ----- Conservation -----

  /** Packets accounted for: sent on at once, pushed, dropped or oversized, less the extra copies. */
  function Balance(w: Walk): int {
    |w.sendAddrs| + |w.pushes| + w.counts.dropped + w.counts.oversized - w.counts.duplicated
  }

  /** From w to r, n packets have been accounted for. */
  predicate Balances(w: Walk, r: Walk, n: nat) {
    Balance(r) == Balance(w) + n
  }

  lemma BalancesOn(w: Walk, w': Walk, r: Walk, n: nat)
    requires Balances(w, w', 1) && Balances(w', r, n)
    ensures Balances(w, r, n + 1)
  {
  }

  lemma RouteBalances(w: Walk, bytes: seq<Byte>, addr: Address, udp: Option<FiveTuple>, env: Env)
    requires env.snap.InRange()
    ensures Balances(w, Route(w, bytes, addr, udp, env), 1)
  {
    RouteAdds(w, bytes, addr, udp, env);
    var t := Target(bytes, addr, udp, env.look);
    if t.Some? { EitherShape(w.engines, InputOf(t.value, env)); }
  }

  /** How many packets the walk gets to. It stops early when the buffer runs out. */
  function Reached(buf: seq<Byte>, envs: seq<Env>): (r: nat)
    ensures r <= |envs|
    decreases |envs|
  {
    if envs == [] then 0
    else
      var p := envs[0].look.parse;
      if p.Failed? then |envs|
      else
        var rest := Rest(p, buf);
        if rest == [] then 1 else 1 + Reached(rest, envs[1..])
  }

  /** One iteration of the walk that is not the last. */
  lemma WalkOn(w: Walk, buf: seq<Byte>, addrs: seq<Address>, envs: seq<Env>, i: nat) returns (w': Walk, rest: seq<Byte>)
    requires i < |addrs| == |envs| && InRange(envs) && envs[i].look.parse.Parsed? && Rest(envs[i].look.parse, buf) != []
    ensures WalkFrom(w, buf, addrs, envs, i) == WalkFrom(w', rest, addrs, envs, i + 1)
    ensures Reached(buf, envs[i..]) == Reached(rest, envs[i + 1..]) + 1
    ensures Balances(w, w', 1)
  {
    var p := envs[i].look.parse;
    rest := Rest(p, buf);
    var bytes := buf[..|buf| - |rest|];
    w' := Route(w, bytes, addrs[i], p.udp, envs[i]);
    RouteBalances(w, bytes, addrs[i], p.udp, envs[i]);
    assert envs[i..][1..] == envs[i + 1..];
  }

  /** The walk's end: no address left, a parse failure, or no byte left. */
  lemma WalkEnds(w: Walk, buf: seq<Byte>, addrs: seq<Address>, envs: seq<Env>, i: nat)
    requires i <= |addrs| == |envs| && InRange(envs)
    requires i == |addrs| || envs[i].look.parse.Failed? || Rest(envs[i].look.parse, buf) == []
    ensures Balances(w, WalkFrom(w, buf, addrs, envs, i), Reached(buf, envs[i..]))
  {
    if i < |addrs| && envs[i].look.parse.Parsed? {
      assert buf[..|buf|] == buf;
      RouteBalances(w, buf, addrs[i], envs[i].look.parse.udp, envs[i]);
    }
  }

  /** Every packet the walk gets to is accounted for once, whatever the parser answers. */
  lemma {:induction false} WalkBalances(w: Walk, buf: seq<Byte>, addrs: seq<Address>, envs: seq<Env>, i: nat)
    requires i <= |addrs| == |envs| && InRange(envs)
    ensures Balances(w, WalkFrom(w, buf, addrs, envs, i), Reached(buf, envs[i..]))
    decreases |addrs| - i
  {
    if i < |addrs| && envs[i].look.parse.Parsed? && Rest(envs[i].look.parse, buf) != [] {
      var w', rest := WalkOn(w, buf, addrs, envs, i);
      WalkBalances(w', rest, addrs, envs, i + 1);
      BalancesOn(w, w', WalkFrom(w', rest, addrs, envs, i + 1), Reached(rest, envs[i + 1..]));
    } else {
      WalkEnds(w, buf, addrs, envs, i);
    }
  }

  lemma {:induction false} AllReached(chunks: seq<seq<Byte>>, envs: seq<Env>)
    requires |chunks| == |envs| && Frames(chunks, envs)
    ensures Reached(Flatten(chunks), envs) == |chunks|
    decreases |chunks|
  {
    if chunks != [] && envs[0].look.parse.Parsed? {
      CutFirst(chunks, envs);
      AllReached(chunks[1..], envs[1..]);
    }
  }

  /** Per batch: captured + duplicated = dropped + oversized + sent at once + pushed, for any parser
      exactly when the walk gets to every address. */
  lemma BatchConserves(es: Engines, recv: seq<Byte>, addrs: seq<Address>, envs: seq<Env>)
    requires |addrs| == |envs| && InRange(envs)
    ensures var r := WalkBatch(es, recv, addrs, envs);
            && Balance(r) == Reached(recv, envs)
            && (|addrs| + r.counts.duplicated == r.counts.dropped + r.counts.oversized + |r.sendAddrs| + |r.pushes|
                <==> Reached(recv, envs) == |addrs|)
  {
    WalkBalances(Walk([], [], [], es, NO_COUNTS), recv, addrs, envs, 0);
    assert envs[0..] == envs;
  }

  /** A batch that is not conserved: two addresses over a buffer that holds one packet. The walk stops
      when the buffer is used up, and the second packet is nowhere. */
  lemma UnreachedExample(es: Engines, a: Address, b: Address, env: Env)
    requires env.snap.InRange() && env.look.parse == Parsed(None, 0)
    ensures var recv, addrs, envs := [69], [a, b], [env, env];
            var r := WalkBatch(es, recv, addrs, envs);
            && Reached(recv, envs) == 1 && r.sendBuf == recv && r.sendAddrs == [a]
            && |addrs| + r.counts.duplicated != r.counts.dropped + r.counts.oversized + |r.sendAddrs| + |r.pushes|
  {
    BatchConserves(es, [69], [a, b], [env, env]);
  }

  /** A batch of well-formed packets is conserved. */
  lemma FramedBatchConserves(es: Engines, chunks: seq<seq<Byte>>, addrs: seq<Address>, envs: seq<Env>)
    requires |chunks| == |addrs| == |envs| && Frames(chunks, envs) && InRange(envs)
    ensures var r := WalkBatch(es, Flatten(chunks), addrs, envs);
            |addrs| + r.counts.duplicated == r.counts.dropped + r.counts.oversized + |r.sendAddrs| + |r.pushes|
  {
    AllReached(chunks, envs);
    BatchConserves(es, Flatten(chunks), addrs, envs);
  }
}

/** The set of targeted process ids: a set behind a mutex, with a lock-free copy of its element
    in front for when it has exactly one. */
module TargetPids {
  import opened Packets

  const NO_CACHED_PID: Pid := 0xFFFF_FFFF

  datatype Op = Add(pid: Pid) | Remove(pid: Pid) | Clear | SetSelectedPid(pid: Pid) | Contains(pid: Pid)

  /** What an operation does to the abstract set. */
  function Apply(op: Op, s: set<Pid>): set<Pid> {
    match op
    case Add(p) => s + {p}
    case Remove(p) => s - {p}
    case Clear => {}
    case SetSelectedPid(p) => {p}
    case Contains(_) => s
  }

  /** What a mutator may leave in the cache once the set is `s`. */
  ghost predicate CacheAfter(op: Op, s: set<Pid>, cached: Pid) {
    match op
    case Clear => cached == NO_CACHED_PID
    case SetSelectedPid(p) => cached == p
    case _ => if |s| == 1 then cached in s else cached == NO_CACHED_PID
  }

  /** The one thing readers rely on: a cached pid is the whole set. */
  predicate Caches(cached: Pid, s: set<Pid>) {
    cached != NO_CACHED_PID ==> s == {cached}
  }

  lemma CacheIsWholeSet(op: Op, s: set<Pid>, cached: Pid)
    requires CacheAfter(op, Apply(op, s), cached) && !op.Contains?
    ensures Caches(cached, Apply(op, s))
  {
    var after := Apply(op, s);
    if |after| == 1 && cached in after {
      assert |after - {cached}| == 0;
      assert after == {cached};
    }
  }

  class TargetPidSet {
    var pids: set<Pid>
    var cachedPid: Pid

    ghost predicate Valid()
      reads this
    {
      Caches(cachedPid, pids)
    }

    constructor ()
      ensures Valid() && pids == {}
    {
      pids, cachedPid := {}, NO_CACHED_PID;
    }

    method RefreshCachedPid()
      modifies this`cachedPid
      ensures Valid()
      ensures if |pids| == 1 then cachedPid in pids else cachedPid == NO_CACHED_PID
    {
      if |pids| == 1 {
        var p :| p in pids;
        CacheIsWholeSet(Op.Add(p), pids, p) by { assert Apply(Op.Add(p), pids) == pids; }
        assert Apply(Op.Add(p), pids) == pids;
        cachedPid := p;
      } else {
        cachedPid := NO_CACHED_PID;
      }
    }

    method Add(pid: Pid)
      modifies this
      ensures Valid() && pids == old(pids) + {pid} && CacheAfter(Op.Add(pid), pids, cachedPid)
    {
      pids := pids + {pid};
      RefreshCachedPid();
    }

    method Remove(pid: Pid)
      modifies this
      ensures Valid() && pids == old(pids) - {pid} && CacheAfter(Op.Remove(pid), pids, cachedPid)
    {
      pids := pids - {pid};
      RefreshCachedPid();
    }

    method Clear()
      modifies this
      ensures Valid() && pids == {} && cachedPid == NO_CACHED_PID
    {
      pids := {};
      cachedPid := NO_CACHED_PID;
    }

    method SetSelectedPid(pid: Pid)
      modifies this
      ensures Valid() && pids == {pid} && cachedPid == pid
    {
      pids := {};
      pids := pids + {pid};
      cachedPid := pid;
    }

    /** Set membership, for every pid, the sentinel included. */
    method Contains(pid: Pid) returns (found: bool)
      requires Valid()
      ensures found <==> pid in pids
    {
      if cachedPid != NO_CACHED_PID { return cachedPid == pid; }
      found := pid in pids;
    }
  }

  // ----- Any number of threads -----

  /** One call: its identity, and how many operations had taken effect when it was invoked. */
  datatype Call = Call(id: nat, op: Op, invokedAt: nat)

  datatype Pc =
    | Idle
    | Called(call: Call)                                   // mutator at the lock, or reader at the cache
    | Locked(call: Call)                                   // mutator holds the lock
    | Changed(call: Call)                                  // pids_ modified, cache still old
    | SlowPath(call: Call)                                 // reader saw no cached pid
    | SlowLocked(call: Call)                               // reader holds the lock
    | Unlocking(call: Call, at: nat, result: bool)         // took effect, lock still held
    | Returning(call: Call, at: nat, result: bool)

  /** An operation that took effect, with the answer it gave. */
  datatype Entry = Entry(id: nat, op: Op, result: bool)

  /** A finished call: it took effect as entry `at` of the log. */
  datatype Finished = Finished(call: Call, at: nat, result: bool, returnedAt: nat)

  datatype State = State(
    pids: set<Pid>, cached: Pid, owner: Option<nat>, threads: seq<Pc>,
    log: seq<Entry>, finished: seq<Finished>, nextId: nat)

  datatype Action =
    | Invoke(t: nat, op: Op) | Acquire(t: nat) | Mutate(t: nat) | StoreCache(t: nat, value: Pid)
    | LoadCache(t: nat) | SlowAcquire(t: nat) | SlowRead(t: nat) | Unlock(t: nat) | Return(t: nat)

  function To(s: State, t: nat, pc: Pc): State
    requires t < |s.threads|
  {
    s.(threads := s.threads[t := pc])
  }

  function Logged(s: State, c: Call, result: bool): State {
    s.(log := s.log + [Entry(c.id, c.op, result)])
  }

  ghost predicate Step(s: State, a: Action, s': State) {
    a.t < |s.threads| &&
    var pc := s.threads[a.t];
    match a
    case Invoke(t, op) => pc.Idle? && s' == To(s, t, Called(Call(s.nextId, op, |s.log|))).(nextId := s.nextId + 1)
    case Acquire(t) =>
      && pc.Called? && !pc.call.op.Contains? && s.owner.None?
      && s' == To(s, t, Locked(pc.call)).(owner := Some(t))
    case Mutate(t) => pc.Locked? && s' == To(s, t, Changed(pc.call)).(pids := Apply(pc.call.op, s.pids))
    case StoreCache(t, value) =>
      && pc.Changed? && CacheAfter(pc.call.op, s.pids, value)
      && s' == Logged(To(s, t, Unlocking(pc.call, |s.log|, false)), pc.call, false).(cached := value)
    case LoadCache(t) =>
      && pc.Called? && pc.call.op.Contains?
      && s' == (if s.cached != NO_CACHED_PID then
                  var r := s.cached == pc.call.op.pid;
                  Logged(To(s, t, Returning(pc.call, |s.log|, r)), pc.call, r)
                else To(s, t, SlowPath(pc.call)))
    case SlowAcquire(t) => pc.SlowPath? && s.owner.None? && s' == To(s, t, SlowLocked(pc.call)).(owner := Some(t))
    case SlowRead(t) =>
      && pc.SlowLocked? && pc.call.op.Contains?
      && var r := pc.call.op.pid in s.pids;
         s' == Logged(To(s, t, Unlocking(pc.call, |s.log|, r)), pc.call, r)
    case Unlock(t) => pc.Unlocking? && s' == To(s, t, Returning(pc.call, pc.at, pc.result)).(owner := None)
    case Return(t) =>
      && pc.Returning?
      && s' == To(s, t, Idle).(finished := s.finished + [Finished(pc.call, pc.at, pc.result, |s.log|)])
  }

  ghost predicate Init(s: State) {
    && s.pids == {} && s.cached == NO_CACHED_PID && s.owner == None && s.log == [] && s.finished == []
    && forall t :: 0 <= t < |s.threads| ==> s.threads[t] == Idle
  }

  ghost predicate IsRun(run: seq<State>, acts: seq<Action>) {
    && |run| == |acts| + 1 && Init(run[0])
    && forall i :: 0 <= i < |acts| ==> Step(run[i], acts[i], run[i + 1])
  }

  /** The set after the logged operations, one after another. */
  function SetAfter(log: seq<Entry>): set<Pid> {
    if log == [] then {} else Apply(log[|log| - 1].op, SetAfter(log[..|log| - 1]))
  }

  /** Every logged query answers as a plain set would at its place in the log. */
  ghost predicate Sequential(log: seq<Entry>) {
    forall i :: 0 <= i < |log| && log[i].op.Contains? ==> (log[i].result <==> log[i].op.pid in SetAfter(log[..i]))
  }

  predicate HoldsLock(pc: Pc) {
    pc.Locked? || pc.Changed? || pc.SlowLocked? || pc.Unlocking?
  }

  predicate TookEffect(pc: Pc) {
    pc.Unlocking? || pc.Returning?
  }

  ghost predicate PcOk(s: State, t: nat)
    requires t < |s.threads|
  {
    var pc := s.threads[t];
    && (HoldsLock(pc) <==> s.owner == Some(t))
    && (!pc.Idle? ==> pc.call.id < s.nextId && pc.call.invokedAt <= |s.log|)
    && (pc.Locked? || pc.Changed? ==> !pc.call.op.Contains?)
    && (pc.SlowPath? || pc.SlowLocked? ==> pc.call.op.Contains?)
    && (TookEffect(pc) ==> pc.call.invokedAt <= pc.at < |s.log| && s.log[pc.at] == Entry(pc.call.id, pc.call.op, pc.result))
    && (!pc.Idle? && !TookEffect(pc) ==> forall i :: 0 <= i < |s.log| ==> s.log[i].id != pc.call.id)
  }

  ghost predicate FinishedOk(s: State, f: Finished) {
    && f.call.invokedAt <= f.at < f.returnedAt <= |s.log|
    && s.log[f.at] == Entry(f.call.id, f.call.op, f.result)
  }

  /** The set under the lock is the abstract one, or one mutation ahead of it while its author has
      yet to store the cache. */
  ghost predicate SetOk(s: State) {
    && Caches(s.cached, SetAfter(s.log))
    && (match s.owner
        case None => s.pids == SetAfter(s.log)
        case Some(t) =>
          t < |s.threads| &&
          s.pids == if s.threads[t].Changed? then Apply(s.threads[t].call.op, SetAfter(s.log)) else SetAfter(s.log))
  }

  predicate Live(s: State, t: nat) {
    t < |s.threads| && !s.threads[t].Idle?
  }

  ghost predicate LogIdsOk(s: State) {
    && (forall i :: 0 <= i < |s.log| ==> s.log[i].id < s.nextId)
    && (forall i, j :: 0 <= i < j < |s.log| ==> s.log[i].id != s.log[j].id)
  }

  ghost predicate LiveIdsOk(s: State) {
    && (forall t: nat :: Live(s, t) ==> s.threads[t].call.id < s.nextId)
    && (forall t: nat, u: nat :: Live(s, t) && Live(s, u) && t != u ==> s.threads[t].call.id != s.threads[u].call.id)
  }

  ghost predicate FinishedIdsOk(s: State) {
    && (forall i :: 0 <= i < |s.finished| ==> s.finished[i].call.id < s.nextId)
    && (forall i, j :: 0 <= i < j < |s.finished| ==> s.finished[i].call.id != s.finished[j].call.id)
    && (forall i, t: nat :: 0 <= i < |s.finished| && Live(s, t) ==> s.finished[i].call.id != s.threads[t].call.id)
  }

  /** Calls have identities of their own; each is in progress on one thread or finished. */
  ghost predicate IdsOk(s: State) {
    LogIdsOk(s) && LiveIdsOk(s) && FinishedIdsOk(s)
  }

  ghost predicate Inv(s: State) {
    && SetOk(s) && IdsOk(s) && Sequential(s.log)
    && (forall t :: 0 <= t < |s.threads| ==> PcOk(s, t))
    && (forall i :: 0 <= i < |s.finished| ==> FinishedOk(s, s.finished[i]))
  }

  lemma SequentialAppend(log: seq<Entry>, e: Entry)
    requires Sequential(log) && (e.op.Contains? ==> (e.result <==> e.op.pid in SetAfter(log)))
    ensures Sequential(log + [e]) && SetAfter(log + [e]) == Apply(e.op, SetAfter(log))
  {
    var l := log + [e];
    assert l[..|log|] == log;
    forall i | 0 <= i < |l| && l[i].op.Contains? ensures l[i].result <==> l[i].op.pid in SetAfter(l[..i]) {
      assert l[..i] == log[..i];
    }
  }

  /** The acting thread is consistent with the log. */
  ghost predicate ActorOk(s: State, a: Action) {
    a.t < |s.threads| ==> PcOk(s, a.t)
  }

  lemma LogIdsStep(s: State, a: Action, s': State)
    requires LogIdsOk(s) && ActorOk(s, a) && Step(s, a, s')
    ensures LogIdsOk(s')
  {
  }

  lemma LiveIdsStep(s: State, a: Action, s': State)
    requires LiveIdsOk(s) && Step(s, a, s')
    ensures LiveIdsOk(s')
    ensures forall t: nat :: Live(s', t) ==>
              if Live(s, t) then s'.threads[t].call == s.threads[t].call else s'.threads[t].call.id == s.nextId
  {
    assert forall t: nat :: Live(s', t) && t != a.t ==> Live(s, t) && s'.threads[t] == s.threads[t];
    if !s.threads[a.t].Idle? { assert Live(s, a.t); }
  }

  lemma FinishedIdsStep(s: State, a: Action, s': State)
    requires LiveIdsOk(s) && FinishedIdsOk(s) && Step(s, a, s')
    ensures FinishedIdsOk(s')
  {
    LiveIdsStep(s, a, s');
    if !s.threads[a.t].Idle? { assert Live(s, a.t); }
    if a.Return? { assert forall t: nat :: Live(s', t) ==> t != a.t && Live(s, t); }
  }

  /** The call's answer is the one a plain set gives at this point of the log. */
  ghost predicate TakesEffect(s: State, pc: Pc, r: bool, s': State) {
    && !pc.Idle? && !TookEffect(pc) && s'.log == s.log + [Entry(pc.call.id, pc.call.op, r)]
    && (pc.call.op.Contains? ==> (r <==> pc.call.op.pid in SetAfter(s.log)))
  }

  lemma LogStep(s: State, a: Action, s': State)
    requires SetOk(s) && ActorOk(s, a) && Step(s, a, s')
    ensures s'.log == s.log || exists r :: TakesEffect(s, s.threads[a.t], r, s')
  {
    var pc := s.threads[a.t];
    if a.StoreCache? { assert TakesEffect(s, pc, false, s'); }
    if a.LoadCache? && s.cached != NO_CACHED_PID { assert TakesEffect(s, pc, s.cached == pc.call.op.pid, s'); }
    if a.SlowRead? { assert TakesEffect(s, pc, pc.call.op.pid in s.pids, s'); }
  }

  lemma SetStep(s: State, a: Action, s': State)
    requires SetOk(s) && ActorOk(s, a) && Step(s, a, s')
    ensures SetOk(s')
  {
    var pc := s.threads[a.t];
    if s'.log != s.log { assert s'.log[..|s.log|] == s.log; }
    if a.StoreCache? { CacheIsWholeSet(pc.call.op, SetAfter(s.log), a.value); }
  }

  lemma SequentialStep(s: State, a: Action, s': State)
    requires SetOk(s) && Sequential(s.log) && ActorOk(s, a) && Step(s, a, s')
    ensures Sequential(s'.log) && s.log <= s'.log
  {
    LogStep(s, a, s');
    if s'.log != s.log {
      var pc := s.threads[a.t];
      var r :| TakesEffect(s, pc, r, s');
      SequentialAppend(s.log, Entry(pc.call.id, pc.call.op, r));
    }
  }

  lemma ActorStep(s: State, a: Action, s': State)
    requires IdsOk(s) && ActorOk(s, a) && Step(s, a, s')
    ensures PcOk(s', a.t)
  {
  }

  lemma OtherStep(s: State, a: Action, s': State, t: nat)
    requires IdsOk(s) && ActorOk(s, a) && Step(s, a, s') && t < |s.threads| && t != a.t && PcOk(s, t)
    ensures t < |s'.threads| && PcOk(s', t)
  {
    assert s'.threads[t] == s.threads[t];
    if Live(s, t) && Live(s, a.t) { assert s.threads[t].call.id != s.threads[a.t].call.id; }
  }

  lemma FinishedStep(s: State, a: Action, s': State)
    requires Inv(s) && Step(s, a, s') && s.log <= s'.log
    ensures forall i :: 0 <= i < |s'.finished| ==> FinishedOk(s', s'.finished[i])
  {
    assert PcOk(s, a.t);
    forall i | 0 <= i < |s'.finished| ensures FinishedOk(s', s'.finished[i]) {
      if i < |s.finished| { assert FinishedOk(s, s.finished[i]); }
    }
  }

  lemma InvStep(s: State, a: Action, s': State)
    requires Inv(s) && Step(s, a, s')
    ensures Inv(s')
  {
    assert PcOk(s, a.t);
    LogIdsStep(s, a, s');
    LiveIdsStep(s, a, s');
    FinishedIdsStep(s, a, s');
    SetStep(s, a, s');
    SequentialStep(s, a, s');
    ActorStep(s, a, s');
    forall t | 0 <= t < |s'.threads| ensures PcOk(s', t) { if t != a.t { OtherStep(s, a, s', t); } }
    FinishedStep(s, a, s');
  }

  lemma {:induction false} Safety(run: seq<State>, acts: seq<Action>, i: nat)
    requires IsRun(run, acts) && i < |run|
    ensures Inv(run[i])
  {
    if i > 0 {
      Safety(run, acts, i - 1);
      InvStep(run[i - 1], acts[i - 1], run[i]);
    } else {
      assert SetAfter([]) == {};
    }
  }

  /** Linearizability, in every interleaving of any number of threads: the log orders all
      operations that took effect so that each query answers as a plain set would; every finished
      call is one entry of it, gave that entry's answer, and took effect between its invocation and
      its return. */
  lemma Linearizable(run: seq<State>, acts: seq<Action>, i: nat)
    requires IsRun(run, acts) && i < |run|
    ensures var s := run[i];
            && Sequential(s.log)
            && (forall k :: 0 <= k < |s.finished| ==> FinishedOk(s, s.finished[k]))
            && (forall k, l :: 0 <= k < l < |s.finished| ==> s.finished[k].at != s.finished[l].at)
  {
    Safety(run, acts, i);
    var s := run[i];
    forall k, l | 0 <= k < l < |s.finished| ensures s.finished[k].at != s.finished[l].at {
      assert FinishedOk(s, s.finished[k]) && FinishedOk(s, s.finished[l]);
    }
  }

  /** Operations that decide about p, and those among them that put p in. */
  predicate Concerns(op: Op, p: Pid) {
    op == Op.Add(p) || op == Op.Remove(p) || op.Clear? || op.SetSelectedPid?
  }

  predicate Puts(op: Op, p: Pid) {
    op == Op.Add(p) || op == Op.SetSelectedPid(p)
  }

  predicate LastAt(log: seq<Entry>, p: Pid, i: nat) {
    i < |log| && Puts(log[i].op, p) && forall j :: i < j < |log| ==> !Concerns(log[j].op, p)
  }

  /** The last logged operation that concerns p put it in. */
  ghost predicate LastPuts(log: seq<Entry>, p: Pid) {
    exists i: nat :: LastAt(log, p, i)
  }

  lemma LastStays(log: seq<Entry>, e: Entry, p: Pid)
    requires !Concerns(e.op, p)
    ensures LastPuts(log + [e], p) <==> LastPuts(log, p)
  {
    forall i: nat | LastAt(log, p, i) ensures LastAt(log + [e], p, i) {}
    forall i: nat | LastAt(log + [e], p, i) ensures LastAt(log, p, i) {
      forall j | i < j < |log| ensures !Concerns(log[j].op, p) { assert (log + [e])[j] == log[j]; }
    }
  }

  lemma LastDecides(log: seq<Entry>, e: Entry, p: Pid)
    requires Concerns(e.op, p)
    ensures LastPuts(log + [e], p) <==> Puts(e.op, p)
  {
    assert (log + [e])[|log|] == e;
    if Puts(e.op, p) { assert LastAt(log + [e], p, |log|); }
  }

  /** The abstract set holds p exactly if the last operation that concerns p put it in. */
  lemma {:induction false} MembershipFromLog(log: seq<Entry>, p: Pid)
    ensures p in SetAfter(log) <==> LastPuts(log, p)
  {
    if log != [] {
      var before, e := log[..|log| - 1], log[|log| - 1];
      MembershipFromLog(before, p);
      assert log == before + [e];
      if Concerns(e.op, p) { LastDecides(before, e, p); } else { LastStays(before, e, p); }
    }
  }

  /** In every interleaving, a query answers true exactly if the last operation before it that
      concerns its pid put the pid in. */
  lemma QueriesAnswerLastChange(run: seq<State>, acts: seq<Action>, i: nat, k: nat)
    requires IsRun(run, acts) && i < |run| && k < |run[i].log| && run[i].log[k].op.Contains?
    ensures run[i].log[k].result <==> LastPuts(run[i].log[..k], run[i].log[k].op.pid)
  {
    Linearizable(run, acts, i);
    MembershipFromLog(run[i].log[..k], run[i].log[k].op.pid);
  }

  /** So the log respects real time: a call that returned before another was invoked precedes it. */
  lemma RealTimeOrder(run: seq<State>, acts: seq<Action>, i: nat, k: nat, l: nat)
    requires IsRun(run, acts) && i < |run| && k < |run[i].finished| && l < |run[i].finished|
    requires run[i].finished[k].returnedAt <= run[i].finished[l].call.invokedAt
    ensures run[i].finished[k].at < run[i].finished[l].at
  {
    Linearizable(run, acts, i);
    assert FinishedOk(run[i], run[i].finished[k]) && FinishedOk(run[i], run[i].finished[l]);
  }
}

/** Which process owns a UDP flow: a table by five-tuple and an index by local endpoint, both in
    front of a scan of the system's UDP table. */
module FlowTrackers {
  import opened Packets

  const SYSTEM_PID: Pid := 4  // kSystemPid

  predicate IsNoisePid(pid: Pid) {
    pid == 0 || pid == SYSTEM_PID
  }

  /** One row of the system's UDP table, in host byte order. A failed query reads as no rows. */
  datatype Row = Row(addr: bv32, port: bv16, pid: Pid)

  /** MakeEndpointKey: 32 address bits above 16 port bits. */
  function EndpointBits(addr: bv32, port: bv16): bv64 {
    ((addr as bv64) << 16) | (port as bv64)
  }

  datatype Key = Key(bits: bv64)

  function EndpointKey(addr: bv32, port: bv16): Key {
    Key(EndpointBits(addr, port))
  }

  lemma EndpointBitsInjective(a: bv32, p: bv16, b: bv32, q: bv16)
    requires EndpointBits(a, p) == EndpointBits(b, q)
    ensures a == b && p == q
  {
  }

  lemma EndpointKeyInjective(a: bv32, p: bv16, b: bv32, q: bv16)
    ensures EndpointKey(a, p) == EndpointKey(b, q) <==> a == b && p == q
  {
    if EndpointKey(a, p) == EndpointKey(b, q) { EndpointBitsInjective(a, p, b, q); }
  }

  function LocalAddr(t: FiveTuple, isOutbound: bool): bv32 {
    if isOutbound then t.srcAddr else t.dstAddr
  }

  function LocalPort(t: FiveTuple, isOutbound: bool): bv16 {
    if isOutbound then t.srcPort else t.dstPort
  }

  /** LocalEndpointKey. */
  function LocalKey(t: FiveTuple, isOutbound: bool): Key {
    EndpointKey(LocalAddr(t, isOutbound), LocalPort(t, isOutbound))
  }

  type FlowTable = map<FiveTuple, Pid>
  type EndpointIndex = map<Key, Pid>

  datatype Tables = Tables(flow: FlowTable, endpoint: EndpointIndex)

  // ----- The system scan -----

  predicate Matches(r: Row, addr: bv32, port: bv16) {
    r.port == port && (r.addr == addr || r.addr == 0) && !IsNoisePid(r.pid)
  }

  /** The pid of the last matching row, or 0. */
  function Scan(rows: seq<Row>, addr: bv32, port: bv16): Pid {
    if rows == [] then 0
    else if Matches(rows[|rows| - 1], addr, port) then rows[|rows| - 1].pid
    else Scan(rows[..|rows| - 1], addr, port)
  }

  /** The index a bootstrap builds: for each key the last row that has it. */
  function IndexOf(rows: seq<Row>): EndpointIndex {
    if rows == [] then map[]
    else
      var r := rows[|rows| - 1];
      var before := IndexOf(rows[..|rows| - 1]);
      if IsNoisePid(r.pid) then before else before[EndpointKey(r.addr, r.port) := r.pid]
  }

  // ----- The cache -----

  /** The cached part of LookupPid: the flow, then the exact endpoint, then the wildcard one. */
  function Cached(s: Tables, t: FiveTuple, isOutbound: bool): Option<Pid> {
    if t in s.flow then Some(s.flow[t])
    else if LocalKey(t, isOutbound) in s.endpoint then Some(s.endpoint[LocalKey(t, isOutbound)])
    else if EndpointKey(0, LocalPort(t, isOutbound)) in s.endpoint then Some(s.endpoint[EndpointKey(0, LocalPort(t, isOutbound))])
    else None
  }

  function WithFlow(s: Tables, t: FiveTuple, pid: Pid): Tables {
    s.(flow := s.flow[t := pid][t.Reversed() := pid])
  }

  /** The writes to the shared tables, each made under the exclusive lock. */
  datatype Event =
    | Bootstrap(rows: seq<Row>)
    | Establish(t: FiveTuple, pid: Pid)    // OnFlowEstablished
    | ScanInsert(t: FiveTuple, pid: Pid)   // InsertFlow
    | Delete(t: FiveTuple)                 // OnFlowDeleted

  function Applied(s: Tables, e: Event): Tables {
    match e
    case Bootstrap(rows) => s.(endpoint := IndexOf(rows))
    case Establish(t, pid) =>
      if IsNoisePid(pid) then s
      else WithFlow(s, t, pid).(endpoint := s.endpoint[EndpointKey(t.srcAddr, t.srcPort) := pid])
    case ScanInsert(t, pid) => WithFlow(s, t, pid)
    case Delete(t) =>
      Tables(s.flow - {t} - {t.Reversed()},
             s.endpoint - {EndpointKey(t.srcAddr, t.srcPort)} - {EndpointKey(0, t.srcPort)})
  }

  class FlowTracker {
    var flowTable: FlowTable
    var endpointToPid: EndpointIndex

    function View(): Tables
      reads this
    {
      Tables(flowTable, endpointToPid)
    }

    constructor ()
      ensures View() == Tables(map[], map[])
    {
      flowTable, endpointToPid := map[], map[];
    }

    static method LookupPidFromSystem(rows: seq<Row>, addr: bv32, port: bv16) returns (result: Pid)
      ensures result == Scan(rows, addr, port)
    {
      result := 0;
      for i := 0 to |rows|
        invariant result == Scan(rows[..i], addr, port)
      {
        assert rows[..i + 1][..i] == rows[..i];
        if Matches(rows[i], addr, port) { result := rows[i].pid; }
      }
      assert rows[..|rows|] == rows;
    }

    method BootstrapFromSystem(rows: seq<Row>)
      modifies this
      ensures View() == Applied(old(View()), Bootstrap(rows))
    {
      var snapshot: EndpointIndex := map[];
      for i := 0 to |rows|
        invariant snapshot == IndexOf(rows[..i]) && View() == old(View())
      {
        assert rows[..i + 1][..i] == rows[..i];
        if !IsNoisePid(rows[i].pid) {
          snapshot := snapshot[EndpointKey(rows[i].addr, rows[i].port) := rows[i].pid];
        }
      }
      assert rows[..|rows|] == rows;
      endpointToPid := snapshot;
    }

    method InsertFlow(t: FiveTuple, pid: Pid)
      modifies this
      ensures View() == Applied(old(View()), ScanInsert(t, pid))
    {
      flowTable := flowTable[t := pid];
      flowTable := flowTable[t.Reversed() := pid];
    }

    method OnFlowEstablished(t: FiveTuple, pid: Pid)
      modifies this
      ensures View() == Applied(old(View()), Establish(t, pid))
    {
      if IsNoisePid(pid) { return; }
      flowTable := flowTable[t := pid];
      flowTable := flowTable[t.Reversed() := pid];
      endpointToPid := endpointToPid[EndpointKey(t.srcAddr, t.srcPort) := pid];
    }

    method OnFlowDeleted(t: FiveTuple)
      modifies this
      ensures View() == Applied(old(View()), Delete(t))
    {
      flowTable := flowTable - {t};
      flowTable := flowTable - {t.Reversed()};
      endpointToPid := endpointToPid - {EndpointKey(t.srcAddr, t.srcPort)};
      endpointToPid := endpointToPid - {EndpointKey(0, t.srcPort)};
    }

    /** The cache, and on a miss the scan, whose nonzero answer is remembered. */
    method LookupPid(t: FiveTuple, isOutbound: bool, rows: seq<Row>) returns (pid: Pid)
      modifies this
      ensures (pid, View()) == Lookup(old(View()), t, isOutbound, rows)
    {
      if t in flowTable { return flowTable[t]; }
      var key := LocalKey(t, isOutbound);
      if key in endpointToPid { return endpointToPid[key]; }
      var wildcard := EndpointKey(0, LocalPort(t, isOutbound));
      if wildcard in endpointToPid { return endpointToPid[wildcard]; }
      pid := LookupPidFromSystem(rows, LocalAddr(t, isOutbound), LocalPort(t, isOutbound));
      if pid != 0 { InsertFlow(t, pid); }
    }
  }

  function Lookup(s: Tables, t: FiveTuple, isOutbound: bool, rows: seq<Row>): (Pid, Tables) {
    match Cached(s, t, isOutbound)
    case Some(pid) => (pid, s)
    case None =>
      var pid := Scan(rows, LocalAddr(t, isOutbound), LocalPort(t, isOutbound));
      (pid, if pid != 0 then Applied(s, ScanInsert(t, pid)) else s)
  }

  // ----- Every interleaving of flow events and lookups -----

  /** Where a lookup is: it holds no lock while it scans, nor between the scan and the insert. */
  datatype LookupPc =
    | NoLookup
    | Scanning(t: FiveTuple, isOutbound: bool)
    | Inserting(t: FiveTuple, pid: Pid)

  datatype State = State(tables: Tables, history: seq<Event>, lookups: seq<LookupPc>, answers: seq<Pid>)

  datatype Action =
    | Occurs(e: Event)                                           // on the tracking thread, or at Start
    | LookupBegin(i: nat, t: FiveTuple, isOutbound: bool)        // the shared-lock section
    | LookupScan(i: nat, rows: seq<Row>)
    | LookupInsert(i: nat)

  function Write(s: State, e: Event): State {
    s.(tables := Applied(s.tables, e), history := s.history + [e])
  }

  ghost predicate Step(s: State, a: Action, s': State) {
    match a
    case Occurs(e) => !e.ScanInsert? && s' == Write(s, e)
    case LookupBegin(i, t, out) =>
      && i < |s.lookups| && s.lookups[i].NoLookup?
      && s' == (match Cached(s.tables, t, out)
                case Some(pid) => s.(answers := s.answers + [pid])
                case None => s.(lookups := s.lookups[i := Scanning(t, out)]))
    case LookupScan(i, rows) =>
      && i < |s.lookups| && s.lookups[i].Scanning?
      && var l := s.lookups[i];
         var pid := Scan(rows, LocalAddr(l.t, l.isOutbound), LocalPort(l.t, l.isOutbound));
         s' == (if pid == 0 then s.(lookups := s.lookups[i := NoLookup], answers := s.answers + [0])
                else s.(lookups := s.lookups[i := Inserting(l.t, pid)]))
    case LookupInsert(i) =>
      && i < |s.lookups| && s.lookups[i].Inserting?
      && s' == Write(s, ScanInsert(s.lookups[i].t, s.lookups[i].pid))
               .(lookups := s.lookups[i := NoLookup], answers := s.answers + [s.lookups[i].pid])
  }

  ghost predicate Init(s: State) {
    && s.tables == Tables(map[], map[]) && s.history == [] && s.answers == []
    && forall i :: 0 <= i < |s.lookups| ==> s.lookups[i].NoLookup?
  }

  ghost predicate IsRun(run: seq<State>, acts: seq<Action>) {
    && |run| == |acts| + 1 && Init(run[0])
    && forall i :: 0 <= i < |acts| ==> Step(run[i], acts[i], run[i + 1])
  }

  function Replay(history: seq<Event>): Tables {
    if history == [] then Tables(map[], map[]) else Applied(Replay(history[..|history| - 1]), history[|history| - 1])
  }

  /** A pid other than that of the idle and the system process. */
  predicate IsProcess(pid: Pid) {
    pid != 0 && pid != 4
  }

  /** The flow table knows every flow in both directions, with one owner. */
  ghost predicate ReverseClosed(flow: FlowTable) {
    forall t :: t in flow ==> t.Reversed() in flow && flow[t.Reversed()] == flow[t]
  }

  ghost predicate RealPids(s: Tables) {
    && (forall t :: t in s.flow ==> IsProcess(s.flow[t]))
    && (forall k :: k in s.endpoint ==> IsProcess(s.endpoint[k]))
  }

  predicate EventOk(e: Event) {
    e.ScanInsert? ==> IsProcess(e.pid)
  }

  ghost predicate Inv(s: State) {
    && ReverseClosed(s.tables.flow) && RealPids(s.tables)
    && s.tables == Replay(s.history)
    && (forall i :: 0 <= i < |s.lookups| && s.lookups[i].Inserting? ==> IsProcess(s.lookups[i].pid))
    && (forall j :: 0 <= j < |s.history| ==> EventOk(s.history[j]))
    && (forall i :: 0 <= i < |s.answers| ==> s.answers[i] == 0 || IsProcess(s.answers[i]))
  }

  lemma {:induction false} ScanRealPid(rows: seq<Row>, addr: bv32, port: bv16)
    ensures Scan(rows, addr, port) == 0 || IsProcess(Scan(rows, addr, port))
  {
    if rows != [] { ScanRealPid(rows[..|rows| - 1], addr, port); }
  }

  lemma {:induction false} IndexRealPids(rows: seq<Row>)
    ensures RealPids(Tables(map[], IndexOf(rows)))
  {
    if rows != [] {
      IndexRealPids(rows[..|rows| - 1]);
      var before, r := IndexOf(rows[..|rows| - 1]), rows[|rows| - 1];
      assert RealPids(Tables(map[], before));
      assert IndexOf(rows) == if IsNoisePid(r.pid) then before else before[EndpointKey(r.addr, r.port) := r.pid];
    }
  }

  lemma FlowKeeps(s: Tables, e: Event)
    requires ReverseClosed(s.flow)
    ensures ReverseClosed(Applied(s, e).flow)
  {
    match e
    case Bootstrap(_) =>
    case Establish(t, pid) => SetKeeps(s.flow, t, pid);
    case ScanInsert(t, pid) => SetKeeps(s.flow, t, pid);
    case Delete(t) => DeleteKeeps(s.flow, t);
  }

  lemma SetKeeps(flow: FlowTable, t: FiveTuple, pid: Pid)
    requires ReverseClosed(flow)
    ensures ReverseClosed(flow[t := pid][t.Reversed() := pid])
  {
    assert t.Reversed().Reversed() == t;
  }

  lemma DeleteKeeps(flow: FlowTable, t: FiveTuple)
    requires ReverseClosed(flow)
    ensures ReverseClosed(flow - {t} - {t.Reversed()})
  {
    assert t.Reversed().Reversed() == t;
  }

  lemma PidsKeep(s: Tables, e: Event)
    requires RealPids(s) && EventOk(e)
    ensures RealPids(Applied(s, e))
  {
    if e.Bootstrap? {
      IndexRealPids(e.rows);
      assert RealPids(Tables(map[], IndexOf(e.rows)));
    }
  }

  lemma WriteKeeps(s: State, e: Event)
    requires Inv(s) && EventOk(e)
    ensures Inv(Write(s, e))
  {
    FlowKeeps(s.tables, e);
    PidsKeep(s.tables, e);
    assert (s.history + [e])[..|s.history|] == s.history;
  }

  lemma BeginKeeps(s: State, i: nat, t: FiveTuple, isOutbound: bool, s': State)
    requires Inv(s) && Step(s, LookupBegin(i, t, isOutbound), s')
    ensures Inv(s')
  {
    CachedReal(s.tables, t, isOutbound);
  }

  lemma CachedReal(s: Tables, t: FiveTuple, isOutbound: bool)
    requires RealPids(s)
    ensures Cached(s, t, isOutbound).Some? ==> IsProcess(Cached(s, t, isOutbound).value)
  {
  }

  lemma ScanKeeps(s: State, i: nat, rows: seq<Row>, s': State)
    requires Inv(s) && Step(s, LookupScan(i, rows), s')
    ensures Inv(s')
  {
    var l := s.lookups[i];
    ScanRealPid(rows, LocalAddr(l.t, l.isOutbound), LocalPort(l.t, l.isOutbound));
  }

  lemma InsertKeeps(s: State, i: nat, s': State)
    requires Inv(s) && Step(s, LookupInsert(i), s')
    ensures Inv(s')
  {
    WriteKeeps(s, ScanInsert(s.lookups[i].t, s.lookups[i].pid));
  }

  lemma InvStep(s: State, a: Action, s': State)
    requires Inv(s) && Step(s, a, s')
    ensures Inv(s')
  {
    match a
    case Occurs(e) => WriteKeeps(s, e);
    case LookupBegin(i, t, out) => BeginKeeps(s, i, t, out, s');
    case LookupScan(i, rows) => ScanKeeps(s, i, rows, s');
    case LookupInsert(i) => InsertKeeps(s, i, s');
  }

  lemma {:induction false} Safety(run: seq<State>, acts: seq<Action>, i: nat)
    requires IsRun(run, acts) && i < |run|
    ensures Inv(run[i])
  {
    if i > 0 {
      Safety(run, acts, i - 1);
      InvStep(run[i - 1], acts[i - 1], run[i]);
    }
  }

  /** In every interleaving, also when a flow is deleted between a lookup's scan and its insert: the
      flow table is closed under reversal, no table holds a noise pid, and every lookup answers 0
      or the pid of a real process. */
  lemma TablesAlwaysConsistent(run: seq<State>, acts: seq<Action>, i: nat)
    requires IsRun(run, acts) && i < |run|
    ensures ReverseClosed(run[i].tables.flow) && RealPids(run[i].tables)
    ensures forall k :: 0 <= k < |run[i].answers| ==> run[i].answers[k] == 0 || IsProcess(run[i].answers[k])
  {
    Safety(run, acts, i);
  }

  // ----- What the tables hold, from the history of writes -----

  /** The writes to t's entry: establishes and inserts of t or its reverse set it, deletes of
      either clear it; the latest decides. */
  function Latest(history: seq<Event>, t: FiveTuple): Option<Pid> {
    if history == [] then None
    else
      var e := history[|history| - 1];
      var before := history[..|history| - 1];
      if (e.ScanInsert? || (e.Establish? && IsProcess(e.pid))) && (e.t == t || e.t.Reversed() == t) then Some(e.pid)
      else if e.Delete? && (e.t == t || e.t.Reversed() == t) then None
      else Latest(before, t)
  }

  /** The same for an endpoint; a bootstrap sets every key from its rows. */
  function LatestEndpoint(history: seq<Event>, k: Key): Option<Pid> {
    if history == [] then None
    else
      var e := history[|history| - 1];
      var before := history[..|history| - 1];
      if e.Bootstrap? then LastRow(e.rows, k)
      else if e.Establish? && IsProcess(e.pid) && EndpointKey(e.t.srcAddr, e.t.srcPort) == k then Some(e.pid)
      else if e.Delete? && (EndpointKey(e.t.srcAddr, e.t.srcPort) == k || EndpointKey(0, e.t.srcPort) == k) then None
      else LatestEndpoint(before, k)
  }

  function LastRow(rows: seq<Row>, k: Key): Option<Pid> {
    if rows == [] then None
    else
      var r := rows[|rows| - 1];
      if IsProcess(r.pid) && EndpointKey(r.addr, r.port) == k then Some(r.pid) else LastRow(rows[..|rows| - 1], k)
  }

  function Find<K, V>(m: map<K, V>, k: K): Option<V> {
    if k in m then Some(m[k]) else None
  }

  lemma {:induction false} IndexHoldsLastRow(rows: seq<Row>, k: Key)
    ensures Find(IndexOf(rows), k) == LastRow(rows, k)
  {
    if rows != [] { IndexHoldsLastRow(rows[..|rows| - 1], k); }
  }

  lemma {:induction false} ReplayHoldsLatest(history: seq<Event>, t: FiveTuple, k: Key)
    ensures Find(Replay(history).flow, t) == Latest(history, t)
    ensures Find(Replay(history).endpoint, k) == LatestEndpoint(history, k)
  {
    if history != [] {
      var e := history[|history| - 1];
      ReplayHoldsLatest(history[..|history| - 1], t, k);
      if e.Bootstrap? { IndexHoldsLastRow(e.rows, k); }
    }
  }

  /** In every interleaving each table entry is the one the latest relevant write left, in the
      order in which the writes took the lock. */
  lemma TablesFollowHistory(run: seq<State>, acts: seq<Action>, i: nat, t: FiveTuple, k: Key)
    requires IsRun(run, acts) && i < |run|
    ensures Find(run[i].tables.flow, t) == Latest(run[i].history, t)
    ensures Find(run[i].tables.endpoint, k) == LatestEndpoint(run[i].history, k)
  {
    Safety(run, acts, i);
    ReplayHoldsLatest(run[i].history, t, k);
  }

  /** Seen from the other end, a flow has the same owner, and looking it up has the same effect. */
  lemma LookupSymmetric(s: Tables, t: FiveTuple, isOutbound: bool, rows: seq<Row>)
    requires ReverseClosed(s.flow)
    ensures Lookup(s, t, isOutbound, rows) == Lookup(s, t.Reversed(), !isOutbound, rows)
  {
    var r := t.Reversed();
    assert r.Reversed() == t;
    assert t in s.flow <==> r in s.flow;
    assert Cached(s, t, isOutbound) == Cached(s, r, !isOutbound);
    var pid := Scan(rows, LocalAddr(t, isOutbound), LocalPort(t, isOutbound));
    assert s.flow[t := pid][r := pid] == s.flow[r := pid][t := pid];
  }

  /** What a lookup answers, source by source: a known flow's owner; else the owner of the exact local
      endpoint; else of the wildcard endpoint; else what the scan finds, which is then remembered for
      the flow in both directions. */
  lemma LookupAnswers(s: Tables, t: FiveTuple, isOutbound: bool, rows: seq<Row>)
    ensures var addr, port := if isOutbound then t.srcAddr else t.dstAddr, if isOutbound then t.srcPort else t.dstPort;
            var exact, wildcard, found := EndpointKey(addr, port), EndpointKey(0, port), Scan(rows, addr, port);
            var r := Lookup(s, t, isOutbound, rows);
            && (t in s.flow ==> r == (s.flow[t], s))
            && (t !in s.flow && exact in s.endpoint ==> r == (s.endpoint[exact], s))
            && (t !in s.flow && exact !in s.endpoint && wildcard in s.endpoint ==> r == (s.endpoint[wildcard], s))
            && (t !in s.flow && exact !in s.endpoint && wildcard !in s.endpoint ==>
                  && r.0 == found && r.1.endpoint == s.endpoint
                  && (found == 0 ==> r.1 == s)
                  && (found != 0 ==> forall u :: Find(r.1.flow, u) == if u == t || u == t.Reversed() then Some(found) else Find(s.flow, u)))
  {
  }

  /** The source of a cached answer, from the history of writes alone. */
  function Remembered(history: seq<Event>, t: FiveTuple, addr: bv32, port: bv16): Option<Pid> {
    if Latest(history, t).Some? then Latest(history, t)
    else if LatestEndpoint(history, EndpointKey(addr, port)).Some? then LatestEndpoint(history, EndpointKey(addr, port))
    else LatestEndpoint(history, EndpointKey(0, port))
  }

  /** In every interleaving, a lookup that begins answers at once with what the latest relevant write
      left for the flow, else for its exact local endpoint, else for the wildcard one; and it goes on
      to scan exactly when there is none of these. */
  lemma CachedAnswersFollowHistory(run: seq<State>, acts: seq<Action>, i: nat)
    requires IsRun(run, acts) && i < |acts| && acts[i].LookupBegin?
    ensures var s, s', a := run[i], run[i + 1], acts[i];
            var addr, port := if a.isOutbound then a.t.srcAddr else a.t.dstAddr, if a.isOutbound then a.t.srcPort else a.t.dstPort;
            var r := Remembered(s.history, a.t, addr, port);
            && a.i < |s.lookups|
            && s' == match r
                     case Some(pid) => s.(answers := s.answers + [pid])
                     case None => s.(lookups := s.lookups[a.i := Scanning(a.t, a.isOutbound)])
  {
    var s, a := run[i], acts[i];
    var addr, port := if a.isOutbound then a.t.srcAddr else a.t.dstAddr, if a.isOutbound then a.t.srcPort else a.t.dstPort;
    assert Step(run[i], acts[i], run[i + 1]);
    TablesFollowHistory(run, acts, i, a.t, EndpointKey(addr, port));
    TablesFollowHistory(run, acts, i, a.t, EndpointKey(0, port));
  }

  /** One lookup with nothing in between: its steps answer and write what Lookup says. */
  lemma LookupAlone(s: State, i: nat, t: FiveTuple, isOutbound: bool, rows: seq<Row>) returns (run: seq<State>, acts: seq<Action>)
    requires i < |s.lookups| && s.lookups[i].NoLookup?
    ensures |run| == |acts| + 1 && run[0] == s && acts != [] && acts[0] == LookupBegin(i, t, isOutbound)
    ensures forall k :: 0 <= k < |acts| ==> Step(run[k], acts[k], run[k + 1])
    ensures var last, r := run[|acts|], Lookup(s.tables, t, isOutbound, rows);
            last.tables == r.1 && last.answers == s.answers + [r.0] && last.lookups == s.lookups
  {
    acts := [LookupBegin(i, t, isOutbound)];
    match Cached(s.tables, t, isOutbound)
    case Some(pid) => run := [s, s.(answers := s.answers + [pid])];
    case None =>
      var pid := Scan(rows, LocalAddr(t, isOutbound), LocalPort(t, isOutbound));
      var scanning := s.(lookups := s.lookups[i := Scanning(t, isOutbound)]);
      if pid == 0 {
        acts := acts + [LookupScan(i, rows)];
        run := [s, scanning, scanning.(lookups := scanning.lookups[i := NoLookup], answers := s.answers + [0])];
      } else {
        var inserting := scanning.(lookups := scanning.lookups[i := Inserting(t, pid)]);
        acts := acts + [LookupScan(i, rows), LookupInsert(i)];
        run := [s, scanning, inserting,
                Write(inserting, ScanInsert(t, pid)).(lookups := inserting.lookups[i := NoLookup], answers := s.answers + [pid])];
      }
  }

  /** Right after a flow is deleted, looking it up as outbound reaches the system scan. */
  lemma DeletedFlowIsRescanned(s: Tables, t: FiveTuple, rows: seq<Row>)
    ensures Cached(Applied(s, Delete(t)), t, true) == None
    ensures Lookup(Applied(s, Delete(t)), t, true, rows).0 == Scan(rows, t.srcAddr, t.srcPort)
  {
  }

  // ----- The index against the scan it replaces -----

  /** The scan finds an owner exactly when some row is at this address or at the wildcard one, and
      then it is the owner in the last row of one of these kinds. */
  lemma {:induction false} ScanFindsEither(rows: seq<Row>, addr: bv32, port: bv16)
    ensures Scan(rows, addr, port) != 0 <==>
            LastRow(rows, EndpointKey(addr, port)).Some? || LastRow(rows, EndpointKey(0, port)).Some?
    ensures Scan(rows, addr, port) != 0 ==>
              || LastRow(rows, EndpointKey(addr, port)) == Some(Scan(rows, addr, port))
              || LastRow(rows, EndpointKey(0, port)) == Some(Scan(rows, addr, port))
  {
    if rows != [] {
      var r := rows[|rows| - 1];
      ScanFindsEither(rows[..|rows| - 1], addr, port);
      EndpointKeyInjective(r.addr, r.port, addr, port);
      EndpointKeyInjective(r.addr, r.port, 0, port);
    }
  }

  /** After a bootstrap, with no flow known, a lookup hits the index exactly when the scan of the
      same rows would find an owner. */
  lemma IndexHitsIffScanFinds(rows: seq<Row>, t: FiveTuple, isOutbound: bool)
    ensures Cached(Tables(map[], IndexOf(rows)), t, isOutbound).Some? <==>
            Scan(rows, LocalAddr(t, isOutbound), LocalPort(t, isOutbound)) != 0
  {
    IndexHoldsLastRow(rows, LocalKey(t, isOutbound));
    IndexHoldsLastRow(rows, EndpointKey(0, LocalPort(t, isOutbound)));
    ScanFindsEither(rows, LocalAddr(t, isOutbound), LocalPort(t, isOutbound));
  }

  predicate Exact(r: Row, addr: bv32, port: bv16) {
    r.port == port && r.addr == addr && IsProcess(r.pid)
  }

  /** Row j is the last one at exactly this address, and a later wildcard row i, the last row the
      scan accepts, belongs to another process. */
  predicate Shadows(rows: seq<Row>, addr: bv32, port: bv16, j: nat, i: nat) {
    && j < i < |rows|
    && Exact(rows[j], addr, port) && (forall k :: j < k < |rows| ==> !Exact(rows[k], addr, port))
    && Exact(rows[i], 0, port) && (forall k :: i < k < |rows| ==> !Matches(rows[k], addr, port))
    && rows[i].pid != rows[j].pid
  }

  lemma {:induction false} LastExact(rows: seq<Row>, addr: bv32, port: bv16) returns (j: nat)
    ensures LastRow(rows, EndpointKey(addr, port)).Some? ==>
              && j < |rows| && Exact(rows[j], addr, port) && LastRow(rows, EndpointKey(addr, port)) == Some(rows[j].pid)
    ensures LastRow(rows, EndpointKey(addr, port)).Some? ==> forall k :: j < k < |rows| ==> !Exact(rows[k], addr, port)
    ensures LastRow(rows, EndpointKey(addr, port)).None? ==> forall k :: 0 <= k < |rows| ==> !Exact(rows[k], addr, port)
  {
    if rows == [] { return 0; }
    var n := |rows| - 1;
    EndpointKeyInjective(rows[n].addr, rows[n].port, addr, port);
    if Exact(rows[n], addr, port) { return n; }
    j := LastExact(rows[..n], addr, port);
  }

  lemma {:induction false} LastMatch(rows: seq<Row>, addr: bv32, port: bv16) returns (i: nat)
    requires Scan(rows, addr, port) != 0
    ensures i < |rows| && Matches(rows[i], addr, port) && rows[i].pid == Scan(rows, addr, port)
    ensures forall k :: i < k < |rows| ==> !Matches(rows[k], addr, port)
  {
    var n := |rows| - 1;
    if Matches(rows[n], addr, port) { return n; }
    i := LastMatch(rows[..n], addr, port);
  }

  /** When they hit, index and scan name the same process, unless the table lists, after the last
      exact row, a wildcard row of another process: the index prefers exact rows, the scan later
      ones. */
  lemma IndexAgreesIffNotShadowed(rows: seq<Row>, t: FiveTuple, isOutbound: bool)
    requires Scan(rows, LocalAddr(t, isOutbound), LocalPort(t, isOutbound)) != 0
    ensures var addr, port := LocalAddr(t, isOutbound), LocalPort(t, isOutbound);
            (Cached(Tables(map[], IndexOf(rows)), t, isOutbound) == Some(Scan(rows, addr, port)))
            <==> (!exists j: nat, i: nat :: Shadows(rows, addr, port, j, i))
  {
    var addr, port := LocalAddr(t, isOutbound), LocalPort(t, isOutbound);
    var cached := Cached(Tables(map[], IndexOf(rows)), t, isOutbound);
    IndexHoldsLastRow(rows, LocalKey(t, isOutbound));
    IndexHoldsLastRow(rows, EndpointKey(0, port));
    ScanFindsEither(rows, addr, port);
    var last := LastMatch(rows, addr, port);
    var lastExact := LastExact(rows, addr, port);
    if cached != Some(Scan(rows, addr, port)) {
      assert LastRow(rows, EndpointKey(addr, port)).Some?;
      assert Matches(rows[lastExact], addr, port);
      assert !Exact(rows[last], addr, port);
      assert Shadows(rows, addr, port, lastExact, last);
    }
    forall j: nat, i: nat | Shadows(rows, addr, port, j, i) ensures cached != Some(Scan(rows, addr, port)) {
      assert Matches(rows[i], addr, port);
      assert i == last && j == lastExact;
    }
  }

  /** A table on which they disagree: the exact row's process first, a wildcard row's later. */
  lemma IndexDisagreesExample(addr: bv32, port: bv16, dst: bv32, dstPort: bv16)
    requires addr != 0
    ensures var rows, t := [Row(addr, port, 10), Row(0, port, 20)], FiveTuple(addr, dst, port, dstPort, 17);
            Cached(Tables(map[], IndexOf(rows)), t, true) == Some(10) && Scan(rows, addr, port) == 20
  {
    EndpointKeyInjective(addr, port, 0, port);
  }
}

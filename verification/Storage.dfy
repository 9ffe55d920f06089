/**
 pkg/storage: one abstract store, and the in-memory and SQLite adapters proved against it.
 Database errors are outside the model, and labels are assumed to survive the JSON column (RFC 8259).
 */
module Storage {
  import opened Basics
  import opened Types

  // ---------------------------------------------------------------- the interface

  datatype Store = Store(nodes: map<string, Labels>, reports: seq<Report>)

  const EMPTY_STORE := Store(map[], [])

  /** The operations of NodeStore and ReportStore, and closing and reopening the backing file. */
  datatype Op =
    | Register(nodeID: string, labels: Labels)
    | GetLabels(nodeID: string)
    | IsRegistered(nodeID: string)
    | Save(report: Report)
    | List
    | Reopen

  datatype Output =
    | Done
    | GotLabels(labels: Option<Labels>)
    | Registered(yes: bool)
    | Listed(reports: seq<Report>)

  function StoreAfter(s: Store, op: Op): Store {
    match op
    case Register(n, labels) => s.(nodes := s.nodes[n := labels])
    case Save(r) => s.(reports := s.reports + [r])
    case _ => s
  }

  function Observe(s: Store, op: Op): Output {
    match op
    case GetLabels(n) => GotLabels(if n in s.nodes then Some(s.nodes[n]) else None)
    case IsRegistered(n) => Registered(n in s.nodes)
    case List => Listed(s.reports)
    case _ => Done
  }

  function StateOf(ops: seq<Op>): Store {
    if ops == [] then EMPTY_STORE else StoreAfter(StateOf(ops[..|ops| - 1]), ops[|ops| - 1])
  }

  function Outputs(ops: seq<Op>): seq<Output> {
    if ops == [] then []
    else
      var front := ops[..|ops| - 1];
      Outputs(front) + [Observe(StateOf(front), ops[|ops| - 1])]
  }

  /** Position `i` is the last registration of `n`. */
  ghost predicate LastRegistration(ops: seq<Op>, n: string, i: nat) {
    && i < |ops|
    && ops[i].Register? && ops[i].nodeID == n
    && forall j :: i < j < |ops| ==> !(ops[j].Register? && ops[j].nodeID == n)
  }

  /** A node is registered once some operation registered it, with the labels of the last such operation. */
  lemma {:induction false} LabelsAreLastRegistered(ops: seq<Op>, n: string)
    ensures n in StateOf(ops).nodes <==> exists i: nat :: LastRegistration(ops, n, i)
    ensures forall i: nat :: LastRegistration(ops, n, i) ==>
      n in StateOf(ops).nodes && StateOf(ops).nodes[n] == ops[i].labels
  {
    if ops != [] {
      var k := |ops| - 1;
      var front := ops[..k];
      LabelsAreLastRegistered(front, n);
      if ops[k].Register? && ops[k].nodeID == n {
        assert LastRegistration(ops, n, k);
      } else {
        forall i: nat | i < k
          ensures LastRegistration(ops, n, i) <==> LastRegistration(front, n, i)
        {
          assert forall j :: 0 <= j < k ==> front[j] == ops[j];
        }
      }
    }
  }

  /** The reports that the operations save, in order. */
  function Saved(ops: seq<Op>): seq<Report> {
    if ops == [] then []
    else (if ops[0].Save? then [ops[0].report] else []) + Saved(ops[1..])
  }

  lemma {:induction false} SavedSnoc(ops: seq<Op>, op: Op)
    ensures Saved(ops + [op]) == Saved(ops) + (if op.Save? then [op.report] else [])
  {
    if ops == [] {
      assert (ops + [op])[1..] == [];
    } else {
      SavedSnoc(ops[1..], op);
      assert (ops + [op])[1..] == ops[1..] + [op];
    }
  }

  /** The store lists every saved report once, oldest first. */
  lemma {:induction false} ReportsAreSavedInOrder(ops: seq<Op>)
    ensures StateOf(ops).reports == Saved(ops)
  {
    if ops != [] {
      var front, last := ops[..|ops| - 1], ops[|ops| - 1];
      ReportsAreSavedInOrder(front);
      SavedSnoc(front, last);
      assert ops == front + [last];
    }
  }

  // ---------------------------------------------------------------- the memory adapter

  class MemoryNodeStore {
    var nodes: map<string, Labels>

    constructor ()
      ensures nodes == map[]
    {
      nodes := map[];
    }

    method Register(nodeID: string, labels: Labels)
      modifies this
      ensures nodes == old(nodes)[nodeID := labels]
    {
      nodes := nodes[nodeID := labels];
    }

    method GetLabels(nodeID: string) returns (labels: Labels, ok: bool)
      ensures ok <==> nodeID in nodes
      ensures labels == if nodeID in nodes then nodes[nodeID] else map[]
    {
      ok := nodeID in nodes;
      labels := if ok then nodes[nodeID] else map[];
    }

    method IsRegistered(nodeID: string) returns (ok: bool)
      ensures ok <==> nodeID in nodes
    {
      ok := nodeID in nodes;
    }
  }

  class MemoryReportStore {
    var reports: seq<Report>

    constructor ()
      ensures reports == []
    {
      reports := [];
    }

    method Save(report: Report)
      modifies this
      ensures reports == old(reports) + [report]
    {
      reports := reports + [report];
    }

    /** Copies into a slice of its own, so the caller may overwrite what it gets. */
    method List() returns (result: array<Report>)
      ensures fresh(result) && result[..] == reports
    {
      var contents := reports;
      result := new Report[|contents|](i requires 0 <= i < |contents| => contents[i]);
    }
  }

  // ---------------------------------------------------------------- the SQLite adapter

  datatype NodeRow = NodeRow(labels: Labels, registered: int, lastSeen: int)

  datatype ReportRow = ReportRow(nodeID: string, jobID: string, status: Status, taskLogs: string, reportedAt: int)

  /** A table with an AUTOINCREMENT key: rows by id, and the highest id ever handed out. */
  datatype ReportTable = ReportTable(rows: map<nat, ReportRow>, sequence: nat) {
    ghost predicate Valid() {
      forall id :: id in rows ==> 1 <= id <= sequence
    }
  }

  function FromRow(row: ReportRow): Report {
    Report(row.nodeID, row.jobID, row.status, row.taskLogs)
  }

  /** The rows with ids 1 to `hi`, by ascending id. */
  function RowsUpTo(rows: map<nat, ReportRow>, hi: nat): seq<Report> {
    if hi == 0 then []
    else RowsUpTo(rows, hi - 1) + (if hi in rows then [FromRow(rows[hi])] else [])
  }

  /** A row whose id is above the range does not show in it. */
  lemma {:induction false} RowsUpToFrame(rows: map<nat, ReportRow>, id: nat, row: ReportRow, hi: nat)
    requires hi < id
    ensures RowsUpTo(rows[id := row], hi) == RowsUpTo(rows, hi)
  {
    if hi != 0 {
      RowsUpToFrame(rows, id, row, hi - 1);
    }
  }

  /** The database file: it outlives the store object opened on it. */
  class Database {
    var nodes: Option<map<string, NodeRow>>
    var reports: Option<ReportTable>

    constructor ()
      ensures nodes.None? && reports.None?
    {
      nodes := None;
      reports := None;
    }
  }

  class SQLiteStore {
    const db: Database

    ghost predicate Valid()
      reads this, db
    {
      db.nodes.Some? && db.reports.Some? && db.reports.value.Valid()
    }

    /** What the tables say, as a value of the abstract store: reports by ascending id. */
    ghost function Contents(): Store
      reads this, db
      requires Valid()
    {
      Store(map n | n in db.nodes.value :: db.nodes.value[n].labels,
            RowsUpTo(db.reports.value.rows, db.reports.value.sequence))
    }

    /** CREATE TABLE IF NOT EXISTS: existing tables and the id sequence are kept. */
    constructor (db: Database)
      requires db.reports.Some? ==> db.reports.value.Valid()
      modifies db
      ensures this.db == db && Valid()
      ensures db.nodes == if old(db.nodes).Some? then old(db.nodes) else Some(map[])
      ensures db.reports == if old(db.reports).Some? then old(db.reports) else Some(ReportTable(map[], 0))
    {
      this.db := db;
      new;
      if db.nodes.None? {
        db.nodes := Some(map[]);
      }
      if db.reports.None? {
        db.reports := Some(ReportTable(map[], 0));
      }
    }

    /** INSERT ... ON CONFLICT(node_id) DO UPDATE: the first registration time survives. */
    method Register(nodeID: string, labels: Labels, now: int)
      requires Valid()
      modifies db
      ensures Valid()
      ensures Contents() == StoreAfter(old(Contents()), Op.Register(nodeID, labels))
      ensures db.reports == old(db.reports)
      ensures nodeID in db.nodes.value && db.nodes.value[nodeID] ==
        NodeRow(labels, if nodeID in old(db.nodes.value) then old(db.nodes.value)[nodeID].registered else now, now)
    {
      var table := db.nodes.value;
      if nodeID in table {
        db.nodes := Some(table[nodeID := table[nodeID].(labels := labels, lastSeen := now)]);
      } else {
        db.nodes := Some(table[nodeID := NodeRow(labels, now, now)]);
      }
    }

    method GetLabels(nodeID: string) returns (labels: Labels, ok: bool)
      requires Valid()
      ensures ok <==> nodeID in Contents().nodes
      ensures labels == if ok then Contents().nodes[nodeID] else map[]
    {
      if nodeID !in db.nodes.value {
        return map[], false;
      }
      return db.nodes.value[nodeID].labels, true;
    }

    method IsRegistered(nodeID: string) returns (ok: bool)
      requires Valid()
      ensures ok <==> nodeID in Contents().nodes
    {
      ok := nodeID in db.nodes.value;
    }

    /** The new row takes the next id of the sequence, so it comes last in id order. */
    method Save(report: Report, now: int)
      requires Valid()
      modifies db
      ensures Valid()
      ensures Contents() == StoreAfter(old(Contents()), Op.Save(CanonReport(report)))
      ensures Contents().nodes == old(Contents().nodes)
      ensures Contents().reports == old(Contents().reports)
        + [Report(report.nodeID, report.jobID, report.status, if report.taskLogs == "" then "{}" else report.taskLogs)]
      ensures db.nodes == old(db.nodes)
    {
      var taskLogs := report.taskLogs;
      if taskLogs == "" {
        taskLogs := "{}";
      }
      var table := db.reports.value;
      var id := table.sequence + 1;
      var row := ReportRow(report.nodeID, report.jobID, report.status, taskLogs, now);
      RowsUpToFrame(table.rows, id, row, table.sequence);
      db.reports := Some(ReportTable(table.rows[id := row], id));
    }

    /** SELECT ... ORDER BY id ASC. */
    method List() returns (reports: seq<Report>)
      requires Valid()
      ensures reports == Contents().reports
    {
      reports := [];
      var table := db.reports.value;
      for id := 1 to table.sequence + 1
        invariant reports == RowsUpTo(table.rows, id - 1)
      {
        if id in table.rows {
          reports := reports + [FromRow(table.rows[id])];
        }
      }
    }
  }

  // ---------------------------------------------------------------- the two interfaces

  /** The interface NodeStore and its implementations. `now` is a time stamp that only SQLite keeps. */
  datatype NodeStore = NodesInMemory(memory: MemoryNodeStore) | NodesInSQLite(sqlite: SQLiteStore) {

    ghost function Footprint(): set<object> {
      match this
      case NodesInMemory(m) => {m}
      case NodesInSQLite(s) => {s, s.db}
    }

    ghost predicate Valid()
      reads Footprint()
    {
      NodesInSQLite? ==> sqlite.Valid()
    }

    ghost function Nodes(): map<string, Labels>
      reads Footprint()
      requires Valid()
    {
      match this
      case NodesInMemory(m) => m.nodes
      case NodesInSQLite(s) => s.Contents().nodes
    }

    /** A report store kept beside this one, even in the same database, keeps its reports. */
    method Register(nodeID: string, labels: Labels, now: int, ghost beside: ReportStore)
      requires Valid() && beside.Valid()
      modifies Footprint()
      ensures Valid() && Nodes() == old(Nodes())[nodeID := labels]
      ensures beside.Valid() && beside.Reports() == old(beside.Reports())
    {
      match this {
        case NodesInMemory(m) => m.Register(nodeID, labels);
        case NodesInSQLite(s) => s.Register(nodeID, labels, now);
      }
    }

    method GetLabels(nodeID: string) returns (labels: Labels, ok: bool)
      requires Valid()
      ensures ok <==> nodeID in Nodes()
      ensures labels == if nodeID in Nodes() then Nodes()[nodeID] else map[]
    {
      match this {
        case NodesInMemory(m) => labels, ok := m.GetLabels(nodeID);
        case NodesInSQLite(s) => labels, ok := s.GetLabels(nodeID);
      }
    }

    method IsRegistered(nodeID: string) returns (ok: bool)
      requires Valid()
      ensures ok <==> nodeID in Nodes()
    {
      match this {
        case NodesInMemory(m) => ok := m.IsRegistered(nodeID);
        case NodesInSQLite(s) => ok := s.IsRegistered(nodeID);
      }
    }
  }

  /** The interface ReportStore and its implementations. */
  datatype ReportStore = ReportsInMemory(memory: MemoryReportStore) | ReportsInSQLite(sqlite: SQLiteStore) {

    ghost function Footprint(): set<object> {
      match this
      case ReportsInMemory(m) => {m}
      case ReportsInSQLite(s) => {s, s.db}
    }

    ghost predicate Valid()
      reads Footprint()
    {
      ReportsInSQLite? ==> sqlite.Valid()
    }

    ghost function Reports(): seq<Report>
      reads Footprint()
      requires Valid()
    {
      match this
      case ReportsInMemory(m) => m.reports
      case ReportsInSQLite(s) => s.Contents().reports
    }

    /** Only SQLite completes empty task logs, and nothing else of a report changes. A node store kept beside this one, even in the same database, keeps its nodes. */
    method Save(report: Report, now: int, ghost beside: NodeStore)
      requires Valid() && beside.Valid()
      modifies Footprint()
      ensures Valid() && Reports() == old(Reports())
        + [Report(report.nodeID, report.jobID, report.status,
                  if ReportsInSQLite? && report.taskLogs == "" then "{}" else report.taskLogs)]
      ensures beside.Valid() && beside.Nodes() == old(beside.Nodes())
    {
      match this {
        case ReportsInMemory(m) => m.Save(report);
        case ReportsInSQLite(s) => s.Save(report, now);
      }
    }
  }

  // ---------------------------------------------------------------- the simulation

  /** Empty task logs are stored by SQLite as an empty JSON object. */
  function CanonReport(r: Report): Report {
    if r.taskLogs == "" then r.(taskLogs := "{}") else r
  }

  function CanonReports(reports: seq<Report>): seq<Report> {
    if reports == [] then []
    else CanonReports(reports[..|reports| - 1]) + [CanonReport(reports[|reports| - 1])]
  }

  function CanonStore(s: Store): Store {
    s.(reports := CanonReports(s.reports))
  }

  function CanonOutput(o: Output): Output {
    if o.Listed? then Listed(CanonReports(o.reports)) else o
  }

  function CanonOutputs(outs: seq<Output>): seq<Output> {
    seq(|outs|, i requires 0 <= i < |outs| => CanonOutput(outs[i]))
  }

  function CanonOp(op: Op): Op {
    if op.Save? then Op.Save(CanonReport(op.report)) else op
  }

  /** Canonical saves keep the store canonical. */
  lemma CanonStep(s: Store, op: Op)
    ensures CanonStore(StoreAfter(s, op)) == StoreAfter(CanonStore(s), CanonOp(op))
    ensures Observe(CanonStore(s), op) == CanonOutput(Observe(s, op))
  {
    if op.Save? {
      assert (s.reports + [op.report])[..|s.reports|] == s.reports;
    }
  }

  lemma OutputsExtend(ops: seq<Op>, i: nat)
    requires i < |ops|
    ensures StateOf(ops[..i + 1]) == StoreAfter(StateOf(ops[..i]), ops[i])
    ensures Outputs(ops[..i + 1]) == Outputs(ops[..i]) + [Observe(StateOf(ops[..i]), ops[i])]
  {
    assert ops[..i + 1][..i] == ops[..i];
  }

  /** The memory adapter answers every sequence of operations as the abstract store does. */
  method RunMemory(ops: seq<Op>) returns (outs: seq<Output>)
    ensures outs == Outputs(ops)
  {
    var nodes := new MemoryNodeStore();
    var reports := new MemoryReportStore();
    outs := [];
    for i := 0 to |ops|
      invariant fresh(nodes) && fresh(reports)
      invariant Store(nodes.nodes, reports.reports) == StateOf(ops[..i])
      invariant outs == Outputs(ops[..i])
    {
      OutputsExtend(ops, i);
      match ops[i] {
        case Register(n, labels) =>
          nodes.Register(n, labels);
          outs := outs + [Done];
        case GetLabels(n) =>
          var labels, ok := nodes.GetLabels(n);
          outs := outs + [GotLabels(if ok then Some(labels) else None)];
        case IsRegistered(n) =>
          var ok := nodes.IsRegistered(n);
          outs := outs + [Registered(ok)];
        case Save(r) =>
          reports.Save(r);
          outs := outs + [Done];
        case List =>
          var list := reports.List();
          outs := outs + [Listed(list[..])];
        case Reopen =>
          outs := outs + [Done];
      }
    }
    assert ops[..|ops|] == ops;
  }

  /** One operation on an open SQLite store; reopening is done by the caller, who owns the file. */
  method PerformSQLite(store: SQLiteStore, op: Op, now: int) returns (out: Output)
    requires store.Valid() && op != Reopen
    modifies store.db
    ensures store.Valid()
    ensures store.Contents() == StoreAfter(old(store.Contents()), CanonOp(op))
    ensures out == Observe(old(store.Contents()), op)
  {
    match op {
      case Register(n, labels) =>
        store.Register(n, labels, now);
        out := Done;
      case GetLabels(n) =>
        var labels, ok := store.GetLabels(n);
        out := GotLabels(if ok then Some(labels) else None);
      case IsRegistered(n) =>
        var ok := store.IsRegistered(n);
        out := Registered(ok);
      case Save(r) =>
        store.Save(r, now);
        out := Done;
      case List =>
        var list := store.List();
        out := Listed(list);
    }
  }

  lemma CanonOutputsExtend(outs: seq<Output>, out: Output)
    ensures CanonOutputs(outs + [out]) == CanonOutputs(outs) + [CanonOutput(out)]
  {
  }

  /** The same answer, but for empty task logs in the second that the first shows as `{}`. */
  predicate SameButEmptyLogs(a: Output, b: Output) {
    if b.Listed? then
      && a.Listed? && |a.reports| == |b.reports|
      && forall i :: 0 <= i < |a.reports| ==>
        && a.reports[i].nodeID == b.reports[i].nodeID && a.reports[i].jobID == b.reports[i].jobID
        && a.reports[i].status == b.reports[i].status
        && a.reports[i].taskLogs == (if b.reports[i].taskLogs == "" then "{}" else b.reports[i].taskLogs)
    else a == b
  }

  /** No List comes after a Save with empty logs. */
  ghost predicate ListsNoEmptyLogs(ops: seq<Op>) {
    forall i, j :: 0 <= i < j < |ops| && ops[i].Save? && ops[i].report.taskLogs == "" ==> !ops[j].List?
  }

  lemma {:induction false} CanonReportsAt(reports: seq<Report>)
    ensures |CanonReports(reports)| == |reports|
    ensures forall i :: 0 <= i < |reports| ==> CanonReports(reports)[i] == CanonReport(reports[i])
  {
    if reports != [] {
      CanonReportsAt(reports[..|reports| - 1]);
    }
  }

  lemma CanonOutputFields(out: Output)
    ensures SameButEmptyLogs(CanonOutput(out), out)
    ensures CanonOutput(out) == out <==> out.Listed? ==> forall r :: r in out.reports ==> r.taskLogs != ""
  {
    if out.Listed? {
      CanonReportsAt(out.reports);
      if r :| r in out.reports && r.taskLogs == "" {
        var i :| 0 <= i < |out.reports| && out.reports[i] == r;
        assert CanonReports(out.reports)[i] != out.reports[i];
      } else {
        assert forall i :: 0 <= i < |out.reports| ==> out.reports[i] in out.reports;
      }
    }
  }

  lemma {:induction false} OutputsAt(ops: seq<Op>, j: nat)
    requires j < |ops|
    ensures |Outputs(ops)| == |ops| && Outputs(ops)[j] == Observe(StateOf(ops[..j]), ops[j])
  {
    var n := |ops| - 1;
    if n > 0 {
      OutputsAt(ops[..n], if j < n then j else 0);
    }
    if j < n {
      assert ops[..n][..j] == ops[..j];
    }
  }

  lemma {:induction false} SavedIff(ops: seq<Op>, r: Report)
    ensures r in Saved(ops) <==> exists i :: 0 <= i < |ops| && ops[i] == Op.Save(r)
  {
    if ops != [] {
      SavedIff(ops[1..], r);
      if ops[0] == Op.Save(r) {
      } else if i :| 0 <= i < |ops| && ops[i] == Op.Save(r) {
        assert ops[1..][i - 1] == Op.Save(r);
      }
    }
  }

  /** Whether one answer shows the difference. */
  lemma OutputUnchangedIff(ops: seq<Op>, j: nat)
    requires j < |ops|
    ensures |Outputs(ops)| == |ops|
    ensures CanonOutput(Outputs(ops)[j]) == Outputs(ops)[j] <==>
      (ops[j].List? ==> forall i :: 0 <= i < j && ops[i].Save? ==> ops[i].report.taskLogs != "")
  {
    OutputsAt(ops, j);
    CanonOutputFields(Outputs(ops)[j]);
    ReportsAreSavedInOrder(ops[..j]);
    if ops[j].List? {
      var reports := Saved(ops[..j]);
      forall i | 0 <= i < j && ops[i].Save?
        ensures ops[i].report in reports
      {
        SavedIff(ops[..j], ops[i].report);
        assert ops[..j][i] == Op.Save(ops[i].report);
      }
      forall r | r in reports
        ensures exists i :: 0 <= i < j && ops[i] == Op.Save(r)
      {
        SavedIff(ops[..j], r);
        var i :| 0 <= i < j && ops[..j][i] == Op.Save(r);
        assert ops[i] == Op.Save(r);
      }
    }
  }

  /** The difference between the adapters: which answers differ, and when none does. */
  lemma CanonOutputsDiffer(ops: seq<Op>)
    ensures |CanonOutputs(Outputs(ops))| == |Outputs(ops)| == |ops|
    ensures forall j :: 0 <= j < |ops| ==> SameButEmptyLogs(CanonOutputs(Outputs(ops))[j], Outputs(ops)[j])
    ensures CanonOutputs(Outputs(ops)) == Outputs(ops) <==> ListsNoEmptyLogs(ops)
  {
    if ops != [] {
      OutputsAt(ops, 0);
    }
    forall j | 0 <= j < |ops|
      ensures SameButEmptyLogs(CanonOutputs(Outputs(ops))[j], Outputs(ops)[j])
      ensures CanonOutputs(Outputs(ops))[j] == Outputs(ops)[j] <==>
        (ops[j].List? ==> forall i :: 0 <= i < j && ops[i].Save? ==> ops[i].report.taskLogs != "")
    {
      CanonOutputFields(Outputs(ops)[j]);
      OutputUnchangedIff(ops, j);
    }
  }

  /**
   The SQLite adapter gives the same answers as the abstract store, across any reopening, but for empty task logs,
   which it lists as `{}`; so it gives exactly the same answers when none are listed.
   */
  method RunSQLite(ops: seq<Op>, clock: nat -> int) returns (outs: seq<Output>)
    ensures |outs| == |Outputs(ops)| && forall j :: 0 <= j < |outs| ==> SameButEmptyLogs(outs[j], Outputs(ops)[j])
    ensures outs == Outputs(ops) <==> ListsNoEmptyLogs(ops)
  {
    var db := new Database();
    var store := new SQLiteStore(db);
    outs := [];
    for i := 0 to |ops|
      invariant fresh(db) && store.db == db && store.Valid()
      invariant store.Contents() == CanonStore(StateOf(ops[..i]))
      invariant outs == CanonOutputs(Outputs(ops[..i]))
    {
      OutputsExtend(ops, i);
      CanonStep(StateOf(ops[..i]), ops[i]);
      CanonOutputsExtend(Outputs(ops[..i]), Observe(StateOf(ops[..i]), ops[i]));
      var out := Done;
      if ops[i] == Reopen {
        store := new SQLiteStore(db);
      } else {
        out := PerformSQLite(store, ops[i], clock(i));
      }
      outs := outs + [out];
    }
    assert ops[..|ops|] == ops;
    CanonOutputsDiffer(ops);
  }
}

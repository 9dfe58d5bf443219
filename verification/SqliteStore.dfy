/** The SQLite result store (src/kitt/storage/sqlite_store.py). */
module SqliteStore {
  import opened Basics
  import opened ResultModel
  import opened SqliteTables

  // ----- flattening of records into the two detail tables -----

  /** A stored record: its run id and the id of its first benchmark row. */
  datatype Entry = Entry(runId: string, doc: Doc, first: nat) {
    function Next(): nat { first + |doc.results| }
  }

  function RunsOf(es: seq<Entry>): seq<RunRow> {
    seq(|es|, i requires 0 <= i < |es| => RowFor(es[i].runId, es[i].doc))
  }

  function DocsOf(es: seq<Entry>): seq<Doc> {
    seq(|es|, i requires 0 <= i < |es| => es[i].doc)
  }

  /** Rows of the first n benchmarks of an entry. */
  function EntryBenches(e: Entry, n: nat): seq<BenchRow>
    requires n <= |e.doc.results|
  {
    seq(n, i requires 0 <= i < n => 
      BenchRow(e.first + i, e.runId, e.doc.results[i].testName, AsInt(e.doc.results[i].passed)))
  }

  /** Rows of the numeric ones among the first k metrics of a benchmark. */
  function BenchMetrics(benchId: nat, ms: seq<(string, MetricValue)>, k: nat): seq<MetricRow>
    requires k <= |ms|
  {
    if k == 0 then []
    else BenchMetrics(benchId, ms, k - 1)
         + (if ms[k - 1].1.Number? then [MetricRow(benchId, ms[k - 1].0, ms[k - 1].1.value)] else [])
  }

  function EntryMetrics(e: Entry, n: nat): seq<MetricRow>
    requires n <= |e.doc.results|
  {
    if n == 0 then []
    else EntryMetrics(e, n - 1)
         + BenchMetrics(e.first + n - 1, e.doc.results[n - 1].metrics, |e.doc.results[n - 1].metrics|)
  }

  function BenchesOf(es: seq<Entry>): seq<BenchRow> {
    if es == [] then []
    else BenchesOf(es[..|es| - 1]) + EntryBenches(es[|es| - 1], |es[|es| - 1].doc.results|)
  }

  function MetricsOf(es: seq<Entry>): seq<MetricRow> {
    if es == [] then []
    else MetricsOf(es[..|es| - 1]) + EntryMetrics(es[|es| - 1], |es[|es| - 1].doc.results|)
  }

  /** A record's hardware row, if it describes its system. */
  function EntryHardware(e: Entry): seq<HardwareRow> {
    if e.doc.systemInfo.Some? then [HardwareRow(e.runId, e.doc.systemInfo.value)] else []
  }

  function HardwareOf(es: seq<Entry>): seq<HardwareRow> {
    if es == [] then [] else HardwareOf(es[..|es| - 1]) + EntryHardware(es[|es| - 1])
  }

  /** Run ids differ, and benchmark ids are handed out in increasing blocks below `next`. */
  ghost predicate WellNumbered(es: seq<Entry>, next: nat) {
    && (forall i, j :: 0 <= i < j < |es| ==> es[i].runId != es[j].runId && es[i].Next() <= es[j].first)
    && (forall i :: 0 <= i < |es| ==> es[i].Next() <= next)
  }

  /** The entries without the one of this run. */
  function WithoutRun(es: seq<Entry>, id: string): seq<Entry> {
    if es == [] then []
    else WithoutRun(es[..|es| - 1], id) + (if es[|es| - 1].runId == id then [] else [es[|es| - 1]])
  }

  // ----- DELETE with ON DELETE CASCADE -----

  function RunsWithout(rows: seq<RunRow>, id: string): seq<RunRow> {
    if rows == [] then []
    else RunsWithout(rows[..|rows| - 1], id) + (if rows[|rows| - 1].id == id then [] else [rows[|rows| - 1]])
  }

  function BenchesWithout(rows: seq<BenchRow>, runId: string): seq<BenchRow> {
    if rows == [] then []
    else BenchesWithout(rows[..|rows| - 1], runId)
         + (if rows[|rows| - 1].runId == runId then [] else [rows[|rows| - 1]])
  }

  function MetricsWithout(rows: seq<MetricRow>, benches: set<nat>): seq<MetricRow> {
    if rows == [] then []
    else MetricsWithout(rows[..|rows| - 1], benches)
         + (if rows[|rows| - 1].benchmarkId in benches then [] else [rows[|rows| - 1]])
  }

  function HardwareWithout(rows: seq<HardwareRow>, runId: string): seq<HardwareRow> {
    if rows == [] then []
    else HardwareWithout(rows[..|rows| - 1], runId)
         + (if rows[|rows| - 1].runId == runId then [] else [rows[|rows| - 1]])
  }

  function BenchIdsOf(rows: seq<BenchRow>, runId: string): set<nat> {
    set r | r in rows && r.runId == runId :: r.id
  }

  // ----- statements -----

  const QUERY_COLUMNS := {"model", "engine", "suite_name", "kitt_version"}
  const COUNT_COLUMNS := {"model", "engine", "suite_name"}

  function ConditionsFor(filters: seq<Filter>, allowed: set<string>): seq<Condition> {
    if filters == [] then []
    else ConditionsFor(filters[..|filters| - 1], allowed) + (match filters[|filters| - 1]
      case PassedFilter(flag) => [PassedEquals(AsInt(flag))]
      case TextFilter(key, text) => if key in allowed then [TextEquals(key, text)] else [])
  }

  function LimitFor(limit: Option<int>, offset: int): Option<int> {
    if limit.None? && offset > 0 then Some(-1) else limit
  }

  function StatementFor(filters: seq<Filter>, orderBy: string, limit: Option<int>, offset: int): Statement {
    Statement(ConditionsFor(filters, QUERY_COLUMNS), ParseOrder(orderBy), LimitFor(limit, offset),
              if offset > 0 then Some(offset) else None)
  }

  /** Each record with its `id` added. */
  function WithIds(rows: seq<RunRow>): seq<(string, Doc)> {
    seq(|rows|, i requires 0 <= i < |rows| => (rows[i].id, rows[i].rawJson))
  }

  // ----- aggregation over the three-table join -----

  function GroupColumnOf(r: RunRow, col: GroupColumn): string {
    match col
    case GroupModel => r.model
    case GroupEngine => r.engine
    case GroupSuite => r.suiteName
    case GroupVersion => r.kittVersion
    case GroupTimestamp => r.timestamp
    case GroupPassed => if r.passed == 1 then "True" else "False"
    case GroupAbsent => "unknown"
  }

  /** Runs rows that join with this benchmark's run id and fall in the group. */
  function RunMatches(rs: seq<RunRow>, runId: string, col: GroupColumn, g: string): nat {
    if rs == [] then 0
    else RunMatches(rs[..|rs| - 1], runId, col, g)
         + (if rs[|rs| - 1].id == runId && GroupColumnOf(rs[|rs| - 1], col) == g then 1 else 0)
  }

  /** Pairs of a benchmarks row with this id and a runs row of the group that join. */
  function PairMatches(bs: seq<BenchRow>, rs: seq<RunRow>, benchId: nat, col: GroupColumn, g: string): nat {
    if bs == [] then 0
    else PairMatches(bs[..|bs| - 1], rs, benchId, col, g)
         + (if bs[|bs| - 1].id == benchId then RunMatches(rs, bs[|bs| - 1].runId, col, g) else 0)
  }

  function Repeated(v: real, n: nat): seq<real> {
    seq(n, _ => v)
  }

  /**
    The metric values of `metrics JOIN benchmarks JOIN runs` for one metric name and
    one group: one for each joining triple of rows.
  */
  function JoinedValues(ms: seq<MetricRow>, bs: seq<BenchRow>, rs: seq<RunRow>, m: string, col: GroupColumn,
                        g: string): seq<real> {
    if ms == [] then []
    else JoinedValues(ms[..|ms| - 1], bs, rs, m, col, g)
         + (if ms[|ms| - 1].metricName == m
            then Repeated(ms[|ms| - 1].metricValue, PairMatches(bs, rs, ms[|ms| - 1].benchmarkId, col, g)) else [])
  }

  function GroupsIn(rs: seq<RunRow>, col: GroupColumn): set<string> {
    set r | r in rs :: GroupColumnOf(r, col)
  }

  /** `SELECT g, COUNT(*) FROM runs GROUP BY g` */
  function CountRows(rs: seq<RunRow>, col: GroupColumn, g: string): nat {
    if rs == [] then 0
    else CountRows(rs[..|rs| - 1], col, g) + (if GroupColumnOf(rs[|rs| - 1], col) == g then 1 else 0)
  }

  /** A row of the answer: its count, and an average for each metric that has samples. */
  datatype AggregateRow = AggregateRow(count: nat, averages: map<string, real>)

  // ----- the store -----

  class SQLiteStore {
    var runs: seq<RunRow>
    var benchmarks: seq<BenchRow>
    var metrics: seq<MetricRow>
    var hardware: seq<HardwareRow>
    var nextBenchId: nat                                        // AUTOINCREMENT: never reused
    const run: (Statement, seq<RunRow>) -> seq<RunRow>          // the database's choice among legal answers
    ghost var entries: seq<Entry>

    /** The detail tables are exactly the flattening of the stored records. */
    ghost predicate Valid()
      reads this
    {
      && Legal(run)
      && WellNumbered(entries, nextBenchId)
      && runs == RunsOf(entries)
      && benchmarks == BenchesOf(entries)
      && metrics == MetricsOf(entries)
      && hardware == HardwareOf(entries)
    }

    constructor (run: (Statement, seq<RunRow>) -> seq<RunRow>)
      requires Legal(run)
      ensures Valid() && entries == [] && this.run == run
    {
      this.run := run;
      runs, benchmarks, metrics, hardware, nextBenchId, entries := [], [], [], [], 1, [];
    }

    /** Inserts one benchmark and its numeric metrics. */
    method InsertBench(e: Entry, n: nat)
      requires n < |e.doc.results| && nextBenchId == e.first + n
      modifies `benchmarks, `metrics, `nextBenchId
      ensures benchmarks == old(benchmarks) + EntryBenches(e, n + 1)[n..]
      ensures metrics == old(metrics) + BenchMetrics(e.first + n, e.doc.results[n].metrics, |e.doc.results[n].metrics|)
      ensures nextBenchId == old(nextBenchId) + 1
    {
      var bench := e.doc.results[n];
      var benchId := nextBenchId;   // cursor.lastrowid
      benchmarks := benchmarks + [BenchRow(benchId, e.runId, bench.testName, AsInt(bench.passed))];
      nextBenchId := nextBenchId + 1;
      for k := 0 to |bench.metrics|
        invariant metrics == old(metrics) + BenchMetrics(benchId, bench.metrics, k)
        invariant benchmarks == old(benchmarks) + EntryBenches(e, n + 1)[n..]
        invariant nextBenchId == old(nextBenchId) + 1
      {
        if bench.metrics[k].1.Number? {
          metrics := metrics + [MetricRow(benchId, bench.metrics[k].0, bench.metrics[k].1.value)];
        }
      }
    }

    /** False, and nothing changed, if the primary key is taken. */
    method SaveResult(doc: Doc, runId: string) returns (ok: bool)
      requires Valid()
      modifies this
      ensures Valid()
      ensures ok <==> forall e :: e in old(entries) ==> e.runId != runId
      ensures ok ==> entries == old(entries) + [Entry(runId, doc, old(nextBenchId))]
      ensures nextBenchId == old(nextBenchId) + (if ok then |doc.results| else 0)
      ensures !ok ==> runs == old(runs) && benchmarks == old(benchmarks) && metrics == old(metrics)
      ensures !ok ==> hardware == old(hardware) && entries == old(entries)
    {
      hide BenchesOf, MetricsOf, HardwareOf, EntryBenches, EntryMetrics, EntryHardware, RowFor;
      RunIdsAreEntries(entries, runId);
      if exists r :: r in runs && r.id == runId {
        return false;
      }
      ghost var e := Entry(runId, doc, nextBenchId);
      BenchesSnoc(entries, e);
      HardwareSnoc(entries, e);
      InsertAll(Entry(runId, doc, nextBenchId));
      assert forall i :: 0 <= i < |entries| ==> entries[i] in entries;
      entries := entries + [e];
      assert RunsOf(entries) == RunsOf(old(entries)) + [RowFor(runId, doc)];
      return true;
    }

    /** The inserts of one record, in the source's order. */
    method InsertAll(e: Entry)
      requires e.first == nextBenchId
      modifies `runs, `benchmarks, `metrics, `hardware, `nextBenchId
      ensures runs == old(runs) + [RowFor(e.runId, e.doc)]
      ensures benchmarks == old(benchmarks) + EntryBenches(e, |e.doc.results|)
      ensures metrics == old(metrics) + EntryMetrics(e, |e.doc.results|)
      ensures hardware == old(hardware) + EntryHardware(e)
      ensures nextBenchId == e.Next()
    {
      hide RowFor, EntryBenches, EntryMetrics, BenchMetrics;
      NoBenches(e);
      runs := runs + [RowFor(e.runId, e.doc)];
      for n := 0 to |e.doc.results|
        invariant runs == old(runs) + [RowFor(e.runId, e.doc)]
        invariant benchmarks == old(benchmarks) + EntryBenches(e, n)
        invariant metrics == old(metrics) + EntryMetrics(e, n)
        invariant hardware == old(hardware) && nextBenchId == e.first + n
      {
        InsertBench(e, n);
        BenchNext(e, n);
      }
      if e.doc.systemInfo.Some? {
        hardware := hardware + [HardwareRow(e.runId, e.doc.systemInfo.value)];
      }
    }

    method DeleteResult(id: string) returns (found: bool)
      requires Valid()
      modifies this
      ensures Valid()
      ensures entries == WithoutRun(old(entries), id) && nextBenchId == old(nextBenchId)
      ensures found <==> exists e :: e in old(entries) && e.runId == id
    {
      hide WellNumbered, RunsOf, BenchesOf, MetricsOf, WithoutRun, BenchIdsOf, MetricsWithout, BenchesWithout;
      hide RunsWithout;
      hide HardwareOf, HardwareWithout;
      found := exists r :: r in runs && r.id == id;   // cursor.rowcount > 0
      RunIdsAreEntries(entries, id);
      metrics := MetricsWithout(metrics, BenchIdsOf(benchmarks, id));
      benchmarks := BenchesWithout(benchmarks, id);
      hardware := HardwareWithout(hardware, id);
      runs := RunsWithout(runs, id);
      CascadeIsFlattening(entries, nextBenchId, id);
      entries := WithoutRun(entries, id);
    }

    method BuildConditions(filters: seq<Filter>, allowed: set<string>) returns (conditions: seq<Condition>)
      ensures conditions == ConditionsFor(filters, allowed)
    {
      conditions := [];
      for i := 0 to |filters|
        invariant conditions == ConditionsFor(filters[..i], allowed)
      {
        assert filters[..i + 1][..i] == filters[..i];
        match filters[i]
        case PassedFilter(flag) => conditions := conditions + [PassedEquals(AsInt(flag))];
        case TextFilter(key, text) =>
          if key in allowed {
            conditions := conditions + [TextEquals(key, text)];
          }
      }
      assert filters[..|filters|] == filters;
    }

    /** Ids and records of the rows the database returns. */
    method Query(filters: seq<Filter>, orderBy: string, limit: Option<int>, offset: int)
      returns (results: seq<(string, Doc)>)
      requires Valid()
      ensures exists rows: seq<RunRow> ::
        && Answers(StatementFor(filters, orderBy, limit, offset), runs, rows) && |results| == |rows|
        && forall i :: 0 <= i < |results| ==> results[i] == (rows[i].id, rows[i].rawJson)
    {
      hide RunsOf, BenchesOf, MetricsOf, HardwareOf, WellNumbered, Answers, ConditionsFor, ParseOrder, WithIds;
      UnnamedOrder();
      NoRows();
      var conditions := BuildConditions(filters, QUERY_COLUMNS);
      var order: Option<Order> := None;
      if orderBy != "" {
        order := ParseOrder(orderBy);
      }
      var sqlLimit, sqlOffset := limit, None;
      if offset > 0 {
        if limit.None? {
          sqlLimit := Some(-1);
        }
        sqlOffset := Some(offset);
      }
      var rows := run(Statement(conditions, order, sqlLimit, sqlOffset), runs);
      results := [];
      for i := 0 to |rows|
        invariant results == WithIds(rows[..i])
      {
        NextRow(rows, i);
        results := results + [(rows[i].id, rows[i].rawJson)];
      }
      assert rows[..|rows|] == rows;
      IdsOf(rows);
      assert Answers(StatementFor(filters, orderBy, limit, offset), runs, rows);
    }

    method Count(filters: seq<Filter>) returns (n: nat)
      ensures n == |Filtered(runs, ConditionsFor(filters, COUNT_COLUMNS))|
    {
      var conditions := BuildConditions(filters, COUNT_COLUMNS);
      n := |Filtered(runs, conditions)|;   // SELECT COUNT(*)
    }

    method GetResult(id: string) returns (r: Option<Doc>)
      requires Valid()
      ensures r.Some? <==> exists e :: e in entries && e.runId == id
      ensures r.Some? ==> exists e :: e in entries && e.runId == id && e.doc == r.value
    {
      for i := 0 to |runs|
        invariant forall j :: 0 <= j < i ==> entries[j].runId != id
      {
        assert entries[i] in entries && runs[i].id == entries[i].runId;
        if runs[i].id == id {
          assert entries[i].doc == runs[i].rawJson;
          return Some(runs[i].rawJson);
        }
      }
      return None;
    }

    /** Fails on a grouping column that is not allowed. */
    method Aggregate(groupBy: string, names: seq<string>) returns (answer: Result<map<string, AggregateRow>>)
      ensures answer.Ok? <==> GroupNamed(groupBy).Some?
      ensures answer.Ok? ==> Aggregated(answer.value, GroupNamed(groupBy).value, names, runs, benchmarks, metrics)
    {
      hide Aggregated;
      if GroupNamed(groupBy).None? {
        return Raised("group_by must be an allowed column");
      }
      var col := GroupNamed(groupBy).value;
      var results := CountsOnly(runs, col);
      NoAverages(col, runs, benchmarks, metrics);
      for i := 0 to |names|
        invariant Aggregated(results, col, names[..i], runs, benchmarks, metrics)
      {
        AverageAdded(results, col, names[..i], names[i], runs, benchmarks, metrics);
        results := WithAverages(results, col, names[i], runs, benchmarks, metrics);
        assert names[..i + 1] == names[..i] + [names[i]];
      }
      assert names[..|names|] == names;
      return Ok(results);
    }
  }

  lemma NoBenches(e: Entry)
    ensures EntryBenches(e, 0) == [] && EntryMetrics(e, 0) == []
  {
  }

  lemma BenchNext(e: Entry, n: nat)
    requires n < |e.doc.results|
    ensures |EntryBenches(e, n + 1)| == n + 1
    ensures EntryBenches(e, n + 1) == EntryBenches(e, n) + EntryBenches(e, n + 1)[n..]
    ensures var ms := e.doc.results[n].metrics;
      EntryMetrics(e, n + 1) == EntryMetrics(e, n) + BenchMetrics(e.first + n, ms, |ms|)
  {
    hide BenchMetrics;
  }

  lemma UnnamedOrder()
    ensures ParseOrder("") == None
  {
  }

  lemma NoRows()
    ensures WithIds([]) == []
  {
  }

  lemma IdsOf(rows: seq<RunRow>)
    ensures |WithIds(rows)| == |rows|
    ensures forall i :: 0 <= i < |rows| ==> WithIds(rows)[i] == (rows[i].id, rows[i].rawJson)
  {
  }

  lemma NextRow(rows: seq<RunRow>, i: nat)
    requires i < |rows|
    ensures WithIds(rows[..i + 1]) == WithIds(rows[..i]) + [(rows[i].id, rows[i].rawJson)]
  {
  }

  function WithAverage(row: AggregateRow, name: string, values: seq<real>): AggregateRow {
    if values == [] then row else row.(averages := row.averages[name := Average(values)])
  }

  /** One row's averages: those of the names that have joined samples. */
  ghost predicate RowAveraged(row: AggregateRow, g: string, col: GroupColumn, names: seq<string>, rs: seq<RunRow>,
                              bs: seq<BenchRow>, ms: seq<MetricRow>) {
    forall m ::
      && (m in row.averages <==> m in names && JoinedValues(ms, bs, rs, m, col, g) != [])
      && (m in row.averages ==> AverageOf(JoinedValues(ms, bs, rs, m, col, g)) == Some(row.averages[m]))
  }

  /** The answer of the aggregation statements on these tables. */
  ghost predicate Aggregated(answer: map<string, AggregateRow>, col: GroupColumn, names: seq<string>, rs: seq<RunRow>,
                             bs: seq<BenchRow>, ms: seq<MetricRow>) {
    && answer.Keys == GroupsIn(rs, col)
    && forall g :: g in answer ==>
       answer[g].count == CountRows(rs, col, g) && RowAveraged(answer[g], g, col, names, rs, bs, ms)
  }

  /** What the first statement, `SELECT g, COUNT(*) ... GROUP BY g`, contributes. */
  function CountsOnly(rs: seq<RunRow>, col: GroupColumn): map<string, AggregateRow> {
    map g | g in GroupsIn(rs, col) :: AggregateRow(CountRows(rs, col, g), map[])
  }

  /** What one metric's join statement adds. */
  function WithAverages(answer: map<string, AggregateRow>, col: GroupColumn, name: string,
                        rs: seq<RunRow>, bs: seq<BenchRow>, ms: seq<MetricRow>): map<string, AggregateRow> {
    map g | g in answer :: WithAverage(answer[g], name, JoinedValues(ms, bs, rs, name, col, g))
  }

  lemma NoAverages(col: GroupColumn, rs: seq<RunRow>, bs: seq<BenchRow>, ms: seq<MetricRow>)
    ensures Aggregated(CountsOnly(rs, col), col, [], rs, bs, ms)
  {
    hide JoinedValues, CountRows, GroupsIn;
  }

  lemma RowAverageAdded(row: AggregateRow, g: string, col: GroupColumn, names: seq<string>, name: string,
                        rs: seq<RunRow>, bs: seq<BenchRow>, ms: seq<MetricRow>)
    requires RowAveraged(row, g, col, names, rs, bs, ms)
    ensures RowAveraged(WithAverage(row, name, JoinedValues(ms, bs, rs, name, col, g)),
                        g, col, names + [name], rs, bs, ms)
  {
    hide JoinedValues, Average;
    assert forall m :: m in names + [name] <==> m in names || m == name;
  }

  lemma {:induction false} AverageAdded(answer: map<string, AggregateRow>, col: GroupColumn, names: seq<string>,
                                        name: string, rs: seq<RunRow>, bs: seq<BenchRow>, ms: seq<MetricRow>)
    requires Aggregated(answer, col, names, rs, bs, ms)
    ensures Aggregated(WithAverages(answer, col, name, rs, bs, ms), col, names + [name], rs, bs, ms)
  {
    hide JoinedValues, CountRows, GroupsIn, RowAveraged;
    var after := WithAverages(answer, col, name, rs, bs, ms);
    assert after.Keys == answer.Keys;
    forall g | g in answer
      ensures RowAveraged(after[g], g, col, names + [name], rs, bs, ms) && after[g].count == answer[g].count
    {
      RowAverageAdded(answer[g], g, col, names, name, rs, bs, ms);
    }
  }

  lemma RunIdsAreEntries(es: seq<Entry>, id: string)
    ensures (exists r :: r in RunsOf(es) && r.id == id) <==> (exists e :: e in es && e.runId == id)
  {
    assert forall i :: 0 <= i < |es| ==> RunsOf(es)[i].id == es[i].runId && RunsOf(es)[i] in RunsOf(es) && es[i] in es;
  }

  // ----- cascade delete keeps the flattening -----

  lemma {:induction false} RunsCascade(es: seq<Entry>, id: string)
    ensures RunsWithout(RunsOf(es), id) == RunsOf(WithoutRun(es, id))
  {
    if es != [] {
      var front, last := es[..|es| - 1], es[|es| - 1];
      RunsCascade(front, id);
      assert RunsOf(es)[..|es| - 1] == RunsOf(front) && RunsOf(es)[|es| - 1] == RowFor(last.runId, last.doc);
      assert RunsOf([last]) == [RowFor(last.runId, last.doc)];
      assert RunsOf(WithoutRun(front, id) + [last]) == RunsOf(WithoutRun(front, id)) + RunsOf([last]);
    }
  }

  lemma {:induction false} BenchesWithoutConcat(a: seq<BenchRow>, b: seq<BenchRow>, id: string)
    ensures BenchesWithout(a + b, id) == BenchesWithout(a, id) + BenchesWithout(b, id)
  {
    if b == [] {
      assert a + b == a;
    } else {
      assert (a + b)[..|a + b| - 1] == a + b[..|b| - 1];
      BenchesWithoutConcat(a, b[..|b| - 1], id);
    }
  }

  lemma {:induction false} BenchesWithoutBlock(rows: seq<BenchRow>, owner: string, id: string)
    requires forall i :: 0 <= i < |rows| ==> rows[i].runId == owner
    ensures BenchesWithout(rows, id) == if owner == id then [] else rows
  {
    if rows != [] {
      hide BenchesWithout;
      var front, last := rows[..|rows| - 1], rows[|rows| - 1];
      BenchesWithoutBlock(front, owner, id);
      BenchesWithoutLast(rows, id);
      assert last.runId == owner;
      if owner != id {
        SplitLast(rows);
      }
    }
  }

  lemma SplitLast<T>(s: seq<T>)
    requires s != []
    ensures s == s[..|s| - 1] + [s[|s| - 1]]
  {
  }

  lemma BenchesWithoutLast(rows: seq<BenchRow>, id: string)
    requires rows != []
    ensures var front, last := rows[..|rows| - 1], rows[|rows| - 1];
      BenchesWithout(rows, id) == if last.runId == id then BenchesWithout(front, id)
        else BenchesWithout(front, id) + [last]
  {
    assert BenchesWithout(rows[..|rows| - 1], id) + [] == BenchesWithout(rows[..|rows| - 1], id);
  }

  lemma {:induction false} BenchesCascade(es: seq<Entry>, id: string)
    ensures BenchesWithout(BenchesOf(es), id) == BenchesOf(WithoutRun(es, id))
  {
    if es != [] {
      hide BenchesWithout, EntryMetrics, MetricsOf;
      var front, last := es[..|es| - 1], es[|es| - 1];
      var block := EntryBenches(last, |last.doc.results|);
      BenchesCascade(front, id);
      BenchesWithoutConcat(BenchesOf(front), block, id);
      BenchesWithoutBlock(block, last.runId, id);
      BenchesSnoc(WithoutRun(front, id), last);
      assert WithoutRun(front, id) + [] == WithoutRun(front, id);
      assert BenchesOf(WithoutRun(front, id)) + [] == BenchesOf(WithoutRun(front, id));
    }
  }

  lemma HardwareWithoutSnoc(rows: seq<HardwareRow>, e: Entry, id: string)
    ensures HardwareWithout(rows + EntryHardware(e), id)
            == HardwareWithout(rows, id) + (if e.runId == id then [] else EntryHardware(e))
  {
    if e.doc.systemInfo.Some? {
      var more := rows + EntryHardware(e);
      assert more[..|more| - 1] == rows && more[|more| - 1].runId == e.runId;
    } else {
      assert rows + [] == rows && HardwareWithout(rows, id) + [] == HardwareWithout(rows, id);
    }
  }

  lemma {:induction false} HardwareCascade(es: seq<Entry>, id: string)
    ensures HardwareWithout(HardwareOf(es), id) == HardwareOf(WithoutRun(es, id))
  {
    hide EntryHardware, HardwareWithout;
    if es == [] {
      assert HardwareOf([]) == [];
      NoHardware(id);
    } else {
      var front, last := es[..|es| - 1], es[|es| - 1];
      HardwareCascade(front, id);
      HardwareWithoutSnoc(HardwareOf(front), last, id);
      HardwareSnoc(WithoutRun(front, id), last);
      assert HardwareOf(WithoutRun(front, id)) + [] == HardwareOf(WithoutRun(front, id));
      assert WithoutRun(front, id) + [] == WithoutRun(front, id);
    }
  }

  lemma NoHardware(id: string)
    ensures HardwareWithout([], id) == []
  {
  }

  lemma BenchesSnoc(es: seq<Entry>, e: Entry)
    ensures BenchesOf(es + [e]) == BenchesOf(es) + EntryBenches(e, |e.doc.results|)
    ensures MetricsOf(es + [e]) == MetricsOf(es) + EntryMetrics(e, |e.doc.results|)
  {
    assert (es + [e])[..|es|] == es;
  }

  lemma HardwareSnoc(es: seq<Entry>, e: Entry)
    ensures HardwareOf(es + [e]) == HardwareOf(es) + EntryHardware(e)
  {
    hide EntryHardware;
    assert (es + [e])[..|es|] == es;
  }

  lemma {:induction false} MetricsWithoutConcat(a: seq<MetricRow>, b: seq<MetricRow>, ids: set<nat>)
    ensures MetricsWithout(a + b, ids) == MetricsWithout(a, ids) + MetricsWithout(b, ids)
  {
    if b == [] {
      assert a + b == a;
    } else {
      assert (a + b)[..|a + b| - 1] == a + b[..|b| - 1];
      MetricsWithoutConcat(a, b[..|b| - 1], ids);
    }
  }

  lemma {:induction false} MetricsWithoutBlock(rows: seq<MetricRow>, ids: set<nat>, gone: bool)
    requires forall i :: 0 <= i < |rows| ==> (rows[i].benchmarkId in ids <==> gone)
    ensures MetricsWithout(rows, ids) == if gone then [] else rows
  {
    if rows != [] {
      var front, last := rows[..|rows| - 1], rows[|rows| - 1];
      MetricsWithoutBlock(front, ids, gone);
      SplitLast(rows);
      assert last.benchmarkId in ids <==> gone;
    }
  }

  lemma {:induction false} BenchMetricsOwner(benchId: nat, ms: seq<(string, MetricValue)>, k: nat)
    requires k <= |ms|
    ensures forall r :: r in BenchMetrics(benchId, ms, k) ==> r.benchmarkId == benchId
  {
    if k > 0 {
      BenchMetricsOwner(benchId, ms, k - 1);
    }
  }

  lemma {:induction false} EntryMetricsOwner(e: Entry, n: nat)
    requires n <= |e.doc.results|
    ensures forall r :: r in EntryMetrics(e, n) ==> e.first <= r.benchmarkId < e.first + n
  {
    if n > 0 {
      EntryMetricsOwner(e, n - 1);
      BenchMetricsOwner(e.first + n - 1, e.doc.results[n - 1].metrics, |e.doc.results[n - 1].metrics|);
    }
  }

  /** A benchmarks row belongs to some entry's block. */
  lemma {:induction false} BenchesOwner(es: seq<Entry>, r: BenchRow)
    requires r in BenchesOf(es)
    ensures exists i :: 0 <= i < |es| && r.runId == es[i].runId && es[i].first <= r.id < es[i].Next()
  {
    var front, last := es[..|es| - 1], es[|es| - 1];
    if r in BenchesOf(front) {
      BenchesOwner(front, r);
      var i :| 0 <= i < |front| && r.runId == front[i].runId && front[i].first <= r.id < front[i].Next();
      assert es[i] == front[i];
    } else {
      assert r in EntryBenches(last, |last.doc.results|);
    }
  }

  lemma {:induction false} BenchInTable(es: seq<Entry>, i: nat, n: nat)
    requires i < |es| && n < |es[i].doc.results|
    ensures EntryBenches(es[i], |es[i].doc.results|)[n] in BenchesOf(es)
  {
    var front, last := es[..|es| - 1], es[|es| - 1];
    if i < |front| {
      BenchInTable(front, i, n);
    }
  }

  /** The removed benchmark ids are exactly the block of the removed run. */
  lemma {:induction false} RemovedIds(es: seq<Entry>, next: nat, id: string, i: nat, b: nat)
    requires WellNumbered(es, next) && i < |es| && es[i].first <= b < es[i].Next()
    ensures b in BenchIdsOf(BenchesOf(es), id) <==> es[i].runId == id
  {
    hide BenchesOf, EntryBenches;
    if b in BenchIdsOf(BenchesOf(es), id) {
      var r :| r in BenchesOf(es) && r.runId == id && r.id == b;
      BenchesOwner(es, r);
      var j :| 0 <= j < |es| && r.runId == es[j].runId && es[j].first <= r.id < es[j].Next();
      assert i == j;
    }
    BenchInTable(es, i, b - es[i].first);
    BenchAt(es[i], b - es[i].first);
  }

  lemma BenchAt(e: Entry, n: nat)
    requires n < |e.doc.results|
    ensures EntryBenches(e, |e.doc.results|)[n].id == e.first + n
            && EntryBenches(e, |e.doc.results|)[n].runId == e.runId
  {
  }

  lemma {:induction false} MetricsCascade(es: seq<Entry>, next: nat, id: string, n: nat)
    requires WellNumbered(es, next) && n <= |es|
    ensures MetricsWithout(MetricsOf(es[..n]), BenchIdsOf(BenchesOf(es), id)) == MetricsOf(WithoutRun(es[..n], id))
  {
    hide WellNumbered, EntryMetrics, BenchIdsOf, EntryBenches, BenchesOf, MetricsOf, MetricsWithout, WithoutRun;
    var ids := BenchIdsOf(BenchesOf(es), id);
    if n == 0 {
      NoMetrics(ids, id);
      assert es[..0] == [];
    } else {
      var last := es[n - 1];
      var kept, block := WithoutRun(es[..n - 1], id), EntryMetrics(last, |last.doc.results|);
      assert es[..n] == es[..n - 1] + [last];
      MetricsCascade(es, next, id, n - 1);
      BlockCascade(es, next, id, n - 1);
      BenchesSnoc(es[..n - 1], last);
      MetricsWithoutConcat(MetricsOf(es[..n - 1]), block, ids);
      WithoutRunSnoc(es[..n - 1], last, id);
      BenchesSnoc(kept, last);
      assert MetricsOf(kept) + [] == MetricsOf(kept);
    }
  }

  lemma NoMetrics(ids: set<nat>, id: string)
    ensures MetricsOf([]) == [] && MetricsWithout([], ids) == [] && WithoutRun([], id) == []
  {
  }

  lemma WithoutRunSnoc(front: seq<Entry>, last: Entry, id: string)
    ensures WithoutRun(front + [last], id)
            == if last.runId == id then WithoutRun(front, id) else WithoutRun(front, id) + [last]
  {
    assert (front + [last])[..|front|] == front;
    assert WithoutRun(front, id) + [] == WithoutRun(front, id);
  }

  /** Of one entry's metrics rows all go or all stay. */
  lemma BlockCascade(es: seq<Entry>, next: nat, id: string, n: nat)
    requires WellNumbered(es, next) && n < |es|
    ensures var block := EntryMetrics(es[n], |es[n].doc.results|);
      MetricsWithout(block, BenchIdsOf(BenchesOf(es), id)) == if es[n].runId == id then [] else block
  {
    hide WellNumbered, EntryMetrics, BenchIdsOf, BenchesOf, MetricsWithout;
    var ids, block := BenchIdsOf(BenchesOf(es), id), EntryMetrics(es[n], |es[n].doc.results|);
    EntryMetricsOwner(es[n], |es[n].doc.results|);
    forall i | 0 <= i < |block|
      ensures block[i].benchmarkId in ids <==> es[n].runId == id
    {
      assert block[i] in block;
      RemovedIds(es, next, id, n, block[i].benchmarkId);
    }
    MetricsWithoutBlock(block, ids, es[n].runId == id);
  }

  lemma {:induction false} WithoutRunMembers(es: seq<Entry>, id: string)
    ensures forall e :: e in WithoutRun(es, id) <==> e in es && e.runId != id
  {
    if es != [] {
      WithoutRunMembers(es[..|es| - 1], id);
      assert es == es[..|es| - 1] + [es[|es| - 1]];
    }
  }

  /** The last of some well-numbered entries comes after the others. */
  ghost predicate After(front: seq<Entry>, last: Entry) {
    forall e :: e in front ==> e.runId != last.runId && e.Next() <= last.first
  }

  lemma NumberedFront(es: seq<Entry>, next: nat)
    requires WellNumbered(es, next) && es != []
    ensures var front, last := es[..|es| - 1], es[|es| - 1];
      WellNumbered(front, next) && After(front, last) && last.Next() <= next
  {
    var front := es[..|es| - 1];
    forall e | e in front
      ensures e.runId != es[|es| - 1].runId && e.Next() <= es[|es| - 1].first
    {
      var j :| 0 <= j < |front| && front[j] == e;
      assert es[j] == e;
    }
  }

  lemma NumberedBack(front: seq<Entry>, last: Entry, next: nat)
    requires WellNumbered(front, next) && After(front, last) && last.Next() <= next
    ensures WellNumbered(front + [last], next)
  {
    assert forall i :: 0 <= i < |front| ==> front[i] in front;
  }

  lemma {:induction false} WithoutRunNumbered(es: seq<Entry>, next: nat, id: string)
    requires WellNumbered(es, next)
    ensures WellNumbered(WithoutRun(es, id), next)
    ensures forall e :: e in WithoutRun(es, id) <==> e in es && e.runId != id
  {
    hide WellNumbered;
    WithoutRunMembers(es, id);
    if es != [] {
      var front, last := es[..|es| - 1], es[|es| - 1];
      NumberedFront(es, next);
      WithoutRunNumbered(front, next, id);
      NumberedBack(WithoutRun(front, id), last, next);
      assert WithoutRun(front, id) + [] == WithoutRun(front, id);
    }
  }

  /** Deleting a run with cascade leaves the flattening of the other records. */
  lemma CascadeIsFlattening(es: seq<Entry>, next: nat, id: string)
    requires WellNumbered(es, next)
    ensures WellNumbered(WithoutRun(es, id), next)
    ensures RunsWithout(RunsOf(es), id) == RunsOf(WithoutRun(es, id))
    ensures BenchesWithout(BenchesOf(es), id) == BenchesOf(WithoutRun(es, id))
    ensures MetricsWithout(MetricsOf(es), BenchIdsOf(BenchesOf(es), id)) == MetricsOf(WithoutRun(es, id))
    ensures HardwareWithout(HardwareOf(es), id) == HardwareOf(WithoutRun(es, id))
  {
    hide WellNumbered, RunsOf, BenchesOf, MetricsOf, WithoutRun, BenchIdsOf, MetricsWithout, BenchesWithout;
    hide RunsWithout;
    hide HardwareOf, HardwareWithout;
    HardwareCascade(es, id);
    assert es[..|es|] == es;
    WithoutRunNumbered(es, next, id);
    RunsCascade(es, id);
    BenchesCascade(es, id);
    MetricsCascade(es, next, id, |es|);
  }
}

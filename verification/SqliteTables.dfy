/**
  A small relational semantics: the tables of src/kitt/storage/schema.py, the
  statements that src/kitt/storage/sqlite_store.py sends, and what they mean.
*/
module SqliteTables {
  import opened Basics
  import opened Sorting
  import opened ResultModel

  datatype RunRow = RunRow(id: string, model: string, engine: string, suiteName: string, timestamp: string,
                           passed: int, totalTimeSeconds: real, kittVersion: string, rawJson: Doc)

  datatype BenchRow = BenchRow(id: nat, runId: string, testName: string, passed: int)

  datatype MetricRow = MetricRow(benchmarkId: nat, metricName: string, metricValue: real)

  datatype HardwareRow = HardwareRow(runId: string, info: string)

  function AsInt(b: bool): int { if b then 1 else 0 }

  /** The row that `save_result` inserts for a record. */
  function RowFor(id: string, d: Doc): RunRow {
    RunRow(id, d.model, d.engine, d.suiteName, d.timestamp, AsInt(d.passed), d.totalTimeSeconds, d.kittVersion, d)
  }

  ghost predicate RowsMirror(rows: seq<RunRow>) {
    forall r :: r in rows ==> r == RowFor(r.id, r.rawJson)
  }

  function Raws(rows: seq<RunRow>): (docs: seq<Doc>)
    ensures |docs| == |rows| && forall i :: 0 <= i < |rows| ==> docs[i] == rows[i].rawJson
  {
    seq(|rows|, i requires 0 <= i < |rows| => rows[i].rawJson)
  }

  // ----- SELECT ... WHERE ... ORDER BY ... LIMIT ... OFFSET -----

  datatype Condition = TextEquals(column: string, text: string) | PassedEquals(flag: int)

  datatype Statement = Statement(conditions: seq<Condition>, order: Option<Order>, limit: Option<int>,
                                 offset: Option<int>)

  function TextColumn(r: RunRow, column: string): string {
    if column == "model" then r.model
    else if column == "engine" then r.engine
    else if column == "suite_name" then r.suiteName
    else if column == "kitt_version" then r.kittVersion
    else ""
  }

  predicate Holds(r: RunRow, c: Condition) {
    match c
    case TextEquals(column, text) => TextColumn(r, column) == text
    case PassedEquals(flag) => r.passed == flag
  }

  predicate HoldsAll(r: RunRow, cs: seq<Condition>) {
    forall i :: 0 <= i < |cs| ==> Holds(r, cs[i])
  }

  function Filtered(rows: seq<RunRow>, cs: seq<Condition>): seq<RunRow> {
    if rows == [] then []
    else (if HoldsAll(rows[0], cs) then [rows[0]] else []) + Filtered(rows[1..], cs)
  }

  function RowKey(r: RunRow, col: OrderColumn): SortKey {
    match col
    case ByTimestamp => TextKey(r.timestamp)
    case ByModel => TextKey(r.model)
    case ByEngine => TextKey(r.engine)
    case ByTotalTime => NumberKey(r.totalTimeSeconds)
    case BySuite => TextKey(r.suiteName)
    case ByVersion => TextKey(r.kittVersion)
    case ByPassed => NumberKey(r.passed as real)
    case ByAbsent => TextKey("")
  }

  predicate RowLess(o: Order, a: RunRow, b: RunRow) {
    if o.desc then KeyLess(RowKey(b, o.column), RowKey(a, o.column))
      else KeyLess(RowKey(a, o.column), RowKey(b, o.column))
  }

  /** Rows in some order that ORDER BY allows; without it, in any order at all. */
  ghost predicate Arrangement(order: Option<Order>, rows: seq<RunRow>, arranged: seq<RunRow>) {
    && multiset(arranged) == multiset(rows)
    && (order.Some? ==> forall i, j :: 0 <= i < j < |arranged| ==> !RowLess(order.value, arranged[j], arranged[i]))
  }

  /** LIMIT and OFFSET; a negative limit is no limit. */
  function Page(rows: seq<RunRow>, limit: Option<int>, offset: Option<int>): seq<RunRow> {
    var rest := if offset.Some? && offset.value > 0 then Drop(rows, offset.value) else rows;
    if limit.Some? && limit.value >= 0 then Take(rest, limit.value) else rest
  }

  /** The rows a database may return: which arrangement it picks is its own choice. */
  ghost predicate Answers(q: Statement, table: seq<RunRow>, out: seq<RunRow>) {
    exists arranged :: Arrangement(q.order, Filtered(table, q.conditions), arranged)
      && out == Page(arranged, q.limit, q.offset)
  }

  /** A database that always answers as SQL says. */
  ghost predicate Legal(run: (Statement, seq<RunRow>) -> seq<RunRow>) {
    forall q, table :: Answers(q, table, run(q, table))
  }

  // ----- what the statements mean on records -----

  /** The WHERE clause tests on rows what the filters test on records. */
  ghost predicate SameTest(cs: seq<Condition>, filters: seq<Filter>) {
    forall id, d :: HoldsAll(RowFor(id, d), cs) <==> MatchesAll(d, filters)
  }

  lemma {:induction false} FilteredIsSelect(rows: seq<RunRow>, cs: seq<Condition>, filters: seq<Filter>)
    requires RowsMirror(rows) && SameTest(cs, filters)
    ensures Raws(Filtered(rows, cs)) == Select(Raws(rows), filters)
    ensures RowsMirror(Filtered(rows, cs))
  {
    hide HoldsAll, MatchesAll, Raws, RowFor;
    if rows == [] {
      NoRaws();
    } else {
      assert rows[0] in rows && forall r :: r in rows[1..] ==> r in rows;
      FilteredIsSelect(rows[1..], cs, filters);
      var d := rows[0].rawJson;
      assert HoldsAll(RowFor(rows[0].id, d), cs) <==> MatchesAll(d, filters);
      RawsCons(rows[0], rows[1..]);
      RawsCons(rows[0], Filtered(rows[1..], cs));
      TailOfCons(d, Raws(rows[1..]));
      assert rows == [rows[0]] + rows[1..] && [] + Filtered(rows[1..], cs) == Filtered(rows[1..], cs);
    }
  }

  lemma NoRaws()
    ensures Raws([]) == []
  {
  }

  lemma RawsCons(r: RunRow, rows: seq<RunRow>)
    ensures Raws([r] + rows) == [r.rawJson] + Raws(rows)
  {
    hide RowFor;
    var all := [r] + rows;
    forall i | 0 <= i < |all|
      ensures Raws(all)[i] == ([r.rawJson] + Raws(rows))[i]
    {
      assert i > 0 ==> all[i] == rows[i - 1];
    }
  }

  lemma TailOfCons<T>(x: T, s: seq<T>)
    ensures ([x] + s)[1..] == s
  {
  }

  lemma RawsWithout(rows: seq<RunRow>, j: nat)
    requires j < |rows|
    ensures multiset(Raws(rows)) == multiset(Raws(Without(rows, j))) + multiset{rows[j].rawJson}
  {
    assert Raws(Without(rows, j)) == Without(Raws(rows), j);
    WithoutMultiset(Raws(rows), j);
    assert Raws(rows)[j] in multiset(Raws(rows));
  }

  lemma {:induction false} RawsPermute(a: seq<RunRow>, b: seq<RunRow>)
    requires multiset(a) == multiset(b)
    ensures multiset(Raws(a)) == multiset(Raws(b))
  {
    hide Raws;
    assert |multiset(a)| == |a| && |multiset(b)| == |b|;
    if a == [] {
      assert a == b;
    } else {
      assert a[0] in multiset(b);
      var j :| 0 <= j < |b| && b[j] == a[0];
      WithoutMultiset(b, j);
      WithoutMultiset(a, 0);
      assert Without(a, 0) == a[1..];
      RawsPermute(a[1..], Without(b, j));
      RawsWithout(a, 0);
      RawsWithout(b, j);
    }
  }

  lemma ArrangedRows(o: Order, rows: seq<RunRow>, arranged: seq<RunRow>)
    requires Arrangement(Some(o), rows, arranged)
    ensures multiset(arranged) == multiset(rows)
  {
  }

  /** Rows in ORDER BY's order hold records in that order. */
  lemma RawsAscend(o: Order, rows: seq<RunRow>, arranged: seq<RunRow>)
    requires RowsMirror(rows) && Arrangement(Some(o), rows, arranged)
    ensures Sorted(Less(o), Raws(arranged))
  {
    hide KeyLess, RowKey, KeyOf, RowFor;
    forall i | 0 <= i < |arranged|
      ensures RowKey(arranged[i], o.column) == KeyOf(Raws(arranged)[i], o.column)
    {
      assert arranged[i] in multiset(arranged);
      assert arranged[i] in rows;
      MirrorKey(arranged[i], o.column);
    }
  }

  lemma MirrorKey(r: RunRow, col: OrderColumn)
    requires r == RowFor(r.id, r.rawJson)
    ensures RowKey(r, col) == KeyOf(r.rawJson, col)
  {
  }

  lemma ArrangementIsSort(o: Order, rows: seq<RunRow>, arranged: seq<RunRow>)
    requires RowsMirror(rows) && Arrangement(Some(o), rows, arranged)
    requires DistinctKeys(Raws(rows), o.column)
    ensures Raws(arranged) == Sort(Less(o), Raws(rows))
  {
    hide DistinctKeys, Sort, Sorted, RowsMirror, Arrangement, StrictOrder, DistinctRanks, Less;
    ArrangedRows(o, rows, arranged);
    RawsPermute(rows, arranged);
    RawsAscend(o, rows, arranged);
    LessIsStrictOrder(o);
    SortSorts(Less(o), Raws(rows));
    SortPermutes(Less(o), Raws(rows));
    DistinctKeysRank(Raws(rows), o);
    SortDistinct(Less(o), Raws(rows));
    SortedIsUnique(Less(o), Sort(Less(o), Raws(rows)), Raws(arranged));
  }
}

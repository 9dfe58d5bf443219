/**
  What a query returns, on the fields of the records: which of them, in which order, and
  which page (src/kitt/storage/base.py, json_store.py and sqlite_store.py).
*/
module QueryMeaning {
  import opened Basics
  import opened Sorting
  import opened ResultModel
  import opened SqliteTables
  import opened SqliteStore
  import opened JsonStore
  import opened StoreRefinement
  import opened Picking

  // ----- order -----

  /** a may stand before b: what both stores promise for the five sort columns. */
  ghost predicate MayPrecede(orderBy: string, a: Doc, b: Doc) {
    && (orderBy == "timestamp" ==> !LexLess(b.timestamp, a.timestamp))
    && (orderBy == "-timestamp" ==> !LexLess(a.timestamp, b.timestamp))
    && (orderBy == "model" ==> !LexLess(b.model, a.model))
    && (orderBy == "-model" ==> !LexLess(a.model, b.model))
    && (orderBy == "engine" ==> !LexLess(b.engine, a.engine))
    && (orderBy == "-engine" ==> !LexLess(a.engine, b.engine))
    && (orderBy == "suite_name" ==> !LexLess(b.suiteName, a.suiteName))
    && (orderBy == "-suite_name" ==> !LexLess(a.suiteName, b.suiteName))
    && (orderBy == "total_time_seconds" ==> a.totalTimeSeconds <= b.totalTimeSeconds)
    && (orderBy == "-total_time_seconds" ==> a.totalTimeSeconds >= b.totalTimeSeconds)
  }

  /** The same for two more fields that the JSON store sorts by. */
  ghost predicate MayPrecedeToo(orderBy: string, a: Doc, b: Doc) {
    && (orderBy == "kitt_version" ==> !LexLess(b.kittVersion, a.kittVersion))
    && (orderBy == "-kitt_version" ==> !LexLess(a.kittVersion, b.kittVersion))
    && (orderBy == "passed" ==> a.passed ==> b.passed)
    && (orderBy == "-passed" ==> b.passed ==> a.passed)
  }

  ghost predicate InOrder(orderBy: string, docs: seq<Doc>) {
    forall i, j :: 0 <= i < j < |docs| ==> MayPrecede(orderBy, docs[i], docs[j])
  }

  ghost predicate InOtherOrder(orderBy: string, docs: seq<Doc>) {
    forall i, j :: 0 <= i < j < |docs| ==> MayPrecedeToo(orderBy, docs[i], docs[j])
  }

  lemma NoDash(name: string)
    requires name == "" || name[0] != '-'
    ensures StripDashes(name) == name && StripDashes("-" + name) == name
  {
    assert ("-" + name)[1..] == name;
  }

  lemma ColumnOrder(name: string, col: OrderColumn)
    requires name != "" && name[0] != '-' && FieldNamed(name) == Some(col)
    ensures ParseField(name) == Some(Order(col, false)) && ParseField("-" + name) == Some(Order(col, true))
  {
    hide FieldNamed;
    NoDash(name);
  }

  lemma ColumnOrders()
    ensures ParseField("timestamp") == Some(Order(ByTimestamp, false))
    ensures ParseField("-timestamp") == Some(Order(ByTimestamp, true))
    ensures ParseField("model") == Some(Order(ByModel, false)) && ParseField("-model") == Some(Order(ByModel, true))
    ensures ParseField("engine") == Some(Order(ByEngine, false)) && ParseField("-engine") == Some(Order(ByEngine, true))
    ensures ParseField("suite_name") == Some(Order(BySuite, false))
    ensures ParseField("-suite_name") == Some(Order(BySuite, true))
    ensures ParseField("total_time_seconds") == Some(Order(ByTotalTime, false))
    ensures ParseField("-total_time_seconds") == Some(Order(ByTotalTime, true))
  {
    hide ParseField, FieldNamed;
    ColumnsKnown();
    ColumnOrder("timestamp", ByTimestamp);
    ColumnOrder("model", ByModel);
    ColumnOrder("engine", ByEngine);
    ColumnOrder("suite_name", BySuite);
    ColumnOrder("total_time_seconds", ByTotalTime);
    assert "-" + "timestamp" == "-timestamp" && "-" + "model" == "-model" && "-" + "engine" == "-engine";
    assert "-" + "suite_name" == "-suite_name" && "-" + "total_time_seconds" == "-total_time_seconds";
  }

  lemma OtherOrders()
    ensures ParseField("kitt_version") == Some(Order(ByVersion, false))
    ensures ParseField("-kitt_version") == Some(Order(ByVersion, true))
    ensures ParseField("passed") == Some(Order(ByPassed, false)) && ParseField("-passed") == Some(Order(ByPassed, true))
  {
    hide ParseField;
    FieldsKnown();
    ColumnOrder("kitt_version", ByVersion);
    ColumnOrder("passed", ByPassed);
    assert "-" + "kitt_version" == "-kitt_version" && "-" + "passed" == "-passed";
  }

  lemma ColumnsNamed()
    ensures ColumnNamed("timestamp").Some? && ColumnNamed("model").Some? && ColumnNamed("engine").Some?
    ensures ColumnNamed("suite_name").Some? && ColumnNamed("total_time_seconds").Some?
  {
  }

  lemma ColumnsKnown()
    ensures FieldNamed("timestamp") == Some(ByTimestamp) && FieldNamed("model") == Some(ByModel)
    ensures FieldNamed("engine") == Some(ByEngine) && FieldNamed("suite_name") == Some(BySuite)
    ensures FieldNamed("total_time_seconds") == Some(ByTotalTime)
  {
    assert |"timestamp"| == 9 && |"model"| == 5 && |"engine"| == 6 && |"suite_name"| == 10;
    assert |"total_time_seconds"| == 18;
  }

  lemma FieldsKnown()
    ensures FieldNamed("kitt_version") == Some(ByVersion) && FieldNamed("passed") == Some(ByPassed)
  {
    assert |"kitt_version"| == 12 && |"passed"| == 6;
    assert |"timestamp"| == 9 && |"model"| == 5 && |"engine"| == 6 && |"suite_name"| == 10;
    assert "passed"[0] != "engine"[0] && |"total_time_seconds"| == 18;
  }

  lemma SortedInOrder(orderBy: string, docs: seq<Doc>)
    requires ParseField(orderBy).Some? ==> Sorted(Less(ParseField(orderBy).value), docs)
    ensures InOrder(orderBy, docs)
  {
    hide ParseField, LexLess;
    ColumnOrders();
    forall i, j | 0 <= i < j < |docs|
      ensures ParseField(orderBy).Some? ==> !DocLess(ParseField(orderBy).value, docs[j], docs[i])
    {
    }
  }

  lemma SortedInOtherOrder(orderBy: string, docs: seq<Doc>)
    requires ParseField(orderBy).Some? ==> Sorted(Less(ParseField(orderBy).value), docs)
    ensures InOtherOrder(orderBy, docs)
  {
    hide ParseField, LexLess;
    OtherOrders();
    forall i, j | 0 <= i < j < |docs|
      ensures ParseField(orderBy).Some? ==> !DocLess(ParseField(orderBy).value, docs[j], docs[i])
    {
    }
  }

  lemma SortedSlice<T>(less: (T, T) -> bool, s: seq<T>, i: nat, j: nat)
    requires i <= j <= |s| && Sorted(less, s)
    ensures Sorted(less, s[i..j])
  {
  }

  // ----- pages -----

  /** Python's slices, by positions: a negative bound counts from the end, and bounds are cut to the length. */
  function Bound(n: nat, k: int): nat {
    if k >= 0 then (if k <= n then k else n) else if n + k >= 0 then n + k else 0
  }

  lemma SlicesExactly<T>(s: seq<T>, k: int)
    ensures SliceFrom(s, k) == s[Bound(|s|, k)..] && SliceTo(s, k) == s[..Bound(|s|, k)]
  {
    assert s[..|s|] == s && s[0..] == s && s[..0] == [] && s[|s|..] == [];
  }

  /** The JSON store's page of a list: first the offset, then the limit on what is left. */
  lemma JsonPageExactly(docs: seq<Doc>, limit: Option<int>, offset: int)
    ensures JsonPage(docs, limit, offset)
            == (var rest := docs[Bound(|docs|, offset)..];
                if limit.Some? then rest[..Bound(|rest|, limit.value)] else rest)
  {
    SlicesExactly(docs, offset);
    SlicesExactly(docs[Bound(|docs|, offset)..], limit.GetOr(0));
  }

  /** SQLite's page: no limit if it is negative, no offset if it is. */
  lemma SqlPageExactly(docs: seq<Doc>, limit: Option<int>, offset: int)
    ensures SqlPage(docs, limit, offset)
            == (var first := if offset < 0 then 0 else if offset <= |docs| then offset else |docs|;
                if limit.Some? && 0 <= limit.value <= |docs| - first then docs[first..first + limit.value]
                else docs[first..])
  {
    assert docs[0..] == docs && docs[|docs|..] == [];
  }

  // ----- which records -----

  /** What one entry of the filters asks of a record. */
  predicate Passes(d: Doc, f: Filter) {
    match f
    case PassedFilter(flag) => d.passed <==> flag
    case TextFilter(key, text) =>
      || (key == "model" && d.model == text) || (key == "engine" && d.engine == text)
      || (key == "suite_name" && d.suiteName == text) || (key == "timestamp" && d.timestamp == text)
      || (key == "kitt_version" && d.kittVersion == text)
  }

  function Passing(filters: seq<Filter>): Doc -> Option<Doc> {
    (d: Doc) => if forall i :: 0 <= i < |filters| ==> Passes(d, filters[i]) then Some(d) else None
  }

  lemma MatchesIsPasses(d: Doc, filters: seq<Filter>)
    ensures MatchesAll(d, filters) <==> forall i :: 0 <= i < |filters| ==> Passes(d, filters[i])
  {
    forall i | 0 <= i < |filters|
      ensures Matches(d, filters[i]) <==> Passes(d, filters[i])
    {
      OneTest(d, filters[i]);
    }
  }

  lemma OneTest(d: Doc, f: Filter)
    ensures Matches(d, f) <==> Passes(d, f)
  {
    assert |"model"| == 5 && |"engine"| == 6 && |"suite_name"| == 10 && |"timestamp"| == 9 && |"kitt_version"| == 12;
  }

  lemma {:induction false} SelectPicked(docs: seq<Doc>, filters: seq<Filter>)
    ensures Picked(docs, Passing(filters), Select(docs, filters))
  {
    hide Picked, MatchesAll, Passes;
    var pick := Passing(filters);
    if docs == [] {
      PickedNone(pick);
    } else {
      var first := [docs[0]];
      MatchesIsPasses(docs[0], filters);
      PickedNone(pick);
      PickedSnoc([], pick, [], docs[0]);
      assert [] + first == first && [] + One(pick(docs[0])) == One(pick(docs[0]));
      SelectPicked(docs[1..], filters);
      PickedConcat(first, docs[1..], pick, One(pick(docs[0])), Select(docs[1..], filters));
      assert docs == first + docs[1..];
    }
  }

  // ----- the JSON store -----

  /**
    The JSON store's query: the page of the records that pass all filters, in the wanted
    order; without one, in the order of the scan.
  */
  lemma JsonQueryExactly(docs: seq<Doc>, filters: seq<Filter>, orderBy: string, limit: Option<int>, offset: int)
    returns (passing: seq<Doc>, all: seq<Doc>)
    ensures Picked(docs, Passing(filters), passing)
    ensures multiset(all) == multiset(passing) && InOrder(orderBy, all) && InOtherOrder(orderBy, all)
    ensures orderBy == "" ==> all == passing
    ensures QueryDocs(docs, filters, ParseField(orderBy), limit, offset)
            == (var rest := all[Bound(|all|, offset)..];
                if limit.Some? then rest[..Bound(|rest|, limit.value)] else rest)
  {
    hide Picked, Select, InOrder, InOtherOrder, Sorted, Less, ParseField;
    passing := Select(docs, filters);
    SelectPicked(docs, filters);
    all := Arrange(passing, ParseField(orderBy));
    NoOrder();
    if ParseField(orderBy).Some? {
      var o := ParseField(orderBy).value;
      LessIsStrictOrder(o);
      SortSorts(Less(o), passing);
      SortPermutes(Less(o), passing);
    }
    SortedInOrder(orderBy, all);
    SortedInOtherOrder(orderBy, all);
    JsonPageExactly(all, limit, offset);
  }

  lemma NoOrder()
    ensures ParseField("") == None
  {
  }

  lemma {:induction false} SlicesKeepOrder(orderBy: string, docs: seq<Doc>, i: nat, j: nat)
    requires i <= j <= |docs|
    ensures InOrder(orderBy, docs) ==> InOrder(orderBy, docs[i..j])
    ensures InOtherOrder(orderBy, docs) ==> InOtherOrder(orderBy, docs[i..j])
  {
    hide MayPrecede, MayPrecedeToo;
    assert forall k :: 0 <= k < |docs[i..j]| ==> docs[i..j][k] == docs[i + k];
  }

  // ----- the SQLite store -----

  /** What SQLite's WHERE clause asks: filters on other columns are dropped, and the version's by count. */
  predicate SqlPasses(d: Doc, f: Filter, byVersion: bool) {
    match f
    case PassedFilter(flag) => d.passed <==> flag
    case TextFilter(key, text) =>
      && (key == "model" ==> d.model == text) && (key == "engine" ==> d.engine == text)
      && (key == "suite_name" ==> d.suiteName == text)
      && (key == "kitt_version" && byVersion ==> d.kittVersion == text)
  }

  function ColumnsOf(byVersion: bool): set<string> { if byVersion then QUERY_COLUMNS else COUNT_COLUMNS }

  function SqlPassing(filters: seq<Filter>, byVersion: bool): Doc -> Option<Doc> {
    (d: Doc) => if forall i :: 0 <= i < |filters| ==> SqlPasses(d, filters[i], byVersion) then Some(d) else None
  }

  lemma {:induction false} UsedIsPasses(d: Doc, filters: seq<Filter>, byVersion: bool)
    ensures MatchesAll(d, Used(filters, ColumnsOf(byVersion)))
            <==> forall i :: 0 <= i < |filters| ==> SqlPasses(d, filters[i], byVersion)
  {
    hide MatchesAll, Matches, SqlPasses, ColumnsOf;
    if filters == [] {
      NothingAsked(d);
    } else {
      var front, last := filters[..|filters| - 1], filters[|filters| - 1];
      UsedIsPasses(d, front, byVersion);
      MatchesSnoc(d, Used(front, ColumnsOf(byVersion)), last);
      OneSqlTest(d, last, byVersion);
      assert filters == front + [last];
      assert Used(front, ColumnsOf(byVersion)) + [] == Used(front, ColumnsOf(byVersion));
    }
  }

  lemma NothingAsked(d: Doc)
    ensures MatchesAll(d, [])
  {
  }

  lemma OneSqlTest(d: Doc, f: Filter, byVersion: bool)
    ensures Uses(f, ColumnsOf(byVersion)) ==> (Matches(d, f) <==> SqlPasses(d, f, byVersion))
    ensures !Uses(f, ColumnsOf(byVersion)) ==> SqlPasses(d, f, byVersion)
  {
    OneTest(d, f);
    assert |"model"| == 5 && |"engine"| == 6 && |"suite_name"| == 10 && |"kitt_version"| == 12;
  }

  lemma {:induction false} SqlSelectPicked(docs: seq<Doc>, filters: seq<Filter>, byVersion: bool)
    ensures Picked(docs, SqlPassing(filters, byVersion), Select(docs, Used(filters, ColumnsOf(byVersion))))
  {
    hide Picked, MatchesAll, SqlPasses, Used, ColumnsOf;
    var pick, used := SqlPassing(filters, byVersion), Used(filters, ColumnsOf(byVersion));
    if docs == [] {
      PickedNone(pick);
    } else {
      var first := [docs[0]];
      UsedIsPasses(docs[0], filters, byVersion);
      PickedNone(pick);
      PickedSnoc([], pick, [], docs[0]);
      assert [] + first == first && [] + One(pick(docs[0])) == One(pick(docs[0]));
      SqlSelectPicked(docs[1..], filters, byVersion);
      PickedConcat(first, docs[1..], pick, One(pick(docs[0])), Select(docs[1..], used));
      assert docs == first + docs[1..];
    }
  }

  /**
    Any answer the database may give: a page of the records that pass the filters on
    known columns, in the wanted order if the order names one of the five columns.
  */
  lemma SqlQueryExactly(es: seq<Entry>, filters: seq<Filter>, orderBy: string, limit: Option<int>, offset: int,
                        rows: seq<RunRow>)
    returns (passing: seq<Doc>, all: seq<Doc>)
    requires Answers(StatementFor(filters, orderBy, limit, offset), RunsOf(es), rows)
    ensures Picked(DocsOf(es), SqlPassing(filters, true), passing)
    ensures multiset(all) == multiset(passing) && InOrder(orderBy, all)
    ensures Raws(rows) == (var first := if offset < 0 then 0 else if offset <= |all| then offset else |all|;
                           if limit.Some? && 0 <= limit.value <= |all| - first then all[first..first + limit.value]
                           else all[first..])
  {
    hide Filtered, Select, Page, Arrangement, Picked, InOrder, Used, Less, Sorted, RowsMirror, ParseOrder, ParseField;
    var q := StatementFor(filters, orderBy, limit, offset);
    var matching := Filtered(RunsOf(es), q.conditions);
    var arranged :| Arrangement(q.order, matching, arranged) && rows == Page(arranged, q.limit, q.offset);
    WhereIsSelect(es, filters, QUERY_COLUMNS);
    passing := Select(DocsOf(es), Used(filters, QUERY_COLUMNS));
    SqlSelectPicked(DocsOf(es), filters, true);
    ArrangedBag(q.order, matching, arranged);
    RawsPermute(arranged, matching);
    all := Raws(arranged);
    SqlOrder(orderBy, matching, arranged);
    PageOnRecords(arranged, limit, offset);
    SqlPageExactly(all, limit, offset);
  }

  lemma ArrangedBag(order: Option<Order>, rows: seq<RunRow>, arranged: seq<RunRow>)
    requires Arrangement(order, rows, arranged)
    ensures multiset(arranged) == multiset(rows)
  {
  }

  lemma SqlOrder(orderBy: string, rows: seq<RunRow>, arranged: seq<RunRow>)
    requires RowsMirror(rows) && Arrangement(ParseOrder(orderBy), rows, arranged)
    ensures InOrder(orderBy, Raws(arranged))
  {
    hide RowsMirror, Arrangement, InOrder, Sorted, Less;
    if ParseOrder(orderBy).Some? {
      SameOrder(orderBy);
      RawsAscend(ParseOrder(orderBy).value, rows, arranged);
      SortedInOrder(orderBy, Raws(arranged));
    } else {
      NotAColumn(orderBy, Raws(arranged));
    }
  }

  lemma NotAColumn(orderBy: string, docs: seq<Doc>)
    requires ParseOrder(orderBy).None?
    ensures InOrder(orderBy, docs)
  {
    hide LexLess;
    ColumnNames(orderBy);
  }

  lemma ColumnNames(orderBy: string)
    requires ParseOrder(orderBy).None?
    ensures orderBy !in {"timestamp", "model", "engine", "suite_name", "total_time_seconds"}
    ensures orderBy !in {"-timestamp", "-model", "-engine", "-suite_name", "-total_time_seconds"}
  {
    hide StripDashes, ColumnNamed;
    ColumnsNamed();
    NoDash("timestamp");
    NoDash("model");
    NoDash("engine");
    NoDash("suite_name");
    NoDash("total_time_seconds");
    assert "-" + "timestamp" == "-timestamp" && "-" + "model" == "-model" && "-" + "engine" == "-engine";
    assert "-" + "suite_name" == "-suite_name" && "-" + "total_time_seconds" == "-total_time_seconds";
  }

  /** Whatever page it is, the database's answer is in the wanted order. */
  lemma SqlAnswerInOrder(es: seq<Entry>, filters: seq<Filter>, orderBy: string, limit: Option<int>, offset: int,
                         rows: seq<RunRow>)
    requires Answers(StatementFor(filters, orderBy, limit, offset), RunsOf(es), rows)
    ensures InOrder(orderBy, Raws(rows))
  {
    hide InOrder, InOtherOrder, Answers, Picked, Raws, StatementFor, RunsOf;
    var passing, all := SqlQueryExactly(es, filters, orderBy, limit, offset, rows);
    var first := if offset < 0 then 0 else if offset <= |all| then offset else |all|;
    var end := if limit.Some? && 0 <= limit.value <= |all| - first then first + limit.value else |all|;
    SlicesKeepOrder(orderBy, all, first, end);
    assert all[first..|all|] == all[first..];
  }

  /** So is the JSON store's. */
  lemma JsonAnswerInOrder(docs: seq<Doc>, filters: seq<Filter>, orderBy: string, limit: Option<int>, offset: int)
    ensures var answer := QueryDocs(docs, filters, ParseField(orderBy), limit, offset);
      InOrder(orderBy, answer) && InOtherOrder(orderBy, answer)
  {
    hide InOrder, InOtherOrder, QueryDocs, Picked, ParseField;
    var passing, all := JsonQueryExactly(docs, filters, orderBy, limit, offset);
    var from := Bound(|all|, offset);
    var rest := all[from..];
    var to := if limit.Some? then Bound(|rest|, limit.value) else |rest|;
    SlicesKeepOrder(orderBy, all, from, from + to);
    assert all[from..from + to] == rest[..to] && rest[..|rest|] == rest;
  }

  // ----- count -----

  /** How many records each store counts. */
  lemma CountsExactly(es: seq<Entry>, docs: seq<Doc>, filters: seq<Filter>)
    ensures |Select(docs, filters)| == |PickedPositions(docs, Passing(filters))|
    ensures |Filtered(RunsOf(es), ConditionsFor(filters, COUNT_COLUMNS))|
            == |PickedPositions(DocsOf(es), SqlPassing(filters, false))|
  {
    hide Filtered, Select, Picked, PickedPositions;
    SelectPicked(docs, filters);
    PickedCount(docs, Passing(filters), Select(docs, filters));
    WhereIsSelect(es, filters, COUNT_COLUMNS);
    SqlSelectPicked(DocsOf(es), filters, false);
    PickedCount(DocsOf(es), SqlPassing(filters, false), Select(DocsOf(es), Used(filters, COUNT_COLUMNS)));
  }
}

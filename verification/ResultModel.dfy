/**
  Complete benchmark records, and what the store interface
  (src/kitt/storage/base.py) asks of them.
*/
module ResultModel {
  import opened Basics
  import opened Sorting

  datatype MetricValue = Number(value: real) | Other

  /** A Python dict of metrics: names are distinct, insertion order is kept. */
  type Metrics = ms: seq<(string, MetricValue)> | MetricNamesDistinct(ms) witness []

  ghost predicate MetricNamesDistinct(ms: seq<(string, MetricValue)>) {
    forall i, j :: 0 <= i < j < |ms| ==> ms[i].0 != ms[j].0
  }

  datatype Bench = Bench(testName: string, passed: bool, metrics: Metrics)

  /** `systemInfo` is the hardware description, if it is present and not empty, as one opaque text. */
  datatype Doc = Doc(model: string, engine: string, suiteName: string, timestamp: string, passed: bool,
                     totalTimeSeconds: real, kittVersion: string, results: seq<Bench>, systemInfo: Option<string>)

  // ----- fields -----

  /** `r.get(key)` for the text fields of a record. */
  function TextField(d: Doc, key: string): Option<string> {
    if key == "model" then Some(d.model)
    else if key == "engine" then Some(d.engine)
    else if key == "suite_name" then Some(d.suiteName)
    else if key == "timestamp" then Some(d.timestamp)
    else if key == "kitt_version" then Some(d.kittVersion)
    else None
  }

  /** One entry of the filters dict: `passed` takes a bool, every other key a text. */
  datatype Filter = TextFilter(key: string, text: string) | PassedFilter(flag: bool)

  predicate Matches(d: Doc, f: Filter) {
    match f
    case TextFilter(key, text) => TextField(d, key) == Some(text)
    case PassedFilter(flag) => d.passed == flag
  }

  predicate MatchesAll(d: Doc, filters: seq<Filter>) {
    forall i :: 0 <= i < |filters| ==> Matches(d, filters[i])
  }

  /** The interface promises exact matching on these keys (and `passed`). */
  predicate SupportedKey(key: string) {
    key == "model" || key == "engine" || key == "suite_name"
  }

  predicate Supported(f: Filter) {
    f.PassedFilter? || SupportedKey(f.key)
  }

  function Select(docs: seq<Doc>, filters: seq<Filter>): seq<Doc> {
    if docs == [] then []
    else (if MatchesAll(docs[0], filters) then [docs[0]] else []) + Select(docs[1..], filters)
  }

  // ----- order_by -----

  datatype SortKey = TextKey(text: string) | NumberKey(number: real)

  datatype OrderColumn = ByTimestamp | ByModel | ByEngine | ByTotalTime | BySuite | ByVersion | ByPassed | ByAbsent

  datatype Order = Order(column: OrderColumn, desc: bool)

  /** The columns SQLite sorts by. */
  function ColumnNamed(name: string): Option<OrderColumn> {
    if name == "timestamp" then Some(ByTimestamp)
    else if name == "model" then Some(ByModel)
    else if name == "engine" then Some(ByEngine)
    else if name == "total_time_seconds" then Some(ByTotalTime)
    else if name == "suite_name" then Some(BySuite)
    else None
  }

  /** The JSON store's `r.get(key, "")`: any field with comparable values, and the empty text for an absent one. */
  function FieldNamed(name: string): Option<OrderColumn> {
    if ColumnNamed(name).Some? then ColumnNamed(name)
    else if name == "kitt_version" then Some(ByVersion)
    else if name == "passed" then Some(ByPassed)
    else if name == "results" || name == "system_info" || name == "_id" || name == "_source_path" then None
    else Some(ByAbsent)
  }

  /** `order_by.lstrip("-")` */
  function StripDashes(s: string): string {
    if s != "" && s[0] == '-' then StripDashes(s[1..]) else s
  }

  function ParseOrder(orderBy: string): Option<Order> {
    match ColumnNamed(StripDashes(orderBy))
    case None => None
    case Some(col) => Some(Order(col, orderBy[0] == '-'))
  }

  /** How the JSON store reads order_by. */
  function ParseField(orderBy: string): Option<Order> {
    if orderBy == "" then None
    else
      match FieldNamed(StripDashes(orderBy))
      case None => None
      case Some(col) => Some(Order(col, orderBy[0] == '-'))
  }

  lemma SameOrder(orderBy: string)
    requires ParseOrder(orderBy).Some?
    ensures ParseField(orderBy) == ParseOrder(orderBy)
  {
  }

  function KeyOf(d: Doc, col: OrderColumn): SortKey {
    match col
    case ByTimestamp => TextKey(d.timestamp)
    case ByModel => TextKey(d.model)
    case ByEngine => TextKey(d.engine)
    case ByTotalTime => NumberKey(d.totalTimeSeconds)
    case BySuite => TextKey(d.suiteName)
    case ByVersion => TextKey(d.kittVersion)
    case ByPassed => NumberKey(if d.passed then 1.0 else 0.0)
    case ByAbsent => TextKey("")
  }

  predicate KeyLess(a: SortKey, b: SortKey) {
    match (a, b)
    case (TextKey(s), TextKey(t)) => LexLess(s, t)
    case (NumberKey(x), NumberKey(y)) => x < y
    case (TextKey(_), NumberKey(_)) => true
    case (NumberKey(_), TextKey(_)) => false
  }

  predicate DocLess(o: Order, a: Doc, b: Doc) {
    if o.desc then KeyLess(KeyOf(b, o.column), KeyOf(a, o.column)) else KeyLess(KeyOf(a, o.column), KeyOf(b, o.column))
  }

  function Less(o: Order): (Doc, Doc) -> bool {
    (a, b) => DocLess(o, a, b)
  }

  lemma KeyOrder()
    ensures StrictOrder(KeyLess)
    ensures forall a, b :: a == b || KeyLess(a, b) || KeyLess(b, a)
  {
    forall a: SortKey, b: SortKey
      ensures a == b || KeyLess(a, b) || KeyLess(b, a)
      ensures !(KeyLess(a, b) && KeyLess(b, a)) && !KeyLess(a, a)
    {
      if a.TextKey? {
        LexTotal(a.text, a.text);
        if b.TextKey? {
          LexTotal(a.text, b.text);
        }
      }
    }
    forall a: SortKey, b: SortKey, c: SortKey
      ensures KeyLess(a, b) && KeyLess(b, c) ==> KeyLess(a, c)
    {
      if KeyLess(a, b) && KeyLess(b, c) && a.TextKey? && b.TextKey? && c.TextKey? {
        LexTransitive(a.text, b.text, c.text);
      }
    }
    forall a: SortKey, b: SortKey, c: SortKey
      ensures KeyLess(a, c) ==> KeyLess(a, b) || KeyLess(b, c)
    {
      assert a == b || KeyLess(a, b) || KeyLess(b, a);
    }
  }

  lemma LessIsStrictOrder(o: Order)
    ensures StrictOrder(Less(o))
  {
    KeyOrder();
  }

  /** No two of the records share a sort key. */
  ghost predicate DistinctKeys(docs: seq<Doc>, col: OrderColumn) {
    forall i, j :: 0 <= i < j < |docs| ==> KeyOf(docs[i], col) != KeyOf(docs[j], col)
  }

  lemma DistinctKeysRank(docs: seq<Doc>, o: Order)
    requires DistinctKeys(docs, o.column)
    ensures DistinctRanks(Less(o), docs)
  {
    KeyOrder();
  }

  // ----- the abstract query -----

  /** Records in the wanted order, if any. */
  function Arrange(docs: seq<Doc>, order: Option<Order>): seq<Doc> {
    match order
    case None => docs
    case Some(o) => Sort(Less(o), docs)
  }

  /** What query means: take(limit, drop(offset, sort(filter))). */
  function Answer(docs: seq<Doc>, filters: seq<Filter>, order: Option<Order>, limit: Option<nat>,
                  offset: nat): seq<Doc> {
    var rest := Drop(Arrange(Select(docs, filters), order), offset);
    if limit.Some? then Take(rest, limit.value) else rest
  }

  lemma {:induction false} SelectConcat(a: seq<Doc>, b: seq<Doc>, filters: seq<Filter>)
    ensures Select(a + b, filters) == Select(a, filters) + Select(b, filters)
  {
    hide MatchesAll;
    if a == [] {
      assert a + b == b;
    } else {
      var first := if MatchesAll(a[0], filters) then [a[0]] else [];
      assert (a + b)[1..] == a[1..] + b;
      SelectConcat(a[1..], b, filters);
      assert Select(a + b, filters) == first + Select(a[1..] + b, filters)
             && Select(a, filters) == first + Select(a[1..], filters);
    }
  }

  /** Filtering equal bags gives equal bags. */
  lemma {:induction false} SelectPermutes(a: seq<Doc>, b: seq<Doc>, filters: seq<Filter>)
    requires multiset(a) == multiset(b)
    ensures multiset(Select(a, filters)) == multiset(Select(b, filters))
  {
    assert |multiset(a)| == |a| && |multiset(b)| == |b|;
    if a != [] {
      assert a[0] in multiset(b);
      var j :| 0 <= j < |b| && b[j] == a[0];
      WithoutMultiset(b, j);
      TailMultiset(a);
      SelectPermutes(a[1..], Without(b, j), filters);
      SelectWithout(b, j, filters);
    }
  }

  lemma SelectWithout(b: seq<Doc>, j: nat, filters: seq<Filter>)
    requires j < |b|
    ensures multiset(Select(b, filters))
            == multiset(Select(Without(b, j), filters))
              + (if MatchesAll(b[j], filters) then multiset{b[j]} else multiset{})
  {
    assert b == b[..j] + b[j..] && b[j..][1..] == b[j + 1..];
    SelectConcat(b[..j], b[j..], filters);
    SelectConcat(b[..j], b[j + 1..], filters);
  }

  // ----- aggregation -----

  datatype GroupColumn =
    GroupModel | GroupEngine | GroupSuite | GroupVersion | GroupTimestamp | GroupPassed | GroupAbsent

  /** The columns SQLite groups by. */
  function GroupNamed(name: string): Option<GroupColumn> {
    if name == "model" then Some(GroupModel)
    else if name == "engine" then Some(GroupEngine)
    else if name == "suite_name" then Some(GroupSuite)
    else None
  }

  /** The JSON store's `str(r.get(group_by, "unknown"))`, for fields that are texts, flags or absent. */
  function GroupField(name: string): Option<GroupColumn> {
    if GroupNamed(name).Some? then GroupNamed(name)
    else if name == "kitt_version" then Some(GroupVersion)
    else if name == "timestamp" then Some(GroupTimestamp)
    else if name == "passed" then Some(GroupPassed)
    else if name in {"total_time_seconds", "results", "system_info", "_id", "_source_path"} then None
    else Some(GroupAbsent)
  }

  function GroupOf(d: Doc, col: GroupColumn): string {
    match col
    case GroupModel => d.model
    case GroupEngine => d.engine
    case GroupSuite => d.suiteName
    case GroupVersion => d.kittVersion
    case GroupTimestamp => d.timestamp
    case GroupPassed => if d.passed then "True" else "False"
    case GroupAbsent => "unknown"
  }

  /** `bench_metrics.get(m)` when it is a number. */
  function Sample(ms: seq<(string, MetricValue)>, m: string): Option<real> {
    if ms == [] then None
    else if ms[0].0 == m then (if ms[0].1.Number? then Some(ms[0].1.value) else None)
    else Sample(ms[1..], m)
  }

  /** All samples of a metric in one record, in order. */
  function BenchSamples(benches: seq<Bench>, m: string): seq<real> {
    if benches == [] then []
    else BenchSamples(benches[..|benches| - 1], m)
         + (match Sample(benches[|benches| - 1].metrics, m) case Some(v) => [v] case None => [])
  }

  /** All samples of a metric over the records of one group, in order. */
  function GroupSamples(docs: seq<Doc>, col: GroupColumn, g: string, m: string): seq<real> {
    if docs == [] then []
    else GroupSamples(docs[..|docs| - 1], col, g, m)
         + (if GroupOf(docs[|docs| - 1], col) == g then BenchSamples(docs[|docs| - 1].results, m) else [])
  }

  function GroupSize(docs: seq<Doc>, col: GroupColumn, g: string): nat {
    if docs == [] then 0
    else GroupSize(docs[..|docs| - 1], col, g) + (if GroupOf(docs[|docs| - 1], col) == g then 1 else 0)
  }

  function Average(s: seq<real>): real
    requires s != []
  {
    Sum(s) / (|s| as real)
  }

  function AverageOf(s: seq<real>): Option<real> {
    if s == [] then None else Some(Average(s))
  }

  /** A record's share in its group's sum of samples, number of samples, and size. */
  function SumShare(col: GroupColumn, g: string, m: string): Doc -> real {
    d => if GroupOf(d, col) == g then Sum(BenchSamples(d.results, m)) else 0.0
  }

  function CountShare(col: GroupColumn, g: string, m: string): Doc -> real {
    d => if GroupOf(d, col) == g then |BenchSamples(d.results, m)| as real else 0.0
  }

  function SizeShare(col: GroupColumn, g: string): Doc -> real {
    d => if GroupOf(d, col) == g then 1.0 else 0.0
  }

  lemma TotalSnoc<T>(s: seq<T>, w: T -> real)
    requires s != []
    ensures Total(s, w) == Total(s[..|s| - 1], w) + w(s[|s| - 1])
  {
    var front, last := s[..|s| - 1], [s[|s| - 1]];
    assert s == front + last && last[1..] == [];
    TotalConcat(front, last, w);
  }

  lemma {:induction false} SumIsTotal(docs: seq<Doc>, col: GroupColumn, g: string, m: string)
    ensures Sum(GroupSamples(docs, col, g, m)) == Total(docs, SumShare(col, g, m))
  {
    if docs != [] {
      var front, last := docs[..|docs| - 1], docs[|docs| - 1];
      SumIsTotal(front, col, g, m);
      TotalSnoc(docs, SumShare(col, g, m));
      var before := GroupSamples(front, col, g, m);
      if GroupOf(last, col) == g {
        TotalConcat(before, BenchSamples(last.results, m), Itself());
      } else {
        assert before + [] == before;
      }
    }
  }

  lemma {:induction false} CountIsTotal(docs: seq<Doc>, col: GroupColumn, g: string, m: string)
    ensures |GroupSamples(docs, col, g, m)| as real == Total(docs, CountShare(col, g, m))
  {
    if docs != [] {
      CountIsTotal(docs[..|docs| - 1], col, g, m);
      TotalSnoc(docs, CountShare(col, g, m));
    }
  }

  lemma {:induction false} SizeIsTotal(docs: seq<Doc>, col: GroupColumn, g: string)
    ensures GroupSize(docs, col, g) as real == Total(docs, SizeShare(col, g))
  {
    if docs != [] {
      SizeIsTotal(docs[..|docs| - 1], col, g);
      TotalSnoc(docs, SizeShare(col, g));
    }
  }

  /** Group sizes and averages depend only on which records are stored, not on their order. */
  lemma AggregatePermutes(a: seq<Doc>, b: seq<Doc>, col: GroupColumn, g: string, m: string)
    requires multiset(a) == multiset(b)
    ensures GroupSize(a, col, g) == GroupSize(b, col, g)
    ensures AverageOf(GroupSamples(a, col, g, m)) == AverageOf(GroupSamples(b, col, g, m))
  {
    SumIsTotal(a, col, g, m);
    SumIsTotal(b, col, g, m);
    CountIsTotal(a, col, g, m);
    CountIsTotal(b, col, g, m);
    SizeIsTotal(a, col, g);
    SizeIsTotal(b, col, g);
    TotalPermutes(a, b, SumShare(col, g, m));
    TotalPermutes(a, b, CountShare(col, g, m));
    TotalPermutes(a, b, SizeShare(col, g));
  }
}

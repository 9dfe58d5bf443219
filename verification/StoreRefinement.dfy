/** Queries, counts, paging and the life of records, across both stores. */
module StoreRefinement {
  import opened Basics
  import opened Sorting
  import opened ResultModel
  import opened SqliteTables
  import opened SqliteStore
  import opened JsonStore

  // ----- the WHERE clause -----

  predicate Uses(f: Filter, allowed: set<string>) {
    f.PassedFilter? || f.key in allowed
  }

  /** The filters that a statement with these allowed columns uses. */
  function Used(filters: seq<Filter>, allowed: set<string>): seq<Filter> {
    if filters == [] then []
    else Used(filters[..|filters| - 1], allowed)
         + (if Uses(filters[|filters| - 1], allowed) then [filters[|filters| - 1]] else [])
  }

  lemma HoldsSnoc(r: RunRow, cs: seq<Condition>, c: Condition)
    ensures HoldsAll(r, cs + [c]) <==> HoldsAll(r, cs) && Holds(r, c)
  {
    assert (cs + [c])[|cs|] == c && forall i :: 0 <= i < |cs| ==> (cs + [c])[i] == cs[i];
    if HoldsAll(r, cs + [c]) {
      assert forall i :: 0 <= i < |cs| ==> Holds(r, (cs + [c])[i]);
    }
  }

  lemma MatchesSnoc(d: Doc, filters: seq<Filter>, f: Filter)
    ensures MatchesAll(d, filters + [f]) <==> MatchesAll(d, filters) && Matches(d, f)
  {
    assert (filters + [f])[|filters|] == f && forall i :: 0 <= i < |filters| ==> (filters + [f])[i] == filters[i];
    if MatchesAll(d, filters + [f]) {
      assert forall i :: 0 <= i < |filters| ==> Matches(d, (filters + [f])[i]);
    }
  }

  lemma {:induction false} ConditionsTest(filters: seq<Filter>, allowed: set<string>, id: string, d: Doc)
    requires allowed <= QUERY_COLUMNS
    ensures HoldsAll(RowFor(id, d), ConditionsFor(filters, allowed)) <==> MatchesAll(d, Used(filters, allowed))
  {
    hide HoldsAll, MatchesAll;
    if filters == [] {
      assert HoldsAll(RowFor(id, d), []) && MatchesAll(d, []) by { EmptyTests(RowFor(id, d), d); }
    } else {
      var front, last := filters[..|filters| - 1], filters[|filters| - 1];
      ConditionsTest(front, allowed, id, d);
      MatchesSnoc(d, Used(front, allowed), last);
      match last
      case PassedFilter(flag) =>
        HoldsSnoc(RowFor(id, d), ConditionsFor(front, allowed), PassedEquals(AsInt(flag)));
      case TextFilter(key, text) =>
        HoldsSnoc(RowFor(id, d), ConditionsFor(front, allowed), TextEquals(key, text));
        assert key in allowed ==> key in QUERY_COLUMNS;
        assert ConditionsFor(front, allowed) + [] == ConditionsFor(front, allowed);
        assert Used(front, allowed) + [] == Used(front, allowed);
    }
  }

  lemma EmptyTests(r: RunRow, d: Doc)
    ensures HoldsAll(r, []) && MatchesAll(d, [])
  {
  }

  /** On records, a WHERE clause selects what its used filters select. */
  lemma WhereIsSelect(es: seq<Entry>, filters: seq<Filter>, allowed: set<string>)
    requires allowed <= QUERY_COLUMNS
    ensures Raws(RunsOf(es)) == DocsOf(es) && RowsMirror(RunsOf(es))
    ensures var rows := Filtered(RunsOf(es), ConditionsFor(filters, allowed));
      Raws(rows) == Select(DocsOf(es), Used(filters, allowed)) && RowsMirror(rows)
  {
    hide HoldsAll, MatchesAll;
    forall id, d
      ensures HoldsAll(RowFor(id, d), ConditionsFor(filters, allowed)) <==> MatchesAll(d, Used(filters, allowed))
    {
      ConditionsTest(filters, allowed, id, d);
    }
    FilteredIsSelect(RunsOf(es), ConditionsFor(filters, allowed), Used(filters, allowed));
  }

  ghost predicate AllSupported(filters: seq<Filter>) {
    forall i :: 0 <= i < |filters| ==> Supported(filters[i])
  }

  lemma {:induction false} SupportedAreUsed(filters: seq<Filter>, allowed: set<string>)
    requires AllSupported(filters) && COUNT_COLUMNS <= allowed
    ensures Used(filters, allowed) == filters
  {
    if filters != [] {
      var front, last := filters[..|filters| - 1], filters[|filters| - 1];
      SupportedAreUsed(front, allowed);
      assert Supported(last) && filters == front + [last];
    }
  }

  // ----- paging -----

  /** LIMIT and OFFSET on records. */
  function SqlPage(docs: seq<Doc>, limit: Option<int>, offset: int): seq<Doc> {
    var rest := if offset > 0 then Drop(docs, offset) else docs;
    if limit.Some? && limit.value >= 0 then Take(rest, limit.value) else rest
  }

  /** Slicing as the JSON store does it. */
  function JsonPage(docs: seq<Doc>, limit: Option<int>, offset: int): seq<Doc> {
    var rest := SliceFrom(docs, offset);
    if limit.Some? then SliceTo(rest, limit.value) else rest
  }

  lemma PageOnRecords(rows: seq<RunRow>, limit: Option<int>, offset: int)
    ensures Raws(Page(rows, LimitFor(limit, offset), if offset > 0 then Some(offset) else None))
            == SqlPage(Raws(rows), limit, offset)
  {
  }

  /** When the two ways of paging agree, for every limit and offset a caller can pass. */
  predicate PagesAlike(docs: seq<Doc>, limit: Option<int>, offset: int) {
    if offset >= 0 then limit.None? || limit.value >= 0 || |docs| <= offset
    else if limit.None? then |docs| <= -offset
    else if limit.value < 0 then docs == []
    else
      || |docs| <= -offset || limit.value == 0
      || (limit.value <= -offset && docs[..limit.value] == docs[|docs| + offset..][..limit.value])
  }

  /**
    The two ways of paging agree for a non-negative offset exactly when the limit is
    absent or non-negative, or nothing is left after the offset. A negative offset
    counts from the end in one store and is ignored in the other: they agree exactly
    when it reaches past the first record, or no record is wanted, or the wanted first
    records happen to be repeated at that distance from the end.
  */
  lemma PagingAgreesExactly(docs: seq<Doc>, limit: Option<int>, offset: int)
    ensures SqlPage(docs, limit, offset) == JsonPage(docs, limit, offset) <==> PagesAlike(docs, limit, offset)
  {
    var sql, json := SqlPage(docs, limit, offset), JsonPage(docs, limit, offset);
    if offset >= 0 {
      assert limit.Some? && limit.value < 0 && |docs| > offset ==> |json| < |sql|;
    } else if |docs| > -offset {
      var last := docs[|docs| + offset..];
      assert SliceFrom(docs, offset) == last;
      if limit.Some? && limit.value >= 0 {
        assert limit.value > -offset ==> |json| < |sql|;
      } else {
        assert |json| < |sql|;
      }
    }
  }

  /** Every answer the database may give is take(limit, drop(offset, sort(filter))). */
  lemma SqlQueryMeaning(es: seq<Entry>, filters: seq<Filter>, orderBy: string, limit: Option<int>, offset: int,
                        rows: seq<RunRow>)
    requires Answers(StatementFor(filters, orderBy, limit, offset), RunsOf(es), rows)
    requires AllSupported(filters) && ParseOrder(orderBy).Some?
    requires DistinctKeys(Select(DocsOf(es), filters), ParseOrder(orderBy).value.column)
    ensures Raws(rows) == SqlPage(Arrange(Select(DocsOf(es), filters), ParseOrder(orderBy)), limit, offset)
  {
    hide Filtered, Select, Page, Arrangement, DistinctKeys;
    var q, o := StatementFor(filters, orderBy, limit, offset), ParseOrder(orderBy).value;
    var matching := Filtered(RunsOf(es), q.conditions);
    var arranged :| Arrangement(q.order, matching, arranged) && rows == Page(arranged, q.limit, q.offset);
    WhereIsSelect(es, filters, QUERY_COLUMNS);
    SupportedAreUsed(filters, QUERY_COLUMNS);
    ArrangementIsSort(o, matching, arranged);
    PageOnRecords(arranged, limit, offset);
  }

  lemma SortPermuted(o: Order, a: seq<Doc>, b: seq<Doc>)
    requires multiset(a) == multiset(b) && DistinctKeys(a, o.column)
    ensures Sort(Less(o), a) == Sort(Less(o), b)
  {
    LessIsStrictOrder(o);
    SortSorts(Less(o), a);
    SortSorts(Less(o), b);
    SortPermutes(Less(o), a);
    SortPermutes(Less(o), b);
    DistinctKeysRank(a, o);
    SortDistinct(Less(o), a);
    SortedIsUnique(Less(o), Sort(Less(o), a), Sort(Less(o), b));
  }

  /**
    Over the same bag of records, with supported filters, a known sort column whose
    keys are distinct, and non-negative limit and offset, both stores answer a query
    with the same records in the same order, and that answer is the abstract one.
  */
  lemma QueriesAgree(es: seq<Entry>, docs: seq<Doc>, filters: seq<Filter>, orderBy: string, limit: Option<nat>,
                     offset: nat, rows: seq<RunRow>)
    requires multiset(DocsOf(es)) == multiset(docs)
    requires AllSupported(filters) && ParseOrder(orderBy).Some?
    requires DistinctKeys(Select(DocsOf(es), filters), ParseOrder(orderBy).value.column)
    requires Answers(StatementFor(filters, orderBy, limit, offset), RunsOf(es), rows)
    ensures Raws(rows) == QueryDocs(docs, filters, ParseField(orderBy), limit, offset)
            == Answer(DocsOf(es), filters, ParseOrder(orderBy), limit, offset)
  {
    hide Select, Answers, DistinctKeys, ParseOrder, ParseField;
    var order := ParseOrder(orderBy);
    SameOrder(orderBy);
    SqlQueryMeaning(es, filters, orderBy, limit, offset, rows);
    SelectPermutes(DocsOf(es), docs, filters);
    SortPermuted(order.value, Select(DocsOf(es), filters), Select(docs, filters));
    PagingAgreesExactly(Arrange(Select(docs, filters), order), limit, offset);
  }

  ghost predicate AllEqual(docs: seq<Doc>) {
    forall x, y :: x in docs && y in docs ==> x == y
  }

  lemma EqualOrPermuted(a: seq<Doc>, b: seq<Doc>)
    requires multiset(a) == multiset(b) && AllEqual(a)
    ensures a == b
  {
    assert |multiset(a)| == |a| && |multiset(b)| == |b|;
    forall i | 0 <= i < |a|
      ensures a[i] == b[i]
    {
      assert b[i] in multiset(b) && b[i] in multiset(a);
      assert b[i] in a && a[i] in a;
    }
  }

  /** Without a known sort column every order of the matching rows is a legal answer, and nothing else is. */
  lemma UnsortedAnswers(es: seq<Entry>, filters: seq<Filter>, orderBy: string, rows: seq<RunRow>)
    requires ParseOrder(orderBy).None?
    ensures Answers(StatementFor(filters, orderBy, None, 0), RunsOf(es), rows)
            <==> multiset(rows) == multiset(Filtered(RunsOf(es), ConditionsFor(filters, QUERY_COLUMNS)))
  {
    hide Filtered, ConditionsFor, RunsOf;
    var q := StatementFor(filters, orderBy, None, 0);
    assert Page(rows, q.limit, q.offset) == rows;
    if multiset(rows) == multiset(Filtered(RunsOf(es), q.conditions)) {
      assert Arrangement(q.order, Filtered(RunsOf(es), q.conditions), rows);
    }
  }

  lemma JsonAnswerBag(docs: seq<Doc>, filters: seq<Filter>, order: Option<Order>)
    ensures multiset(QueryDocs(docs, filters, order, None, 0)) == multiset(Select(docs, filters))
  {
    hide Select, Sort;
    if order.Some? {
      SortPermutes(Less(order.value), Select(docs, filters));
    }
  }

  /** Two differing rows can be answered in either order. */
  lemma SwappedRows(rows: seq<RunRow>, i: nat, j: nat) returns (other: seq<RunRow>)
    requires i < |rows| && j < |rows| && rows[i].rawJson != rows[j].rawJson
    ensures multiset(other) == multiset(rows) && Raws(other) != Raws(rows)
  {
    other := rows[i := rows[j]][j := rows[i]];
    assert Raws(other)[i] == rows[j].rawJson && Raws(rows)[i] == rows[i].rawJson;
  }

  /**
    An order_by that is empty or names no sort column, such as `kitt_version`: SQLite
    drops it without a word, while the JSON store sorts by any field. Both answer with
    the same records, but whatever legal order the database picks is the JSON store's
    order exactly when all matching records are equal.
  */
  lemma UnsortedQueriesAgreeExactly(es: seq<Entry>, docs: seq<Doc>, filters: seq<Filter>, orderBy: string)
    requires multiset(DocsOf(es)) == multiset(docs) && AllSupported(filters) && ParseOrder(orderBy).None?
    ensures var q := StatementFor(filters, orderBy, None, 0);
      var json := QueryDocs(docs, filters, ParseField(orderBy), None, 0);
      && (forall rows :: Answers(q, RunsOf(es), rows) ==> multiset(Raws(rows)) == multiset(json))
      && ((forall rows :: Answers(q, RunsOf(es), rows) ==> Raws(rows) == json) <==> AllEqual(Select(docs, filters)))
  {
    hide Filtered, Select, Answers, RunsOf, DocsOf, QueryDocs, ParseField, ParseOrder, AllSupported, ConditionsFor;
    hide Raws;
    hide RowsMirror, AllEqual, StatementFor;
    var q, json := StatementFor(filters, orderBy, None, 0), QueryDocs(docs, filters, ParseField(orderBy), None, 0);
    var rows := Filtered(RunsOf(es), ConditionsFor(filters, QUERY_COLUMNS));
    WhereIsSelect(es, filters, QUERY_COLUMNS);
    SupportedAreUsed(filters, QUERY_COLUMNS);
    SelectPermutes(DocsOf(es), docs, filters);
    JsonAnswerBag(docs, filters, ParseField(orderBy));
    forall other | Answers(q, RunsOf(es), other)
      ensures multiset(Raws(other)) == multiset(json)
      ensures AllEqual(Select(docs, filters)) ==> Raws(other) == json
    {
      UnsortedAnswers(es, filters, orderBy, other);
      RawsPermute(other, rows);
      if AllEqual(Select(docs, filters)) {
        EqualOrPermuted(Select(docs, filters), Raws(other));
        EqualOrPermuted(Select(docs, filters), json);
      }
    }
    if !AllEqual(Select(docs, filters)) {
      var other := AnotherOrder(rows, Select(docs, filters));
      UnsortedAnswers(es, filters, orderBy, rows);
      UnsortedAnswers(es, filters, orderBy, other);
    }
  }

  lemma AnotherOrder(rows: seq<RunRow>, docs: seq<Doc>) returns (other: seq<RunRow>)
    requires multiset(Raws(rows)) == multiset(docs) && !AllEqual(docs)
    ensures multiset(other) == multiset(rows) && Raws(other) != Raws(rows)
  {
    var x, y :| x in docs && y in docs && x != y;
    assert x in multiset(Raws(rows)) && y in multiset(Raws(rows));
    var i :| 0 <= i < |rows| && Raws(rows)[i] == x;
    var j :| 0 <= j < |rows| && Raws(rows)[j] == y;
    other := SwappedRows(rows, i, j);
  }

  /** The first k pages of size p, one after another. */
  function Pages(docs: seq<Doc>, filters: seq<Filter>, order: Option<Order>, p: nat, k: nat): seq<Doc> {
    if k == 0 then [] else Pages(docs, filters, order, p, k - 1) + Answer(docs, filters, order, Some(p), (k - 1) * p)
  }

  lemma {:induction false} FirstPages(docs: seq<Doc>, filters: seq<Filter>, order: Option<Order>, p: nat, k: nat)
    ensures Pages(docs, filters, order, p, k) == Take(Answer(docs, filters, order, None, 0), k * p)
  {
    hide Arrange, Select;
    var all := Arrange(Select(docs, filters), order);
    if k == 0 {
      assert 0 * p == 0;
    } else {
      FirstPages(docs, filters, order, p, k - 1);
      assert k * p == (k - 1) * p + p;
      TakeMore(all, (k - 1) * p, p);
    }
  }

  lemma TakeMore(all: seq<Doc>, n: nat, p: nat)
    ensures Take(all, n) + Take(Drop(all, n), p) == Take(all, n + p)
  {
    if n <= |all| && p <= |all| - n {
      var more := all[..n + p];
      assert more == more[..n] + more[n..] && more[..n] == all[..n] && more[n..] == all[n..][..p];
    }
  }

  /** Consecutive pages concatenate to the full answer, without gap or repetition. */
  lemma {:induction false} PagesConcatenate(docs: seq<Doc>, filters: seq<Filter>, order: Option<Order>, p: nat, k: nat)
    requires k * p >= |Answer(docs, filters, order, None, 0)|
    ensures Pages(docs, filters, order, p, k) == Answer(docs, filters, order, None, 0)
  {
    FirstPages(docs, filters, order, p, k);
  }

  // ----- count -----

  lemma {:induction false} SelectAllMatch(docs: seq<Doc>, wide: seq<Filter>, narrow: seq<Filter>)
    requires forall d :: d in docs && MatchesAll(d, narrow) ==> MatchesAll(d, wide)
    ensures |Select(docs, wide)| >= |Select(docs, narrow)|
    ensures |Select(docs, wide)| == |Select(docs, narrow)| <==>
            forall d :: d in docs && MatchesAll(d, wide) ==> MatchesAll(d, narrow)
  {
    hide MatchesAll;
    if docs != [] {
      assert docs == [docs[0]] + docs[1..];
      SelectAllMatch(docs[1..], wide, narrow);
    }
  }

  lemma {:induction false} UsedIsWeaker(d: Doc, filters: seq<Filter>)
    ensures MatchesAll(d, Used(filters, QUERY_COLUMNS)) ==> MatchesAll(d, Used(filters, COUNT_COLUMNS))
  {
    hide MatchesAll;
    if filters != [] {
      var front, last := filters[..|filters| - 1], filters[|filters| - 1];
      UsedIsWeaker(d, front);
      MatchesSnoc(d, Used(front, QUERY_COLUMNS), last);
      MatchesSnoc(d, Used(front, COUNT_COLUMNS), last);
      assert Used(front, QUERY_COLUMNS) + [] == Used(front, QUERY_COLUMNS);
      assert Used(front, COUNT_COLUMNS) + [] == Used(front, COUNT_COLUMNS);
    }
  }

  /**
    SQLite's count ignores a kitt_version filter that its query honours: count(f) is
    the length of query(f) exactly when every record that passes the other filters
    passes those too.
  */
  lemma CountAgreesExactly(es: seq<Entry>, filters: seq<Filter>)
    ensures |Filtered(RunsOf(es), ConditionsFor(filters, COUNT_COLUMNS))|
            == |Filtered(RunsOf(es), ConditionsFor(filters, QUERY_COLUMNS))| <==>
            forall d :: d in DocsOf(es) && MatchesAll(d, Used(filters, COUNT_COLUMNS)) ==>
              MatchesAll(d, Used(filters, QUERY_COLUMNS))
  {
    hide MatchesAll, Filtered, Select;
    WhereIsSelect(es, filters, COUNT_COLUMNS);
    WhereIsSelect(es, filters, QUERY_COLUMNS);
    forall d
      ensures MatchesAll(d, Used(filters, QUERY_COLUMNS)) ==> MatchesAll(d, Used(filters, COUNT_COLUMNS))
    {
      UsedIsWeaker(d, filters);
    }
    SelectAllMatch(DocsOf(es), Used(filters, COUNT_COLUMNS), Used(filters, QUERY_COLUMNS));
  }

  /** One record of another version: a kitt_version filter counts it and does not return it. */
  lemma VersionFilterOvercounts(id: string, d: Doc, version: string)
    requires d.kittVersion != version
    ensures var es, filters := [Entry(id, d, 1)], [TextFilter("kitt_version", version)];
      && |Filtered(RunsOf(es), ConditionsFor(filters, COUNT_COLUMNS))| == 1
      && |Filtered(RunsOf(es), ConditionsFor(filters, QUERY_COLUMNS))| == 0
  {
    var filters := [TextFilter("kitt_version", version)];
    var row := RowFor(id, d);
    assert filters[..0] == [] && RunsOf([Entry(id, d, 1)]) == [row] && [row][1..] == [];
    assert ConditionsFor(filters, COUNT_COLUMNS) == [];
    assert ConditionsFor(filters, QUERY_COLUMNS) == [TextEquals("kitt_version", version)];
    assert !Holds(row, [TextEquals("kitt_version", version)][0]);
    assert Filtered([row], []) == [row] + Filtered([], []);
  }

  /** With supported filters, both stores count what their queries return. */
  lemma CountsAgree(es: seq<Entry>, docs: seq<Doc>, filters: seq<Filter>, order: Option<Order>)
    requires multiset(DocsOf(es)) == multiset(docs) && AllSupported(filters)
    ensures |Filtered(RunsOf(es), ConditionsFor(filters, COUNT_COLUMNS))| == |Select(docs, filters)|
            == |QueryDocs(docs, filters, order, None, 0)|
  {
    hide Filtered, Select;
    WhereIsSelect(es, filters, COUNT_COLUMNS);
    SupportedAreUsed(filters, COUNT_COLUMNS);
    SelectPermutes(DocsOf(es), docs, filters);
    assert |multiset(Select(DocsOf(es), filters))| == |Select(DocsOf(es), filters)|;
    assert |multiset(Select(docs, filters))| == |Select(docs, filters)|;
    if order.Some? {
      SortPermutes(Less(order.value), Select(docs, filters));
    }
  }

  // ----- saving and deleting -----

  lemma {:induction false} AlongConcat(l: Layout, files: Files, a: seq<string>, b: seq<string>)
    ensures Along(l, files, a + b) == Along(l, files, a) + Along(l, files, b)
  {
    if b == [] {
      assert a + b == a;
    } else {
      assert (a + b)[..|a + b| - 1] == a + b[..|b| - 1];
      AlongConcat(l, files, a, b[..|b| - 1]);
    }
  }

  lemma DocsConcat(a: seq<Record>, b: seq<Record>)
    ensures Docs(a + b) == Docs(a) + Docs(b)
  {
  }

  lemma AlongWithout(l: Layout, files: Files, b: seq<string>, j: nat)
    requires j < |b|
    ensures multiset(Docs(Along(l, files, b)))
            == multiset(Docs(Along(l, files, Without(b, j)))) + multiset(Docs(Along(l, files, [b[j]])))
  {
    hide Along, Docs;
    assert b == b[..j] + ([b[j]] + b[j + 1..]);
    AlongConcat(l, files, b[..j], [b[j]] + b[j + 1..]);
    AlongConcat(l, files, [b[j]], b[j + 1..]);
    AlongConcat(l, files, b[..j], b[j + 1..]);
    DocsConcat(Along(l, files, b[..j]), Along(l, files, [b[j]]) + Along(l, files, b[j + 1..]));
    DocsConcat(Along(l, files, [b[j]]), Along(l, files, b[j + 1..]));
    DocsConcat(Along(l, files, b[..j]), Along(l, files, b[j + 1..]));
  }

  lemma {:induction false} AlongPermutes(l: Layout, files: Files, a: seq<string>, b: seq<string>)
    requires multiset(a) == multiset(b)
    ensures multiset(Docs(Along(l, files, a))) == multiset(Docs(Along(l, files, b)))
  {
    hide Along, Docs;
    assert |multiset(a)| == |a| && |multiset(b)| == |b|;
    if a == [] {
      assert b == [];
    } else {
      assert a[0] in multiset(b);
      var j :| 0 <= j < |b| && b[j] == a[0];
      WithoutMultiset(b, j);
      TailMultiset(a);
      AlongPermutes(l, files, a[1..], Without(b, j));
      assert Without(a, 0) == a[1..];
      AlongWithout(l, files, a, 0);
      AlongWithout(l, files, b, j);
    }
  }

  /** The bag of records that a fresh scan sees. */
  function Bag(l: Layout, files: Files): multiset<Doc> {
    multiset(Docs(FreshScan(l, files)))
  }

  lemma {:induction false} AlongSameFiles(l: Layout, files: Files, files': Files, paths: seq<string>)
    requires forall p :: p in paths ==> (p in files <==> p in files') && (p in files ==> files[p] == files'[p])
    ensures Along(l, files, paths) == Along(l, files', paths)
  {
    if paths != [] {
      var front := paths[..|paths| - 1];
      assert paths == front + [paths[|paths| - 1]];
      AlongSameFiles(l, files, files', front);
    }
  }

  /** One directory tree's share of the bag. */
  function Part(l: Layout, files: Files, karr: bool): multiset<Doc> {
    multiset(Docs(Along(l, files, l.listing(Paths(l, files, karr)))))
  }

  lemma BagIsParts(l: Layout, files: Files)
    ensures Bag(l, files) == Part(l, files, false) + Part(l, files, true)
  {
    DocsConcat(Along(l, files, l.listing(Paths(l, files, false))), Along(l, files, l.listing(Paths(l, files, true))));
  }

  lemma PartWithNewFile(l: Layout, files: Files, path: string, d: Doc, karr: bool)
    requires Lists(l) && path !in files
    ensures Part(l, files[path := Some(d)], karr)
            == Part(l, files, karr) + (if l.inKarr(path) == karr then multiset{d} else multiset{})
  {
    hide Along;
    var after := files[path := Some(d)];
    var before := l.listing(Paths(l, files, karr));
    assert path !in before;
    AlongSameFiles(l, files, after, before);
    if l.inKarr(path) == karr {
      assert Paths(l, after, karr) == Paths(l, files, karr) + {path};
      var listed := l.listing(Paths(l, after, karr));
      DistinctConcat(before, [path]);
      SameElementsSameBag(listed, before + [path]);
      AlongPermutes(l, after, listed, before + [path]);
      AlongConcat(l, after, before, [path]);
      DocsConcat(Along(l, after, before), Along(l, after, [path]));
      AlongOne(l, after, path);
    } else {
      assert Paths(l, after, karr) == Paths(l, files, karr);
    }
  }

  lemma AlongOne(l: Layout, files: Files, path: string)
    requires path in files && files[path].Some?
    ensures Docs(Along(l, files, [path])) == [files[path].value]
  {
    assert [path][..0] == [];
  }

  /** Saving under a new path adds exactly the record. */
  lemma JsonSaveAddsOne(l: Layout, files: Files, path: string, d: Doc)
    requires Lists(l) && path !in files
    ensures Bag(l, files[path := Some(d)]) == Bag(l, files) + multiset{d}
  {
    hide Part, Bag;
    BagIsParts(l, files);
    BagIsParts(l, files[path := Some(d)]);
    PartWithNewFile(l, files, path, d, false);
    PartWithNewFile(l, files, path, d, true);
  }

  /** Deleting a readable file removes exactly its record. */
  lemma JsonDeleteRemovesOne(l: Layout, files: Files, path: string)
    requires Lists(l) && path in files && files[path].Some?
    ensures Bag(l, files) == Bag(l, files - {path}) + multiset{files[path].value}
  {
    hide Bag;
    assert (files - {path})[path := files[path]] == files;
    JsonSaveAddsOne(l, files - {path}, path, files[path].value);
  }

  lemma DocsSnoc(es: seq<Entry>, e: Entry)
    ensures DocsOf(es + [e]) == DocsOf(es) + [e.doc]
  {
  }

  /** Deleting a run removes exactly its record. */
  lemma {:induction false} SqlDeleteRemovesOne(es: seq<Entry>, next: nat, i: nat)
    requires WellNumbered(es, next) && i < |es|
    ensures multiset(DocsOf(es)) == multiset(DocsOf(WithoutRun(es, es[i].runId))) + multiset{es[i].doc}
  {
    hide DocsOf;
    var n := |es| - 1;
    var front, last, id := es[..n], es[n], es[i].runId;
    assert es == front + [last];
    DocsSnoc(front, last);
    if i < n {
      assert front[i] == es[i];
      SqlDeleteRemovesOne(front, next, i);
      DocsSnoc(WithoutRun(front, id), last);
    } else {
      UntouchedRuns(front, id);
      assert front + [] == front;
    }
  }

  lemma {:induction false} UntouchedRuns(es: seq<Entry>, id: string)
    requires forall i :: 0 <= i < |es| ==> es[i].runId != id
    ensures WithoutRun(es, id) == es
  {
    if es != [] {
      UntouchedRuns(es[..|es| - 1], id);
      assert es == es[..|es| - 1] + [es[|es| - 1]];
    }
  }

  // ----- both stores under the same operations -----

  /** A record's identity in each store. */
  datatype Slot = Slot(runId: string, path: string, doc: Doc)

  /** A delete gives each store the id it knows the record by, or an id it does not know. */
  datatype Op = Save(slot: Slot) | Delete(runId: string, path: string)

  datatype Stores = Stores(entries: seq<Entry>, next: nat, files: Files)

  /** The two stores hold exactly these records, each under its own id. */
  ghost predicate Hold(l: Layout, s: Stores, slots: set<Slot>) {
    && WellNumbered(s.entries, s.next)
    && multiset(DocsOf(s.entries)) == Bag(l, s.files)
    && (forall x, y :: x in slots && y in slots && x != y ==> x.runId != y.runId && x.path != y.path)
    && FilesAre(s.files, slots) && EntriesAre(s.entries, slots)
  }

  function SlotPaths(slots: set<Slot>): set<string> { set x | x in slots :: x.path }

  function SlotRuns(slots: set<Slot>): set<string> { set x | x in slots :: x.runId }

  function RunIds(es: seq<Entry>): set<string> { set e | e in es :: e.runId }

  ghost predicate FilesAre(files: Files, slots: set<Slot>) {
    files.Keys == SlotPaths(slots) && forall x :: x in slots ==> x.path in files && files[x.path] == Some(x.doc)
  }

  ghost predicate EntriesAre(es: seq<Entry>, slots: set<Slot>) {
    RunIds(es) == SlotRuns(slots) && forall x, e :: x in slots && e in es && e.runId == x.runId ==> e.doc == x.doc
  }

  /** A save needs ids that are new; the two ids of a delete name the same record or none. */
  ghost predicate Allowed(slots: set<Slot>, op: Op) {
    match op
    case Save(x) => forall y :: y in slots ==> y.runId != x.runId && y.path != x.path
    case Delete(runId, path) => forall y :: y in slots ==> (y.runId == runId <==> y.path == path)
  }

  /** The effect of the stores' own methods. */
  function Step(s: Stores, op: Op): Stores {
    match op
    case Save(x) =>
      Stores(s.entries + [Entry(x.runId, x.doc, s.next)], s.next + |x.doc.results|, s.files[x.path := Some(x.doc)])
    case Delete(runId, path) => Stores(WithoutRun(s.entries, runId), s.next, s.files - {path})
  }

  function StepSlots(slots: set<Slot>, op: Op): set<Slot> {
    match op
    case Save(x) => slots + {x}
    case Delete(runId, path) => set x | x in slots && x.runId != runId
  }

  lemma SaveKeepsHold(l: Layout, s: Stores, slots: set<Slot>, x: Slot)
    requires Lists(l) && Hold(l, s, slots) && Allowed(slots, Save(x))
    ensures Hold(l, Step(s, Save(x)), slots + {x})
  {
    hide Bag, DocsOf, EntriesAre, FilesAre, WellNumbered;
    IdsAreNew(s.entries, s.files, slots, x);
    JsonSaveAddsOne(l, s.files, x.path, x.doc);
    DocsSnoc(s.entries, Entry(x.runId, x.doc, s.next));
    NumberedSnoc(s.entries, s.next, x.runId, x.doc);
    SaveEntries(s.entries, slots, x, s.next);
    SaveFiles(s.files, slots, x);
  }

  lemma IdsAreNew(es: seq<Entry>, files: Files, slots: set<Slot>, x: Slot)
    requires EntriesAre(es, slots) && FilesAre(files, slots) && Allowed(slots, Save(x))
    ensures x.path !in files && forall e :: e in es ==> e.runId != x.runId
  {
    assert x.path !in SlotPaths(slots) && x.runId !in SlotRuns(slots);
    assert forall e :: e in es ==> e.runId in RunIds(es);
  }

  lemma NumberedSnoc(es: seq<Entry>, next: nat, runId: string, doc: Doc)
    requires WellNumbered(es, next) && forall e :: e in es ==> e.runId != runId
    ensures WellNumbered(es + [Entry(runId, doc, next)], next + |doc.results|)
  {
    assert forall i :: 0 <= i < |es| ==> es[i] in es;
  }

  lemma SaveFiles(files: Files, slots: set<Slot>, x: Slot)
    requires FilesAre(files, slots) && Allowed(slots, Save(x))
    ensures FilesAre(files[x.path := Some(x.doc)], slots + {x})
  {
    assert SlotPaths(slots + {x}) == SlotPaths(slots) + {x.path};
  }

  lemma SaveEntries(es: seq<Entry>, slots: set<Slot>, x: Slot, next: nat)
    requires EntriesAre(es, slots) && Allowed(slots, Save(x)) && forall e :: e in es ==> e.runId != x.runId
    ensures EntriesAre(es + [Entry(x.runId, x.doc, next)], slots + {x})
  {
    var after := es + [Entry(x.runId, x.doc, next)];
    assert forall f :: f in after <==> f in es || f == Entry(x.runId, x.doc, next);
    assert RunIds(after) == RunIds(es) + {x.runId};
    assert SlotRuns(slots + {x}) == SlotRuns(slots) + {x.runId};
  }

  lemma CancelOne(a: multiset<Doc>, b: multiset<Doc>, d: Doc)
    requires a + multiset{d} == b + multiset{d}
    ensures a == b
  {
    assert a == a + multiset{d} - multiset{d} && b == b + multiset{d} - multiset{d};
  }

  lemma DeleteEntries(es: seq<Entry>, next: nat, slots: set<Slot>, runId: string)
    requires WellNumbered(es, next) && EntriesAre(es, slots)
    ensures EntriesAre(WithoutRun(es, runId), set x | x in slots && x.runId != runId)
  {
    hide WellNumbered;
    WithoutRunNumbered(es, next, runId);
    assert RunIds(WithoutRun(es, runId)) == RunIds(es) - {runId};
    assert SlotRuns(set x | x in slots && x.runId != runId) == SlotRuns(slots) - {runId};
  }

  lemma DeleteFiles(files: Files, slots: set<Slot>, runId: string, path: string)
    requires FilesAre(files, slots) && Allowed(slots, Delete(runId, path))
    ensures FilesAre(files - {path}, set x | x in slots && x.runId != runId)
  {
    assert SlotPaths(set x | x in slots && x.runId != runId) == SlotPaths(slots) - {path};
  }

  /** Deleting ids that name no record changes nothing in either store. */
  lemma UnknownDeleteChangesNothing(l: Layout, s: Stores, slots: set<Slot>, runId: string, path: string)
    requires Hold(l, s, slots) && forall x :: x in slots ==> x.runId != runId && x.path != path
    ensures Step(s, Delete(runId, path)) == s && StepSlots(slots, Delete(runId, path)) == slots
  {
    hide Bag, DocsOf, WellNumbered, WithoutRun;
    assert runId !in SlotRuns(slots) && path !in SlotPaths(slots);
    assert forall i :: 0 <= i < |s.entries| ==> s.entries[i].runId in RunIds(s.entries);
    UntouchedRuns(s.entries, runId);
    assert s.files - {path} == s.files;
  }

  lemma DeleteKeepsHold(l: Layout, s: Stores, slots: set<Slot>, runId: string, path: string)
    requires Lists(l) && Hold(l, s, slots) && Allowed(slots, Delete(runId, path))
    ensures Hold(l, Step(s, Delete(runId, path)), StepSlots(slots, Delete(runId, path)))
  {
    hide Bag, DocsOf, WellNumbered;
    if x :| x in slots && x.runId == runId {
      hide EntriesAre, FilesAre;
      DeleteEntries(s.entries, s.next, slots, runId);
      DeleteFiles(s.files, slots, runId, path);
      DeletedRecord(l, s, slots, x);
      WithoutRunNumbered(s.entries, s.next, runId);
    } else {
      UnknownDeleteChangesNothing(l, s, slots, runId, path);
    }
  }

  lemma DeletedRecord(l: Layout, s: Stores, slots: set<Slot>, x: Slot)
    requires Lists(l) && Hold(l, s, slots) && x in slots
    ensures multiset(DocsOf(WithoutRun(s.entries, x.runId))) == Bag(l, s.files - {x.path})
  {
    hide Bag, DocsOf, WellNumbered;
    assert x.runId in SlotRuns(slots) && x.runId in RunIds(s.entries);
    var e :| e in s.entries && e.runId == x.runId;
    var i :| 0 <= i < |s.entries| && s.entries[i] == e;
    JsonDeleteRemovesOne(l, s.files, x.path);
    SqlDeleteRemovesOne(s.entries, s.next, i);
    CancelOne(multiset(DocsOf(WithoutRun(s.entries, x.runId))), Bag(l, s.files - {x.path}), x.doc);
  }

  lemma StepKeepsHold(l: Layout, s: Stores, slots: set<Slot>, op: Op)
    requires Lists(l) && Hold(l, s, slots) && Allowed(slots, op)
    ensures Hold(l, Step(s, op), StepSlots(slots, op))
  {
    hide Hold;
    match op
    case Save(x) => SaveKeepsHold(l, s, slots, x);
    case Delete(runId, path) => DeleteKeepsHold(l, s, slots, runId, path);
  }

  ghost predicate AllAllowed(slots: set<Slot>, ops: seq<Op>)
    decreases |ops|
  {
    ops != [] ==> Allowed(slots, ops[0]) && AllAllowed(StepSlots(slots, ops[0]), ops[1..])
  }

  function After(s: Stores, ops: seq<Op>): Stores
    decreases |ops|
  {
    if ops == [] then s else After(Step(s, ops[0]), ops[1..])
  }

  function SlotsAfter(slots: set<Slot>, ops: seq<Op>): set<Slot>
    decreases |ops|
  {
    if ops == [] then slots else SlotsAfter(StepSlots(slots, ops[0]), ops[1..])
  }

  lemma {:induction false} StoresStayInStep(l: Layout, s: Stores, slots: set<Slot>, ops: seq<Op>)
    requires Lists(l) && Hold(l, s, slots) && AllAllowed(slots, ops)
    ensures Hold(l, After(s, ops), SlotsAfter(slots, ops))
    decreases |ops|
  {
    hide Hold, Allowed;
    if ops != [] {
      StepKeepsHold(l, s, slots, ops[0]);
      StoresStayInStep(l, Step(s, ops[0]), StepSlots(slots, ops[0]), ops[1..]);
    }
  }

  /** Two empty stores hold the same records after any saves and deletes. */
  lemma SameBagAfterAnyOperations(l: Layout, ops: seq<Op>)
    requires Lists(l) && AllAllowed({}, ops)
    ensures var s := After(Stores([], 1, map[]), ops);
      WellNumbered(s.entries, s.next) && multiset(DocsOf(s.entries)) == multiset(Docs(FreshScan(l, s.files)))
  {
    hide WellNumbered, DocsOf, FreshScan, Docs, AllAllowed, FilesAre, EntriesAre;
    EmptyStoresHold(l);
    StoresStayInStep(l, Stores([], 1, map[]), {}, ops);
  }

  lemma NothingScanned(l: Layout)
    requires Lists(l)
    ensures FreshScan(l, map[]) == []
  {
    var none: Files := map[];
    assert Paths(l, none, false) == {} && Paths(l, none, true) == {};
    EmptyOrNot(l.listing({}));
  }

  /** Empty stores hold nothing. */
  lemma EmptyStoresHold(l: Layout)
    requires Lists(l)
    ensures Hold(l, Stores([], 1, map[]), {})
  {
    hide FreshScan;
    NothingScanned(l);
    assert Docs([]) == [] && DocsOf([]) == [];
  }

  /** A stored readable file is scanned, under its own id. */
  lemma ScannedExactly(l: Layout, files: Files, r: Record)
    requires Lists(l)
    ensures r in FreshScan(l, files) <==> r.path in files && files[r.path] == Some(r.doc) && r.id == l.makeId(r.path)
  {
    AlongMember(l, files, l.listing(Paths(l, files, false)), r);
    AlongMember(l, files, l.listing(Paths(l, files, true)), r);
    assert r.path in files ==> r.path in Paths(l, files, l.inKarr(r.path));
  }

  /**
    One operation on both stores through their own methods does what Step says, so
    the theorem above speaks of the stores themselves. `uid` is the fresh part of the
    path that the JSON store picks; a delete needs that no other stored file has the id.
  */
  method Perform(sql: SQLiteStore, json: JsonStore, op: Op, uid: string, ghost slots: set<Slot>) returns (found: bool)
    requires sql.Valid() && json.Valid()
    requires Hold(json.layout, Stores(sql.entries, sql.nextBenchId, json.files), slots) && Allowed(slots, op)
    requires op.Save? ==> op.slot.path == SavePath(op.slot.doc, uid)
    requires op.Delete? ==>
      forall p :: p in json.files && json.layout.makeId(p) == json.layout.makeId(op.path) ==> p == op.path
    modifies sql, json
    ensures sql.Valid() && json.Valid()
    ensures Stores(sql.entries, sql.nextBenchId, json.files)
            == Step(old(Stores(sql.entries, sql.nextBenchId, json.files)), op)
    ensures Hold(json.layout, Stores(sql.entries, sql.nextBenchId, json.files), StepSlots(slots, op))
    ensures found <==> op.Save? || exists x :: x in slots && x.runId == op.runId
  {
    hide Bag, DocsOf, WellNumbered, FreshScan, SavePath, RunsOf, BenchesOf, MetricsOf, HardwareOf, WithoutRun;
    hide FirstWith;
    hide FilesAre, EntriesAre;
    StepKeepsHold(json.layout, Stores(sql.entries, sql.nextBenchId, json.files), slots, op);
    match op
    case Save(x) =>
      IdsAreNew(sql.entries, json.files, slots, x);
      var ok := sql.SaveResult(x.doc, x.runId);
      var id := json.SaveResult(x.doc, uid);
      found := true;
    case Delete(runId, path) =>
      WhatIsFound(json.layout, json.files, slots, runId, path);
      FoundInEntries(sql.entries, slots, runId);
      found := sql.DeleteResult(runId);
      var gone := json.DeleteResult(json.layout.makeId(path));
      assert path !in json.files ==> json.files - {path} == json.files;
  }

  lemma FoundInEntries(es: seq<Entry>, slots: set<Slot>, runId: string)
    requires EntriesAre(es, slots)
    ensures (exists e :: e in es && e.runId == runId) <==> exists x :: x in slots && x.runId == runId
  {
    assert (exists e :: e in es && e.runId == runId) <==> runId in RunIds(es);
    assert (exists x :: x in slots && x.runId == runId) <==> runId in SlotRuns(slots);
  }

  /** With one stored file per id, the scan finds the id of a stored path at that path only. */
  lemma WhatIsFound(l: Layout, files: Files, slots: set<Slot>, runId: string, path: string)
    requires Lists(l) && FilesAre(files, slots) && Allowed(slots, Delete(runId, path))
    requires forall p :: p in files && l.makeId(p) == l.makeId(path) ==> p == path
    ensures var r := FirstWith(FreshScan(l, files), l.makeId(path));
      && (r.Some? <==> path in files)
      && (r.Some? ==> r.value.path == path)
    ensures path in files <==> exists x :: x in slots && x.runId == runId
  {
    hide FreshScan;
    var scan := FreshScan(l, files);
    forall r
      ensures r in scan <==> r.path in files && files[r.path] == Some(r.doc) && r.id == l.makeId(r.path)
    {
      ScannedExactly(l, files, r);
    }
    assert path in files <==> path in SlotPaths(slots);
    if path in files {
      var x :| x in slots && x.path == path;
      assert Record(path, l.makeId(path), x.doc) in scan;
    }
  }
}

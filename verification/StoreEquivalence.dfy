/** Both stores implement the same abstract store of records. */
module StoreEquivalence {
  import opened Basics
  import opened Sorting
  import opened ResultModel
  import opened SqliteTables
  import opened SqliteStore
  import opened JsonStore
  import opened Picking

  // ----- the three-table join -----

  lemma {:induction false} RunMatchesOne(es: seq<Entry>, next: nat, n: nat, i: nat, col: GroupColumn, g: string)
    requires WellNumbered(es, next) && n <= |es| && i < |es|
    ensures RunMatches(RunsOf(es[..n]), es[i].runId, col, g) == if i < n && GroupOf(es[i].doc, col) == g then 1 else 0
  {
    hide GroupOf, RowFor, GroupColumnOf;
    if n > 0 {
      RunMatchesOne(es, next, n - 1, i, col, g);
      var rs := RunsOf(es[..n]);
      assert rs[..n - 1] == RunsOf(es[..n - 1]) && rs[n - 1] == RowFor(es[n - 1].runId, es[n - 1].doc);
      GroupOfRow(es[n - 1].runId, es[n - 1].doc, col);
      assert es[n - 1].runId == es[i].runId <==> i == n - 1;
    }
  }

  lemma GroupOfRow(id: string, d: Doc, col: GroupColumn)
    ensures GroupColumnOf(RowFor(id, d), col) == GroupOf(d, col) && RowFor(id, d).id == id
  {
  }

  lemma {:induction false} PairConcat(a: seq<BenchRow>, b: seq<BenchRow>, rs: seq<RunRow>, id: nat, col: GroupColumn,
                                      g: string)
    ensures PairMatches(a + b, rs, id, col, g) == PairMatches(a, rs, id, col, g) + PairMatches(b, rs, id, col, g)
  {
    if b == [] {
      assert a + b == a;
    } else {
      assert (a + b)[..|a + b| - 1] == a + b[..|b| - 1];
      PairConcat(a, b[..|b| - 1], rs, id, col, g);
    }
  }

  lemma {:induction false} PairsInBlock(e: Entry, n: nat, rs: seq<RunRow>, id: nat, col: GroupColumn, g: string)
    requires n <= |e.doc.results|
    ensures PairMatches(EntryBenches(e, n), rs, id, col, g)
            == if e.first <= id < e.first + n then RunMatches(rs, e.runId, col, g) else 0
  {
    if n > 0 {
      PairsInBlock(e, n - 1, rs, id, col, g);
      assert EntryBenches(e, n)[..n - 1] == EntryBenches(e, n - 1);
    }
  }

  lemma {:induction false} PairsOfEntry(es: seq<Entry>, next: nat, n: nat, i: nat, rs: seq<RunRow>, id: nat,
                                        col: GroupColumn, g: string)
    requires WellNumbered(es, next) && n <= |es| && i < |es| && es[i].first <= id < es[i].Next()
    ensures PairMatches(BenchesOf(es[..n]), rs, id, col, g) == if i < n then RunMatches(rs, es[i].runId, col, g) else 0
  {
    hide RunMatches, EntryBenches;
    if n > 0 {
      var e := es[n - 1];
      assert es[..n][..n - 1] == es[..n - 1];
      PairsOfEntry(es, next, n - 1, i, rs, id, col, g);
      PairsInBlock(e, |e.doc.results|, rs, id, col, g);
      PairConcat(BenchesOf(es[..n - 1]), EntryBenches(e, |e.doc.results|), rs, id, col, g);
    }
  }

  /** Each metrics row joins with exactly one run: its own. */
  lemma JoinFactor(es: seq<Entry>, next: nat, i: nat, id: nat, col: GroupColumn, g: string)
    requires WellNumbered(es, next) && i < |es| && es[i].first <= id < es[i].Next()
    ensures PairMatches(BenchesOf(es), RunsOf(es), id, col, g) == if GroupOf(es[i].doc, col) == g then 1 else 0
  {
    assert es[..|es|] == es;
    PairsOfEntry(es, next, |es|, i, RunsOf(es), id, col, g);
    RunMatchesOne(es, next, |es|, i, col, g);
  }

  lemma {:induction false} JoinedConcat(a: seq<MetricRow>, b: seq<MetricRow>, bs: seq<BenchRow>, rs: seq<RunRow>,
                                        m: string, col: GroupColumn, g: string)
    ensures JoinedValues(a + b, bs, rs, m, col, g)
            == JoinedValues(a, bs, rs, m, col, g) + JoinedValues(b, bs, rs, m, col, g)
  {
    if b == [] {
      assert a + b == a;
    } else {
      assert (a + b)[..|a + b| - 1] == a + b[..|b| - 1];
      JoinedConcat(a, b[..|b| - 1], bs, rs, m, col, g);
    }
  }

  lemma {:induction false} SampleSnoc(ms: seq<(string, MetricValue)>, x: (string, MetricValue), m: string)
    ensures (forall i :: 0 <= i < |ms| ==> ms[i].0 != m) ==> Sample(ms, m) == None
    ensures x.0 != m ==> Sample(ms + [x], m) == Sample(ms, m)
    ensures x.0 == m && (forall i :: 0 <= i < |ms| ==> ms[i].0 != m) ==>
      Sample(ms + [x], m) == if x.1.Number? then Some(x.1.value) else None
  {
    if ms == [] {
      assert ms + [x] == [x];
    } else {
      assert (ms + [x])[1..] == ms[1..] + [x];
      SampleSnoc(ms[1..], x, m);
    }
  }

  /** The sample among the first k + 1 metrics. */
  lemma SampleNext(ms: Metrics, k: nat, m: string)
    requires k < |ms|
    ensures ms[k].0 != m ==> Sample(ms[..k + 1], m) == Sample(ms[..k], m)
    ensures ms[k].0 == m ==> Sample(ms[..k], m) == None
    ensures ms[k].0 == m ==> Sample(ms[..k + 1], m) == if ms[k].1.Number? then Some(ms[k].1.value) else None
  {
    hide Sample;
    var x, front := ms[k], ms[..k];
    assert x.0 == m ==> forall i :: 0 <= i < |front| ==> front[i].0 != m;
    SampleSnoc(front, x, m);
    assert ms[..k + 1] == front + [x];
  }

  lemma SampleAdded(ms: Metrics, k: nat, m: string)
    requires k < |ms|
    ensures One(Sample(ms[..k + 1], m))
            == One(Sample(ms[..k], m)) + (if ms[k].0 == m && ms[k].1.Number? then [ms[k].1.value] else [])
  {
    hide Sample;
    SampleNext(ms, k, m);
  }

  lemma NoSample(m: string)
    ensures One(Sample([], m)) == []
  {
  }

  lemma {:induction false} JoinOfBench(benchId: nat, ms: Metrics, k: nat, bs: seq<BenchRow>, rs: seq<RunRow>, m: string,
                                       col: GroupColumn, g: string)
    requires k <= |ms| && PairMatches(bs, rs, benchId, col, g) <= 1
    ensures JoinedValues(BenchMetrics(benchId, ms, k), bs, rs, m, col, g)
            == if PairMatches(bs, rs, benchId, col, g) == 1 then One(Sample(ms[..k], m)) else []
  {
    hide PairMatches, Sample, JoinedValues, One;
    if k == 0 {
      JoinOfNothing(bs, rs, m, col, g);
      NoSample(m);
      assert ms[..0] == [];
    } else {
      JoinOfBench(benchId, ms, k - 1, bs, rs, m, col, g);
      var x := ms[k - 1];
      SampleAdded(ms, k - 1, m);
      var added := if x.1.Number? then [MetricRow(benchId, x.0, x.1.value)] else [];
      assert BenchMetrics(benchId, ms, k) == BenchMetrics(benchId, ms, k - 1) + added;
      JoinedConcat(BenchMetrics(benchId, ms, k - 1), added, bs, rs, m, col, g);
      JoinOfOne(added, benchId, bs, rs, m, col, g);
    }
  }

  lemma JoinOfOne(rows: seq<MetricRow>, benchId: nat, bs: seq<BenchRow>, rs: seq<RunRow>, m: string,
                  col: GroupColumn, g: string)
    requires |rows| <= 1 && forall r :: r in rows ==> r.benchmarkId == benchId
    requires PairMatches(bs, rs, benchId, col, g) <= 1
    ensures JoinedValues(rows, bs, rs, m, col, g)
            == if rows != [] && rows[0].metricName == m && PairMatches(bs, rs, benchId, col, g) == 1
               then [rows[0].metricValue] else []
  {
    hide PairMatches;
    if rows != [] {
      assert rows[0] in rows && rows[..|rows| - 1] == [];
    }
  }

  /** One benchmark's metrics rows join to its sample if its run is in the group. */
  lemma JoinOfStoredBench(es: seq<Entry>, next: nat, i: nat, n: nat, m: string, col: GroupColumn, g: string)
    requires WellNumbered(es, next) && i < |es| && n < |es[i].doc.results|
    ensures var ms := es[i].doc.results[n].metrics;
      JoinedValues(BenchMetrics(es[i].first + n, ms, |ms|), BenchesOf(es), RunsOf(es), m, col, g)
      == if GroupOf(es[i].doc, col) == g then One(Sample(ms, m)) else []
  {
    hide PairMatches, BenchesOf, RunsOf, BenchMetrics, Sample, JoinedValues;
    var ms := es[i].doc.results[n].metrics;
    JoinFactor(es, next, i, es[i].first + n, col, g);
    JoinOfBench(es[i].first + n, ms, |ms|, BenchesOf(es), RunsOf(es), m, col, g);
    assert ms[..|ms|] == ms;
  }

  lemma {:induction false} JoinOfEntry(es: seq<Entry>, next: nat, i: nat, n: nat, m: string, col: GroupColumn,
                                       g: string)
    requires WellNumbered(es, next) && i < |es| && n <= |es[i].doc.results|
    ensures JoinedValues(EntryMetrics(es[i], n), BenchesOf(es), RunsOf(es), m, col, g)
            == if GroupOf(es[i].doc, col) == g then BenchSamples(es[i].doc.results[..n], m) else []
  {
    hide WellNumbered, BenchesOf, RunsOf, BenchMetrics, Sample, JoinedValues, BenchSamples, GroupOf;
    var bs, rs, e := BenchesOf(es), RunsOf(es), es[i];
    if n == 0 {
      JoinOfNothing(bs, rs, m, col, g);
      NoBenchSamples(m);
      assert e.doc.results[..0] == [];
    } else {
      var ms := e.doc.results[n - 1].metrics;
      JoinOfEntry(es, next, i, n - 1, m, col, g);
      JoinOfStoredBench(es, next, i, n - 1, m, col, g);
      JoinedConcat(EntryMetrics(e, n - 1), BenchMetrics(e.first + (n - 1), ms, |ms|), bs, rs, m, col, g);
      NextBenchSample(e.doc.results, n - 1, m);
    }
  }

  lemma NoBenchSamples(m: string)
    ensures BenchSamples([], m) == []
  {
  }

  lemma NextBenchSample(benches: seq<Bench>, n: nat, m: string)
    requires n < |benches|
    ensures BenchSamples(benches[..n + 1], m) == BenchSamples(benches[..n], m) + One(Sample(benches[n].metrics, m))
  {
    hide Sample;
    assert benches[..n + 1][..n] == benches[..n];
  }

  lemma {:induction false} JoinOfPrefix(es: seq<Entry>, next: nat, n: nat, m: string, col: GroupColumn, g: string)
    requires WellNumbered(es, next) && n <= |es|
    ensures JoinedValues(MetricsOf(es[..n]), BenchesOf(es), RunsOf(es), m, col, g)
            == GroupSamples(DocsOf(es[..n]), col, g, m)
  {
    hide WellNumbered, BenchesOf, RunsOf, EntryMetrics, JoinedValues, BenchSamples;
    if n == 0 {
      JoinOfNothing(BenchesOf(es), RunsOf(es), m, col, g);
    } else {
      var e := es[n - 1];
      assert es[..n][..n - 1] == es[..n - 1];
      assert DocsOf(es[..n])[..n - 1] == DocsOf(es[..n - 1]);
      JoinOfPrefix(es, next, n - 1, m, col, g);
      JoinOfEntry(es, next, n - 1, |e.doc.results|, m, col, g);
      assert e.doc.results[..|e.doc.results|] == e.doc.results;
      JoinedConcat(MetricsOf(es[..n - 1]), EntryMetrics(e, |e.doc.results|), BenchesOf(es), RunsOf(es), m, col, g);
    }
  }

  lemma JoinOfNothing(bs: seq<BenchRow>, rs: seq<RunRow>, m: string, col: GroupColumn, g: string)
    ensures JoinedValues([], bs, rs, m, col, g) == []
  {
  }

  /** The join of the three tables yields exactly the samples of the stored records of the group. */
  lemma JoinIsSamples(es: seq<Entry>, next: nat, m: string, col: GroupColumn, g: string)
    requires WellNumbered(es, next)
    ensures JoinedValues(MetricsOf(es), BenchesOf(es), RunsOf(es), m, col, g) == GroupSamples(DocsOf(es), col, g, m)
  {
    assert es[..|es|] == es;
    JoinOfPrefix(es, next, |es|, m, col, g);
  }

  lemma {:induction false} CountIsSize(es: seq<Entry>, col: GroupColumn, g: string)
    ensures CountRows(RunsOf(es), col, g) == GroupSize(DocsOf(es), col, g)
  {
    hide GroupOf, GroupColumnOf, RowFor;
    if es != [] {
      var front, last := es[..|es| - 1], es[|es| - 1];
      CountIsSize(front, col, g);
      EntriesSnoc(es);
      GroupOfRow(last.runId, last.doc, col);
    }
  }

  /** The tables' rows and the records of some entries, and of the last one. */
  lemma EntriesSnoc(es: seq<Entry>)
    requires es != []
    ensures var n := |es| - 1;
      && RunsOf(es) == RunsOf(es[..n]) + [RowFor(es[n].runId, es[n].doc)] && RunsOf(es)[..n] == RunsOf(es[..n])
      && DocsOf(es) == DocsOf(es[..n]) + [es[n].doc] && DocsOf(es)[..n] == DocsOf(es[..n])
  {
    hide RowFor;
  }

  lemma {:induction false} GroupsAreSeen(es: seq<Entry>, col: GroupColumn)
    ensures GroupsIn(RunsOf(es), col) == GroupsSeen(DocsOf(es), col)
  {
    if es != [] {
      hide GroupOf, GroupColumnOf, RowFor, GroupsIn, GroupsSeen, RunsOf, DocsOf;
      var front, last := es[..|es| - 1], es[|es| - 1];
      GroupsAreSeen(front, col);
      EntriesSnoc(es);
      GroupOfRow(last.runId, last.doc, col);
      GroupsSnoc(RunsOf(front), RowFor(last.runId, last.doc), DocsOf(front), last.doc, col);
    }
  }

  lemma GroupsSnoc(rs: seq<RunRow>, r: RunRow, docs: seq<Doc>, d: Doc, col: GroupColumn)
    ensures GroupsIn(rs + [r], col) == GroupsIn(rs, col) + {GroupColumnOf(r, col)}
    ensures GroupsSeen(docs + [d], col) == GroupsSeen(docs, col) + {GroupOf(d, col)}
  {
    hide GroupColumnOf, GroupOf;
  }

  /** No orphan rows: every benchmarks or hardware row has its run, every metrics row its benchmark. */
  lemma NoOrphans(es: seq<Entry>, next: nat)
    requires WellNumbered(es, next)
    ensures forall b :: b in BenchesOf(es) ==> exists r :: r in RunsOf(es) && r.id == b.runId
    ensures forall x :: x in MetricsOf(es) ==> exists b :: b in BenchesOf(es) && b.id == x.benchmarkId
    ensures forall h :: h in HardwareOf(es) ==> exists r :: r in RunsOf(es) && r.id == h.runId
  {
    HardwareOwner(es);
    forall b | b in BenchesOf(es)
      ensures exists r :: r in RunsOf(es) && r.id == b.runId
    {
      BenchesOwner(es, b);
      var i :| 0 <= i < |es| && b.runId == es[i].runId && es[i].first <= b.id < es[i].Next();
      assert RunsOf(es)[i] in RunsOf(es);
    }
    forall x | x in MetricsOf(es)
      ensures exists b :: b in BenchesOf(es) && b.id == x.benchmarkId
    {
      var i := MetricOwner(es, x);
      BenchInTable(es, i, x.benchmarkId - es[i].first);
      BenchAt(es[i], x.benchmarkId - es[i].first);
    }
  }

  lemma {:induction false} HardwareOwner(es: seq<Entry>)
    ensures forall h :: h in HardwareOf(es) ==> exists r :: r in RunsOf(es) && r.id == h.runId
  {
    if es != [] {
      var front, last := es[..|es| - 1], es[|es| - 1];
      HardwareOwner(front);
      assert RunsOf(es) == RunsOf(front) + [RowFor(last.runId, last.doc)];
      forall h | h in HardwareOf(es)
        ensures exists r :: r in RunsOf(es) && r.id == h.runId
      {
        if h in HardwareOf(front) {
          var r :| r in RunsOf(front) && r.id == h.runId;
          assert r in RunsOf(es);
        } else {
          assert RowFor(last.runId, last.doc) in RunsOf(es);
        }
      }
    }
  }

  lemma {:induction false} MetricOwner(es: seq<Entry>, x: MetricRow) returns (i: nat)
    requires x in MetricsOf(es)
    ensures i < |es| && es[i].first <= x.benchmarkId < es[i].Next()
  {
    var front, last := es[..|es| - 1], es[|es| - 1];
    if x in MetricsOf(front) {
      i := MetricOwner(front, x);
    } else {
      EntryMetricsOwner(last, |last.doc.results|);
      i := |es| - 1;
    }
  }

  // ----- repeated mentions of a metric -----

  lemma TimesNext(v: real, k: nat)
    ensures Sum(Times(v, k + 1)) == Sum(Times(v, k)) + v
  {
    assert Times(v, k + 1) == Times(v, k) + [v];
    TotalConcat(Times(v, k), [v], Itself());
    assert [v][1..] == [];
  }

  /** One more mention of the metric adds each sample once more. */
  lemma {:induction false} BenchValuesNext(benches: seq<Bench>, m: string, k: nat)
    ensures Sum(BenchValues(benches, m, k + 1)) == Sum(BenchValues(benches, m, k)) + Sum(BenchSamples(benches, m))
    ensures |BenchValues(benches, m, k + 1)| == |BenchValues(benches, m, k)| + |BenchSamples(benches, m)|
  {
    hide Sample;
    if benches != [] {
      var front, last := benches[..|benches| - 1], benches[|benches| - 1];
      BenchValuesNext(front, m, k);
      TotalConcat(BenchValues(front, m, k), BenchAdds(last, m, k), Itself());
      TotalConcat(BenchValues(front, m, k + 1), BenchAdds(last, m, k + 1), Itself());
      TotalConcat(BenchSamples(front, m), One(Sample(last.metrics, m)), Itself());
      if Sample(last.metrics, m).Some? {
        var v := Sample(last.metrics, m).value;
        TimesNext(v, k);
        assert [v][1..] == [];
      }
    }
  }

  lemma {:induction false} GroupValuesNext(docs: seq<Doc>, col: GroupColumn, g: string, m: string, k: nat)
    ensures Sum(GroupValues(docs, col, g, m, k + 1))
            == Sum(GroupValues(docs, col, g, m, k)) + Sum(GroupSamples(docs, col, g, m))
    ensures |GroupValues(docs, col, g, m, k + 1)| == |GroupValues(docs, col, g, m, k)| + |GroupSamples(docs, col, g, m)|
  {
    hide BenchValues, BenchSamples;
    if docs != [] {
      var front, last := docs[..|docs| - 1], docs[|docs| - 1];
      GroupValuesNext(front, col, g, m, k);
      var inGroup := GroupOf(last, col) == g;
      BenchValuesNext(last.results, m, k);
      TotalConcat(GroupValues(front, col, g, m, k), if inGroup then BenchValues(last.results, m, k) else [], Itself());
      var added := if inGroup then BenchValues(last.results, m, k + 1) else [];
      TotalConcat(GroupValues(front, col, g, m, k + 1), added, Itself());
      TotalConcat(GroupSamples(front, col, g, m), if inGroup then BenchSamples(last.results, m) else [], Itself());
    }
  }

  lemma {:induction false} NoMentionsNoValues(docs: seq<Doc>, col: GroupColumn, g: string, m: string)
    ensures GroupValues(docs, col, g, m, 0) == []
  {
    if docs != [] {
      NoMentionsNoValues(docs[..|docs| - 1], col, g, m);
      NoMentionsInBenches(docs[|docs| - 1].results, m);
    }
  }

  lemma {:induction false} NoMentionsInBenches(benches: seq<Bench>, m: string)
    ensures BenchValues(benches, m, 0) == []
  {
    if benches != [] {
      NoMentionsInBenches(benches[..|benches| - 1], m);
    }
  }

  lemma {:induction false} GroupValuesScale(docs: seq<Doc>, col: GroupColumn, g: string, m: string, k: nat)
    ensures Sum(GroupValues(docs, col, g, m, k)) == (k as real) * Sum(GroupSamples(docs, col, g, m))
    ensures |GroupValues(docs, col, g, m, k)| == k * |GroupSamples(docs, col, g, m)|
  {
    hide GroupValues, GroupSamples;
    if k == 0 {
      NoMentionsNoValues(docs, col, g, m);
    } else {
      GroupValuesScale(docs, col, g, m, k - 1);
      GroupValuesNext(docs, col, g, m, k - 1);
      Increment(k - 1, Sum(GroupSamples(docs, col, g, m)), |GroupSamples(docs, col, g, m)|);
    }
  }

  lemma Increment(k: nat, s: real, n: nat)
    ensures ((k + 1) as real) * s == (k as real) * s + s && (k + 1) * n == k * n + n
  {
  }

  lemma ScaleCancels(k: real, s: real, n: real)
    requires k > 0.0 && n > 0.0
    ensures (k * s) / (k * n) == s / n
  {
    var q := s / n;
    assert q * n == s;
    assert k * s == q * (k * n);
  }

  lemma {:induction false} RealProduct(k: nat, n: nat)
    ensures (k * n) as real == (k as real) * (n as real)
  {
    if k > 0 {
      RealProduct(k - 1, n);
      Increment(k - 1, n as real, n);
    }
  }

  /** Mentioning a metric several times does not change its average. */
  lemma MentionsDoNotMatter(docs: seq<Doc>, col: GroupColumn, g: string, m: string, k: nat)
    requires k > 0
    ensures AverageOf(GroupValues(docs, col, g, m, k)) == AverageOf(GroupSamples(docs, col, g, m))
  {
    hide GroupValues, GroupSamples;
    var a, b := GroupValues(docs, col, g, m, k), GroupSamples(docs, col, g, m);
    GroupValuesScale(docs, col, g, m, k);
    if b == [] {
      assert k * |b| == 0;
      assert a == [];
    } else {
      assert k * |b| > 0;
      assert a != [] && |a| == k * |b|;
      AverageScales(Sum(a), |a|, Sum(b), |b|, k);
    }
  }

  lemma AverageScales(s: real, n: nat, s': real, n': nat, k: nat)
    requires k > 0 && n' > 0 && s == (k as real) * s' && n == k * n' && n > 0
    ensures s / (n as real) == s' / (n' as real)
  {
    RealProduct(k, n');
    ScaleCancels(k as real, s', n' as real);
    assert (n as real) == (k as real) * (n' as real);
  }

  lemma {:induction false} MentionedAtLeastOnce(names: seq<string>, m: string)
    requires m in names
    ensures Occurrences(names, m) > 0
  {
    if names[|names| - 1] != m {
      assert names == names[..|names| - 1] + [names[|names| - 1]];
      MentionedAtLeastOnce(names[..|names| - 1], m);
    }
  }

  // ----- aggregate -----

  /**
    Over the same bag of records both stores give the same groups, the same counts,
    and the same averages. A metric without samples in a group is None in the JSON
    store and missing from the SQLite row.
  */
  lemma AggregatesAgree(es: seq<Entry>, next: nat, docs: seq<Doc>, col: GroupColumn, names: seq<string>,
                        sql: map<string, AggregateRow>)
    requires WellNumbered(es, next) && multiset(DocsOf(es)) == multiset(docs)
    requires Aggregated(sql, col, names, RunsOf(es), BenchesOf(es), MetricsOf(es))
    ensures var json := AggregateDocs(docs, col, names);
      && sql.Keys == json.Keys
      && forall g :: g in sql ==>
           && sql[g].count == json[g].count
           && sql[g].averages.Keys <= json[g].averages.Keys == Names(names)
           && forall m :: m in names ==>
                json[g].averages[m] == if m in sql[g].averages then Some(sql[g].averages[m]) else None
  {
    hide JoinedValues, GroupSamples, GroupValues, BenchesOf, MetricsOf, WellNumbered, CountRows, GroupSize, AverageOf;
    hide Occurrences;
    var json := AggregateDocs(docs, col, names);
    GroupsAreSeen(es, col);
    SeenPermutes(DocsOf(es), docs, col);
    forall g | g in sql
      ensures sql[g].count == json[g].count
    {
      CountIsSize(es, col, g);
      AggregatePermutes(DocsOf(es), docs, col, g, "");
    }
    forall g, m | g in sql && m in names
      ensures json[g].averages[m] == if m in sql[g].averages then Some(sql[g].averages[m]) else None
    {
      AveragesAgree(es, next, docs, col, g, names, m);
    }
  }

  /** The average over the join is the average over what the JSON store collects, if there is anything. */
  lemma AveragesAgree(es: seq<Entry>, next: nat, docs: seq<Doc>, col: GroupColumn, g: string, names: seq<string>,
                      m: string)
    requires WellNumbered(es, next) && multiset(DocsOf(es)) == multiset(docs) && m in names
    ensures var joined := JoinedValues(MetricsOf(es), BenchesOf(es), RunsOf(es), m, col, g);
      && AverageOf(GroupValues(docs, col, g, m, Occurrences(names, m))) == AverageOf(joined)
      && (AverageOf(joined) == None <==> joined == [])
  {
    hide JoinedValues, GroupSamples, GroupValues, BenchesOf, MetricsOf, RunsOf, WellNumbered, AverageOf, Occurrences;
    hide DocsOf;
    JoinIsSamples(es, next, m, col, g);
    AggregatePermutes(DocsOf(es), docs, col, g, m);
    MentionedAtLeastOnce(names, m);
    MentionsDoNotMatter(docs, col, g, m, Occurrences(names, m));
    NoneWithoutSamples(GroupSamples(DocsOf(es), col, g, m));
  }

  lemma NoneWithoutSamples(s: seq<real>)
    ensures AverageOf(s).None? <==> s == []
  {
  }

  lemma SeenPermutes(a: seq<Doc>, b: seq<Doc>, col: GroupColumn)
    requires multiset(a) == multiset(b)
    ensures GroupsSeen(a, col) == GroupsSeen(b, col)
  {
    assert forall d :: d in a <==> d in multiset(a);
    assert forall d :: d in b <==> d in multiset(b);
  }
}

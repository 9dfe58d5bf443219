/**
  What aggregate returns, on the fields of the records: the groups, their sizes, and the
  mean of each metric (src/kitt/storage/json_store.py and sqlite_store.py).
*/
module AggregateMeaning {
  import opened Basics
  import opened Sorting
  import opened ResultModel
  import opened SqliteTables
  import opened SqliteStore
  import opened JsonStore
  import opened StoreEquivalence
  import opened Picking

  // ----- groups -----

  /** The record's text in the grouping field. */
  predicate InGroup(groupBy: string, g: string, d: Doc) {
    || (groupBy == "model" && d.model == g) || (groupBy == "engine" && d.engine == g)
    || (groupBy == "suite_name" && d.suiteName == g) || (groupBy == "kitt_version" && d.kittVersion == g)
    || (groupBy == "timestamp" && d.timestamp == g)
    || (groupBy == "passed" && g == if d.passed then "True" else "False")
  }

  predicate KnownGroup(groupBy: string) {
    groupBy in {"model", "engine", "suite_name", "kitt_version", "timestamp", "passed"}
  }

  lemma GroupOfField(groupBy: string, g: string, d: Doc)
    requires KnownGroup(groupBy)
    ensures GroupField(groupBy).Some? && (GroupOf(d, GroupField(groupBy).value) == g <==> InGroup(groupBy, g, d))
  {
    assert |"model"| == 5 && |"engine"| == 6 && |"suite_name"| == 10 && |"timestamp"| == 9 && |"kitt_version"| == 12;
    assert |"passed"| == 6 && "passed"[0] != "engine"[0];
    assert |"total_time_seconds"| == 18 && |"results"| == 7 && |"system_info"| == 11 && |"_source_path"| == 12;
    assert "_source_path"[0] != "kitt_version"[0] && |"_id"| == 3;
  }

  /** The three columns that SQLite groups by. */
  lemma SqlGroups(groupBy: string)
    ensures GroupNamed(groupBy).Some? <==> groupBy in {"model", "engine", "suite_name"}
    ensures GroupNamed(groupBy).Some? ==> GroupField(groupBy) == GroupNamed(groupBy) && KnownGroup(groupBy)
  {
  }

  function Members(docs: seq<Doc>, groupBy: string, g: string): set<int> {
    set i | 0 <= i < |docs| && InGroup(groupBy, g, docs[i])
  }

  lemma {:induction false} GroupSizeIs(docs: seq<Doc>, groupBy: string, g: string)
    requires KnownGroup(groupBy)
    ensures GroupField(groupBy).Some? && GroupSize(docs, GroupField(groupBy).value, g) == |Members(docs, groupBy, g)|
  {
    hide InGroup, GroupOf, GroupField, KnownGroup, Holding;
    var p := (d: Doc) => InGroup(groupBy, g, d);
    SizeIsTally(docs, groupBy, g);
    TallyIs(docs, p);
    MembersHold(docs, groupBy, g);
  }

  lemma MembersHold(docs: seq<Doc>, groupBy: string, g: string)
    ensures Members(docs, groupBy, g) == Holding(docs, (d: Doc) => InGroup(groupBy, g, d))
  {
    hide InGroup;
  }

  lemma {:induction false} SizeIsTally(docs: seq<Doc>, groupBy: string, g: string)
    requires KnownGroup(groupBy)
    ensures GroupField(groupBy).Some?
    ensures GroupSize(docs, GroupField(groupBy).value, g) == Tally(docs, (d: Doc) => InGroup(groupBy, g, d))
  {
    hide InGroup, GroupOf, GroupField, KnownGroup;
    if docs == [] {
      GroupOfField(groupBy, g, Doc("", "", "", "", false, 0.0, "", [], None));
    } else {
      SizeIsTally(docs[..|docs| - 1], groupBy, g);
      GroupOfField(groupBy, g, docs[|docs| - 1]);
    }
  }

  lemma GroupsAre(docs: seq<Doc>, groupBy: string, g: string)
    requires KnownGroup(groupBy)
    ensures GroupField(groupBy).Some?
    ensures g in GroupsSeen(docs, GroupField(groupBy).value) <==> Members(docs, groupBy, g) != {}
  {
    hide InGroup, GroupOf, GroupField, KnownGroup;
    GroupOfField(groupBy, g, Doc("", "", "", "", false, 0.0, "", [], None));
    var col := GroupField(groupBy).value;
    if g in GroupsSeen(docs, col) {
      var d :| d in docs && GroupOf(d, col) == g;
      GroupOfField(groupBy, g, d);
      var i :| 0 <= i < |docs| && docs[i] == d;
      assert i in Members(docs, groupBy, g);
    }
    if i :| i in Members(docs, groupBy, g) {
      GroupOfField(groupBy, g, docs[i]);
    } else {
      assert Members(docs, groupBy, g) == {};
    }
  }

  // ----- samples -----

  /** A metric's sample in a benchmark is its number there, if it is one. */
  lemma {:induction false} SampleExactly(ms: seq<(string, MetricValue)>, m: string)
    requires MetricNamesDistinct(ms)
    ensures Sample(ms, m).Some? ==> exists i :: 0 <= i < |ms| && ms[i] == (m, Number(Sample(ms, m).value))
    ensures forall i :: 0 <= i < |ms| && ms[i].0 == m && ms[i].1.Number? ==> Sample(ms, m) == Some(ms[i].1.value)
  {
    if ms != [] {
      if ms[0].0 == m {
        assert forall i :: 0 < i < |ms| ==> ms[i].0 != m;
        assert ms[0].1.Number? ==> ms[0] == (m, Number(ms[0].1.value));
      } else {
        SampleExactly(ms[1..], m);
        if Sample(ms, m).Some? {
          var i :| 0 <= i < |ms[1..]| && ms[1..][i] == (m, Number(Sample(ms, m).value));
          assert ms[i + 1] == ms[1..][i];
        }
        assert forall i :: 0 < i < |ms| ==> ms[i] == ms[1..][i - 1];
      }
    }
  }

  /** All benchmarks of all records, each with its record, in order. */
  function Benches(docs: seq<Doc>): seq<(Doc, Bench)> {
    if docs == [] then [] else Benches(docs[..|docs| - 1]) + BenchesOfOne(docs[|docs| - 1], docs[|docs| - 1].results)
  }

  function BenchesOfOne(d: Doc, benches: seq<Bench>): seq<(Doc, Bench)> {
    seq(|benches|, i requires 0 <= i < |benches| => (d, benches[i]))
  }

  /** The sample that a benchmark of a record of the group contributes. */
  function SampleIn(groupBy: string, g: string, m: string): ((Doc, Bench)) -> Option<real> {
    (x: (Doc, Bench)) => if InGroup(groupBy, g, x.0) then Sample(x.1.metrics, m) else None
  }

  lemma {:induction false} BenchSamplesPicked(d: Doc, benches: seq<Bench>, groupBy: string, g: string, m: string)
    ensures Picked(BenchesOfOne(d, benches), SampleIn(groupBy, g, m),
                   if InGroup(groupBy, g, d) then BenchSamples(benches, m) else [])
  {
    hide Picked, InGroup, Sample;
    var pick := SampleIn(groupBy, g, m);
    if benches == [] {
      PickedNone(pick);
      assert BenchesOfOne(d, benches) == [];
    } else {
      var front, last := benches[..|benches| - 1], benches[|benches| - 1];
      var before := if InGroup(groupBy, g, d) then BenchSamples(front, m) else [];
      BenchSamplesPicked(d, front, groupBy, g, m);
      PickedSnoc(BenchesOfOne(d, front), pick, before, (d, last));
      assert BenchesOfOne(d, benches) == BenchesOfOne(d, front) + [(d, last)];
      NextSample(benches, m);
      assert (if InGroup(groupBy, g, d) then BenchSamples(benches, m) else []) == before + One(pick((d, last)));
    }
  }

  lemma NextSample(benches: seq<Bench>, m: string)
    requires benches != []
    ensures BenchSamples(benches, m)
            == BenchSamples(benches[..|benches| - 1], m) + One(Sample(benches[|benches| - 1].metrics, m))
  {
    hide Sample;
  }

  /** A group's samples of a metric: the numbers of its records' benchmarks, in order. */
  lemma {:induction false} SamplesExactly(docs: seq<Doc>, groupBy: string, g: string, m: string)
    requires KnownGroup(groupBy)
    ensures GroupField(groupBy).Some?
    ensures Picked(Benches(docs), SampleIn(groupBy, g, m), GroupSamples(docs, GroupField(groupBy).value, g, m))
  {
    hide Picked, InGroup, GroupOf, BenchSamples, GroupField, KnownGroup, SampleIn;
    var pick := SampleIn(groupBy, g, m);
    GroupOfField(groupBy, g, Doc("", "", "", "", false, 0.0, "", [], None));
    if docs == [] {
      PickedNone(pick);
    } else {
      var front, last := docs[..|docs| - 1], docs[|docs| - 1];
      SamplesExactly(front, groupBy, g, m);
      GroupOfField(groupBy, g, last);
      BenchSamplesPicked(last, last.results, groupBy, g, m);
      PickedConcat(Benches(front), BenchesOfOne(last, last.results), pick,
                   GroupSamples(front, GroupField(groupBy).value, g, m),
                   if InGroup(groupBy, g, last) then BenchSamples(last.results, m) else []);
    }
  }

  // ----- means -----

  /** a is the mean of these samples; there is none without samples. */
  ghost predicate IsMean(a: Option<real>, samples: seq<real>) {
    && (a.Some? <==> samples != [])
    && (a.Some? ==> a.value * (|samples| as real) == Sum(samples))
  }

  lemma AverageIsMean(samples: seq<real>)
    ensures IsMean(AverageOf(samples), samples)
  {
    hide Sum;
    if samples != [] {
      Divided(Sum(samples), |samples| as real);
    }
  }

  lemma Divided(x: real, n: real)
    requires n > 0.0
    ensures x / n * n == x
  {
  }

  lemma {:induction false} SumAtLeast(samples: seq<real>, lo: real)
    requires forall i :: 0 <= i < |samples| ==> lo <= samples[i]
    ensures lo * (|samples| as real) <= Sum(samples)
  {
    if samples != [] {
      SumAtLeast(samples[1..], lo);
      Stepwise(lo, |samples[1..]| as real);
      assert |samples| as real == (|samples[1..]| as real) + 1.0;
    }
  }

  lemma {:induction false} SumAtMost(samples: seq<real>, hi: real)
    requires forall i :: 0 <= i < |samples| ==> samples[i] <= hi
    ensures Sum(samples) <= hi * (|samples| as real)
  {
    if samples != [] {
      SumAtMost(samples[1..], hi);
      Stepwise(hi, |samples[1..]| as real);
      assert |samples| as real == (|samples[1..]| as real) + 1.0;
    }
  }

  lemma Stepwise(x: real, n: real)
    ensures x * (n + 1.0) == x * n + x
  {
  }

  lemma Cancel(x: real, y: real, n: real)
    requires n > 0.0 && x * n <= y * n
    ensures x <= y
  {
  }

  /** A mean lies between any bounds of the samples, so between the least and the greatest. */
  lemma MeanBetween(a: Option<real>, samples: seq<real>, lo: real, hi: real)
    requires IsMean(a, samples) && forall i :: 0 <= i < |samples| ==> lo <= samples[i] <= hi
    ensures a.Some? ==> lo <= a.value <= hi
  {
    hide Sum;
    if a.Some? {
      SumAtLeast(samples, lo);
      SumAtMost(samples, hi);
      Cancel(lo, a.value, |samples| as real);
      Cancel(a.value, hi, |samples| as real);
    }
  }

  // ----- both stores -----

  /**
    The JSON store's answer: a row for each text that occurs in the grouping field, the
    number of its records, and each metric's mean over its records' numbers.
  */
  lemma JsonAggregateExactly(docs: seq<Doc>, groupBy: string, names: seq<string>)
    requires KnownGroup(groupBy)
    ensures GroupField(groupBy).Some?
    ensures var col := GroupField(groupBy).value;
      var rows := AggregateDocs(docs, col, names);
      && (forall g :: g in rows <==> Members(docs, groupBy, g) != {})
      && forall g :: g in rows ==>
           && rows[g].count == |Members(docs, groupBy, g)|
           && (forall m :: m in rows[g].averages <==> m in names)
           && forall m :: m in names ==> IsMean(rows[g].averages[m], GroupSamples(docs, col, g, m))
  {
    hide Members, GroupOf, GroupField, KnownGroup, GroupSize, GroupValues, GroupSamples, AverageOf, Occurrences, IsMean;
    hide GroupsSeen;
    GroupOfField(groupBy, "", Doc("", "", "", "", false, 0.0, "", [], None));
    var col := GroupField(groupBy).value;
    var rows := AggregateDocs(docs, col, names);
    forall g
      ensures g in rows <==> Members(docs, groupBy, g) != {}
      ensures g in rows ==> rows[g].count == |Members(docs, groupBy, g)|
    {
      GroupsAre(docs, groupBy, g);
      GroupSizeIs(docs, groupBy, g);
    }
    forall g, m | g in rows && m in names
      ensures IsMean(rows[g].averages[m], GroupSamples(docs, col, g, m))
    {
      MentionedAtLeastOnce(names, m);
      MentionsDoNotMatter(docs, col, g, m, Occurrences(names, m));
      AverageIsMean(GroupSamples(docs, col, g, m));
    }
  }

  /** SQLite's answer: the same, with metrics without numbers left out. */
  lemma SqlAggregateExactly(es: seq<Entry>, next: nat, groupBy: string, names: seq<string>,
                            rows: map<string, AggregateRow>)
    requires GroupNamed(groupBy).Some? && WellNumbered(es, next)
    requires Aggregated(rows, GroupNamed(groupBy).value, names, RunsOf(es), BenchesOf(es), MetricsOf(es))
    ensures var docs, col := DocsOf(es), GroupNamed(groupBy).value;
      && (forall g :: g in rows <==> Members(docs, groupBy, g) != {})
      && forall g :: g in rows ==>
           && rows[g].count == |Members(docs, groupBy, g)|
           && (forall m :: m in rows[g].averages ==> m in names)
           && forall m :: m in names ==>
                IsMean(if m in rows[g].averages then Some(rows[g].averages[m]) else None, GroupSamples(docs, col, g, m))
  {
    hide Members, GroupOf, GroupField, KnownGroup, GroupSize, JoinedValues, GroupSamples, AverageOf, IsMean, GroupNamed;
    hide GroupsSeen, GroupsIn, CountRows, RunsOf, BenchesOf, MetricsOf, DocsOf, WellNumbered;
    SqlGroups(groupBy);
    var docs, col := DocsOf(es), GroupNamed(groupBy).value;
    GroupsAreSeen(es, col);
    forall g
      ensures g in rows <==> Members(docs, groupBy, g) != {}
      ensures g in rows ==> rows[g].count == |Members(docs, groupBy, g)|
    {
      GroupsAre(docs, groupBy, g);
      GroupSizeIs(docs, groupBy, g);
      CountIsSize(es, col, g);
    }
    forall g, m | g in rows && m in names
      ensures IsMean(if m in rows[g].averages then Some(rows[g].averages[m]) else None, GroupSamples(docs, col, g, m))
    {
      JoinIsSamples(es, next, m, col, g);
      AverageIsMean(GroupSamples(docs, col, g, m));
      NoneWithoutSamples(GroupSamples(docs, col, g, m));
    }
  }
}

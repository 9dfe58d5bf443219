/**
  What a comparison reports, on the results' entries and on the reported numbers
  (src/kitt/reporters/comparison.py).
*/
module ComparisonMeaning {
  import opened Basics
  import opened Sorting
  import opened Comparison

  // ----- which values -----

  /** Where an entry stands: which result, which of its benchmarks, which of its metrics. */
  datatype Place = Place(result: int, bench: int, entry: int)

  predicate Earlier(a: Place, b: Place) {
    a.result < b.result || (a.result == b.result && (a.bench < b.bench || (a.bench == b.bench && a.entry < b.entry)))
  }

  /** The place of a number under this name. */
  predicate Numeric(results: seq<seq<Metrics>>, name: string, a: Place) {
    && 0 <= a.result < |results| && 0 <= a.bench < |results[a.result]|
    && 0 <= a.entry < |results[a.result][a.bench]|
    && results[a.result][a.bench][a.entry].0 == name && results[a.result][a.bench][a.entry].1.Number?
  }

  function NumberAt(results: seq<seq<Metrics>>, name: string, a: Place): real
    requires Numeric(results, name, a)
  {
    results[a.result][a.bench][a.entry].1.x
  }

  /** The values are the numbers under this name, each once, results first, then benchmarks, then entries. */
  ghost predicate ReadAt(results: seq<seq<Metrics>>, name: string, values: seq<real>, p: seq<Place>) {
    && |p| == |values|
    && (forall k :: 0 <= k < |p| ==> Numeric(results, name, p[k]) && NumberAt(results, name, p[k]) == values[k])
    && (forall j, k :: 0 <= j < k < |p| ==> Earlier(p[j], p[k]))
    && forall a :: Numeric(results, name, a) ==> a in p
  }

  /** Appends the numbers of one more stretch, whose places all come later. */
  lemma ReadMore(results: seq<seq<Metrics>>, more: seq<seq<Metrics>>, name: string, values: seq<real>, p: seq<Place>,
                 extra: Option<(Place, real)>)
    requires ReadAt(results, name, values, p)
    requires forall a :: Numeric(results, name, a) ==>
               Numeric(more, name, a) && NumberAt(more, name, a) == NumberAt(results, name, a)
    requires forall a :: Numeric(more, name, a) ==> Numeric(results, name, a) || (extra.Some? && a == extra.value.0)
    requires extra.Some? ==> Numeric(more, name, extra.value.0) && NumberAt(more, name, extra.value.0) == extra.value.1
    requires extra.Some? ==> forall a :: Numeric(results, name, a) ==> Earlier(a, extra.value.0)
    ensures match extra
            case None => ReadAt(more, name, values, p)
            case Some(e) => ReadAt(more, name, values + [e.1], p + [e.0])
  {
    hide Numeric, NumberAt, Earlier;
  }

  /** The results without their last entry, or without an empty last benchmark or result. */
  function Shorter(results: seq<seq<Metrics>>): seq<seq<Metrics>>
    requires results != []
  {
    var front, benches := results[..|results| - 1], results[|results| - 1];
    if benches == [] then front
    else
      var before, metrics := benches[..|benches| - 1], benches[|benches| - 1];
      if metrics == [] then front + [before] else front + [before + [metrics[..|metrics| - 1]]]
  }

  /** The last entry, if the last result and its last benchmark have one. */
  function LastEntry(results: seq<seq<Metrics>>): Option<(Place, (string, Value))>
    requires results != []
  {
    var i, benches := |results| - 1, results[|results| - 1];
    if benches == [] || benches[|benches| - 1] == [] then None
    else
      var j, metrics := |benches| - 1, benches[|benches| - 1];
      Some((Place(i, j, |metrics| - 1), metrics[|metrics| - 1]))
  }

  lemma SnocEntries(front: seq<seq<Metrics>>, benches: seq<Metrics>)
    ensures Entries(front + [benches]) == Entries(front) + Joined(benches)
  {
    assert (front + [benches])[..|front|] == front;
  }

  lemma SnocJoined(before: seq<Metrics>, metrics: Metrics)
    ensures Joined(before + [metrics]) == Joined(before) + metrics
  {
    assert (before + [metrics])[..|before|] == before;
  }

  lemma EntriesShorter(results: seq<seq<Metrics>>)
    requires results != []
    ensures Entries(results)
            == Entries(Shorter(results)) + (if LastEntry(results).Some? then [LastEntry(results).value.1] else [])
  {
    hide Entries, Joined;
    var front, benches := results[..|results| - 1], results[|results| - 1];
    assert results == front + [benches];
    SnocEntries(front, benches);
    if benches == [] {
      NothingJoined();
    } else {
      var before, metrics := benches[..|benches| - 1], benches[|benches| - 1];
      assert benches == before + [metrics];
      SnocJoined(before, metrics);
      if metrics == [] {
        SnocEntries(front, before);
      } else {
        var less, last := metrics[..|metrics| - 1], metrics[|metrics| - 1];
        SnocJoined(before, less);
        SnocEntries(front, before + [less]);
        assert metrics == less + [last];
      }
    }
  }

  lemma NothingJoined()
    ensures Joined([]) == []
  {
  }

  lemma NumericShorter(results: seq<seq<Metrics>>, name: string, a: Place)
    requires results != []
    ensures Numeric(Shorter(results), name, a) ==>
              Numeric(results, name, a) && NumberAt(results, name, a) == NumberAt(Shorter(results), name, a)
    ensures Numeric(results, name, a) ==>
              Numeric(Shorter(results), name, a) || (LastEntry(results).Some? && a == LastEntry(results).value.0)
    ensures Numeric(Shorter(results), name, a) && LastEntry(results).Some? ==> Earlier(a, LastEntry(results).value.0)
  {
  }

  function LastNumber(results: seq<seq<Metrics>>, name: string): Option<(Place, real)>
    requires results != []
  {
    match LastEntry(results)
    case Some((place, (key, Number(x)))) => if key == name then Some((place, x)) else None
    case _ => None
  }

  lemma ValuesShorter(results: seq<seq<Metrics>>, name: string)
    requires results != []
    ensures Values(Entries(results), name)
            == Values(Entries(Shorter(results)), name)
               + (if LastNumber(results, name).Some? then [LastNumber(results, name).value.1] else [])
  {
    hide Entries, Shorter, LastEntry;
    EntriesShorter(results);
    var before := Entries(Shorter(results));
    if LastEntry(results).Some? {
      assert (before + [LastEntry(results).value.1])[..|before|] == before;
    } else {
      assert before + [] == before;
    }
  }

  lemma LastNumberIs(results: seq<seq<Metrics>>, name: string)
    requires results != []
    ensures match LastNumber(results, name)
            case Some(e) => LastEntry(results).Some? && e.0 == LastEntry(results).value.0
                            && Numeric(results, name, e.0) && NumberAt(results, name, e.0) == e.1
            case None => LastEntry(results).Some? ==> !Numeric(results, name, LastEntry(results).value.0)
  {
  }

  /** How many entries, results and benchmarks of the last result there are. */
  function Extent(results: seq<seq<Metrics>>): nat {
    if results == [] then 0 else |results[|results| - 1]|
  }

  lemma ShorterIsLess(results: seq<seq<Metrics>>)
    requires results != []
    ensures |Shorter(results)| < |results|
            || (|Shorter(results)| == |results|
                && (LastEntry(results).Some? || Extent(Shorter(results)) < Extent(results)))
  {
  }

  /** The values of a name are the numbers that the results hold under it. */
  lemma {:induction false} ValuesExactly(results: seq<seq<Metrics>>, name: string) returns (p: seq<Place>)
    ensures ReadAt(results, name, Values(Entries(results), name), p)
    decreases |Entries(results)|, |results|, Extent(results)
  {
    hide Earlier, Entries, Shorter, LastEntry, LastNumber, Extent, Values;
    if results == [] {
      p := [];
      NothingEntered(name);
    } else {
      hide Numeric, NumberAt;
      EntriesShorter(results);
      ShorterIsLess(results);
      p := ValuesExactly(Shorter(results), name);
      ValuesShorter(results, name);
      LastNumberIs(results, name);
      forall a
        ensures Numeric(Shorter(results), name, a) ==>
                  Numeric(results, name, a) && NumberAt(results, name, a) == NumberAt(Shorter(results), name, a)
        ensures Numeric(results, name, a) ==>
                  Numeric(Shorter(results), name, a) || (LastEntry(results).Some? && a == LastEntry(results).value.0)
        ensures Numeric(Shorter(results), name, a) && LastEntry(results).Some? ==>
                  Earlier(a, LastEntry(results).value.0)
      {
        NumericShorter(results, name, a);
      }
      var extra := LastNumber(results, name);
      ReadMore(Shorter(results), results, name, Values(Entries(Shorter(results)), name), p, extra);
      p := if extra.Some? then p + [extra.value.0] else p;
      assert Values(Entries(Shorter(results)), name) + [] == Values(Entries(Shorter(results)), name);
    }
  }

  lemma NothingEntered(name: string)
    ensures Values(Entries([]), name) == []
  {
  }

  // ----- the statistics -----

  /** Running totals of the terms, from 0 to total. */
  ghost predicate RunningTotals(terms: seq<real>, total: real, t: seq<real>) {
    && |t| == |terms| + 1 && t[0] == 0.0 && t[|terms|] == total
    && forall i :: 0 <= i < |terms| ==> t[i + 1] == t[i] + terms[i]
  }

  ghost predicate AddsUp(terms: seq<real>, total: real) {
    exists t :: RunningTotals(terms, total, t)
  }

  ghost predicate IsMean(terms: seq<real>, mean: real) {
    exists total :: AddsUp(terms, total) && mean * (|terms| as real) == total
  }

  ghost predicate SquaresFrom(values: seq<real>, avg: real, squares: seq<real>) {
    |squares| == |values| && forall i :: 0 <= i < |values| ==> squares[i] == (values[i] - avg) * (values[i] - avg)
  }

  /** The mean squared distance from avg. */
  ghost predicate IsVariance(values: seq<real>, avg: real, variance: real) {
    exists squares :: SquaresFrom(values, avg, squares) && IsMean(squares, variance)
  }

  lemma {:induction false} TotalAddsUp(values: seq<real>, f: real -> real, terms: seq<real>)
    requires |terms| == |values| && forall i :: 0 <= i < |values| ==> terms[i] == f(values[i])
    ensures AddsUp(terms, Total(values, f))
  {
    if values == [] {
      assert RunningTotals(terms, 0.0, [0.0]);
    } else {
      var n := |values| - 1;
      TotalAddsUp(values[..n], f, terms[..n]);
      TotalConcat(values[..n], [values[n]], f);
      assert values == values[..n] + [values[n]];
      TotalOfOne(values[n], f);
      var t :| RunningTotals(terms[..n], Total(values[..n], f), t);
      assert RunningTotals(terms, Total(values, f), t + [Total(values, f)]);
    }
  }

  lemma TotalOfOne(x: real, f: real -> real)
    ensures Total([x], f) == f(x)
  {
    assert [x][1..] == [];
  }

  /** The reported numbers of a metric with these values. */
  ghost predicate Describes(s: Stats, values: seq<real>, root: real -> real) {
    && s.count == |values|
    && s.min in values && s.max in values && (forall v :: v in values ==> s.min <= v <= s.max)
    && s.range == s.max - s.min
    && IsMean(values, s.avg)
    && (s.spread.Some? <==> s.count >= 2)
    && (s.spread.Some? ==> Spreads(s.spread.value, s.avg, values, root))
  }

  /** The root of the variance, also in percent of the average. */
  ghost predicate Spreads(d: Spread, avg: real, values: seq<real>, root: real -> real) {
    && (exists variance :: d.stdDev == root(variance) && IsVariance(values, avg, variance))
    && (if avg == 0.0 then d.cvPercent == 0.0 else d.cvPercent * avg == 100.0 * d.stdDev)
  }

  lemma Undone(x: real, n: real)
    requires n != 0.0
    ensures x / n * n == x
  {
  }

  lemma PercentOf(x: real, avg: real)
    requires avg != 0.0
    ensures x / avg * 100.0 * avg == 100.0 * x
  {
    Undone(x, avg);
    assert x / avg * 100.0 * avg == x / avg * avg * 100.0;
  }

  lemma MeanOf(terms: seq<real>, total: real)
    requires terms != [] && AddsUp(terms, total)
    ensures IsMean(terms, total / (|terms| as real))
  {
    hide AddsUp;
    Undone(total, |terms| as real);
  }

  lemma AverageIs(values: seq<real>)
    requires values != []
    ensures IsMean(values, Average(values))
  {
    hide AddsUp, Total, IsMean;
    TotalAddsUp(values, Itself(), values);
    MeanOf(values, Sum(values));
  }

  lemma VarianceIs(values: seq<real>)
    requires values != []
    ensures IsVariance(values, Average(values), Variance(values))
  {
    hide AddsUp, Total, Average, IsMean;
    var avg := Average(values);
    var squares := seq(|values|, i requires 0 <= i < |values| => (values[i] - avg) * (values[i] - avg));
    TotalAddsUp(values, Deviation(avg), squares);
    MeanOf(squares, Total(values, Deviation(avg)));
    assert SquaresFrom(values, avg, squares);
  }

  lemma StatsExactly(values: seq<real>, root: real -> real)
    requires values != []
    ensures Describes(StatsOf(values, root), values, root)
  {
    hide IsMean, IsVariance, Average, Variance, MinOf, MaxOf;
    MinMaxBound(values);
    AverageIs(values);
    VarianceIs(values);
    if Average(values) != 0.0 {
      PercentOf(root(Variance(values)), Average(values));
    }
  }

  // ----- the whole comparison -----

  /** The metrics compared are the wanted ones that have a number, each with its statistics. */
  ghost predicate Compares(results: seq<seq<Metrics>>, keys: Option<seq<string>>, root: real -> real,
                           comparison: map<string, Stats>) {
    && (forall name :: name in comparison <==>
          (keys == None || name in keys.value) && exists a :: Numeric(results, name, a))
    && forall name :: name in comparison ==>
         exists values, p :: ReadAt(results, name, values, p) && Describes(comparison[name], values, root)
  }

  lemma ComparisonExactly(results: seq<seq<Metrics>>, keys: Option<seq<string>>, root: real -> real,
                          comparison: map<string, Stats>)
    requires forall name :: name in comparison <==> Wanted(keys, name) && Values(Entries(results), name) != []
    requires forall name :: name in comparison ==> comparison[name] == StatsOf(Values(Entries(results), name), root)
    ensures Compares(results, keys, root, comparison)
  {
    hide Values, Entries, StatsOf, Describes, Numeric, NumberAt, Earlier;
    forall name
      ensures Values(Entries(results), name) != [] <==> exists a :: Numeric(results, name, a)
      ensures name in comparison ==>
                exists values, p :: ReadAt(results, name, values, p) && Describes(comparison[name], values, root)
    {
      var values := Values(Entries(results), name);
      var p := ValuesExactly(results, name);
      if values != [] {
        assert Numeric(results, name, p[0]);
        StatsExactly(values, root);
      }
    }
  }
}

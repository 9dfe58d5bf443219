/** Comparison statistics over result sets (src/kitt/reporters/comparison.py). */
module Comparison {
  import opened Basics
  import opened Sorting

  /** A metric as found in a result: a number, or something that is skipped. */
  datatype Value = Number(x: real) | Other

  /** One benchmark's metrics: a dict, so names are distinct, in insertion order. */
  type Metrics = seq<(string, Value)>

  datatype Spread = Spread(stdDev: real, cvPercent: real)

  datatype Stats = Stats(min: real, max: real, avg: real, range: real, count: nat, spread: Option<Spread>)

  // ----- collecting -----

  predicate Wanted(keys: Option<seq<string>>, name: string) {
    keys.None? || name in keys.value
  }

  /** All values of one metric, in the order of the results, their benchmarks and entries. */
  function Values(entries: Metrics, name: string): seq<real> {
    if entries == [] then []
    else Values(entries[..|entries| - 1], name)
         + (var e := entries[|entries| - 1]; if e.0 == name && e.1.Number? then [e.1.x] else [])
  }

  /** The entries of all benchmarks of all results, one after another. */
  function Entries(results: seq<seq<Metrics>>): Metrics {
    if results == [] then [] else Entries(results[..|results| - 1]) + Joined(results[|results| - 1])
  }

  function Joined(benches: seq<Metrics>): Metrics {
    if benches == [] then [] else Joined(benches[..|benches| - 1]) + benches[|benches| - 1]
  }

  /** What has been collected from a stretch of entries. */
  ghost predicate Collected(all: map<string, seq<real>>, keys: Option<seq<string>>, entries: Metrics) {
    forall name :: (name in all <==> Wanted(keys, name) && Values(entries, name) != [])
                   && (name in all ==> all[name] == Values(entries, name))
  }

  // ----- the statistics -----

  function Deviation(avg: real): real -> real { v => (v - avg) * (v - avg) }

  function MinOf(values: seq<real>): real
    requires values != []
  {
    if |values| == 1 then values[0]
    else if MinOf(values[1..]) < values[0] then MinOf(values[1..]) else values[0]
  }

  function MaxOf(values: seq<real>): real
    requires values != []
  {
    if |values| == 1 then values[0]
    else if MaxOf(values[1..]) > values[0] then MaxOf(values[1..]) else values[0]
  }

  function Average(values: seq<real>): real
    requires values != []
  {
    Sum(values) / (|values| as real)
  }

  function Variance(values: seq<real>): real
    requires values != []
  {
    Total(values, Deviation(Average(values))) / (|values| as real)
  }

  /** `variance**0.5` is the parameter `root`; cv_percent is 0 for an average of 0. */
  function SpreadOf(values: seq<real>, root: real -> real): Spread
    requires values != []
  {
    var stdDev, avg := root(Variance(values)), Average(values);
    Spread(stdDev, if avg != 0.0 then stdDev / avg * 100.0 else 0.0)
  }

  function StatsOf(values: seq<real>, root: real -> real): Stats
    requires values != []
  {
    Stats(MinOf(values), MaxOf(values), Average(values), MaxOf(values) - MinOf(values), |values|,
          if |values| > 1 then Some(SpreadOf(values, root)) else None)
  }

  // ----- compare_metrics -----

  /** Adds one metric entry to the lists being collected. */
  method Collect(all: map<string, seq<real>>, keys: Option<seq<string>>, entry: (string, Value), ghost before: Metrics)
    returns (more: map<string, seq<real>>)
    requires Collected(all, keys, before)
    ensures Collected(more, keys, before + [entry])
  {
    assert (before + [entry])[..|before|] == before;
    more := all;
    if entry.1.Number? && Wanted(keys, entry.0) {
      if entry.0 !in more {
        more := more[entry.0 := []];
      }
      more := more[entry.0 := more[entry.0] + [entry.1.x]];
    }
    forall name
      ensures Values(before + [entry], name)
              == Values(before, name) + (if entry.0 == name && entry.1.Number? then [entry.1.x] else [])
    {
    }
  }

  method CollectAll(results: seq<seq<Metrics>>, keys: Option<seq<string>>) returns (all: map<string, seq<real>>)
    ensures Collected(all, keys, Entries(results))
  {
    hide Collected;
    all := map[];
    NothingCollected(keys);
    assert Entries(results[..0]) == [];
    for i := 0 to |results|
      invariant Collected(all, keys, Entries(results[..i]))
    {
      assert results[..i + 1][..i] == results[..i];
      var benches := results[i];
      assert Entries(results[..i]) + Joined(benches[..0]) == Entries(results[..i]);
      for j := 0 to |benches|
        invariant Collected(all, keys, Entries(results[..i]) + Joined(benches[..j]))
      {
        assert benches[..j + 1][..j] == benches[..j];
        var metrics := benches[j];
        ghost var before := Entries(results[..i]) + Joined(benches[..j]);
        assert before + metrics[..0] == before;
        for k := 0 to |metrics|
          invariant Collected(all, keys, before + metrics[..k])
        {
          all := Collect(all, keys, metrics[k], before + metrics[..k]);
          assert before + metrics[..k + 1] == (before + metrics[..k]) + [metrics[k]];
        }
        assert metrics[..|metrics|] == metrics;
        assert before + metrics == Entries(results[..i]) + Joined(benches[..j + 1]);
      }
      assert benches[..|benches|] == benches;
    }
    assert results[..|results|] == results;
  }

  lemma NothingCollected(keys: Option<seq<string>>)
    ensures Collected(map[], keys, [])
  {
  }

  method CompareMetrics(results: seq<seq<Metrics>>, keys: Option<seq<string>>, root: real -> real)
    returns (comparison: map<string, Stats>)
    ensures forall name :: name in comparison <==> Wanted(keys, name) && Values(Entries(results), name) != []
    ensures forall name :: name in comparison ==> comparison[name] == StatsOf(Values(Entries(results), name), root)
  {
    hide StatsOf;
    if results == [] {
      return map[];
    }
    var all := CollectAll(results, keys);
    comparison := map name | name in all :: StatsOf(all[name], root);
  }

  // ----- the bounds -----

  lemma {:induction false} MinMaxBound(values: seq<real>)
    requires values != []
    ensures MinOf(values) in values && MaxOf(values) in values
    ensures forall v :: v in values ==> MinOf(values) <= v <= MaxOf(values)
  {
    if |values| > 1 {
      MinMaxBound(values[1..]);
      assert values == [values[0]] + values[1..];
    }
  }

  /** A total of a function that lies below another one's lies below it. */
  lemma {:induction false} TotalMonotone(values: seq<real>, f: real -> real, g: real -> real)
    requires forall v :: v in values ==> f(v) <= g(v)
    ensures Total(values, f) <= Total(values, g)
  {
    if values != [] {
      var x := values[0];
      assert x in values;
      assert f(x) <= g(x);
      assert forall v :: v in values[1..] ==> v in values;
      TotalMonotone(values[1..], f, g);
    }
  }

  function Line(a: real, b: real): real -> real { v => a * v + b }

  /** The total of a linear function is that function of the sum. */
  lemma {:induction false} TotalOfLine(values: seq<real>, a: real, b: real)
    ensures Total(values, Line(a, b)) == a * Sum(values) + b * (|values| as real)
  {
    if values == [] {
      assert a * 0.0 == 0.0 && b * 0.0 == 0.0;
    } else {
      var n := |values[1..]| as real;
      TotalOfLine(values[1..], a, b);
      LineStep(a, b, values[0], Sum(values[1..]), n);
      assert |values| as real == n + 1.0;
    }
  }

  lemma LineStep(a: real, b: real, v: real, s: real, n: real)
    ensures (a * v + b) + (a * s + b * n) == a * (v + s) + b * (n + 1.0)
  {
  }

  lemma Scale(x: real, y: real, n: real)
    requires n > 0.0 && x <= y * n
    ensures x / n <= y
  {
  }

  lemma ScaleUp(x: real, y: real, n: real)
    requires n > 0.0 && y * n <= x
    ensures y <= x / n
  {
  }

  lemma {:induction false} SumBetween(values: seq<real>, lo: real, hi: real)
    requires forall v :: v in values ==> lo <= v <= hi
    ensures lo * (|values| as real) <= Sum(values) <= hi * (|values| as real)
  {
    if values != [] {
      var n := |values[1..]| as real;
      assert values[0] in values && forall v :: v in values[1..] ==> v in values;
      SumBetween(values[1..], lo, hi);
      assert |values| as real == n + 1.0;
      assert lo * (n + 1.0) == lo * n + lo && hi * (n + 1.0) == hi * n + hi;
    }
  }

  /** The average lies between the least and the greatest value. */
  lemma AverageBetween(values: seq<real>)
    requires values != []
    ensures MinOf(values) <= Average(values) <= MaxOf(values)
  {
    hide Sum, MinOf, MaxOf;
    MinMaxBound(values);
    SumBetween(values, MinOf(values), MaxOf(values));
    Scale(Sum(values), MaxOf(values), |values| as real);
    ScaleUp(Sum(values), MinOf(values), |values| as real);
  }

  lemma ProductNotNegative(x: real, y: real)
    requires x >= 0.0 && y >= 0.0
    ensures x * y >= 0.0
  {
  }

  lemma SquareNotNegative(x: real)
    ensures x * x >= 0.0
  {
  }

  lemma SquareOfDifference(x: real, y: real)
    ensures (x - y) * (x - y) == x * x - 2.0 * (x * y) + y * y
  {
  }

  /** A square deviation lies below the chord of the parabola between lo and hi. */
  lemma BelowChord(v: real, avg: real, lo: real, hi: real)
    requires lo <= v <= hi
    ensures (v - avg) * (v - avg) <= (lo + hi - 2.0 * avg) * v + (avg * avg - lo * hi)
  {
    ProductNotNegative(v - lo, hi - v);
    assert (v - lo) * (hi - v) == (lo + hi) * v - v * v - lo * hi;
    SquareOfDifference(v, avg);
  }

  lemma ChordAtAverage(avg: real, lo: real, hi: real)
    ensures (lo + hi - 2.0 * avg) * avg + (avg * avg - lo * hi) == (avg - lo) * (hi - avg)
  {
  }

  lemma SumSquare(x: real, y: real)
    ensures (x + y) * (x + y) == (x - y) * (x - y) + 4.0 * (x * y)
  {
  }

  lemma HalvesBound(a: real, lo: real, hi: real)
    ensures (a - lo) * (hi - a) <= (hi - lo) * (hi - lo) / 4.0
  {
    var x, y := a - lo, hi - a;
    SumSquare(x, y);
    SquareNotNegative(x - y);
    assert x + y == hi - lo;
  }

  /** A total of squares that lies below a chord, once divided by how many there are. */
  lemma ChordAverage(total: real, sum: real, n: real, a: real, b: real)
    requires n > 0.0 && total <= a * sum + b * n
    ensures total / n <= a * (sum / n) + b
  {
    var avg := sum / n;
    assert sum == avg * n;
    assert a * (avg * n) + b * n == (a * avg + b) * n;
    Scale(total, a * avg + b, n);
  }

  lemma SquaresTotal(values: seq<real>, avg: real, lo: real, hi: real)
    requires forall v :: v in values ==> lo <= v <= hi
    ensures 0.0 <= Total(values, Deviation(avg))
                <= (lo + hi - 2.0 * avg) * Sum(values) + (avg * avg - lo * hi) * (|values| as real)
  {
    hide Sum, Total, Line, Deviation;
    var a, b := lo + hi - 2.0 * avg, avg * avg - lo * hi;
    forall v | v in values
      ensures Line(0.0, 0.0)(v) <= Deviation(avg)(v) <= Line(a, b)(v)
    {
      DeviationBetween(v, avg, lo, hi);
    }
    TotalMonotone(values, Deviation(avg), Line(a, b));
    TotalOfLine(values, a, b);
    TotalMonotone(values, Line(0.0, 0.0), Deviation(avg));
    TotalOfLine(values, 0.0, 0.0);
    ZeroLine(Sum(values), |values| as real);
  }

  lemma DeviationBetween(v: real, avg: real, lo: real, hi: real)
    requires lo <= v <= hi
    ensures Line(0.0, 0.0)(v) <= Deviation(avg)(v) <= Line(lo + hi - 2.0 * avg, avg * avg - lo * hi)(v)
  {
    BelowChord(v, avg, lo, hi);
    SquareNotNegative(v - avg);
    assert 0.0 * v == 0.0;
  }

  lemma ZeroLine(x: real, n: real)
    ensures 0.0 * x + 0.0 * n == 0.0
  {
  }

  /** The variance is at most (avg - min)(max - avg), hence at most a quarter of the squared range. */
  lemma {:induction false} VarianceBound(values: seq<real>)
    requires values != []
    ensures var lo, hi, avg := MinOf(values), MaxOf(values), Average(values);
      0.0 <= Variance(values) <= (avg - lo) * (hi - avg) <= (hi - lo) * (hi - lo) / 4.0
  {
    hide Sum, Total, MinOf, MaxOf, Deviation;
    var n, lo, hi, avg := |values| as real, MinOf(values), MaxOf(values), Average(values);
    MinMaxBound(values);
    SquaresTotal(values, avg, lo, hi);
    ChordAverage(Total(values, Deviation(avg)), Sum(values), n, lo + hi - 2.0 * avg, avg * avg - lo * hi);
    ScaleUp(Total(values, Deviation(avg)), 0.0, n);
    ChordAtAverage(avg, lo, hi);
    HalvesBound(avg, lo, hi);
  }

  /** Any square root of the variance, such as the reported std_dev, is at most half the range. */
  lemma DeviationBound(values: seq<real>, stdDev: real)
    requires values != [] && stdDev >= 0.0 && stdDev * stdDev == Variance(values)
    ensures stdDev <= (MaxOf(values) - MinOf(values)) / 2.0
  {
    hide Variance, MinOf, MaxOf, Average;
    VarianceBound(values);
    MinMaxBound(values);
    HalfRoot(stdDev, MaxOf(values) - MinOf(values));
  }

  lemma HalfRoot(x: real, r: real)
    requires x >= 0.0 && r >= 0.0 && x * x <= r * r / 4.0
    ensures x <= r / 2.0
  {
    var y := r / 2.0;
    assert y * y == r * r / 4.0;
    SquaresOrder(x, y);
  }

  lemma ProductPositive(x: real, y: real)
    requires x > 0.0 && y > 0.0
    ensures x * y > 0.0
  {
  }

  lemma SquareFactor(x: real, y: real)
    ensures (x - y) * (x + y) == x * x - y * y
  {
  }

  lemma SquaresOrder(x: real, y: real)
    requires y >= 0.0 && x * x <= y * y
    ensures x <= y
  {
    if x > y {
      ProductPositive(x - y, x + y);
      SquareFactor(x, y);
    }
  }

  /** The statistics depend only on which values there are, not on their order. */
  lemma StatsPermute(a: seq<real>, b: seq<real>, root: real -> real)
    requires a != [] && multiset(a) == multiset(b)
    ensures b != [] && StatsOf(a, root) == StatsOf(b, root)
  {
    assert |multiset(a)| == |a| && |multiset(b)| == |b|;
    assert forall v :: v in a <==> v in multiset(a);
    assert forall v :: v in b <==> v in multiset(b);
    MinMaxBound(a);
    MinMaxBound(b);
    TotalPermutes(a, b, Itself());
    TotalPermutes(a, b, Deviation(Average(a)));
  }

  /** `root` is the square root of x. */
  predicate RootAt(root: real -> real, x: real) {
    root(x) >= 0.0 && root(x) * root(x) == x
  }

  lemma QuotientBound(x: real, y: real, d: real)
    requires 0.0 <= x <= y && d > 0.0
    ensures 0.0 <= x / d <= y / d
  {
  }

  /**
    Every entry of a comparison satisfies min <= avg <= max, and its standard deviation
    is at most half the range; for positive averages cv_percent is that share of the
    average, at most 50 times range / avg.
  */
  lemma StatsAreBounded(values: seq<real>, root: real -> real)
    requires values != [] && RootAt(root, Variance(values))
    ensures var s := StatsOf(values, root);
      && s.min <= s.avg <= s.max && s.range == s.max - s.min >= 0.0 && s.count == |values|
      && (s.spread.Some? <==> s.count > 1)
      && (s.spread.Some? ==> 0.0 <= s.spread.value.stdDev <= s.range / 2.0)
      && (s.spread.Some? && s.avg > 0.0 ==> 0.0 <= s.spread.value.cvPercent <= 50.0 * (s.range / s.avg))
      && (s.spread.Some? && s.avg == 0.0 ==> s.spread.value.cvPercent == 0.0)
  {
    hide Variance, MinOf, MaxOf, Average;
    AverageBetween(values);
    MinMaxBound(values);
    DeviationBound(values, root(Variance(values)));
    var range, avg := MaxOf(values) - MinOf(values), Average(values);
    if avg > 0.0 {
      QuotientBound(root(Variance(values)), range / 2.0, avg);
      Halve(range, avg);
    }
  }

  lemma Halve(x: real, d: real)
    requires d > 0.0
    ensures x / 2.0 / d == x / d / 2.0
  {
  }
}

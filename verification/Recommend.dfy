/** Ranking and the Pareto frontier (src/kitt/recommend/engine.py). */
module Recommend {
  import opened Basics
  import opened Sorting
  import opened Picking

  /** A stored result as the engine reads it; absent metrics read as 0. */
  datatype Entry = Entry(model: string, engine: string, timestamp: string, accuracy: real, avgTps: real)

  datatype Candidate = Candidate(entry: Entry, accuracy: real, throughput: real, score: real)

  const QUERY_LIMIT := 500

  function KeyOf(e: Entry): string { e.model + "|" + e.engine }

  // ----- scoring -----

  function MinReal(a: real, b: real): real { if a <= b then a else b }

  /** Nearest integer, ties to the even one. */
  function RoundHalfEven(x: real): int {
    var f := x.Floor;
    var d := x - (f as real);
    if d < 0.5 || (d == 0.5 && f % 2 == 0) then f else f + 1
  }

  /** `round(x, 4)` */
  function Round4(x: real): real {
    (RoundHalfEven(x * 10000.0) as real) / 10000.0
  }

  function Composite(accuracy: real, throughput: real): real {
    MinReal(accuracy, 1.0) * 0.6 + MinReal(throughput / 100.0, 1.0) * 0.4
  }

  function ScoreResult(e: Entry): Candidate {
    Candidate(e, e.accuracy, e.avgTps, Round4(Composite(e.accuracy, e.avgTps)))
  }

  lemma {:induction false} RoundMonotone(x: real, y: real)
    requires x <= y
    ensures Round4(x) <= Round4(y)
  {
    var a, b := x * 10000.0, y * 10000.0;
    assert a.Floor <= b.Floor;
    assert RoundHalfEven(a) <= RoundHalfEven(b);
  }

  // ----- dominance -----

  /** At least as good in both respects and better in one. */
  predicate Dominates(a: Candidate, b: Candidate) {
    a.accuracy >= b.accuracy && a.throughput >= b.throughput && (a.accuracy > b.accuracy || a.throughput > b.throughput)
  }

  predicate Scored(c: Candidate) {
    c.score == Round4(Composite(c.accuracy, c.throughput))
  }

  /** Capping, weighting and rounding respect dominance. */
  lemma {:induction false} DominanceRaisesScore(a: Candidate, b: Candidate)
    requires Scored(a) && Scored(b) && Dominates(a, b)
    ensures a.score >= b.score
  {
    RoundMonotone(Composite(b.accuracy, b.throughput), Composite(a.accuracy, a.throughput));
  }

  predicate Dominated(c: Candidate, cs: seq<Candidate>) {
    exists i :: 0 <= i < |cs| && Dominates(cs[i], c)
  }

  /** The undominated among the first n candidates, in order. */
  function Frontier(cs: seq<Candidate>, n: nat): seq<Candidate>
    requires n <= |cs|
  {
    if n == 0 then [] else Frontier(cs, n - 1) + (if Dominated(cs[n - 1], cs) then [] else [cs[n - 1]])
  }

  // ----- recommend -----

  predicate HasKey(seen: seq<Entry>, e: Entry) {
    exists i :: 0 <= i < |seen| && KeyOf(seen[i]) == KeyOf(e)
  }

  /** The first result of each model and engine, in order of appearance. */
  function FirstPerKey(results: seq<Entry>): seq<Entry> {
    if results == [] then []
    else
      var front, last := FirstPerKey(results[..|results| - 1]), results[|results| - 1];
      if HasKey(front, last) then front else front + [last]
  }

  function Scores(entries: seq<Entry>, matches: Entry -> bool): seq<Candidate> {
    if entries == [] then []
    else Scores(entries[..|entries| - 1], matches)
         + (if matches(entries[|entries| - 1]) then [ScoreResult(entries[|entries| - 1])] else [])
  }

  datatype SortBy = ByScore | ByThroughput | ByAccuracy

  function Rank(c: Candidate, sortBy: SortBy): real {
    match sortBy
    case ByScore => c.score
    case ByThroughput => c.throughput
    case ByAccuracy => c.accuracy
  }

  function Better(sortBy: SortBy): (Candidate, Candidate) -> bool {
    (a, b) => Rank(a, sortBy) > Rank(b, sortBy)
  }

  /** What the store's 500 latest results recommend, before the limit. */
  function Ranked(stored: seq<Entry>, matches: Entry -> bool, sortBy: SortBy): seq<Candidate> {
    Sort(Better(sortBy), Scores(FirstPerKey(Take(stored, QUERY_LIMIT)), matches))
  }

  // ----- what a recommendation has to be, on the results' own fields -----

  /** Among the 500 latest results, the first of its model and engine, and allowed. */
  predicate IsEligible(stored: seq<Entry>, matches: Entry -> bool, i: int) {
    && 0 <= i < |stored| && i < 500 && matches(stored[i])
    && forall j :: 0 <= j < i ==> stored[j].model + "|" + stored[j].engine != stored[i].model + "|" + stored[i].engine
  }

  function Eligible(stored: seq<Entry>, matches: Entry -> bool): set<int> {
    set i | 0 <= i < |stored| && IsEligible(stored, matches, i)
  }

  /** x rounded to four places, ties to the even one. */
  ghost predicate IsRounded(s: real, x: real) {
    exists n :: TenThousandths(n, s) && IsNearest(n, x * 10000.0)
  }

  predicate TenThousandths(n: int, s: real) { s * 10000.0 == n as real }

  /** n is the integer nearest to y, the even one of two. */
  ghost predicate IsNearest(n: int, y: real) {
    y - 0.5 <= n as real <= y + 0.5 && (y - 0.5 == n as real || n as real == y + 0.5 ==> n % 2 == 0)
  }

  /** 60 per cent accuracy, up to 1, and 40 per cent throughput, up to 100. */
  function Weighted(e: Entry): real {
    0.6 * (if e.accuracy <= 1.0 then e.accuracy else 1.0)
    + 0.4 * (if e.avgTps <= 100.0 then e.avgTps / 100.0 else 1.0)
  }

  ghost predicate IsCandidateOf(c: Candidate, e: Entry) {
    c.entry == e && c.accuracy == e.accuracy && c.throughput == e.avgTps && IsRounded(c.score, Weighted(e))
  }

  ghost predicate NoBetter(sortBy: SortBy, c: Candidate, than: Candidate) {
    match sortBy
    case ByScore => c.score <= than.score
    case ByThroughput => c.throughput <= than.throughput
    case ByAccuracy => c.accuracy <= than.accuracy
  }

  /** The best of the eligible results, best first; p says where they stand among the stored ones. */
  ghost predicate Recommends(stored: seq<Entry>, matches: Entry -> bool, limit: nat, sortBy: SortBy,
                             r: seq<Candidate>, p: seq<int>) {
    && |p| == |r| == Min(limit, |Eligible(stored, matches)|) && Distinct(p)
    && (forall k :: 0 <= k < |p| ==> IsEligible(stored, matches, p[k]) && IsCandidateOf(r[k], stored[p[k]]))
    && (forall i, j :: 0 <= i < j < |r| ==> NoBetter(sortBy, r[j], r[i]))
    && forall i, k :: IsEligible(stored, matches, i) && !Occurs(i, p) && 0 <= k < |r| ==>
         NoBetter(sortBy, ScoreResult(stored[i]), r[k])
  }

  lemma RoundExactly(x: real)
    ensures IsRounded(Round4(x), x)
  {
    hide RoundHalfEven, IsNearest;
    var n := RoundHalfEven(x * 10000.0);
    HalfEvenExactly(x * 10000.0);
    assert TenThousandths(n, Round4(x));
  }

  lemma HalfEvenExactly(y: real)
    ensures IsNearest(RoundHalfEven(y), y)
  {
    var f := y.Floor;
    assert (f + 1) as real == (f as real) + 1.0;
  }

  lemma ScoreExactly(e: Entry)
    ensures IsCandidateOf(ScoreResult(e), e)
  {
    hide IsRounded, Round4;
    var a, t := MinReal(e.accuracy, 1.0), MinReal(e.avgTps / 100.0, 1.0);
    RoundExactly(Composite(e.accuracy, e.avgTps));
    assert a == if e.accuracy <= 1.0 then e.accuracy else 1.0;
    assert t == if e.avgTps <= 100.0 then e.avgTps / 100.0 else 1.0;
    assert Composite(e.accuracy, e.avgTps) == Weighted(e);
  }

  /** The candidates stand at the eligible positions of the results, in order. */
  ghost predicate CandidatesAt(results: seq<Entry>, matches: Entry -> bool, cs: seq<Candidate>, q: seq<int>) {
    && |q| == |cs| && Increasing(q, |results|)
    && (forall k :: 0 <= k < |q| ==> cs[k] == ScoreResult(results[q[k]]))
    && forall i :: Occurs(i, q) <==> IsEligible(results, matches, i)
  }

  lemma {:induction false} CandidatePositions(results: seq<Entry>, matches: Entry -> bool) returns (q: seq<int>)
    requires |results| <= 500
    ensures CandidatesAt(results, matches, Scores(FirstPerKey(results), matches), q)
  {
    if results == [] {
      q := [];
    } else {
      hide HasKey, IsEligible, FirstPerKey, Scores, CandidatesAt;
      var front, last := results[..|results| - 1], results[|results| - 1];
      q := CandidatePositions(front, matches);
      LastIsEligible(results, matches);
      CandidatesNext(results, matches);
      if matches(last) && !HasKey(FirstPerKey(front), last) {
        OneMoreAt(results, matches, Scores(FirstPerKey(front), matches), q);
        q := q + [|front|];
      } else {
        NoMoreAt(results, matches, Scores(FirstPerKey(front), matches), q);
      }
    }
  }

  lemma OneMoreAt(results: seq<Entry>, matches: Entry -> bool, cs: seq<Candidate>, q: seq<int>)
    requires results != [] && CandidatesAt(results[..|results| - 1], matches, cs, q)
    requires IsEligible(results, matches, |results| - 1)
    ensures CandidatesAt(results, matches, cs + [ScoreResult(results[|results| - 1])], q + [|results| - 1])
  {
    hide IsEligible, ScoreResult, Occurs;
    var n := |results| - 1;
    EligibleEarlier(results, matches);
    forall i
      ensures Occurs(i, q + [n]) <==> IsEligible(results, matches, i)
    {
      OccursSnoc(i, q, n);
    }
    assert forall k :: 0 <= k < |q| ==> results[..n][q[k]] == results[q[k]];
  }

  lemma NoMoreAt(results: seq<Entry>, matches: Entry -> bool, cs: seq<Candidate>, q: seq<int>)
    requires results != [] && CandidatesAt(results[..|results| - 1], matches, cs, q)
    requires !IsEligible(results, matches, |results| - 1)
    ensures CandidatesAt(results, matches, cs, q)
  {
    hide IsEligible, ScoreResult, Occurs;
    EligibleEarlier(results, matches);
    assert forall k :: 0 <= k < |q| ==> results[..|results| - 1][q[k]] == results[q[k]];
  }

  lemma CandidatesNext(results: seq<Entry>, matches: Entry -> bool)
    requires results != []
    ensures var front, last := results[..|results| - 1], results[|results| - 1];
      var before, after := Scores(FirstPerKey(front), matches), Scores(FirstPerKey(results), matches);
      after == if matches(last) && !HasKey(FirstPerKey(front), last) then before + [ScoreResult(last)] else before
  {
    hide HasKey, ScoreResult;
    var kept, last := FirstPerKey(results[..|results| - 1]), results[|results| - 1];
    assert (kept + [last])[..|kept|] == kept;
    assert Scores(kept, matches) + [] == Scores(kept, matches);
  }

  lemma EligibleEarlier(results: seq<Entry>, matches: Entry -> bool)
    requires results != []
    ensures forall i :: IsEligible(results, matches, i) <==>
      IsEligible(results[..|results| - 1], matches, i) || (i == |results| - 1 && IsEligible(results, matches, i))
  {
    var front := results[..|results| - 1];
    assert forall j :: 0 <= j < |front| ==> front[j] == results[j];
  }

  lemma LastIsEligible(results: seq<Entry>, matches: Entry -> bool)
    requires 0 < |results| <= 500
    ensures var front, last := results[..|results| - 1], results[|results| - 1];
      IsEligible(results, matches, |results| - 1) <==> matches(last) && !HasKey(FirstPerKey(front), last)
  {
    hide FirstPerKey;
    var front, last := results[..|results| - 1], results[|results| - 1];
    FirstPerKeyFacts(front);
    var kept := FirstPerKey(front);
    if HasKey(kept, last) {
      var i :| 0 <= i < |kept| && KeyOf(kept[i]) == KeyOf(last);
      assert kept[i] in kept && kept[i] in front;
      var j :| 0 <= j < |front| && front[j] == kept[i];
      assert results[j] == front[j];
    } else {
      forall j | 0 <= j < |front|
        ensures KeyOf(results[j]) != KeyOf(last)
      {
        assert front[j] in front && HasKey(kept, front[j]);
        var i :| 0 <= i < |kept| && KeyOf(kept[i]) == KeyOf(front[j]);
      }
    }
  }

  lemma EligibleInTake(stored: seq<Entry>, matches: Entry -> bool)
    ensures forall i :: IsEligible(Take(stored, 500), matches, i) <==> IsEligible(stored, matches, i)
    ensures forall i :: IsEligible(stored, matches, i) ==>
              0 <= i < |Take(stored, 500)| && Take(stored, 500)[i] == stored[i]
  {
  }

  lemma RankedPositions(stored: seq<Entry>, matches: Entry -> bool, sortBy: SortBy) returns (p: seq<int>)
    ensures var all := Ranked(stored, matches, sortBy);
      && |p| == |all| && Distinct(p)
      && (forall k :: 0 <= k < |p| ==> IsEligible(stored, matches, p[k]) && all[k] == ScoreResult(stored[p[k]]))
      && (forall i :: IsEligible(stored, matches, i) ==> Occurs(i, p))
      && (forall i, j :: 0 <= i < j < |all| ==> NoBetter(sortBy, all[j], all[i]))
  {
    hide Scores, FirstPerKey, ScoreResult, IsEligible, Sort;
    var results := Take(stored, 500);
    var cs, all := Scores(FirstPerKey(results), matches), Ranked(stored, matches, sortBy);
    EligibleInTake(stored, matches);
    var q := CandidatePositions(results, matches);
    SortPermutes(Better(sortBy), cs);
    SortSorts(Better(sortBy), cs);
    var perm := Rearrangement(all, cs);
    p := Composed(q, perm);
    forall k | 0 <= k < |p|
      ensures IsEligible(stored, matches, p[k]) && all[k] == ScoreResult(stored[p[k]])
    {
      assert Occurs(q[perm[k]], q);
    }
    forall i | IsEligible(stored, matches, i)
      ensures Occurs(i, p)
    {
      ComposedOccurs(q, perm, p, i);
    }
  }

  lemma Composed(q: seq<int>, perm: seq<int>) returns (p: seq<int>)
    requires Rearranges(perm, |q|) && Distinct(q)
    ensures |p| == |q| && Distinct(p) && forall k :: 0 <= k < |p| ==> p[k] == q[perm[k]]
  {
    hide Occurs;
    p := seq(|q|, k requires 0 <= k < |q| => q[perm[k]]);
    forall i, j | 0 <= i < j < |p|
      ensures p[i] != p[j]
    {
      assert perm[i] != perm[j];
      assert if perm[i] < perm[j] then q[perm[i]] != q[perm[j]] else q[perm[j]] != q[perm[i]];
    }
  }

  lemma ComposedOccurs(q: seq<int>, perm: seq<int>, p: seq<int>, i: int)
    requires Rearranges(perm, |q|) && |p| == |q| && (forall k :: 0 <= k < |p| ==> p[k] == q[perm[k]]) && Occurs(i, q)
    ensures Occurs(i, p)
  {
    var x :| 0 <= x < |q| && q[x] == i;
    assert Occurs(x, perm);
    var k :| 0 <= k < |perm| && perm[k] == x;
    assert p[k] == i;
  }

  lemma EligibleCount(stored: seq<Entry>, matches: Entry -> bool, p: seq<int>)
    requires Distinct(p) && (forall k :: 0 <= k < |p| ==> IsEligible(stored, matches, p[k]))
    requires forall i :: IsEligible(stored, matches, i) ==> Occurs(i, p)
    ensures |Eligible(stored, matches)| == |p|
  {
    EligibleRange(stored, matches);
    hide IsEligible;
    DistinctCount(p);
    forall i
      ensures i in Eligible(stored, matches) <==> i in Items(p)
    {
      assert Occurs(i, p) <==> i in Items(p);
    }
    assert Eligible(stored, matches) == Items(p);
  }

  lemma EligibleRange(stored: seq<Entry>, matches: Entry -> bool)
    ensures forall i :: IsEligible(stored, matches, i) ==> 0 <= i < |stored|
  {
  }

  function Items(p: seq<int>): set<int> {
    set x | x in p
  }

  lemma {:induction false} DistinctCount(p: seq<int>)
    requires Distinct(p)
    ensures |Items(p)| == |p|
  {
    if p != [] {
      var front, last := p[..|p| - 1], p[|p| - 1];
      DistinctCount(front);
      assert p == front + [last];
      assert last !in front;
      assert Items(p) == Items(front) + {last};
    }
  }

  /** Ranking and cutting recommends the best eligible results. */
  lemma RankedRecommends(stored: seq<Entry>, matches: Entry -> bool, limit: nat, sortBy: SortBy) returns (p: seq<int>)
    ensures Recommends(stored, matches, limit, sortBy, Take(Ranked(stored, matches, sortBy), limit), p)
  {
    hide Ranked, IsEligible, Eligible, IsCandidateOf, ScoreResult, NoBetter;
    EligibleRange(stored, matches);
    var all := Ranked(stored, matches, sortBy);
    var r := Take(all, limit);
    var whole := RankedPositions(stored, matches, sortBy);
    EligibleCount(stored, matches, whole);
    p := whole[..|r|];
    forall k | 0 <= k < |p|
      ensures IsCandidateOf(r[k], stored[p[k]])
    {
      ScoreExactly(stored[p[k]]);
    }
    forall i, k | IsEligible(stored, matches, i) && !Occurs(i, p) && 0 <= k < |r|
      ensures NoBetter(sortBy, ScoreResult(stored[i]), r[k])
    {
      assert Occurs(i, whole);
      var n :| 0 <= n < |whole| && whole[n] == i;
      OccursInFront(whole, |r|, n);
    }
  }

  lemma OccursInFront(p: seq<int>, m: nat, n: nat)
    requires n < |p| && m <= |p|
    ensures n < m ==> Occurs(p[n], p[..m])
  {
    if n < m {
      assert p[..m][n] == p[n];
    }
  }

  /** `stored` are the store's results by descending timestamp. */
  method RecommendModels(stored: seq<Entry>, matches: Entry -> bool, limit: nat, sortBy: SortBy)
    returns (r: seq<Candidate>)
    ensures r == Take(Ranked(stored, matches, sortBy), limit)
    ensures exists p :: Recommends(stored, matches, limit, sortBy, r, p)
  {
    var results := Take(stored, QUERY_LIMIT);
    var seen: seq<Entry> := [];
    for i := 0 to |results|
      invariant seen == FirstPerKey(results[..i])
    {
      assert results[..i + 1][..i] == results[..i];
      if !HasKey(seen, results[i]) {
        seen := seen + [results[i]];
      }
    }
    assert results[..|results|] == results;
    var candidates: seq<Candidate> := [];
    for i := 0 to |seen|
      invariant candidates == Scores(seen[..i], matches)
    {
      assert seen[..i + 1][..i] == seen[..i];
      if matches(seen[i]) {
        candidates := candidates + [ScoreResult(seen[i])];
      }
    }
    assert seen[..|seen|] == seen;
    r := Take(Sort(Better(sortBy), candidates), limit);
    ghost var p := RankedRecommends(stored, matches, limit, sortBy);
  }

  /** A candidate, unless another is at least as good in both respects and better in one. */
  function Unbeaten(all: seq<Candidate>): Candidate -> Option<Candidate> {
    (c: Candidate) =>
      if exists i :: 0 <= i < |all|
           && ((all[i].accuracy > c.accuracy && all[i].throughput >= c.throughput)
               || (all[i].accuracy >= c.accuracy && all[i].throughput > c.throughput))
      then None else Some(c)
  }

  lemma {:induction false} FrontierPicked(cs: seq<Candidate>, n: nat)
    requires n <= |cs|
    ensures Picked(cs[..n], Unbeaten(cs), Frontier(cs, n))
  {
    hide Picked, Unbeaten, Dominated;
    if n == 0 {
      PickedNone(Unbeaten(cs));
      assert cs[..0] == [];
    } else {
      FrontierPicked(cs, n - 1);
      PickedSnoc(cs[..n - 1], Unbeaten(cs), Frontier(cs, n - 1), cs[n - 1]);
      UnbeatenIsUndominated(cs, cs[n - 1]);
      assert cs[..n] == cs[..n - 1] + [cs[n - 1]];
    }
  }

  lemma UnbeatenIsUndominated(cs: seq<Candidate>, c: Candidate)
    ensures Unbeaten(cs)(c) == if Dominated(c, cs) then None else Some(c)
  {
    if Dominated(c, cs) {
      var i :| 0 <= i < |cs| && Dominates(cs[i], c);
    }
  }

  method ParetoFrontier(stored: seq<Entry>, matches: Entry -> bool) returns (frontier: seq<Candidate>)
    ensures var cs := Ranked(stored, matches, ByScore); frontier == Frontier(cs, |cs|)
    ensures exists all, p :: Recommends(stored, matches, 500, ByScore, all, p) && Picked(all, Unbeaten(all), frontier)
  {
    hide Ranked, Recommends, Picked, Unbeaten;
    var cs := RecommendModels(stored, matches, QUERY_LIMIT, ByScore);
    NothingIsCut(stored, matches, ByScore);
    FrontierPicked(cs, |cs|);
    assert cs[..|cs|] == cs;
    frontier := [];
    for i := 0 to |cs|
      invariant frontier == Frontier(cs, i)
    {
      var dominated, j := false, 0;
      while j < |cs| && !dominated
        invariant 0 <= j <= |cs|
        invariant dominated ==> Dominated(cs[i], cs)
        invariant !dominated ==> forall k :: 0 <= k < j ==> !Dominates(cs[k], cs[i])
        decreases |cs| - j, if dominated then 0 else 1
      {
        if j != i && Dominates(cs[j], cs[i]) {
          dominated := true;
        } else {
          j := j + 1;
        }
      }
      if !dominated {
        frontier := frontier + [cs[i]];
      }
    }
  }

  // ----- theorems -----

  lemma {:induction false} FirstPerKeyFacts(results: seq<Entry>)
    ensures |FirstPerKey(results)| <= |results|
    ensures forall e :: e in FirstPerKey(results) ==> e in results
    ensures forall e :: e in results ==> HasKey(FirstPerKey(results), e)
  {
    hide HasKey;
    if results != [] {
      var front, last := results[..|results| - 1], results[|results| - 1];
      assert results == front + [last];
      FirstPerKeyFacts(front);
      HasKeySnoc(FirstPerKey(front), last);
    }
  }

  lemma HasKeySnoc(seen: seq<Entry>, e: Entry)
    ensures forall x :: HasKey(seen + [e], x) <==> HasKey(seen, x) || KeyOf(x) == KeyOf(e)
  {
    hide KeyOf;
    var more := seen + [e];
    assert more[|seen|] == e && forall i :: 0 <= i < |seen| ==> more[i] == seen[i];
    forall x
      ensures HasKey(more, x) <==> HasKey(seen, x) || KeyOf(x) == KeyOf(e)
    {
      if HasKey(seen, x) {
        var i :| 0 <= i < |seen| && KeyOf(seen[i]) == KeyOf(x);
        assert KeyOf(more[i]) == KeyOf(x);
      }
      if KeyOf(x) == KeyOf(e) {
        assert KeyOf(more[|seen|]) == KeyOf(x);
      }
    }
  }

  /** No two of the kept results share the joined key, so none share model and engine. */
  lemma {:induction false} OnePerKey(results: seq<Entry>)
    ensures forall i, j :: 0 <= i < j < |FirstPerKey(results)| ==>
      KeyOf(FirstPerKey(results)[i]) != KeyOf(FirstPerKey(results)[j])
  {
    hide KeyOf;
    if results != [] {
      OnePerKey(results[..|results| - 1]);
    }
  }

  ghost predicate NewestFirst(results: seq<Entry>) {
    forall i, j :: 0 <= i < j < |results| ==> !LexLess(results[i].timestamp, results[j].timestamp)
  }

  /** With results newest first, each joined key is represented by a newest result. */
  lemma {:induction false} KeepsLatest(results: seq<Entry>, e: Entry, f: Entry)
    requires NewestFirst(results)
    requires e in results && f in FirstPerKey(results) && KeyOf(f) == KeyOf(e)
    ensures !LexLess(f.timestamp, e.timestamp)
  {
    hide LexLess, KeyOf;
    var front, last := results[..|results| - 1], results[|results| - 1];
    var before := FirstPerKey(front);
    assert results == front + [last];
    FirstPerKeyFacts(front);
    LexIrreflexive(last.timestamp);
    if f in before {
      if e in front {
        KeepsLatest(front, e, f);
      } else {
        var i :| 0 <= i < |front| && front[i] == f;
        assert results[i] == f && results[|results| - 1] == e;
      }
    } else {
      assert f == last && !HasKey(before, last);
      assert HasKey(before, e) == HasKey(before, last);
      assert e !in front;
    }
  }

  predicate SamePair(e: Entry, f: Entry) {
    e.model == f.model && e.engine == f.engine
  }

  /** A result whose model and engine are represented by a kept result that is not older. */
  ghost predicate Represented(results: seq<Entry>, e: Entry) {
    exists f :: f in FirstPerKey(results) && SamePair(f, e) && !LexLess(f.timestamp, e.timestamp)
  }

  ghost predicate AllRepresented(results: seq<Entry>) {
    forall e :: e in results ==> Represented(results, e)
  }

  /** No two different pairs of model and engine join to the same key. */
  ghost predicate KeysTellApart(results: seq<Entry>) {
    forall e, f :: e in results && f in results && KeyOf(e) == KeyOf(f) ==> SamePair(e, f)
  }

  /**
    With results newest first, every model and engine is represented by a newest result
    exactly when no two different pairs among the results join to the same key.
  */
  lemma PairsRepresentedExactly(results: seq<Entry>)
    requires NewestFirst(results)
    ensures AllRepresented(results) <==> KeysTellApart(results)
  {
    hide Represented, KeyOf, SamePair, NewestFirst;
    if AllRepresented(results) {
      forall e, f | e in results && f in results && KeyOf(e) == KeyOf(f)
        ensures SamePair(e, f)
      {
        OnePairPerKey(results, e, f);
      }
    }
    if KeysTellApart(results) {
      forall e | e in results
        ensures Represented(results, e)
      {
        FoundByKey(results, e);
      }
    }
  }

  lemma OnePairPerKey(results: seq<Entry>, e: Entry, f: Entry)
    requires Represented(results, e) && Represented(results, f) && KeyOf(e) == KeyOf(f)
    ensures SamePair(e, f)
  {
    hide KeyOf, FirstPerKey, LexLess;
    var a :| a in FirstPerKey(results) && SamePair(a, e);
    var b :| b in FirstPerKey(results) && SamePair(b, f);
    SamePairSameKey(a, e);
    SamePairSameKey(b, f);
    OneOfKey(results, a, b);
  }

  lemma FoundByKey(results: seq<Entry>, e: Entry)
    requires NewestFirst(results) && KeysTellApart(results) && e in results
    ensures Represented(results, e)
  {
    hide KeyOf, FirstPerKey, LexLess, SamePair;
    FirstPerKeyFacts(results);
    var kept := FirstPerKey(results);
    assert HasKey(kept, e);
    var i :| 0 <= i < |kept| && KeyOf(kept[i]) == KeyOf(e);
    assert kept[i] in kept && kept[i] in results;
    KeepsLatest(results, e, kept[i]);
  }

  lemma SamePairSameKey(e: Entry, f: Entry)
    requires SamePair(e, f)
    ensures KeyOf(e) == KeyOf(f)
  {
  }

  lemma OneOfKey(results: seq<Entry>, a: Entry, b: Entry)
    requires a in FirstPerKey(results) && b in FirstPerKey(results) && KeyOf(a) == KeyOf(b)
    ensures a == b
  {
    hide KeyOf, FirstPerKey;
    OnePerKey(results);
    var kept := FirstPerKey(results);
    var i :| 0 <= i < |kept| && kept[i] == a;
    var j :| 0 <= j < |kept| && kept[j] == b;
    assert i == j;
  }

  /** Names with a bar: of these two results only the first is ever considered. */
  lemma BarsMerge(timestamp: string, accuracy: real, tps: real)
    ensures var e, f := Entry("a|b", "c", timestamp, accuracy, tps), Entry("a", "b|c", timestamp, accuracy, tps);
      FirstPerKey([e, f]) == [e] && !SamePair(e, f)
  {
    var e, f := Entry("a|b", "c", timestamp, accuracy, tps), Entry("a", "b|c", timestamp, accuracy, tps);
    assert KeyOf(e) == "a|b|c" && KeyOf(f) == "a|b|c";
    assert [e, f][..1] == [e] && [e][..0] == [];
    assert FirstPerKey([e]) == [e];
    assert KeyOf([e][0]) == KeyOf(f);
    assert |e.model| != |f.model|;
  }

  lemma LexIrreflexive(t: string)
    ensures !LexLess(t, t)
  {
    LexTotal(t, t);
  }

  lemma {:induction false} ScoresFacts(entries: seq<Entry>, matches: Entry -> bool)
    ensures |Scores(entries, matches)| <= |entries|
    ensures forall c :: c in Scores(entries, matches) ==> Scored(c)
  {
    if entries != [] {
      ScoresFacts(entries[..|entries| - 1], matches);
    }
  }

  /** The frontier's limit of 500 never cuts: there are at most 500 candidates. */
  lemma NothingIsCut(stored: seq<Entry>, matches: Entry -> bool, sortBy: SortBy)
    ensures Take(Ranked(stored, matches, sortBy), QUERY_LIMIT) == Ranked(stored, matches, sortBy)
  {
    var results := Take(stored, QUERY_LIMIT);
    FirstPerKeyFacts(results);
    ScoresFacts(FirstPerKey(results), matches);
    SortPermutes(Better(sortBy), Scores(FirstPerKey(results), matches));
  }

  lemma RankedAreScored(stored: seq<Entry>, matches: Entry -> bool, sortBy: SortBy)
    ensures forall c :: c in Ranked(stored, matches, sortBy) ==> Scored(c)
  {
    var cs := Scores(FirstPerKey(Take(stored, QUERY_LIMIT)), matches);
    ScoresFacts(FirstPerKey(Take(stored, QUERY_LIMIT)), matches);
    SortPermutes(Better(sortBy), cs);
    assert forall c :: c in Sort(Better(sortBy), cs) ==> c in multiset(Sort(Better(sortBy), cs));
  }

  /** The frontier is exactly the undominated candidates. */
  lemma {:induction false} FrontierIsUndominated(cs: seq<Candidate>, n: nat)
    requires n <= |cs|
    ensures forall c :: c in Frontier(cs, n) <==> c in cs[..n] && !Dominated(c, cs)
  {
    hide Dominated;
    if n > 0 {
      FrontierIsUndominated(cs, n - 1);
      assert cs[..n] == cs[..n - 1] + [cs[n - 1]];
    }
  }

  /** Of the candidates below n that dominate c, one with the greatest sum of merits. */
  lemma {:induction false} BestDominator(cs: seq<Candidate>, c: Candidate, n: nat) returns (b: nat)
    requires n <= |cs| && exists i :: 0 <= i < n && Dominates(cs[i], c)
    ensures b < n && Dominates(cs[b], c)
    ensures forall i :: 0 <= i < n && Dominates(cs[i], c) ==>
      cs[i].accuracy + cs[i].throughput <= cs[b].accuracy + cs[b].throughput
  {
    if exists i :: 0 <= i < n - 1 && Dominates(cs[i], c) {
      b := BestDominator(cs, c, n - 1);
      if Dominates(cs[n - 1], c) && cs[n - 1].accuracy + cs[n - 1].throughput > cs[b].accuracy + cs[b].throughput {
        b := n - 1;
      }
    } else {
      b := n - 1;
    }
  }

  lemma DominatorsClimb(a: Candidate, b: Candidate, c: Candidate)
    requires Dominates(b, c)
    ensures Dominates(a, b) ==> Dominates(a, c) && a.accuracy + a.throughput > b.accuracy + b.throughput
  {
  }

  /** Every excluded candidate is dominated by some member of the frontier. */
  lemma ExcludedIsDominatedByFrontier(cs: seq<Candidate>, c: Candidate)
    requires Dominated(c, cs)
    ensures exists f :: f in Frontier(cs, |cs|) && Dominates(f, c)
  {
    hide Dominates;
    var b := BestDominator(cs, c, |cs|);
    assert cs[..|cs|] == cs && cs[b] in cs;
    forall i | 0 <= i < |cs|
      ensures !Dominates(cs[i], cs[b])
    {
      DominatorsClimb(cs[i], cs[b], c);
    }
    FrontierIsUndominated(cs, |cs|);
  }

  /** A non-empty list has a non-empty frontier, with a candidate of the best composite score on it. */
  lemma BestScoreOnFrontier(cs: seq<Candidate>)
    requires cs != [] && forall c :: c in cs ==> Scored(c)
    ensures exists f :: f in Frontier(cs, |cs|) && forall c :: c in cs ==> c.score <= f.score
  {
    var b := BestScore(cs, |cs|);
    assert cs[..|cs|] == cs && cs[b] in cs;
    FrontierIsUndominated(cs, |cs|);
    var f := cs[b];
    if Dominated(cs[b], cs) {
      ExcludedIsDominatedByFrontier(cs, cs[b]);
      f :| f in Frontier(cs, |cs|) && Dominates(f, cs[b]);
      DominanceRaisesScore(f, cs[b]);
    }
    assert f in Frontier(cs, |cs|);
    forall c | c in cs
      ensures c.score <= f.score
    {
      var i :| 0 <= i < |cs| && cs[i] == c;
    }
  }

  lemma {:induction false} BestScore(cs: seq<Candidate>, n: nat) returns (b: nat)
    requires 0 < n <= |cs|
    ensures b < n && forall i :: 0 <= i < n ==> cs[i].score <= cs[b].score
  {
    if n == 1 {
      b := 0;
    } else {
      b := BestScore(cs, n - 1);
      if cs[n - 1].score > cs[b].score {
        b := n - 1;
      }
    }
  }

  /** What a caller of pareto_frontier gets, for any stored results and constraints. */
  lemma ParetoFrontierIsSound(stored: seq<Entry>, matches: Entry -> bool)
    ensures var cs := Ranked(stored, matches, ByScore);
      && (forall c :: c in Frontier(cs, |cs|) <==> c in cs && !Dominated(c, cs))
      && (forall c :: c in cs && c !in Frontier(cs, |cs|) ==> exists f :: f in Frontier(cs, |cs|) && Dominates(f, c))
      && (cs != [] ==> exists f :: f in Frontier(cs, |cs|) && forall c :: c in cs ==> c.score <= f.score)
  {
    hide Ranked, Dominates, Frontier, Scored;
    var cs := Ranked(stored, matches, ByScore);
    assert cs[..|cs|] == cs;
    FrontierIsUndominated(cs, |cs|);
    forall c | c in cs && c !in Frontier(cs, |cs|)
      ensures exists f :: f in Frontier(cs, |cs|) && Dominates(f, c)
    {
      ExcludedIsDominatedByFrontier(cs, c);
    }
    if cs != [] {
      RankedAreScored(stored, matches, ByScore);
      BestScoreOnFrontier(cs);
    }
  }
}

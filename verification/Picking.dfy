/** Lists read off other lists: which elements give something, in order and nothing else. */
module Picking {
  import opened Basics
  import opened Sorting

  /** Strictly increasing positions below n. */
  ghost predicate Increasing(p: seq<int>, n: nat) {
    (forall i, j :: 0 <= i < j < |p| ==> p[i] < p[j]) && forall i :: 0 <= i < |p| ==> 0 <= p[i] < n
  }

  ghost predicate Occurs(i: int, p: seq<int>) {
    exists k :: 0 <= k < |p| && p[k] == i
  }

  /** Reading `source` at exactly the positions p, in order, gives `out`. */
  ghost predicate PickedAt<S, T>(source: seq<S>, pick: S -> Option<T>, out: seq<T>, p: seq<int>) {
    && Increasing(p, |source|) && |p| == |out|
    && (forall k :: 0 <= k < |p| ==> pick(source[p[k]]) == Some(out[k]))
    && forall i :: 0 <= i < |source| && pick(source[i]).Some? ==> Occurs(i, p)
  }

  ghost predicate Picked<S, T>(source: seq<S>, pick: S -> Option<T>, out: seq<T>) {
    exists p :: PickedAt(source, pick, out, p)
  }

  function One<T>(x: Option<T>): seq<T> {
    match x
    case Some(v) => [v]
    case None => []
  }

  lemma PickedNone<S, T>(pick: S -> Option<T>)
    ensures Picked([], pick, [])
  {
    assert PickedAt([], pick, [], []);
  }

  lemma OccursSnoc(i: int, p: seq<int>, x: int)
    ensures Occurs(i, p + [x]) <==> Occurs(i, p) || i == x
  {
    var q := p + [x];
    assert q[|p|] == x && forall k :: 0 <= k < |p| ==> q[k] == p[k];
    if Occurs(i, p) {
      var k :| 0 <= k < |p| && p[k] == i;
      assert q[k] == i;
    }
  }

  lemma PickedSnoc<S, T>(source: seq<S>, pick: S -> Option<T>, out: seq<T>, x: S)
    requires Picked(source, pick, out)
    ensures Picked(source + [x], pick, out + One(pick(x)))
  {
    hide PickedAt;
    var p :| PickedAt(source, pick, out, p);
    if pick(x).Some? {
      TakenAt(source, pick, out, x, p);
    } else {
      LeftAt(source, pick, out, x, p);
      assert out + [] == out;
    }
  }

  lemma TakenAt<S, T>(source: seq<S>, pick: S -> Option<T>, out: seq<T>, x: S, p: seq<int>)
    requires PickedAt(source, pick, out, p) && pick(x).Some?
    ensures PickedAt(source + [x], pick, out + [pick(x).value], p + [|source|])
  {
    hide Occurs;
    var all, q := source + [x], p + [|source|];
    assert all[|source|] == x && forall i :: 0 <= i < |source| ==> all[i] == source[i];
    assert forall k :: 0 <= k < |p| ==> q[k] == p[k];
    forall i | 0 <= i < |all| && pick(all[i]).Some?
      ensures Occurs(i, q)
    {
      OccursSnoc(i, p, |source|);
    }
  }

  lemma LeftAt<S, T>(source: seq<S>, pick: S -> Option<T>, out: seq<T>, x: S, p: seq<int>)
    requires PickedAt(source, pick, out, p) && pick(x).None?
    ensures PickedAt(source + [x], pick, out, p)
  {
    hide Occurs;
    var all := source + [x];
    assert all[|source|] == x && forall i :: 0 <= i < |source| ==> all[i] == source[i];
  }

  lemma {:induction false} PickedConcat<S, T>(a: seq<S>, b: seq<S>, pick: S -> Option<T>, x: seq<T>, y: seq<T>)
    requires Picked(a, pick, x) && Picked(b, pick, y)
    ensures Picked(a + b, pick, x + y)
    decreases |b|
  {
    hide Picked;
    if b == [] {
      PickedNone(pick);
      PickedOnce(b, pick, y, []);
      assert a + b == a && x + y == x;
    } else {
      var front, last := b[..|b| - 1], b[|b| - 1];
      var z := PickedExists(front, pick);
      PickedSnoc(front, pick, z, last);
      assert b == front + [last];
      PickedOnce(b, pick, y, z + One(pick(last)));
      PickedConcat(a, front, pick, x, z);
      PickedSnoc(a + front, pick, x + z, last);
      assert a + b == (a + front) + [last] && x + y == (x + z) + One(pick(last));
    }
  }

  lemma {:induction false} PickedExists<S, T>(source: seq<S>, pick: S -> Option<T>) returns (out: seq<T>)
    ensures Picked(source, pick, out)
  {
    hide Picked;
    if source == [] {
      out := [];
      PickedNone(pick);
    } else {
      var front, last := source[..|source| - 1], source[|source| - 1];
      out := PickedExists(front, pick);
      PickedSnoc(front, pick, out, last);
      out := out + One(pick(last));
      assert source == front + [last];
    }
  }

  /** There is only one such list. */
  lemma {:induction false} PickedOnce<S, T>(source: seq<S>, pick: S -> Option<T>, x: seq<T>, y: seq<T>)
    requires Picked(source, pick, x) && Picked(source, pick, y)
    ensures x == y
  {
    var p :| PickedAt(source, pick, x, p);
    var q :| PickedAt(source, pick, y, q);
    SamePositions(source, pick, x, y, p, q);
    forall k | 0 <= k < |x|
      ensures x[k] == y[k]
    {
      assert pick(source[p[k]]) == Some(x[k]);
    }
  }

  lemma SamePositions<S, T>(source: seq<S>, pick: S -> Option<T>, x: seq<T>, y: seq<T>, p: seq<int>, q: seq<int>)
    requires PickedAt(source, pick, x, p) && PickedAt(source, pick, y, q)
    ensures p == q
  {
    forall i
      ensures Occurs(i, p) <==> Occurs(i, q)
    {
      OccursExactly(source, pick, x, p, i);
      OccursExactly(source, pick, y, q, i);
    }
    IncreasingOnce(p, q, |source|);
  }

  lemma OccursExactly<S, T>(source: seq<S>, pick: S -> Option<T>, out: seq<T>, p: seq<int>, i: int)
    requires PickedAt(source, pick, out, p)
    ensures Occurs(i, p) <==> 0 <= i < |source| && pick(source[i]).Some?
  {
    if Occurs(i, p) {
      var k :| 0 <= k < |p| && p[k] == i;
    }
  }

  /** Increasing positions are determined by which they are. */
  lemma {:induction false} IncreasingOnce(p: seq<int>, q: seq<int>, n: nat)
    requires Increasing(p, n) && Increasing(q, n) && forall i :: Occurs(i, p) <==> Occurs(i, q)
    ensures p == q
    decreases |p|
  {
    if p == [] || q == [] {
      assert p != [] ==> Occurs(p[0], p);
      assert q != [] ==> Occurs(q[0], q);
    } else {
      var a, b, x, y := p[..|p| - 1], q[..|q| - 1], p[|p| - 1], q[|q| - 1];
      assert Occurs(x, p) && Occurs(y, q);
      assert x == y;
      assert p == a + [x] && q == b + [y];
      assert !Occurs(x, a) && !Occurs(x, b);
      forall i
        ensures Occurs(i, a) <==> Occurs(i, b)
      {
        OccursSnoc(i, a, x);
        OccursSnoc(i, b, x);
      }
      IncreasingOnce(a, b, n);
    }
  }

  lemma PickedAlike<S, T>(source: seq<S>, pick: S -> Option<T>, same: S -> Option<T>, out: seq<T>)
    requires Picked(source, pick, out) && forall x: S :: pick(x) == same(x)
    ensures Picked(source, same, out)
  {
    hide Occurs;
    var p :| PickedAt(source, pick, out, p);
    forall k | 0 <= k < |p|
      ensures same(source[p[k]]) == Some(out[k])
    {
      assert pick(source[p[k]]) == same(source[p[k]]);
    }
    forall i | 0 <= i < |source| && same(source[i]).Some?
      ensures Occurs(i, p)
    {
      assert pick(source[i]) == same(source[i]);
    }
    assert PickedAt(source, same, out, p);
  }

  /** How many elements give something. */
  lemma {:induction false} PickedCount<S, T>(source: seq<S>, pick: S -> Option<T>, out: seq<T>)
    requires Picked(source, pick, out)
    ensures |out| == |PickedPositions(source, pick)|
  {
    var p := PositionsOf(source, pick, out);
    hide PickedAt, Occurs;
    var s := PositionSet(p, |source|);
    forall i
      ensures i in s <==> i in PickedPositions(source, pick)
    {
      OccursExactly(source, pick, out, p, i);
    }
    assert s == PickedPositions(source, pick);
  }

  function PickedPositions<S, T>(source: seq<S>, pick: S -> Option<T>): set<int> {
    set i | 0 <= i < |source| && pick(source[i]).Some?
  }

  lemma PositionsOf<S, T>(source: seq<S>, pick: S -> Option<T>, out: seq<T>) returns (p: seq<int>)
    requires Picked(source, pick, out)
    ensures PickedAt(source, pick, out, p) && Increasing(p, |source|) && |p| == |out|
    ensures forall k :: 0 <= k < |p| ==> pick(source[p[k]]) == Some(out[k])
    ensures forall i :: 0 <= i < |source| ==> (pick(source[i]).Some? <==> Occurs(i, p))
  {
    p :| PickedAt(source, pick, out, p);
    forall i | 0 <= i < |source|
      ensures pick(source[i]).Some? <==> Occurs(i, p)
    {
      OccursExactly(source, pick, out, p, i);
    }
  }

  lemma {:induction false} PositionSet(p: seq<int>, n: nat) returns (s: set<int>)
    requires Increasing(p, n)
    ensures |s| == |p| && forall i :: i in s <==> Occurs(i, p)
  {
    if p == [] {
      s := {};
    } else {
      var front, last := p[..|p| - 1], p[|p| - 1];
      s := PositionSet(front, n);
      assert p == front + [last];
      assert !Occurs(last, front);
      s := s + {last};
      forall i
        ensures i in s <==> Occurs(i, p)
      {
        OccursSnoc(i, front, last);
      }
    }
  }

  // ----- counting -----

  function Tally<T>(items: seq<T>, p: T -> bool): nat {
    if items == [] then 0 else Tally(items[..|items| - 1], p) + (if p(items[|items| - 1]) then 1 else 0)
  }

  function Holding<T>(items: seq<T>, p: T -> bool): set<int> {
    set i | 0 <= i < |items| && p(items[i])
  }

  lemma HoldingSnoc<T>(front: seq<T>, last: T, p: T -> bool)
    ensures Holding(front + [last], p) == if p(last) then Holding(front, p) + {|front|} else Holding(front, p)
  {
    var all := front + [last];
    assert all[|front|] == last && forall i :: 0 <= i < |front| ==> all[i] == front[i];
  }

  lemma {:induction false} TallyIs<T>(items: seq<T>, p: T -> bool)
    ensures Tally(items, p) == |Holding(items, p)|
  {
    if items == [] {
      assert Holding(items, p) == {};
    } else {
      var front, last := items[..|items| - 1], items[|items| - 1];
      TallyIs(front, p);
      HoldingSnoc(front, last, p);
      assert items == front + [last];
      assert |front| !in Holding(front, p);
    }
  }

  // ----- rearranging -----

  /** Every position below n once, in any order. */
  ghost predicate Rearranges(p: seq<int>, n: nat) {
    && |p| == n && Distinct(p) && (forall k :: 0 <= k < n ==> 0 <= p[k] < n)
    && forall i :: 0 <= i < n ==> Occurs(i, p)
  }

  /** Where an element stands in a list that the one at j was taken from. */
  function Skip(i: int, j: int): int { if i < j then i else i + 1 }

  lemma {:induction false} Rearrangement<T>(a: seq<T>, b: seq<T>) returns (p: seq<int>)
    requires multiset(a) == multiset(b)
    ensures |a| == |b| && Rearranges(p, |a|) && forall k :: 0 <= k < |a| ==> a[k] == b[p[k]]
  {
    assert |multiset(a)| == |a| && |multiset(b)| == |b|;
    if a == [] {
      p := [];
    } else {
      assert a[0] in multiset(b);
      var j :| 0 <= j < |b| && b[j] == a[0];
      WithoutMultiset(b, j);
      TailMultiset(a);
      var q := Rearrangement(a[1..], Without(b, j));
      p := FirstThen(q, |b| - 1, j);
      forall k | 0 < k < |a|
        ensures a[k] == b[p[k]]
      {
        SkipsOver(b, j, q[k - 1]);
        assert a[k] == a[1..][k - 1];
      }
    }
  }

  lemma SkipsOver<T>(b: seq<T>, j: nat, i: int)
    requires j < |b| && 0 <= i < |b| - 1
    ensures 0 <= Skip(i, j) < |b| && Without(b, j)[i] == b[Skip(i, j)]
  {
  }

  lemma FirstThen(q: seq<int>, n: nat, j: nat) returns (p: seq<int>)
    requires Rearranges(q, n) && j <= n
    ensures Rearranges(p, n + 1) && p[0] == j && forall k :: 0 < k <= n ==> p[k] == Skip(q[k - 1], j)
  {
    var moved := seq(n, k requires 0 <= k < n => Skip(q[k], j));
    p := [j] + moved;
    forall i | 0 <= i < n + 1
      ensures Occurs(i, p)
    {
      if i == j {
        assert p[0] == i;
      } else {
        var x := if i < j then i else i - 1;
        assert Occurs(x, q);
        var k :| 0 <= k < n && q[k] == x;
        assert p[k + 1] == i;
      }
    }
  }
}

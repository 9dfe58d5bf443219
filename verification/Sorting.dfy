/** Orders, stable sorting, and sums that do not depend on order. */
module Sorting {
  // ----- text -----

  /** Python's `<` on strings, by code point. */
  predicate LexLess(a: string, b: string) {
    b != "" && (a == "" || a[0] < b[0] || (a[0] == b[0] && LexLess(a[1..], b[1..])))
  }

  lemma {:induction false} LexTotal(a: string, b: string)
    ensures !(LexLess(a, b) && LexLess(b, a))
    ensures a == b || LexLess(a, b) || LexLess(b, a)
    ensures a == b ==> !LexLess(a, b)
  {
    if a != "" && b != "" {
      LexTotal(a[1..], b[1..]);
      assert a == [a[0]] + a[1..] && b == [b[0]] + b[1..];
    }
  }

  lemma {:induction false} LexTransitive(a: string, b: string, c: string)
    requires LexLess(a, b) && LexLess(b, c)
    ensures LexLess(a, c)
  {
    if a != "" && a[0] == b[0] && b[0] == c[0] {
      LexTransitive(a[1..], b[1..], c[1..]);
    }
  }

  // ----- stable sorting by a strict order -----

  /** A strict weak order: what sorting by a key needs. */
  ghost predicate StrictOrder<T(!new)>(less: (T, T) -> bool) {
    && (forall x :: !less(x, x))
    && (forall x, y, z :: less(x, y) && less(y, z) ==> less(x, z))
    && (forall x, y, z :: less(x, z) ==> less(x, y) || less(y, z))
  }

  ghost predicate Sorted<T>(less: (T, T) -> bool, s: seq<T>) {
    forall i, j :: 0 <= i < j < |s| ==> !less(s[j], s[i])
  }

  lemma {:induction false} LexOrder()
    ensures StrictOrder(LexLess)
  {
    forall x
      ensures !LexLess(x, x)
    {
      LexTotal(x, x);
    }
    forall x, y, z | LexLess(x, y) && LexLess(y, z)
      ensures LexLess(x, z)
    {
      LexTransitive(x, y, z);
    }
    forall x, y, z | LexLess(x, z)
      ensures LexLess(x, y) || LexLess(y, z)
    {
      LexTotal(x, y);
      LexTotal(y, z);
      if LexLess(y, x) {
        LexTransitive(y, x, z);
      }
    }
  }

  /** Puts x before the first element that does not precede it. */
  function Insert<T>(less: (T, T) -> bool, x: T, s: seq<T>): seq<T> {
    if s == [] || !less(s[0], x) then [x] + s else [s[0]] + Insert(less, x, s[1..])
  }

  /** Python's `sorted`: equal elements keep their order. */
  function Sort<T>(less: (T, T) -> bool, s: seq<T>): seq<T> {
    if s == [] then [] else Insert(less, s[0], Sort(less, s[1..]))
  }

  lemma {:induction false} InsertPermutes<T>(less: (T, T) -> bool, x: T, s: seq<T>)
    ensures multiset(Insert(less, x, s)) == multiset{x} + multiset(s)
  {
    if s != [] && less(s[0], x) {
      InsertPermutes(less, x, s[1..]);
      assert s == [s[0]] + s[1..];
    }
  }

  lemma {:induction false} SortPermutes<T>(less: (T, T) -> bool, s: seq<T>)
    ensures multiset(Sort(less, s)) == multiset(s) && |Sort(less, s)| == |s|
  {
    if s != [] {
      SortPermutes(less, s[1..]);
      InsertPermutes(less, s[0], Sort(less, s[1..]));
      assert s == [s[0]] + s[1..];
    }
    assert |multiset(Sort(less, s))| == |Sort(less, s)|;
  }

  lemma {:induction false} InsertSorts<T(!new)>(less: (T, T) -> bool, x: T, s: seq<T>)
    requires StrictOrder(less) && Sorted(less, s)
    ensures Sorted(less, Insert(less, x, s))
  {
    var r := Insert(less, x, s);
    if s == [] {
    } else if less(s[0], x) {
      var rest := Insert(less, x, s[1..]);
      InsertSorts(less, x, s[1..]);
      InsertPermutes(less, x, s[1..]);
      forall j | 0 <= j < |rest|
        ensures !less(rest[j], s[0])
      {
        assert rest[j] in multiset(rest);
        assert rest[j] == x || rest[j] in s[1..];
      }
    } else {
      forall j | 0 <= j < |s|
        ensures !less(s[j], x)
      {
        assert j > 0 ==> !less(s[j], s[0]);
      }
    }
  }

  lemma {:induction false} SortSorts<T(!new)>(less: (T, T) -> bool, s: seq<T>)
    requires StrictOrder(less)
    ensures Sorted(less, Sort(less, s))
  {
    if s != [] {
      SortSorts(less, s[1..]);
      InsertSorts(less, s[0], Sort(less, s[1..]));
    }
  }

  /** The elements of x's rank, in order. */
  function Ties<T>(less: (T, T) -> bool, x: T, s: seq<T>): seq<T> {
    if s == [] then [] else (if less(x, s[0]) || less(s[0], x) then [] else [s[0]]) + Ties(less, x, s[1..])
  }

  lemma {:induction false} InsertKeepsTies<T(!new)>(less: (T, T) -> bool, x: T, y: T, s: seq<T>)
    requires StrictOrder(less)
    ensures Ties(less, x, Insert(less, y, s)) == Ties(less, x, [y] + s)
  {
    if s != [] && less(s[0], y) {
      InsertKeepsTies(less, x, y, s[1..]);
      assert ([y] + s)[1..] == s && ([y] + s[1..])[1..] == s[1..];
      assert less(s[0], x) || less(x, y);
    }
  }

  /** Elements of equal rank keep their order. */
  lemma {:induction false} SortIsStable<T(!new)>(less: (T, T) -> bool, s: seq<T>, x: T)
    requires StrictOrder(less)
    ensures Ties(less, x, Sort(less, s)) == Ties(less, x, s)
  {
    if s != [] {
      SortIsStable(less, s[1..], x);
      InsertKeepsTies(less, x, s[0], Sort(less, s[1..]));
      assert ([s[0]] + Sort(less, s[1..]))[1..] == Sort(less, s[1..]);
    }
  }

  /** No two positions hold elements of equal rank. */
  ghost predicate DistinctRanks<T>(less: (T, T) -> bool, s: seq<T>) {
    forall i, j :: 0 <= i < j < |s| ==> less(s[i], s[j]) || less(s[j], s[i])
  }

  /** Ranks x against every element of s. */
  ghost predicate Apart<T>(less: (T, T) -> bool, x: T, s: seq<T>) {
    forall y :: y in s ==> less(x, y) || less(y, x)
  }

  lemma ApartCons<T>(less: (T, T) -> bool, x: T, s: seq<T>)
    ensures DistinctRanks(less, [x] + s) <==> DistinctRanks(less, s) && Apart(less, x, s)
  {
    var all := [x] + s;
    assert forall k :: 0 <= k < |s| ==> all[k + 1] == s[k];
    if DistinctRanks(less, all) {
      forall i, j | 0 <= i < j < |s|
        ensures less(s[i], s[j]) || less(s[j], s[i])
      {
        assert all[i + 1] == s[i] && all[j + 1] == s[j];
      }
      forall y | y in s
        ensures less(x, y) || less(y, x)
      {
        var k :| 0 <= k < |s| && s[k] == y;
        assert all[0] == x && all[k + 1] == y;
      }
    }
  }

  lemma {:induction false} InsertDistinct<T>(less: (T, T) -> bool, x: T, s: seq<T>)
    requires DistinctRanks(less, s) && Apart(less, x, s)
    ensures DistinctRanks(less, Insert(less, x, s))
  {
    if s == [] || !less(s[0], x) {
      ApartCons(less, x, s);
    } else {
      var rest := Insert(less, x, s[1..]);
      assert s == [s[0]] + s[1..];
      ApartCons(less, s[0], s[1..]);
      InsertDistinct(less, x, s[1..]);
      InsertPermutes(less, x, s[1..]);
      forall y | y in rest
        ensures less(s[0], y) || less(y, s[0])
      {
        assert y in multiset(rest);
      }
      ApartCons(less, s[0], rest);
    }
  }

  lemma {:induction false} SortDistinct<T>(less: (T, T) -> bool, s: seq<T>)
    requires DistinctRanks(less, s)
    ensures DistinctRanks(less, Sort(less, s))
  {
    if s != [] {
      var rest := Sort(less, s[1..]);
      assert s == [s[0]] + s[1..];
      ApartCons(less, s[0], s[1..]);
      SortDistinct(less, s[1..]);
      SortPermutes(less, s[1..]);
      assert forall y :: y in rest ==> y in multiset(rest);
      InsertDistinct(less, s[0], rest);
    }
  }

  lemma SameHead<T(!new)>(less: (T, T) -> bool, a: seq<T>, b: seq<T>)
    requires multiset(a) == multiset(b) && Sorted(less, a) && Sorted(less, b) && DistinctRanks(less, a)
    requires a != [] && b != []
    ensures a[0] == b[0]
  {
    assert a[0] in multiset(b) && b[0] in multiset(a);
    var j :| 0 <= j < |b| && b[j] == a[0];
    var i :| 0 <= i < |a| && a[i] == b[0];
  }

  lemma TailMultiset<T>(a: seq<T>)
    requires a != []
    ensures multiset(a[1..]) == multiset(a) - multiset{a[0]}
  {
    assert a == [a[0]] + a[1..];
  }

  lemma SameLength<T>(a: seq<T>, b: seq<T>)
    requires multiset(a) == multiset(b)
    ensures |a| == |b|
  {
    assert |multiset(a)| == |a| && |multiset(b)| == |b|;
  }

  lemma TailSorted<T>(less: (T, T) -> bool, s: seq<T>)
    requires s != [] && Sorted(less, s)
    ensures Sorted(less, s[1..]) && (DistinctRanks(less, s) ==> DistinctRanks(less, s[1..]))
  {
  }

  /** With distinct ranks there is only one sorted arrangement. */
  lemma {:induction false} SortedIsUnique<T(!new)>(less: (T, T) -> bool, a: seq<T>, b: seq<T>)
    requires multiset(a) == multiset(b) && Sorted(less, a) && Sorted(less, b) && DistinctRanks(less, a)
    ensures a == b
  {
    hide Sorted, DistinctRanks;
    SameLength(a, b);
    if a != [] {
      SameHead(less, a, b);
      TailMultiset(a);
      TailMultiset(b);
      TailSorted(less, a);
      TailSorted(less, b);
      SortedIsUnique(less, a[1..], b[1..]);
      SameParts(a, b);
    }
  }

  lemma SameParts<T>(a: seq<T>, b: seq<T>)
    requires a != [] && b != [] && a[0] == b[0] && a[1..] == b[1..]
    ensures a == b
  {
    assert a == [a[0]] + a[1..] && b == [b[0]] + b[1..];
  }

  // ----- totals -----

  function Total<T>(s: seq<T>, w: T -> real): real {
    if s == [] then 0.0 else w(s[0]) + Total(s[1..], w)
  }

  function Itself(): real -> real { v => v }

  function Sum(values: seq<real>): real { Total(values, Itself()) }

  lemma {:induction false} TotalConcat<T>(a: seq<T>, b: seq<T>, w: T -> real)
    ensures Total(a + b, w) == Total(a, w) + Total(b, w)
  {
    if a == [] {
      assert a + b == b;
    } else {
      assert (a + b)[1..] == a[1..] + b;
      TotalConcat(a[1..], b, w);
    }
  }

  /** b without its element at j. */
  function Without<T>(b: seq<T>, j: nat): seq<T>
    requires j < |b|
  {
    b[..j] + b[j + 1..]
  }

  lemma WithoutMultiset<T>(b: seq<T>, j: nat)
    requires j < |b|
    ensures multiset(Without(b, j)) == multiset(b) - multiset{b[j]}
  {
    assert b == b[..j] + [b[j]] + b[j + 1..];
  }

  lemma {:induction false} WithoutTotal<T>(b: seq<T>, j: nat, w: T -> real)
    requires j < |b|
    ensures Total(b, w) == w(b[j]) + Total(Without(b, j), w)
  {
    assert b == b[..j] + b[j..] && b[j..][1..] == b[j + 1..];
    TotalConcat(b[..j], b[j..], w);
    TotalConcat(b[..j], b[j + 1..], w);
  }

  /** A total depends only on which elements there are, and how often. */
  lemma {:induction false} TotalPermutes<T>(a: seq<T>, b: seq<T>, w: T -> real)
    requires multiset(a) == multiset(b)
    ensures Total(a, w) == Total(b, w)
  {
    assert |multiset(a)| == |a| && |multiset(b)| == |b|;
    if a != [] {
      assert a[0] in multiset(b);
      var j :| 0 <= j < |b| && b[j] == a[0];
      WithoutMultiset(b, j);
      TailMultiset(a);
      TotalPermutes(a[1..], Without(b, j), w);
      WithoutTotal(b, j, w);
    }
  }
}

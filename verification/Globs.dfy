/** Matching a text against a glob pattern, as Python's fnmatch and Path.glob do. */
module Globs {
  predicate EndsWith(s: string, suffix: string) {
    |suffix| <= |s| && s[|s| - |suffix|..] == suffix
  }

  // ----- character classes -----

  /** The first closing bracket at or after position i, or the end. */
  function Closing(p: string, i: nat): (n: nat)
    requires i <= |p|
    ensures i <= n <= |p|
    decreases |p| - i
  {
    if i == |p| || p[i] == ']' then i else Closing(p, i + 1)
  }

  /**
    Where the class that opens at p[0] closes, or the end if it does not; a bracket
    right after the opening, or after its '!', does not close it.
  */
  function ClassEnd(p: string): (n: nat)
    requires p != ""
    ensures 1 <= n <= |p|
  {
    var i := if |p| > 1 && p[1] == '!' then 2 else 1;
    Closing(p, if i < |p| && p[i] == ']' then i + 1 else i)
  }

  /** Single characters and ranges `a-z`; a range that runs backwards is empty. */
  predicate InItems(c: char, items: string) {
    if items == "" then false
    else if |items| >= 3 && items[1] == '-' then (items[0] <= c <= items[2]) || InItems(c, items[3..])
    else c == items[0] || InItems(c, items[1..])
  }

  predicate InClass(c: char, inside: string) {
    if inside != "" && inside[0] == '!' then !InItems(c, inside[1..]) else InItems(c, inside)
  }

  // ----- matching -----

  predicate Glob(pattern: string, text: string)
    decreases |pattern| + |text|
  {
    if pattern == "" then text == ""
    else if pattern[0] == '*' then Glob(pattern[1..], text) || (text != "" && Glob(pattern, text[1..]))
    else if pattern[0] == '[' && ClassEnd(pattern) < |pattern| then
      text != "" && InClass(text[0], pattern[1..ClassEnd(pattern)]) && Glob(pattern[ClassEnd(pattern) + 1..], text[1..])
    else text != "" && (pattern[0] == '?' || pattern[0] == text[0]) && Glob(pattern[1..], text[1..])
  }

  /** No character that a pattern gives a meaning to. */
  predicate Plain(s: string) {
    '*' !in s && '?' !in s && '[' !in s
  }

  lemma {:induction false} GlobLiteral(p: string, rest: string, text: string)
    requires Plain(p)
    ensures Glob(p + rest, text) <==> p <= text && Glob(rest, text[|p|..])
  {
    if p == "" {
      assert p + rest == rest && text[0..] == text;
    } else {
      assert p[0] in p && (p + rest)[1..] == p[1..] + rest;
      if text != "" {
        GlobLiteral(p[1..], rest, text[1..]);
        assert p == [p[0]] + p[1..] && text == [text[0]] + text[1..];
        assert p <= text ==> text[1..][|p[1..]|..] == text[|p|..];
      }
    }
  }

  lemma GlobExact(s: string)
    requires Plain(s)
    ensures forall text :: Glob(s, text) <==> text == s
  {
    forall text
      ensures Glob(s, text) <==> text == s
    {
      GlobLiteral(s, "", text);
      assert s + "" == s;
    }
  }

  lemma {:induction false} GlobEnding(s: string, text: string)
    requires Plain(s)
    ensures Glob("*" + s, text) <==> EndsWith(text, s)
  {
    var pattern := "*" + s;
    assert pattern[1..] == s;
    GlobExact(s);
    if text != "" {
      GlobEnding(s, text[1..]);
      assert EndsWith(text, s) <==> text == s || EndsWith(text[1..], s);
    }
  }

  /** A pattern without a bracket matches itself. */
  lemma {:induction false} GlobSelf(s: string)
    requires '[' !in s
    ensures Glob(s, s)
  {
    if s != "" {
      assert s[0] in s && forall c :: c in s[1..] ==> c in s;
      GlobSelf(s[1..]);
      assert s[0] == '*' ==> Glob(s, s[1..]);
    }
  }

  // ----- what the special characters mean -----

  lemma {:induction false} StarExactly(rest: string, text: string)
    ensures Glob("*" + rest, text) <==> exists k :: 0 <= k <= |text| && Glob(rest, text[k..])
    decreases |text|
  {
    hide Glob;
    StarUnfolded(rest, text);
    assert text[0..] == text;
    if text != "" {
      StarExactly(rest, text[1..]);
      assert forall k :: 0 <= k < |text| ==> text[1..][k..] == text[k + 1..];
      if k :| 0 <= k <= |text| && Glob(rest, text[k..]) {
        assert k > 0 ==> text[1..][k - 1..] == text[k..];
      }
    }
  }

  lemma StarUnfolded(rest: string, text: string)
    ensures Glob("*" + rest, text) <==> Glob(rest, text) || (text != "" && Glob("*" + rest, text[1..]))
  {
    assert ("*" + rest)[1..] == rest;
  }

  lemma AnyCharacter(rest: string, text: string)
    ensures Glob("?" + rest, text) <==> text != "" && Glob(rest, text[1..])
  {
    assert ("?" + rest)[1..] == rest;
  }

  lemma ClassEndOf(inside: string, rest: string)
    requires inside != "" && ']' !in inside && inside != "!"
    ensures ClassEnd("[" + inside + "]" + rest) == 1 + |inside|
  {
    var p := "[" + inside + "]" + rest;
    assert p == "[" + (inside + ("]" + rest)) && p[1] == inside[0];
    assert inside[0] in inside && (|inside| > 1 ==> p[2] == inside[1] && inside[1] in inside);
    assert forall k :: 0 <= k < |inside| ==> p[1 + k] == inside[k] && inside[k] in inside;
    ClosesAt(p, 1, 1 + |inside|);
    if inside[0] == '!' {
      ClosesAt(p, 2, 1 + |inside|);
    }
  }

  lemma ClassUnfolded(inside: string, rest: string, text: string)
    requires inside != "" && ']' !in inside && inside != "!"
    ensures Glob("[" + inside + "]" + rest, text)
            <==> text != "" && InClass(text[0], inside) && Glob(rest, text[1..])
  {
    hide InClass, ClassEnd;
    var p := "[" + inside + "]" + rest;
    ClassEndOf(inside, rest);
    assert p == "[" + (inside + ("]" + rest));
    assert p[1..1 + |inside|] == inside && p[2 + |inside|..] == rest;
  }

  /** A class of characters that stand for themselves, or with `!` for all others. */
  lemma ClassExactly(items: string, rest: string, text: string)
    requires items != "" && '-' !in items && ']' !in items && items[0] != '!'
    ensures Glob("[" + items + "]" + rest, text) <==> text != "" && text[0] in items && Glob(rest, text[1..])
    ensures Glob("[" + ("!" + items) + "]" + rest, text)
            <==> text != "" && text[0] !in items && Glob(rest, text[1..])
  {
    hide InItems, Glob;
    ClassUnfolded(items, rest, text);
    ClassUnfolded("!" + items, rest, text);
    if text != "" {
      SinglesExactly(text[0], items);
      assert ("!" + items)[1..] == items;
    }
  }

  /** A range. */
  lemma RangeExactly(a: char, b: char, rest: string, text: string)
    requires a !in {'!', ']'} && b != ']'
    ensures Glob("[" + [a, '-', b] + "]" + rest, text) <==> text != "" && a <= text[0] <= b && Glob(rest, text[1..])
  {
    hide Glob;
    var items := [a, '-', b];
    ClassUnfolded(items, rest, text);
    if text != "" {
      OneRange(a, b, text[0]);
      assert items[0] == a;
    }
  }

  lemma OneRange(a: char, b: char, c: char)
    ensures InItems(c, [a, '-', b]) <==> a <= c <= b
  {
    var items := [a, '-', b];
    assert items[3..] == "" && !InItems(c, "");
    assert items[0] == a && items[1] == '-' && items[2] == b;
  }

  lemma {:induction false} ClosesAt(p: string, i: nat, n: nat)
    requires i <= n < |p| && p[n] == ']' && forall k :: i <= k < n ==> p[k] != ']'
    ensures Closing(p, i) == n
    decreases n - i
  {
    if i < n {
      ClosesAt(p, i + 1, n);
    }
  }

  lemma {:induction false} SinglesExactly(c: char, items: string)
    requires '-' !in items
    ensures InItems(c, items) <==> c in items
  {
    if items != "" {
      assert |items| > 1 ==> items[1] in items;
      SinglesExactly(c, items[1..]);
      assert items == [items[0]] + items[1..];
    }
  }

  // ----- concatenated patterns -----

  lemma {:induction false} ClosingAppend(p: string, rest: string, i: nat)
    requires i <= |p| && ']' !in rest
    ensures Closing(p + rest, i) == if Closing(p, i) < |p| then Closing(p, i) else |p + rest|
    decreases |p| - i
  {
    if i == |p| {
      NoClosing(p + rest, i);
    } else if p[i] != ']' {
      ClosingAppend(p, rest, i + 1);
    }
  }

  lemma {:induction false} NoClosing(p: string, i: nat)
    requires i <= |p| && forall k :: i <= k < |p| ==> p[k] != ']'
    ensures Closing(p, i) == |p|
    decreases |p| - i
  {
    if i < |p| {
      NoClosing(p, i + 1);
    }
  }

  /** What follows does not change where a class closes, if it has no closing bracket. */
  lemma ClassEndAppend(p: string, rest: string)
    requires p != "" && ']' !in rest
    ensures ClassEnd(p + rest) == if ClassEnd(p) < |p| then ClassEnd(p) else |p + rest|
  {
    var whole := p + rest;
    assert forall k :: 0 <= k < |rest| ==> whole[|p| + k] == rest[k] && rest[k] in rest;
    if |p| == 1 || (|p| == 2 && p[1] == '!') {
      NoClosing(whole, 1);
      if |whole| > 1 {
        NoClosing(whole, 2);
      }
    } else {
      var i := if p[1] == '!' then 2 else 1;
      ClosingAppend(p, rest, if p[i] == ']' then i + 1 else i);
    }
  }

  /** A match of a concatenation is a match of each part. */
  lemma {:induction false} GlobSplit(p: string, rest: string, text: string) returns (k: nat)
    requires ']' !in rest && Glob(p + rest, text)
    ensures k <= |text| && Glob(p, text[..k]) && Glob(rest, text[k..])
    decreases |p| + |text|
  {
    hide InClass, ClassEnd;
    var whole := p + rest;
    if p == "" {
      k := 0;
      assert whole == rest && text[0..] == text;
    } else if p[0] == '*' {
      assert whole[1..] == p[1..] + rest;
      if Glob(whole[1..], text) {
        k := GlobSplit(p[1..], rest, text);
      } else {
        k := GlobSplit(p, rest, text[1..]);
        StepBack(text, k);
        k := k + 1;
      }
    } else {
      ClassEndAppend(p, rest);
      var n := if p[0] == '[' && ClassEnd(p) < |p| then ClassEnd(p) + 1 else 1;
      assert whole[n..] == p[n..] + rest;
      assert n > 1 ==> whole[1..n - 1] == p[1..n - 1];
      k := GlobSplit(p[n..], rest, text[1..]);
      StepBack(text, k);
      k := k + 1;
    }
  }

  lemma StepBack(text: string, k: nat)
    requires text != "" && k < |text|
    ensures text[..k + 1][1..] == text[1..][..k] && text[k + 1..] == text[1..][k..] && text[..k + 1][0] == text[0]
  {
  }

  /** Matches of the parts make a match of the concatenation. */
  lemma {:induction false} GlobJoin(p: string, rest: string, text: string, k: nat)
    requires ']' !in rest && k <= |text| && Glob(p, text[..k]) && Glob(rest, text[k..])
    ensures Glob(p + rest, text)
    decreases |p| + |text|
  {
    hide InClass, ClassEnd;
    var whole := p + rest;
    if p == "" {
      assert whole == rest && text[0..] == text;
    } else if p[0] == '*' {
      assert whole[1..] == p[1..] + rest;
      if Glob(p[1..], text[..k]) {
        GlobJoin(p[1..], rest, text, k);
      } else {
        StepBack(text, k - 1);
        GlobJoin(p, rest, text[1..], k - 1);
      }
    } else {
      ClassEndAppend(p, rest);
      var n := if p[0] == '[' && ClassEnd(p) < |p| then ClassEnd(p) + 1 else 1;
      assert whole[n..] == p[n..] + rest;
      assert n > 1 ==> whole[1..n - 1] == p[1..n - 1];
      StepBack(text, k - 1);
      GlobJoin(p[n..], rest, text[1..], k - 1);
    }
  }
}

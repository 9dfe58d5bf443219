/**
  What discovery gives for a listing or a page, on the file names and tags themselves
  (src/kitt/campaign/gguf_discovery.py).
*/
module DiscoveryMeaning {
  import opened Basics
  import opened Sorting
  import opened GgufDiscovery
  import opened Globs
  import opened QuantDiscovery
  import opened PatternCoverage
  import opened Planning
  import opened OllamaDiscovery
  import opened Picking
  import opened PlanMeaning

  // ----- text -----

  /** Where two texts first differ, a has the smaller character. */
  ghost predicate SmallerAt(a: string, b: string, k: nat) {
    k < |a| && k < |b| && a[..k] == b[..k] && a[k] < b[k]
  }

  /** Python's order of strings: the first difference decides, and a proper start comes first. */
  lemma {:induction false} LexExactly(a: string, b: string)
    ensures LexLess(a, b) <==> (|a| < |b| && a <= b) || exists k: nat :: SmallerAt(a, b, k)
  {
    if a != "" && b != "" && a[0] == b[0] {
      hide SmallerAt;
      var x, y := a[1..], b[1..];
      LexExactly(x, y);
      assert a == [a[0]] + x && b == [b[0]] + y;
      if k: nat :| SmallerAt(x, y, k) {
        SmallerLater(a, b, k);
      }
      if k: nat :| SmallerAt(a, b, k) {
        SmallerEarlier(a, b, k);
      }
    } else if a != "" && b != "" {
      assert a[0] < b[0] ==> SmallerAt(a, b, 0);
      if k: nat :| SmallerAt(a, b, k) {
        assert k > 0 ==> a[..k][0] == b[..k][0];
      }
    }
  }

  lemma SmallerLater(a: string, b: string, k: nat)
    requires a != "" && b != "" && a[0] == b[0] && SmallerAt(a[1..], b[1..], k)
    ensures SmallerAt(a, b, k + 1)
  {
    assert a[..k + 1] == [a[0]] + a[1..][..k] && b[..k + 1] == [b[0]] + b[1..][..k];
  }

  lemma SmallerEarlier(a: string, b: string, k: nat)
    requires a != "" && b != "" && a[0] == b[0] && SmallerAt(a, b, k)
    ensures k > 0 && SmallerAt(a[1..], b[1..], k - 1)
  {
    assert a[1..][..k - 1] == a[..k][1..] && b[1..][..k - 1] == b[..k][1..];
  }

  lemma EndsExactly(s: string, suffix: string)
    ensures EndsWith(s, suffix) <==> exists head :: s == head + suffix
  {
    if EndsWith(s, suffix) {
      assert s == s[..|s| - |suffix|] + suffix;
    }
  }

  /** `part in s` */
  lemma {:induction false} ContainsExactly(s: string, part: string)
    ensures Contains(s, part) <==> exists i :: 0 <= i <= |s| && part <= s[i..]
  {
    if part <= s {
      assert s[0..] == s;
    } else if s != "" {
      ContainsExactly(s[1..], part);
      assert forall i :: 0 <= i < |s| ==> s[1..][i..] == s[i + 1..];
      if i :| 0 <= i <= |s| && part <= s[i..] {
        assert i > 0 && s[1..][i - 1..] == s[i..];
      }
    }
  }

  // ----- GGUF variants -----

  /** The name ends in `-00001-of-00002`, with any digits. */
  ghost predicate IsShardStem(stem: string) {
    exists base, k, n ::
      && stem == base + "-" + k + "-of-" + n && |k| == |n| == 5
      && (forall i :: 0 <= i < 5 ==> '0' <= k[i] <= '9') && forall i :: 0 <= i < 5 ==> '0' <= n[i] <= '9'
  }

  lemma ShardStem(stem: string)
    requires BaseName(stem + ".gguf") != stem + ".gguf"
    ensures IsShardStem(stem)
  {
    hide IsShardSuffix;
    var name := stem + ".gguf";
    var head, t := name[..|name| - 20], name[|name| - 20..];
    ShardTail(t);
    StemOf(stem, head, t);
    var k, n := t[1..6], t[10..15];
    assert stem == head + ("-" + k + "-of-" + n);
    assert head + ("-" + k + "-of-" + n) == head + "-" + k + "-of-" + n;
  }

  lemma StemOf(stem: string, head: string, t: string)
    requires |t| == 20 && stem + ".gguf" == head + t
    ensures stem == head + t[..15]
  {
    var name := stem + ".gguf";
    assert |stem| == |head| + 15 && stem == name[..|stem|];
    assert head + t == head + t[..15] + t[15..];
    assert (head + t[..15] + t[15..])[..|stem|] == head + t[..15];
  }

  lemma ShardTail(t: string)
    requires IsShardSuffix(t)
    ensures |t| == 20 && t[..15] == "-" + t[1..6] + "-of-" + t[10..15]
    ensures forall i :: 0 <= i < 5 ==> '0' <= t[1..6][i] <= '9'
    ensures forall i :: 0 <= i < 5 ==> '0' <= t[10..15][i] <= '9'
  {
  }

  /** A file's quantisation name: what the search finds in its name without extension, or all of that. */
  lemma NameOfFile(search: Search, dir: string, stem: string)
    requires '/' !in stem && !HasGgufExtension(stem) && !IsShardStem(stem)
    ensures QuantName(search, dir + "/" + stem + ".gguf") == search(stem).GetOr(stem)
    ensures QuantName(search, stem + ".gguf") == search(stem).GetOr(stem)
  {
    hide QuantName, HasGgufExtension, BaseName, IsShardStem, EndsWith;
    if BaseName(stem + ".gguf") != stem + ".gguf" {
      ShardStem(stem);
    }
    FileNameOfName(stem);
    FileNameAppend(dir + "/", stem);
    assert FileName(dir + "/") == "" && "" + stem == stem;
    ShardedLikeWhole(search, dir + "/" + stem, 1, 1);
    ShardedLikeWhole(search, stem, 1, 1);
  }

  /** Position p[i] is the first at which the i-th name appears, and holds its group's first file. */
  ghost predicate AppearAt(search: Search, files: seq<string>, p: seq<int>) {
    && Increasing(p, |files|) && |p| == |FirstSeen(search, files)|
    && forall i :: 0 <= i < |p| ==> FirstAt(search, files, FirstSeen(search, files)[i], p[i])
  }

  ghost predicate FirstAt(search: Search, files: seq<string>, name: string, i: int) {
    0 <= i < |files| && QuantName(search, files[i]) == name && Take(Named(search, files, name), 1) == [files[i]]
  }

  lemma FirstStays(search: Search, files: seq<string>, name: string, i: int)
    requires files != [] && FirstAt(search, files[..|files| - 1], name, i)
    ensures FirstAt(search, files, name, i)
  {
    hide QuantName;
  }

  lemma FirstComes(search: Search, files: seq<string>)
    requires files != []
    requires QuantName(search, files[|files| - 1]) !in FirstSeen(search, files[..|files| - 1])
    ensures FirstAt(search, files, QuantName(search, files[|files| - 1]), |files| - 1)
  {
    hide QuantName, FirstSeen;
    UnseenIsEmpty(search, files[..|files| - 1], QuantName(search, files[|files| - 1]));
  }

  lemma {:induction false} Appearances(search: Search, files: seq<string>) returns (p: seq<int>)
    ensures AppearAt(search, files, p)
  {
    hide QuantName, FirstAt;
    p := [];
    if files != [] {
      var front, last := files[..|files| - 1], files[|files| - 1];
      var q := Appearances(search, front);
      var seen, name := FirstSeen(search, front), QuantName(search, last);
      forall i | 0 <= i < |q|
        ensures FirstAt(search, files, seen[i], q[i])
      {
        FirstStays(search, files, seen[i], q[i]);
      }
      if name !in seen {
        FirstComes(search, files);
      }
      p := if name in seen then q else q + [|front|];
    }
  }

  /** Variants are listed by their first files, and the files of each in order. */
  lemma VariantsInOrder(search: Search, all: seq<string>, quants: seq<QuantInfo>)
    requires Discovered(search, Some(all), quants)
    ensures forall i :: 0 <= i < |quants| ==> quants[i].files != []
    ensures forall i, j :: 0 <= i < j < |quants| ==> !LexLess(quants[j].files[0], quants[i].files[0])
    ensures forall i, a, b :: 0 <= i < |quants| && 0 <= a < b < |quants[i].files| ==>
              !LexLess(quants[i].files[b], quants[i].files[a])
  {
    hide FirstSeen, Named, IsPattern, LexLess, SortedGgufs;
    var files := SortedGgufs(all);
    SortedGgufsIn(all);
    var p := Appearances(search, files);
    forall i | 0 <= i < |quants|
      ensures quants[i].files != [] && quants[i].files[0] == files[p[i]] && Sorted(LexLess, quants[i].files)
    {
      assert quants[i] in quants && NamesOf(quants)[i] == quants[i].quantName;
      NamedSorted(search, files, quants[i].quantName);
    }
  }

  /**
    Each variant holds exactly the listed .gguf files of its name, as often as they are
    listed; each name of such a file has one variant.
  */
  lemma VariantsExactly(search: Search, all: seq<string>, quants: seq<QuantInfo>, f: string)
    requires Discovered(search, Some(all), quants)
    ensures forall i :: 0 <= i < |quants| ==>
      multiset(quants[i].files)[f]
      == if EndsWith(f, ".gguf") && QuantName(search, f) == quants[i].quantName then multiset(all)[f] else 0
    ensures f in all && EndsWith(f, ".gguf") ==>
      exists i :: 0 <= i < |quants| && quants[i].quantName == QuantName(search, f)
    ensures forall i, j :: 0 <= i < j < |quants| ==> quants[i].quantName != quants[j].quantName
  {
    hide FirstSeen, Named, IsPattern, LexLess, SortedGgufs, QuantName, EndsWith, GgufFiles;
    var files := SortedGgufs(all);
    SortedGgufsIn(all);
    GgufBag(all, f);
    FirstSeenDistinct(search, files);
    forall i | 0 <= i < |quants|
      ensures NamesOf(quants)[i] == quants[i].quantName
      ensures multiset(quants[i].files)[f]
              == if EndsWith(f, ".gguf") && QuantName(search, f) == quants[i].quantName then multiset(all)[f] else 0
    {
      assert quants[i] in quants;
      NamedBag(search, files, quants[i].quantName, f);
    }
    if f in all && EndsWith(f, ".gguf") {
      assert QuantName(search, f) in NamesOf(quants);
    }
  }

  lemma {:induction false} GgufBag(all: seq<string>, f: string)
    ensures multiset(GgufFiles(all))[f] == if EndsWith(f, ".gguf") then multiset(all)[f] else 0
  {
    hide EndsWith;
    if all != [] {
      GgufBag(all[1..], f);
      assert all == [all[0]] + all[1..];
    }
  }

  // ----- Ollama tags -----

  /** The model's name: the base tag up to its first colon. */
  ghost predicate IsModelName(baseTag: string, name: string) {
    ':' !in name && (baseTag == name || name + ":" <= baseTag)
  }

  /** A scraped tag is dropped for the wrong size, or as a text model. */
  ghost predicate Dropped(size: string, tag: string) {
    (size != "" && size != "latest" && !(size <= tag))
    || (exists i :: 0 <= i <= |tag| && "-text-" <= tag[i..])
    || (exists head :: tag == head + "-text")
  }

  ghost predicate FromPage(name: string, size: string, page: seq<string>, t: string) {
    exists tag :: tag in page && !Dropped(size, tag) && t == name + ":" + tag
  }

  /** What a base tag `name:size` is expanded to: the tags that are not dropped, in order, or itself. */
  ghost predicate Tags(name: string, size: string, baseTag: string, page: Option<seq<string>>, tags: seq<string>) {
    if page.None? || forall t :: !FromPage(name, size, page.value, t) then tags == [baseTag]
    else
      && (forall i, j :: 0 <= i < j < |tags| ==> LexLess(tags[i], tags[j]))
      && forall t :: t in tags <==> FromPage(name, size, page.value, t)
  }

  lemma {:induction false} ModelNameIs(baseTag: string, name: string)
    requires IsModelName(baseTag, name)
    ensures BeforeFirstColon(baseTag) == name
  {
    if baseTag != "" {
      if name == "" {
        assert baseTag != name;
      } else {
        assert baseTag[0] == name[0] && name[0] in name;
        assert baseTag == name || baseTag[..|name| + 1] == name + ":";
        ModelNameIs(baseTag[1..], name[1..]);
      }
    }
  }

  lemma DroppedExactly(baseTag: string, size: string, tag: string)
    requires NamesQuant(baseTag, size)
    ensures IsVariant(baseTag, tag) <==> !Dropped(if ':' in baseTag then size else "", tag)
  {
    hide Contains, EndsWith;
    ContainsExactly(tag, "-text-");
    EndsExactly(tag, "-text");
    SizeIs(baseTag, size);
  }

  /** What follows the last colon, from PlanMeaning: the target size. */
  lemma SizeIs(baseTag: string, size: string)
    requires NamesQuant(baseTag, size)
    ensures AfterLastColon(baseTag) == size
  {
    ColonFree(size);
    if baseTag != size {
      var head :| baseTag == head + ":" + size;
      AfterLastColonOf(head, size);
    }
  }

  lemma NoneWanted(baseTag: string, page: seq<string>)
    ensures (forall tag :: tag in page ==> !IsVariant(baseTag, tag)) <==> forall t :: !IsListed(baseTag, page, t)
  {
    hide IsVariant;
    if forall t :: !IsListed(baseTag, page, t) {
      NoneListed(baseTag, page);
    }
  }

  /** Discovery gives the wanted tags of the page in order, or the base tag. */
  lemma TagsExactly(baseTag: string, name: string, size: string, page: Option<seq<string>>, tags: seq<string>)
    requires TagsFor(baseTag, page, tags) && IsModelName(baseTag, name) && NamesQuant(baseTag, size)
    ensures Tags(name, if ':' in baseTag then size else "", baseTag, page, tags)
  {
    hide IsVariant, Dropped, LexLess;
    ModelNameIs(baseTag, name);
    forall tag
      ensures IsVariant(baseTag, tag) <==> !Dropped(if ':' in baseTag then size else "", tag)
    {
      DroppedExactly(baseTag, size, tag);
    }
    if page.Some? {
      forall t
        ensures IsListed(baseTag, page.value, t) <==> FromPage(name, if ':' in baseTag then size else "", page.value, t)
      {
      }
      NoneWanted(baseTag, page.value);
      forall i, j | 0 <= i < j < |tags| && Sorted(LexLess, tags)
        ensures tags[i] == tags[j] || LexLess(tags[i], tags[j])
      {
        LexTotal(tags[i], tags[j]);
      }
    }
  }
}

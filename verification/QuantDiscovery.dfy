/**
  Grouping a repository's .gguf files into quantisation variants, and the glob
  pattern that fetches a variant (src/kitt/campaign/gguf_discovery.py).
  The search for a quantisation name inside a file's stem is the parameter `search`.
*/
module QuantDiscovery {
  import opened Basics
  import opened Sorting
  import opened GgufDiscovery
  import opened Globs

  type Search = string -> Option<string>

  /** `Path(path).name`: what follows the last slash. */
  function FileName(path: string): (name: string)
    ensures EndsWith(path, name) && '/' !in name
    ensures |name| < |path| ==> path[|path| - |name| - 1] == '/'
  {
    if path == "" || path[|path| - 1] == '/' then ""
    else FileName(path[..|path| - 1]) + [path[|path| - 1]]
  }

  /** `str(Path(path).parent)` of a relative path. */
  function Parent(path: string): string {
    var n := |FileName(path)|;
    if n == |path| then "." else path[..|path| - n - 1]
  }

  predicate AllDigits(s: string) {
    forall i :: 0 <= i < |s| ==> '0' <= s[i] <= '9'
  }

  /** `-00001-of-00002.gguf` */
  predicate IsShardSuffix(t: string) {
    |t| == 20 && t[0] == '-' && AllDigits(t[1..6]) && t[6..10] == "-of-" && AllDigits(t[10..15]) && t[15..] == ".gguf"
  }

  /** A shard's name without its suffix, or the name itself. */
  function BaseName(name: string): string {
    if |name| >= 20 && IsShardSuffix(name[|name| - 20..]) then name[..|name| - 20] else name
  }

  /** `.gguf` in any case. */
  predicate HasGgufExtension(name: string) {
    var n := |name|;
    n >= 5 && name[n - 5] == '.' && name[n - 4] in "gG" && name[n - 3] in "gG" && name[n - 2] in "uU"
      && name[n - 1] in "fF"
  }

  function ExtractQuantName(search: Search, filename: string): string {
    var name := FileName(filename);
    var stem := if HasGgufExtension(name) then name[..|name| - 5] else name;
    search(stem).GetOr(stem)
  }

  function QuantName(search: Search, path: string): string {
    ExtractQuantName(search, BaseName(FileName(path)))
  }

  /** `[f for f in all_files if f.endswith(".gguf")]` */
  function GgufFiles(all: seq<string>): seq<string> {
    if all == [] then [] else (if EndsWith(all[0], ".gguf") then [all[0]] else []) + GgufFiles(all[1..])
  }

  // ----- grouping -----

  /** The files with this quantisation name, in order. */
  function Named(search: Search, files: seq<string>, name: string): seq<string> {
    if files == [] then []
    else
      var last := files[|files| - 1];
      Named(search, files[..|files| - 1], name) + (if QuantName(search, last) == name then [last] else [])
  }

  /** The quantisation names, by first appearance. */
  function FirstSeen(search: Search, files: seq<string>): seq<string> {
    if files == [] then []
    else
      var seen, name := FirstSeen(search, files[..|files| - 1]), QuantName(search, files[|files| - 1]);
      if name in seen then seen else seen + [name]
  }

  /** A dict of lists, as its keys in insertion order and its contents. */
  ghost predicate Grouped(search: Search, files: seq<string>, names: seq<string>, groups: map<string, seq<string>>) {
    && names == FirstSeen(search, files)
    && (forall name :: name in groups <==> name in names)
    && (forall name :: name in groups ==> groups[name] == Named(search, files, name))
  }

  lemma {:induction false} UnseenIsEmpty(search: Search, files: seq<string>, name: string)
    ensures name in FirstSeen(search, files) <==> Named(search, files, name) != []
  {
    if files != [] {
      UnseenIsEmpty(search, files[..|files| - 1], name);
    }
  }

  method GroupByQuant(search: Search, files: seq<string>) returns (names: seq<string>, groups: map<string, seq<string>>)
    ensures Grouped(search, files, names, groups)
  {
    hide QuantName;
    names, groups := [], map[];
    for i := 0 to |files|
      invariant Grouped(search, files[..i], names, groups)
    {
      var name := QuantName(search, files[i]);
      assert files[..i + 1][..i] == files[..i];
      UnseenIsEmpty(search, files[..i], name);
      if name !in groups {
        names, groups := names + [name], groups[name := []];
      }
      groups := groups[name := groups[name] + [files[i]]];
    }
    assert files[..|files|] == files;
  }

  // ----- the include pattern -----

  ghost predicate CommonTo(p: string, strings: seq<string>) {
    forall s :: s in strings ==> p <= s
  }

  ghost predicate IsLongestPrefix(p: string, strings: seq<string>) {
    CommonTo(p, strings) && forall q :: CommonTo(q, strings) ==> q <= p
  }

  /** Shrinks the first string until it starts all the others. */
  method CommonPrefix(strings: seq<string>) returns (prefix: string)
    ensures strings == [] ==> prefix == ""
    ensures strings != [] ==> IsLongestPrefix(prefix, strings)
  {
    if strings == [] {
      return "";
    }
    prefix := strings[0];
    assert prefix in strings && forall s :: s in strings[..1] ==> s == prefix;
    for i := 1 to |strings|
      invariant CommonTo(prefix, strings[..i])
      invariant forall q :: CommonTo(q, strings) ==> q <= prefix
    {
      while !(prefix <= strings[i])
        invariant CommonTo(prefix, strings[..i])
        invariant forall q :: CommonTo(q, strings) ==> q <= prefix
        decreases |prefix|
      {
        ShorterIsCommon(prefix, strings, i);
        prefix := prefix[..|prefix| - 1];
        if prefix == "" {
          return "";
        }
      }
      assert strings[..i + 1] == strings[..i] + [strings[i]];
    }
    assert strings[..|strings|] == strings;
  }

  lemma ShorterIsCommon(prefix: string, strings: seq<string>, i: nat)
    requires i < |strings| && prefix != "" && CommonTo(prefix, strings[..i]) && !(prefix <= strings[i])
    requires forall q :: CommonTo(q, strings) ==> q <= prefix
    ensures CommonTo(prefix[..|prefix| - 1], strings[..i])
    ensures forall q :: CommonTo(q, strings) ==> q <= prefix[..|prefix| - 1]
  {
    forall q | CommonTo(q, strings)
      ensures q <= prefix[..|prefix| - 1]
    {
      assert strings[i] in strings && q != prefix;
    }
  }

  ghost predicate IsPattern(pattern: string, files: seq<string>)
    requires files != []
  {
    if |files| == 1 then pattern == files[0]
    else if Parent(files[0]) != "" && Parent(files[0]) != "." then pattern == Parent(files[0]) + "/*.gguf"
    else exists prefix :: IsLongestPrefix(prefix, files) && pattern == prefix + "*.gguf"
  }

  method IncludePattern(files: seq<string>) returns (pattern: string)
    requires files != []
    ensures IsPattern(pattern, files)
  {
    if |files| == 1 {
      return files[0];
    }
    var commonDir := Parent(files[0]);
    if commonDir != "" && commonDir != "." {
      pattern := commonDir + "/*.gguf";
    } else {
      var prefix := CommonPrefix(files);
      pattern := prefix + "*.gguf";
    }
  }

  // ----- discover_gguf_quants -----

  /** The .gguf files of a listing, sorted. */
  function SortedGgufs(all: seq<string>): seq<string> { Sort(LexLess, GgufFiles(all)) }

  /** Each variant holds the files of its name, in order, and the pattern for them. */
  ghost predicate VariantsOf(search: Search, files: seq<string>, names: seq<string>, quants: seq<QuantInfo>) {
    NamesOf(quants) == names
    && forall q :: q in quants ==>
       q.files == Named(search, files, q.quantName) != [] && IsPattern(q.includePattern, q.files)
  }

  /** What discovery promises for a listing; None is a listing that could not be fetched. */
  ghost predicate Discovered(search: Search, listing: Option<seq<string>>, quants: seq<QuantInfo>) {
    match listing
    case None => quants == []
    case Some(all) => VariantsOf(search, SortedGgufs(all), FirstSeen(search, SortedGgufs(all)), quants)
  }

  method Discover(search: Search, listing: Option<seq<string>>) returns (quants: seq<QuantInfo>)
    ensures Discovered(search, listing, quants)
  {
    hide FirstSeen, Named, IsPattern, LexLess, VariantsOf, Sort, GgufFiles, QuantName;
    if listing.None? {
      return [];
    }
    var ggufs := Sort(LexLess, GgufFiles(listing.value));
    NoVariants(search, ggufs);
    if ggufs == [] {
      return [];
    }
    var names, groups := GroupByQuant(search, ggufs);
    quants := [];
    assert names[..0] == [];
    for i := 0 to |names|
      invariant VariantsOf(search, ggufs, names[..i], quants)
    {
      assert names[..i + 1] == names[..i] + [names[i]];
      assert names[i] in names;
      UnseenIsEmpty(search, ggufs, names[i]);
      GroupStaysSorted(search, listing.value, names[i]);
      var files := Sort(LexLess, groups[names[i]]);
      var pattern := IncludePattern(files);
      VariantSnoc(search, ggufs, names[..i], quants, QuantInfo(names[i], files, pattern));
      quants := quants + [QuantInfo(names[i], files, pattern)];
    }
    assert names[..|names|] == names;
  }

  lemma {:induction false} VariantSnoc(search: Search, files: seq<string>, names: seq<string>,
                                       quants: seq<QuantInfo>, q: QuantInfo)
    requires VariantsOf(search, files, names, quants)
    requires q.files == Named(search, files, q.quantName) != [] && IsPattern(q.includePattern, q.files)
    ensures VariantsOf(search, files, names + [q.quantName], quants + [q])
  {
    hide Named, IsPattern;
    assert NamesOf(quants + [q]) == NamesOf(quants) + [q.quantName];
  }

  lemma NoVariants(search: Search, files: seq<string>)
    ensures VariantsOf(search, files, [], []) && FirstSeen(search, []) == []
  {
    hide Named, IsPattern;
  }

  // ----- sortedness -----

  lemma {:induction false} SortKeepsSorted<T>(less: (T, T) -> bool, s: seq<T>)
    requires Sorted(less, s)
    ensures Sort(less, s) == s
  {
    if s != [] {
      SortKeepsSorted(less, s[1..]);
      assert s == [s[0]] + s[1..];
    }
  }

  lemma {:induction false} NamedIn(search: Search, files: seq<string>, name: string)
    ensures forall f :: f in Named(search, files, name) <==> f in files && QuantName(search, f) == name
  {
    hide QuantName;
    if files != [] {
      NamedIn(search, files[..|files| - 1], name);
      assert files == files[..|files| - 1] + [files[|files| - 1]];
    }
  }

  lemma {:induction false} NamedSorted(search: Search, files: seq<string>, name: string)
    requires Sorted(LexLess, files)
    ensures Sorted(LexLess, Named(search, files, name))
  {
    hide QuantName, LexLess;
    if files != [] {
      var front, last := files[..|files| - 1], files[|files| - 1];
      NamedSorted(search, front, name);
      NamedIn(search, front, name);
      var kept := Named(search, front, name);
      forall i | 0 <= i < |kept|
        ensures !LexLess(last, kept[i])
      {
        assert kept[i] in kept;
        var k :| 0 <= k < |front| && front[k] == kept[i];
        assert files[k] == kept[i];
      }
    }
  }

  lemma {:induction false} GroupStaysSorted(search: Search, all: seq<string>, name: string)
    ensures Sort(LexLess, Named(search, SortedGgufs(all), name)) == Named(search, SortedGgufs(all), name)
  {
    LexOrder();
    SortSorts(LexLess, GgufFiles(all));
    NamedSorted(search, SortedGgufs(all), name);
    SortKeepsSorted(LexLess, Named(search, SortedGgufs(all), name));
  }

  // ----- each file in exactly one group -----

  lemma {:induction false} FirstSeenDistinct(search: Search, files: seq<string>)
    ensures Distinct(FirstSeen(search, files))
    ensures forall f :: f in files ==> QuantName(search, f) in FirstSeen(search, files)
  {
    hide QuantName;
    if files != [] {
      FirstSeenDistinct(search, files[..|files| - 1]);
      assert files == files[..|files| - 1] + [files[|files| - 1]];
    }
  }

  lemma {:induction false} DiscoveredNamesDistinct(search: Search, listing: Option<seq<string>>, quants: seq<QuantInfo>)
    requires Discovered(search, listing, quants)
    ensures Distinct(NamesOf(quants))
  {
    if listing.Some? {
      FirstSeenDistinct(search, SortedGgufs(listing.value));
    }
  }

  /** All groups, one after another. */
  function AllFiles(search: Search, files: seq<string>, names: seq<string>): seq<string> {
    if names == [] then [] else AllFiles(search, files, names[..|names| - 1]) + Named(search, files, names[|names| - 1])
  }

  lemma {:induction false} NamedBag(search: Search, files: seq<string>, name: string, f: string)
    ensures multiset(Named(search, files, name))[f] == if QuantName(search, f) == name then multiset(files)[f] else 0
  {
    hide QuantName;
    if files != [] {
      NamedBag(search, files[..|files| - 1], name, f);
      assert files == files[..|files| - 1] + [files[|files| - 1]];
    }
  }

  lemma {:induction false} AllFilesBag(search: Search, files: seq<string>, names: seq<string>, f: string)
    requires Distinct(names)
    ensures multiset(AllFiles(search, files, names))[f]
            == if QuantName(search, f) in names then multiset(files)[f] else 0
  {
    hide QuantName, Named, Distinct;
    if names != [] {
      var front, last := names[..|names| - 1], names[|names| - 1];
      assert names == front + [last];
      DistinctConcat(front, [last]);
      AllFilesBag(search, files, front, f);
      NamedBag(search, files, last, f);
    }
  }

  /** The groups partition the listing: no file is lost, repeated or added. */
  lemma {:induction false} GroupsPartition(search: Search, files: seq<string>)
    ensures Distinct(FirstSeen(search, files))
    ensures multiset(AllFiles(search, files, FirstSeen(search, files))) == multiset(files)
  {
    hide QuantName, FirstSeen, AllFiles;
    var names := FirstSeen(search, files);
    FirstSeenDistinct(search, files);
    forall f
      ensures multiset(AllFiles(search, files, names))[f] == multiset(files)[f]
    {
      AllFilesBag(search, files, names, f);
      assert f in files <==> f in multiset(files);
    }
  }

  lemma {:induction false} GgufFilesIn(all: seq<string>)
    ensures forall f :: f in GgufFiles(all) <==> f in all && EndsWith(f, ".gguf")
    ensures Distinct(all) ==> Distinct(GgufFiles(all))
  {
    hide EndsWith;
    if all != [] {
      GgufFilesIn(all[1..]);
      assert all == [all[0]] + all[1..];
      DistinctConcat([all[0]], all[1..]);
      DistinctConcat([all[0]], GgufFiles(all[1..]));
    }
  }

  lemma SortedGgufsIn(all: seq<string>)
    ensures forall f :: f in SortedGgufs(all) <==> f in all && EndsWith(f, ".gguf")
    ensures multiset(SortedGgufs(all)) == multiset(GgufFiles(all))
    ensures Sorted(LexLess, SortedGgufs(all))
  {
    hide EndsWith, LexLess, Sort, GgufFiles;
    LexOrder();
    GgufFilesIn(all);
    SortSorts(LexLess, GgufFiles(all));
    SortPermutes(LexLess, GgufFiles(all));
    assert forall f :: f in SortedGgufs(all) <==> f in multiset(SortedGgufs(all));
    assert forall f :: f in GgufFiles(all) <==> f in multiset(GgufFiles(all));
  }

  /** Every .gguf file of the listing is in exactly one discovered variant, and nothing else is. */
  lemma EachFileInOneVariant(search: Search, all: seq<string>, quants: seq<QuantInfo>, f: string)
    requires Discovered(search, Some(all), quants)
    ensures Distinct(NamesOf(quants))
    ensures f in all && EndsWith(f, ".gguf") <==> exists i :: 0 <= i < |quants| && f in quants[i].files
    ensures forall i, j :: 0 <= i < j < |quants| && f in quants[i].files ==> f !in quants[j].files
  {
    hide EndsWith, QuantName, SortedGgufs, IsPattern, FirstSeen, Named;
    var files := SortedGgufs(all);
    FirstSeenDistinct(search, files);
    SortedGgufsIn(all);
    forall i | 0 <= i < |quants|
      ensures f in quants[i].files <==> f in files && QuantName(search, f) == NamesOf(quants)[i]
    {
      assert quants[i] in quants;
      NamedIn(search, files, quants[i].quantName);
    }
    if f in files {
      assert QuantName(search, f) in NamesOf(quants);
      var i :| 0 <= i < |quants| && NamesOf(quants)[i] == QuantName(search, f);
      assert f in quants[i].files;
    }
  }
}

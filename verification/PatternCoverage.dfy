/**
  Whether the include pattern of a variant fetches all its files, and what
  discovery finds for a complete set of shards (src/kitt/campaign/gguf_discovery.py).
*/
module PatternCoverage {
  import opened Basics
  import opened Sorting
  import opened Numerals
  import opened GgufDiscovery
  import opened Globs
  import opened QuantDiscovery

  // ----- one pattern and one file -----

  /** `p*.gguf` matches what starts with p, ends in .gguf, and is long enough for both. */
  lemma {:induction false} GlobStarGguf(p: string, text: string)
    requires Plain(p)
    ensures Glob(p + "*.gguf", text) <==> p <= text && |p| + 5 <= |text| && EndsWith(text, ".gguf")
  {
    hide Glob;
    assert Plain(".gguf") && "*" + ".gguf" == "*.gguf";
    GlobLiteral(p, "*.gguf", text);
    if p <= text {
      GlobEnding(".gguf", text[|p|..]);
    }
  }

  /** p, as a pattern, matches the beginning of f and leaves room for the extension. */
  ghost predicate Reaches(p: string, f: string) {
    exists k :: 0 <= k <= |f| - 5 && Glob(p, f[..k])
  }

  /** For any p, wildcards or not. */
  lemma GlobStarGgufAny(p: string, f: string)
    requires EndsWith(f, ".gguf")
    ensures Glob(p + "*.gguf", f) <==> Reaches(p, f)
  {
    hide Glob;
    var tail := "*.gguf";
    assert "*" + ".gguf" == tail && forall i :: 0 <= i < |tail| ==> tail[i] != ']';
    if Glob(p + tail, f) {
      var k := GlobSplit(p, tail, f);
      GlobEnding(".gguf", f[k..]);
    }
    if Reaches(p, f) {
      var k :| 0 <= k <= |f| - 5 && Glob(p, f[..k]);
      assert f[k..][|f[k..]| - 5..] == f[|f| - 5..];
      GlobEnding(".gguf", f[k..]);
      GlobJoin(p, tail, f, k);
    }
  }

  // ----- when a pattern covers its group -----

  ghost predicate Covers(pattern: string, files: seq<string>) {
    forall f :: f in files ==> Glob(pattern, f)
  }

  /** Some file's name, up to and including its last dot, starts every name. */
  ghost predicate Swallowed(files: seq<string>) {
    exists f :: f in files && |f| >= 4 && CommonTo(f[..|f| - 4], files)
  }

  ghost predicate InOneDirectory(files: seq<string>)
    requires files != []
  {
    forall f :: f in files ==> Parent(files[0]) + "/" <= f
  }

  ghost predicate Coverable(files: seq<string>)
    requires files != []
  {
    || |files| == 1
    || (if Parent(files[0]) != "" && Parent(files[0]) != "." then InOneDirectory(files) else !Swallowed(files))
  }

  /**
    The pattern fetches all files of a variant exactly when they share the first
    file's directory or, for a first file at the root, when no file's name up to its
    last dot starts all the others.
  */
  lemma CoverageExactly(pattern: string, files: seq<string>)
    requires files != [] && IsPattern(pattern, files)
    requires forall f :: f in files ==> EndsWith(f, ".gguf") && Plain(f)
    ensures Covers(pattern, files) <==> Coverable(files)
  {
    hide Glob;
    assert files[0] in files;
    if |files| == 1 {
      GlobExact(files[0]);
    } else if Parent(files[0]) != "" && Parent(files[0]) != "." {
      DirectoryCoverage(files);
    } else {
      var prefix :| IsLongestPrefix(prefix, files) && pattern == prefix + "*.gguf";
      RootCoverage(prefix, files);
    }
  }

  /** What a group's pattern begins with, read as a pattern itself, matches the beginning of every file. */
  ghost predicate Fetchable(files: seq<string>)
    requires files != []
  {
    if |files| == 1 then Glob(files[0], files[0])
    else if Parent(files[0]) != "" && Parent(files[0]) != "." then AllReached(Parent(files[0]) + "/", files)
    else exists prefix :: IsLongestPrefix(prefix, files) && AllReached(prefix, files)
  }

  /** The same for any file names: what the pattern's first part has to match. */
  lemma CoverageInGeneral(pattern: string, files: seq<string>)
    requires files != [] && IsPattern(pattern, files) && forall f :: f in files ==> EndsWith(f, ".gguf")
    ensures Covers(pattern, files) <==> Fetchable(files)
  {
    hide Glob, Reaches, EndsWith, Parent, IsLongestPrefix;
    if |files| == 1 {
      assert files[0] in files;
    } else if Parent(files[0]) != "" && Parent(files[0]) != "." {
      assert Parent(files[0]) + "/*.gguf" == (Parent(files[0]) + "/") + "*.gguf";
      ReachedIsCovered(Parent(files[0]) + "/", files);
    } else {
      var prefix :| IsLongestPrefix(prefix, files) && pattern == prefix + "*.gguf";
      ReachedIsCovered(prefix, files);
      forall other | IsLongestPrefix(other, files)
        ensures other == prefix
      {
        LongestIsUnique(prefix, other, files);
      }
    }
  }

  lemma LongestIsUnique(p: string, q: string, files: seq<string>)
    requires IsLongestPrefix(p, files) && IsLongestPrefix(q, files)
    ensures p == q
  {
    assert p <= q && q <= p;
  }

  ghost predicate AllReached(p: string, files: seq<string>) {
    forall f :: f in files ==> Reaches(p, f)
  }

  lemma ReachedIsCovered(p: string, files: seq<string>)
    requires forall f :: f in files ==> EndsWith(f, ".gguf")
    ensures Covers(p + "*.gguf", files) <==> AllReached(p, files)
  {
    hide Glob, Reaches, EndsWith;
    forall f | f in files
      ensures Glob(p + "*.gguf", f) <==> Reaches(p, f)
    {
      GlobStarGgufAny(p, f);
    }
  }

  /** Without a bracket in the names, a coverable group is covered, stars and question marks or not. */
  lemma CoverableIsCovered(pattern: string, files: seq<string>)
    requires files != [] && IsPattern(pattern, files) && Coverable(files)
    requires forall f :: f in files ==> EndsWith(f, ".gguf") && '[' !in f
    ensures Covers(pattern, files)
  {
    hide Glob, Reaches, Parent;
    assert files[0] in files;
    CoverageInGeneral(pattern, files);
    if |files| == 1 {
      GlobSelf(files[0]);
    } else if Parent(files[0]) != "" && Parent(files[0]) != "." {
      forall f | f in files
        ensures Reaches(Parent(files[0]) + "/", f)
      {
        RoomAfterSlash(Parent(files[0]) + "/", f);
        PrefixReaches(Parent(files[0]) + "/", f);
      }
    } else {
      var prefix :| IsLongestPrefix(prefix, files) && pattern == prefix + "*.gguf";
      forall f | f in files
        ensures Reaches(prefix, f)
      {
        Shortened(prefix, f, files);
        PrefixReaches(prefix, f);
      }
    }
  }

  lemma PrefixReaches(p: string, f: string)
    requires p <= f && |p| + 5 <= |f| && '[' !in f
    ensures Reaches(p, f)
  {
    hide Glob;
    assert f[..|p|] == p && forall c :: c in p ==> c in f;
    GlobSelf(p);
  }

  lemma DirectoryCoverage(files: seq<string>)
    requires files != [] && Parent(files[0]) != "."
    requires forall f :: f in files ==> EndsWith(f, ".gguf") && Plain(f)
    ensures Covers(Parent(files[0]) + "/*.gguf", files) <==> InOneDirectory(files)
  {
    hide Glob, EndsWith, Parent;
    var dir := Parent(files[0]);
    assert files[0] in files;
    ParentIsPrefix(files[0]);
    assert dir + "/*.gguf" == (dir + "/") + "*.gguf";
    forall f | f in files
      ensures Glob(dir + "/*.gguf", f) <==> dir + "/" <= f
    {
      GlobStarGguf(dir + "/", f);
      if dir + "/" <= f {
        RoomAfterSlash(dir + "/", f);
      }
    }
  }

  /** A path without its file name, unless it has no directory. */
  lemma ParentIsPrefix(path: string)
    ensures Parent(path) != "." && Plain(path) ==> Parent(path) + "/" <= path && Plain(Parent(path) + "/")
  {
    if Parent(path) != "." {
      var n := |path| - |FileName(path)|;
      assert path[..n] == Parent(path) + "/";
      if Plain(path) {
        assert forall c :: c in path[..n] ==> c in path;
      }
    }
  }

  /** What ends in a slash leaves room for the extension. */
  lemma RoomAfterSlash(p: string, f: string)
    requires p <= f && p != "" && p[|p| - 1] == '/' && EndsWith(f, ".gguf")
    ensures |p| + 5 <= |f|
  {
    var extension := ".gguf";
    assert f[|f| - 5..] == extension && forall i :: 0 <= i < 5 ==> extension[i] != '/';
    assert forall k :: |f| - 5 <= k < |f| ==> f[k] == extension[k - (|f| - 5)];
    assert f[|p| - 1] == '/';
  }

  lemma RootCoverage(prefix: string, files: seq<string>)
    requires files != [] && IsLongestPrefix(prefix, files)
    requires forall f :: f in files ==> EndsWith(f, ".gguf") && Plain(f)
    ensures Covers(prefix + "*.gguf", files) <==> !Swallowed(files)
  {
    hide Glob;
    assert files[0] in files && prefix <= files[0];
    assert forall c :: c in prefix ==> c in files[0];
    forall f | f in files
      ensures Glob(prefix + "*.gguf", f) <==> !CommonTo(f[..|f| - 4], files)
    {
      GlobStarGguf(prefix, f);
      Shortened(prefix, f, files);
    }
  }

  lemma Shortened(prefix: string, f: string, files: seq<string>)
    requires f in files && |f| >= 4 && IsLongestPrefix(prefix, files)
    ensures CommonTo(f[..|f| - 4], files) <==> |prefix| + 4 >= |f|
  {
    assert prefix <= f;
    if |prefix| + 4 >= |f| {
      assert f[..|f| - 4] <= prefix;
    }
  }

  /** Of two files with one name in two directories, the pattern fetches the first and misses the second. */
  lemma SecondDirectoryMissed(d: string, e: string, name: string)
    requires d != "" && d != "." && d != e && '/' !in d && '/' !in e && '/' !in name
    requires Plain(d) && Plain(e) && Plain(name) && EndsWith(name, ".gguf")
    ensures var files := [d + "/" + name, e + "/" + name];
      && IsPattern(d + "/*.gguf", files)
      && Glob(d + "/*.gguf", files[0]) && !Glob(d + "/*.gguf", files[1])
  {
    hide Glob, EndsWith, FileName, Plain;
    InDirectory(d, name);
    InDirectory(e, name);
    OtherDirectory(d, e, name);
    assert d + "/*.gguf" == (d + "/") + "*.gguf" && d + "/" <= d + "/" + name;
    ParentIsPrefix(d + "/" + name);
    GlobStarGguf(d + "/", d + "/" + name);
    GlobStarGguf(d + "/", e + "/" + name);
    RoomAfterSlash(d + "/", d + "/" + name);
  }

  /** A file whose name, dot included, starts the other's: the pattern misses it and fetches the other. */
  lemma SwallowedFileMissed(stem: string, more: string)
    requires '/' !in stem && Plain(stem) && Plain(more)
    ensures var prefix, files := stem + ".gguf", [stem + ".gguf", stem + ".gguf" + (more + ".gguf")];
      && Swallowed(files)
      && IsPattern(prefix + "*.gguf", files)
      && !Glob(prefix + "*.gguf", files[0]) && Glob(prefix + "*.gguf", files[1])
  {
    hide Glob, EndsWith, Parent, Plain, Swallowed, IsLongestPrefix;
    var prefix := stem + ".gguf";
    var files := [prefix, prefix + (more + ".gguf")];
    AtRoot(stem);
    FirstStartsBoth(prefix, more + ".gguf");
    ExtensionEnds(stem, more);
    GlobStarGguf(prefix, files[0]);
    GlobStarGguf(prefix, files[1]);
  }

  lemma AtRoot(stem: string)
    requires '/' !in stem
    ensures Parent(stem + ".gguf") == "."
  {
    hide FileName;
    GgufHasNoSlash();
    FileNameOfName(stem + ".gguf");
  }

  lemma FirstStartsBoth(prefix: string, rest: string)
    requires |prefix| >= 4
    ensures var files := [prefix, prefix + rest]; IsLongestPrefix(prefix, files) && Swallowed(files)
  {
    var files := [prefix, prefix + rest];
    assert files[0] in files && prefix[..|prefix| - 4] <= prefix;
    assert CommonTo(prefix[..|prefix| - 4], files);
  }

  // ----- discovery of such groups -----

  lemma {:induction false} AllGgufs(all: seq<string>)
    requires forall f :: f in all ==> EndsWith(f, ".gguf")
    ensures GgufFiles(all) == all
  {
    hide EndsWith;
    if all != [] {
      assert all[0] in all && forall f :: f in all[1..] ==> f in all;
      AllGgufs(all[1..]);
      assert all == [all[0]] + all[1..];
    }
  }

  lemma TwoSorted(all: seq<string>, f: string, g: string)
    requires multiset(all) == multiset{f, g} && LexLess(f, g) && EndsWith(f, ".gguf") && EndsWith(g, ".gguf")
    ensures SortedGgufs(all) == [f, g]
  {
    hide LexLess, EndsWith, GgufFiles, SortedGgufs;
    assert forall x :: x in all <==> x in multiset(all);
    AllGgufs(all);
    SortedGgufsIn(all);
    LexTotal(f, g);
    assert multiset([f, g]) == multiset{f, g};
    SortedIsUnique(LexLess, [f, g], SortedGgufs(all));
  }

  lemma OneGroup(search: Search, f: string, g: string)
    requires QuantName(search, f) == QuantName(search, g)
    ensures FirstSeen(search, [f, g]) == [QuantName(search, f)]
    ensures Named(search, [f, g], QuantName(search, f)) == [f, g]
  {
    hide QuantName;
    assert [f, g][..1] == [f] && [f][..0] == [];
    assert FirstSeen(search, [f]) == [QuantName(search, f)] && Named(search, [f], QuantName(search, f)) == [f];
  }

  /** Whatever order they are listed in, two files of one quantisation name are discovered as one variant, sorted. */
  lemma TwoFileVariant(search: Search, all: seq<string>, f: string, g: string, quants: seq<QuantInfo>)
    requires multiset(all) == multiset{f, g} && LexLess(f, g) && EndsWith(f, ".gguf") && EndsWith(g, ".gguf")
    requires QuantName(search, f) == QuantName(search, g)
    ensures Discovered(search, Some(all), quants) <==>
      |quants| == 1 && quants[0].quantName == QuantName(search, f) && quants[0].files == [f, g]
      && IsPattern(quants[0].includePattern, [f, g])
  {
    hide LexLess, EndsWith, QuantName, SortedGgufs, FirstSeen, Named, IsPattern;
    TwoSorted(all, f, g);
    OneGroup(search, f, g);
    var name := QuantName(search, f);
    if Discovered(search, Some(all), quants) {
      assert |quants| == |NamesOf(quants)| == 1 && quants[0].quantName == NamesOf(quants)[0] && quants[0] in quants;
    } else if |quants| == 1 && quants[0].quantName == name {
      assert NamesOf(quants) == [name];
    }
  }

  /**
    Discovery makes one variant of two files of one name in two directories, whose
    pattern fetches only the file of the directory that sorts first.
  */
  lemma SecondDirectoryDiscovered(search: Search, all: seq<string>, d: string, e: string, name: string,
                                  quants: seq<QuantInfo>)
    requires d != "" && d != "." && d != e && '/' !in d && '/' !in e && '/' !in name
    requires Plain(d) && Plain(e) && Plain(name) && EndsWith(name, ".gguf")
    requires multiset(all) == multiset{d + "/" + name, e + "/" + name} && LexLess(d + "/" + name, e + "/" + name)
    ensures Discovered(search, Some(all), quants) <==>
      quants == [QuantInfo(ExtractQuantName(search, BaseName(name)), [d + "/" + name, e + "/" + name], d + "/*.gguf")]
    ensures Glob(d + "/*.gguf", d + "/" + name) && !Glob(d + "/*.gguf", e + "/" + name)
  {
    hide LexLess, EndsWith, Plain, Glob, ExtractQuantName, BaseName, FileName, Parent, Discovered;
    var f, g := d + "/" + name, e + "/" + name;
    InDirectory(d, name);
    InDirectory(e, name);
    NameInDirectory(d, name);
    NameInDirectory(e, name);
    TwoFileVariant(search, all, f, g, quants);
    SecondDirectoryMissed(d, e, name);
  }

  lemma NameInDirectory(d: string, name: string)
    requires '/' !in name
    ensures FileName(d + "/" + name) == name
  {
    FileNameAppend(d + "/", name);
    assert FileName(d + "/") == "" && "" + name == name;
  }

  /**
    Discovery makes one variant of two root files of one quantisation name, one file's
    name starting the other's: its pattern fetches only the longer-named file.
  */
  lemma SwallowedFileDiscovered(search: Search, all: seq<string>, stem: string, more: string, quants: seq<QuantInfo>)
    requires '/' !in stem && Plain(stem) && Plain(more)
    requires var f, g := stem + ".gguf", stem + ".gguf" + (more + ".gguf");
      multiset(all) == multiset{f, g} && QuantName(search, f) == QuantName(search, g)
    ensures var f, g, pattern := stem + ".gguf", stem + ".gguf" + (more + ".gguf"), stem + ".gguf" + "*.gguf";
      && (Discovered(search, Some(all), quants) <==> quants == [QuantInfo(QuantName(search, f), [f, g], pattern)])
      && !Glob(pattern, f) && Glob(pattern, g)
  {
    hide LexLess, EndsWith, Plain, Glob, QuantName, Parent, Discovered, IsLongestPrefix, Swallowed;
    var f, g := stem + ".gguf", stem + ".gguf" + (more + ".gguf");
    SwallowedFileMissed(stem, more);
    ExtensionEnds(stem, more);
    LongerIsLater(f, more + ".gguf");
    TwoFileVariant(search, all, f, g, quants);
    AtRoot(stem);
    FirstStartsBoth(f, more + ".gguf");
    forall other | IsLongestPrefix(other, [f, g])
      ensures other == f
    {
      LongestIsUnique(f, other, [f, g]);
    }
  }

  lemma LongerIsLater(f: string, rest: string)
    requires rest != ""
    ensures LexLess(f, f + rest)
  {
    hide LexLess;
    LexPrefix(f, "", rest);
    assert f + "" == f;
    EmptyFirst(rest);
  }

  lemma EmptyFirst(s: string)
    requires s != ""
    ensures LexLess("", s)
  {
  }

  lemma ExtensionEnds(stem: string, more: string)
    requires Plain(stem)
    ensures Plain(stem + ".gguf") && EndsWith(stem + ".gguf", ".gguf")
    ensures EndsWith(stem + ".gguf" + (more + ".gguf"), ".gguf")
  {
    var extension := ".gguf";
    assert forall i :: 0 <= i < 5 ==> extension[i] != '*' && extension[i] != '?' && extension[i] != '[';
    Append(stem, extension);
    Append(stem + extension + more, extension);
    assert stem + extension + (more + extension) == stem + extension + more + extension;
  }

  lemma InDirectory(d: string, name: string)
    requires '/' !in name && Plain(d) && Plain(name) && EndsWith(name, ".gguf")
    ensures Parent(d + "/" + name) == d && Plain(d + "/" + name) && EndsWith(d + "/" + name, ".gguf")
  {
    hide EndsWith, Plain;
    FileNameAppend(d + "/", name);
    assert FileName(d + "/") == "" && "" + name == name;
    assert (d + "/" + name)[..|d|] == d;
    Append(d + "/", name);
    SlashIsPlain();
    Append(d, "/");
  }

  lemma SlashIsPlain()
    ensures Plain("/")
  {
  }

  lemma OtherDirectory(d: string, e: string, name: string)
    requires '/' !in d && '/' !in e
    ensures d + "/" <= e + "/" + name ==> d == e
  {
    var a, b := d + "/", e + "/" + name;
    if a <= b {
      assert a[|d|] == '/' && b[|e|] == '/';
      assert forall i :: 0 <= i < |d| ==> d[i] == a[i] == b[i];
      assert forall i :: 0 <= i < |e| ==> e[i] == b[i];
      assert |d| == |e|;
      assert d == b[..|d|] && e == b[..|e|];
    }
  }

  // ----- complete sets of shards -----

  function ShardSuffix(k: nat, n: nat): string
    requires k < 100000 && n < 100000
  {
    "-" + (Five(k) + ("-of-" + Five(n) + ".gguf"))
  }

  /** Shards 1 to n of a model stored at `base`. */
  function Shards(base: string, n: nat): seq<string>
    requires n < 100000
  {
    seq(n, i requires 0 <= i < n => base + ShardSuffix(i + 1, n))
  }

  lemma {:induction false} SuffixShape(k: nat, n: nat)
    requires k < 100000 && n < 100000
    ensures IsShardSuffix(ShardSuffix(k, n)) && '/' !in ShardSuffix(k, n) && EndsWith(ShardSuffix(k, n), ".gguf")
  {
    hide Five;
    FiveShape(k);
    FiveShape(n);
    var t := ShardSuffix(k, n);
    assert t == "-" + Five(k) + "-of-" + Five(n) + ".gguf";
    assert t[1..6] == Five(k) && t[10..15] == Five(n);
  }

  lemma {:induction false} FileNameAppend(path: string, tail: string)
    requires '/' !in tail
    ensures FileName(path + tail) == FileName(path) + tail
  {
    hide EndsWith;
    if tail == "" {
      assert path + tail == path && FileName(path) + tail == FileName(path);
    } else {
      var front, last := tail[..|tail| - 1], tail[|tail| - 1];
      assert last in tail;
      FileNameAppend(path, front);
      FileNameSnoc(path + front, last);
      assert path + tail == path + front + [last] && FileName(path) + tail == FileName(path) + front + [last];
    }
  }

  lemma FileNameSnoc(path: string, c: char)
    requires c != '/'
    ensures FileName(path + [c]) == FileName(path) + [c]
  {
    hide EndsWith;
    assert (path + [c])[..|path|] == path;
  }

  /** All shards of a model have one quantisation name. */
  lemma {:induction false} ShardsAgree(search: Search, base: string, k: nat, n: nat)
    requires k < 100000 && n < 100000
    ensures QuantName(search, base + ShardSuffix(k, n)) == ExtractQuantName(search, FileName(base))
  {
    hide ShardSuffix, IsShardSuffix, ExtractQuantName, EndsWith, FileName;
    var tail := ShardSuffix(k, n);
    SuffixShape(k, n);
    SuffixLength(tail);
    FileNameAppend(base, tail);
    BaseNameAppend(FileName(base), tail);
  }

  /**
    A shard gets the quantisation name that its unsharded file would get: what the
    search finds in the name without extension, or that name.
  */
  lemma ShardedLikeWhole(search: Search, base: string, k: nat, n: nat)
    requires k < 100000 && n < 100000
    requires var name := FileName(base); !HasGgufExtension(name) && BaseName(name + ".gguf") == name + ".gguf"
    ensures var name := FileName(base);
      QuantName(search, base + ShardSuffix(k, n)) == QuantName(search, base + ".gguf") == search(name).GetOr(name)
  {
    hide ShardSuffix, EndsWith, BaseName, ExtractQuantName, FileName;
    ShardsAgree(search, base, k, n);
    GgufHasNoSlash();
    FileNameAppend(base, ".gguf");
    NameHasNoSlash(base);
    StemDecides(search, FileName(base));
  }

  lemma GgufHasNoSlash()
    ensures '/' !in ".gguf"
  {
    var extension := ".gguf";
    assert forall i :: 0 <= i < 5 ==> extension[i] != '/';
  }

  lemma NameHasNoSlash(path: string)
    ensures '/' !in FileName(path)
  {
  }

  lemma StemDecides(search: Search, name: string)
    requires '/' !in name && !HasGgufExtension(name)
    ensures ExtractQuantName(search, name) == ExtractQuantName(search, name + ".gguf") == search(name).GetOr(name)
  {
    hide EndsWith, FileName;
    GgufHasNoSlash();
    FileNameOfName(name);
    FileNameOfName(name + ".gguf");
    var whole := name + ".gguf";
    assert whole[..|whole| - 5] == name && whole[|name|..] == ".gguf";
    assert whole[|name|] == '.' && whole[|name| + 1] == 'g' && whole[|name| + 2] == 'g' && whole[|name| + 3] == 'u';
  }

  lemma {:induction false} FileNameOfName(name: string)
    requires '/' !in name
    ensures FileName(name) == name
  {
    hide EndsWith;
    assert "" + name == name;
    FileNameAppend("", name);
  }

  lemma {:induction false} ShardParent(base: string, k: nat, n: nat)
    requires k < 100000 && n < 100000
    ensures Parent(base + ShardSuffix(k, n)) == Parent(base)
  {
    hide ShardSuffix, IsShardSuffix, EndsWith, FileName;
    SuffixShape(k, n);
    FileNameAppend(base, ShardSuffix(k, n));
    ParentAppend(base, ShardSuffix(k, n));
  }

  lemma BaseNameAppend(name: string, tail: string)
    requires IsShardSuffix(tail)
    ensures BaseName(name + tail) == name
  {
    assert |tail| == 20;
    hide IsShardSuffix;
    assert (name + tail)[|name|..] == tail && (name + tail)[..|name|] == name;
  }

  lemma ParentAppend(base: string, tail: string)
    requires FileName(base + tail) == FileName(base) + tail
    ensures Parent(base + tail) == Parent(base)
  {
    var n := |base| - |FileName(base)|;
    assert n > 0 ==> (base + tail)[..n - 1] == base[..n - 1];
  }

  lemma SuffixLength(t: string)
    requires IsShardSuffix(t)
    ensures |t| == 20
  {
  }

  lemma {:induction false} ShardOrder(base: string, i: nat, j: nat, n: nat)
    requires i < j < 100000 && n < 100000
    ensures LexLess(base + ShardSuffix(i, n), base + ShardSuffix(j, n))
  {
    hide Five, LexLess;
    var tail := "-of-" + Five(n) + ".gguf";
    FiveDigitOrder(i, j, tail);
    LexPrefix("-", Five(i) + tail, Five(j) + tail);
    LexPrefix(base, ShardSuffix(i, n), ShardSuffix(j, n));
  }

  /** Shards are listed in numeric order. */
  lemma {:induction false} ShardsSorted(base: string, n: nat)
    requires n < 100000
    ensures Sorted(LexLess, Shards(base, n)) && DistinctRanks(LexLess, Shards(base, n)) && Distinct(Shards(base, n))
  {
    hide ShardSuffix, LexLess;
    var shards := Shards(base, n);
    forall i, j | 0 <= i < j < n
      ensures LexLess(shards[i], shards[j]) && !LexLess(shards[j], shards[i]) && shards[i] != shards[j]
    {
      ShardOrder(base, i + 1, j + 1, n);
      LexTotal(shards[i], shards[j]);
    }
  }

  lemma {:induction false} ShardsCoverable(base: string, n: nat)
    requires 0 < n < 100000
    ensures Coverable(Shards(base, n))
  {
    hide ShardSuffix, Parent, InOneDirectory, Swallowed;
    ShardParent(base, 1, n);
    if n > 1 {
      NoneSwallowed(base, n);
      if Parent(base) != "." {
        ShardsInOneDirectory(base, n);
      }
    }
  }

  lemma ShardsInOneDirectory(base: string, n: nat)
    requires 0 < n < 100000 && Parent(base) != "."
    ensures InOneDirectory(Shards(base, n))
  {
    hide ShardSuffix, Parent;
    ShardParent(base, 1, n);
    forall f | f in Shards(base, n)
      ensures Parent(base) + "/" <= f
    {
      var i :| 0 <= i < n && Shards(base, n)[i] == f;
      ShardParent(base, i + 1, n);
      DirectoryOf(f);
    }
  }

  lemma NoneSwallowed(base: string, n: nat)
    requires 1 < n < 100000
    ensures !Swallowed(Shards(base, n))
  {
    hide CommonTo, Shards;
    forall f | f in Shards(base, n)
      ensures |f| >= 4 && !CommonTo(f[..|f| - 4], Shards(base, n))
    {
      NotSwallowed(base, n, f);
    }
  }

  lemma DirectoryOf(path: string)
    ensures Parent(path) != "." ==> Parent(path) + "/" <= path
  {
    if Parent(path) != "." {
      assert path[..|path| - |FileName(path)|] == Parent(path) + "/";
    }
  }

  /** Shards differ in their number, before the extension. */
  lemma NotSwallowed(base: string, n: nat, f: string)
    requires 1 < n < 100000 && f in Shards(base, n)
    ensures |f| >= 4 && !CommonTo(f[..|f| - 4], Shards(base, n))
  {
    hide ShardSuffix, Plain, ExtractQuantName, QuantName, FileName, EndsWith, Sorted, DistinctRanks;
    var shards := Shards(base, n);
    var i :| 0 <= i < n && shards[i] == f;
    var j := if i == 0 then 1 else 0;
    ShardsSorted(base, n);
    assert shards[j] in shards && f != shards[j];
    ShardLength(base, i + 1, n);
    ShardLength(base, j + 1, n);
    if f[..|f| - 4] <= shards[j] {
      SameUpToExtension(f, shards[j]);
    }
  }

  lemma ShardLength(base: string, k: nat, n: nat)
    requires k < 100000 && n < 100000
    ensures |base + ShardSuffix(k, n)| == |base| + 20 && EndsWith(base + ShardSuffix(k, n), ".gguf")
  {
    hide ShardSuffix, IsShardSuffix, EndsWith;
    SuffixShape(k, n);
    SuffixLength(ShardSuffix(k, n));
    Append(base, ShardSuffix(k, n));
  }

  lemma SameUpToExtension(f: string, g: string)
    requires |f| == |g| && EndsWith(f, ".gguf") && EndsWith(g, ".gguf") && f[..|f| - 4] <= g
    ensures f == g
  {
    assert f == f[..|f| - 5] + f[|f| - 5..] && g == g[..|g| - 5] + g[|g| - 5..];
    assert f[..|f| - 5] == g[..|g| - 5];
  }

  ghost predicate IsShardVariant(q: QuantInfo, name: string, base: string, n: nat)
    requires 0 < n < 100000
  {
    && q.quantName == name && q.files == Shards(base, n)
    && q.PrimaryFile() == base + ShardSuffix(1, n)
  }

  /**
    When a listing holds a complete set of shards, and no other .gguf file has their
    quantisation name, discovery lists exactly the shards in order, so the primary file
    is shard 00001. The include pattern matches every shard if the base has no bracket,
    and for any base exactly when the pattern's first part matches their beginnings.
  */
  lemma CompleteShardSet(search: Search, all: seq<string>, quants: seq<QuantInfo>, base: string, n: nat)
    requires 0 < n < 100000 && Distinct(all) && Discovered(search, Some(all), quants)
    requires forall f :: f in Shards(base, n) ==> f in all
    requires forall f :: f in all && EndsWith(f, ".gguf") && IsNamed(search, f, base) ==> f in Shards(base, n)
    ensures '[' !in base ==> Fetchable(Shards(base, n))
    ensures exists q :: q in quants && IsShardVariant(q, ExtractQuantName(search, FileName(base)), base, n)
                        && (Covers(q.includePattern, q.files) <==> Fetchable(Shards(base, n)))
  {
    hide Glob, ShardSuffix, LexLess, ExtractQuantName, FileName, Coverable;
    hide QuantName, EndsWith, SortedGgufs, FirstSeen, Named, Shards, IsPattern, Covers, Fetchable;
    var name, shards := ExtractQuantName(search, FileName(base)), Shards(base, n);
    ShardFiles(search, base, n);
    GroupIsShards(search, all, base, n);
    FirstShard(base, n);
    UnseenIsEmpty(search, SortedGgufs(all), name);
    var i :| 0 <= i < |quants| && NamesOf(quants)[i] == name;
    var q := quants[i];
    assert q in quants;
    CoverageInGeneral(q.includePattern, q.files);
    if '[' !in base {
      ShardsCoverable(base, n);
      CoverableIsCovered(q.includePattern, q.files);
    }
  }

  lemma FirstShard(base: string, n: nat)
    requires 0 < n < 100000
    ensures Shards(base, n) != [] && Shards(base, n)[0] == base + ShardSuffix(1, n)
  {
    hide ShardSuffix;
    assert |Shards(base, n)| == n;
  }

  lemma {:induction false} ShardFiles(search: Search, base: string, n: nat)
    requires n < 100000
    ensures forall f :: f in Shards(base, n) ==>
      EndsWith(f, ".gguf") && QuantName(search, f) == ExtractQuantName(search, FileName(base))
        && ('[' !in base ==> '[' !in f)
  {
    hide ExtractQuantName, QuantName, ShardSuffix, FileName, EndsWith, Plain;
    forall f | f in Shards(base, n)
      ensures EndsWith(f, ".gguf") && QuantName(search, f) == ExtractQuantName(search, FileName(base))
              && ('[' !in base ==> '[' !in f)
    {
      var i :| 0 <= i < n && f == Shards(base, n)[i];
      ShardsAgree(search, base, i + 1, n);
      SuffixShape(i + 1, n);
      SuffixHasNoBracket(i + 1, n);
      Append(base, ShardSuffix(i + 1, n));
    }
  }

  lemma Append(a: string, b: string)
    ensures EndsWith(b, ".gguf") ==> EndsWith(a + b, ".gguf")
    ensures Plain(a) && Plain(b) ==> Plain(a + b)
  {
    if EndsWith(b, ".gguf") {
      assert (a + b)[|a + b| - 5..] == b[|b| - 5..];
    }
  }

  lemma SuffixHasNoBracket(k: nat, n: nat)
    requires k < 100000 && n < 100000
    ensures '[' !in ShardSuffix(k, n)
  {
    hide Five;
    FiveShape(k);
    FiveShape(n);
  }

  /** The file has the quantisation name of the base. */
  predicate IsNamed(search: Search, f: string, base: string) {
    QuantName(search, f) == ExtractQuantName(search, FileName(base))
  }

  lemma {:induction false} GroupIsShards(search: Search, all: seq<string>, base: string, n: nat)
    requires n < 100000 && Distinct(all)
    requires forall f :: f in Shards(base, n) ==>
      f in all && EndsWith(f, ".gguf") && QuantName(search, f) == ExtractQuantName(search, FileName(base))
    requires forall f :: f in all && EndsWith(f, ".gguf") && IsNamed(search, f, base) ==> f in Shards(base, n)
    ensures Named(search, SortedGgufs(all), ExtractQuantName(search, FileName(base))) == Shards(base, n)
  {
    hide ExtractQuantName, QuantName, FileName, EndsWith, LexLess, Shards, SortedGgufs, Named, Sorted, DistinctRanks;
    var name, files := ExtractQuantName(search, FileName(base)), SortedGgufs(all);
    var group, shards := Named(search, files, name), Shards(base, n);
    SortedGgufsIn(all);
    GgufFilesIn(all);
    NamedIn(search, files, name);
    NamedSorted(search, files, name);
    ShardsSorted(base, n);
    SameBag(search, files, GgufFiles(all), name, shards);
    SortedIsUnique(LexLess, shards, group);
  }

  lemma {:induction false} SameBag(search: Search, files: seq<string>, listed: seq<string>, name: string,
                                   shards: seq<string>)
    requires multiset(files) == multiset(listed) && Distinct(listed) && Distinct(shards)
    requires forall f :: f in shards <==> f in files && QuantName(search, f) == name
    ensures multiset(Named(search, files, name)) == multiset(shards)
  {
    hide QuantName, Named;
    forall f
      ensures multiset(Named(search, files, name))[f] == multiset(shards)[f]
    {
      NamedBag(search, files, name, f);
      AtMostOnce(listed, f);
      AtMostOnce(shards, f);
      assert f in shards <==> f in multiset(shards);
      assert f in files <==> f in multiset(files);
    }
  }
}

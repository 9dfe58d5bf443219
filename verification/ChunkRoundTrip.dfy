/**
  What loading gives back after saving: the records in order, exactly when the base
  finds its own files, no stale one adds to them, and there are at most 10000 chunks.
*/
module ChunkRoundTrip {
  import opened Basics
  import opened Sorting
  import opened Numerals
  import opened Chunking
  import opened ChunkFiles

  // ----- the text of the chunks -----

  /** Lines without their line break. */
  function Unlines(lines: seq<string>): seq<string>
    requires forall l :: l in lines ==> l != ""
  {
    seq(|lines|, i requires 0 <= i < |lines| => assert lines[i] in lines; lines[i][..|lines[i]| - 1])
  }

  predicate IsLine(l: string) {
    l != "" && l[|l| - 1] == '\n' && IsRecord(l[..|l| - 1])
  }

  ghost predicate AllLines(lines: seq<string>) {
    forall l :: l in lines ==> IsLine(l)
  }

  lemma LinesAreLines(records: seq<string>)
    requires forall r :: r in records ==> IsRecord(r)
    ensures AllLines(Lines(records)) && Unlines(Lines(records)) == records
  {
    forall l | l in Lines(records)
      ensures IsLine(l)
    {
      var i :| 0 <= i < |records| && Lines(records)[i] == l;
      assert records[i] in records && l[..|l| - 1] == records[i];
    }
    assert forall i :: 0 <= i < |records| ==> Lines(records)[i][..|records[i]|] == records[i];
  }

  lemma ReadLinesOf(lines: seq<string>)
    requires AllLines(lines)
    ensures ReadLines(Flatten(lines)) == Unlines(lines)
  {
    var records := Unlines(lines);
    forall i | 0 <= i < |lines|
      ensures records[i] + "\n" == lines[i] && IsRecord(records[i])
    {
      assert lines[i] in lines && IsLine(lines[i]);
    }
    assert Lines(records) == lines;
    ReadUndoesJoin(records);
  }

  function ReadChunks(chunks: seq<seq<string>>): seq<string> {
    if chunks == [] then [] else ReadLines(Flatten(chunks[0])) + ReadChunks(chunks[1..])
  }

  lemma {:induction false} ReadChunksOf(chunks: seq<seq<string>>)
    requires AllLines(Flatten(chunks))
    ensures ReadChunks(chunks) == Unlines(Flatten(chunks))
  {
    if chunks != [] {
      var a, b := chunks[0], Flatten(chunks[1..]);
      assert Flatten(chunks) == a + b;
      assert forall l :: l in a || l in b ==> l in Flatten(chunks);
      ReadLinesOf(a);
      ReadChunksOf(chunks[1..]);
      assert Unlines(a + b) == Unlines(a) + Unlines(b);
    }
  }

  // ----- the files after saving -----

  lemma NamesDiffer(base: string, i: nat, j: nat)
    requires i != j
    ensures ChunkName(base, i) != ChunkName(base, j)
  {
    hide Padded;
    var head, tail := base + "_chunk_", ".jsonl.gz";
    if ChunkName(base, i) == ChunkName(base, j) {
      assert ChunkName(base, i) == head + Padded(i) + tail && ChunkName(base, j) == head + Padded(j) + tail;
      Between(head, Padded(i), Padded(j), tail);
      PaddedInjective(i, j);
    }
  }

  lemma Between(a: string, b: string, c: string, d: string)
    requires a + b + d == a + c + d
    ensures b == c
  {
    assert |b| == |c|;
    assert forall i :: 0 <= i < |b| ==> b[i] == (a + b + d)[|a| + i] && c[i] == (a + c + d)[|a| + i];
  }

  lemma {:induction false} ChunksWritten(files: Files, base: string, first: nat, chunks: seq<seq<string>>)
    ensures var after := WithChunks(files, base, first, chunks);
      && (forall i :: first <= i < first + |chunks| ==> ChunkName(base, i) in after)
      && (forall i :: first <= i < first + |chunks| ==> after[ChunkName(base, i)] == Flatten(chunks[i - first]))
      && (forall name :: name in after <==>
            name in files || exists i :: first <= i < first + |chunks| && name == ChunkName(base, i))
      && (forall name :: name in files && (forall i :: first <= i < first + |chunks| ==> name != ChunkName(base, i)) ==>
            after[name] == files[name])
    decreases |chunks|
  {
    hide ChunkName, Flatten;
    if chunks != [] {
      var name0 := ChunkName(base, first);
      var mid := files[name0 := Flatten(chunks[0])];
      var after := WithChunks(files, base, first, chunks);
      assert after == WithChunks(mid, base, first + 1, chunks[1..]);
      ChunksWritten(mid, base, first + 1, chunks[1..]);
      forall i | first + 1 <= i < first + |chunks|
        ensures name0 != ChunkName(base, i)
      {
        NamesDiffer(base, first, i);
      }
    }
  }

  /** After saving, each chunk's file holds it, and no other file has changed. */
  lemma ChunksInPlace(files: Files, base: string, chunks: seq<seq<string>>)
    ensures var after, names := WithChunks(files, base, 0, chunks), Names(base, |chunks|);
      && (forall i :: 0 <= i < |chunks| ==> names[i] in after && after[names[i]] == Flatten(chunks[i]))
      && (forall name :: name in after <==> name in files || name in names)
      && (forall name :: name in files && name !in names ==> after[name] == files[name])
  {
    hide ChunkName, Flatten, WithChunks, Names;
    ChunksWritten(files, base, 0, chunks);
    NamesAre(base, |chunks|);
  }

  lemma NamesAre(base: string, n: nat)
    ensures |Names(base, n)| == n && forall i :: 0 <= i < n ==> Names(base, n)[i] == ChunkName(base, i)
    ensures forall x :: x in Names(base, n) <==> exists i :: 0 <= i < n && x == ChunkName(base, i)
  {
    hide ChunkName;
    var names := Names(base, n);
    forall i | 0 <= i < n
      ensures ChunkName(base, i) in names
    {
      assert names[i] == ChunkName(base, i);
    }
  }

  // ----- splitting the listing into own and stale files -----

  function Part(names: seq<string>, own: set<string>, inside: bool): seq<string> {
    if names == [] then []
    else (if (names[0] in own) == inside then [names[0]] else []) + Part(names[1..], own, inside)
  }

  lemma {:induction false} PartMembers(names: seq<string>, own: set<string>, inside: bool)
    ensures forall x :: x in Part(names, own, inside) <==> x in names && (x in own) == inside
  {
    if names != [] {
      PartMembers(names[1..], own, inside);
      assert names == [names[0]] + names[1..];
    }
  }

  lemma {:induction false} PartDistinct(names: seq<string>, own: set<string>, inside: bool)
    requires Distinct(names)
    ensures Distinct(Part(names, own, inside))
  {
    if names != [] {
      var rest := Part(names[1..], own, inside);
      assert names == [names[0]] + names[1..];
      DistinctConcat([names[0]], names[1..]);
      PartDistinct(names[1..], own, inside);
      PartMembers(names[1..], own, inside);
      DistinctConcat([names[0]], rest);
    }
  }

  lemma {:induction false} PartSorted(names: seq<string>, own: set<string>, inside: bool)
    requires Sorted(LexLess, names)
    ensures Sorted(LexLess, Part(names, own, inside))
  {
    if names != [] {
      var rest := Part(names[1..], own, inside);
      PartSorted(names[1..], own, inside);
      PartMembers(names[1..], own, inside);
      forall j | 0 <= j < |rest|
        ensures !LexLess(rest[j], names[0])
      {
        assert rest[j] in rest;
        var k :| 0 <= k < |names[1..]| && names[1..][k] == rest[j];
        assert names[k + 1] == rest[j];
      }
    }
  }

  lemma {:induction false} PartCons(x: string, names: seq<string>, own: set<string>)
    ensures Part([x] + names, own, x in own) == [x] + Part(names, own, x in own)
    ensures Part([x] + names, own, x !in own) == Part(names, own, x !in own)
  {
    assert ([x] + names)[1..] == names;
  }

  /** What the inside and outside parts of a listing hold. */
  function PartText(files: Files, names: seq<string>, own: set<string>, inside: bool): seq<string> {
    ReadAll(files, Part(names, own, inside))
  }

  lemma PartTextCons(files: Files, x: string, names: seq<string>, own: set<string>)
    ensures PartText(files, [x] + names, own, x in own) == ReadAll(files, [x]) + PartText(files, names, own, x in own)
    ensures PartText(files, [x] + names, own, x !in own) == PartText(files, names, own, x !in own)
    ensures ReadAll(files, [x] + names) == ReadAll(files, [x]) + ReadAll(files, names)
  {
    hide ReadAll, Part;
    PartCons(x, names, own);
    ReadAllConcat(files, [x], names);
    ReadAllConcat(files, [x], Part(names, own, x in own));
  }

  /** Reading all is reading one part and the other, up to order. */
  lemma {:induction false} PartsBag(files: Files, names: seq<string>, own: set<string>)
    ensures multiset(ReadAll(files, names))
            == multiset(PartText(files, names, own, true)) + multiset(PartText(files, names, own, false))
  {
    if names != [] {
      hide PartText, ReadAll;
      assert names == [names[0]] + names[1..];
      PartsBag(files, names[1..], own);
      PartTextCons(files, names[0], names[1..], own);
    }
  }

  lemma {:induction false} NothingOutside(files: Files, names: seq<string>, own: set<string>)
    requires PartText(files, names, own, false) == []
    ensures ReadAll(files, names) == PartText(files, names, own, true)
  {
    if names != [] {
      hide PartText, ReadAll;
      assert names == [names[0]] + names[1..];
      PartTextCons(files, names[0], names[1..], own);
      NothingOutside(files, names[1..], own);
    }
  }

  lemma {:induction false} ReadsNothing(files: Files, names: seq<string>)
    requires forall x :: x in names ==> x in files
    ensures ReadAll(files, names) == [] <==> forall x :: x in names ==> ReadLines(files[x]) == []
  {
    if names != [] {
      assert names == [names[0]] + names[1..] && names[0] in names;
      ReadsNothing(files, names[1..]);
    }
  }

  function Own(base: string, n: nat): set<string> {
    set x | x in Names(base, n)
  }

  lemma NamesDistinct(base: string, n: nat)
    ensures Distinct(Names(base, n))
  {
    hide ChunkName;
    forall i, j | 0 <= i < j < n
      ensures Names(base, n)[i] != Names(base, n)[j]
    {
      NamesDiffer(base, i, j);
    }
  }

  /** The listing holds each of the session's own files once. */
  lemma OwnFilesListed(names: seq<string>, base: string, n: nat)
    requires Distinct(names) && forall x :: x in Names(base, n) ==> x in names
    ensures multiset(Part(names, Own(base, n), true)) == multiset(Names(base, n))
  {
    hide Names, Part;
    PartMembers(names, Own(base, n), true);
    PartDistinct(names, Own(base, n), true);
    NamesDistinct(base, n);
    SameElementsSameBag(Part(names, Own(base, n), true), Names(base, n));
  }

  /** Sorted, the session's own files come in the order they were written. */
  lemma OwnFilesInOrder(names: seq<string>, base: string, n: nat)
    requires n <= 10000 && Sorted(LexLess, names) && Distinct(names)
    requires forall x :: x in Names(base, n) ==> x in names
    ensures Part(names, Own(base, n), true) == Names(base, n)
  {
    hide ChunkName, LexLess, Names, Part;
    OwnFilesListed(names, base, n);
    PartSorted(names, Own(base, n), true);
    NamesAscend(base, n);
    SortedIsUnique(LexLess, Names(base, n), Part(names, Own(base, n), true));
  }

  lemma {:induction false} NamesAscend(base: string, n: nat)
    requires n <= 10000
    ensures Sorted(LexLess, Names(base, n)) && Distinct(Names(base, n)) && DistinctRanks(LexLess, Names(base, n))
    ensures forall i :: 0 <= i < n ==> Names(base, n)[i] == ChunkName(base, i)
  {
    hide ChunkName, LexLess;
    var names := Names(base, n);
    NamesSortNumerically(base, n);
    forall i, j | 0 <= i < j < n
      ensures names[i] != names[j] && !LexLess(names[j], names[i]) && LexLess(names[i], names[j])
    {
      assert LexLess(ChunkName(base, i), ChunkName(base, j));
      LexTotal(names[i], names[j]);
    }
  }

  lemma {:induction false} ReadNamed(files: Files, names: seq<string>, chunks: seq<seq<string>>)
    requires |names| == |chunks|
    requires forall i :: 0 <= i < |chunks| ==> names[i] in files && files[names[i]] == Flatten(chunks[i])
    ensures ReadAll(files, names) == ReadChunks(chunks)
  {
    hide Flatten, ReadLines;
    if chunks != [] {
      ReadNamed(files, names[1..], chunks[1..]);
    }
  }

  // ----- the theorem -----

  /** Sorted names list each matching file once. */
  lemma ListingFacts(glob: set<string> -> seq<string>, files: Files, base: string)
    requires Lists(glob)
    ensures var names := SortedNames(glob, files, base);
      Sorted(LexLess, names) && Distinct(names) && forall x :: x in names <==> x in files && MatchesGlob(base, x)
  {
    hide LexLess, MatchesGlob;
    var listed := glob(Matching(files, base));
    LexOrder();
    SortSorts(LexLess, listed);
    SortPermutes(LexLess, listed);
    SortedNamesExist(glob, files, base);
    DistinctByBag(listed, Sort(LexLess, listed));
  }

  lemma DistinctByBag(a: seq<string>, b: seq<string>)
    requires Distinct(a) && multiset(a) == multiset(b)
    ensures Distinct(b)
  {
    forall i, j | 0 <= i < j < |b|
      ensures b[i] != b[j]
    {
      AtMostOnce(a, b[i]);
      assert b == b[..i] + [b[i]] + b[i + 1..];
      assert multiset(b[i + 1..])[b[i]] == 0;
      assert b[j] in b[i + 1..];
    }
  }

  /** No other file that matches the pattern holds a non-blank line. */
  ghost predicate NothingStale(files: Files, base: string, own: seq<string>) {
    forall name :: name in files && MatchesGlob(base, name) && name !in own ==> ReadLines(files[name]) == []
  }

  /** The files that a save under these names leaves alone. */
  function Untouched(files: Files, own: seq<string>): Files {
    files - (set x | x in own)
  }

  /** The own files, read in order, hold the records. */
  lemma OwnText(after: Files, base: string, records: seq<string>, limit: int)
    requires forall r :: r in records ==> IsRecord(r)
    requires var chunks := Chunks(Lines(records), limit);
      var names := Names(base, |chunks|);
      forall i :: 0 <= i < |chunks| ==> names[i] in after && after[names[i]] == Flatten(chunks[i])
    ensures ReadAll(after, Names(base, |Chunks(Lines(records), limit)|)) == records
  {
    hide ChunkName, ReadLines, Chunks, IsRecord;
    var chunks := Chunks(Lines(records), limit);
    ChunksArePartition(Lines(records), limit);
    LinesAreLines(records);
    ReadChunksOf(chunks);
    ReadNamed(after, Names(base, |chunks|), chunks);
  }

  /** Reading the same files in another order gives the same lines in another order. */
  lemma {:induction false} ReadAllPermutes(files: Files, a: seq<string>, b: seq<string>)
    requires multiset(a) == multiset(b)
    ensures multiset(ReadAll(files, a)) == multiset(ReadAll(files, b))
  {
    hide ReadAll;
    if a == [] {
      assert |multiset(b)| == |b|;
    } else {
      assert a[0] in multiset(b);
      var j :| 0 <= j < |b| && b[j] == a[0];
      WithoutMultiset(b, j);
      TailMultiset(a);
      ReadAllPermutes(files, a[1..], Without(b, j));
      assert Without(a, 0) == a[1..];
      ReadAllWithout(files, a, 0);
      ReadAllWithout(files, b, j);
    }
  }

  lemma ReadAllWithout(files: Files, names: seq<string>, j: nat)
    requires j < |names|
    ensures multiset(ReadAll(files, names))
            == multiset(ReadAll(files, [names[j]])) + multiset(ReadAll(files, Without(names, j)))
  {
    hide ReadAll;
    assert names == names[..j] + ([names[j]] + names[j + 1..]);
    ReadAllConcat(files, names[..j], [names[j]] + names[j + 1..]);
    ReadAllConcat(files, [names[j]], names[j + 1..]);
    ReadAllConcat(files, names[..j], names[j + 1..]);
  }

  lemma {:induction false} ReadAllSame(a: Files, b: Files, names: seq<string>)
    requires forall x :: x in names ==> x in a && x in b && a[x] == b[x]
    ensures ReadAll(a, names) == ReadAll(b, names)
  {
    hide ReadLines;
    if names != [] {
      assert names[0] in names && forall x :: x in names[1..] ==> x in names;
      ReadAllSame(a, b, names[1..]);
    }
  }

  lemma RanksDiffer(names: seq<string>)
    requires Distinct(names)
    ensures DistinctRanks(LexLess, names)
  {
    hide LexLess;
    forall i, j | 0 <= i < j < |names|
      ensures LexLess(names[i], names[j]) || LexLess(names[j], names[i])
    {
      LexTotal(names[i], names[j]);
    }
  }

  /** Two sorted listings of the same names are equal. */
  lemma SameListing(a: seq<string>, b: seq<string>)
    requires Sorted(LexLess, a) && Sorted(LexLess, b) && Distinct(a) && Distinct(b) && forall x :: x in a <==> x in b
    ensures a == b
  {
    hide LexLess;
    SameElementsSameBag(a, b);
    RanksDiffer(a);
    SortedIsUnique(LexLess, a, b);
  }

  /** A directory after a save: the untouched files, and the own ones. */
  ghost predicate SavedOver(files: Files, after: Files, own: seq<string>) {
    && (forall x :: x in after <==> x in files || x in own)
    && forall x :: x in files && x !in own ==> after[x] == files[x]
  }

  /** The rest of the listing is the listing of the untouched files. */
  lemma StaleText(files: Files, after: Files, glob: set<string> -> seq<string>, base: string, n: nat)
    requires Lists(glob) && SavedOver(files, after, Names(base, n))
    ensures PartText(after, SortedNames(glob, after, base), Own(base, n), false)
            == Loaded(glob, Untouched(files, Names(base, n)), base)
  {
    hide MatchesGlob, LexLess, SortedNames, ReadAll, Part, Lists, Sorted, Distinct, Names;
    var names, inside, rest := SortedNames(glob, after, base), Own(base, n), Untouched(files, Names(base, n));
    var part, stale := Part(names, inside, false), SortedNames(glob, rest, base);
    ListingFacts(glob, after, base);
    ListingFacts(glob, rest, base);
    PartMembers(names, inside, false);
    PartSorted(names, inside, false);
    PartDistinct(names, inside, false);
    SameListing(part, stale);
    ReadAllSame(after, rest, stale);
  }

  lemma StaleLines(files: Files, glob: set<string> -> seq<string>, base: string, own: seq<string>)
    requires Lists(glob)
    ensures Loaded(glob, Untouched(files, own), base) == [] <==> NothingStale(files, base, own)
  {
    hide MatchesGlob, ReadLines, SortedNames, ReadAll;
    var rest := Untouched(files, own);
    ListingFacts(glob, rest, base);
    ReadsNothing(rest, SortedNames(glob, rest, base));
  }

  /** Files that the pattern does not match change nothing. */
  lemma OwnFilesUnseen(files: Files, after: Files, glob: set<string> -> seq<string>, base: string, own: seq<string>)
    requires Lists(glob) && forall i :: 0 <= i < |own| ==> !MatchesGlob(base, own[i])
    requires SavedOver(files, after, own)
    ensures Loaded(glob, after, base) == Loaded(glob, files, base)
  {
    hide MatchesGlob, LexLess, ReadAll, Lists;
    assert Matching(after, base) == Matching(files, base);
    ListingFacts(glob, files, base);
    ReadAllSame(files, after, SortedNames(glob, files, base));
  }

  // ----- the order of more than 10000 chunks -----

  ghost predicate Before<T>(s: seq<T>, x: T, y: T) {
    exists i, j :: 0 <= i < j < |s| && s[i] == x && s[j] == y
  }

  lemma BeforeInReading(files: Files, names: seq<string>, a: string, b: string, x: string, y: string)
    requires Before(names, a, b) && a in files && b in files
    requires x in ReadLines(files[a]) && y in ReadLines(files[b])
    ensures Before(ReadAll(files, names), x, y)
  {
    hide ReadAll, ReadLines;
    var i, j :| 0 <= i < j < |names| && names[i] == a && names[j] == b;
    assert names == names[..j] + names[j..];
    ReadAllConcat(files, names[..j], names[j..]);
    LineOfListed(files, names[..j], i, x);
    LineOfListed(files, names[j..], 0, y);
    BeforeConcat(ReadAll(files, names[..j]), ReadAll(files, names[j..]), x, y);
  }

  lemma LineOfListed(files: Files, names: seq<string>, i: nat, x: string)
    requires i < |names| && names[i] in files && x in ReadLines(files[names[i]])
    ensures x in ReadAll(files, names)
  {
    hide ReadAll, ReadLines;
    assert names == names[..i] + ([names[i]] + names[i + 1..]);
    ReadAllConcat(files, names[..i], [names[i]] + names[i + 1..]);
    ReadAllConcat(files, [names[i]], names[i + 1..]);
    ReadOne(files, names[i]);
  }

  lemma BeforeConcat<T>(a: seq<T>, b: seq<T>, x: T, y: T)
    requires x in a && y in b
    ensures Before(a + b, x, y)
  {
    var i :| 0 <= i < |a| && a[i] == x;
    var j :| 0 <= j < |b| && b[j] == y;
    assert (a + b)[i] == x && (a + b)[|a| + j] == y;
  }

  /** The glob's order puts chunk 10000 before chunk 9999. */
  lemma ListedTooEarly(names: seq<string>, base: string)
    requires Sorted(LexLess, names) && ChunkName(base, 9999) in names && ChunkName(base, 10000) in names
    ensures Before(names, ChunkName(base, 10000), ChunkName(base, 9999))
  {
    hide LexLess;
    var a, b := ChunkName(base, 9999), ChunkName(base, 10000);
    TenThousandSortsFirst();
    LexPrefix(base + "_chunk_", Padded(9999) + ".jsonl.gz", Padded(10000) + ".jsonl.gz");
    NamesDiffer(base, 9999, 10000);
    LexTotal(a, b);
    var i :| 0 <= i < |names| && names[i] == a;
    var j :| 0 <= j < |names| && names[j] == b;
    assert j < i;
  }

  /** Read in the glob's order, more than 10000 chunks of distinct records come out of order. */
  lemma OutOfOrder(after: Files, names: seq<string>, base: string, n: nat, records: seq<string>)
    requires n > 10000 && Distinct(records) && Sorted(LexLess, names)
    requires forall i :: 0 <= i < n ==> Names(base, n)[i] in names && Names(base, n)[i] in after
    requires forall i :: 0 <= i < n ==> ReadLines(after[Names(base, n)[i]]) != []
    requires ReadAll(after, Names(base, n)) == records
    ensures ReadAll(after, names) != records
  {
    hide ReadAll, ReadLines, ChunkName, LexLess;
    var own, a, b := Names(base, n), ChunkName(base, 9999), ChunkName(base, 10000);
    assert own[9999] == a && own[10000] == b;
    var x, y := ReadLines(after[a])[0], ReadLines(after[b])[0];
    BeforeInReading(after, own, a, b, x, y);
    ListedTooEarly(names, base);
    BeforeInReading(after, names, b, a, y, x);
  }

  lemma ChunksHoldLines(records: seq<string>, limit: int)
    requires forall r :: r in records ==> IsRecord(r)
    ensures forall c :: c in Chunks(Lines(records), limit) ==> ReadLines(Flatten(c)) != []
  {
    hide ReadLines, Chunks, IsRecord;
    var chunks := Chunks(Lines(records), limit);
    ChunksArePartition(Lines(records), limit);
    LinesAreLines(records);
    forall c | c in chunks
      ensures ReadLines(Flatten(c)) != []
    {
      LinesOfChunk(chunks, c);
      ReadLinesOf(c);
    }
  }

  lemma {:induction false} LinesOfChunk(chunks: seq<seq<string>>, c: seq<string>)
    requires c in chunks
    ensures forall l :: l in c ==> l in Flatten(chunks)
  {
    if c != chunks[0] {
      LinesOfChunk(chunks[1..], c);
    }
  }

  // ----- the theorem -----

  /** What a save leaves, as the reader sees it. */
  lemma AfterSaving(files: Files, base: string, records: seq<string>, limit: int)
    requires forall r :: r in records ==> IsRecord(r)
    ensures var chunks := Chunks(Lines(records), limit);
      var after, own := WithChunks(files, base, 0, chunks), Names(base, |chunks|);
      && SavedOver(files, after, own)
      && (forall i :: 0 <= i < |own| ==> own[i] in after && ReadLines(after[own[i]]) != [])
      && (forall i :: 0 <= i < |own| ==> (MatchesGlob(base, own[i]) <==> FindsItself(base)))
      && ReadAll(after, own) == records
  {
    hide ChunkName, ReadLines, Flatten, Chunks, MatchesGlob, WithChunks, FindsItself, ReadAll;
    var chunks := Chunks(Lines(records), limit);
    var own := Names(base, |chunks|);
    ChunksInPlace(files, base, chunks);
    ChunksHoldLines(records, limit);
    OwnText(WithChunks(files, base, 0, chunks), base, records, limit);
    forall i | 0 <= i < |own|
      ensures MatchesGlob(base, own[i]) <==> FindsItself(base)
    {
      OwnNamesMatchExactly(base, i);
    }
    assert forall i :: 0 <= i < |own| ==> chunks[i] in chunks;
  }

  /**
    For any base, any number of chunks, and whatever order the directory listing comes in.
    A base that does not find itself loads what it loaded before. One that does loads
    the records just saved and what other matching files hold, up to order: exactly the
    records in their order for up to 10000 chunks when nothing stale matches, and never
    distinct records in their order for more.
  */
  lemma RoundTripExactly(files: Files, glob: set<string> -> seq<string>, base: string, records: seq<string>, limit: int)
    requires Lists(glob) && forall r :: r in records ==> IsRecord(r)
    ensures var chunks := Chunks(Lines(records), limit);
      var own, loaded := Names(base, |chunks|), Loaded(glob, WithChunks(files, base, 0, chunks), base);
      if FindsItself(base) then
        && multiset(loaded) == multiset(records) + multiset(Loaded(glob, Untouched(files, own), base))
        && (|chunks| <= 10000 ==> (loaded == records <==> NothingStale(files, base, own)))
        && (|chunks| > 10000 && Distinct(records) ==> loaded != records)
      else loaded == Loaded(glob, files, base)
  {
    hide ReadLines, Chunks, MatchesGlob, WithChunks, FindsItself, Untouched, NothingStale, SortedNames, ReadAll, Names;
    hide Sorted, Distinct, Part, Lists, SavedOver;
    var chunks := Chunks(Lines(records), limit);
    var n, after, own := |chunks|, WithChunks(files, base, 0, chunks), Names(base, |chunks|);
    var names := SortedNames(glob, after, base);
    AfterSaving(files, base, records, limit);
    NamesCount(base, n);
    if FindsItself(base) {
      ListingFacts(glob, after, base);
      assert forall x :: x in own ==> x in names;
      OwnFilesListed(names, base, n);
      ReadAllPermutes(after, Part(names, Own(base, n), true), own);
      PartsBag(after, names, Own(base, n));
      StaleText(files, after, glob, base, n);
      StaleLines(files, glob, base, own);
      if n <= 10000 {
        OwnFilesInOrder(names, base, n);
        if NothingStale(files, base, own) {
          NothingOutside(after, names, Own(base, n));
        }
        SameSize(ReadAll(after, names), records, Loaded(glob, Untouched(files, own), base));
      } else if Distinct(records) {
        OutOfOrder(after, names, base, n, records);
      }
    } else {
      OwnFilesUnseen(files, after, glob, base, own);
    }
  }

  lemma NamesCount(base: string, n: nat)
    ensures |Names(base, n)| == n
  {
  }

  lemma SameSize<T>(a: seq<T>, b: seq<T>, c: seq<T>)
    requires multiset(a) == multiset(b) + multiset(c)
    ensures a == b ==> c == []
  {
    assert |multiset(a)| == |a| && |multiset(b)| == |b| && |multiset(c)| == |c|;
  }

  /**
    Saving values into a directory without matching files and loading them. A base that
    finds itself gives the values back, up to order; in their order for up to 10000
    chunks, and never in their order for more when they are distinct. Any other base
    gives nothing.
  */
  lemma LoadUndoesSave<T>(outputs: seq<T>, dumps: T -> string, loads: string -> T, files: Files,
                          glob: set<string> -> seq<string>, base: string, chunkSizeMb: int)
    requires Lists(glob) && forall o :: o in outputs ==> IsRecord(dumps(o)) && loads(dumps(o)) == o
    requires forall name :: name in files ==> !MatchesGlob(base, name)
    ensures var chunks := Chunks(Serialised(outputs, dumps), chunkSizeMb * 1048576);
      var values := Mapped(Loaded(glob, WithChunks(files, base, 0, chunks), base), loads);
      if FindsItself(base) then
        && multiset(values) == multiset(outputs)
        && (|chunks| <= 10000 ==> values == outputs)
        && (|chunks| > 10000 && Distinct(outputs) ==> values != outputs)
      else values == []
  {
    hide Chunks, WithChunks, SortedNames, ReadAll, MatchesGlob, IsRecord, FindsItself, Loaded, NothingStale;
    hide Untouched, Lines;
    hide Mapped, Distinct, Names, Lists;
    var limit := chunkSizeMb * 1048576;
    var records := Mapped(outputs, dumps);
    var lines := Loaded(glob, WithChunks(files, base, 0, Chunks(Lines(records), limit)), base);
    SerialisedIsLines(outputs, dumps);
    DumpedAreRecords(outputs, dumps, loads);
    RoundTripExactly(files, glob, base, records, limit);
    NothingThere(files, glob, base, Names(base, |Chunks(Lines(records), limit)|));
    MappedBag(lines, records, loads);
    NoneMapped(loads);
    assert multiset(records) + multiset([]) == multiset(records);
    if Mapped(lines, loads) == outputs {
      BackAndForth(outputs, lines, dumps, loads);
    }
  }

  function Mapped<S, T>(s: seq<S>, f: S -> T): seq<T> {
    seq(|s|, i requires 0 <= i < |s| => f(s[i]))
  }

  lemma NoneMapped<S, T>(f: S -> T)
    ensures Mapped([], f) == []
  {
  }

  lemma SerialisedIsLines<T>(outputs: seq<T>, dumps: T -> string)
    ensures Lines(Mapped(outputs, dumps)) == Serialised(outputs, dumps)
  {
  }

  lemma DumpedAreRecords<T>(outputs: seq<T>, dumps: T -> string, loads: string -> T)
    requires forall o :: o in outputs ==> IsRecord(dumps(o)) && loads(dumps(o)) == o
    ensures forall r :: r in Mapped(outputs, dumps) ==> IsRecord(r)
    ensures Mapped(Mapped(outputs, dumps), loads) == outputs
    ensures Distinct(outputs) ==> Distinct(Mapped(outputs, dumps))
  {
    hide IsRecord;
    var records := Mapped(outputs, dumps);
    forall i | 0 <= i < |records|
      ensures IsRecord(records[i]) && loads(records[i]) == outputs[i]
    {
      assert outputs[i] in outputs;
    }
  }

  lemma {:induction false} MappedBag<S, T>(a: seq<S>, b: seq<S>, f: S -> T)
    ensures multiset(a) == multiset(b) ==> multiset(Mapped(a, f)) == multiset(Mapped(b, f))
  {
    if multiset(a) == multiset(b) {
      assert |multiset(a)| == |a| && |multiset(b)| == |b|;
      if a != [] {
        assert a[0] in multiset(b);
        var j :| 0 <= j < |b| && b[j] == a[0];
        WithoutMultiset(b, j);
        TailMultiset(a);
        MappedBag(a[1..], Without(b, j), f);
        assert Without(a, 0) == a[1..];
        MappedWithout(a, 0, f);
        MappedWithout(b, j, f);
      }
    }
  }

  lemma MappedWithout<S, T>(s: seq<S>, j: nat, f: S -> T)
    requires j < |s|
    ensures multiset(Mapped(s, f)) == multiset{f(s[j])} + multiset(Mapped(Without(s, j), f))
  {
    assert Mapped(Without(s, j), f) == Without(Mapped(s, f), j);
    WithoutMultiset(Mapped(s, f), j);
    assert Mapped(s, f)[j] in multiset(Mapped(s, f));
  }

  /** Lines that are some order of the records, and give the values in order, are the records in order. */
  lemma BackAndForth<T>(outputs: seq<T>, lines: seq<string>, dumps: T -> string, loads: string -> T)
    requires forall o :: o in outputs ==> loads(dumps(o)) == o
    requires Mapped(lines, loads) == outputs
    ensures multiset(lines) == multiset(Mapped(outputs, dumps)) ==> lines == Mapped(outputs, dumps)
  {
    var records := Mapped(outputs, dumps);
    assert |lines| == |Mapped(lines, loads)| == |outputs|;
    if multiset(lines) == multiset(records) {
      forall i | 0 <= i < |lines|
        ensures lines[i] == records[i]
      {
        assert lines[i] in multiset(records);
        var j :| 0 <= j < |records| && records[j] == lines[i];
        assert outputs[j] in outputs;
        assert Mapped(lines, loads)[i] == loads(lines[i]) == outputs[j];
      }
    }
  }

  lemma NothingThere(files: Files, glob: set<string> -> seq<string>, base: string, own: seq<string>)
    requires Lists(glob) && forall name :: name in files ==> !MatchesGlob(base, name)
    ensures Loaded(glob, files, base) == [] && Loaded(glob, Untouched(files, own), base) == []
    ensures NothingStale(files, base, own)
  {
    hide MatchesGlob, LexLess, Sorted, Distinct, Lists;
    ListingFacts(glob, files, base);
    ListingFacts(glob, Untouched(files, own), base);
    EmptyOrNot(SortedNames(glob, files, base));
    EmptyOrNot(SortedNames(glob, Untouched(files, own), base));
  }

  // ----- a shorter save over a longer one -----

  lemma {:induction false} ReadChunksConcat(a: seq<seq<string>>, b: seq<seq<string>>)
    ensures ReadChunks(a + b) == ReadChunks(a) + ReadChunks(b)
  {
    hide ReadLines, Flatten;
    if a == [] {
      assert a + b == b;
    } else {
      assert (a + b)[1..] == a[1..] + b;
      ReadChunksConcat(a[1..], b);
    }
  }

  /** The chunks that the directory holds after both saves. */
  function Left(older: seq<seq<string>>, newer: seq<seq<string>>): seq<seq<string>> {
    newer + Drop(older, |newer|)
  }

  lemma TwoSaves(files: Files, base: string, older: seq<seq<string>>, newer: seq<seq<string>>)
    ensures var after, left := WithChunks(WithChunks(files, base, 0, older), base, 0, newer), Left(older, newer);
      var own := Names(base, |left|);
      && (forall i :: 0 <= i < |left| ==> own[i] in after && after[own[i]] == Flatten(left[i]))
      && (forall name :: name in after <==> name in files || name in own)
  {
    hide ChunkName, Flatten, WithChunks, Names;
    NamesCount(base, |older|);
    NamesCount(base, |newer|);
    NamesCount(base, |Left(older, newer)|);
    var mid, left := WithChunks(files, base, 0, older), Left(older, newer);
    var own := Names(base, |left|);
    ChunksInPlace(files, base, older);
    ChunksInPlace(mid, base, newer);
    NamesDistinct(base, |left|);
    PartOfNames(base, |older|, |left|);
    PartOfNames(base, |newer|, |left|);
    var after := WithChunks(mid, base, 0, newer);
    forall i | 0 <= i < |left|
      ensures own[i] in after && after[own[i]] == Flatten(left[i])
    {
      if i < |newer| {
        assert own[i] == Names(base, |newer|)[i];
      } else {
        assert own[i] == Names(base, |older|)[i];
        assert own[i] !in Names(base, |newer|);
      }
    }
    forall x | x in own
      ensures x in Names(base, |older|) || x in Names(base, |newer|)
    {
      var i :| 0 <= i < |left| && own[i] == x;
      assert i < |newer| || i < |older|;
    }
  }

  lemma PartOfNames(base: string, n: nat, m: nat)
    requires n <= m
    ensures Names(base, n) == Names(base, m)[..n]
  {
    hide ChunkName;
  }

  /**
    Two saves under one base into a directory without matching files: what is loaded is
    the second save and, up to order, the first one's chunks that it did not overwrite.
    Up to 10000 chunks the order is that; a longer first save always shows.
  */
  lemma SecondSave(files: Files, glob: set<string> -> seq<string>, base: string, first: seq<string>,
                   second: seq<string>, firstLimit: int, secondLimit: int)
    requires Lists(glob) && FindsItself(base) && forall name :: name in files ==> !MatchesGlob(base, name)
    requires forall r :: r in first || r in second ==> IsRecord(r)
    ensures var older, newer := Chunks(Lines(first), firstLimit), Chunks(Lines(second), secondLimit);
      var loaded := Loaded(glob, WithChunks(WithChunks(files, base, 0, older), base, 0, newer), base);
      var stale := ReadChunks(Drop(older, |newer|));
      && multiset(loaded) == multiset(second + stale)
      && (|older| <= 10000 && |newer| <= 10000 ==> loaded == second + stale)
      && (stale == [] <==> |older| <= |newer|)
      && (|older| > |newer| ==> loaded != second)
  {
    hide ReadLines, Chunks, MatchesGlob, WithChunks, FindsItself, Names, ReadAll, SortedNames, IsRecord, Lines, Flatten;
    hide Distinct, Sorted, ReadChunks, Lists;
    var older, newer := Chunks(Lines(first), firstLimit), Chunks(Lines(second), secondLimit);
    var left, after := Left(older, newer), WithChunks(WithChunks(files, base, 0, older), base, 0, newer);
    var names, own, stale := SortedNames(glob, after, base), Names(base, |left|), ReadChunks(Drop(older, |newer|));
    TwoSaves(files, base, older, newer);
    ReadNamedBy(after, base, left);
    ReadChunksConcat(newer, Drop(older, |newer|));
    ChunksRead(second, secondLimit);
    OwnAllMatch(base, |left|);
    ListingFacts(glob, after, base);
    NamesDistinct(base, |left|);
    SameElementsSameBag(names, own);
    ReadAllPermutes(after, names, own);
    if |left| <= 10000 {
      NamesAscend(base, |left|);
      SameListing(names, own);
    }
    StaleShows(first, firstLimit, |newer|);
    assert |multiset(ReadAll(after, names))| == |ReadAll(after, names)|
           && |multiset(second + stale)| == |second + stale|;
  }

  lemma ReadNamedBy(files: Files, base: string, chunks: seq<seq<string>>)
    requires forall i :: 0 <= i < |chunks| ==>
      Names(base, |chunks|)[i] in files && files[Names(base, |chunks|)[i]] == Flatten(chunks[i])
    ensures ReadAll(files, Names(base, |chunks|)) == ReadChunks(chunks)
  {
    hide ChunkName;
    ReadNamed(files, Names(base, |chunks|), chunks);
  }

  lemma ChunksRead(records: seq<string>, limit: int)
    requires forall r :: r in records ==> IsRecord(r)
    ensures ReadChunks(Chunks(Lines(records), limit)) == records
  {
    hide Chunks, IsRecord;
    ChunksArePartition(Lines(records), limit);
    LinesAreLines(records);
    ReadChunksOf(Chunks(Lines(records), limit));
  }

  lemma OwnAllMatch(base: string, n: nat)
    requires FindsItself(base)
    ensures forall x :: x in Names(base, n) ==> MatchesGlob(base, x)
  {
    hide ChunkName, MatchesGlob, FindsItself;
    forall i | 0 <= i < n
      ensures MatchesGlob(base, Names(base, n)[i])
    {
      OwnNamesMatchExactly(base, i);
    }
  }

  /** Chunks hold lines, so leftover chunks show. */
  lemma StaleShows(records: seq<string>, limit: int, n: nat)
    requires forall r :: r in records ==> IsRecord(r)
    ensures ReadChunks(Drop(Chunks(Lines(records), limit), n)) == [] <==> |Chunks(Lines(records), limit)| <= n
  {
    hide ReadLines, Flatten, Chunks, IsRecord, Lines;
    var chunks := Chunks(Lines(records), limit);
    ChunksHoldLines(records, limit);
    if n < |chunks| {
      assert chunks[n] in chunks && Drop(chunks, n)[0] == chunks[n];
    }
  }
}

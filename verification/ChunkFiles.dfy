/** Chunk files: naming, writing and the glob-sorted reader (src/kitt/utils/compression.py). */
module ChunkFiles {
  import opened Basics
  import opened Sorting
  import opened Globs
  import opened Numerals
  import opened Chunking

  // ----- records as text -----

  /** ASCII white space, which strip removes. */
  predicate IsSpace(c: char) { c == ' ' || '\t' <= c <= '\r' || '\U{1C}' <= c <= '\U{1F}' }

  /** What ends a line in text mode; a carriage return with a line feed reads as an end and a blank line. */
  predicate IsBreak(c: char) { c == '\n' || c == '\r' }

  /** What json.dumps gives: not blank, no line break, no space at either end. */
  predicate IsRecord(s: string) {
    s != "" && '\n' !in s && '\r' !in s && !IsSpace(s[0]) && !IsSpace(s[|s| - 1])
  }

  function Strip(s: string): string
    decreases |s|
  {
    if s == "" then ""
    else if IsSpace(s[0]) then Strip(s[1..])
    else if IsSpace(s[|s| - 1]) then Strip(s[..|s| - 1])
    else s
  }

  /** Index just after the first line break, or the end. */
  function LineEnd(text: string): (n: nat)
    ensures text != "" ==> 0 < n <= |text|
    ensures text == "" ==> n == 0
  {
    if text == "" then 0 else if IsBreak(text[0]) then 1 else 1 + LineEnd(text[1..])
  }

  /** The non-blank lines of a text, stripped. */
  function ReadLines(text: string): seq<string>
    decreases |text|
  {
    if text == "" then []
    else
      var n := LineEnd(text);
      var line := Strip(text[..n]);
      (if line == "" then [] else [line]) + ReadLines(text[n..])
  }

  function Lines(records: seq<string>): seq<string> {
    seq(|records|, i requires 0 <= i < |records| => records[i] + "\n")
  }

  lemma {:induction false} LineEndOf(record: string, rest: string)
    requires '\n' !in record && '\r' !in record
    ensures LineEnd(record + "\n" + rest) == |record| + 1
  {
    var text := record + "\n" + rest;
    if record != "" {
      assert record[0] in record;
      assert text[1..] == record[1..] + "\n" + rest;
      LineEndOf(record[1..], rest);
    }
  }

  lemma StripRecord(record: string)
    requires IsRecord(record)
    ensures Strip(record + "\n") == record
  {
    assert (record + "\n")[..|record|] == record;
    assert Strip(record) == record;
  }

  /** Reading undoes joining, over all chunks of a text. */
  lemma {:induction false} ReadUndoesJoin(records: seq<string>)
    requires forall r :: r in records ==> IsRecord(r)
    ensures ReadLines(Flatten(Lines(records))) == records
  {
    if records != [] {
      var r, rest := records[0], Flatten(Lines(records[1..]));
      assert Lines(records) == [r + "\n"] + Lines(records[1..]);
      assert records == [r] + records[1..] && r in records;
      ReadUndoesJoin(records[1..]);
      LineEndOf(r, rest);
      var text := r + "\n" + rest;
      assert Flatten(Lines(records)) == text;
      assert text[..|r| + 1] == r + "\n" && text[|r| + 1..] == rest;
      StripRecord(r);
    }
  }

  // ----- file names -----

  function ChunkName(base: string, n: nat): string {
    base + "_chunk_" + (Padded(n) + ".jsonl.gz")
  }

  /** The pattern that load_outputs globs for; wildcards in the base keep their meaning. */
  predicate MatchesGlob(base: string, name: string) {
    Glob(base + "_chunk_*.jsonl.gz", name)
  }

  /** The base, as a pattern, matches its own beginning up to some `_chunk_`. */
  ghost predicate FindsItself(base: string) {
    exists k :: 0 <= k <= |base| && "_chunk_" <= (base + "_chunk_")[k..] && Glob(base, base[..k])
  }

  lemma ChunkTail(text: string)
    ensures Glob("_chunk_*.jsonl.gz", text) <==> "_chunk_" <= text && EndsWith(text[7..], ".jsonl.gz")
  {
    hide Glob, EndsWith;
    var head, tail := "_chunk_", ".jsonl.gz";
    assert forall i :: 0 <= i < |head| ==> head[i] !in {'*', '?', '['};
    assert forall i :: 0 <= i < |tail| ==> tail[i] !in {'*', '?', '['};
    assert Plain(head) && Plain(tail);
    assert head + ("*" + tail) == "_chunk_*.jsonl.gz";
    GlobLiteral(head, "*" + tail, text);
    if head <= text {
      GlobEnding(tail, text[7..]);
    }
  }

  lemma {:induction false} DigitsAreDigits(n: nat)
    ensures Digits(n) != "" && forall c :: c in Digits(n) ==> '0' <= c <= '9'
  {
    hide Digit;
    DigitRange();
    if n >= 10 {
      DigitsAreDigits(n / 10);
    }
  }

  lemma {:induction false} ZerosAreDigits(n: int)
    ensures forall c :: c in Zeros(n) ==> '0' <= c <= '9'
    decreases n
  {
    if n > 0 {
      ZerosAreDigits(n - 1);
    }
  }

  /** Behind the base, `_chunk_` occurs only where the name was built. */
  lemma LastOccurrence(base: string, n: nat, k: nat)
    requires k <= |ChunkName(base, n)| && "_chunk_" <= ChunkName(base, n)[k..]
    ensures k <= |base|
  {
    hide Digits, Zeros;
    DigitsAreDigits(n);
    ZerosAreDigits(4 - |Digits(n)|);
    var text, number := ChunkName(base, n), Padded(n);
    var head, tail := "_chunk_", ".jsonl.gz";
    assert text[k..][0] == head[0] && text[k..][1] == head[1];
    assert text[k] == '_' && text[k + 1] == 'c';
    assert number != "" && forall i :: 0 <= i < |number| ==> number[i] in number;
    assert text == base + head + number + tail;
    assert forall i :: 0 < i < 6 ==> head[i] != '_';
    assert forall i :: 0 <= i < 9 ==> tail[i] != '_';
    assert text[|base| + 7] == number[0];
    assert forall i :: |base| + 7 <= i < |base| + 7 + |number| ==> text[i] == number[i - |base| - 7];
    assert forall i :: |base| + 7 + |number| <= i < |text| ==> text[i] == tail[i - |base| - 7 - |number|];
    assert forall i :: |base| < i < |base| + 7 ==> text[i] == head[i - |base|];
  }

  /** load_outputs finds the files that save_outputs writes exactly when the base finds itself. */
  lemma OwnNamesMatchExactly(base: string, n: nat)
    ensures MatchesGlob(base, ChunkName(base, n)) <==> FindsItself(base)
  {
    hide Glob, ChunkName, EndsWith;
    var text, rest := ChunkName(base, n), "_chunk_*.jsonl.gz";
    assert forall i :: 0 <= i < |rest| ==> rest[i] != ']';
    if MatchesGlob(base, text) {
      var k := GlobSplit(base, rest, text);
      ChunkTail(text[k..]);
      LastOccurrence(base, n, k);
      NameParts(base, n, k);
    }
    if FindsItself(base) {
      var k :| 0 <= k <= |base| && "_chunk_" <= (base + "_chunk_")[k..] && Glob(base, base[..k]);
      NameParts(base, n, k);
      ChunkTail(text[k..]);
      GlobJoin(base, rest, text, k);
    }
  }

  lemma NameParts(base: string, n: nat, k: nat)
    requires k <= |base|
    ensures k <= |ChunkName(base, n)| && ChunkName(base, n)[..k] == base[..k]
    ensures "_chunk_" <= ChunkName(base, n)[k..] <==> "_chunk_" <= (base + "_chunk_")[k..]
    ensures "_chunk_" <= ChunkName(base, n)[k..] ==> EndsWith(ChunkName(base, n)[k..][7..], ".jsonl.gz")
  {
    hide Padded;
    var text, own, tail := ChunkName(base, n), base + "_chunk_", ".jsonl.gz";
    assert text == own + Padded(n) + tail;
    assert text[k..][..7] == own[k..][..7];
    var behind := text[k..][7..];
    assert behind[|behind| - 9..] == tail;
  }

  /** A base without a bracket finds itself, stars and question marks or not. */
  lemma BracketFreeFindsItself(base: string)
    requires '[' !in base
    ensures FindsItself(base)
  {
    GlobSelf(base);
    assert base[..|base|] == base && (base + "_chunk_")[|base|..] == "_chunk_";
  }

  /** A base such as `run[1]` does not. */
  lemma BracketedLosesItself(p: string, c: char)
    requires Plain(p) && '_' !in p && c !in {'[', ']', '!', '_'}
    ensures !FindsItself(p + "[" + [c] + "]")
  {
    var base := p + "[" + [c] + "]";
    forall k | 0 <= k <= |base| && "_chunk_" <= (base + "_chunk_")[k..]
      ensures !Glob(base, base[..k])
    {
      assert (base + "_chunk_")[k..][0] == "_chunk_"[0];
      assert forall i :: 0 <= i < |p| ==> base[i] == p[i] && p[i] in p;
      assert k == |base| && base[..k] == base;
      assert base == p + ("[" + [c] + "]");
      GlobLiteral(p, "[" + [c] + "]", base);
      ClassOfOne(c);
      assert base[|p|..] == "[" + [c] + "]";
    }
  }

  lemma ClassOfOne(c: char)
    requires c !in {'[', ']', '!'}
    ensures !Glob("[" + [c] + "]", "[" + [c] + "]")
  {
    var s := "[" + [c] + "]";
    assert s[0] == '[' && s[1] == c && s[2] == ']';
    assert Closing(s, 1) == Closing(s, 2) == 2;
    assert ClassEnd(s) == 2 && s[1..2] == [c];
    assert [c][1..] == "" && !InItems('[', "");
    assert !InItems('[', [c]) && !InClass('[', [c]);
  }

  ghost predicate NumericOrder(base: string, n: nat) {
    forall i, j :: 0 <= i < j < n ==> LexLess(ChunkName(base, i), ChunkName(base, j))
  }

  /** Chunk names sort in numeric order exactly up to 10000 chunks. */
  lemma NamesSortNumerically(base: string, n: nat)
    ensures NumericOrder(base, n) <==> n <= 10000
  {
    if n <= 10000 {
      forall i, j | 0 <= i < j < n
        ensures LexLess(ChunkName(base, i), ChunkName(base, j))
      {
        FourDigitOrder(i, j, ".jsonl.gz");
        LexPrefix(base + "_chunk_", Padded(i) + ".jsonl.gz", Padded(j) + ".jsonl.gz");
      }
    } else {
      TenThousandSortsFirst();
      LexPrefix(base + "_chunk_", Padded(9999) + ".jsonl.gz", Padded(10000) + ".jsonl.gz");
      assert !LexLess(ChunkName(base, 9999), ChunkName(base, 10000));
    }
  }

  lemma TenThousandSortsFirst()
    ensures !LexLess(Padded(9999) + ".jsonl.gz", Padded(10000) + ".jsonl.gz")
  {
    hide Padded;
    PaddedTenThousand();
    PaddedDigits(9999);
  }

  // ----- writing and reading -----

  /** A directory with the texts that the compressed files hold. */
  type Files = map<string, string>

  function WithChunks(files: Files, base: string, first: nat, chunks: seq<seq<string>>): Files
    decreases |chunks|
  {
    if chunks == [] then files
    else WithChunks(files[ChunkName(base, first) := Flatten(chunks[0])], base, first + 1, chunks[1..])
  }

  function Serialised<T>(outputs: seq<T>, dumps: T -> string): seq<string> {
    seq(|outputs|, i requires 0 <= i < |outputs| => dumps(outputs[i]) + "\n")
  }

  function Names(base: string, n: nat): seq<string> {
    seq(n, i requires 0 <= i < n => ChunkName(base, i))
  }

  class ResultDirectory {
    var files: Files
    const glob: set<string> -> seq<string>   // the order in which a directory lists names is arbitrary

    constructor (files: Files, glob: set<string> -> seq<string>)
      ensures this.files == files && this.glob == glob
    {
      this.files, this.glob := files, glob;
    }

    method WriteChunk(lines: seq<string>, base: string, n: nat) returns (name: string)
      modifies this
      ensures name == ChunkName(base, n) && files == old(files)[name := Flatten(lines)]
    {
      name := ChunkName(base, n);
      files := files[name := Flatten(lines)];
    }

    /** Writes the chunk after those already done. */
    method Flush(base: string, ghost before: Files, ghost done: seq<seq<string>>, current: seq<string>,
                 names: seq<string>)
      returns (more: seq<string>)
      requires files == WithChunks(before, base, 0, done) && names == Names(base, |done|)
      modifies this
      ensures files == WithChunks(before, base, 0, done + [current]) && more == Names(base, |done| + 1)
    {
      hide ChunkName;
      WriteNext(before, base, done, current);
      var name := WriteChunk(current, base, |names|);
      more := names + [name];
    }

    method SaveOutputs<T>(outputs: seq<T>, dumps: T -> string, base: string, chunkSizeMb: int)
      returns (names: seq<string>)
      modifies this
      ensures var chunks := Chunks(Serialised(outputs, dumps), chunkSizeMb * 1048576);
        names == Names(base, |chunks|) && files == WithChunks(old(files), base, 0, chunks)
    {
      hide WithChunks, Names, Size;
      names := [];
      var limit := chunkSizeMb * 1048576;
      var current: seq<string>, currentSize := [], 0;
      ghost var all, done: seq<seq<string>> := Serialised(outputs, dumps), [];
      NothingYet(files, base);
      for i := 0 to |outputs|
        invariant names == Names(base, |done|) && files == WithChunks(old(files), base, 0, done)
        invariant currentSize == Size(current)
        invariant done + Pack(all[i..], current, limit) == Chunks(all, limit)
      {
        var line := dumps(outputs[i]) + "\n";
        assert all[i..][0] == line && all[i..][1..] == all[i + 1..];
        if currentSize + |line| > limit && current != [] {
          names := Flush(base, old(files), done, current, names);
          done := done + [current];
          SizeSnoc([], line);
          assert [] + [line] == [line];
          current, currentSize := [line], |line|;
        } else {
          SizeSnoc(current, line);
          current, currentSize := current + [line], currentSize + |line|;
        }
      }
      if current != [] {
        names := Flush(base, old(files), done, current, names);
        done := done + [current];
      }
      assert done == Chunks(all, limit);
    }

    /** The stripped non-blank lines of all matching files, in sorted name order. */
    method LoadLines(base: string) returns (lines: seq<string>)
      requires Lists(glob)
      ensures lines == Loaded(glob, files, base)
    {
      hide LexLess, Sort, Matching, MatchesGlob, ReadLines, Lists;
      var names := Sort(LexLess, glob(Matching(files, base)));
      assert names == SortedNames(glob, files, base);
      lines := [];
      SortedNamesExist(glob, files, base);
      for i := 0 to |names|
        invariant lines == ReadAll(files, names[..i])
      {
        assert names[..i + 1] == names[..i] + [names[i]];
        ReadAllConcat(files, names[..i], [names[i]]);
        ReadOne(files, names[i]);
        assert names[i] in names;
        lines := lines + ReadLines(files[names[i]]);
      }
      assert names[..|names|] == names;
    }
  }

  lemma NothingYet(files: Files, base: string)
    ensures WithChunks(files, base, 0, []) == files && Names(base, 0) == [] && Size([]) == 0
  {
  }

  lemma {:induction false} WriteNextFrom(files: Files, base: string, first: nat, done: seq<seq<string>>,
                                         last: seq<string>)
    ensures WithChunks(files, base, first, done + [last])
            == WithChunks(files, base, first, done)[ChunkName(base, first + |done|) := Flatten(last)]
    decreases |done|
  {
    hide ChunkName;
    if done == [] {
      assert (done + [last])[1..] == [];
    } else {
      assert (done + [last])[1..] == done[1..] + [last];
      WriteNextFrom(files[ChunkName(base, first) := Flatten(done[0])], base, first + 1, done[1..], last);
    }
  }

  lemma WriteNext(files: Files, base: string, done: seq<seq<string>>, last: seq<string>)
    ensures WithChunks(files, base, 0, done + [last])
            == WithChunks(files, base, 0, done)[ChunkName(base, |done|) := Flatten(last)]
  {
    WriteNextFrom(files, base, 0, done, last);
  }

  /** A directory listing names each matching file once, in any order. */
  ghost predicate Lists(glob: set<string> -> seq<string>) {
    forall s :: Distinct(glob(s)) && (forall x :: x in glob(s) <==> x in s)
  }

  function Matching(files: Files, base: string): set<string> {
    set name | name in files && MatchesGlob(base, name)
  }

  function SortedNames(glob: set<string> -> seq<string>, files: Files, base: string): seq<string> {
    Sort(LexLess, glob(Matching(files, base)))
  }

  lemma SortedNamesExist(glob: set<string> -> seq<string>, files: Files, base: string)
    requires Lists(glob)
    ensures forall x :: x in SortedNames(glob, files, base) <==> x in files && MatchesGlob(base, x)
  {
    hide LexLess, Sort, MatchesGlob;
    var listed := glob(Matching(files, base));
    SortPermutes(LexLess, listed);
    assert forall x :: x in Sort(LexLess, listed) <==> x in multiset(listed);
    assert forall x :: x in listed <==> x in multiset(listed);
  }

  function ReadAll(files: Files, names: seq<string>): seq<string> {
    if names == [] then []
    else (if names[0] in files then ReadLines(files[names[0]]) else []) + ReadAll(files, names[1..])
  }

  /** What load_outputs reads: the lines of all matching files, in sorted name order. */
  function Loaded(glob: set<string> -> seq<string>, files: Files, base: string): seq<string> {
    ReadAll(files, SortedNames(glob, files, base))
  }

  lemma ReadOne(files: Files, name: string)
    ensures ReadAll(files, [name]) == if name in files then ReadLines(files[name]) else []
  {
    hide ReadLines;
    assert [name][1..] == [];
  }

  lemma {:induction false} ReadAllConcat(files: Files, a: seq<string>, b: seq<string>)
    ensures ReadAll(files, a + b) == ReadAll(files, a) + ReadAll(files, b)
  {
    if a == [] {
      assert a + b == b;
    } else {
      assert (a + b)[1..] == a[1..] + b;
      ReadAllConcat(files, a[1..], b);
    }
  }
}

/**
  What the saved chunk files hold, on the outputs, the file names and the texts alone
  (src/kitt/utils/compression.py).
*/
module ChunkMeaning {
  import opened Basics
  import opened Numerals
  import opened Chunking
  import opened ChunkFiles
  import opened ChunkRoundTrip

  /** The serialised outputs, each on a line of its own. */
  function Text<T>(outputs: seq<T>, dumps: T -> string): string {
    if outputs == [] then "" else dumps(outputs[0]) + "\n" + Text(outputs[1..], dumps)
  }

  // ----- where the chunks are cut -----

  /** The lines from i to j, after which the next line would not fit. */
  ghost predicate Stretch(lines: seq<string>, limit: int, chunk: seq<string>, i: nat, j: nat) {
    i < j <= |lines| && chunk == lines[i..j] && (j < |lines| ==> Size(chunk) + |lines[j]| > limit)
  }

  /** The chunks are stretches of the lines, one after another. */
  ghost predicate CutAt(lines: seq<string>, limit: int, chunks: seq<seq<string>>, p: seq<nat>) {
    && |p| == |chunks| + 1 && p[0] == 0 && p[|chunks|] == |lines|
    && forall k :: 0 <= k < |chunks| ==> Stretch(lines, limit, chunks[k], p[k], p[k + 1])
  }

  lemma {:induction false} TakenStops(lines: seq<string>, current: seq<string>, limit: int)
    requires current != []
    ensures var n := Taken(lines, current, limit);
      n < |lines| ==> Size(current + lines[..n]) + |lines[n]| > limit
    decreases |lines|
  {
    hide Size;
    if lines == [] {
    } else if Size(current) + |lines[0]| > limit {
      assert current + lines[..0] == current;
    } else {
      var next, n := current + [lines[0]], Taken(lines[1..], current + [lines[0]], limit);
      TakenStops(lines[1..], next, limit);
      assert next + lines[1..][..n] == current + lines[..n + 1];
    }
  }

  /** Where the first chunk ends. */
  lemma FirstCut(lines: seq<string>, limit: int) returns (n: nat)
    requires lines != []
    ensures n <= |lines| && Chunks(lines, limit) == [lines[..n]] + Chunks(lines[n..], limit)
    ensures Stretch(lines, limit, lines[..n], 0, n)
  {
    hide Size, Pack;
    var rest := lines[1..];
    var m := Taken(rest, [lines[0]], limit);
    n := m + 1;
    TakenStops(rest, [lines[0]], limit);
    PackFirst(rest, [lines[0]], limit);
    FirstLine(lines, limit);
    assert [lines[0]] + rest[..m] == lines[..n] && rest[m..] == lines[n..];
  }

  lemma {:induction false} ChunksAreCut(lines: seq<string>, limit: int) returns (p: seq<nat>)
    ensures CutAt(lines, limit, Chunks(lines, limit), p)
    decreases |lines|
  {
    hide Size, Stretch;
    if lines == [] {
      p := [0];
    } else {
      hide Pack;
      var n := FirstCut(lines, limit);
      StretchGrows(lines, limit, n);
      var q := ChunksAreCut(lines[n..], limit);
      var moved := seq(|q|, k requires 0 <= k < |q| => q[k] + n);
      p := [0] + moved;
      ShiftedCuts(lines, limit, Chunks(lines[n..], limit), q, n, p);
    }
  }

  lemma StretchGrows(lines: seq<string>, limit: int, n: nat)
    requires n <= |lines| && Stretch(lines, limit, lines[..n], 0, n)
    ensures n > 0
  {
  }

  lemma ShiftedCuts(lines: seq<string>, limit: int, rest: seq<seq<string>>, q: seq<nat>, n: nat, p: seq<nat>)
    requires n <= |lines| && Stretch(lines, limit, lines[..n], 0, n) && CutAt(lines[n..], limit, rest, q)
    requires |p| == |q| + 1 && p[0] == 0 && forall k :: 0 <= k < |q| ==> p[k + 1] == q[k] + n
    ensures CutAt(lines, limit, [lines[..n]] + rest, p)
  {
    hide Stretch;
    var chunks := [lines[..n]] + rest;
    forall k | 0 <= k < |chunks|
      ensures Stretch(lines, limit, chunks[k], p[k], p[k + 1])
    {
      if k > 0 {
        ShiftedStretch(lines, limit, rest[k - 1], n, q[k - 1], q[k]);
        assert p[k] == q[k - 1] + n && p[k + 1] == q[k] + n;
      } else {
        assert p[1] == q[0] + n;
      }
    }
  }

  lemma ShiftedStretch(lines: seq<string>, limit: int, chunk: seq<string>, n: nat, i: nat, j: nat)
    requires n <= |lines| && Stretch(lines[n..], limit, chunk, i, j)
    ensures Stretch(lines, limit, chunk, i + n, j + n)
  {
    hide Size;
    assert lines[n..][i..j] == lines[i + n..j + n];
  }

  // ----- what the files hold -----

  lemma {:induction false} TextIs<T>(outputs: seq<T>, dumps: T -> string)
    ensures Flatten(Serialised(outputs, dumps)) == Text(outputs, dumps)
    ensures Size(Serialised(outputs, dumps)) == |Text(outputs, dumps)|
  {
    hide Size;
    var lines := Serialised(outputs, dumps);
    if outputs == [] {
      SizeOfNone();
    } else {
      var first, rest := dumps(outputs[0]) + "\n", Serialised(outputs[1..], dumps);
      TextIs(outputs[1..], dumps);
      assert lines == [first] + rest;
      SizeConcat([first], rest);
      SizeOfOne(first);
    }
  }

  lemma SizeOfNone()
    ensures Size([]) == 0
  {
  }

  lemma SizeOfOne(line: string)
    ensures Size([line]) == |line|
  {
    assert [line][..0] == [];
  }

  /** Four decimal digits. */
  ghost predicate IsNumeral(t: string, n: nat) {
    && |t| == 4 && (forall i :: 0 <= i < 4 ==> '0' <= t[i] <= '9')
    && n == 1000 * (t[0] as int - 48) + 100 * (t[1] as int - 48) + 10 * (t[2] as int - 48) + (t[3] as int - 48)
  }

  ghost predicate IsName(base: string, n: nat, name: string) {
    exists t :: IsNumeral(t, n) && name == base + "_chunk_" + t + ".jsonl.gz"
  }

  lemma DigitCode(d: nat)
    requires d < 10
    ensures '0' <= Digit(d) <= '9' && Digit(d) as int == 48 + d
  {
  }

  lemma Places(n: nat)
    requires n < 10000
    ensures n == 1000 * (n / 1000) + 100 * (n / 100 % 10) + 10 * (n / 10 % 10) + n % 10
  {
    assert n / 100 == n / 10 / 10 && n / 1000 == n / 100 / 10;
  }

  lemma NumeralOf(n: nat)
    requires n < 10000
    ensures IsNumeral(Padded(n), n)
  {
    hide Padded, Digit;
    PaddedDigits(n);
    Places(n);
    DigitCode(n / 1000);
    DigitCode(n / 100 % 10);
    DigitCode(n / 10 % 10);
    DigitCode(n % 10);
  }

  lemma NameExactly(base: string, n: nat)
    requires n < 10000
    ensures IsName(base, n, ChunkName(base, n))
  {
    hide Padded, IsNumeral;
    NumeralOf(n);
    assert ChunkName(base, n) == base + "_chunk_" + Padded(n) + ".jsonl.gz";
  }

  /**
    A file holds the outputs from i to j, one per line, within the limit unless they are
    only one, and the output after them would not have fitted.
  */
  ghost predicate Holds<T>(outputs: seq<T>, dumps: T -> string, limit: int, text: string, i: nat, j: nat) {
    && i < j <= |outputs| && text == Text(outputs[i..j], dumps)
    && (j == i + 1 || |text| <= limit)
    && (j < |outputs| ==> |text| + |dumps(outputs[j])| + 1 > limit)
  }

  /** The files hold stretches of the outputs, one after another, and all of them. */
  ghost predicate HoldAll<T>(outputs: seq<T>, dumps: T -> string, limit: int, after: Files, names: seq<string>,
                             p: seq<nat>) {
    && |p| == |names| + 1 && p[0] == 0 && p[|names|] == |outputs|
    && forall k :: 0 <= k < |names| ==>
         names[k] in after && Holds(outputs, dumps, limit, after[names[k]], p[k], p[k + 1])
  }

  /** Any other file is as it was. */
  ghost predicate OthersKept(before: Files, after: Files, names: seq<string>) {
    && (forall name :: name in after <==> name in before || name in names)
    && forall name :: name in before && name !in names ==> after[name] == before[name]
  }

  ghost predicate Numbered(base: string, names: seq<string>) {
    Distinct(names) && forall k :: 0 <= k < |names| && k < 10000 ==> IsName(base, k, names[k])
  }

  /** What save_outputs leaves, on a limit of chunkSizeMb binary megabytes. */
  lemma SavedExactly<T>(outputs: seq<T>, dumps: T -> string, base: string, chunkSizeMb: int, before: Files)
    returns (p: seq<nat>)
    ensures var chunks := Chunks(Serialised(outputs, dumps), chunkSizeMb * 1048576);
      var after, names := WithChunks(before, base, 0, chunks), Names(base, |chunks|);
      && HoldAll(outputs, dumps, chunkSizeMb * 1024 * 1024, after, names, p)
      && OthersKept(before, after, names) && Numbered(base, names)
  {
    hide Size, WithChunks, Names, Chunks, ChunkName, IsName, Flatten, Serialised, Stretch, Holds, Distinct;
    hide AllowedChunk;
    var lines, limit := Serialised(outputs, dumps), chunkSizeMb * 1048576;
    assert limit == chunkSizeMb * 1024 * 1024;
    var chunks := Chunks(lines, limit);
    p := ChunksAreCut(lines, limit);
    ChunksInPlace(before, base, chunks);
    NamesAre(base, |chunks|);
    NamesDistinct(base, |chunks|);
    SerialisedLength(outputs, dumps);
    ChunksArePartition(lines, limit);
    var after, names := WithChunks(before, base, 0, chunks), Names(base, |chunks|);
    forall k | 0 <= k < |names|
      ensures names[k] in after && Holds(outputs, dumps, limit, after[names[k]], p[k], p[k + 1])
    {
      StretchHeld(outputs, dumps, limit, chunks[k], p[k], p[k + 1]);
    }
    forall k | 0 <= k < |names| && k < 10000
      ensures IsName(base, k, names[k])
    {
      NameExactly(base, k);
    }
  }

  lemma StretchHeld<T>(outputs: seq<T>, dumps: T -> string, limit: int, chunk: seq<string>, i: nat, j: nat)
    requires Stretch(Serialised(outputs, dumps), limit, chunk, i, j) && AllowedChunk(chunk, limit)
    ensures Holds(outputs, dumps, limit, Flatten(chunk), i, j)
  {
    hide Size, Flatten, Text;
    SerialisedLength(outputs, dumps);
    var part := outputs[i..j];
    assert chunk == Serialised(part, dumps);
    TextIs(part, dumps);
  }

  lemma SerialisedLength<T>(outputs: seq<T>, dumps: T -> string)
    ensures |Serialised(outputs, dumps)| == |outputs|
  {
  }

  // ----- reading lines -----

  /** s is the core with nothing but white space around it. */
  ghost predicate Framed(s: string, before: string, core: string, after: string) {
    s == before + core + after && (forall c :: c in before ==> IsSpace(c)) && forall c :: c in after ==> IsSpace(c)
  }

  lemma FramedFirst(s: string, before: string, core: string, after: string)
    requires s != "" && IsSpace(s[0]) && Framed(s[1..], before, core, after)
    ensures Framed(s, [s[0]] + before, core, after)
  {
    hide IsSpace;
    assert s == [s[0]] + s[1..];
  }

  lemma FramedLast(s: string, before: string, core: string, after: string)
    requires s != "" && IsSpace(s[|s| - 1]) && Framed(s[..|s| - 1], before, core, after)
    ensures Framed(s, before, core, after + [s[|s| - 1]])
  {
    hide IsSpace;
    assert s == s[..|s| - 1] + [s[|s| - 1]];
  }

  /** Stripping takes white space off both ends, and nothing else. */
  lemma {:induction false} StripExactly(s: string) returns (before: string, after: string)
    ensures Framed(s, before, Strip(s), after)
    ensures Strip(s) != "" ==> !IsSpace(Strip(s)[0]) && !IsSpace(Strip(s)[|Strip(s)| - 1])
    decreases |s|
  {
    hide IsSpace;
    before, after := "", "";
    if s != "" {
      StripUnfolded(s);
      hide Strip, Framed;
      if IsSpace(s[0]) {
        before, after := StripExactly(s[1..]);
        FramedFirst(s, before, Strip(s), after);
        before := [s[0]] + before;
      } else if IsSpace(s[|s| - 1]) {
        before, after := StripExactly(s[..|s| - 1]);
        FramedLast(s, before, Strip(s), after);
        after := after + [s[|s| - 1]];
      } else {
        NoFrame(s);
      }
    }
  }

  lemma NoFrame(s: string)
    ensures Framed(s, "", s, "")
  {
  }

  lemma StripUnfolded(s: string)
    requires s != ""
    ensures IsSpace(s[0]) ==> Strip(s) == Strip(s[1..])
    ensures !IsSpace(s[0]) && IsSpace(s[|s| - 1]) ==> Strip(s) == Strip(s[..|s| - 1])
    ensures !IsSpace(s[0]) && !IsSpace(s[|s| - 1]) ==> Strip(s) == s
  {
    hide IsSpace;
  }

  /** A line ends at its first break; it is read stripped, or not at all if that leaves nothing. */
  lemma LineRead(line: string, end: char, rest: string)
    requires end in "\n\r" && forall c :: c in line ==> c !in "\n\r"
    ensures ReadLines(line + [end] + rest)
            == (if Strip(line + [end]) == "" then [] else [Strip(line + [end])]) + ReadLines(rest)
  {
    hide Strip;
    var text := line + [end] + rest;
    EndOfLine(line, end, rest);
    assert text[..|line| + 1] == line + [end] && text[|line| + 1..] == rest;
  }

  lemma {:induction false} EndOfLine(line: string, end: char, rest: string)
    requires end in "\n\r" && forall c :: c in line ==> c !in "\n\r"
    ensures LineEnd(line + [end] + rest) == |line| + 1
  {
    var text := line + [end] + rest;
    if line != "" {
      assert line[0] in line && forall c :: c in line[1..] ==> c in line;
      assert text[1..] == line[1..] + [end] + rest;
      EndOfLine(line[1..], end, rest);
    }
  }

  /** A text without a break is one line. */
  lemma LastLine(line: string)
    requires line != "" && forall c :: c in line ==> c !in "\n\r"
    ensures ReadLines(line) == if Strip(line) == "" then [] else [Strip(line)]
  {
    hide Strip;
    NoBreak(line);
    assert line[..|line|] == line && line[|line|..] == "";
  }

  lemma {:induction false} NoBreak(line: string)
    requires forall c :: c in line ==> c !in "\n\r"
    ensures LineEnd(line) == |line|
  {
    if line != "" {
      assert line[0] in line && forall c :: c in line[1..] ==> c in line;
      NoBreak(line[1..]);
    }
  }
}

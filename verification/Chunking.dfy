/** Greedy packing of serialised outputs into chunks (save_outputs of src/kitt/utils/compression.py). */
module Chunking {
  /** Bytes of a stretch of lines; serialised JSON is ASCII, so characters are bytes. */
  function Size(lines: seq<string>): nat {
    if lines == [] then 0 else Size(lines[..|lines| - 1]) + |lines[|lines| - 1]|
  }

  function Flatten<T>(chunks: seq<seq<T>>): seq<T> {
    if chunks == [] then [] else chunks[0] + Flatten(chunks[1..])
  }

  /** The rule every chunk obeys: not empty, and within the limit unless it is a single line. */
  predicate AllowedChunk(c: seq<string>, limit: int) {
    c != [] && (|c| == 1 || Size(c) <= limit)
  }

  ghost predicate Partition(chunks: seq<seq<string>>, lines: seq<string>, limit: int) {
    Flatten(chunks) == lines && forall i :: 0 <= i < |chunks| ==> AllowedChunk(chunks[i], limit)
  }

  /** The packing loop from a partly filled chunk. */
  function Pack(lines: seq<string>, current: seq<string>, limit: int): seq<seq<string>>
    decreases |lines|
  {
    if lines == [] then (if current == [] then [] else [current])
    else if Size(current) + |lines[0]| > limit && current != [] then [current] + Pack(lines[1..], [lines[0]], limit)
    else Pack(lines[1..], current + [lines[0]], limit)
  }

  function Chunks(lines: seq<string>, limit: int): seq<seq<string>> {
    Pack(lines, [], limit)
  }

  // ----- the chunks are a partition -----

  lemma SizeSnoc(lines: seq<string>, x: string)
    ensures Size(lines + [x]) == Size(lines) + |x|
  {
    assert (lines + [x])[..|lines|] == lines;
  }

  lemma {:induction false} SizeConcat(a: seq<string>, b: seq<string>)
    ensures Size(a + b) == Size(a) + Size(b)
  {
    if b == [] {
      assert a + b == a;
    } else {
      assert (a + b)[..|a + b| - 1] == a + b[..|b| - 1];
      SizeConcat(a, b[..|b| - 1]);
    }
  }

  lemma {:induction false} PackIsPartition(lines: seq<string>, current: seq<string>, limit: int)
    requires current != [] ==> AllowedChunk(current, limit)
    ensures Partition(Pack(lines, current, limit), current + lines, limit)
    decreases |lines|
  {
    if lines == [] {
      assert current + lines == current;
      assert Flatten([current]) == current + Flatten([]);
    } else {
      assert current + lines == (current + [lines[0]]) + lines[1..];
      assert [lines[0]] + lines[1..] == lines;
      SizeSnoc(current, lines[0]);
      if Size(current) + |lines[0]| > limit && current != [] {
        PackIsPartition(lines[1..], [lines[0]], limit);
        assert ([current] + Pack(lines[1..], [lines[0]], limit))[1..] == Pack(lines[1..], [lines[0]], limit);
      } else {
        PackIsPartition(lines[1..], current + [lines[0]], limit);
      }
    }
  }

  /** The chunks concatenate to the input, none is empty, and each fits or is a single line. */
  lemma ChunksArePartition(lines: seq<string>, limit: int)
    ensures Partition(Chunks(lines, limit), lines, limit)
  {
    PackIsPartition(lines, [], limit);
    assert [] + lines == lines;
  }

  // ----- no rival partition is shorter -----

  /** How many more lines the current chunk takes. */
  function Taken(lines: seq<string>, current: seq<string>, limit: int): (n: nat)
    ensures n <= |lines|
    decreases |lines|
  {
    if lines == [] || (Size(current) + |lines[0]| > limit && current != []) then 0
    else 1 + Taken(lines[1..], current + [lines[0]], limit)
  }

  lemma {:induction false} PackFirst(lines: seq<string>, current: seq<string>, limit: int)
    requires current != []
    ensures var n := Taken(lines, current, limit);
      Pack(lines, current, limit) == [current + lines[..n]] + Chunks(lines[n..], limit)
    decreases |lines|
  {
    hide Size;
    if lines == [] {
      assert current + lines[..0] == current;
    } else if Size(current) + |lines[0]| > limit {
      assert current + lines[..0] == current && lines[0..] == lines && [] + [lines[0]] == [lines[0]];
    } else {
      var n := Taken(lines[1..], current + [lines[0]], limit);
      PackFirst(lines[1..], current + [lines[0]], limit);
      assert current + [lines[0]] + lines[1..][..n] == current + lines[..n + 1];
      assert lines[1..][n..] == lines[n + 1..];
    }
  }

  /** The greedy chunk reaches at least as far as any stretch that still fits. */
  lemma {:induction false} TakesAllThatFits(lines: seq<string>, current: seq<string>, limit: int, j: nat)
    requires j <= |lines| && (Size(current + lines[..j]) <= limit || (current == [] && j <= 1))
    ensures Taken(lines, current, limit) >= j
    decreases |lines|
  {
    if j > 0 {
      var next := current + [lines[0]];
      assert current + lines[..j] == next + lines[1..][..j - 1];
      SizeSnoc(current, lines[0]);
      SizeConcat(next, lines[1..][..j - 1]);
      if Size(current + lines[..j]) <= limit {
        TakesAllThatFits(lines[1..], next, limit, j - 1);
      }
    }
  }

  /**
    Greedy stays ahead: against a rival that still has `behind` to pack before
    these lines, greedy needs no more chunks for the lines alone.
  */
  lemma {:induction false} GreedyStaysAhead(behind: seq<string>, lines: seq<string>, limit: int,
                                            rival: seq<seq<string>>)
    requires Partition(rival, behind + lines, limit)
    ensures |Chunks(lines, limit)| <= |rival|
    decreases |rival|
  {
    if lines != [] {
      assert rival != [];
      var p, rest := rival[0], Flatten(rival[1..]);
      assert AllowedChunk(p, limit);
      assert p + rest == behind + lines;
      if |p| <= |behind| {
        assert rest == behind[|p|..] + lines by {
          assert (p + rest)[|p|..] == rest && (behind + lines)[|p|..] == behind[|p|..] + lines;
        }
        GreedyStaysAhead(behind[|p|..], lines, limit, rival[1..]);
      } else {
        var j := |p| - |behind|;
        assert p == behind + lines[..j] by {
          assert (p + rest)[..|p|] == p && (behind + lines)[..|p|] == behind + lines[..j];
        }
        var k := FirstChunk(behind, lines, limit, j);
        assert rest == lines[j..k] + lines[k..] by {
          assert (p + rest)[|p|..] == rest && (behind + lines)[|p|..] == lines[j..];
        }
        GreedyStaysAhead(lines[j..k], lines[k..], limit, rival[1..]);
      }
    }
  }

  lemma FirstLine(lines: seq<string>, limit: int)
    requires lines != []
    ensures Chunks(lines, limit) == Pack(lines[1..], [lines[0]], limit)
  {
    assert [] + [lines[0]] == [lines[0]];
  }

  lemma FirstTaken(lines: seq<string>, limit: int)
    requires lines != []
    ensures Taken(lines, [], limit) == 1 + Taken(lines[1..], [lines[0]], limit)
  {
    assert [] + [lines[0]] == [lines[0]];
  }

  /** The first greedy chunk has k >= j lines, and the others pack what follows. */
  lemma FirstChunk(behind: seq<string>, lines: seq<string>, limit: int, j: nat) returns (k: nat)
    requires 0 < j <= |lines| && AllowedChunk(behind + lines[..j], limit)
    ensures j <= k <= |lines|
    ensures Chunks(lines, limit) == [lines[..k]] + Chunks(lines[k..], limit)
  {
    hide Size, Pack, Taken;
    k := Taken(lines, [], limit);
    FirstTaken(lines, limit);
    SizeConcat(behind, lines[..j]);
    assert [] + lines[..j] == lines[..j];
    TakesAllThatFits(lines, [], limit, j);
    FirstLine(lines, limit);
    PackFirst(lines[1..], [lines[0]], limit);
    assert [lines[0]] + lines[1..][..k - 1] == lines[..k] && lines[1..][k - 1..] == lines[k..];
  }

  /** No order-preserving partition that obeys the same rule uses fewer chunks. */
  lemma GreedyIsOptimal(lines: seq<string>, limit: int, rival: seq<seq<string>>)
    requires Partition(rival, lines, limit)
    ensures |Chunks(lines, limit)| <= |rival|
  {
    assert [] + lines == lines;
    GreedyStaysAhead([], lines, limit, rival);
  }
}

/** How the master cuts the input files into one range of bytes per map task. */
module Splitting {
  import opened Seqs
  import opened Text

  /** The lines of a file with their line feeds; the last one may lack it. */
  function Lines(s: string): (r: seq<string>)
    ensures forall i :: 0 <= i < |r| ==> r[i] != []
  {
    if s == [] then []
    else
      var i := Index(s, '\n');
      if i == |s| then [s] else [s[..i + 1]] + Lines(s[i + 1..])
  }

  /** What ReadString('\n') returns. */
  function FirstLine(s: string): (r: string)
    ensures r <= s && (s != [] ==> r != [])
  {
    var i := Index(s, '\n');
    if i == |s| then s else s[..i + 1]
  }

  lemma LinesStep(s: string)
    requires s != []
    ensures Lines(s) == [FirstLine(s)] + Lines(s[|FirstLine(s)|..])
  {
  }

  function Whole(part: string): string {
    part
  }

  function Flatten(parts: seq<string>): string {
    FlatMap(Whole, parts)
  }

  lemma {:induction false} FlattenLines(s: string)
    ensures Flatten(Lines(s)) == s
  {
    if s != [] {
      var line := FirstLine(s);
      var rest := s[|line|..];
      FlattenLines(rest);
      LinesStep(s);
      FlatMapConcat(Whole, [line], Lines(rest));
      FlatMapOne(Whole, line);
    }
  }

  /** The byte at which line `k` starts; for k = the number of lines, the end of the file. */
  function OffsetOf(lines: seq<string>, k: nat): nat
    requires k <= |lines|
  {
    |Flatten(lines[..k])|
  }

  /** The text between two line starts is the lines between them. */
  lemma SliceIsLines(s: string, j: nat, k: nat)
    requires j <= k <= |Lines(s)|
    ensures OffsetOf(Lines(s), j) <= OffsetOf(Lines(s), k) <= |s|
    ensures s[OffsetOf(Lines(s), j)..OffsetOf(Lines(s), k)] == Flatten(Lines(s)[j..k])
  {
    var lines := Lines(s);
    FlattenLines(s);
    FlattenSlices(lines, j, k);
    FlattenSlices(lines, k, |lines|);
    assert lines[..|lines|] == lines;
  }

  /** Where the lines start, when the first one starts at `start`; the end of the last one closes the list. */
  function LineOffsets(lines: seq<string>, start: nat): (r: seq<nat>)
    ensures |r| == |lines| + 1 && r[0] == start
  {
    if lines == [] then [start] else [start] + LineOffsets(lines[1..], start + |lines[0]|)
  }

  lemma {:induction false} LineOffsetsAt(lines: seq<string>, start: nat, k: nat)
    requires k <= |lines|
    ensures LineOffsets(lines, start)[k] == start + OffsetOf(lines, k)
  {
    if k > 0 {
      LineOffsetsAt(lines[1..], start + |lines[0]|, k - 1);
      assert lines[..k][1..] == lines[1..][..k - 1];
    }
  }

  /** What is still to be appended when the loop stands at `cursor`. */
  function OffsetsAfter(s: string, cursor: nat): seq<nat>
    requires cursor <= |s|
  {
    LineOffsets(Lines(s[cursor..]), cursor)[1..]
  }

  lemma OffsetsStep(s: string, cursor: nat)
    requires cursor < |s|
    ensures var next := cursor + |FirstLine(s[cursor..])|;
            cursor < next <= |s| && OffsetsAfter(s, cursor) == [next] + OffsetsAfter(s, next)
  {
    var rest := s[cursor..];
    var line := FirstLine(rest);
    LinesStep(rest);
    assert rest[|line|..] == s[cursor + |line|..];
  }

  lemma AtEndOfFile(s: string, cursor: nat)
    requires cursor <= |s|
    ensures var line := FirstLine(s[cursor..]);
            line == [] || line[|line| - 1] != '\n' ==> cursor + |line| == |s|
    ensures OffsetsAfter(s, |s|) == []
  {
  }

  lemma Regroup(a: seq<nat>, x: nat, b: seq<nat>)
    ensures a + ([x] + b) == (a + [x]) + b
  {
  }

  lemma OffsetsFromStart(s: string)
    ensures [0] + OffsetsAfter(s, 0) == LineOffsets(Lines(s), 0)
  {
    assert s[0..] == s;
  }

  /** The reading loop of fileLineOffsets. */
  method FileLineOffsets(s: string) returns (offsets: seq<nat>)
    ensures offsets == LineOffsets(Lines(s), 0)
  {
    hide OffsetsAfter, LineOffsets, Lines, FirstLine;
    offsets := [0];
    var cursor: nat := 0;
    var eof := false;
    ghost var all := LineOffsets(Lines(s), 0);
    OffsetsFromStart(s);
    while !eof
      invariant cursor <= |s|
      invariant eof ==> cursor == |s|
      invariant offsets + OffsetsAfter(s, cursor) == all
      decreases |s| - cursor, if eof then 0 else 1
    {
      var line := FirstLine(s[cursor..]);
      AtEndOfFile(s, cursor);
      eof := line == [] || line[|line| - 1] != '\n';
      if |line| > 0 {
        OffsetsStep(s, cursor);
        Regroup(offsets, cursor + |line|, OffsetsAfter(s, cursor + |line|));
        cursor := cursor + |line|;
        offsets := offsets + [cursor];
      }
    }
    AtEndOfFile(s, cursor);
    assert offsets + [] == offsets;
  }

  /** partialContent: a fixed buffer, filled as far as the file reaches. */
  function PartialContent(s: string, from: nat, to: nat): (r: string)
    ensures |r| == if to <= from then 0 else to - from
    ensures forall k :: 0 <= k < |r| ==> r[k] == if from + k < |s| then s[from + k] else '\0'
  {
    if to <= from then ""
    else
      var start := if from < |s| then from else |s|;
      var end := if to < |s| then to else |s|;
      s[start..end] + seq((to - from) - (end - start), _ => '\0')
  }

  // ---- the share of each task -------------------------------------------------------------

  function WorkLoad(total: nat, n: nat, i: nat): nat
    requires n >= 1
  {
    total / n + if i < total % n then 1 else 0
  }

  /** The first line of task `i`. */
  function FromLine(total: nat, n: nat, i: nat): nat
    requires n >= 1
  {
    if i == 0 then 0 else FromLine(total, n, i - 1) + WorkLoad(total, n, i - 1)
  }

  lemma {:induction false} FromLineClosed(total: nat, n: nat, i: nat)
    requires n >= 1
    ensures FromLine(total, n, i) == i * (total / n) + if i < total % n then i else total % n
  {
    if i > 0 {
      FromLineClosed(total, n, i - 1);
      assert i * (total / n) == (i - 1) * (total / n) + total / n;
    }
  }

  /** The last task ends at the last line. */
  lemma SharesCoverAll(total: nat, n: nat)
    requires n >= 1
    ensures FromLine(total, n, n) == total
  {
    FromLineClosed(total, n, n);
    assert n * (total / n) + total % n == total;
  }

  lemma {:induction false} FromLineMonotone(total: nat, n: nat, i: nat, j: nat)
    requires n >= 1 && i <= j
    ensures FromLine(total, n, i) <= FromLine(total, n, j)
  {
    if i < j {
      FromLineMonotone(total, n, i, j - 1);
    }
  }

  /** Every task starts and ends within the file. */
  lemma ShareInRange(total: nat, n: nat, i: nat)
    requires n >= 1 && i < n
    ensures FromLine(total, n, i) <= FromLine(total, n, i + 1) <= total
  {
    FromLineMonotone(total, n, i, i + 1);
    FromLineMonotone(total, n, i + 1, n);
    SharesCoverAll(total, n);
  }

  datatype Range = Range(from: nat, to: nat)

  /** The bytes of file `s` that task `i` of `n` is given. */
  function RangeOf(s: string, n: nat, i: nat): Range
    requires i < n
  {
    var lines := Lines(s);
    ShareInRange(|lines|, n, i);
    Range(OffsetOf(lines, FromLine(|lines|, n, i)), OffsetOf(lines, FromLine(|lines|, n, i + 1)))
  }

  /** What task `i` reads of file `s`. */
  function Chunk(s: string, n: nat, i: nat): string
    requires i < n
  {
    PartialContent(s, RangeOf(s, n, i).from, RangeOf(s, n, i).to)
  }

  /** A task reads whole lines: its own share of them, and nothing else. */
  lemma ChunkIsLines(s: string, n: nat, i: nat)
    requires i < n
    ensures var total := |Lines(s)|;
            && FromLine(total, n, i) <= FromLine(total, n, i + 1) <= total
            && RangeOf(s, n, i).from <= RangeOf(s, n, i).to <= |s|
            && Chunk(s, n, i) == Flatten(Lines(s)[FromLine(total, n, i)..FromLine(total, n, i + 1)])
  {
    var total := |Lines(s)|;
    ShareInRange(total, n, i);
    SliceIsLines(s, FromLine(total, n, i), FromLine(total, n, i + 1));
  }

  function Chunks(s: string, n: nat, k: nat): (r: seq<string>)
    requires k <= n
    ensures |r| == k
  {
    seq(k, i requires 0 <= i < k => Chunk(s, n, i))
  }

  lemma {:induction false} ChunksUpTo(s: string, n: nat, k: nat)
    requires k <= n && n >= 1
    ensures FromLine(|Lines(s)|, n, k) <= |Lines(s)|
    ensures Flatten(Chunks(s, n, k)) == Flatten(Lines(s)[..FromLine(|Lines(s)|, n, k)])
  {
    hide Lines, Chunk;
    if k > 0 {
      ChunksUpTo(s, n, k - 1);
      ChunkIsLines(s, n, k - 1);
      var last := Chunk(s, n, k - 1);
      assert Chunks(s, n, k) == Chunks(s, n, k - 1) + [last];
      FlatMapAppend(Whole, Chunks(s, n, k - 1), last);
      FlattenSlices(Lines(s), FromLine(|Lines(s)|, n, k - 1), FromLine(|Lines(s)|, n, k));
    }
  }

  lemma FlattenSlices(lines: seq<string>, from: nat, to: nat)
    requires from <= to <= |lines|
    ensures Flatten(lines[..to]) == Flatten(lines[..from]) + Flatten(lines[from..to])
  {
    FlatMapConcat(Whole, lines[..from], lines[from..to]);
    assert lines[..from] + lines[from..to] == lines[..to];
  }

  /**
   Work splitting loses and repeats nothing: what the tasks read, put together in order, is the
   file; consecutive ranges meet; the first starts at 0, the last ends at the end of the file,
   and no task has more than one line more than another.
   */
  lemma ChunksMakeTheFile(s: string, n: nat)
    requires n >= 1
    ensures Flatten(Chunks(s, n, n)) == s
    ensures RangeOf(s, n, 0).from == 0 && RangeOf(s, n, n - 1).to == |s|
    ensures forall i :: 0 <= i < n - 1 ==> RangeOf(s, n, i).to == RangeOf(s, n, i + 1).from
    ensures forall i, j :: 0 <= i < n && 0 <= j < n ==> WorkLoad(|Lines(s)|, n, i) <= WorkLoad(|Lines(s)|, n, j) + 1
  {
    var lines := Lines(s);
    ChunksUpTo(s, n, n);
    SharesCoverAll(|lines|, n);
    FlattenLines(s);
    assert lines[..|lines|] == lines;
  }

  /** A line but the last ends in its line feed, and no line has one before its end. */
  lemma {:induction false} LineShape(s: string, k: nat)
    requires k < |Lines(s)|
    ensures var line := Lines(s)[k];
            && '\n' !in line[..|line| - 1]
            && (k < |Lines(s)| - 1 ==> line[|line| - 1] == '\n')
  {
    var i := Index(s, '\n');
    if i < |s| && k > 0 {
      LineShape(s[i + 1..], k - 1);
    }
  }
}

/**
 Input text and its records. Each task trims the white space around its own chunk before it
 splits it into lines; this module shows for which texts the records of the chunks are the
 records of the file all the same.
 */
module Input {
  import opened Apps
  import opened Codec
  import opened Seqs
  import opened Splitting
  import opened Text

  function Columns(line: string): (n: nat)
    ensures n >= 1
  {
    |Split(line, '\t')|
  }

  predicate EndsSolid(v: string) {
    v != [] && !IsSpace(v[|v| - 1])
  }

  /** The line counts only if its first column, the row id, is not blank. */
  predicate HasId(line: string) {
    var parts := Split(line, '\t');
    |parts| >= 3 ==> !Blank(parts[0])
  }

  predicate LaterVisible(parts: seq<string>) {
    exists i :: 3 <= i < |parts| && !Blank(parts[i])
  }

  /** The third column, if there is one, is out of reach of a trim from the right. */
  predicate Guarded(line: string) {
    var parts := Split(line, '\t');
    |parts| >= 3 ==> EndsSolid(parts[2]) || LaterVisible(parts)
  }

  predicate Safe(line: string) {
    HasId(line) && Guarded(line)
  }

  ghost predicate EachLine(p: string -> bool, s: string) {
    Each(p, Split(s, '\n'))
  }

  ghost predicate Each(p: string -> bool, lines: seq<string>) {
    forall i :: 0 <= i < |lines| ==> p(lines[i])
  }

  ghost predicate IdText(s: string) {
    EachLine(HasId, s)
  }

  ghost predicate SafeText(s: string) {
    EachLine(Safe, s)
  }

  // ---- trimming ---------------------------------------------------------------------------

  lemma {:induction false} SplitSnoc(s: string, c: char, sep: char)
    requires c != sep
    ensures var r := Split(s, sep); var n := |r| - 1;
            Split(s + [c], sep) == r[..n] + [r[n] + [c]]
  {
    if s == [] {
      assert s + [c] == [c] + [];
      SplitCons(c, [], sep);
    } else {
      var r' := Split(s[1..], sep);
      var n' := |r'| - 1;
      SplitSnoc(s[1..], c, sep);
      SplitCons(s[0], s[1..] + [c], sep);
      assert [s[0]] + (s[1..] + [c]) == s + [c];
      SplitCons(s[0], s[1..], sep);
      assert [s[0]] + s[1..] == s;
      PrependLast(s[0], r', c, sep);
    }
  }

  lemma PrependLast(d: char, r: seq<string>, c: char, sep: char)
    requires |r| >= 1
    ensures var p := Prepend(d, r, sep);
            Prepend(d, r[..|r| - 1] + [r[|r| - 1] + [c]], sep) == p[..|p| - 1] + [p[|p| - 1] + [c]]
  {
    var n := |r| - 1;
    var front, last := r[..n], r[n];
    assert r == front + [last];
    if n > 0 {
      PrependConcat(d, front, [last + [c]], sep);
      PrependConcat(d, front, [last], sep);
    } else if d == sep {
      assert Prepend(d, r, sep) == [[]] + [last];
      assert front + [last + [c]] == [last + [c]];
    } else {
      assert front + [last + [c]] == [last + [c]];
      assert [d] + (last + [c]) == ([d] + last) + [c];
      assert Prepend(d, r, sep) == [[d] + last];
      assert Prepend(d, [last + [c]], sep) == [[d] + (last + [c])];
    }
  }

  /** Dropping white space from a line never adds a column. */
  lemma ColumnsShrink(c: char, line: string)
    ensures Columns(line) <= Columns([c] + line)
    ensures Columns(line) <= Columns(line + [c])
  {
    SplitCons(c, line, '\t');
    if c == '\t' {
      SplitAtSep(line, '\t', []);
      assert line + (['\t'] + []) == line + [c];
    } else {
      SplitSnoc(line, c, '\t');
    }
  }

  /** Dropping a blank before the id changes no other column. */
  lemma LineDropFirst(c: char, line: string)
    requires IsSpace(c) && HasId([c] + line)
    ensures HasId(line) && RecordOf(line) == RecordOf([c] + line)
    ensures Guarded([c] + line) <==> Guarded(line)
  {
    var parts, whole := Split(line, '\t'), Split([c] + line, '\t');
    SplitCons(c, line, '\t');
    if |whole| >= 3 {
      assert c != '\t';
      assert parts[1..] == whole[1..];
      forall i | 1 <= i < |parts| ensures parts[i] == whole[i] {
        assert parts[1..][i - 1] == whole[1..][i - 1];
      }
      assert !Blank(parts[0]) by {
        var i :| 0 <= i < |whole[0]| && !IsSpace(whole[0][i]);
        assert whole[0][i] == parts[0][i - 1];
      }
      hide Blank, EndsSolid;
    } else {
      ColumnsShrink(c, line);
    }
  }

  lemma SplitDropLast(line: string, c: char, sep: char)
    ensures var parts := Split(line, sep);
            Split(line + [c], sep) ==
            if c == sep then parts + [[]] else parts[..|parts| - 1] + [parts[|parts| - 1] + [c]]
  {
    if c == sep {
      SplitAtSep(line, sep, []);
      assert line + ([sep] + []) == line + [c];
    } else {
      SplitSnoc(line, c, sep);
    }
  }

  lemma BlankSnoc(s: string, c: char)
    requires IsSpace(c)
    ensures Blank(s + [c]) <==> Blank(s)
  {
    if Blank(s + [c]) {
      forall i | 0 <= i < |s| ensures IsSpace(s[i]) {
        assert (s + [c])[i] == s[i];
      }
    }
  }

  /** The columns but the last, and whether any later column shows something, stay. */
  lemma ColumnsDropLast(parts: seq<string>, whole: seq<string>, c: char)
    requires IsSpace(c) && |parts| >= 1
    requires whole == if c == '\t' then parts + [[]] else parts[..|parts| - 1] + [parts[|parts| - 1] + [c]]
    ensures LaterVisible(whole) <==> LaterVisible(parts)
    ensures Blank(whole[0]) <==> Blank(parts[0])
  {
    var n := |parts| - 1;
    BlankSnoc(parts[n], c);
    assert Blank([]);
    forall i | 0 <= i <= n ensures Blank(whole[i]) <==> Blank(parts[i]) {
    }
    hide Blank;
  }

  /** Dropping a blank behind a guarded third column changes no record. */
  lemma LineDropLast(line: string, c: char)
    requires IsSpace(c) && Safe(line + [c])
    ensures Safe(line) && RecordOf(line) == RecordOf(line + [c])
  {
    var parts, whole := Split(line, '\t'), Split(line + [c], '\t');
    SplitDropLast(line, c, '\t');
    ColumnsDropLast(parts, whole, c);
    hide Blank, Split;
    if |whole| >= 3 {
      assert |parts| >= 3 && parts[1] == whole[1];
      assert |parts| == 3 ==> whole[2] == parts[2] || LaterVisible(parts);
    }
  }

  lemma DropFirst(c: char, s: string)
    requires IsSpace(c) && IdText([c] + s)
    ensures IdText(s) && TextRecords(s) == TextRecords([c] + s)
    ensures SafeText([c] + s) ==> SafeText(s)
  {
    var r := Split(s, '\n');
    SplitCons(c, s, '\n');
    var whole := Split([c] + s, '\n');
    BlankHasNoRecord();
    hide RecordOf, HasId, Guarded, Split;
    var x := if c == '\n' then [[]] else [[c] + r[0]];
    var y := if c == '\n' then r else r[1..];
    assert whole == x + y;
    if c != '\n' {
      assert whole[0] == [c] + r[0];
      LineDropFirst(c, r[0]);
      FlatMapConcat(RecordOf, [r[0]], r[1..]);
      FlatMapOne(RecordOf, r[0]);
      assert r == [r[0]] + r[1..];
    }
    forall i | 0 <= i < |y| ensures y[i] == whole[i + 1] {
    }
    FlatMapConcat(RecordOf, x, y);
    FlatMapOne(RecordOf, x[0]);
  }

  lemma DropLast(s: string, c: char)
    requires IsSpace(c) && SafeText(s + [c])
    ensures SafeText(s) && TextRecords(s) == TextRecords(s + [c])
  {
    var r := Split(s, '\n');
    var n := |r| - 1;
    var whole := Split(s + [c], '\n');
    SplitDropLast(s, c, '\n');
    BlankHasNoRecord();
    hide RecordOf, Safe, Split;
    if c == '\n' {
      forall i | 0 <= i < |r| ensures Safe(r[i]) {
        assert whole[i] == r[i];
      }
      FlatMapAppend(RecordOf, r, []);
    } else {
      assert whole[n] == r[n] + [c];
      LineDropLast(r[n], c);
      forall i | 0 <= i < n ensures Safe(r[i]) {
        assert whole[i] == r[i];
      }
      FlatMapAppend(RecordOf, r[..n], r[n] + [c]);
      FlatMapAppend(RecordOf, r[..n], r[n]);
      assert r == r[..n] + [r[n]];
    }
  }

  lemma {:induction false} TrimLeftKeeps(s: string)
    requires IdText(s)
    ensures IdText(TrimLeft(s)) && TextRecords(TrimLeft(s)) == TextRecords(s)
    ensures SafeText(s) ==> SafeText(TrimLeft(s))
  {
    if s != [] && IsSpace(s[0]) {
      assert s == [s[0]] + s[1..];
      DropFirst(s[0], s[1..]);
      TrimLeftKeeps(s[1..]);
    }
  }

  lemma {:induction false} TrimRightKeeps(s: string)
    requires SafeText(s)
    ensures SafeText(TrimRight(s)) && TextRecords(TrimRight(s)) == TextRecords(s)
  {
    if s != [] && IsSpace(s[|s| - 1]) {
      var n := |s| - 1;
      assert s == s[..n] + [s[n]];
      DropLast(s[..n], s[n]);
      TrimRightKeeps(s[..n]);
    }
  }

  lemma SafeHasIds(s: string)
    requires SafeText(s)
    ensures IdText(s)
  {
    forall i | 0 <= i < |Split(s, '\n')| ensures HasId(Split(s, '\n')[i]) {
      assert Safe(Split(s, '\n')[i]);
    }
  }

  /** Trimming a text whose counting lines are safe loses and changes no record. */
  lemma TrimKeepsRecords(s: string)
    requires SafeText(s)
    ensures TextRecords(TrimSpace(s)) == TextRecords(s)
  {
    SafeHasIds(s);
    TrimLeftKeeps(s);
    TrimRightKeeps(TrimLeft(s));
  }

  /** A line whose last column is empty counts, except where it ends a chunk. */
  lemma EmptyLastColumnIsLost(id: string, key: string)
    requires IsWord(id) && IsWord(key)
    ensures var line := id + (['\t'] + key) + "\t";
            TextRecords(line + ['\n']) == [KV(key, "")] && TextRecords(TrimSpace(line + ['\n'])) == []
  {
    var two := id + (['\t'] + key);
    ThreeColumns(id, key, "");
    TwoColumns(id, key);
    assert id + (['\t'] + (key + (['\t'] + ""))) == two + "\t";
    assert '\n' !in two;
    OneLine(two + "\t");
    assert two + "\t" + ['\n'] == two + "\t\n";
    TrimTwoAtEnd(two);
    SplitOfPlain(two, '\n');
    FlatMapOne(RecordOf, two);
  }

  lemma TrimTwoAtEnd(s: string)
    requires s != [] && Tight(s)
    ensures TrimSpace(s + "\t\n") == s
  {
    assert (s + "\t\n")[..|s| + 1] == s + "\t" && (s + "\t")[..|s|] == s;
    assert TrimRight(s + "\t\n") == TrimRight(s + "\t");
  }

  lemma OneLine(line: string)
    requires '\n' !in line
    ensures TextRecords(line + ['\n']) == RecordOf(line)
  {
    SplitOfPlain(line, '\n');
    SplitAtSep(line, '\n', []);
    assert line + (['\n'] + []) == line + ['\n'];
    FlatMapAppend(RecordOf, [line], []);
    FlatMapOne(RecordOf, line);
    BlankHasNoRecord();
  }

  lemma TwoColumns(a: string, b: string)
    requires '\t' !in a && '\t' !in b
    ensures RecordOf(a + (['\t'] + b)) == []
  {
    SplitOfPlain(a, '\t');
    SplitOfPlain(b, '\t');
    SplitAtSep(a, '\t', b);
  }

  lemma ThreeColumns(a: string, b: string, c: string)
    requires '\t' !in a && '\t' !in b && '\t' !in c
    ensures RecordOf(a + (['\t'] + (b + (['\t'] + c)))) == [KV(b, c)]
  {
    SplitOfPlain(a, '\t');
    SplitOfPlain(b, '\t');
    SplitOfPlain(c, '\t');
    SplitAtSep(b, '\t', c);
    SplitAtSep(a, '\t', b + (['\t'] + c));
  }

  // ---- records of chunks ------------------------------------------------------------------

  predicate EndsLine(s: string) {
    s == [] || s[|s| - 1] == '\n'
  }

  lemma NoText()
    ensures TextRecords([]) == []
  {
    BlankHasNoRecord();
    FlatMapOne(RecordOf, []);
  }

  /** A text cut at the end of a line. */
  lemma CutAtLine(a: string, b: string)
    requires EndsLine(a) || b == []
    ensures TextRecords(a + b) == TextRecords(a) + TextRecords(b)
  {
    NoText();
    if b == [] {
      assert a + b == a;
    } else if a == [] {
      assert a + b == b;
    } else {
      var a' := a[..|a| - 1];
      CutParts(a', b);
      assert a == a' + ['\n'];
      hide RecordOf;
      FlatMapConcat(RecordOf, Split(a', '\n'), Split(b, '\n'));
      FlatMapAppend(RecordOf, Split(a', '\n'), []);
      BlankHasNoRecord();
    }
  }

  lemma CutParts(a: string, b: string)
    ensures Split(a + ['\n'], '\n') == Split(a, '\n') + [[]]
    ensures Split((a + ['\n']) + b, '\n') == Split(a, '\n') + Split(b, '\n')
  {
    SplitAtSep(a, '\n', []);
    SplitAtSep(a, '\n', b);
    assert a + (['\n'] + []) == a + ['\n'];
    assert a + (['\n'] + b) == (a + ['\n']) + b;
  }

  /** What holds of each line holds so on both sides of the cut. */
  lemma CutEach(p: string -> bool, a: string, b: string)
    requires p([]) && (EndsLine(a) || b == [])
    ensures EachLine(p, a + b) <==> EachLine(p, a) && EachLine(p, b)
  {
    if b == [] {
      assert a + b == a;
    } else if a == [] {
      assert a + b == b;
    } else {
      var a' := a[..|a| - 1];
      CutParts(a', b);
      assert a == a' + ['\n'];
      EachConcat(p, Split(a', '\n'), Split(b, '\n'));
      EachConcat(p, Split(a', '\n'), [[]]);
    }
  }

  lemma EachConcat(p: string -> bool, xs: seq<string>, ys: seq<string>)
    ensures Each(p, xs + ys) <==> Each(p, xs) && Each(p, ys)
  {
    if Each(p, xs + ys) {
      forall i | 0 <= i < |xs| ensures p(xs[i]) {
        assert (xs + ys)[i] == xs[i];
      }
      forall i | 0 <= i < |ys| ensures p(ys[i]) {
        assert (xs + ys)[|xs| + i] == ys[i];
      }
    }
  }

  /** The lines before line `k` end with a line feed unless they are all. */
  lemma FrontEndsLine(s: string, k: nat)
    requires k < |Lines(s)|
    ensures EndsLine(Flatten(Lines(s)[..k]))
  {
    hide Lines;
    if k > 0 {
      var line := Lines(s)[k - 1];
      LineShape(s, k - 1);
      FlatMapAppend(Whole, Lines(s)[..k - 1], line);
      assert Lines(s)[..k] == Lines(s)[..k - 1] + [line];
      NonEmptyLine(s, k - 1);
    }
  }

  lemma NonEmptyLine(s: string, k: nat)
    requires k < |Lines(s)|
    ensures Lines(s)[k] != []
  {
  }

  /** What the map function of task `i` finds in file `s`. */
  function ChunkRecords(n: nat, i: nat): string -> seq<KV> {
    (s: string) => if i < n then TextRecords(TrimSpace(Chunk(s, n, i))) else []
  }

  /** The text before task `k`. */
  function Front(s: string, n: nat, k: nat): string
    requires n >= 1 && k <= n
  {
    ChunksUpTo(s, n, k);
    Flatten(Lines(s)[..FromLine(|Lines(s)|, n, k)])
  }

  lemma FrontStep(s: string, n: nat, k: nat)
    requires k < n
    ensures Front(s, n, k + 1) == Front(s, n, k) + Chunk(s, n, k)
    ensures EndsLine(Front(s, n, k)) || Chunk(s, n, k) == []
  {
    hide Lines, Chunk;
    var lines := Lines(s);
    ChunkIsLines(s, n, k);
    var from, to := FromLine(|lines|, n, k), FromLine(|lines|, n, k + 1);
    FlattenSlices(lines, from, to);
    if from < |lines| {
      FrontEndsLine(s, from);
    } else {
      assert lines[from..to] == [];
    }
  }

  lemma WholeFront(s: string, n: nat)
    requires n >= 1
    ensures Front(s, n, n) == s
  {
    hide Lines;
    SharesCoverAll(|Lines(s)|, n);
    FlattenLines(s);
    assert Lines(s)[..|Lines(s)|] == Lines(s);
  }

  /** What holds of each line of the file holds of each line of a chunk, and the other way round. */
  lemma {:induction false} EachFront(p: string -> bool, s: string, n: nat, k: nat)
    requires n >= 1 && k <= n && p([])
    ensures EachLine(p, Front(s, n, k)) <==> forall i :: 0 <= i < k ==> EachLine(p, Chunk(s, n, i))
  {
    hide EachLine, Chunk, Lines;
    if k == 0 {
      NoLines(p);
    } else {
      EachFront(p, s, n, k - 1);
      FrontStep(s, n, k - 1);
      CutEach(p, Front(s, n, k - 1), Chunk(s, n, k - 1));
    }
  }

  lemma NoLines(p: string -> bool)
    requires p([])
    ensures EachLine(p, [])
  {
  }

  lemma EachChunk(p: string -> bool, s: string, n: nat)
    requires n >= 1 && p([])
    ensures EachLine(p, s) <==> forall i :: 0 <= i < n ==> EachLine(p, Chunk(s, n, i))
  {
    hide EachLine, Chunk, Lines;
    EachFront(p, s, n, n);
    WholeFront(s, n);
  }

  lemma BlankIsSafe()
    ensures Safe([]) && HasId([])
  {
  }

  /** Trimming its chunk costs a task no record. */
  lemma ChunkKeepsRecords(s: string, n: nat, i: nat)
    requires i < n && SafeText(s)
    ensures SafeText(Chunk(s, n, i))
    ensures ChunkRecords(n, i)(s) == TextRecords(Chunk(s, n, i))
  {
    hide EachLine, Chunk, TextRecords, Safe;
    BlankIsSafe();
    EachChunk(Safe, s, n);
    TrimKeepsRecords(Chunk(s, n, i));
  }

  /** What tasks 0..k-1 find in file `s`, in order. */
  function FoundBy(s: string, n: nat, k: nat): seq<KV> {
    if k == 0 then [] else FoundBy(s, n, k - 1) + ChunkRecords(n, k - 1)(s)
  }

  lemma {:induction false} FoundSoFar(s: string, n: nat, k: nat)
    requires n >= 1 && k <= n && SafeText(s)
    ensures FoundBy(s, n, k) == TextRecords(Front(s, n, k))
  {
    hide SafeText, Chunk, TextRecords, Lines, ChunkRecords;
    if k == 0 {
      NoText();
    } else {
      FoundSoFar(s, n, k - 1);
      FrontStep(s, n, k - 1);
      CutAtLine(Front(s, n, k - 1), Chunk(s, n, k - 1));
      ChunkKeepsRecords(s, n, k - 1);
    }
  }

  /** Whatever the number of tasks, together they find the records of the file, in order. */
  lemma TasksFindAllRecords(s: string, n: nat)
    requires n >= 1 && SafeText(s)
    ensures FoundBy(s, n, n) == TextRecords(s)
  {
    FoundSoFar(s, n, n);
    WholeFront(s, n);
  }

  // ---- the exact condition ----------------------------------------------------------------

  /** A third column that nothing guards loses its end, or the line falls short of three columns. */
  lemma {:induction false} UnguardedIsCut(line: string)
    requires Columns(line) >= 3 && !Guarded(line)
    ensures var r := RecordOf(TrimRight(line));
            r == [] || |r[0].value| < |Split(line, '\t')[2]|
  {
    var n := |line| - 1;
    assert line == line[..n] + [line[n]];
    var parts, whole := Split(line[..n], '\t'), Split(line, '\t');
    SplitDropLast(line[..n], line[n], '\t');
    UnguardedEndsBlank(parts, whole, line[n]);
    assert TrimRight(line) == TrimRight(line[..n]);
    if |parts| < 3 {
      ColumnsAfterTrim(line[..n]);
    } else {
      ColumnsDropLast(parts, whole, line[n]);
      if Guarded(line[..n]) {
        LastColumnEnds(line[..n]);
      } else {
        UnguardedIsCut(line[..n]);
      }
    }
  }

  /** A line ends as its last column does. */
  lemma LastColumnEnds(line: string)
    requires EndsSolid(Split(line, '\t')[Columns(line) - 1])
    ensures TrimRight(line) == line
  {
    if line != [] {
      var n := |line| - 1;
      SplitDropLast(line[..n], line[n], '\t');
      assert line == line[..n] + [line[n]];
    }
  }

  /** The last character of such a line is a blank, and dropping it does not lengthen the third column. */
  lemma UnguardedEndsBlank(parts: seq<string>, whole: seq<string>, c: char)
    requires |whole| >= 3 && |parts| >= 1 && !EndsSolid(whole[2]) && !LaterVisible(whole)
    requires whole == if c == '\t' then parts + [[]] else parts[..|parts| - 1] + [parts[|parts| - 1] + [c]]
    ensures IsSpace(c)
    ensures |parts| >= 3 ==> |parts[2]| <= |whole[2]|
    ensures |parts| >= 3 && EndsSolid(parts[2]) ==> |parts| == 3 && |parts[2]| < |whole[2]|
  {
    var n := |whole| - 1;
    if c != '\t' {
      var last := whole[n];
      assert last[|last| - 1] == c;
      if n >= 3 {
        assert Blank(last);
      }
    }
  }

  lemma {:induction false} ColumnsAfterTrim(line: string)
    ensures Columns(TrimRight(line)) <= Columns(line)
  {
    hide Columns;
    if line != [] && IsSpace(line[|line| - 1]) {
      var n := |line| - 1;
      ColumnsShrink(line[n], line[..n]);
      assert line == line[..n] + [line[n]];
      ColumnsAfterTrim(line[..n]);
    }
  }

  lemma {:induction false} LineTrimLeft(line: string)
    requires HasId(line)
    ensures HasId(TrimLeft(line)) && RecordOf(TrimLeft(line)) == RecordOf(line)
    ensures Guarded(TrimLeft(line)) <==> Guarded(line)
  {
    hide HasId, Guarded, RecordOf;
    if line != [] && IsSpace(line[0]) {
      assert line == [line[0]] + line[1..];
      LineDropFirst(line[0], line[1..]);
      LineTrimLeft(line[1..]);
    }
  }

  lemma {:induction false} LineTrimRight(line: string)
    requires Safe(line)
    ensures RecordOf(TrimRight(line)) == RecordOf(line)
  {
    hide Safe, RecordOf;
    if line != [] && IsSpace(line[|line| - 1]) {
      var n := |line| - 1;
      assert line == line[..n] + [line[n]];
      LineDropLast(line[..n], line[n]);
      LineTrimRight(line[..n]);
    }
  }

  /** Trimming a line keeps its record if and only if the third column is guarded. */
  lemma LineKeptIffGuarded(line: string)
    requires HasId(line)
    ensures RecordOf(TrimSpace(line)) == RecordOf(line) <==> Guarded(line)
  {
    var t := TrimLeft(line);
    LineTrimLeft(line);
    if Guarded(t) {
      LineTrimRight(t);
    } else {
      UnguardedIsCut(t);
    }
  }

  /** For a row as the sources export it: its record survives a trim if and only if its metric ends visibly. */
  lemma ExportedRowKeptIff(id: string, key: string, metric: string)
    requires IsWord(id) && '\t' !in key && '\t' !in metric
    ensures var row := id + (['\t'] + (key + (['\t'] + metric)));
            RecordOf(TrimSpace(row)) == RecordOf(row) <==> EndsSolid(metric)
  {
    var row := id + (['\t'] + (key + (['\t'] + metric)));
    SplitOfPlain(id, '\t');
    SplitOfPlain(key, '\t');
    SplitOfPlain(metric, '\t');
    SplitAtSep(key, '\t', metric);
    SplitAtSep(id, '\t', key + (['\t'] + metric));
    assert Split(row, '\t') == [id] + ([key] + [metric]) == [id, key, metric];
    assert !Blank(id) by {
      assert !IsSpace(id[0]);
    }
    hide RecordOf, TrimSpace, Split, Blank;
    LineKeptIffGuarded(row);
  }

  // ---- from lines to files ----------------------------------------------------------------

  lemma {:induction false} TrimAddsNoRecord(s: string)
    ensures |TextRecords(TrimLeft(s))| <= |TextRecords(s)|
    ensures |TextRecords(TrimRight(s))| <= |TextRecords(s)|
    decreases |s|
  {
    hide TextRecords;
    if s != [] {
      var n := |s| - 1;
      assert s == s[..n] + [s[n]] && s == [s[0]] + s[1..];
      FewerWithoutFirst(s[0], s[1..]);
      FewerWithoutLast(s[..n], s[n]);
      TrimAddsNoRecord(s[1..]);
      TrimAddsNoRecord(s[..n]);
    }
  }

  lemma RecordsByColumns(line: string)
    ensures |RecordOf(line)| == if Columns(line) >= 3 then 1 else 0
  {
  }

  lemma FewerInLine(c: char, line: string)
    ensures |RecordOf(line)| <= |RecordOf([c] + line)|
    ensures |RecordOf(line)| <= |RecordOf(line + [c])|
  {
    hide RecordOf;
    ColumnsShrink(c, line);
    RecordsByColumns(line);
    RecordsByColumns([c] + line);
    RecordsByColumns(line + [c]);
  }

  lemma FewerWithoutFirst(c: char, s: string)
    ensures |TextRecords(s)| <= |TextRecords([c] + s)|
  {
    var r := Split(s, '\n');
    SplitCons(c, s, '\n');
    hide RecordOf, Split;
    if c == '\n' {
      FlatMapConcat(RecordOf, [[]], r);
    } else {
      FewerInLine(c, r[0]);
      FlatMapConcat(RecordOf, [r[0]], r[1..]);
      FlatMapConcat(RecordOf, [[c] + r[0]], r[1..]);
      FlatMapOne(RecordOf, r[0]);
      FlatMapOne(RecordOf, [c] + r[0]);
      assert r == [r[0]] + r[1..];
    }
  }

  lemma FewerWithoutLast(s: string, c: char)
    ensures |TextRecords(s)| <= |TextRecords(s + [c])|
  {
    var r := Split(s, '\n');
    var n := |r| - 1;
    SplitDropLast(s, c, '\n');
    hide RecordOf, Split;
    if c == '\n' {
      FlatMapAppend(RecordOf, r, []);
    } else {
      FewerInLine(c, r[n]);
      FlatMapAppend(RecordOf, r[..n], r[n]);
      FlatMapAppend(RecordOf, r[..n], r[n] + [c]);
      assert r == r[..n] + [r[n]];
    }
  }

  lemma ChunkRecordsAre(s: string, n: nat, i: nat)
    requires i < n
    ensures ChunkRecords(n, i)(s) == TextRecords(TrimSpace(Chunk(s, n, i)))
  {
  }

  lemma {:induction false} NeverMoreFound(s: string, n: nat, k: nat)
    requires n >= 1 && k <= n
    ensures |FoundBy(s, n, k)| <= |TextRecords(Front(s, n, k))|
  {
    hide Chunk, TextRecords, Lines, TrimSpace, ChunkRecords;
    if k > 0 {
      NeverMoreFound(s, n, k - 1);
      FrontStep(s, n, k - 1);
      CutAtLine(Front(s, n, k - 1), Chunk(s, n, k - 1));
      ChunkRecordsAre(s, n, k - 1);
      TrimmedHasFewer(Chunk(s, n, k - 1));
    }
  }

  /** When all records are found, each task finds those of its own chunk. */
  lemma {:induction false} EachTaskFindsItsOwn(s: string, n: nat, k: nat, i: nat)
    requires i < k <= n && FoundBy(s, n, k) == TextRecords(Front(s, n, k))
    ensures TextRecords(TrimSpace(Chunk(s, n, i))) == TextRecords(Chunk(s, n, i))
  {
    hide Chunk, TextRecords, Lines, TrimSpace, ChunkRecords;
    var c := Chunk(s, n, k - 1);
    ChunkRecordsAre(s, n, k - 1);
    var a, b := FoundBy(s, n, k - 1), TextRecords(Front(s, n, k - 1));
    FrontStep(s, n, k - 1);
    CutAtLine(Front(s, n, k - 1), c);
    NeverMoreFound(s, n, k - 1);
    TrimmedHasFewer(c);
    SameHalves(a, TextRecords(TrimSpace(c)), b, TextRecords(c));
    if i < k - 1 {
      EachTaskFindsItsOwn(s, n, k - 1, i);
    }
  }

  lemma TrimmedHasFewer(c: string)
    ensures |TextRecords(TrimSpace(c))| <= |TextRecords(c)|
  {
    TrimAddsNoRecord(c);
    TrimAddsNoRecord(TrimLeft(c));
  }

  lemma SameHalves(a: seq<KV>, x: seq<KV>, b: seq<KV>, y: seq<KV>)
    requires a + x == b + y && |a| <= |b| && |x| <= |y|
    ensures a == b && x == y
  {
    assert |a + x| == |b + y|;
    assert (a + x)[..|a|] == a && (b + y)[..|b|] == b;
    assert (a + x)[|a|..] == x && (b + y)[|b|..] == y;
  }

  /** With as many tasks as lines, each task has one line. */
  lemma OneLineEach(s: string, i: nat)
    requires i < |Lines(s)|
    ensures Chunk(s, |Lines(s)|, i) == Lines(s)[i]
  {
    hide Lines, Chunk;
    var n := |Lines(s)|;
    ChunkIsLines(s, n, i);
    FromLineClosed(n, n, i);
    FromLineClosed(n, n, i + 1);
    assert n / n == 1 && n % n == 0;
    assert Lines(s)[i..i + 1] == [Lines(s)[i]];
    FlatMapOne(Whole, Lines(s)[i]);
  }

  lemma {:induction false} TrimOfLine(body: string)
    ensures TrimSpace(body + ['\n']) == TrimSpace(body)
  {
    assert (body + ['\n'])[..|body|] == body;
    if body == [] {
      assert body + ['\n'] == ['\n'];
    } else if IsSpace(body[0]) {
      assert (body + ['\n'])[1..] == body[1..] + ['\n'];
      TrimOfLine(body[1..]);
    } else {
      assert TrimRight(body + ['\n']) == TrimRight(body);
    }
  }

  lemma TrimHasNoMore(body: string, c: char)
    requires c !in body
    ensures c !in TrimSpace(body)
  {
    var t := TrimLeft(body);
    assert c !in t;
    assert c !in TrimRight(t);
  }

  lemma OneLineText(line: string, body: string)
    requires '\n' !in body && (line == body || line == body + ['\n'])
    ensures TextRecords(line) == RecordOf(body) && TrimSpace(line) == TrimSpace(body)
    ensures Split(line, '\n') == [body] || Split(line, '\n') == [body] + [[]]
  {
    SplitOfPlain(body, '\n');
    hide RecordOf, TrimSpace;
    if line == body {
      FlatMapOne(RecordOf, body);
    } else {
      CutParts(body, []);
      TrimOfLine(body);
      OneLine(body);
    }
  }

  /** For the text of one line, with or without its line feed. */
  lemma LineTextKeptIffSafe(line: string)
    requires line != [] && '\n' !in line[..|line| - 1] && IdText(line)
    ensures TextRecords(TrimSpace(line)) == TextRecords(line) <==> SafeText(line)
  {
    hide RecordOf, TrimSpace, Guarded, HasId;
    var n := |line| - 1;
    var body := if line[n] == '\n' then line[..n] else line;
    assert line == line[..n] + [line[n]];
    assert '\n' !in body;
    OneLineText(line, body);
    TrimHasNoMore(body, '\n');
    OneLineText(TrimSpace(body), TrimSpace(body));
    assert Split(line, '\n')[0] == body;
    LineKeptIffGuarded(body);
    SafeLineText(line, body);
  }

  lemma SafeLineText(line: string, body: string)
    requires Split(line, '\n') == [body] || Split(line, '\n') == [body] + [[]]
    ensures SafeText(line) <==> Safe(body)
  {
    hide Safe, Split;
    BlankIsSafe();
    EachConcat(Safe, [body], [[]]);
    assert Each(Safe, [body]) <==> Safe(body) by {
      assert [body][0] == body;
    }
    assert Each(Safe, [[]]);
  }

  lemma SomeLine(s: string)
    requires s != []
    ensures |Lines(s)| >= 1
  {
  }

  lemma FindingAllMeansSafe(s: string)
    requires IdText(s) && |Lines(s)| >= 1 && FoundBy(s, |Lines(s)|, |Lines(s)|) == TextRecords(s)
    ensures SafeText(s)
  {
    hide EachLine, Lines, Chunk, TextRecords, TrimSpace, Safe, HasId, FoundBy, Front;
    var n := |Lines(s)|;
    BlankIsSafe();
    WholeFront(s, n);
    EachChunk(HasId, s, n);
    forall i | 0 <= i < n ensures SafeText(Chunk(s, n, i)) {
      EachTaskFindsItsOwn(s, n, n, i);
      OneLineEach(s, i);
      LineShape(s, i);
      NonEmptyLine(s, i);
      LineTextKeptIffSafe(Lines(s)[i]);
    }
    EachChunk(Safe, s, n);
  }

  /** `n` tasks find exactly the records of the text, in order. */
  ghost predicate AllFound(s: string, n: nat) {
    FoundBy(s, n, n) == TextRecords(s)
  }

  lemma SafeIsFound(s: string, n: nat)
    requires n >= 1 && SafeText(s)
    ensures AllFound(s, n)
  {
    TasksFindAllRecords(s, n);
  }

  lemma FoundIsSafe(s: string)
    requires IdText(s) && forall n: nat :: n >= 1 ==> AllFound(s, n)
    ensures SafeText(s)
  {
    hide Safe, Lines, FoundBy, TextRecords;
    if s == [] {
      BlankIsSafe();
      NoLines(Safe);
    } else {
      SomeLine(s);
      assert AllFound(s, |Lines(s)|);
      FindingAllMeansSafe(s);
    }
  }

  /**
   For a text whose counting lines have an id: every number of tasks finds exactly the records of
   the text, in order, if and only if the third column of every counting line is guarded.
   */
  lemma AllSplitsFindAllIffSafe(s: string)
    requires IdText(s)
    ensures (forall n: nat :: n >= 1 ==> AllFound(s, n)) <==> SafeText(s)
  {
    hide AllFound, EachLine;
    if SafeText(s) {
      forall n: nat | n >= 1 ensures AllFound(s, n) {
        SafeIsFound(s, n);
      }
    } else if forall n: nat :: n >= 1 ==> AllFound(s, n) {
      FoundIsSafe(s);
    }
  }

  lemma TrimOfTab(s: string)
    requires s != [] && Tight(s)
    ensures TrimSpace(['\t'] + s) == s
  {
    assert (['\t'] + s)[1..] == s;
    assert TrimLeft(['\t'] + s) == TrimLeft(s) == s;
  }

  /** A line whose first column is blank is read with its columns shifted when it begins a chunk. */
  lemma BlankIdShiftsColumns(key: string, v: string, w: string)
    requires IsWord(key) && IsWord(v) && IsWord(w)
    ensures var rest := key + (['\t'] + (v + (['\t'] + w)));
            RecordOf(['\t'] + rest) == [KV(key, v)] && RecordOf(TrimSpace(['\t'] + rest)) == [KV(v, w)]
  {
    var rest := key + (['\t'] + (v + (['\t'] + w)));
    ThreeColumns(key, v, w);
    SplitOfPlain(key, '\t');
    SplitOfPlain(v, '\t');
    SplitOfPlain(w, '\t');
    SplitAtSep(v, '\t', w);
    SplitAtSep(key, '\t', v + (['\t'] + w));
    SplitCons('\t', rest, '\t');
    assert rest[0] == key[0] && rest[|rest| - 1] == w[|w| - 1];
    TrimOfTab(rest);
  }
}

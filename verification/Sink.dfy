/** The two sinks: how MySQL and Redis import the reduce outputs. */
module Sink {
  import opened Codec
  import opened Seqs
  import opened Text

  // ---- reading the output files -----------------------------------------------------------

  function DropCR(line: string): string {
    if line != [] && line[|line| - 1] == '\r' then line[..|line| - 1] else line
  }

  /** The tokens of bufio.ScanLines. */
  function ScanLines(s: string): (r: seq<string>) {
    var parts := Split(s, '\n');
    var n := if parts[|parts| - 1] == [] then |parts| - 1 else |parts|;
    seq(n, i requires 0 <= i < n => DropCR(parts[i]))
  }

  /** One carriage return at the end is taken off. */
  lemma DropCRIs(line: string)
    ensures DropCR(line + ['\r']) == line
    ensures line == [] || line[|line| - 1] != '\r' ==> DropCR(line) == line
  {
  }

  function WithoutCR(lines: seq<string>): (r: seq<string>)
    ensures |r| == |lines|
  {
    seq(|lines|, i requires 0 <= i < |lines| => DropCR(lines[i]))
  }

  lemma ScanOfParts(s: string, parts: seq<string>)
    requires parts != [] && Split(s, '\n') == parts
    ensures parts[|parts| - 1] == [] ==> ScanLines(s) == WithoutCR(parts[..|parts| - 1])
    ensures parts[|parts| - 1] != [] ==> ScanLines(s) == WithoutCR(parts)
  {
    hide Split, DropCR;
  }

  /** The lines between line feeds; a line feed at the end of the text opens no further line. */
  lemma ScanLinesAre(lines: seq<string>)
    requires lines != [] && forall i :: 0 <= i < |lines| ==> '\n' !in lines[i]
    ensures ScanLines(Join(lines, '\n') + ['\n']) == WithoutCR(lines)
    ensures lines[|lines| - 1] != [] ==> ScanLines(Join(lines, '\n')) == WithoutCR(lines)
  {
    hide Split, Join, ScanLines, WithoutCR;
    var s := Join(lines, '\n');
    SplitJoin(lines, '\n');
    ScanOfParts(s, lines);
    SplitAtSep(s, '\n', []);
    SplitOfPlain([], '\n');
    assert s + (['\n'] + []) == s + ['\n'];
    ScanOfParts(s + ['\n'], lines + [[]]);
    assert (lines + [[]])[..|lines|] == lines;
  }

  /** The first two fields of a line that has two. */
  function PairOf(line: string): (r: seq<KV>)
    ensures |r| <= 1
  {
    var fields := Fields(TrimSpace(line));
    if |fields| < 2 then [] else [KV(fields[0], fields[1])]
  }

  function FilePairs(s: string): seq<KV> {
    FlatMap(PairOf, ScanLines(s))
  }

  function AllPairs(files: seq<string>): seq<KV> {
    FlatMap(FilePairs, files)
  }

  // ---- MySQL ------------------------------------------------------------------------------

  datatype Row = Row(key: string, value: int)

  function RowOf(kv: KV): (r: seq<Row>)
    ensures |r| <= 1
  {
    match Atoi(kv.value) case None => [] case Some(v) => [Row(kv.key, v)]
  }

  /** The row of a pair whose value is a numeral for an int64; none for any other value. */
  lemma RowOfIff(kv: KV, v: int)
    ensures RowOf(kv) == [Row(kv.key, v)] <==> IsInt64(v) && Denotes(kv.value, v)
    ensures RowOf(kv) == [] <==> forall m :: IsInt64(m) ==> !Denotes(kv.value, m)
  {
    hide Atoi, Denotes;
    AtoiIffDenotes(kv.value, v);
    var a := Atoi(kv.value);
    if a.Some? {
      AtoiIffDenotes(kv.value, a.value);
    } else {
      forall m ensures !(IsInt64(m) && Denotes(kv.value, m)) {
        AtoiIffDenotes(kv.value, m);
      }
    }
  }

  function RowsOf(pairs: seq<KV>): seq<Row> {
    FlatMap(RowOf, pairs)
  }

  function LineRows(line: string): (r: seq<Row>)
    ensures |r| <= 1
  {
    var pair := PairOf(line);
    if pair == [] then [] else RowOf(pair[0])
  }

  function WholeBatch(b: seq<Row>): seq<Row> {
    b
  }

  /** The batches so far are full; together with the open one they hold `rows`. */
  ghost predicate Batching(batches: seq<seq<Row>>, batch: seq<Row>, batchSize: nat, rows: seq<Row>) {
    && (forall i :: 0 <= i < |batches| ==> |batches[i]| == batchSize)
    && |batch| < batchSize
    && FlatMap(WholeBatch, batches) + batch == rows
  }

  lemma BatchingStep(batches: seq<seq<Row>>, batch: seq<Row>, batchSize: nat, rows: seq<Row>, x: Row)
    requires Batching(batches, batch, batchSize, rows)
    ensures |batch| + 1 < batchSize ==> Batching(batches, batch + [x], batchSize, rows + [x])
    ensures |batch| + 1 == batchSize ==> Batching(batches + [batch + [x]], [], batchSize, rows + [x])
  {
    FlatMapAppend(WholeBatch, batches, batch + [x]);
    assert FlatMap(WholeBatch, batches) + (batch + [x]) == (FlatMap(WholeBatch, batches) + batch) + [x];
  }

  /** One file of loadReduceFilesIntoStage: its lines go on filling the open batch. */
  method LoadFile(text: string, batchSize: nat, batches: seq<seq<Row>>, batch: seq<Row>, ghost rows: seq<Row>)
    returns (batches': seq<seq<Row>>, batch': seq<Row>)
    requires batchSize >= 1 && Batching(batches, batch, batchSize, rows)
    ensures Batching(batches', batch', batchSize, rows + FlatMap(LineRows, ScanLines(text)))
  {
    hide LineRows, PairOf, RowOf, ScanLines;
    var lines := ScanLines(text);
    batches', batch' := batches, batch;
    assert rows + [] == rows;
    for i := 0 to |lines|
      invariant Batching(batches', batch', batchSize, rows + FlatMap(LineRows, lines[..i]))
    {
      FlatMapNext(LineRows, lines, i);
      var row := ParseLine(lines[i]);
      if row.None? {
        continue;
      }
      ghost var soFar := rows + FlatMap(LineRows, lines[..i]);
      BatchingStep(batches', batch', batchSize, soFar, row.value);
      assert soFar + [row.value] == rows + (FlatMap(LineRows, lines[..i]) + [row.value]);
      batch' := batch' + [row.value];
      if |batch'| >= batchSize {
        batches' := batches' + [batch'];
        batch' := [];
      }
    }
    assert lines[..|lines|] == lines;
  }

  method ParseLine(line: string) returns (row: Option<Row>)
    ensures LineRows(line) == if row.Some? then [row.value] else []
  {
    var trimmed := TrimSpace(line);
    if trimmed == "" {
      return None;
    }
    var fields := Fields(trimmed);
    if |fields| < 2 {
      return None;
    }
    var v := Atoi(fields[1]);
    if v.None? {
      return None;
    }
    return Some(Row(fields[0], v.value));
  }

  function FileRows(text: string): seq<Row> {
    FlatMap(LineRows, ScanLines(text))
  }

  /**
   loadReduceFilesIntoStage. The flushed batches are the rows of all files in order, across
   file borders; none is empty or too long, and all but the last are full.
   */
  method LoadReduceFiles(files: seq<string>, batchSize: nat) returns (batches: seq<seq<Row>>)
    requires batchSize >= 1
    ensures FlatMap(WholeBatch, batches) == FlatMap(FileRows, files)
    ensures forall i :: 0 <= i < |batches| ==> 1 <= |batches[i]| <= batchSize
    ensures forall i :: 0 <= i < |batches| - 1 ==> |batches[i]| == batchSize
  {
    hide LineRows, ScanLines;
    batches := [];
    var batch: seq<Row> := [];
    for i := 0 to |files|
      invariant Batching(batches, batch, batchSize, FlatMap(FileRows, files[..i]))
    {
      FlatMapNext(FileRows, files, i);
      batches, batch := LoadFile(files[i], batchSize, batches, batch, FlatMap(FileRows, files[..i]));
    }
    assert files[..|files|] == files;
    if |batch| > 0 {
      FlatMapAppend(WholeBatch, batches, batch);
      batches := batches + [batch];
    } else {
      assert FlatMap(WholeBatch, batches) + batch == FlatMap(WholeBatch, batches);
    }
  }

  lemma {:induction false} LineRowsAreRows(lines: seq<string>)
    ensures FlatMap(LineRows, lines) == RowsOf(FlatMap(PairOf, lines))
  {
    hide PairOf, RowOf;
    if lines != [] {
      LineRowsAreRows(lines[1..]);
      var pair := PairOf(lines[0]);
      FlatMapConcat(RowOf, pair, FlatMap(PairOf, lines[1..]));
      if pair != [] {
        assert pair == [pair[0]];
        FlatMapOne(RowOf, pair[0]);
      }
    }
  }

  /** What MySQL stages is what its parser makes of the pairs that Redis stores. */
  lemma {:induction false} StagedRows(files: seq<string>)
    ensures FlatMap(FileRows, files) == RowsOf(AllPairs(files))
  {
    hide LineRows, ScanLines;
    if files != [] {
      StagedRows(files[1..]);
      LineRowsAreRows(ScanLines(files[0]));
      FlatMapConcat(RowOf, FilePairs(files[0]), AllPairs(files[1..]));
    }
  }

  function RowKeys(rows: seq<Row>): set<string> {
    set i | 0 <= i < |rows| :: rows[i].key
  }

  function ValueIn(k: string): Row -> int {
    (r: Row) => if r.key == k then r.value else 0
  }

  /** SELECT key, SUM(value) ... GROUP BY key */
  function GroupSum(rows: seq<Row>): map<string, int> {
    map k | k in RowKeys(rows) :: Sum(ValueIn(k), rows)
  }

  /** Row by row: the value is added to the sum of its key, which is 0 before its first row. */
  lemma GroupSumNext(rows: seq<Row>, x: Row, k: string)
    ensures GroupSum([]) == map[]
    ensures var before, after := GroupSum(rows), GroupSum(rows + [x]);
            && (k in after <==> k in before || k == x.key)
            && (k in after ==> after[k] == (if k in before then before[k] else 0) + if k == x.key then x.value else 0)
  {
    SumAppend(ValueIn(k), rows, x);
    RowKeysNext(rows, x);
    if k !in RowKeys(rows) {
      AbsentSum(rows, k);
    }
  }

  lemma RowKeysNext(rows: seq<Row>, x: Row)
    ensures RowKeys(rows + [x]) == RowKeys(rows) + {x.key}
  {
    var more := rows + [x];
    assert more[|rows|].key == x.key;
    forall i | 0 <= i < |rows| ensures rows[i].key in RowKeys(more) {
      assert more[i] == rows[i];
    }
  }

  lemma AbsentSum(rows: seq<Row>, k: string)
    requires k !in RowKeys(rows)
    ensures Sum(ValueIn(k), rows) == 0
  {
    forall i | 0 <= i < |rows| ensures ValueIn(k)(rows[i]) == 0 {
      assert rows[i].key in RowKeys(rows);
    }
    SumBounds(ValueIn(k), rows, 0);
  }

  /** The target table after an import; an upsert overwrites. */
  function Import(table: map<string, int>, replace: bool, rows: seq<Row>): map<string, int> {
    (if replace then map[] else table) + GroupSum(rows)
  }

  /** Importing the same outputs again changes nothing, with or without Replace. */
  lemma ImportTwice(table: map<string, int>, replace: bool, rows: seq<Row>)
    ensures Import(Import(table, replace, rows), replace, rows) == Import(table, replace, rows)
  {
  }

  ghost predicate DistinctKeys(rows: seq<Row>) {
    forall i, j :: 0 <= i < j < |rows| ==> rows[i].key != rows[j].key
  }

  /** When each key has one row, the grouped sum of a key is the value of that row. */
  lemma GroupSumOfOne(rows: seq<Row>, i: nat)
    requires DistinctKeys(rows) && i < |rows|
    ensures rows[i].key in GroupSum(rows) && GroupSum(rows)[rows[i].key] == rows[i].value
  {
    var k := rows[i].key;
    var rest := rows[..i] + rows[i + 1..];
    SumWithout(ValueIn(k), rows, i);
    SumBounds(ValueIn(k), rest, 0);
  }

  // ---- Redis ------------------------------------------------------------------------------

  /** HSET of one field, one after the other: the last writer of a key wins. */
  function ApplyWrites(db: map<string, string>, prefix: string, pairs: seq<KV>): map<string, string>
    decreases |pairs|
  {
    if pairs == [] then db
    else ApplyWrites(db[prefix + pairs[0].key := pairs[0].value], prefix, pairs[1..])
  }

  function WithoutPrefix(db: map<string, string>, prefix: string): map<string, string> {
    map k | k in db && !(prefix <= k) :: db[k]
  }

  /** The hash field of every key under the prefix after an import. */
  function RedisImport(db: map<string, string>, prefix: string, replace: bool, pairs: seq<KV>): map<string, string> {
    ApplyWrites(if replace then WithoutPrefix(db, prefix) else db, prefix, pairs)
  }

  lemma {:induction false} ApplyConcat(db: map<string, string>, prefix: string, a: seq<KV>, b: seq<KV>)
    ensures ApplyWrites(db, prefix, a + b) == ApplyWrites(ApplyWrites(db, prefix, a), prefix, b)
    decreases |a|
  {
    if a == [] {
      assert a + b == b;
    } else {
      ApplyConcat(db[prefix + a[0].key := a[0].value], prefix, a[1..], b);
      assert (a + b)[1..] == a[1..] + b;
    }
  }

  /** The loop of the Redis sink over the lines of a file. */
  method RedisImportFile(db: map<string, string>, prefix: string, text: string) returns (out: map<string, string>)
    ensures out == ApplyWrites(db, prefix, FilePairs(text))
  {
    hide PairOf, ScanLines;
    out := db;
    var lines := ScanLines(text);
    for j := 0 to |lines|
      invariant out == ApplyWrites(db, prefix, FlatMap(PairOf, lines[..j]))
    {
      FlatMapNext(PairOf, lines, j);
      var pair := PairOf(lines[j]);
      if pair != [] {
        ApplyConcat(db, prefix, FlatMap(PairOf, lines[..j]), pair);
        out := out[prefix + pair[0].key := pair[0].value];
      }
    }
    assert lines[..|lines|] == lines;
  }

  /** The Redis sink: the loop over the files. */
  method RedisImportFiles(db: map<string, string>, prefix: string, replace: bool, files: seq<string>)
    returns (out: map<string, string>)
    ensures out == RedisImport(db, prefix, replace, AllPairs(files))
  {
    hide FilePairs;
    out := if replace then WithoutPrefix(db, prefix) else db;
    ghost var start := out;
    for i := 0 to |files|
      invariant out == ApplyWrites(start, prefix, AllPairs(files[..i]))
    {
      FlatMapNext(FilePairs, files, i);
      ApplyConcat(start, prefix, AllPairs(files[..i]), FilePairs(files[i]));
      out := RedisImportFile(out, prefix, files[i]);
    }
    assert files[..|files|] == files;
  }

  // ---- printing and reading back ----------------------------------------------------------

  /** fmt.Fprintf(ofile, "%v %v\n", key, value) */
  function PrintLine(kv: KV): string {
    kv.key + " " + kv.value + ['\n']
  }

  function OutputText(kvs: seq<KV>): string {
    FlatMap(PrintLine, kvs)
  }

  /** The bytes of an output file, pair by pair. */
  lemma OutputFormat(k: string, v: string, rest: seq<KV>)
    ensures OutputText([]) == []
    ensures OutputText([KV(k, v)] + rest) == k + " " + v + "\n" + OutputText(rest)
  {
    assert ([KV(k, v)] + rest)[1..] == rest;
  }

  ghost predicate Printable(kvs: seq<KV>) {
    forall i :: 0 <= i < |kvs| ==> IsWord(kvs[i].key) && IsWord(kvs[i].value)
  }

  function BareLines(kvs: seq<KV>): (r: seq<string>)
    ensures |r| == |kvs|
  {
    seq(|kvs|, i requires 0 <= i < |kvs| => kvs[i].key + " " + kvs[i].value)
  }

  lemma {:induction false} SplitOutput(kvs: seq<KV>)
    requires Printable(kvs)
    ensures Split(OutputText(kvs), '\n') == BareLines(kvs) + [[]]
  {
    if kvs != [] {
      SplitOutput(kvs[1..]);
      var line := kvs[0].key + " " + kvs[0].value;
      var rest := OutputText(kvs[1..]);
      assert OutputText(kvs) == line + (['\n'] + rest);
      assert '\n' !in line;
      SplitOfPlain(line, '\n');
      SplitAtSep(line, '\n', rest);
      assert BareLines(kvs) == [line] + BareLines(kvs[1..]);
      assert [line] + (BareLines(kvs[1..]) + [[]]) == ([line] + BareLines(kvs[1..])) + [[]];
    }
  }

  lemma PairOfPrinted(kv: KV)
    requires IsWord(kv.key) && IsWord(kv.value)
    ensures PairOf(DropCR(kv.key + " " + kv.value)) == [kv]
  {
    hide Fields, TrimSpace, DropCR;
    NoCRPrinted(kv.key, kv.value);
    WordIsTight(kv.key, kv.value);
    FieldsOfPair(kv.key, kv.value);
  }

  lemma NoCRPrinted(k: string, v: string)
    requires IsWord(v)
    ensures DropCR(k + " " + v) == k + " " + v
  {
    var line := k + " " + v;
    assert line[|line| - 1] == v[|v| - 1];
  }

  lemma PrintedIsRead(kvs: seq<KV>)
    requires Printable(kvs)
    ensures FilePairs(OutputText(kvs)) == kvs
  {
    SplitOutput(kvs);
    var lines := ScanLines(OutputText(kvs));
    assert |lines| == |kvs|;
    forall i | 0 <= i < |kvs| ensures PairOf(lines[i]) == [kvs[i]] {
      PairOfPrinted(kvs[i]);
    }
    hide PairOf, ScanLines;
    FlatMapSingles(PairOf, lines, kvs);
  }

  lemma {:induction false} FieldsAreWords(s: string)
    ensures forall i :: 0 <= i < |Fields(s)| ==> IsWord(Fields(s)[i])
  {
    if s != [] {
      if IsSpace(s[0]) {
        FieldsAreWords(s[1..]);
      } else {
        FieldsAreWords(s[|Word(s)|..]);
      }
    }
  }

  lemma PairIsWords(line: string)
    ensures Printable(PairOf(line))
  {
    FieldsAreWords(TrimSpace(line));
    hide Fields, TrimSpace;
  }

  lemma PrintableConcat(a: seq<KV>, b: seq<KV>)
    requires Printable(a) && Printable(b)
    ensures Printable(a + b)
  {
  }

  lemma {:induction false} PairsAreWords(lines: seq<string>)
    ensures Printable(FlatMap(PairOf, lines))
  {
    if lines != [] {
      hide PairOf, Printable;
      PairIsWords(lines[0]);
      PairsAreWords(lines[1..]);
      PrintableConcat(PairOf(lines[0]), FlatMap(PairOf, lines[1..]));
    }
  }

  /** What a reducer printed is read back, line by line, if and only if all keys and values are words. */
  lemma OutputReadBack(kvs: seq<KV>)
    ensures FilePairs(OutputText(kvs)) == kvs <==> Printable(kvs)
  {
    hide OutputText, ScanLines, PairOf;
    if Printable(kvs) {
      PrintedIsRead(kvs);
    }
    PairsAreWords(ScanLines(OutputText(kvs)));
  }

  /** A blank in a key: the rest of the key is taken for the value. */
  lemma BlankInKeyIsCut(a: string, b: string, v: string)
    requires IsWord(a) && IsWord(b) && IsWord(v)
    ensures PairOf((a + " " + b) + " " + v) == [KV(a, b)]
  {
    var s := (a + " " + b) + " " + v;
    var rest := b + " " + v;
    assert s == a + (" " + rest);
    assert TrimSpace(s) == s;
    WordThen(a, " " + rest);
    assert s[|a|..] == " " + rest && (" " + rest)[1..] == rest;
    FieldsOfPair(b, v);
    assert Fields(" " + rest) == Fields(rest);
  }

  // ---- the two sinks compared -------------------------------------------------------------

  /** An integer as Go prints it. */
  ghost predicate IsNumeral(v: string) {
    exists n :: IsInt64(n) && v == Itoa(n)
  }

  /** One line per key, each with a numeral. */
  ghost predicate Canonical(pairs: seq<KV>) {
    && (forall i, j :: 0 <= i < j < |pairs| ==> pairs[i].key != pairs[j].key)
    && (forall i :: 0 <= i < |pairs| ==> IsNumeral(pairs[i].value))
  }

  lemma RowOfCanonical(kv: KV) returns (n: int)
    requires IsNumeral(kv.value)
    ensures IsInt64(n) && kv.value == Itoa(n) && RowOf(kv) == [Row(kv.key, n)]
  {
    n :| IsInt64(n) && kv.value == Itoa(n);
    AtoiOfItoa(n);
  }

  lemma CanonicalRows(pairs: seq<KV>)
    requires Canonical(pairs)
    ensures |RowsOf(pairs)| == |pairs|
    ensures forall i :: 0 <= i < |pairs| ==> RowsOf(pairs)[i].key == pairs[i].key && pairs[i].value == Itoa(RowsOf(pairs)[i].value)
  {
    hide RowOf, Itoa;
    var rows: seq<Row> := [];
    for i := 0 to |pairs|
      invariant |rows| == i
      invariant forall j :: 0 <= j < i ==>
        RowOf(pairs[j]) == [rows[j]] && rows[j].key == pairs[j].key && pairs[j].value == Itoa(rows[j].value)
    {
      var n := RowOfCanonical(pairs[i]);
      rows := rows + [Row(pairs[i].key, n)];
    }
    FlatMapSingles(RowOf, pairs, rows);
  }

  lemma PrefixCancels(prefix: string, a: string, b: string)
    requires prefix + a == prefix + b
    ensures a == b
  {
    assert (prefix + a)[|prefix|..] == a && (prefix + b)[|prefix|..] == b;
  }

  lemma {:induction false} WritesElsewhere(db: map<string, string>, prefix: string, pairs: seq<KV>, k: string)
    requires forall i :: 0 <= i < |pairs| ==> prefix + pairs[i].key != k
    ensures k in ApplyWrites(db, prefix, pairs) <==> k in db
    ensures k in db ==> ApplyWrites(db, prefix, pairs)[k] == db[k]
    decreases |pairs|
  {
    if pairs != [] {
      WritesElsewhere(db[prefix + pairs[0].key := pairs[0].value], prefix, pairs[1..], k);
    }
  }

  lemma {:induction false} WriteStays(db: map<string, string>, prefix: string, pairs: seq<KV>, i: nat)
    requires (forall j, l :: 0 <= j < l < |pairs| ==> pairs[j].key != pairs[l].key) && i < |pairs|
    ensures var k := prefix + pairs[i].key;
            k in ApplyWrites(db, prefix, pairs) && ApplyWrites(db, prefix, pairs)[k] == pairs[i].value
    decreases |pairs|
  {
    var db' := db[prefix + pairs[0].key := pairs[0].value];
    if i == 0 {
      forall j | 0 <= j < |pairs[1..]| ensures prefix + pairs[1..][j].key != prefix + pairs[0].key {
        if prefix + pairs[1..][j].key == prefix + pairs[0].key {
          PrefixCancels(prefix, pairs[1..][j].key, pairs[0].key);
        }
      }
      WritesElsewhere(db', prefix, pairs[1..], prefix + pairs[0].key);
    } else {
      WriteStays(db', prefix, pairs[1..], i - 1);
    }
  }

  ghost predicate Written(prefix: string, pairs: seq<KV>, k: string) {
    exists i :: 0 <= i < |pairs| && prefix + pairs[i].key == k
  }

  lemma WrittenFirst(prefix: string, pairs: seq<KV>, k: string)
    requires Written(prefix, pairs, k)
    ensures prefix + pairs[0].key == k || Written(prefix, pairs[1..], k)
  {
    var i :| 0 <= i < |pairs| && prefix + pairs[i].key == k;
    if i > 0 {
      assert pairs[1..][i - 1] == pairs[i];
    }
  }

  /** What is written to a key does not depend on what was there before. */
  lemma {:induction false} WritesForget(db: map<string, string>, db': map<string, string>, prefix: string, pairs: seq<KV>, k: string)
    requires Written(prefix, pairs, k)
    ensures k in ApplyWrites(db, prefix, pairs) && k in ApplyWrites(db', prefix, pairs)
    ensures ApplyWrites(db, prefix, pairs)[k] == ApplyWrites(db', prefix, pairs)[k]
    decreases |pairs|
  {
    var first := prefix + pairs[0].key;
    var next, next' := db[first := pairs[0].value], db'[first := pairs[0].value];
    if Written(prefix, pairs[1..], k) {
      WritesForget(next, next', prefix, pairs[1..], k);
    } else {
      WrittenFirst(prefix, pairs, k);
      WritesElsewhere(next, prefix, pairs[1..], k);
      WritesElsewhere(next', prefix, pairs[1..], k);
    }
  }

  /**
   For any outputs: a key that no pair names keeps its value, except that Replace removes it under
   the prefix; of several pairs that name it the last one counts.
   */
  lemma RedisLastWriter(db: map<string, string>, prefix: string, replace: bool, pairs: seq<KV>, last: KV, q: string)
    ensures var after := RedisImport(db, prefix, replace, pairs);
            !Written(prefix, pairs, q) ==>
              if replace && prefix <= q then q !in after
              else (q in after <==> q in db) && (q in db ==> after[q] == db[q])
    ensures RedisImport(db, prefix, replace, pairs + [last]) ==
            RedisImport(db, prefix, replace, pairs)[prefix + last.key := last.value]
  {
    var before := if replace then WithoutPrefix(db, prefix) else db;
    ApplyConcat(before, prefix, pairs, [last]);
    assert [last][1..] == [];
    if !Written(prefix, pairs, q) {
      WritesElsewhere(before, prefix, pairs, q);
    }
  }

  /** Two databases that agree but for the written keys are the same after the writes. */
  lemma WritesLevel(db: map<string, string>, db': map<string, string>, prefix: string, pairs: seq<KV>)
    requires forall k :: !Written(prefix, pairs, k) ==> (k in db <==> k in db') && (k in db ==> db[k] == db'[k])
    ensures ApplyWrites(db, prefix, pairs) == ApplyWrites(db', prefix, pairs)
  {
    hide ApplyWrites;
    var r, r' := ApplyWrites(db, prefix, pairs), ApplyWrites(db', prefix, pairs);
    forall k ensures (k in r <==> k in r') && (k in r ==> r[k] == r'[k]) {
      if Written(prefix, pairs, k) {
        WritesForget(db, db', prefix, pairs, k);
      } else {
        WritesElsewhere(db, prefix, pairs, k);
        WritesElsewhere(db', prefix, pairs, k);
      }
    }
  }

  /** Importing the same outputs into Redis again changes nothing either. */
  lemma RedisImportTwice(db: map<string, string>, prefix: string, replace: bool, pairs: seq<KV>)
    ensures RedisImport(RedisImport(db, prefix, replace, pairs), prefix, replace, pairs) == RedisImport(db, prefix, replace, pairs)
  {
    hide ApplyWrites;
    var start := if replace then WithoutPrefix(db, prefix) else db;
    var once := ApplyWrites(start, prefix, pairs);
    var again := if replace then WithoutPrefix(once, prefix) else once;
    forall k | !Written(prefix, pairs, k)
      ensures (k in again <==> k in start) && (k in again ==> again[k] == start[k])
    {
      WritesElsewhere(start, prefix, pairs, k);
    }
    WritesLevel(again, start, prefix, pairs);
  }

  /**
   With Replace set and canonical outputs, both sinks hold the same: the keys that Redis has
   under its prefix are the keys of the MySQL table, with the same numbers.
   */
  lemma SinksAgree(table: map<string, int>, db: map<string, string>, prefix: string, pairs: seq<KV>, k: string)
    requires Canonical(pairs)
    ensures var t := Import(table, true, RowsOf(pairs)); var r := RedisImport(db, prefix, true, pairs);
            && (k in t <==> prefix + k in r)
            && (k in t ==> r[prefix + k] == Itoa(t[k]))
  {
    var rows := RowsOf(pairs);
    CanonicalRows(pairs);
    if i :| 0 <= i < |pairs| && pairs[i].key == k {
      GroupSumOfOne(rows, i);
      WriteStays(WithoutPrefix(db, prefix), prefix, pairs, i);
    } else {
      assert k !in GroupSum(rows);
      forall i | 0 <= i < |pairs| ensures prefix + pairs[i].key != prefix + k {
        if prefix + pairs[i].key == prefix + k {
          PrefixCancels(prefix, pairs[i].key, k);
        }
      }
      WritesElsewhere(WithoutPrefix(db, prefix), prefix, pairs, prefix + k);
    }
  }

  /**
   What an import leaves under any key of Redis. Under the prefix: the number of its own, where the
   outputs have one, and nothing else when Replace is set. Everything else stays as it was.
   */
  lemma RedisHolds(db: map<string, string>, prefix: string, replace: bool, pairs: seq<KV>, q: string)
    requires Canonical(pairs)
    ensures var t := GroupSum(RowsOf(pairs));
            var after := RedisImport(db, prefix, replace, pairs);
            if prefix <= q && q[|prefix|..] in t then q in after && after[q] == Itoa(t[q[|prefix|..]])
            else if replace && prefix <= q then q !in after
            else (q in after <==> q in db) && (q in db ==> after[q] == db[q])
  {
    var rows := RowsOf(pairs);
    var before := if replace then WithoutPrefix(db, prefix) else db;
    CanonicalRows(pairs);
    hide RowsOf, Itoa, ApplyWrites, IsNumeral, GroupSum;
    if prefix <= q && q[|prefix|..] in GroupSum(rows) {
      var i := RowInTable(rows, q[|prefix|..]);
      assert prefix + pairs[i].key == q;
      WriteStays(before, prefix, pairs, i);
    } else {
      forall i | 0 <= i < |pairs| ensures prefix + pairs[i].key != q {
        KeyUnder(prefix, pairs[i].key);
        GroupSumOfOne(rows, i);
      }
      WritesElsewhere(before, prefix, pairs, q);
    }
  }

  lemma RowInTable(rows: seq<Row>, k: string) returns (i: nat)
    requires DistinctKeys(rows) && k in GroupSum(rows)
    ensures i < |rows| && rows[i].key == k && GroupSum(rows)[k] == rows[i].value
  {
    i :| 0 <= i < |rows| && rows[i].key == k;
    GroupSumOfOne(rows, i);
  }

  lemma KeyUnder(prefix: string, k: string)
    ensures prefix <= prefix + k && (prefix + k)[|prefix|..] == k
  {
  }

  lemma TwoRows(k: string, m: int, n: int)
    ensures GroupSum([Row(k, m), Row(k, n)]) == map[k := m + n]
  {
    var rows := [Row(k, m), Row(k, n)];
    SumAppend(ValueIn(k), [Row(k, m)], Row(k, n));
    assert Sum(ValueIn(k), [Row(k, m)]) == m + Sum(ValueIn(k), []);
    assert rows == [Row(k, m)] + [Row(k, n)];
    assert RowKeys(rows) == {k} by {
      assert rows[0].key == k;
    }
  }

  lemma TwoWrites(k: string, v: string, w: string)
    ensures ApplyWrites(map[], "", [KV(k, v), KV(k, w)]) == map[k := w]
  {
    var pairs := [KV(k, v), KV(k, w)];
    assert "" + k == k && pairs[1..] == [pairs[1]];
    assert ApplyWrites(map[k := v], "", pairs[1..]) == ApplyWrites(map[k := w], "", []);
  }

  /** Two lines for one key: MySQL adds them up, Redis keeps the last. */
  lemma TwoLinesDiffer(k: string, m: int, n: int)
    requires IsInt64(m) && IsInt64(n)
    ensures var pairs := [KV(k, Itoa(m)), KV(k, Itoa(n))];
            && Import(map[], true, RowsOf(pairs)) == map[k := m + n]
            && RedisImport(map[], "", true, pairs) == map[k := Itoa(n)]
  {
    var pairs := [KV(k, Itoa(m)), KV(k, Itoa(n))];
    AtoiOfItoa(m);
    AtoiOfItoa(n);
    hide Itoa, Atoi, GroupSum, ApplyWrites;
    FlatMapSingles(RowOf, pairs, [Row(k, m), Row(k, n)]);
    TwoRows(k, m, n);
    TwoWrites(k, Itoa(m), Itoa(n));
    assert map[] + map[k := m + n] == map[k := m + n];
    assert WithoutPrefix(map[], "") == map[];
  }
}

/** The input files that the sources write are well formed, under conditions on their rows. */
module Exported {
  import opened Apps
  import opened Codec
  import opened Input
  import opened Job
  import opened Seqs
  import opened Shuffle
  import opened Text

  /** A row of the source table as it is exported. */
  datatype SourceRow = SourceRow(id: string, key: string, metric: string)

  function RowText(row: SourceRow): string {
    row.id + "\t" + row.key + "\t" + row.metric + "\n"
  }

  function FileText(rows: seq<SourceRow>): string {
    FlatMap(RowText, rows)
  }

  /** Id and key are words, and the metric is one column that ends visibly; so it is not NULL. */
  predicate GoodRow(row: SourceRow) {
    && IsWord(row.id) && IsWord(row.key)
    && '\t' !in row.metric && '\n' !in row.metric && EndsSolid(row.metric)
  }

  function PairOfRow(row: SourceRow): KV {
    KV(row.key, row.metric)
  }

  function Pairs(rows: seq<SourceRow>): (r: seq<KV>)
    ensures |r| == |rows|
  {
    seq(|rows|, i requires 0 <= i < |rows| => PairOfRow(rows[i]))
  }

  /** The line of a row, without its line feed. */
  function LineOfRow(row: SourceRow): string {
    row.id + (['\t'] + (row.key + (['\t'] + row.metric)))
  }

  lemma RowBytes(row: SourceRow)
    ensures RowText(row) == LineOfRow(row) + ['\n']
  {
    var a := row.key + (['\t'] + row.metric);
    assert row.id + (['\t'] + a) == row.id + "\t" + a;
    assert row.id + "\t" + a == row.id + "\t" + row.key + "\t" + row.metric;
  }

  lemma RowColumns(row: SourceRow)
    requires '\t' !in row.id && '\t' !in row.key && '\t' !in row.metric
    ensures Split(LineOfRow(row), '\t') == [row.id, row.key, row.metric]
  {
    var tail := row.key + (['\t'] + row.metric);
    SplitOfPlain(row.id, '\t');
    SplitOfPlain(row.key, '\t');
    SplitOfPlain(row.metric, '\t');
    SplitAtSep(row.key, '\t', row.metric);
    SplitAtSep(row.id, '\t', tail);
    hide Split;
    assert [row.id] + ([row.key] + [row.metric]) == [row.id, row.key, row.metric];
  }

  lemma RowIsSafe(row: SourceRow)
    requires GoodRow(row)
    ensures '\n' !in LineOfRow(row) && Safe(LineOfRow(row)) && RecordOf(LineOfRow(row)) == [PairOfRow(row)]
  {
    RowColumns(row);
    assert !Blank(row.id) by {
      assert !IsSpace(row.id[0]);
    }
    hide Split, Blank;
  }

  lemma RowThenFile(row: SourceRow, rest: string)
    requires GoodRow(row) && SafeText(rest)
    ensures SafeText(RowText(row) + rest)
    ensures TextRecords(RowText(row) + rest) == [PairOfRow(row)] + TextRecords(rest)
  {
    hide Safe, GoodRow, RecordOf, RowText, LineOfRow, TextRecords, EachLine;
    RowBytes(row);
    RowIsSafe(row);
    BlankIsSafe();
    OneLine(LineOfRow(row));
    OneLineText(RowText(row), LineOfRow(row));
    SafeLineText(RowText(row), LineOfRow(row));
    CutAtLine(RowText(row), rest);
    CutEach(Safe, RowText(row), rest);
  }

  lemma {:induction false} FileIsSafe(rows: seq<SourceRow>)
    requires forall i :: 0 <= i < |rows| ==> GoodRow(rows[i])
    ensures SafeText(FileText(rows)) && TextRecords(FileText(rows)) == Pairs(rows)
  {
    hide Safe, GoodRow, TextRecords, EachLine, RowText;
    if rows == [] {
      BlankIsSafe();
      NoLines(Safe);
      NoText();
    } else {
      FileIsSafe(rows[1..]);
      RowThenFile(rows[0], FileText(rows[1..]));
      assert Pairs(rows) == [PairOfRow(rows[0])] + Pairs(rows[1..]);
    }
  }

  lemma {:induction false} FilesAreSafe(files: seq<string>, tables: seq<seq<SourceRow>>)
    requires |files| == |tables|
    requires forall f :: 0 <= f < |files| ==> files[f] == FileText(tables[f])
    requires forall f, i :: 0 <= f < |tables| && 0 <= i < |tables[f]| ==> GoodRow(tables[f][i])
    ensures forall f :: 0 <= f < |files| ==> SafeText(files[f])
    ensures FlatMap(TextRecords, files) == FlatMap(Pairs, tables)
    ensures forall app, x :: x in FlatMap(TextRecords, files) ==> GoodRecord(app, x)
  {
    hide SafeText, TextRecords, FileText;
    if files != [] {
      FilesAreSafe(files[1..], tables[1..]);
      FileIsSafe(tables[0]);
      PairsAreGood(tables[0]);
      forall f | 0 <= f < |files| ensures SafeText(files[f]) {
        assert f > 0 ==> files[1..][f - 1] == files[f];
      }
    }
  }

  lemma PairsAreGood(rows: seq<SourceRow>)
    requires forall i :: 0 <= i < |rows| ==> GoodRow(rows[i])
    ensures forall app, x :: x in Pairs(rows) ==> GoodRecord(app, x)
  {
    forall app, x | x in Pairs(rows) ensures GoodRecord(app, x) {
      var i :| 0 <= i < |rows| && Pairs(rows)[i] == x;
      assert GoodRow(rows[i]);
    }
  }

  /**
   A job whose input files are exported rows is well formed, for every app, and its records are
   the keys and metrics of the rows.
   */
  lemma ExportedIsWellFormed(job: Job, tables: seq<seq<SourceRow>>)
    requires |job.files| == |tables|
    requires forall f :: 0 <= f < |tables| ==> job.files[f] == FileText(tables[f])
    requires forall f, i :: 0 <= f < |tables| && 0 <= i < |tables[f]| ==> GoodRow(tables[f][i])
    ensures job.WellFormed() && job.AllRecords() == FlatMap(Pairs, tables)
  {
    hide SafeText, TextRecords, FileText, GoodRow, GoodRecord;
    FilesAreSafe(job.files, tables);
  }
}

/** The end of a job: what the reducers print, and what the sinks make of it. */
module JobResult {
  import opened Apps
  import opened Codec
  import opened Grouping
  import opened Job
  import opened Seqs
  import opened Shuffle
  import opened Sink
  import opened Text
  import Dispatch
  import DispatchRuns
  import Listing
  import Partition

  // ---- one reducer ------------------------------------------------------------------------

  /** The lines of a reducer: its groups in order, each with its number. */
  function GroupLines(app: App, gs: seq<Group>): (r: seq<KV>)
    ensures |r| == |gs|
  {
    seq(|gs|, g requires 0 <= g < |gs| => KV(gs[g].key, Itoa(ReduceValue(app, gs[g].values))))
  }

  lemma {:induction false} IntsAreInt64(values: seq<string>)
    ensures forall i :: 0 <= i < |Ints(values)| ==> IsInt64(Ints(values)[i])
  {
    if values != [] {
      IntsAreInt64(values[1..]);
      assert Ints(values) == IntOf(values[0]) + Ints(values[1..]);
    }
  }

  /** What is printed can be parsed. */
  lemma ReduceIsInt64(app: App, values: seq<string>)
    ensures IsInt64(ReduceValue(app, values))
  {
    var ints := Ints(values);
    IntsAreInt64(values);
    if ints != [] {
      MinIsLeast(ints);
      MaxIsGreatest(ints);
      if app.TopN? {
        TopNIsNthLargest(values, app.n);
      }
    }
  }

  /** The keys of a list that belong to reducer `r` and the numbers they must get. */
  ghost predicate Answers(app: App, hash: string -> nat, nReduce: nat, r: nat, records: seq<KV>, lines: seq<KV>)
    requires nReduce > 0
  {
    && (forall i, j :: 0 <= i < j < |lines| ==> lines[i].key != lines[j].key)
    && (forall k :: k in Keys(lines) <==> k in Keys(records) && Partition.ReducerForKey(hash, k, nReduce) == r)
    && (forall i :: 0 <= i < |lines| ==> lines[i].value == Itoa(Expected(app, ValuesOf(records, lines[i].key))))
  }

  lemma IncreasingIsDistinct(gs: seq<Group>)
    requires Increasing(gs)
    ensures forall i, j :: 0 <= i < j < |gs| ==> gs[i].key != gs[j].key
  {
    forall i, j | 0 <= i < j < |gs| ensures gs[i].key != gs[j].key {
      LessIrreflexive(gs[i].key);
    }
  }

  /** A reducer prints one line for each of its keys, with the number that all records ask for. */
  lemma ReducerAnswers(app: App, hash: string -> nat, nReduce: nat, r: nat, records: seq<KV>, all: seq<KV>, sorted: seq<KV>)
    requires nReduce > 0 && Stands(app, records, all) && IsPart(hash, nReduce, r, all, sorted) && SortedByKey(sorted)
    ensures Answers(app, hash, nReduce, r, records, GroupLines(app, Groups(sorted)))
  {
    var gs := Groups(sorted);
    var lines := GroupLines(app, gs);
    hide Groups, Stands, IsPart, SortedByKey, ValuesOf, ReduceValue, Expected, Itoa, Less;
    GroupsOfSorted(sorted);
    IncreasingIsDistinct(gs);
    SameKeys(app, records, all);
    LineKeys(app, gs);
    forall k ensures k in Keys(lines) <==> k in Keys(records) && Partition.ReducerForKey(hash, k, nReduce) == r {
      PartKeys(hash, nReduce, r, all, sorted, k);
    }
    forall i | 0 <= i < |lines| ensures lines[i].value == Itoa(Expected(app, ValuesOf(records, lines[i].key))) {
      var k := gs[i].key;
      assert k in GroupKeys(gs);
      PartKeys(hash, nReduce, r, all, sorted, k);
      ReducerComputesSpec(app, hash, nReduce, records, all, sorted, k);
    }
  }

  lemma LineKeys(app: App, gs: seq<Group>)
    ensures Keys(GroupLines(app, gs)) == GroupKeys(gs)
  {
    var lines := GroupLines(app, gs);
    forall i | 0 <= i < |gs| ensures gs[i].key in Keys(lines) {
      assert lines[i].key == gs[i].key;
    }
  }

  lemma SameKeys(app: App, records: seq<KV>, all: seq<KV>)
    requires Stands(app, records, all)
    ensures Keys(all) == Keys(records)
  {
    if app != Count {
      KeysOfPerm(all, records);
    }
  }

  /** The file of a reducer, read by a sink, gives its lines back. */
  lemma OutputIsRead(app: App, sorted: seq<KV>)
    requires forall k :: k in Keys(sorted) ==> IsWord(k)
    requires SortedByKey(sorted)
    ensures FilePairs(OutputFile(app, sorted)) == GroupLines(app, Groups(sorted))
  {
    var gs := Groups(sorted);
    var lines := GroupLines(app, gs);
    hide Groups, FilePairs, OutputText, ReduceValue, Itoa, IsWord, Less, ValuesOf;
    GroupsOfSorted(sorted);
    OneLinePerGroup(gs, ReduceCall(app));
    assert Feed(gs, [], ReduceCall(app)) == Grouping.Lines(lines);
    forall i | 0 <= i < |lines| ensures IsWord(lines[i].key) && IsWord(lines[i].value) {
      assert gs[i].key in GroupKeys(gs);
      ReduceIsInt64(app, gs[i].values);
      ItoaIsParsed(ReduceValue(app, gs[i].values));
    }
    OutputReadBack(lines);
  }

  // ---- all reducers -----------------------------------------------------------------------

  function PairsOf(job: Job, run: Run): nat -> seq<KV> {
    (r: nat) => FilePairs(Output(job, run, r))
  }

  /** `pairs` answers for the keys of the reducers in `order`. */
  ghost predicate AnswersAll(app: App, hash: string -> nat, nReduce: nat, order: seq<nat>, records: seq<KV>, pairs: seq<KV>)
    requires nReduce > 0
  {
    && (forall i, j :: 0 <= i < j < |pairs| ==> pairs[i].key != pairs[j].key)
    && (forall k :: k in Keys(pairs) <==> k in Keys(records) && Partition.ReducerForKey(hash, k, nReduce) in order)
    && (forall i :: 0 <= i < |pairs| ==> pairs[i].value == Itoa(Expected(app, ValuesOf(records, pairs[i].key))))
  }

  lemma AnswersStep(app: App, hash: string -> nat, nReduce: nat, r: nat, order: seq<nat>, records: seq<KV>, a: seq<KV>, b: seq<KV>)
    requires nReduce > 0 && r !in order
    requires Answers(app, hash, nReduce, r, records, a) && AnswersAll(app, hash, nReduce, order, records, b)
    ensures AnswersAll(app, hash, nReduce, [r] + order, records, a + b)
  {
    hide Partition.ReducerForKey, Expected, Itoa, ValuesOf;
    KeysConcat(a, b);
    forall i, j | 0 <= i < |a| && 0 <= j < |b| ensures a[i].key != b[j].key {
      assert a[i].key in Keys(a) && b[j].key in Keys(b);
    }
    hide Keys;
    var ab := a + b;
    forall i, j | 0 <= i < j < |ab| ensures ab[i].key != ab[j].key {
    }
  }

  lemma {:induction false} AnswersTogether(app: App, hash: string -> nat, nReduce: nat, f: nat -> seq<KV>, order: seq<nat>, records: seq<KV>)
    requires nReduce > 0 && forall i, j :: 0 <= i < j < |order| ==> order[i] != order[j]
    requires forall i :: 0 <= i < |order| ==> Answers(app, hash, nReduce, order[i], records, f(order[i]))
    ensures AnswersAll(app, hash, nReduce, order, records, FlatMap(f, order))
  {
    if order != [] {
      hide Answers, AnswersAll;
      AnswersTogether(app, hash, nReduce, f, order[1..], records);
      AnswersStep(app, hash, nReduce, order[0], order[1..], records, f(order[0]), FlatMap(f, order[1..]));
      assert order == [order[0]] + order[1..];
    }
  }

  lemma {:induction false} ReadInOrder(job: Job, run: Run, files: seq<string>, order: seq<nat>, k: nat)
    requires k <= |order| == |files| && forall i :: 0 <= i < |order| ==> files[i] == Output(job, run, order[i])
    ensures AllPairs(files[..k]) == FlatMap(PairsOf(job, run), order[..k])
  {
    hide FilePairs, Output;
    if k > 0 {
      ReadInOrder(job, run, files, order, k - 1);
      FlatMapNext(FilePairs, files, k - 1);
      FlatMapNext<nat, KV>(PairsOf(job, run), order, k - 1);
    }
  }

  /** The whole of what the sinks read: one pair per key, with the number that the records ask for. */
  ghost predicate Complete(app: App, records: seq<KV>, pairs: seq<KV>) {
    && (forall i, j :: 0 <= i < j < |pairs| ==> pairs[i].key != pairs[j].key)
    && Keys(pairs) == Keys(records)
    && (forall i :: 0 <= i < |pairs| ==> pairs[i].value == Itoa(Expected(app, ValuesOf(records, pairs[i].key))))
  }

  lemma PartOfPerm(hash: string -> nat, nReduce: nat, r: nat, all: seq<KV>, xs: seq<KV>, ys: seq<KV>)
    requires nReduce > 0 && IsPart(hash, nReduce, r, all, xs) && multiset(xs) == multiset(ys)
    ensures IsPart(hash, nReduce, r, all, ys)
  {
  }

  lemma GoodKeys(app: App, records: seq<KV>)
    requires GoodRecords(app, records)
    ensures forall k :: k in Keys(records) ==> IsWord(k)
  {
    forall k | k in Keys(records) ensures IsWord(k) {
      var i :| 0 <= i < |records| && records[i].key == k;
      assert records[i] in records;
      assert GoodRecord(app, records[i]);
    }
  }

  lemma OneOutput(job: Job, run: Run, all: seq<KV>, r: nat)
    requires job.Valid() && job.WellFormed() && Sorts(job, run) && r < job.nReduce
    requires Stands(job.app, job.AllRecords(), all)
    requires IsPart(job.hash, job.nReduce, r, all, ReduceInput(run, r))
    ensures Answers(job.app, job.hash, job.nReduce, r, job.AllRecords(), PairsOf(job, run)(r))
  {
    hide Stands, IsPart, Answers, SortedByKey, GoodRecords, ReduceInput, OutputFile, FilePairs, Groups;
    var sorted := run.sorted[r];
    PartOfPerm(job.hash, job.nReduce, r, all, ReduceInput(run, r), sorted);
    ReducerAnswers(job.app, job.hash, job.nReduce, r, job.AllRecords(), all, sorted);
    SameKeys(job.app, job.AllRecords(), all);
    GoodKeys(job.app, job.AllRecords());
    forall k | k in Keys(sorted) ensures IsWord(k) {
      PartKeys(job.hash, job.nReduce, r, all, sorted, k);
    }
    OutputIsRead(job.app, sorted);
  }

  lemma SortsWell(job: Job, run: Run)
    requires Reduced(job, run)
    ensures Sorts(job, run)
  {
  }

  /** What the sinks read at the end of a job. */
  lemma JobAnswers(job: Job, run: Run)
    requires Happens(job, run) && job.WellFormed() && Listing.Clean(run.phase)
    ensures Complete(job.app, job.AllRecords(), AllPairs(Outputs(job, run)))
  {
    hide Stands, IsPart, Answers, PairsOf, Mapped, Reduced, Listing.Clean, ReduceInput, Output, Outputs, Job.WellFormed, Job.AllRecords;
    var all := ShuffleIsComplete(job, run);
    var order := OutputOrder(job, run);
    var files := Outputs(job, run);
    forall i | 0 <= i < |order|
      ensures Answers(job.app, job.hash, job.nReduce, order[i], job.AllRecords(), PairsOf(job, run)(order[i]))
    {
      SortsWell(job, run);
      OneOutput(job, run, all, order[i]);
    }
    AnswersTogether(job.app, job.hash, job.nReduce, PairsOf(job, run), order, job.AllRecords());
    ReadInOrder(job, run, files, order, |order|);
    assert order[..|order|] == order && files[..|order|] == files;
    forall k ensures Partition.ReducerForKey(job.hash, k, job.nReduce) in order {
    }
  }

  // ---- the sinks --------------------------------------------------------------------------

  lemma ExpectedIsInt64(app: App, values: seq<string>)
    ensures IsInt64(Expected(app, values))
  {
    ReduceIsInt64(app, values);
  }

  lemma CompleteIsCanonical(app: App, records: seq<KV>, pairs: seq<KV>)
    requires Complete(app, records, pairs)
    ensures Canonical(pairs)
  {
    hide Expected, Itoa, ValuesOf;
    forall i | 0 <= i < |pairs| ensures IsNumeral(pairs[i].value) {
      ExpectedIsInt64(app, ValuesOf(records, pairs[i].key));
    }
  }

  lemma ItoaInjective(m: int, n: int)
    requires IsInt64(m) && IsInt64(n) && Itoa(m) == Itoa(n)
    ensures m == n
  {
    AtoiOfItoa(m);
    AtoiOfItoa(n);
  }

  lemma RowFits(kv: KV)
    ensures forall row :: row in RowOf(kv) ==> IsInt64(row.value)
  {
  }

  lemma {:induction false} RowsFit(pairs: seq<KV>)
    ensures forall row :: row in RowsOf(pairs) ==> IsInt64(row.value)
  {
    hide RowOf;
    if pairs != [] {
      RowFits(pairs[0]);
      RowsFit(pairs[1..]);
    }
  }

  /** The grouped sum of complete answers is the specification: SUM acts as the identity. */
  lemma SumIsIdentity(app: App, records: seq<KV>, pairs: seq<KV>)
    requires Complete(app, records, pairs)
    ensures GroupSum(RowsOf(pairs)) == Spec(app, records)
  {
    var rows := RowsOf(pairs);
    hide Expected, Itoa, ValuesOf, RowsOf;
    CompleteIsCanonical(app, records, pairs);
    CanonicalRows(pairs);
    RowsFit(pairs);
    assert RowKeys(rows) == Keys(pairs) by {
      forall i | 0 <= i < |pairs| ensures pairs[i].key in RowKeys(rows) {
        assert rows[i].key == pairs[i].key;
      }
    }
    hide Canonical, RowKeys;
    forall k | k in Keys(pairs) ensures GroupSum(rows)[k] == Spec(app, records)[k] {
      var i :| 0 <= i < |pairs| && pairs[i].key == k;
      GroupSumOfOne(rows, i);
      assert rows[i] in rows;
      ExpectedIsInt64(app, ValuesOf(records, k));
      ItoaInjective(rows[i].value, Expected(app, ValuesOf(records, k)));
    }
  }

  /**
   The distributed job refines the group-by: after a clean map phase and a crash-free reduce
   phase the table holds for every key the number that the records of the files ask for.
   */
  lemma EndToEnd(job: Job, run: Run, table: map<string, int>, replace: bool)
    requires Happens(job, run) && job.WellFormed() && Listing.Clean(run.phase)
    ensures Import(table, replace, FlatMap(FileRows, Outputs(job, run))) ==
            (if replace then map[] else table) + Spec(job.app, job.AllRecords())
  {
    hide Complete, Happens, Job.WellFormed, Job.AllRecords, GroupSum, Spec, Outputs;
    JobAnswers(job, run);
    SumIsIdentity(job.app, job.AllRecords(), AllPairs(Outputs(job, run)));
    StagedRows(Outputs(job, run));
  }

  /**
   The same for Redis, key by key: under the prefix the numbers of the specification, and nothing
   else when Replace is set; everything else stays as it was.
   */
  lemma EndToEndRedis(job: Job, run: Run, db: map<string, string>, prefix: string, replace: bool, q: string)
    requires Happens(job, run) && job.WellFormed() && Listing.Clean(run.phase)
    ensures var spec := Spec(job.app, job.AllRecords());
            var after := RedisImport(db, prefix, replace, AllPairs(Outputs(job, run)));
            if prefix <= q && q[|prefix|..] in spec then q in after && after[q] == Itoa(spec[q[|prefix|..]])
            else if replace && prefix <= q then q !in after
            else (q in after <==> q in db) && (q in db ==> after[q] == db[q])
  {
    hide Complete, Happens, Job.WellFormed, Job.AllRecords, GroupSum, Spec, Outputs, Canonical, RedisImport, Itoa;
    var pairs := AllPairs(Outputs(job, run));
    JobAnswers(job, run);
    CompleteIsCanonical(job.app, job.AllRecords(), pairs);
    RedisHolds(db, prefix, replace, pairs, q);
    SumIsIdentity(job.app, job.AllRecords(), pairs);
  }

  /** The numbers among the values of `k` in the records, each as often as it occurs. */
  function NumbersOf(job: Job, k: string): seq<int> {
    Ints(ValuesOf(job.AllRecords(), k))
  }

  /** A record of the files with key `k` whose value is the number `n`. */
  ghost predicate HasNumber(records: seq<KV>, k: string, n: int) {
    exists v :: KV(k, v) in records && IsNumber(v, n)
  }

  lemma NumbersAre(job: Job, k: string, n: int)
    ensures n in NumbersOf(job, k) <==> HasNumber(job.AllRecords(), k, n)
  {
    var records := job.AllRecords();
    var values := ValuesOf(records, k);
    hide Job.AllRecords, ValuesOf, IsNumber;
    IntsAre(values, n);
    if i :| 0 <= i < |values| && IsNumber(values[i], n) {
      ValuesOfCount(records, k, values[i]);
      assert values[i] in multiset(values);
      assert KV(k, values[i]) in multiset(records);
    }
    if v :| KV(k, v) in records && IsNumber(v, n) {
      ValuesOfCount(records, k, v);
      assert KV(k, v) in multiset(records);
      assert v in multiset(values);
      var i :| 0 <= i < |values| && values[i] == v;
    }
  }

  /** In the table of a finished job, with Replace set, each key of the records has its number. */
  lemma JobTable(job: Job, run: Run, table: map<string, int>, k: string)
    requires Happens(job, run) && job.WellFormed() && Listing.Clean(run.phase)
    ensures var after := Import(table, true, FlatMap(FileRows, Outputs(job, run)));
            && (k in after <==> exists v :: KV(k, v) in job.AllRecords())
            && (k in after ==> after[k] == Expected(job.app, ValuesOf(job.AllRecords(), k)))
  {
    hide Happens, Job.WellFormed, Job.AllRecords, Outputs, Expected, ValuesOf;
    EndToEnd(job, run, table, true);
    KeysAre(job.AllRecords(), k);
  }

  /** minmax: the least or the greatest number of the key, or their difference. */
  lemma MinMaxJob(job: Job, run: Run, table: map<string, int>, k: string) returns (lo: int, hi: int)
    requires Happens(job, run) && job.WellFormed() && Listing.Clean(run.phase) && job.app.MinMax?
    requires exists v :: KV(k, v) in job.AllRecords()
    ensures var after := Import(table, true, FlatMap(FileRows, Outputs(job, run)));
            && k in after
            && (NumbersOf(job, k) == [] ==> after[k] == 0)
            && (NumbersOf(job, k) != [] ==>
                  && HasNumber(job.AllRecords(), k, lo) && HasNumber(job.AllRecords(), k, hi)
                  && after[k] == match job.app.mode case Min => lo case Max => hi case Spread => Wrap64(hi - lo))
    ensures forall n :: HasNumber(job.AllRecords(), k, n) ==> lo <= n <= hi
  {
    hide Happens, Job.WellFormed, Job.AllRecords, Outputs, ValuesOf, HasNumber, Ints, Import, FileRows;
    JobTable(job, run, table, k);
    lo, hi := MinMaxMeans(ValuesOf(job.AllRecords(), k));
    NumbersAre(job, k, lo);
    NumbersAre(job, k, hi);
    forall n | HasNumber(job.AllRecords(), k, n) ensures lo <= n <= hi {
      NumbersAre(job, k, n);
    }
  }

  /** topn: a number of the key, fewer than n greater, at least n (or all) not smaller. */
  lemma TopNJob(job: Job, run: Run, table: map<string, int>, k: string)
    requires Happens(job, run) && job.WellFormed() && Listing.Clean(run.phase) && job.app.TopN?
    requires exists v :: KV(k, v) in job.AllRecords()
    ensures var after := Import(table, true, FlatMap(FileRows, Outputs(job, run)));
            var numbers := NumbersOf(job, k); var n := job.app.n;
            && k in after
            && (numbers == [] ==> after[k] == 0)
            && (numbers != [] ==>
                  && HasNumber(job.AllRecords(), k, after[k])
                  && Sum(Above(after[k]), numbers) < n
                  && Sum(AtLeast(after[k]), numbers) >= if n <= |numbers| then n else |numbers|)
  {
    hide Happens, Job.WellFormed, Job.AllRecords, Outputs, ValuesOf, HasNumber, Ints, Import, FileRows, Sum;
    JobTable(job, run, table, k);
    if NumbersOf(job, k) != [] {
      TopNIsNthLargest(ValuesOf(job.AllRecords(), k), job.app.n);
      NumbersAre(job, k, TopOf(job.app.n, NumbersOf(job, k)));
    }
  }

  /** agg: the sum of the numbers of the key. */
  lemma AggJob(job: Job, run: Run, table: map<string, int>, k: string)
    requires Happens(job, run) && job.WellFormed() && Listing.Clean(run.phase) && job.app == Agg
    requires exists v :: KV(k, v) in job.AllRecords()
    ensures var after := Import(table, true, FlatMap(FileRows, Outputs(job, run)));
            k in after && after[k] == Wrap64(Sum((n: int) => n, NumbersOf(job, k)))
  {
    hide Happens, Job.WellFormed, Job.AllRecords, Outputs, ValuesOf, Ints, Import, FileRows, Wrap64;
    JobTable(job, run, table, k);
    SumOfSame((n: int) => n, NumbersOf(job, k));
  }

  lemma {:induction false} SumOfSame(f: int -> int, xs: seq<int>)
    requires forall n :: f(n) == n
    ensures Sum(Same, xs) == Sum(f, xs)
  {
    if xs != [] {
      SumOfSame(f, xs[1..]);
    }
  }

  /**
   The count job without failed RPCs: the table maps each key to the number of lines that have
   three columns and that key in the second.
   */
  lemma CountJob(job: Job, run: Run, table: map<string, int>, k: string)
    requires Happens(job, run) && job.WellFormed() && job.app == Count
    requires forall a :: 0 <= a < |run.phase.attempts| ==> run.phase.attempts[a].pc != Dispatch.Ended(false)
    requires |job.AllRecords()| <= MAX_INT64
    ensures var after := Import(table, true, FlatMap(FileRows, Outputs(job, run)));
            && (k in after <==> k in Keys(job.AllRecords()))
            && (k in after ==> after[k] == |ValuesOf(job.AllRecords(), k)|)
  {
    hide Job.WellFormed, Job.AllRecords, Outputs;
    DispatchRuns.NoSendAfterClose(job.Phase(), run.phase);
    Listing.CrashFreeIsClean(job.Phase(), run.phase);
    EndToEnd(job, run, table, true);
    ValuesOfLength(job.AllRecords(), k);
  }

  /**
   Neither the numbers of reducers, tasks and workers nor the hash function nor the course of
   the run has an influence on the table.
   */
  lemma ReducerCountIndependence(job: Job, run: Run, job': Job, run': Run, table: map<string, int>, replace: bool)
    requires Happens(job, run) && job.WellFormed() && Listing.Clean(run.phase)
    requires Happens(job', run') && Listing.Clean(run'.phase)
    requires job.app == job'.app && job.files == job'.files
    ensures Import(table, replace, FlatMap(FileRows, Outputs(job, run))) ==
            Import(table, replace, FlatMap(FileRows, Outputs(job', run')))
  {
    hide Happens, Import, FileRows, Outputs, Spec;
    EndToEnd(job, run, table, replace);
    EndToEnd(job', run', table, replace);
  }
}

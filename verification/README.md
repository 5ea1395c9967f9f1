# A verified model of mrkit-go

mrkit-go is a small MapReduce runtime. A master cuts input files into byte ranges, hands one map
task to each worker, re-executes the tasks of workers whose RPC failed, and then hands the
partitions to reducers. Workers partition what the map function emits, write it to intermediate
files, fetch, sort and group it for the reduce function, and print one line per key. Sources export
MySQL or Redis data to the input files, sinks import the printed lines.

This project models the parts in which something can go wrong between components, and proves what
they promise for every input, every run and every reachable state:

* **Dispatch** (`Dispatch`, `DispatchRuns`, `Listing`, `Claiming`, `ReduceStart`). The map phase is a transition system whose
  steps are the single actions of the goroutines: store the task, return of the RPC, mark the
  worker, send the message, take it, hand it over, claim a worker, reassign. The worker side of a
  call (write the files, report them) runs on its own and may go on after the master gave the call
  up. Proved: each task is in exactly one place; the stream closes only when each task has
  succeeded exactly once; the number of RPCs and of steps is bounded; there is no deadlock while a
  worker is left; the lists given to the reducers are right *if and only if* no failed attempt
  reported its files and no listed worker was written by a second attempt; and the reduce phase gets
  its workers *if and only if* the reducers and the failed RPCs together are no more than the workers.
* **Data path** (`Splitting`, `Input`, `Partition`, `Codec`, `Shuffle`, `Grouping`, `Apps`, `Sink`,
  `Job`, `JobResult`, `JobExists`, `Exported`). Each stage has its own theorem, and `JobResult.EndToEnd` puts
  them together: in every run with a clean map phase and a crash-free reduce phase the table in the
  sink is the group-by of the records of the files, whatever the numbers of workers, tasks and
  reducers, the hash function, the interleaving and the unstable sort. A job has such a run if and
  only if it has at least as many workers as reducers (`JobExists.CanFinishIffEnoughWorkers`).
* **RESP** (`Resp`, `RespFraming`). The hand-written client for the Redis serialization protocol
  (RESP2; sections "Simple strings", "Simple errors", "Integers", "Bulk strings" and "Arrays" of its
  specification): round trips for commands and for nested replies with the exact condition, and
  framing under any cut of the byte stream.
* **Sharded export** (`Shards`, `ExportPool`). The int64 arithmetic of the shards with the exact
  condition under which they cover the keys, and the worker pool as a transition system.
* **The master's record** (`Master`). The object with its lists of workers and tasks.

`Text` and `Seqs` hold the string functions of Go's standard library that the program uses, and
concatenations and sums over sequences. A `char` stands for one byte. `int` arithmetic that can
overflow in Go is wrapped explicitly (`Text.Wrap64`). Loops of the source are methods with
invariants, proved against functions; the theorems are about these functions.

Results that contradict what one might expect of the code:

* A map phase that recovers from a failed RPC with no spare worker always gives the reducers a
  wrong set of files (`Listing.NoSpareWorkerNoRecovery`), because intermediate files are named by
  worker and reducer only.
* A map phase can recover from a failed RPC and still leave the job without an end: the master then
  scans for ever for the workers of the reducers (`ReduceStart.ReduceStartsIff` gives the exact
  condition, `ReduceStart.RecoveryCanStopReduce` a run).
* The export pool can hang if and only if it has fewer workers than shards, that is, if Parallel is
  less than the number of shards (`ExportPool.CanHangIffFewerWorkers`, `ExportPool.ExportCanHangIff`).
* No number of shards covers a table whose greatest key is the greatest int64
  (`Shards.GreatestIsLost`).
* Each map task trims the white space around its own chunk. A record can be lost or cut by that if
  and only if its third column does not end visibly and nothing visible follows it
  (`Input.AllSplitsFindAllIffSafe`, for lines with an id in their first column;
  `Input.BlankIdShiftsColumns` shows why the id is needed). So a NULL metric, exported as an empty
  column, is counted or not depending on where the file is cut.
* Intermediate files lose an empty last value (`Codec.EmptyLastValueIsLost`, exact condition
  `Codec.RoundTripIffCodable`), and printed lines lose a key with a blank (`Sink.BlankInKeyIsCut`,
  exact condition `Sink.OutputReadBack`), so the end-to-end theorem asks for keys that are words.
* `docs/transforms.md` (line 34) asks for one reducer for `minmax` and `topN`, and
  `batch/flow_v1.go` (line 80) rejects more for the builtin transforms. The runtime itself sends all
  values of a key to one reducer, so the result is the same for every number of reducers
  (`JobResult.ReducerCountIndependence`); the restriction is not needed for correctness.

## Model

| member | source | states |
|---|---|---|
| `DispatchRuns.RunInv` | master/master.go:212-299 | every state of every run of the map phase, with any failed RPCs, keeps the invariant: where each task is, who keeps each worker busy, which crashes were consumed, what `taskStates` and the counter hold |
| `DispatchRuns.TaskIsInOnePlace` | master/master.go:212-299 | in every reachable state each map task is in exactly one place: a live attempt, a queued or held crash report, or a success |
| `DispatchRuns.CloseMeansAllSucceeded` | master/master.go:212-238 | when `orDone` closes, every task succeeded exactly once, all other attempts failed and ended, and `finish` and the shared `crashChan` are empty |
| `DispatchRuns.NoSendAfterClose` | master/master.go:245-264 | nothing is ever sent on the closed `finish` channel |
| `DispatchRuns.OneCallPerWorker` | master/master.go:134-166 | no worker has two outstanding Map RPCs, and a worker that is called is marked BUSY |
| `DispatchRuns.UnknownIsAbsorbing` | master/workerInfo.go:27-42 | a worker that is UNKNOWN stays UNKNOWN under every step |
| `DispatchRuns.ReexecutionNeverSkips` | master/master.go:269-281 | the claimed worker is never the crashed one and the task is always found: both `continue` branches are unreachable, and the re-execution is of the crashed task |
| `DispatchRuns.CrashedTaskIsKept` | master/master.go:252-258 | `taskStates` of a worker that is about to report a crash holds the task it crashed on |
| `DispatchRuns.AttemptBound` | master/master.go:240-299 | a run issues at most tasks + workers - 1 Map RPCs |
| `DispatchRuns.ListsGrow` | master/master.go:57-65 | the lists of intermediate files only grow at their end, by the attempt that reports |
| `DispatchRuns.SomeStepIsEnabled` | master/master.go:140-162 | no deadlock: until the phase is over some step is possible as long as some worker is not UNKNOWN, whatever the channels hold |
| `DispatchRuns.StepDecreases` | master/master.go:252-296 | every step decreases a measure over live workers and outstanding work |
| `DispatchRuns.RunsAreBounded` | master/master.go:240-299 | no run of the map phase has more than 10 * workers + 7 * tasks + 1 steps |
| `Listing.ListedOnceIffClean` | master/master.go:57-69 | the lists of intermediate files name the buckets of every task exactly once if and only if no failed attempt reported and no listed worker was written by a second attempt |
| `Listing.CrashFreeIsClean` | master/master.go:240-267 | a map phase without a failed RPC is clean |
| `Listing.NoSpareWorkerNoRecovery` | master/master.go:269-295 | with as many workers as tasks, every map phase that went through a failed RPC hands the reducers a wrong set of files |
| `Listing.RecoveryWithoutSpareLosesATask` | worker/worker.go:176-183 | a concrete run: two workers, one failed RPC, one task listed twice and the other never |
| `Listing.RecoveryWithSpareIsClean` | master/master.go:269-295 | a concrete run with a spare worker that recovers from a failed RPC and lists every task once |
| `Listing.LateReportRepeatsATask` | worker/worker.go:97-106 | a concrete run in which a worker that was given up goes on and reports: the task is listed twice, spare worker or not |
| `Master.Master.constructor` | master/master.go:30-41 | the initial record: no worker, one empty list per reduce task |
| `Master.Master.WorkerRegister` | master/master.go:45-55 | the worker is appended idle and its id is its index |
| `Master.Master.ServiceDiscovery` | master/master.go:71-81 | the address of the last worker with that UUID, or the empty string |
| `Master.AddressIsOwn` | master/master.go:71-81 | with distinct UUIDs, every worker is found under its own address |
| `Master.AddressIsLast` | master/master.go:74-80 | of several workers with a UUID the last answers, and for an unknown one the empty string does |
| `Master.Master.UpdateIMDInfo` | master/master.go:57-69 | one entry is appended to the list of each reduce task named, nothing else changes, the lists remain those of the log of all reports, and it panics exactly when there are more files than reduce tasks |
| `Master.ListsAreAligned` | master/master.go:57-69 | entry j of the list of every reduce task comes from report j |
| `Master.Master.DistributeWork` | master/master.go:102-132 | every task holds one entry per file, in order, that names the file and makes the worker read exactly its chunk of whole lines; together the tasks read every file from the first byte to the last |
| `Master.Master.DistributeFile` | master/master.go:114-129 | one file: each task gets one more entry, which names the file and makes the worker read its chunk |
| `Master.TasksReadAll` | master/master.go:109-130 | tasks with such entries read, put together in order, the whole of each file |
| `Master.Master.AvailableWorkers` | master/master.go:134-166 | for every number of turns of its loops, with enough idle workers or not: chosen workers, states and whether it returned are those of the scan, and no worker is changed but for its state |
| `Claiming.ReturnsIffEnoughIdle` | master/master.go:140-162 | the scan returns at some turn if and only if there is a worker at all and at least `num` are idle; otherwise it goes on for ever |
| `Claiming.ReturnedClaim` | master/master.go:144-165 | when it returns, the first `num` idle workers were taken, all different, and exactly these were marked BUSY |
| `Claiming.FirstClaim` | master/master.go:248-249 | the first claim on idle workers leaves them as the dispatch protocol starts with them |
| `ReduceStart.NobodyBusyAtEnd` | master/master.go:252-264 | when the map phase is over no worker is BUSY, in any run |
| `ReduceStart.OneWorkerPerFailure` | master/master.go:255-258 | there are exactly as many UNKNOWN workers as failed Map RPCs |
| `ReduceStart.ReduceStartsIff` | master/master.go:309-309 | the reduce phase gets its workers if and only if reducers plus failed Map RPCs are at most the registered workers |
| `ReduceStart.RecoveryCanStopReduce` | master/master.go:309-309 | a concrete run of two workers and two reducers that recovers from a failed RPC and then never starts to reduce |
| `Splitting.FileLineOffsets` | master/master.go:185-210 | the offsets of all line starts and of the end of the file |
| `Splitting.LineOffsetsAt` | master/master.go:192-209 | the k-th offset is the number of bytes before line k |
| `Splitting.ChunkIsLines` | worker/worker.go:114-140 | what a task reads is within the file and is exactly the lines of its share, whole |
| `Splitting.ChunksMakeTheFile` | master/master.go:102-132 | the chunks of all tasks in order make up the file; ranges are contiguous from 0 to the end; shares differ by at most one line |
| `Input.LineKeptIffGuarded` | mrapps/count.go:17-24 | for a line with an id: trimming keeps its record if and only if its third column ends visibly or something visible follows it |
| `Input.ExportedRowKeptIff` | batch/mysql_batch/source.go:153-160 | for a row as it is exported: its record survives a trim if and only if the metric ends visibly |
| `Input.AllSplitsFindAllIffSafe` | mrapps/count.go:17-24 | for a text whose counting lines have an id: for every number of tasks the trimmed chunks hold exactly its records, in order, if and only if the third column of every counting line is guarded |
| `Input.EachTaskFindsItsOwn` | mrapps/count.go:17-24 | for every text and every number of tasks: when all records are found, no task loses or changes a record of its own chunk |
| `Input.EmptyLastColumnIsLost` | mrapps/count.go:17-24 | for all words: a line with an empty last column has a record, but none once it ends a trimmed chunk |
| `Input.BlankIdShiftsColumns` | mrapps/count.go:17-24 | for all words: a line with an empty first column that begins a trimmed chunk gives its third and fourth column instead of its second and third |
| `Exported.FileIsSafe` | batch/mysql_batch/source.go:151-160 | a file of exported rows with a word as id and key and a metric that ends visibly is safe from trimming, and its records are the keys and metrics of the rows |
| `Exported.ExportedIsWellFormed` | batch/mysql_batch/source.go:151-160 | a job over such files is well formed for every app, and its records are those of the rows |
| `Partition.RunInv` | worker/worker.go:58-94 | under every interleaving each KV is with its mapper, in the channel or in the right bucket, as often as it was emitted, and closing follows the count of `done` |
| `Partition.NeverPanics` | worker/emit.go:13-19 | nothing is sent on the closed channel, it is closed once, and no bucket index is out of range |
| `Partition.BucketsAreShares` | worker/worker.go:72-94 | when the loop is left, bucket r is exactly the multiset of emitted KVs of reducer r |
| `Partition.NeverStuck` | worker/worker.go:75-94 | until the loop is left some step is possible, in spite of the bounded channels |
| `Partition.RunsAreBounded` | worker/worker.go:75-94 | every run of the loop is finite, with a bound in the number of files and KVs |
| `Partition.NoFilesBlocks` | worker/worker.go:86-90 | without a file nothing is possible and the loop is never left |
| `Partition.ReducerIs` | worker/worker.go:158-165 | the reducer of a key is the remainder of the low 31 bits of its hash |
| `Codec.EncodeIMDKVs` | worker/imd_codec.go:5-19 | the builder loop writes one line per pair |
| `Codec.DecodeIMDKVs` | worker/imd_codec.go:21-42 | the decoding loop: trimmed text, lines cut at their first tab, lines without one skipped |
| `Codec.RoundTripIffCodable` | worker/imd_codec.go:5-42 | decode(encode(kvs)) = kvs if and only if keys have no tab or line feed, values no line feed, the first key begins and the last value ends with something visible |
| `Codec.ServingTrimIsHarmless` | worker/worker.go:246-253 | the additional trim before a file is sent changes nothing |
| `Codec.EmptyLastValueIsLost` | worker/imd_codec.go:21-42 | an empty value is lost at the end of a file and kept before it |
| `Codec.FileFormat` | worker/imd_codec.go:12-39 | the bytes of an intermediate file: key, tab, value, line feed, pair by pair; a line is cut at its first tab and skipped without one |
| `Shuffle.EmittedStands` | mrapps/count.go:15-30 | what a mapper emits for a chunk stands for its records: the same pairs, or for count the number of records of each key |
| `Shuffle.ReducerComputesSpec` | worker/worker.go:158-165 | the reducer of a key, given its part in any order, computes what the records of all files ask for |
| `Job.TasksHaveAllRecords` | master/master.go:102-132 | task by task and file by file, the records are the same multiset |
| `Job.BucketIsPart` | worker/worker.go:142-191 | a bucket is its reducer's part of what the attempt emitted and comes back unchanged from its file |
| `Job.ShuffleIsComplete` | worker/worker.go:97-106 | after a clean map phase every reducer fetches exactly its part of one list that stands for all records |
| `Job.OwnWorkers` | master/master.go:308-328 | the claim gives each reduce task a worker of its own |
| `Job.OutputOrder` | worker/worker.go:208-209 | so each reducer has an output file of its own, whatever the order of writing, and the sink reads each exactly once |
| `Grouping.NextRun` | worker/worker.go:216-224 | the two inner loops find the maximal run of equal keys and its values |
| `Grouping.ReduceLoop` | worker/worker.go:212-231 | the loop prints what feeding the groups one by one to the reduce function gives, including when it blocks |
| `Grouping.GroupsOfSorted` | worker/worker.go:199-231 | on a sorted list: one group per distinct key, keys strictly increasing, each with exactly the values of its key |
| `Grouping.LessIff` | worker/kv.go:15-19 | keys are in byte order: a proper prefix comes first, else the smaller byte at the first difference |
| `Grouping.ValuesOfCount` | worker/worker.go:220-224 | a value is among those of a key exactly as often as the pair is in the list |
| `Grouping.KeysAre` | worker/worker.go:214-219 | the keys are those that occur in a pair |
| `Grouping.OneLinePerGroup` | worker/worker.go:225-229 | if every call emits once, line i is the output of group i and nothing blocks |
| `Grouping.BlockedCalls` | worker/emit.go:7-19 | a call that emits nothing, or more than 100 pairs, blocks the loop for ever |
| `Grouping.TwoEmitsShiftLines` | worker/worker.go:225-229 | a reduce function that emits twice pairs later lines with earlier groups |
| `Apps.MapCount` | mrapps/count.go:15-30 | one KV per key of the trimmed chunk, with the number of its records, in any order |
| `Apps.MapRecords` | mrapps/agg.go:15-26 | one KV per line with three columns, in order |
| `Apps.RecordOfColumns` | mrapps/agg.go:20-24 | a line of three columns or more has its second as key and its third as value; a shorter one has no record |
| `Apps.RecordsOfLines` | mrapps/agg.go:16-25 | the records of a text are those of its lines, in order |
| `Apps.IntOfIff` | mrapps/agg.go:32-35 | a value is seen as n if and only if without the white space around it it is a decimal numeral, with an optional sign, for an n in the range of int64; else as none |
| `Apps.IntsAre` | mrapps/topn.go:41-48 | a number is seen if and only if some value is that number |
| `Apps.PrintedIsNumber` | mrapps/agg.go:32-35 | a printed int64, also with white space around it, is seen as itself |
| `Text.AtoiIffDenotes` | mrapps/agg.go:32-32 | strconv.Atoi gives v if and only if v fits in an int64 and the text denotes it in base ten |
| `Text.ItoaDenotes` | mrapps/count.go:44-44 | what strconv.Itoa prints denotes the number, without a plus or leading zeros |
| `Text.TrimDropsBlanks` | mrapps/count.go:17-17 | strings.TrimSpace removes white space from the two ends and nothing else |
| `Text.TrimOfPadded` | mrapps/count.go:36-36 | and all of it |
| `Apps.ReduceCount` | mrapps/count.go:33-45 | the int64 sum in which what is not a number counts 1 |
| `Apps.CountAddsUp` | mrapps/count.go:34-43 | count of nothing is 0; a further value adds the number it is, or 1 if it is none, in int64 |
| `Apps.ReduceAgg` | mrapps/agg.go:29-39 | the int64 sum of the numbers among the values |
| `Apps.AggAddsUp` | mrapps/agg.go:30-37 | agg of nothing is 0; a further value adds the number it is, in int64, or nothing if it is none |
| `Apps.ReduceMinMax` | mrapps/minmax.go:35-81 | least, greatest or their difference; 0 without a number |
| `Apps.Extremes` | mrapps/minmax.go:45-65 | the loop finds the least and the greatest of the numbers, if there is one |
| `Apps.MinMaxMeans` | mrapps/minmax.go:66-80 | mode min gives a number of the values that none is below, max one that none is above, range their int64 difference; 0 without a number |
| `Apps.MinIsLeast` | mrapps/minmax.go:45-65 | the minimum is one of the numbers and none is smaller |
| `Apps.MaxIsGreatest` | mrapps/minmax.go:45-65 | the maximum is one of the numbers and none is greater |
| `Apps.ReduceTopN` | mrapps/topn.go:33-60 | the n-th of the numbers in descending order, the last if there are fewer, 0 if there are none |
| `Apps.TopOfNothing` | mrapps/topn.go:49-52 | 0 without a number |
| `Apps.TopNIsNthLargest` | mrapps/topn.go:41-59 | the result is one of the numbers, fewer than n are greater and at least min(n, count) are not smaller |
| `Apps.DescendingUnique` | mrapps/topn.go:54-54 | any two descending rearrangements are the same list, so the choice of the sort does not matter |
| `Apps.ReduceIgnoresOrder` | mrapps/topn.go:41-59 | no builtin reduce function depends on the order of its values |
| `Sink.LoadFile` | batch/mysql_batch/sink.go:121-153 | the rows of one file go on filling the open batch |
| `Sink.LoadReduceFiles` | batch/mysql_batch/sink.go:101-156 | the flushed batches are non-empty, at most batchSize long, full but for the last, and concatenate to the rows of all files |
| `Sink.ScanLinesAre` | batch/mysql_batch/sink.go:126-128 | the scanned lines are those between line feeds, without a carriage return at their end; a last line feed opens no further line |
| `Sink.DropCRIs` | batch/mysql_batch/sink.go:126-128 | exactly one carriage return at the end of a scanned line is taken off |
| `Text.FieldsStep` | batch/mysql_batch/sink.go:132-132 | strings.Fields: white space is skipped, and a run of anything else is a field |
| `Sink.RowOfIff` | batch/mysql_batch/sink.go:136-140 | a pair becomes a row with value v if and only if its value denotes an int64 v, and none otherwise |
| `Sink.StagedRows` | batch/mysql_batch/sink.go:121-140 | what MySQL stages is what its integer parser makes of the pairs that Redis stores |
| `Sink.ImportTwice` | batch/mysql_batch/sink.go:78-90 | importing the same outputs again changes nothing, with or without Replace |
| `Sink.RedisImportTwice` | batch/redis_batch/sink.go:48-103 | the same for Redis: a second import changes no key, with or without Replace |
| `Sink.GroupSumOfOne` | batch/mysql_batch/sink.go:84-90 | when each key has one row, the grouped sum of a key is the value of that row |
| `Sink.GroupSumNext` | batch/mysql_batch/sink.go:84-88 | row by row: the value is added to the sum of its key, and no other sum changes |
| `Sink.RedisImportFiles` | batch/redis_batch/sink.go:76-103 | the loops over files and lines: the pairs of all files written one after the other, the last writer wins |
| `Sink.RedisLastWriter` | batch/redis_batch/sink.go:48-97 | for any outputs: a further pair sets its key; a key that no pair names keeps its value, except that Replace removes it under the prefix |
| `Sink.OutputReadBack` | worker/worker.go:229-229 | what a reducer printed is read back pair by pair if and only if all keys and values are words |
| `Sink.OutputFormat` | worker/worker.go:229-229 | the bytes of an output file: key, blank, value, line feed, pair by pair |
| `Sink.BlankInKeyIsCut` | batch/mysql_batch/sink.go:128-140 | for all words: of a key with a blank the second word is read as the value |
| `Sink.RedisHolds` | batch/redis_batch/sink.go:48-103 | for every key of Redis: under the prefix canonical outputs leave the sum that MySQL would hold, and with Replace nothing else; every other key keeps its value |
| `Sink.SinksAgree` | batch/redis_batch/sink.go:48-104 | with Replace set and one canonical line per key both sinks hold the same keys and numbers |
| `Sink.TwoLinesDiffer` | batch/redis_batch/sink.go:91-93 | with two lines for a key MySQL adds and Redis keeps the last |
| `JobResult.OutputIsRead` | worker/worker.go:208-231 | the file of a reducer read by a sink gives one pair per group, with its number |
| `JobResult.ReducerAnswers` | worker/worker.go:193-237 | a reducer prints exactly the keys that belong to it, each once, with the number that all records ask for |
| `JobResult.JobAnswers` | worker/worker.go:193-237 | the sinks read exactly one pair for every key of the input, with the right number |
| `JobResult.SumIsIdentity` | batch/mysql_batch/sink.go:84-90 | on these pairs the grouped sum is the specification |
| `JobResult.EndToEnd` | batch/mysql_batch/sink.go:74-90 | after a clean map phase and a crash-free reduce phase the MySQL table is the group-by of the records of the files (over the old table unless Replace is set) |
| `JobResult.EndToEndRedis` | batch/redis_batch/sink.go:48-103 | the same for every key of Redis: the specification under the prefix, nothing else there with Replace, and every other key as it was |
| `JobResult.CountJob` | mrapps/count.go:15-45 | without a failed RPC the count table maps each key to exactly the number of lines with three columns that have it in the second |
| `JobResult.JobTable` | batch/mysql_batch/sink.go:74-90 | with Replace the keys of the table are those of the records, each with the number of its app |
| `JobResult.NumbersAre` | mrapps/minmax.go:48-52 | the numbers of a key are those for which the files have a record |
| `JobResult.AggJob` | mrapps/agg.go:29-39 | the agg table holds for each key the int64 sum of its numbers |
| `JobResult.MinMaxJob` | mrapps/minmax.go:35-81 | the minmax table holds for each key the least or the greatest number that the files have for it, or their difference |
| `JobResult.TopNJob` | mrapps/topn.go:33-60 | the topn table holds for each key a number that the files have for it, with fewer than n greater and at least min(n, count) not smaller |
| `JobResult.ReducerCountIndependence` | worker/worker.go:158-165 | the table is the same for any two numbers of reducers, tasks and workers, hash functions and runs |
| `JobExists.EveryJobCanFinish` | master/master.go:240-299 | with at least as many workers as reducers every job has a run without a failed RPC |
| `JobExists.RunNeedsWorkers` | master/master.go:309-309 | a run that ends has reducers plus failed Map RPCs at most the registered workers |
| `JobExists.CanFinishIffEnoughWorkers` | util.go:80-83 | a job has a run that ends if and only if it has at least as many workers as reducers |
| `Resp.Client.ReadResp` | batch/redis_batch/config.go:100-169 | the reader returns what the parsing function gives and leaves exactly its rest, for every input |
| `Resp.Client.ReadBody` | batch/redis_batch/config.go:105-168 | the cases by type, including nil for negative lengths and the failures |
| `Resp.Client.ReadItems` | batch/redis_batch/config.go:157-165 | the element loop, with its early return |
| `Resp.Client.Do` | batch/redis_batch/config.go:68-96 | one command is appended to what was sent and one reply is taken off, an error reply is an error; when the write fails, a prefix is sent and nothing is read |
| `Resp.EncodeRequest` | batch/redis_batch/config.go:69-83 | the builder loop writes the array of bulk strings |
| `Resp.Parse` | batch/redis_batch/config.go:100-169 | never leaves more than it got, and a value always takes at least one byte: the recursion ends on every input |
| `RespFraming.RoundTrip` | batch/redis_batch/config.go:100-169 | for every nested reply that can be sent and every suffix: the value comes back, both nulls as nil, and exactly the suffix is left |
| `RespFraming.RoundTripAll` | batch/redis_batch/config.go:157-165 | any number of replies in a row stays in step |
| `RespFraming.RoundTripIffSendable` | batch/redis_batch/config.go:100-169 | it comes back if and only if lines have no line feed and numbers and lengths fit in int64, at every depth |
| `RespFraming.RequestRoundTrip` | batch/redis_batch/config.go:68-83 | the bytes of a command are read as its name, each letter a-z replaced by A-Z and everything else as it is, and its arguments, byte for byte, and the suffix is left |
| `RespFraming.RequestIs` | batch/redis_batch/config.go:73-83 | the bytes of a command: the count and, for the name and each argument, length and bytes, with the markers of RESP2 |
| `RespFraming.ReadsLines` | batch/redis_batch/config.go:106-117 | "+" reads a simple string and "-" an error, up to the line feed and without the carriage return before it, if there is one |
| `RespFraming.ReadsNumbers` | batch/redis_batch/config.go:118-165 | ":" reads an integer; every negative length after "$" or "*" gives nil; other lengths after "*" read that many elements |
| `RespFraming.ReadsBulk` | batch/redis_batch/config.go:140-144 | "$" reads as many bytes as announced and skips two more, whatever they are |
| `RespFraming.ReadsShortBulk` | batch/redis_batch/config.go:140-143 | a bulk string that is cut off meets the end of the input; a length whose buffer overflows is refused |
| `RespFraming.ReadsItems` | batch/redis_batch/config.go:157-165 | elements are read one after the other, and the first failure is the failure of the array |
| `RespFraming.Refuses` | batch/redis_batch/config.go:100-168 | any other first byte, a number that is no int64, and the end of the input inside a line are failures, with exactly the bytes read taken off |
| `RespFraming.Stable` | batch/redis_batch/config.go:100-169 | any outcome but the end of the input stays the same when more bytes follow, which are left unread |
| `RespFraming.IncompleteIsOpen` | batch/redis_batch/config.go:100-169 | no proper prefix of a reply is read as a value or as any failure but the end of the input |
| `Shards.MakeShards` | batch/mysql_batch/source.go:59-79 | the loop in wrapping int64 arithmetic makes the list of shards |
| `Shards.StepIs` | batch/mysql_batch/source.go:59-63 | the step is the rounded-up share, or 1 when the sum overflows |
| `Shards.FittingList` | batch/mysql_batch/source.go:70-79 | when the condition holds the list is the consecutive ranges of one step each, as many as the span needs |
| `Shards.CoversIffFits` | batch/mysql_batch/source.go:59-79 | every id from the least to the greatest is in exactly one shard if and only if the shards reach over the span and the end of the last fits in int64 |
| `Shards.EnoughRoom` | batch/mysql_batch/source.go:59-79 | that the two sums maxID - minID + Shards and maxID + step fit is enough |
| `Shards.GreatestIsLost` | batch/mysql_batch/source.go:72-76 | up to the greatest int64 no setting covers all ids |
| `Shards.ShardList` | batch/mysql_batch/source.go:70-79 | there are at most as many shards as asked for |
| `ExportPool.RunInv` | batch/mysql_batch/source.go:89-127 | in every state of every run the shards handed over are exported, failed or in one worker's hands, once; errors are seen or still to be seen |
| `ExportPool.SuccessIffNoFailure` | batch/mysql_batch/source.go:110-127 | when the pool returns, it reports success if and only if no export failed |
| `ExportPool.SuccessMeansExportedOnce` | batch/mysql_batch/source.go:110-133 | on success every shard was exported exactly once |
| `ExportPool.NeverTwice` | batch/mysql_batch/source.go:94-119 | in no run is a shard exported twice, or exported after it failed |
| `ExportPool.ErrorStopsProducer` | batch/mysql_batch/source.go:110-116 | an error that is waiting when the producer looks ends the handing over |
| `ExportPool.NothingHandedLater` | batch/mysql_batch/source.go:113-127 | after that no shard is handed over any more, and only the return follows |
| `ExportPool.StuckIffHanging` | batch/mysql_batch/source.go:110-119 | a pool that has not returned can go on unless its producer sends while all workers have quit |
| `ExportPool.CanHangIffFewerWorkers` | batch/mysql_batch/source.go:89-119 | some run of the pool hangs if and only if it has fewer workers than shards |
| `ExportPool.PoolSize` | batch/mysql_batch/source.go:81-87 | the number of goroutines: Parallel, but at most the number of shards and at least one |
| `ExportPool.ExportCanHangIff` | batch/mysql_batch/source.go:81-119 | in terms of the settings: the export can hang if and only if Parallel is less than the number of shards |
| `ExportPool.RunsAreBounded` | batch/mysql_batch/source.go:89-127 | every run has at most 4 * shards + workers + 3 steps |

## Left out

- gRPC, timeouts and the generated code: an RPC is a step that succeeds or fails, with its side effects.
- Reduce-phase crash recovery: the dispatcher reassigns the `workers` slice that its goroutines share (master/master.go:330) and outputs are named by worker, so data properties are claimed for crash-free reduce phases only.
- The hash function FNV-1a: it is an arbitrary function; only the mask and the modulus are modelled.
- White space and upper case outside ASCII.
- Registration during dispatch: the set of workers is fixed once dispatch starts, and UUIDs are distinct.
- The busy waiting of `availableWorkers` within the map phase: in the transition system a claim waits until a worker is idle.
- The time of fetching: the reducers read lists and files at one moment after the map phase; what an attempt that was given up writes or reports between two fetches is not modelled.
- Writing the intermediate files of an attempt: one atomic step, after its partition loop.
- `Apps.ReduceTopN`: the in-place `sort.Slice` is a function on sequences, as any descending rearrangement is the same list.
- `Sink.ImportTwice`: SQL text, transactions, collation and a sum beyond BIGINT are not modelled; tables are maps.
- `Sink.RedisImportFiles`: the deletion by SCAN and DEL is one step that removes the keys under the prefix; patterns in the prefix are not interpreted, and the server is a map.
- `Sink.LoadReduceFiles`: the 64 KB limit of a scanned line, failing statements and the choice of files by a glob (with its error when nothing matches) are not modelled; the outputs read are those of the job.
- `Resp.Client.ReadResp`: memory limits for announced lengths are not modelled, except that the length of a bulk buffer overflowing int64 is a failure of its own.
- Exporting one shard: the query and the writing of its file.
- The Redis source, `toString`, configuration defaults and validation, plugins, command line, health checks (disabled in the source), port retries and the data generator: single branches or plumbing.
- The wc, merge and crash apps: no harder than count, or random on purpose.

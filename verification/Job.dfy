/**
 A whole job: the files are cut, mapped, shuffled, reduced and imported. The result is the
 group-by of the records of the files, whatever the numbers of workers and reducers and
 however the goroutines of master and workers interleave.
 */
module Job {
  import opened Apps
  import opened Codec
  import opened Grouping
  import opened Input
  import opened Seqs
  import opened Shuffle
  import opened Sink
  import opened Splitting
  import opened Text
  import Claiming
  import Dispatch
  import DispatchRuns
  import Listing
  import Partition

  /** What a job is started with. */
  datatype Job = Job(app: App, hash: string -> nat, nReduce: nat, nTasks: nat, nWorkers: nat, files: seq<string>) {
    ghost predicate Valid() {
      && nReduce >= 1 && 1 <= nTasks <= nWorkers && files != []
      && forall f :: 0 <= f < |files| ==> |files[f]| < MAX_INT64
    }

    function Phase(): Dispatch.Config {
      Dispatch.Config(nTasks, nWorkers)
    }

    /** All records, file by file and line by line. */
    function AllRecords(): seq<KV> {
      FlatMap(TextRecords, files)
    }

    /** Lines that count are safe from trimming, keys are words, and passed-on values end in something visible. */
    ghost predicate WellFormed() {
      && (forall f :: 0 <= f < |files| ==> SafeText(files[f]))
      && GoodRecords(app, AllRecords())
    }
  }

  /** One execution of a job. */
  datatype Run = Run(
    phase: Dispatch.State,          // the master and the workers when the reducers fetch
    emits: seq<seq<seq<KV>>>,       // what each attempt emitted for each file
    loops: seq<Partition.State>,    // where the partition loop of each attempt ended
    claimed: seq<nat>,              // the workers claimed for the reducers
    sorted: seq<seq<KV>>,           // the list of each reducer after its sort
    finished: seq<nat>,             // the reducers in the order in which they wrote their output
    listing: seq<nat>)              // the workers in the order in which the sink reads their outputs

  // ---- the map phase ----------------------------------------------------------------------

  /** An attempt at task `t` emitted what the map function may emit and ran its loop to the end. */
  ghost predicate Attempted(job: Job, t: nat, emits: seq<seq<KV>>, end: Partition.State) {
    && t < job.nTasks
    && |emits| == |job.files|
    && (forall f :: 0 <= f < |emits| ==> MayEmit(job.app, Chunk(job.files[f], job.nTasks, t), emits[f]))
    && Partition.Reachable(Partition.Config(emits, job.nReduce, job.hash), end) && end.exited
  }

  /** A map phase that came to its end; attempts that wrote their files did so after their loop. */
  ghost predicate Mapped(job: Job, run: Run)
    requires job.Valid()
  {
    && Dispatch.Reachable(job.Phase(), run.phase) && run.phase.main == Dispatch.Done
    && |run.emits| == |run.loops| == |run.phase.attempts| == |run.phase.remotes|
    && forall a :: 0 <= a < |run.emits| && run.phase.remotes[a] != Dispatch.Untouched ==>
         Attempted(job, run.phase.attempts[a].task, run.emits[a], run.loops[a])
  }

  /** The intermediate file that worker `w` has for reducer `r`. */
  function IMDFile(run: Run, w: nat, r: nat): string {
    if w in run.phase.files && run.phase.files[w] < |run.loops| && r < |run.loops[run.phase.files[w]].buckets|
    then Encode(run.loops[run.phase.files[w]].buckets[r])
    else []
  }

  /** What reducer `r` gets for an entry of its list of intermediate files. */
  function Fetch(run: Run, r: nat): nat -> seq<KV> {
    (a: nat) => if a < |run.phase.attempts| then Decode(TrimSpace(IMDFile(run, run.phase.attempts[a].worker, r))) else []
  }

  function ReduceInput(run: Run, r: nat): seq<KV> {
    FlatMap(Fetch(run, r), run.phase.imds)
  }

  // ---- the reduce phase -------------------------------------------------------------------

  /** Each builtin reduce function emits one pair: its key and a number. */
  function ReduceCall(app: App): (string, seq<string>) -> seq<KV> {
    (k: string, vs: seq<string>) => [KV(k, Itoa(ReduceValue(app, vs)))]
  }

  function OutputFile(app: App, sorted: seq<KV>): string {
    match Feed(Groups(sorted), [], ReduceCall(app))
    case Lines(lines) => OutputText(lines)
    case Blocked => []
  }

  /** availableWorkers came back with these workers. */
  ghost predicate ClaimedFor(states: seq<Dispatch.WorkerState>, num: nat, claimed: seq<nat>) {
    exists k :: ClaimedAfter(states, num, claimed, k)
  }

  ghost predicate ClaimedAfter(states: seq<Dispatch.WorkerState>, num: nat, claimed: seq<nat>, k: nat) {
    var sc := Claiming.After(Claiming.Start(states), num, k);
    sc.returned && sc.chosen == claimed
  }

  function Output(job: Job, run: Run, r: nat): string {
    if r < |run.sorted| then OutputFile(job.app, run.sorted[r]) else []
  }

  /** The worker of reduce task `r`: `workerID` goes round. */
  function WorkerFor(claimed: seq<nat>, r: nat): nat {
    if claimed == [] then 0 else claimed[r % |claimed|]
  }

  /** The outputs by the worker whose id is in their name, after the reduce tasks `rs` wrote theirs. */
  function Directory(job: Job, run: Run, rs: seq<nat>): map<nat, string> {
    if rs == [] then map[]
    else
      var n := |rs| - 1;
      Directory(job, run, rs[..n])[WorkerFor(run.claimed, rs[n]) := Output(job, run, rs[n])]
  }

  /** Each of the files is read once. */
  ghost predicate Lists(listing: seq<nat>, names: set<nat>) {
    && (forall i :: 0 <= i < |listing| ==> listing[i] in names)
    && (forall i, j :: 0 <= i < j < |listing| ==> listing[i] != listing[j])
    && (forall w :: w in names ==> w in listing)
  }

  /** The reducers sort what they fetched, in any order of equal keys. */
  ghost predicate Sorts(job: Job, run: Run) {
    && |run.sorted| == job.nReduce
    && forall r :: 0 <= r < job.nReduce ==>
         SortedByKey(run.sorted[r]) && multiset(run.sorted[r]) == multiset(ReduceInput(run, r))
  }

  /** A reduce phase without a failed RPC. */
  ghost predicate Reduced(job: Job, run: Run) {
    && ClaimedFor(run.phase.workers, job.nReduce, run.claimed)
    && Sorts(job, run)
    && Listing.IsEnumeration(run.finished, job.nReduce)
    && Lists(run.listing, Directory(job, run, run.finished).Keys)
  }

  /** The output files in the order in which the sink reads them. */
  function Outputs(job: Job, run: Run): (r: seq<string>)
    ensures |r| == |run.listing|
  {
    var dir := Directory(job, run, run.finished);
    seq(|run.listing|, i requires 0 <= i < |run.listing| => if run.listing[i] in dir then dir[run.listing[i]] else [])
  }

  ghost predicate Happens(job: Job, run: Run) {
    job.Valid() && Mapped(job, run) && Reduced(job, run)
  }

  // ---- records by file and records by task ------------------------------------------------

  /** All that task `t` finds. */
  function TaskRecords(files: seq<string>, n: nat): nat -> seq<KV> {
    (t: nat) => FlatMap(ChunkRecords(n, t), files)
  }

  function InFile(s: string, n: nat): nat -> seq<KV> {
    (t: nat) => ChunkRecords(n, t)(s)
  }

  lemma {:induction false} FoundInOrder(s: string, n: nat, k: nat)
    ensures FlatMap(InFile(s, n), Upto(k)) == FoundBy(s, n, k)
  {
    hide ChunkRecords;
    if k > 0 {
      FoundInOrder(s, n, k - 1);
      assert Upto(k) == Upto(k - 1) + [k - 1];
      FlatMapAppend<nat, KV>(InFile(s, n), Upto(k - 1), k - 1);
    }
  }

  /** Task by task or file by file, the records are the same. */
  lemma {:induction false} TasksHaveAllRecords(files: seq<string>, n: nat)
    requires n >= 1 && forall f :: 0 <= f < |files| ==> SafeText(files[f])
    ensures multiset(FlatMap(TaskRecords(files, n), Upto(n))) == multiset(FlatMap(TextRecords, files))
  {
    hide SafeText, TextRecords, ChunkRecords;
    if files == [] {
      NothingFound(n, Upto(n));
    } else {
      TasksHaveAllRecords(files[1..], n);
      FoundInOrder(files[0], n, n);
      TasksFindAllRecords(files[0], n);
      FlatMapPlus<nat, KV>(InFile(files[0], n), TaskRecords(files[1..], n), TaskRecords(files, n), Upto(n));
    }
  }

  lemma {:induction false} NothingFound(n: nat, ts: seq<nat>)
    ensures FlatMap(TaskRecords([], n), ts) == []
  {
    if ts != [] {
      NothingFound(n, ts[1..]);
    }
  }

  lemma ListedTasksHaveAllRecords(files: seq<string>, n: nat, listed: seq<nat>)
    requires n >= 1 && forall f :: 0 <= f < |files| ==> SafeText(files[f])
    requires Listing.IsEnumeration(listed, n)
    ensures multiset(FlatMap(TaskRecords(files, n), listed)) == multiset(FlatMap(TextRecords, files))
  {
    hide SafeText, TextRecords, ChunkRecords, TaskRecords;
    TasksHaveAllRecords(files, n);
    EnumerationBag(listed, n);
    FlatMapPerm<nat, KV>(TaskRecords(files, n), listed, Upto(n));
  }

  lemma EnumerationBag(xs: seq<nat>, n: nat)
    requires Listing.IsEnumeration(xs, n)
    ensures multiset(xs) == multiset(Upto(n))
  {
    assert Listing.Elements(xs) == Listing.Elements(Upto(n)) by {
      forall i | 0 <= i < n ensures i in Listing.Elements(xs) && i in Listing.Elements(Upto(n)) {
        assert i in xs;
        assert Upto(n)[i] == i;
      }
    }
    Listing.DistinctBag(xs, Upto(n));
  }

  /** Every record of a task is a record of the job. */
  lemma TaskRecordsAreRecords(files: seq<string>, n: nat, t: nat, f: nat)
    requires t < n && f < |files| && forall g :: 0 <= g < |files| ==> SafeText(files[g])
    ensures forall x :: x in ChunkRecords(n, t)(files[f]) ==> x in FlatMap(TextRecords, files)
  {
    hide SafeText, TextRecords, ChunkRecords;
    TasksFindAllRecords(files[f], n);
    InMany(files[f], n, n, t);
    InFlatMap(TextRecords, files, f);
  }

  lemma {:induction false} InMany(s: string, n: nat, k: nat, t: nat)
    requires t < k
    ensures forall x :: x in ChunkRecords(n, t)(s) ==> x in FoundBy(s, n, k)
  {
    hide ChunkRecords;
    if t < k - 1 {
      InMany(s, n, k - 1, t);
    }
  }

  lemma InFlatMap<T, U>(f: T -> seq<U>, xs: seq<T>, i: nat)
    requires i < |xs|
    ensures forall y :: y in f(xs[i]) ==> y in FlatMap(f, xs)
  {
    FlatMapConcat(f, xs[..i], xs[i..]);
    assert xs == xs[..i] + xs[i..];
    assert FlatMap(f, xs[i..]) == f(xs[i]) + FlatMap(f, xs[i + 1..]);
  }

  // ---- what the attempts emit -------------------------------------------------------------

  function Together(lists: seq<seq<KV>>): seq<KV> {
    FlatMap((xs: seq<KV>) => xs, lists)
  }

  function EmittedBy(run: Run): nat -> seq<KV> {
    (a: nat) => if a < |run.emits| then Together(run.emits[a]) else []
  }

  /** What one mapper of task `t` emits stands for the records of its chunk, and can be written. */
  ghost predicate Faithful(app: App, records: seq<KV>, emits: seq<KV>) {
    Stands(app, records, emits) && AllSound(emits)
  }

  lemma {:induction false} FaithfulTogether(app: App, f: string -> seq<KV>, files: seq<string>, emits: seq<seq<KV>>)
    requires |files| == |emits| && forall i :: 0 <= i < |files| ==> Faithful(app, f(files[i]), emits[i])
    ensures Faithful(app, FlatMap(f, files), Together(emits))
  {
    hide Stands, Sound;
    if files == [] {
      NothingStands(app);
    } else {
      FaithfulTogether(app, f, files[1..], emits[1..]);
      FaithfulConcat(app, f(files[0]), emits[0], FlatMap(f, files[1..]), Together(emits[1..]));
    }
  }

  lemma NothingStands(app: App)
    ensures Stands(app, [], [])
  {
  }

  lemma FaithfulConcat(app: App, r1: seq<KV>, e1: seq<KV>, r2: seq<KV>, e2: seq<KV>)
    requires Faithful(app, r1, e1) && Faithful(app, r2, e2)
    ensures Faithful(app, r1 + r2, e1 + e2)
  {
    hide Stands;
    StandsConcat(app, r1, e1, r2, e2);
  }

  lemma MapperIsFaithful(job: Job, t: nat, f: nat, emits: seq<KV>)
    requires job.Valid() && job.WellFormed() && t < job.nTasks && f < |job.files|
    requires MayEmit(job.app, Chunk(job.files[f], job.nTasks, t), emits)
    ensures Faithful(job.app, ChunkRecords(job.nTasks, t)(job.files[f]), emits)
  {
    hide MayEmit, Stands, SafeText, GoodRecord, Sound;
    var chunk := Chunk(job.files[f], job.nTasks, t);
    ChunkFits(job.files[f], job.nTasks, t);
    TaskRecordsAreRecords(job.files, job.nTasks, t, f);
    EmittedStands(job.app, chunk, emits);
    EmittedIsSound(job.app, chunk, emits);
  }

  lemma ChunkFits(s: string, n: nat, t: nat)
    requires t < n
    ensures |Chunk(s, n, t)| <= |s|
  {
    ChunkIsLines(s, n, t);
  }

  lemma AttemptIsFaithful(job: Job, t: nat, emits: seq<seq<KV>>, end: Partition.State)
    requires job.Valid() && job.WellFormed() && Attempted(job, t, emits, end)
    ensures Faithful(job.app, TaskRecords(job.files, job.nTasks)(t), Together(emits))
  {
    hide MayEmit, Faithful, SafeText, GoodRecords, ChunkRecords;
    forall f | 0 <= f < |emits| ensures Faithful(job.app, ChunkRecords(job.nTasks, t)(job.files[f]), emits[f]) {
      MapperIsFaithful(job, t, f, emits[f]);
    }
    FaithfulTogether(job.app, ChunkRecords(job.nTasks, t), job.files, emits);
  }

  // ---- what the reducers fetch ------------------------------------------------------------

  lemma {:induction false} BagTogether(lists: seq<seq<KV>>)
    ensures multiset(Together(lists)) == Partition.BagOf(lists)
  {
    if lists != [] {
      BagTogether(lists[1..]);
    }
  }

  /** A bucket is the part of its reducer, and comes back unchanged from its file. */
  lemma BucketIsPart(job: Job, t: nat, emits: seq<seq<KV>>, end: Partition.State, r: nat)
    requires job.Valid() && Attempted(job, t, emits, end) && r < job.nReduce
    requires AllSound(Together(emits))
    ensures |end.buckets| == job.nReduce
    ensures IsPart(job.hash, job.nReduce, r, Together(emits), end.buckets[r])
    ensures Decode(TrimSpace(Encode(end.buckets[r]))) == end.buckets[r]
  {
    hide MayEmit, Sound, Partition.Reachable;
    var c := Partition.Config(emits, job.nReduce, job.hash);
    Partition.BucketsAreShares(c, end, r);
    BagTogether(emits);
    PartIsSound(job.hash, job.nReduce, r, Together(emits), end.buckets[r]);
    SoundRoundTrip(end.buckets[r]);
  }

  lemma PartIsSound(hash: string -> nat, nReduce: nat, r: nat, all: seq<KV>, got: seq<KV>)
    requires nReduce > 0 && IsPart(hash, nReduce, r, all, got) && AllSound(all)
    ensures AllSound(got)
  {
    hide Sound, Partition.ReducerForKey;
    forall x | x in got ensures Sound(x) {
      assert x in multiset(got);
      assert x in multiset(all);
    }
  }

  lemma PartConcat(hash: string -> nat, nReduce: nat, r: nat, a1: seq<KV>, g1: seq<KV>, a2: seq<KV>, g2: seq<KV>)
    requires nReduce > 0 && IsPart(hash, nReduce, r, a1, g1) && IsPart(hash, nReduce, r, a2, g2)
    ensures IsPart(hash, nReduce, r, a1 + a2, g1 + g2)
  {
    hide Partition.ReducerForKey;
    assert multiset(a1 + a2) == multiset(a1) + multiset(a2);
    assert multiset(g1 + g2) == multiset(g1) + multiset(g2);
  }

  lemma {:induction false} PartOfEach(hash: string -> nat, nReduce: nat, r: nat, f: nat -> seq<KV>, g: nat -> seq<KV>, xs: seq<nat>)
    requires nReduce > 0 && forall i :: 0 <= i < |xs| ==> IsPart(hash, nReduce, r, f(xs[i]), g(xs[i]))
    ensures IsPart(hash, nReduce, r, FlatMap(f, xs), FlatMap(g, xs))
  {
    if xs != [] {
      hide IsPart;
      PartOfEach(hash, nReduce, r, f, g, xs[1..]);
      PartConcat(hash, nReduce, r, f(xs[0]), g(xs[0]), FlatMap(f, xs[1..]), FlatMap(g, xs[1..]));
    }
  }

  lemma {:induction false} FaithfulEach(app: App, f: nat -> seq<KV>, ts: seq<nat>, g: nat -> seq<KV>, xs: seq<nat>)
    requires |ts| == |xs| && forall i :: 0 <= i < |xs| ==> Faithful(app, f(ts[i]), g(xs[i]))
    ensures Faithful(app, FlatMap(f, ts), FlatMap(g, xs))
  {
    if xs == [] {
      NothingStands(app);
    } else {
      hide Faithful;
      FaithfulEach(app, f, ts[1..], g, xs[1..]);
      FaithfulConcat(app, f(ts[0]), g(xs[0]), FlatMap(f, ts[1..]), FlatMap(g, xs[1..]));
    }
  }

  /** The attempts that the master lists, their tasks, and that their files are still theirs. */
  lemma ListedAttempts(job: Job, run: Run) returns (listed: seq<nat>)
    requires job.Valid() && Mapped(job, run) && Listing.Clean(run.phase)
    ensures var s := run.phase;
            && Listing.IsEnumeration(listed, job.nTasks) && |listed| == |s.imds|
            && forall i :: 0 <= i < |s.imds| ==>
                 && s.imds[i] < |s.attempts| && s.attempts[s.imds[i]].task == listed[i]
                 && s.remotes[s.imds[i]] != Dispatch.Untouched
                 && s.attempts[s.imds[i]].worker in s.files && s.files[s.attempts[s.imds[i]].worker] == s.imds[i]
  {
    hide Listing.IsEnumeration, Attempted, Dispatch.Reachable;
    DispatchRuns.NoSendAfterClose(job.Phase(), run.phase);
    var winner := Listing.ClosedIsFinal(job.Phase(), run.phase);
    Listing.CleanIsComplete(job.Phase(), run.phase, winner);
    listed := Listing.Listed(run.phase);
    forall i | 0 <= i < |run.phase.imds|
      ensures run.phase.files[run.phase.attempts[run.phase.imds[i]].worker] == run.phase.imds[i]
    {
      Listing.CleanEntry(job.Phase(), run.phase, winner, i);
    }
  }

  /** An attempt in the list. */
  ghost predicate Entry(job: Job, run: Run, t: nat, a: nat) {
    && a < |run.emits| == |run.loops| == |run.phase.attempts|
    && Attempted(job, t, run.emits[a], run.loops[a])
    && var w := run.phase.attempts[a].worker;
       w in run.phase.files && run.phase.files[w] == a
  }

  lemma EntryIsFaithful(job: Job, run: Run, t: nat, a: nat)
    requires job.Valid() && job.WellFormed() && Entry(job, run, t, a)
    ensures Faithful(job.app, TaskRecords(job.files, job.nTasks)(t), EmittedBy(run)(a))
  {
    hide Attempted, Faithful, TaskRecords, Together;
    AttemptIsFaithful(job, t, run.emits[a], run.loops[a]);
  }

  lemma EntryIsPart(job: Job, run: Run, t: nat, a: nat, r: nat)
    requires job.Valid() && job.WellFormed() && Entry(job, run, t, a) && r < job.nReduce
    ensures IsPart(job.hash, job.nReduce, r, EmittedBy(run)(a), Fetch(run, r)(a))
  {
    hide Attempted, TaskRecords, Together, IsPart, Stands, AllSound, Decode, Encode, TrimSpace;
    AttemptIsFaithful(job, t, run.emits[a], run.loops[a]);
    BucketIsPart(job, t, run.emits[a], run.loops[a], r);
  }

  /**
   Shuffle correctness. After a clean map phase there is one list of emitted KVs that stands for
   the records of all files, and every reducer fetches exactly its part of it.
   */
  lemma ShuffleIsComplete(job: Job, run: Run) returns (all: seq<KV>)
    requires job.Valid() && job.WellFormed() && Mapped(job, run) && Listing.Clean(run.phase)
    ensures Stands(job.app, job.AllRecords(), all)
    ensures forall r :: 0 <= r < job.nReduce ==> IsPart(job.hash, job.nReduce, r, all, ReduceInput(run, r))
  {
    hide IsPart, Stands, Attempted, Listing.Clean, Listing.IsEnumeration, TaskRecords, EmittedBy, Fetch, Dispatch.Reachable;
    var listed := ListedAttempts(job, run);
    var xs := run.phase.imds;
    all := FlatMap(EmittedBy(run), xs);
    forall i | 0 <= i < |xs| ensures Entry(job, run, listed[i], xs[i]) {
    }
    hide Mapped, Entry;
    forall i | 0 <= i < |xs|
      ensures Faithful(job.app, TaskRecords(job.files, job.nTasks)(listed[i]), EmittedBy(run)(xs[i]))
    {
      EntryIsFaithful(job, run, listed[i], xs[i]);
    }
    FaithfulEach(job.app, TaskRecords(job.files, job.nTasks), listed, EmittedBy(run), xs);
    ListedTasksHaveAllRecords(job.files, job.nTasks, listed);
    StandsPerm(job.app, FlatMap(TaskRecords(job.files, job.nTasks), listed), job.AllRecords(), all);
    forall r | 0 <= r < job.nReduce ensures IsPart(job.hash, job.nReduce, r, all, ReduceInput(run, r)) {
      forall i | 0 <= i < |xs| ensures IsPart(job.hash, job.nReduce, r, EmittedBy(run)(xs[i]), Fetch(run, r)(xs[i])) {
        EntryIsPart(job, run, listed[i], xs[i], r);
      }
      PartOfEach(job.hash, job.nReduce, r, EmittedBy(run), Fetch(run, r), xs);
    }
  }

  // ---- where the outputs are --------------------------------------------------------------

  /** Each reducer has a worker of its own. */
  lemma OwnWorkers(job: Job, run: Run)
    requires job.Valid() && Reduced(job, run)
    ensures |run.claimed| == job.nReduce
    ensures forall r, q :: 0 <= r < q < job.nReduce ==> run.claimed[r] != run.claimed[q]
    ensures forall r :: 0 <= r < job.nReduce ==> WorkerFor(run.claimed, r) == run.claimed[r]
  {
    hide Sorts, Directory, Listing.IsEnumeration, Lists;
    var k :| ClaimedAfter(run.phase.workers, job.nReduce, run.claimed, k);
    Claiming.ReturnedClaim(run.phase.workers, job.nReduce, k);
    forall r | 0 <= r < job.nReduce ensures r % job.nReduce == r {
      SmallRemainder(r, job.nReduce);
    }
  }

  lemma SmallRemainder(r: nat, n: nat)
    requires r < n
    ensures r % n == r
  {
  }

  /** So each reducer has an output of its own, whatever the order of writing. */
  lemma {:induction false} OwnOutputs(job: Job, run: Run, rs: seq<nat>)
    requires |run.claimed| == job.nReduce
    requires forall r, q :: 0 <= r < q < job.nReduce ==> run.claimed[r] != run.claimed[q]
    requires forall r :: 0 <= r < job.nReduce ==> WorkerFor(run.claimed, r) == run.claimed[r]
    requires forall i :: 0 <= i < |rs| ==> rs[i] < job.nReduce
    ensures forall r :: 0 <= r < job.nReduce ==> (run.claimed[r] in Directory(job, run, rs) <==> r in rs)
    ensures forall r :: 0 <= r < job.nReduce && r in rs ==> Directory(job, run, rs)[run.claimed[r]] == Output(job, run, r)
    ensures forall w :: w in Directory(job, run, rs) ==> w in run.claimed
  {
    hide Output, WorkerFor;
    if rs != [] {
      var n := |rs| - 1;
      OwnOutputs(job, run, rs[..n]);
      assert rs == rs[..n] + [rs[n]];
      forall r | 0 <= r < job.nReduce && r != rs[n] ensures run.claimed[r] != run.claimed[rs[n]] {
        assert r < rs[n] || rs[n] < r;
      }
    }
  }

  /** A list of the claimed workers names each reducer once. */
  lemma OrderOfListing(listing: seq<nat>, names: set<nat>, claimed: seq<nat>) returns (order: seq<nat>)
    requires Lists(listing, names)
    requires forall w :: w in names <==> w in claimed
    requires forall r, q :: 0 <= r < q < |claimed| ==> claimed[r] != claimed[q]
    ensures Listing.IsEnumeration(order, |claimed|) && |order| == |listing|
    ensures forall i :: 0 <= i < |order| ==> order[i] < |claimed| && claimed[order[i]] == listing[i]
  {
    order := [];
    for i := 0 to |listing|
      invariant |order| == i
      invariant forall j :: 0 <= j < i ==> order[j] < |claimed| && claimed[order[j]] == listing[j]
    {
      assert listing[i] in claimed;
      var r :| 0 <= r < |claimed| && claimed[r] == listing[i];
      order := order + [r];
    }
    forall i, j | 0 <= i < j < |order| ensures order[i] != order[j] {
      assert listing[i] != listing[j];
    }
    forall r | 0 <= r < |claimed| ensures r in order {
      assert claimed[r] in names;
      var i :| 0 <= i < |listing| && listing[i] == claimed[r];
      assert order[i] < r || r < order[i] || order[i] == r;
    }
  }

  /** All workers claimed, and no other, have an output. */
  lemma OutputNames(job: Job, run: Run, rs: seq<nat>)
    requires |run.claimed| == job.nReduce && Listing.IsEnumeration(rs, job.nReduce)
    requires forall r :: 0 <= r < job.nReduce ==> (run.claimed[r] in Directory(job, run, rs) <==> r in rs)
    requires forall w :: w in Directory(job, run, rs) ==> w in run.claimed
    ensures forall w :: w in Directory(job, run, rs).Keys <==> w in run.claimed
  {
    var dir := Directory(job, run, rs);
    hide Directory;
    forall w | w in run.claimed ensures w in dir {
      var r :| 0 <= r < |run.claimed| && run.claimed[r] == w;
      assert r in rs;
    }
  }

  /** The sink reads the output of each reducer exactly once. */
  lemma OutputOrder(job: Job, run: Run) returns (order: seq<nat>)
    requires job.Valid() && Reduced(job, run)
    ensures Listing.IsEnumeration(order, job.nReduce) && |order| == |run.listing|
    ensures forall i :: 0 <= i < |order| ==> Outputs(job, run)[i] == Output(job, run, order[i])
  {
    hide Directory, Output, WorkerFor, Sorts, ClaimedFor, Lists;
    OwnWorkers(job, run);
    OwnOutputs(job, run, run.finished);
    OutputNames(job, run, run.finished);
    order := OrderOfListing(run.listing, Directory(job, run, run.finished).Keys, run.claimed);
    forall i | 0 <= i < |order| ensures Outputs(job, run)[i] == Output(job, run, order[i]) {
      assert order[i] in run.finished;
      assert run.claimed[order[i]] == run.listing[i];
    }
  }
}

/** Every job can run to its end, so what is proved about runs is about something. */
module JobExists {
  import opened Apps
  import opened Codec
  import opened Grouping
  import opened Job
  import opened Seqs
  import opened Shuffle
  import opened Splitting
  import opened Text
  import Claiming
  import Dispatch
  import Listing
  import Partition
  import ReduceStart

  // ---- the map phase ----------------------------------------------------------------------

  /** The first `k` tasks succeeded one after the other, and the others have not begun. */
  ghost predicate Advanced(c: Dispatch.Config, s: Dispatch.State, k: nat) {
    && |s.attempts| == |s.remotes| == c.tasks && |s.workers| == c.workers
    && s.finish == [] && s.count == k && s.main == Dispatch.Waiting
    && s.watcher == (if k == c.tasks then Dispatch.Closed else Dispatch.Listening)
    && (forall a :: 0 <= a < c.tasks ==> s.attempts[a].worker < c.workers)
    && (forall a :: 0 <= a < k && a < c.tasks ==> s.attempts[a].pc == Dispatch.Ended(true))
    && (forall a :: k <= a < c.tasks ==> s.attempts[a].pc == Dispatch.ToStore && s.remotes[a] == Dispatch.Untouched)
  }

  lemma {:induction false} Advance(c: Dispatch.Config, k: nat) returns (s: Dispatch.State)
    requires c.Valid() && k <= c.tasks
    ensures Dispatch.Reachable(c, s) && Advanced(c, s, k)
  {
    if k == 0 {
      s := Dispatch.Init(c);
      assert Dispatch.Exec(c, []) == Dispatch.At(s);
    } else {
      var before := Advance(c, k - 1);
      var sent := Listing.ReachSuccess(c, before, k - 1);
      hide Dispatch.Reachable;
      s := Listing.Reach(c, sent, Dispatch.TakeFinish);
    }
  }

  /** A map phase in which every RPC succeeds. */
  lemma PhaseEnds(c: Dispatch.Config) returns (s: Dispatch.State)
    requires c.Valid()
    ensures Dispatch.Reachable(c, s) && s.main == Dispatch.Done
    ensures |s.attempts| == |s.remotes|
    ensures forall a :: 0 <= a < |s.attempts| ==> s.attempts[a].task < c.tasks
    ensures forall a :: 0 <= a < |s.attempts| ==> s.attempts[a].pc != Dispatch.Ended(false)
  {
    s := Advance(c, c.tasks);
    var winner := Listing.ClosedIsFinal(c, s);
    s := Listing.Reach(c, s, Dispatch.Exit);
  }

  // ---- the partition loop -----------------------------------------------------------------

  lemma ReachStep(c: Partition.Config, s: Partition.State, st: Partition.Step) returns (s': Partition.State)
    requires Partition.Reachable(c, s) && Partition.Enabled(s, st)
    ensures Partition.Reachable(c, s') && s' == Partition.Apply(c, s, st)
  {
    var schedule :| Partition.Exec(c, schedule) == Partition.At(s);
    s' := Partition.Apply(c, s, st);
    assert (schedule + [st])[..|schedule|] == schedule;
    assert Partition.Exec(c, schedule + [st]) == Partition.At(s');
  }

  /** From every state that the loop can reach it can be left. */
  lemma {:induction false} LoopEnds(c: Partition.Config, s: Partition.State) returns (end: Partition.State)
    requires c.nReduce > 0 && |c.emits| > 0 && Partition.Reachable(c, s) && Partition.Measure(c, s) >= 0
    ensures Partition.Reachable(c, end) && end.exited
    decreases Partition.Measure(c, s)
  {
    if s.exited {
      return s;
    }
    var st := Partition.NeverStuck(c, s);
    var next := ReachStep(c, s, st);
    KnownInv(c, s);
    hide Partition.Reachable, Partition.Inv, Partition.Measure;
    Partition.StepDecreases(c, s, st);
    end := LoopEnds(c, next);
  }

  lemma KnownInv(c: Partition.Config, s: Partition.State)
    requires c.nReduce > 0 && |c.emits| > 0 && Partition.Reachable(c, s)
    ensures Partition.Inv(c, s) && Partition.Measure(c, s) >= 0
  {
    var schedule :| Partition.Exec(c, schedule) == Partition.At(s);
    Partition.RunInv(c, schedule, s);
    Partition.RunsAreBounded(c, schedule, s);
  }

  // ---- the map functions ------------------------------------------------------------------

  /** One KV for each of a set of keys. */
  lemma {:induction false} CombineKeys(records: seq<KV>, ks: set<string>) returns (emits: seq<KV>)
    ensures Keys(emits) == ks
    ensures forall i, j :: 0 <= i < j < |emits| ==> emits[i].key != emits[j].key
    ensures forall i :: 0 <= i < |emits| ==> emits[i].value == Itoa(|ValuesOf(records, emits[i].key)|)
    decreases |ks|
  {
    hide ValuesOf, Itoa;
    if ks == {} {
      return [];
    }
    var k :| k in ks;
    var rest := CombineKeys(records, ks - {k});
    var x := KV(k, Itoa(|ValuesOf(records, k)|));
    forall i | 0 <= i < |rest| ensures rest[i].key != k {
      assert rest[i].key in Keys(rest);
    }
    emits := rest + [x];
    KeysConcat(rest, [x]);
    assert Keys([x]) == {k} by {
      assert [x][0].key == k;
    }
  }

  lemma MapperEmits(app: App, contents: string) returns (emits: seq<KV>)
    ensures MayEmit(app, contents, emits)
  {
    emits := TextRecords(TrimSpace(contents));
    if app == Count {
      emits := CombineKeys(emits, Keys(emits));
    }
  }

  lemma {:induction false} FilesEmit(job: Job, t: nat, k: nat) returns (emits: seq<seq<KV>>)
    requires t < job.nTasks && k <= |job.files|
    ensures |emits| == k && forall f :: 0 <= f < k ==> MayEmit(job.app, Chunk(job.files[f], job.nTasks, t), emits[f])
  {
    hide MayEmit, Chunk;
    if k == 0 {
      return [];
    }
    emits := FilesEmit(job, t, k - 1);
    var last := MapperEmits(job.app, Chunk(job.files[k - 1], job.nTasks, t));
    emits := emits + [last];
  }

  lemma AttemptRuns(job: Job, t: nat) returns (emits: seq<seq<KV>>, end: Partition.State)
    requires job.Valid() && t < job.nTasks
    ensures Attempted(job, t, emits, end)
  {
    emits := FilesEmit(job, t, |job.files|);
    hide MayEmit;
    var c := Partition.Config(emits, job.nReduce, job.hash);
    assert Partition.Exec(c, []) == Partition.At(Partition.Init(c));
    KnownInv(c, Partition.Init(c));
    end := LoopEnds(c, Partition.Init(c));
  }

  /** An execution of the worker side of each of the attempts. */
  lemma {:induction false} AttemptsRun(job: Job, attempts: seq<Dispatch.Attempt>) returns (emits: seq<seq<seq<KV>>>, loops: seq<Partition.State>)
    requires job.Valid() && forall a :: 0 <= a < |attempts| ==> attempts[a].task < job.nTasks
    ensures |emits| == |loops| == |attempts|
    ensures forall a :: 0 <= a < |attempts| ==> Attempted(job, attempts[a].task, emits[a], loops[a])
  {
    hide Attempted;
    emits, loops := [], [];
    for a := 0 to |attempts|
      invariant |emits| == |loops| == a
      invariant forall b :: 0 <= b < a ==> Attempted(job, attempts[b].task, emits[b], loops[b])
    {
      var e, l := AttemptRuns(job, attempts[a].task);
      emits, loops := emits + [e], loops + [l];
    }
  }

  // ---- the sort ---------------------------------------------------------------------------

  lemma {:induction false} InsertSorted(x: KV, kvs: seq<KV>) returns (r: seq<KV>)
    requires SortedByKey(kvs)
    ensures SortedByKey(r) && multiset(r) == multiset(kvs) + multiset{x}
  {
    hide Less;
    if kvs == [] || !Less(kvs[0].key, x.key) {
      r := [x] + kvs;
      forall j | 0 <= j < |kvs| ensures !Less(kvs[j].key, x.key) {
        if j > 0 {
          NotBefore(x.key, kvs[0].key, kvs[j].key);
        }
      }
    } else {
      var rest := InsertSorted(x, kvs[1..]);
      r := [kvs[0]] + rest;
      assert kvs == [kvs[0]] + kvs[1..];
      forall j | 0 <= j < |rest| ensures !Less(rest[j].key, kvs[0].key) {
        assert rest[j] in multiset(rest);
        if rest[j] == x {
          LessAsymmetric(kvs[0].key, x.key);
        } else {
          assert rest[j] in kvs[1..];
        }
      }
    }
  }

  lemma LessAsymmetric(a: string, b: string)
    requires Less(a, b)
    ensures !Less(b, a)
  {
    if Less(b, a) {
      LessTransitive(a, b, a);
      LessIrreflexive(a);
    }
  }

  /** `b` not before `a`, and `c` not before `b`: then `c` not before `a`. */
  lemma NotBefore(a: string, b: string, c: string)
    requires !Less(b, a) && !Less(c, b)
    ensures !Less(c, a)
  {
    if Less(c, a) {
      LessTotal(b, c);
      if Less(b, c) {
        LessTransitive(b, c, a);
      }
    }
  }

  lemma {:induction false} SortExists(kvs: seq<KV>) returns (r: seq<KV>)
    ensures SortedByKey(r) && multiset(r) == multiset(kvs)
  {
    hide Less;
    if kvs == [] {
      return [];
    }
    r := SortExists(kvs[1..]);
    r := InsertSorted(kvs[0], r);
    assert kvs == [kvs[0]] + kvs[1..];
  }

  // ---- the whole --------------------------------------------------------------------------

  lemma ReducersRun(run: Run, n: nat) returns (sorted: seq<seq<KV>>)
    ensures |sorted| == n
    ensures forall r :: 0 <= r < n ==> SortedByKey(sorted[r]) && multiset(sorted[r]) == multiset(ReduceInput(run, r))
  {
    hide SortedByKey, ReduceInput;
    sorted := [];
    for r := 0 to n
      invariant |sorted| == r
      invariant forall q :: 0 <= q < r ==> SortedByKey(sorted[q]) && multiset(sorted[q]) == multiset(ReduceInput(run, q))
    {
      var list := SortExists(ReduceInput(run, r));
      sorted := sorted + [list];
    }
  }

  lemma SameInput(run: Run, run': Run, r: nat)
    requires run'.phase == run.phase && run'.loops == run.loops
    ensures ReduceInput(run', r) == ReduceInput(run, r)
  {
    hide Decode, Encode, TrimSpace;
    var xs := run.phase.imds;
    forall i | 0 <= i < |xs| ensures Fetch(run', r)(xs[i]) == Fetch(run, r)(xs[i]) {
    }
    FlatMapSame<nat, KV>(Fetch(run', r), Fetch(run, r), xs);
  }

  /** Any set of files can be listed. */
  lemma {:induction false} ListingExists(names: set<nat>) returns (listing: seq<nat>)
    ensures Lists(listing, names)
    decreases |names|
  {
    if names == {} {
      return [];
    }
    var w :| w in names;
    listing := ListingExists(names - {w});
    listing := listing + [w];
  }

  lemma ClaimExists(job: Job, phase: Dispatch.State) returns (claimed: seq<nat>)
    requires job.Valid() && Dispatch.Reachable(job.Phase(), phase) && phase.main == Dispatch.Done
    requires job.nReduce + |ReduceStart.FailedAttempts(phase.attempts)| <= job.nWorkers
    ensures ClaimedFor(phase.workers, job.nReduce, claimed)
  {
    hide Dispatch.Reachable, ReduceStart.FailedAttempts;
    ReduceStart.ReduceStartsIff(job.Phase(), phase, job.nReduce);
    var k :| Claiming.After(Claiming.Start(phase.workers), job.nReduce, k).returned;
    claimed := Claiming.After(Claiming.Start(phase.workers), job.nReduce, k).chosen;
    assert ClaimedAfter(phase.workers, job.nReduce, claimed, k);
  }

  lemma NoFailures(attempts: seq<Dispatch.Attempt>)
    requires forall a :: 0 <= a < |attempts| ==> attempts[a].pc != Dispatch.Ended(false)
    ensures |ReduceStart.FailedAttempts(attempts)| == 0
  {
    assert ReduceStart.FailedAttempts(attempts) == {};
  }

  /** With a worker for each reducer every job has a run in which no RPC fails. */
  lemma EveryJobCanFinish(job: Job) returns (run: Run)
    requires job.Valid() && job.nReduce <= job.nWorkers
    ensures Happens(job, run)
    ensures forall a :: 0 <= a < |run.phase.attempts| ==> run.phase.attempts[a].pc != Dispatch.Ended(false)
  {
    hide Attempted, Dispatch.Reachable, SortedByKey, ReduceInput, ClaimedFor, Lists, Directory;
    var phase := PhaseEnds(job.Phase());
    var emits, loops := AttemptsRun(job, phase.attempts);
    NoFailures(phase.attempts);
    var claimed := ClaimExists(job, phase);
    var half := Run(phase, emits, loops, claimed, [], [], []);
    var sorted := ReducersRun(half, job.nReduce);
    var most := Run(phase, emits, loops, claimed, sorted, Upto(job.nReduce), []);
    var listing := ListingExists(Directory(job, most, most.finished).Keys);
    run := most.(listing := listing);
    SameDirectory(job, run, most, run.finished);
    forall r | 0 <= r < job.nReduce ensures multiset(sorted[r]) == multiset(ReduceInput(run, r)) {
      SameInput(half, run, r);
    }
    forall t | 0 <= t < job.nReduce ensures t in run.finished {
      assert run.finished[t] == t;
    }
  }

  lemma {:induction false} SameDirectory(job: Job, run: Run, run': Run, rs: seq<nat>)
    requires run'.claimed == run.claimed && run'.sorted == run.sorted
    ensures Directory(job, run', rs) == Directory(job, run, rs)
  {
    hide OutputFile;
    if rs != [] {
      SameDirectory(job, run, run', rs[..|rs| - 1]);
    }
  }

  /** A run gets through the reduce phase only with a worker for each reducer beside those lost. */
  lemma RunNeedsWorkers(job: Job, run: Run)
    requires Happens(job, run)
    ensures job.nReduce + |ReduceStart.FailedAttempts(run.phase.attempts)| <= job.nWorkers
  {
    hide Sorts, Directory, Lists, Attempted, Dispatch.Reachable, ReduceStart.FailedAttempts, Listing.IsEnumeration;
    var k :| ClaimedAfter(run.phase.workers, job.nReduce, run.claimed, k);
    assert Claiming.After(Claiming.Start(run.phase.workers), job.nReduce, k).returned;
    ReduceStart.ReduceStartsIff(job.Phase(), run.phase, job.nReduce);
  }

  /** A job can finish if and only if it has at least as many workers as reducers. */
  lemma CanFinishIffEnoughWorkers(job: Job)
    requires job.Valid()
    ensures (exists run :: Happens(job, run)) <==> job.nReduce <= job.nWorkers
  {
    hide Happens;
    if job.nReduce <= job.nWorkers {
      var run := EveryJobCanFinish(job);
      assert Happens(job, run);
    }
    if run :| Happens(job, run) {
      RunNeedsWorkers(job, run);
    }
  }
}

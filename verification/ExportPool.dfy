/**
 The pool that exports the shards: a producer hands the tasks over an unbuffered channel to
 workers that quit at their first error; one error fits in `errCh`.
 */
module ExportPool {
  import opened Seqs

  /** `tasks` shards and `workers` goroutines; the program starts at least one. */
  datatype Config = Config(tasks: nat, workers: nat)

  datatype Producer =
    | Checking             // at the select on errCh before the next task
    | Sending              // at the send of the next task
    | Joining(failing: bool) // `jobs` is closed; waiting for the workers
    | Returned(ok: bool)

  datatype Worker = Ready | Exporting(task: nat) | Reporting | Quit

  datatype State = State(
    producer: Producer,
    next: nat,             // tasks handed over so far
    workers: seq<Worker>,
    errCh: bool,           // the channel holds an error
    closed: bool,
    exported: seq<nat>,    // shards in the order in which their export succeeded
    failed: seq<nat>)      // shards in the order in which their export failed

  function Init(c: Config): State {
    State(Checking, 0, seq(c.workers, _ => Ready), false, false, [], [])
  }

  datatype Step = Check | Handoff(w: nat) | Export(w: nat, ok: bool) | Report(w: nat) | Leave(w: nat) | Join

  predicate AllQuit(workers: seq<Worker>) {
    forall w :: 0 <= w < |workers| ==> workers[w] == Quit
  }

  predicate Enabled(s: State, st: Step) {
    match st
    case Check => s.producer == Checking
    case Handoff(w) => s.producer == Sending && w < |s.workers| && s.workers[w] == Ready
    case Export(w, _) => w < |s.workers| && s.workers[w].Exporting?
    case Report(w) => w < |s.workers| && s.workers[w] == Reporting
    case Leave(w) => w < |s.workers| && s.workers[w] == Ready && s.closed
    case Join => s.producer.Joining? && AllQuit(s.workers)
  }

  function Apply(c: Config, s: State, st: Step): State
    requires Enabled(s, st)
  {
    match st
    case Check =>
      if s.next >= c.tasks then s.(producer := Joining(false), closed := true)
      else if s.errCh then s.(producer := Joining(true), closed := true, errCh := false)
      else s.(producer := Sending)
    case Handoff(w) =>
      s.(producer := Checking, next := s.next + 1, workers := s.workers[w := Exporting(s.next)])
    case Export(w, ok) =>
      var t := s.workers[w].task;
      if ok then s.(workers := s.workers[w := Ready], exported := s.exported + [t])
      else s.(workers := s.workers[w := Reporting], failed := s.failed + [t])
    case Report(w) =>
      s.(workers := s.workers[w := Quit], errCh := true)
    case Leave(w) =>
      s.(workers := s.workers[w := Quit])
    case Join =>
      s.(producer := Returned(!s.producer.failing && !s.errCh), errCh := false)
  }

  datatype Outcome = Stuck | At(s: State)

  function Exec(c: Config, schedule: seq<Step>): Outcome {
    if schedule == [] then
      At(Init(c))
    else
      var n := |schedule| - 1;
      match Exec(c, schedule[..n])
      case Stuck => Stuck
      case At(s) => if Enabled(s, schedule[n]) then At(Apply(c, s, schedule[n])) else Stuck
  }

  ghost predicate Reachable(c: Config, s: State) {
    exists schedule :: Exec(c, schedule) == At(s)
  }

  // ---- the invariant ----------------------------------------------------------------------

  /** The shard that a worker is at. */
  function InHand(w: Worker): seq<nat> {
    if w.Exporting? then [w.task] else []
  }

  /** Every shard handed over is exported, failed or in the hands of one worker, and only once. */
  ghost predicate Conserved(next: nat, workers: seq<Worker>, exported: seq<nat>, failed: seq<nat>) {
    multiset(exported) + multiset(failed) + Hands(workers) == multiset(Upto(next))
  }

  function Hands(workers: seq<Worker>): multiset<nat> {
    multiset(FlatMap(InHand, workers))
  }

  function Gone(w: Worker): int {
    if w.Reporting? || w.Quit? then 1 else 0
  }

  /** Before the channel is closed, workers go only because of a failure of their own. */
  ghost predicate Losses(workers: seq<Worker>, closed: bool, failed: seq<nat>) {
    && |failed| <= Sum(Gone, workers)
    && (!closed ==> |failed| == Sum(Gone, workers))
  }

  /** An error that was met and not yet seen by the producer. */
  ghost predicate Unseen(workers: seq<Worker>, errCh: bool) {
    errCh || exists w :: 0 <= w < |workers| && workers[w] == Reporting
  }

  ghost predicate Control(c: Config, s: State) {
    && |s.workers| == c.workers
    && s.next <= c.tasks
    && (s.producer == Sending ==> s.next < c.tasks)
    && (s.closed <==> s.producer.Joining? || s.producer.Returned?)
    && (s.producer == Joining(false) || s.producer == Returned(true) ==> s.next == c.tasks)
    && (s.producer.Returned? ==> AllQuit(s.workers))
  }

  ghost predicate Errors(s: State) {
    && (Unseen(s.workers, s.errCh) ==> s.failed != [])
    && (s.producer == Joining(true) ==> s.failed != [])
    && (s.producer.Returned? ==> (s.producer.ok <==> s.failed == []))
    && (s.failed != [] && !s.producer.Returned? && s.producer != Joining(true) ==> Unseen(s.workers, s.errCh))
  }

  ghost predicate Inv(c: Config, s: State) {
    && Conserved(s.next, s.workers, s.exported, s.failed)
    && Losses(s.workers, s.closed, s.failed)
    && Control(c, s)
    && Errors(s)
  }

  lemma HandUpdate(workers: seq<Worker>, w: nat, x: Worker) returns (others: multiset<nat>)
    requires w < |workers|
    ensures Hands(workers) == multiset(InHand(workers[w])) + others
    ensures Hands(workers[w := x]) == multiset(InHand(x)) + others
  {
    others := multiset(FlatMap(InHand, workers[..w] + workers[w + 1..]));
    FlatMapWithout(InHand, workers, w);
    FlatMapWithout(InHand, workers[w := x], w);
    assert workers[w := x][..w] + workers[w := x][w + 1..] == workers[..w] + workers[w + 1..];
  }

  lemma BagOfOne(xs: seq<nat>, x: nat)
    ensures multiset(xs + [x]) == multiset(xs) + multiset{x}
  {
  }

  lemma ConservedHandoff(next: nat, workers: seq<Worker>, exported: seq<nat>, failed: seq<nat>, w: nat)
    requires Conserved(next, workers, exported, failed) && w < |workers| && workers[w] == Ready
    ensures Conserved(next + 1, workers[w := Exporting(next)], exported, failed)
  {
    var others := HandUpdate(workers, w, Exporting(next));
    hide Hands;
    assert multiset(InHand(Exporting(next))) == multiset{next};
    assert Upto(next + 1) == Upto(next) + [next];
    BagOfOne(Upto(next), next);
  }

  lemma ConservedSuccess(next: nat, workers: seq<Worker>, exported: seq<nat>, failed: seq<nat>, w: nat)
    requires Conserved(next, workers, exported, failed) && w < |workers| && workers[w].Exporting?
    ensures Conserved(next, workers[w := Ready], exported + [workers[w].task], failed)
  {
    var others := HandUpdate(workers, w, Ready);
    hide Hands;
    assert multiset(InHand(workers[w])) == multiset{workers[w].task};
    BagOfOne(exported, workers[w].task);
  }

  lemma ConservedFailure(next: nat, workers: seq<Worker>, exported: seq<nat>, failed: seq<nat>, w: nat)
    requires Conserved(next, workers, exported, failed) && w < |workers| && workers[w].Exporting?
    ensures Conserved(next, workers[w := Reporting], exported, failed + [workers[w].task])
  {
    var others := HandUpdate(workers, w, Reporting);
    hide Hands;
    assert multiset(InHand(workers[w])) == multiset{workers[w].task};
    BagOfOne(failed, workers[w].task);
  }

  lemma ConservedLeave(next: nat, workers: seq<Worker>, exported: seq<nat>, failed: seq<nat>, w: nat)
    requires Conserved(next, workers, exported, failed) && w < |workers| && !workers[w].Exporting?
    ensures Conserved(next, workers[w := Quit], exported, failed)
  {
    var others := HandUpdate(workers, w, Quit);
    hide Hands;
  }

  lemma LossesUpdate(workers: seq<Worker>, w: nat, x: Worker, closed: bool, failed: seq<nat>, t: nat)
    requires Losses(workers, closed, failed) && w < |workers|
    ensures Gone(x) == Gone(workers[w]) ==> Losses(workers[w := x], closed, failed)
    ensures Gone(x) == Gone(workers[w]) + 1 ==> Losses(workers[w := x], closed, failed + [t])
    ensures Gone(x) == Gone(workers[w]) + 1 && closed ==> Losses(workers[w := x], closed, failed)
  {
    SumUpdate(Gone, workers, w, x);
    hide Sum;
  }

  lemma KeepHandoff(c: Config, s: State, w: nat)
    requires Inv(c, s) && Enabled(s, Handoff(w))
    ensures Inv(c, Apply(c, s, Handoff(w)))
  {
    hide Conserved, Losses, Unseen;
    ConservedHandoff(s.next, s.workers, s.exported, s.failed, w);
    LossesUpdate(s.workers, w, Exporting(s.next), s.closed, s.failed, 0);
    KeepUnseen(s.workers, w, Exporting(s.next), s.errCh);
  }

  /** A worker that is not reporting, before and after, does not matter for unseen errors. */
  lemma KeepUnseen(workers: seq<Worker>, w: nat, x: Worker, errCh: bool)
    requires w < |workers| && workers[w] != Reporting && x != Reporting
    ensures Unseen(workers[w := x], errCh) <==> Unseen(workers, errCh)
  {
    var workers' := workers[w := x];
    if v :| 0 <= v < |workers| && workers[v] == Reporting {
      assert workers'[v] == Reporting;
    }
    if v :| 0 <= v < |workers'| && workers'[v] == Reporting {
      assert workers[v] == Reporting;
    }
  }

  lemma KeepSuccess(c: Config, s: State, w: nat)
    requires Inv(c, s) && Enabled(s, Export(w, true))
    ensures Inv(c, Apply(c, s, Export(w, true)))
  {
    hide Conserved, Losses, Unseen;
    ConservedSuccess(s.next, s.workers, s.exported, s.failed, w);
    LossesUpdate(s.workers, w, Ready, s.closed, s.failed, 0);
    KeepUnseen(s.workers, w, Ready, s.errCh);
  }

  lemma ReportingIsUnseen(workers: seq<Worker>, w: nat, errCh: bool)
    requires w < |workers| && workers[w] == Reporting
    ensures Unseen(workers, errCh)
  {
  }

  lemma KeepFailure(c: Config, s: State, w: nat)
    requires Inv(c, s) && Enabled(s, Export(w, false))
    ensures Inv(c, Apply(c, s, Export(w, false)))
  {
    hide Conserved, Losses, Unseen;
    ConservedFailure(s.next, s.workers, s.exported, s.failed, w);
    LossesUpdate(s.workers, w, Reporting, s.closed, s.failed, s.workers[w].task);
    ReportingIsUnseen(s.workers[w := Reporting], w, s.errCh);
  }

  lemma KeepReport(c: Config, s: State, w: nat)
    requires Inv(c, s) && Enabled(s, Report(w))
    ensures Inv(c, Apply(c, s, Report(w)))
  {
    hide Conserved, Losses;
    ConservedLeave(s.next, s.workers, s.exported, s.failed, w);
    LossesUpdate(s.workers, w, Quit, s.closed, s.failed, 0);
    ReportingIsUnseen(s.workers, w, s.errCh);
  }

  lemma KeepLeave(c: Config, s: State, w: nat)
    requires Inv(c, s) && Enabled(s, Leave(w))
    ensures Inv(c, Apply(c, s, Leave(w)))
  {
    hide Conserved, Losses, Unseen;
    ConservedLeave(s.next, s.workers, s.exported, s.failed, w);
    LossesUpdate(s.workers, w, Quit, s.closed, s.failed, 0);
    KeepUnseen(s.workers, w, Quit, s.errCh);
  }

  lemma KeepProducer(c: Config, s: State, st: Step)
    requires Inv(c, s) && Enabled(s, st) && (st.Check? || st.Join?)
    ensures Inv(c, Apply(c, s, st))
  {
    hide Conserved, Sum;
  }

  lemma {:induction false} RunInv(c: Config, schedule: seq<Step>, s: State)
    requires Exec(c, schedule) == At(s)
    ensures Inv(c, s)
  {
    if schedule == [] {
      InitInv(c);
    } else {
      hide Inv;
      var n := |schedule| - 1;
      var before := Exec(c, schedule[..n]).s;
      RunInv(c, schedule[..n], before);
      match schedule[n]
      case Handoff(w) => KeepHandoff(c, before, w);
      case Export(w, ok) => if ok { KeepSuccess(c, before, w); } else { KeepFailure(c, before, w); }
      case Report(w) => KeepReport(c, before, w);
      case Leave(w) => KeepLeave(c, before, w);
      case _ => KeepProducer(c, before, schedule[n]);
    }
  }

  lemma InitInv(c: Config)
    ensures Inv(c, Init(c))
  {
    var ready := Init(c).workers;
    NobodyBusy(ready);
    SumBounds(Gone, ready, 0);
  }

  lemma {:induction false} NobodyBusy(workers: seq<Worker>)
    requires forall w :: 0 <= w < |workers| ==> !workers[w].Exporting?
    ensures FlatMap(InHand, workers) == []
  {
    if workers != [] {
      NobodyBusy(workers[1..]);
    }
  }

  // ---- safety -----------------------------------------------------------------------------

  /** When the pool returns, it reports success if and only if no export failed. */
  lemma SuccessIffNoFailure(c: Config, s: State)
    requires Reachable(c, s) && s.producer.Returned?
    ensures s.producer.ok <==> s.failed == []
  {
    var schedule :| Exec(c, schedule) == At(s);
    RunInv(c, schedule, s);
  }

  /** When it reports success, every shard was exported, and exactly once. */
  lemma SuccessMeansExportedOnce(c: Config, s: State)
    requires Reachable(c, s) && s.producer == Returned(true)
    ensures multiset(s.exported) == multiset(Upto(c.tasks))
  {
    var schedule :| Exec(c, schedule) == At(s);
    RunInv(c, schedule, s);
    NobodyBusy(s.workers);
  }

  /** In no run, failed or not, is a shard exported twice, or exported after it failed. */
  lemma NeverTwice(c: Config, s: State, t: nat)
    requires Reachable(c, s)
    ensures multiset(s.exported)[t] + multiset(s.failed)[t] <= if t < c.tasks then 1 else 0
  {
    var schedule :| Exec(c, schedule) == At(s);
    RunInv(c, schedule, s);
    OnceUpto(s.next, t);
    PartsOfBag(multiset(s.exported), multiset(s.failed), Hands(s.workers), multiset(Upto(s.next)), t);
  }

  lemma PartsOfBag(a: multiset<nat>, b: multiset<nat>, c: multiset<nat>, all: multiset<nat>, t: nat)
    requires a + b + c == all
    ensures a[t] + b[t] <= all[t]
  {
  }

  lemma {:induction false} OnceUpto(n: nat, t: nat)
    ensures multiset(Upto(n))[t] == if t < n then 1 else 0
  {
    if n > 0 {
      OnceUpto(n - 1, t);
      assert Upto(n) == Upto(n - 1) + [n - 1];
    }
  }

  /** The producer looks for an error before each shard: once it sees one, no further shard is handed over. */
  lemma ErrorStopsProducer(c: Config, s: State)
    requires Enabled(s, Check) && s.errCh && s.next < c.tasks
    ensures Apply(c, s, Check).producer == Joining(true)
  {
  }

  lemma NothingHandedLater(c: Config, s: State, st: Step)
    requires (s.producer.Joining? || s.producer.Returned?) && Enabled(s, st)
    ensures var s' := Apply(c, s, st);
            s'.next == s.next && (s'.producer == s.producer || s'.producer == Returned(!s.producer.failing && !s.errCh))
  {
  }

  // ---- where the pool can hang ------------------------------------------------------------

  /** The producer sends to nobody. */
  predicate Hanging(s: State) {
    s.producer == Sending && AllQuit(s.workers)
  }

  lemma SomeStep(c: Config, s: State) returns (st: Step)
    requires Control(c, s) && !s.producer.Returned? && !Hanging(s)
    ensures Enabled(s, st)
  {
    if s.producer == Checking {
      return Check;
    }
    if AllQuit(s.workers) {
      return Join;
    }
    var w :| 0 <= w < |s.workers| && s.workers[w] != Quit;
    if s.workers[w].Exporting? {
      st := Export(w, true);
    } else if s.workers[w] == Reporting {
      st := Report(w);
    } else {
      st := if s.closed then Leave(w) else Handoff(w);
    }
  }

  /** A pool that has not returned can go on if and only if it is not hanging. */
  lemma StuckIffHanging(c: Config, s: State)
    requires Reachable(c, s) && !s.producer.Returned?
    ensures (exists st :: Enabled(s, st)) <==> !Hanging(s)
  {
    var schedule :| Exec(c, schedule) == At(s);
    RunInv(c, schedule, s);
    if !Hanging(s) {
      hide Hanging, Enabled;
      var st := SomeStep(c, s);
    }
  }

  lemma {:induction false} AllGone(workers: seq<Worker>)
    requires AllQuit(workers)
    ensures Sum(Gone, workers) == |workers|
  {
    if workers != [] {
      AllGone(workers[1..]);
    }
  }

  /** A hanging pool has lost a shard to each worker and has one more to send. */
  lemma HangingTakesAllWorkers(c: Config, s: State)
    requires Reachable(c, s) && Hanging(s)
    ensures c.workers < c.tasks
  {
    var schedule :| Exec(c, schedule) == At(s);
    RunInv(c, schedule, s);
    AllGone(s.workers);
    BagSizes(multiset(s.exported), multiset(s.failed), Hands(s.workers), multiset(Upto(s.next)));
  }

  lemma BagSizes(a: multiset<nat>, b: multiset<nat>, c: multiset<nat>, all: multiset<nat>)
    requires a + b + c == all
    ensures |b| <= |all|
  {
    assert |a + b + c| == |a| + |b| + |c|;
  }

  lemma Reach(c: Config, s: State, st: Step) returns (s': State)
    requires Reachable(c, s) && Enabled(s, st)
    ensures Reachable(c, s') && s' == Apply(c, s, st)
  {
    var schedule :| Exec(c, schedule) == At(s);
    s' := Apply(c, s, st);
    assert (schedule + [st])[..|schedule|] == schedule;
    assert Exec(c, schedule + [st]) == At(s');
  }

  /** Where each worker stands when the first `k` hold a shard each. */
  function Loaded(n: nat, k: nat): (r: seq<Worker>)
    ensures |r| == n
  {
    seq(n, w requires 0 <= w < n => if w < k then Exporting(w) else Ready)
  }

  /** Where each worker stands when the first `k` have given up. */
  function GivenUp(n: nat, k: nat): (r: seq<Worker>)
    ensures |r| == n
  {
    seq(n, w requires 0 <= w < n => if w < k then Quit else Exporting(w))
  }

  lemma {:induction false} ReachLoaded(c: Config, k: nat) returns (s: State)
    requires k <= c.workers < c.tasks
    ensures Reachable(c, s) && s == State(Checking, k, Loaded(c.workers, k), false, false, [], [])
  {
    if k == 0 {
      s := Init(c);
      assert Exec(c, []) == At(s);
      assert s.workers == Loaded(c.workers, 0);
    } else {
      s := ReachLoaded(c, k - 1);
      s := Reach(c, s, Check);
      s := Reach(c, s, Handoff(k - 1));
      assert s.workers == Loaded(c.workers, k);
    }
  }

  /** The producer is at its next send, and the first `k` workers fail and quit. */
  lemma {:induction false} ReachGivenUp(c: Config, k: nat) returns (s: State)
    requires k <= c.workers < c.tasks
    ensures Reachable(c, s) && s.producer == Sending && s.workers == GivenUp(c.workers, k)
  {
    if k == 0 {
      s := ReachLoaded(c, c.workers);
      s := Reach(c, s, Check);
      assert s.workers == GivenUp(c.workers, 0);
    } else {
      s := ReachGivenUp(c, k - 1);
      s := Reach(c, s, Export(k - 1, false));
      s := Reach(c, s, Report(k - 1));
      assert s.workers == GivenUp(c.workers, k);
    }
  }

  /** A pool can hang if and only if it has fewer workers than shards. */
  lemma CanHangIffFewerWorkers(c: Config)
    ensures (exists s :: Reachable(c, s) && Hanging(s)) <==> c.workers < c.tasks
  {
    if c.workers < c.tasks {
      var s := ReachGivenUp(c, c.workers);
      assert Reachable(c, s) && Hanging(s);
    }
    if s :| Reachable(c, s) && Hanging(s) {
      HangingTakesAllWorkers(c, s);
    }
  }

  /** The number of goroutines for the setting Parallel: no more than shards, and at least one. */
  method PoolSize(parallel: int, tasks: nat) returns (workerN: nat)
    ensures workerN >= 1
    ensures parallel >= 1 && tasks >= 1 ==> workerN == if parallel <= tasks then parallel else tasks
    ensures tasks == 0 || parallel < 1 ==> workerN == 1
  {
    var n := parallel;
    if n > tasks {
      n := tasks;
    }
    if n < 1 {
      n := 1;
    }
    workerN := n;
  }

  /** In terms of the settings: the export can hang if and only if Parallel is less than the number of shards. */
  lemma ExportCanHangIff(parallel: int, tasks: nat, workerN: nat)
    requires parallel >= 1 && tasks >= 1
    requires workerN == if parallel <= tasks then parallel else tasks
    ensures (exists s :: Reachable(Config(tasks, workerN), s) && Hanging(s)) <==> parallel < tasks
  {
    CanHangIffFewerWorkers(Config(tasks, workerN));
  }

  // ---- every run is finite ----------------------------------------------------------------

  function Rank(w: Worker): int {
    match w case Exporting(_) => 2 case Ready => 1 case Reporting => 1 case Quit => 0
  }

  function ProducerRank(p: Producer): nat {
    match p case Checking => 3 case Sending => 2 case Joining(_) => 1 case Returned(_) => 0
  }

  function Measure(c: Config, s: State): int {
    4 * (c.tasks - s.next) + ProducerRank(s.producer) + Sum(Rank, s.workers)
  }

  lemma StepDecreases(c: Config, s: State, st: Step)
    requires Inv(c, s) && Enabled(s, st)
    ensures Measure(c, Apply(c, s, st)) < Measure(c, s)
  {
    hide Conserved, Errors, Losses;
    match st
    case Handoff(w) => SumUpdate(Rank, s.workers, w, Exporting(s.next));
    case Export(w, ok) => SumUpdate(Rank, s.workers, w, if ok then Ready else Reporting);
    case Report(w) => SumUpdate(Rank, s.workers, w, Quit);
    case Leave(w) => SumUpdate(Rank, s.workers, w, Quit);
    case _ =>
  }

  lemma MeasureIsBounded(c: Config, s: State)
    requires Control(c, s)
    ensures 0 <= Measure(c, s)
  {
    SumBounds(Rank, s.workers, 2);
  }

  /** So every run comes to an end, and it ends with a return or with a hanging producer. */
  lemma {:induction false} RunsAreBounded(c: Config, schedule: seq<Step>, s: State)
    requires Exec(c, schedule) == At(s)
    ensures |schedule| + Measure(c, s) <= 4 * c.tasks + c.workers + 3
    ensures |schedule| <= 4 * c.tasks + c.workers + 3
  {
    RunInv(c, schedule, s);
    MeasureIsBounded(c, s);
    if schedule == [] {
      SumBounds(Rank, s.workers, 1);
    } else {
      hide Inv, Measure;
      var n := |schedule| - 1;
      var before := Exec(c, schedule[..n]).s;
      RunInv(c, schedule[..n], before);
      RunsAreBounded(c, schedule[..n], before);
      StepDecreases(c, before, schedule[n]);
    }
  }
}

/** What holds of the map phase over whole runs, for every schedule and every pattern of failed RPCs. */
module DispatchRuns {
  import opened Dispatch
  import opened Seqs

  lemma {:induction false} RunInv(c: Config, schedule: seq<Step>, s: State) returns (x: Witness)
    requires c.Valid() && Exec(c, schedule) == At(s)
    ensures Inv(c, s, x)
  {
    if schedule == [] {
      InitInv(c);
      x := InitWitness(c);
    } else {
      var n := |schedule| - 1;
      var before := Exec(c, schedule[..n]).s;
      var y := RunInv(c, schedule[..n], before);
      KeepStep(c, before, y, schedule[n]);
      x := NextWitness(before, y, schedule[n]);
    }
  }

  lemma ReachableInv(c: Config, s: State) returns (x: Witness)
    requires c.Valid() && Reachable(c, s)
    ensures Inv(c, s, x)
  {
    var schedule :| Exec(c, schedule) == At(s);
    x := RunInv(c, schedule, s);
  }

  // ---- conservation -----------------------------------------------------------------------

  function PendingReports(s: State): multiset<nat> {
    Reports(s.crashChan, s.watcher, s.main)
  }

  /** Every place at which the structures of the master show task `t`. */
  ghost function Locations(attempts: seq<Attempt>, taskStates: map<nat, nat>, reports: multiset<nat>, t: nat): set<Place> {
    (set a | 0 <= a < |attempts| && attempts[a].task == t && Live(attempts[a].pc) :: Running(a))
    + (set a | 0 <= a < |attempts| && attempts[a].task == t && attempts[a].pc == Ended(true) :: Succeeded(a))
    + (set w | w in reports && w in taskStates && taskStates[w] == t :: Crashed(w))
  }

  lemma OnePlace(attempts: seq<Attempt>, ts: map<nat, nat>, reports: multiset<nat>, place: seq<Place>, t: nat)
    requires Places(attempts, ts, reports, place) && t < |place|
    ensures Locations(attempts, ts, reports, t) == {place[t]}
  {
    assert PlaceHolds(attempts, ts, reports, t, place[t]);
    assert place[t] in Locations(attempts, ts, reports, t);
  }

  /** Whatever failed so far, each task is in exactly one place, and each crash report stands for one task. */
  lemma TaskIsInOnePlace(c: Config, s: State, t: nat)
    requires c.Valid() && Reachable(c, s) && t < c.tasks
    ensures |Locations(s.attempts, s.taskStates, PendingReports(s), t)| == 1
    ensures forall w :: w in PendingReports(s) ==> PendingReports(s)[w] == 1 && w in s.taskStates && s.taskStates[w] < c.tasks
  {
    var x := ReachableInv(c, s);
    OnePlace(s.attempts, s.taskStates, PendingReports(s), x.place, t);
  }

  lemma FullSet(xs: set<nat>, n: nat)
    requires (forall i :: i in xs ==> i < n) && |xs| == n
    ensures forall i :: 0 <= i < n ==> i in xs
  {
    forall i | 0 <= i < n ensures i in xs {
      if i !in xs {
        MissingOne(xs, n, i);
      }
    }
  }

  /** The attempt that succeeded with task `t`. */
  ghost predicate SucceededOnce(attempts: seq<Attempt>, t: nat, a: nat) {
    && a < |attempts| && attempts[a].task == t && attempts[a].pc == Ended(true)
    && forall b :: 0 <= b < |attempts| && attempts[b].task == t && b != a ==> attempts[b].pc == Ended(false)
  }

  /** When every task is in the place of a success, nothing else is left. */
  lemma AllSucceeded(attempts: seq<Attempt>, ts: map<nat, nat>, reports: multiset<nat>, place: seq<Place>)
    requires Places(attempts, ts, reports, place) && Retried(attempts)
    requires forall t :: 0 <= t < |place| ==> place[t].Succeeded?
    ensures forall t :: 0 <= t < |place| ==> SucceededOnce(attempts, t, place[t].a)
    ensures reports == multiset{}
    ensures forall a :: 0 <= a < |attempts| ==> attempts[a].pc.Ended?
  {
    if w :| w in reports {
      assert false;
    }
    forall t | 0 <= t < |place| ensures SucceededOnce(attempts, t, place[t].a) {
      assert PlaceHolds(attempts, ts, reports, t, place[t]);
    }
  }

  /**
   When `orDone` closes its stream, every task has succeeded exactly once, every other attempt
   has failed and ended, and no message is left in `finish` or in the `crashChan` that the
   reduce phase goes on to use.
   */
  lemma CloseMeansAllSucceeded(c: Config, s: State) returns (winner: seq<nat>)
    requires c.Valid() && Reachable(c, s)
    requires s.watcher == Closed
    ensures |winner| == c.tasks && forall t :: 0 <= t < c.tasks ==> SucceededOnce(s.attempts, t, winner[t])
    ensures s.crashChan == [] && s.finish == [] && PendingReports(s) == multiset{}
    ensures forall a :: 0 <= a < |s.attempts| ==> s.attempts[a].pc.Ended?
  {
    hide Holders, Crashes, Sequential, Stored, Catalogued, Progressed, Filing;
    var x := ReachableInv(c, s);
    ClosedPlaces(c, s, x);
    AllSucceeded(s.attempts, s.taskStates, PendingReports(s), x.place);
    NoReports(s);
    winner := seq(c.tasks, t requires 0 <= t < c.tasks => x.place[t].a);
  }

  lemma ClosedPlaces(c: Config, s: State, x: Witness)
    requires Control(c, s, x) && s.watcher == Closed
    ensures forall t :: 0 <= t < c.tasks ==> x.place[t].Succeeded?
    ensures s.finish == []
  {
    var done := SucceededTasks(x.place);
    BoundedSet(done, c.tasks);
    FullSet(done, c.tasks);
    forall t | 0 <= t < c.tasks ensures x.place[t].Succeeded? {
      assert t in done;
    }
  }

  lemma NoReports(s: State)
    requires PendingReports(s) == multiset{}
    ensures s.crashChan == []
  {
    assert |multiset(s.crashChan)| <= |PendingReports(s)|;
  }

  /** Nothing is ever sent on the closed `finish` channel. */
  lemma NoSendAfterClose(c: Config, s: State)
    requires c.Valid() && Reachable(c, s)
    ensures !s.panicked
    ensures s.main == Done ==> s.watcher == Closed
  {
    var _ := ReachableInv(c, s);
  }

  // ---- workers ----------------------------------------------------------------------------

  /** No worker has two Map RPCs outstanding, and a calling worker is marked busy. */
  lemma OneCallPerWorker(c: Config, s: State, a: nat, b: nat)
    requires c.Valid() && Reachable(c, s)
    requires a < |s.attempts| && b < |s.attempts| && a != b
    requires s.attempts[a].pc == Calling && s.attempts[b].pc == Calling
    ensures s.attempts[a].worker != s.attempts[b].worker
    ensures s.attempts[a].worker < |s.workers| && s.workers[s.attempts[a].worker] == Busy
  {
    var _ := ReachableInv(c, s);
  }

  /** A worker that is UNKNOWN stays UNKNOWN. */
  lemma UnknownIsAbsorbing(c: Config, s: State, st: Step, w: nat)
    requires c.Valid() && Reachable(c, s) && Enabled(s, st)
    requires w < |s.workers| && s.workers[w] == Unknown
    ensures w < |Apply(c, s, st).workers| && Apply(c, s, st).workers[w] == Unknown
  {
    hide Places, Crashes, Sequential, Stored, Data, Counting;
    var x := ReachableInv(c, s);
    if st.Mark? {
      assert x.holder[s.attempts[st.a].worker] == st.a;
    }
  }

  /**
   The worker claimed for a re-execution is never the one that crashed, and the task of the
   crashed worker is always found, so neither `continue` of the loop is ever reached.
   */
  lemma ReexecutionNeverSkips(c: Config, s: State)
    requires c.Valid() && Reachable(c, s) && s.main.Claimed?
    ensures s.main.crashed != s.main.worker && s.main.crashed in s.taskStates
    ensures Apply(c, s, Reassign).attempts ==
            s.attempts + [Attempt(s.taskStates[s.main.crashed], s.main.worker, ToStore)]
  {
    hide Tokens, Data, Counting;
    var x := ReachableInv(c, s);
    ReassignIsFresh(c, s, x);
  }

  /** What `taskStates` holds under a crashed worker is the task of its failed attempt. */
  lemma CrashedTaskIsKept(c: Config, s: State, a: nat)
    requires c.Valid() && Reachable(c, s)
    requires a < |s.attempts| && s.attempts[a].pc == Marked(false)
    ensures s.attempts[a].worker in s.taskStates && s.taskStates[s.attempts[a].worker] == s.attempts[a].task
  {
    var _ := ReachableInv(c, s);
  }

  /** Entries are only ever added to the end of the lists of intermediate files. */
  lemma ListsGrow(c: Config, s: State, st: Step)
    requires Enabled(s, st)
    ensures s.imds <= Apply(c, s, st).imds
    ensures st.Report? ==> Apply(c, s, st).imds == s.imds + [st.a]
  {
  }

  /** A run never issues more Map RPCs than tasks plus all workers but one. */
  lemma AttemptBound(c: Config, s: State)
    requires c.Valid() && Reachable(c, s)
    ensures |s.attempts| <= c.tasks + c.workers - 1
  {
    var _ := ReachableInv(c, s);
  }

  // ---- progress ---------------------------------------------------------------------------

  function StepOf(a: nat, pc: Pc): Step {
    match pc
    case ToStore => Store(a)
    case Calling => Return(a, false)
    case Returned(_) => Mark(a)
    case _ => Send(a)
  }

  /** With nothing in flight and nothing reported, all tasks have been counted. */
  lemma QuietMeansCounted(c: Config, s: State, x: Witness)
    requires Control(c, s, x)
    requires PendingReports(s) == multiset{} && s.finish == []
    requires forall a :: 0 <= a < |s.attempts| ==> s.attempts[a].pc.Ended?
    ensures s.count == c.tasks
  {
    forall t | 0 <= t < c.tasks ensures t in SucceededTasks(x.place) {
      assert PlaceHolds(s.attempts, s.taskStates, PendingReports(s), t, x.place[t]);
    }
    BoundedSet(SucceededTasks(x.place), c.tasks);
    CoveringSet(SucceededTasks(x.place), c.tasks);
  }

  lemma CoveringSet(xs: set<nat>, n: nat)
    requires forall i :: 0 <= i < n ==> i in xs
    ensures |xs| >= n
  {
    if n > 0 {
      CoveringSet(xs - {n - 1}, n - 1);
    }
  }

  lemma BusyWorkerMoves(s: State, x: Witness, w: nat) returns (st: Step)
    requires Holders(s.attempts, s.workers, ClaimedWorker(s.main), x.holder)
    requires s.main.Selecting? && w < |s.workers| && s.workers[w] == Busy
    ensures Enabled(s, st)
  {
    st := StepOf(x.holder[w], s.attempts[x.holder[w]].pc);
  }

  /**
   While the phase is not over and some worker is not UNKNOWN, some step is possible: no
   channel capacity and no order of events leads into a deadlock.
   */
  lemma SomeStepIsEnabled(c: Config, s: State, w: nat) returns (st: Step)
    requires c.Valid() && Reachable(c, s)
    requires s.main != Done && w < |s.workers| && s.workers[w] != Unknown
    ensures Enabled(s, st)
  {
    var x := ReachableInv(c, s);
    match s.main
    case Selecting(_) =>
      if s.workers[w] == Idle {
        st := Claim(w);
      } else {
        st := BusyWorkerMoves(s, x, w);
      }
    case Claimed(_, _) =>
      ReassignIsFresh(c, s, x);
      st := Reassign;
    case Waiting =>
      st := WaitingMoves(c, s, x);
  }

  lemma WaitingMoves(c: Config, s: State, x: Witness) returns (st: Step)
    requires Control(c, s, x) && s.main == Waiting
    ensures Enabled(s, st)
  {
    if s.watcher == Closed {
      st := Exit;
    } else if s.watcher.Handing? {
      st := Hand;
    } else if s.finish != [] {
      st := TakeFinish;
    } else if s.crashChan != [] {
      st := TakeCrash;
    } else if a :| 0 <= a < |s.attempts| && !s.attempts[a].pc.Ended? {
      st := StepOf(a, s.attempts[a].pc);
    } else {
      QuietMeansCounted(c, s, x);
      assert false;
    }
  }

  // ---- termination ------------------------------------------------------------------------

  function AttemptWeight(x: Attempt): int {
    match x.pc
    case ToStore => 5
    case Calling => 4
    case Returned(_) => 3
    case Marked(ok) => if ok then 2 else 12
    case Ended(_) => 0
  }

  function RemoteWeight(r: Remote): int {
    match r case Untouched => 2 case Written => 1 case Reported => 0
  }

  function WorkerWeight(w: WorkerState): int {
    if w == Unknown then 0 else 10
  }

  function ControlWeight(s: State): nat {
    11 * |s.crashChan| + |s.finish|
    + (if s.watcher.Handing? then 10 else 0)
    + (match s.main case Selecting(_) => 10 case Claimed(_, _) => 9 case Waiting => 1 case Done => 0)
  }

  /** Outstanding work, where a crash is paid for by the worker it takes away. */
  function Measure(s: State): int {
    Sum(WorkerWeight, s.workers) + Sum(AttemptWeight, s.attempts) + Sum(RemoteWeight, s.remotes) + ControlWeight(s)
  }

  lemma MeasurePc(attempts: seq<Attempt>, a: nat, pc: Pc)
    requires a < |attempts|
    ensures Sum(AttemptWeight, SetPc(attempts, a, pc)) + AttemptWeight(attempts[a])
            == Sum(AttemptWeight, attempts) + AttemptWeight(attempts[a].(pc := pc))
  {
    SumUpdate(AttemptWeight, attempts, a, attempts[a].(pc := pc));
  }

  /** Every step of a run brings the measure down. */
  lemma StepDecreases(c: Config, s: State, x: Witness, st: Step)
    requires Inv(c, s, x) && Enabled(s, st)
    ensures Measure(Apply(c, s, st)) < Measure(s)
  {
    if st.Mark? {
      assert s.workers[s.attempts[st.a].worker] == Busy;
      MarkDecreases(c, s, st.a);
    } else if st.Reassign? {
      ReassignIsFresh(c, s, x);
      ReassignDecreases(c, s);
    } else {
      PlainStepDecreases(c, s, st);
    }
  }

  lemma PlainStepDecreases(c: Config, s: State, st: Step)
    requires Enabled(s, st) && !st.Mark? && !st.Reassign?
    ensures Measure(Apply(c, s, st)) < Measure(s)
  {
    hide Sum;
    match st
    case Store(a) => MeasurePc(s.attempts, a, Calling);
    case Return(a, ok) => MeasurePc(s.attempts, a, Returned(ok));
    case Write(a) => SumUpdate(RemoteWeight, s.remotes, a, Written);
    case Report(a) => SumUpdate(RemoteWeight, s.remotes, a, Reported);
    case Send(a) => MeasurePc(s.attempts, a, Ended(s.attempts[a].pc.ok));
    case Claim(w) => SumUpdate(WorkerWeight, s.workers, w, Busy);
    case _ =>
  }

  lemma ReassignDecreases(c: Config, s: State)
    requires Enabled(s, Reassign) && s.main.crashed != s.main.worker && s.main.crashed in s.taskStates
    ensures Measure(Apply(c, s, Reassign)) < Measure(s)
  {
    SumAppend(AttemptWeight, s.attempts, Attempt(s.taskStates[s.main.crashed], s.main.worker, ToStore));
    SumAppend(RemoteWeight, s.remotes, Untouched);
  }

  lemma MarkDecreases(c: Config, s: State, a: nat)
    requires Enabled(s, Mark(a)) && s.workers[s.attempts[a].worker] == Busy
    ensures Measure(Apply(c, s, Mark(a))) < Measure(s)
  {
    var ok := s.attempts[a].pc.ok;
    MeasurePc(s.attempts, a, Marked(ok));
    SumUpdate(WorkerWeight, s.workers, s.attempts[a].worker, if ok then Idle else Unknown);
  }

  lemma MeasureIsNatural(s: State)
    ensures 0 <= Measure(s)
  {
    SumBounds(WorkerWeight, s.workers, 10);
    SumBounds(AttemptWeight, s.attempts, 12);
    SumBounds(RemoteWeight, s.remotes, 2);
  }

  /** No run is longer than the outstanding work allows, whatever the schedule. */
  lemma {:induction false} RunsAreBounded(c: Config, schedule: seq<Step>, s: State)
    requires c.Valid() && Exec(c, schedule) == At(s)
    ensures 0 <= Measure(s)
    ensures |schedule| + Measure(s) <= 10 * c.workers + 7 * c.tasks + 1
  {
    MeasureIsNatural(s);
    if schedule == [] {
      SumBounds(WorkerWeight, s.workers, 10);
      SumBounds(AttemptWeight, s.attempts, 5);
      SumBounds(RemoteWeight, s.remotes, 2);
    } else {
      var n := |schedule| - 1;
      var before := Exec(c, schedule[..n]).s;
      var x := RunInv(c, schedule[..n], before);
      RunsAreBounded(c, schedule[..n], before);
      StepDecreases(c, before, x, schedule[n]);
    }
  }
}

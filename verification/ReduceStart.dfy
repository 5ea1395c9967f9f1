/** Between the phases: which workers the map phase leaves, and whether the reducers get theirs. */
module ReduceStart {
  import opened Claiming
  import opened Dispatch
  import opened DispatchRuns
  import Listing

  /** At the end of the map phase nobody is busy. */
  lemma NobodyBusyAtEnd(c: Config, s: State, w: nat)
    requires c.Valid() && Reachable(c, s) && s.main == Done && w < |s.workers|
    ensures s.workers[w] != Busy
  {
    NoSendAfterClose(c, s);
    var winner := CloseMeansAllSucceeded(c, s);
    var x := ReachableInv(c, s);
  }

  /** A worker is UNKNOWN only because of a failed attempt of its own. */
  ghost predicate FailuresExplain(s: State) {
    forall w :: 0 <= w < |s.workers| && s.workers[w] == Unknown ==> Explained(s.attempts, w)
  }

  ghost predicate Explained(attempts: seq<Attempt>, w: nat) {
    exists a :: 0 <= a < |attempts| && attempts[a].worker == w && Failed(attempts[a].pc)
  }

  lemma ExplainedStays(c: Config, s: State, st: Step, w: nat)
    requires Enabled(s, st) && Explained(s.attempts, w)
    ensures Explained(Apply(c, s, st).attempts, w)
  {
    var a :| 0 <= a < |s.attempts| && s.attempts[a].worker == w && Failed(s.attempts[a].pc);
    var later := Apply(c, s, st).attempts;
    assert later[a].worker == w && Failed(later[a].pc);
  }

  lemma MarkExplains(c: Config, s: State, a: nat)
    requires Enabled(s, Mark(a)) && !s.attempts[a].pc.ok
    ensures Explained(Apply(c, s, Mark(a)).attempts, s.attempts[a].worker)
  {
    assert Failed(Apply(c, s, Mark(a)).attempts[a].pc);
  }

  lemma {:induction false} RunExplains(c: Config, schedule: seq<Step>, s: State)
    requires c.Valid() && Exec(c, schedule) == At(s)
    ensures FailuresExplain(s)
  {
    if schedule != [] {
      var n := |schedule| - 1;
      var before, st := Exec(c, schedule[..n]).s, schedule[n];
      RunExplains(c, schedule[..n], before);
      forall w | 0 <= w < |s.workers| && s.workers[w] == Unknown ensures Explained(s.attempts, w) {
        if st.Mark? && before.attempts[st.a].worker == w {
          MarkExplains(c, before, st.a);
        } else {
          StaysUnknown(c, before, st, w);
          ExplainedStays(c, before, st, w);
        }
      }
    }
  }

  lemma StaysUnknown(c: Config, s: State, st: Step, w: nat)
    requires Enabled(s, st) && w < |Apply(c, s, st).workers| && Apply(c, s, st).workers[w] == Unknown
    requires st.Mark? ==> s.attempts[st.a].worker != w
    ensures w < |s.workers| && s.workers[w] == Unknown
  {
  }

  // ---- counting ---------------------------------------------------------------------------

  function FailedAttempts(attempts: seq<Attempt>): set<nat> {
    set a | 0 <= a < |attempts| && attempts[a].pc == Ended(false)
  }

  function With(states: seq<WorkerState>, state: WorkerState): set<nat> {
    set w | 0 <= w < |states| && states[w] == state
  }

  function WorkersOf(attempts: seq<Attempt>, xs: set<nat>): set<nat>
    requires forall a :: a in xs ==> a < |attempts|
  {
    set a | a in xs :: attempts[a].worker
  }

  lemma {:induction false} AsManyWorkers(attempts: seq<Attempt>, xs: set<nat>)
    requires forall a :: a in xs ==> a < |attempts|
    requires forall a, b :: a in xs && b in xs && a != b ==> attempts[a].worker != attempts[b].worker
    ensures |WorkersOf(attempts, xs)| == |xs|
    decreases |xs|
  {
    if xs != {} {
      var a :| a in xs;
      AsManyWorkers(attempts, xs - {a});
      assert WorkersOf(attempts, xs) == WorkersOf(attempts, xs - {a}) + {attempts[a].worker};
    }
  }

  /** Each failed RPC costs one worker, and nothing else does. */
  lemma OneWorkerPerFailure(c: Config, s: State)
    requires c.Valid() && Reachable(c, s) && s.main == Done
    ensures |With(s.workers, Unknown)| == |FailedAttempts(s.attempts)|
  {
    var schedule :| Exec(c, schedule) == At(s);
    RunExplains(c, schedule, s);
    NoSendAfterClose(c, s);
    var winner := CloseMeansAllSucceeded(c, s);
    var x := ReachableInv(c, s);
    var failed := FailedAttempts(s.attempts);
    SameWorkers(s.attempts, s.workers, PendingReports(s), x.consumed);
    AsManyWorkers(s.attempts, failed);
  }

  lemma SameWorkers(attempts: seq<Attempt>, workers: seq<WorkerState>, reports: multiset<nat>, consumed: set<nat>)
    requires Sequential(attempts) && Crashes(attempts, workers, reports, consumed)
    requires forall a :: 0 <= a < |attempts| ==> attempts[a].pc.Ended?
    requires forall w :: 0 <= w < |workers| && workers[w] == Unknown ==> Explained(attempts, w)
    ensures forall a, b :: a in FailedAttempts(attempts) && b in FailedAttempts(attempts) && a != b ==>
      attempts[a].worker != attempts[b].worker
    ensures WorkersOf(attempts, FailedAttempts(attempts)) == With(workers, Unknown)
  {
    var failed := FailedAttempts(attempts);
    forall a, b | a in failed && b in failed && a != b ensures attempts[a].worker != attempts[b].worker {
      assert a < b || b < a;
    }
    forall w | w in With(workers, Unknown) ensures w in WorkersOf(attempts, failed) {
      var a :| 0 <= a < |attempts| && attempts[a].worker == w && Failed(attempts[a].pc);
      assert a in failed;
    }
    forall a | a in failed ensures attempts[a].worker in With(workers, Unknown) {
      assert Failed(attempts[a].pc);
    }
  }

  lemma IdleCount(states: seq<WorkerState>)
    ensures |IdleWorkers(states)| == |With(states, Idle)|
  {
    var idle := IdleWorkers(states);
    IdleIncreasing(states, |states|);
    Listing.DistinctSize(idle);
    forall w | w in With(states, Idle) ensures w in Listing.Elements(idle) {
      IdleAreIn(states, |states|, w);
    }
    assert Listing.Elements(idle) == With(states, Idle);
  }

  lemma IdleOrUnknown(states: seq<WorkerState>)
    requires forall w :: 0 <= w < |states| ==> states[w] != Busy
    ensures |With(states, Idle)| + |With(states, Unknown)| == |states|
  {
    var all := With(states, Idle) + With(states, Unknown);
    BoundedSet(all, |states|);
    forall w | 0 <= w < |states| ensures w in all {
      assert states[w] == Idle || states[w] == Unknown;
    }
    CoveringSet(all, |states|);
  }

  /**
   The reducers get their workers if and only if, after the failed Map RPCs have each cost one,
   enough workers are left. Otherwise the master scans for ever.
   */
  lemma ReduceStartsIff(c: Config, s: State, nReduce: nat)
    requires c.Valid() && Reachable(c, s) && s.main == Done
    ensures Returns(s.workers, nReduce) <==> nReduce + |FailedAttempts(s.attempts)| <= c.workers
  {
    var x := ReachableInv(c, s);
    hide Inv, Returns, With, FailedAttempts, IdleWorkers, Reachable;
    forall w | 0 <= w < |s.workers| ensures s.workers[w] != Busy {
      NobodyBusyAtEnd(c, s, w);
    }
    OneWorkerPerFailure(c, s);
    IdleOrUnknown(s.workers);
    IdleCount(s.workers);
    ReturnsIffEnoughIdle(s.workers, nReduce);
    WorkerCount(c, s, x);
  }

  lemma WorkerCount(c: Config, s: State, x: Witness)
    requires Inv(c, s, x)
    ensures |s.workers| == c.workers >= 1
  {
  }

  /** Two workers and two reducers: a map phase that recovers from a failed RPC leaves too few. */
  lemma RecoveryCanStopReduce() returns (s: State)
    ensures Reachable(Config(1, 2), s) && s.main == Done && Listing.Clean(s)
    ensures !Returns(s.workers, 2)
  {
    s := Listing.RecoveryWithSpareIsClean();
    assert 0 in FailedAttempts(s.attempts);
    ReduceStartsIff(Config(1, 2), s, 2);
  }
}

/**
 What the master hands to the reducers at the end of the map phase.

 `UpdateIMDInfo` adds one file per reduce task for every attempt that reports, and the name of
 that file depends on the worker and the reduce task only. So the list names workers, and what
 is read later is whatever the last attempt on that worker left there.
 */
module Listing {
  import opened Channels
  import opened Dispatch
  import opened DispatchRuns
  import opened Seqs

  /** The task whose buckets are read for the i-th entry of every list. */
  ghost function Listed(s: State): (r: seq<nat>)
    requires Data(s)
  {
    seq(|s.imds|, i requires 0 <= i < |s.imds| =>
      s.attempts[s.files[s.attempts[s.imds[i]].worker]].task)
  }

  /** `xs` lists each of 0..n-1 exactly once. */
  ghost predicate IsEnumeration(xs: seq<nat>, n: nat) {
    && (forall i :: 0 <= i < |xs| ==> xs[i] < n)
    && (forall i, j :: 0 <= i < j < |xs| ==> xs[i] != xs[j])
    && (forall t :: 0 <= t < n ==> t in xs)
  }

  /** No failed attempt reported, and no listed worker was written by a second attempt. */
  ghost predicate Clean(s: State) {
    && |s.remotes| == |s.attempts|
    && (forall a :: 0 <= a < |s.attempts| && s.remotes[a] == Reported ==> s.attempts[a].pc == Ended(true))
    && (forall a, b :: 0 <= a < |s.attempts| && 0 <= b < |s.attempts| && a != b
                       && s.attempts[a].worker == s.attempts[b].worker && s.remotes[a] == Reported ==>
          s.remotes[b] == Untouched)
  }

  // ---- sequences without repetition -------------------------------------------------------

  ghost predicate Distinct(xs: seq<nat>) {
    forall i, j :: 0 <= i < j < |xs| ==> xs[i] != xs[j]
  }

  function Elements(xs: seq<nat>): set<nat> {
    set i | 0 <= i < |xs| :: xs[i]
  }

  lemma {:induction false} DistinctSize(xs: seq<nat>)
    requires Distinct(xs)
    ensures |Elements(xs)| == |xs|
  {
    if xs != [] {
      var n := |xs| - 1;
      DistinctSize(xs[..n]);
      assert Elements(xs) == Elements(xs[..n]) + {xs[n]};
    }
  }

  /** As many distinct elements as the bigger set has: the two are the same. */
  lemma SubsetOfSameSize(xs: set<nat>, ys: set<nat>)
    requires xs <= ys && |xs| >= |ys|
    ensures xs == ys
  {
    assert ys == xs + (ys - xs);
    assert |ys - xs| == 0;
  }

  /** Lists without repetition of the same elements are permutations of one another. */
  lemma DistinctBag(xs: seq<nat>, ys: seq<nat>)
    requires Distinct(xs) && Distinct(ys) && Elements(xs) == Elements(ys)
    ensures multiset(xs) == multiset(ys)
  {
    forall x ensures multiset(xs)[x] == multiset(ys)[x] {
      DistinctCount(xs, x);
      DistinctCount(ys, x);
    }
  }

  lemma {:induction false} DistinctCount(xs: seq<nat>, x: nat)
    requires Distinct(xs)
    ensures multiset(xs)[x] == if x in Elements(xs) then 1 else 0
  {
    if xs != [] {
      var n := |xs| - 1;
      DistinctCount(xs[..n], x);
      assert xs == xs[..n] + [xs[n]];
      assert Elements(xs) == Elements(xs[..n]) + {xs[n]};
    }
  }

  function Total(xs: seq<nat>): int {
    Sum((x: nat) => x as int, xs)
  }

  lemma SameTotal(xs: seq<nat>, ys: seq<nat>)
    requires Distinct(xs) && Distinct(ys) && Elements(xs) == Elements(ys)
    ensures Total(xs) == Total(ys)
  {
    DistinctBag(xs, ys);
    SumPerm((x: nat) => x as int, xs, ys);
  }

  /** Termwise smaller with the same total is the same. */
  lemma {:induction false} TotalMonotone(xs: seq<nat>, ys: seq<nat>)
    requires |xs| == |ys| && forall i :: 0 <= i < |xs| ==> xs[i] <= ys[i]
    ensures Total(xs) <= Total(ys)
    ensures Total(xs) == Total(ys) ==> xs == ys
  {
    if xs != [] {
      TotalMonotone(xs[1..], ys[1..]);
      assert Total(xs) == xs[0] + Total(xs[1..]) && Total(ys) == ys[0] + Total(ys[1..]);
      if Total(xs) == Total(ys) {
        assert xs == [xs[0]] + xs[1..] && ys == [ys[0]] + ys[1..];
      }
    }
  }

  // ---- the end of the map phase -----------------------------------------------------------

  /** `winner` names the attempt that succeeded with each task; nothing else is left running. */
  ghost predicate Finished(attempts: seq<Attempt>, winner: seq<nat>) {
    && (forall t :: 0 <= t < |winner| ==> SucceededOnce(attempts, t, winner[t]))
    && (forall a :: 0 <= a < |attempts| ==> attempts[a].task < |winner| && attempts[a].pc.Ended?)
  }

  /** What a reachable state shows once `orDone` has closed its stream. */
  ghost predicate Final(c: Config, s: State, winner: seq<nat>) {
    && |winner| == c.tasks
    && Data(s) && Sequential(s.attempts)
    && Finished(s.attempts, winner)
    && c.tasks <= |s.attempts|
    && (forall a :: 0 <= a < |s.attempts| ==> s.attempts[a].worker < c.workers)
    && (forall a :: 0 <= a < c.tasks ==> s.attempts[a].task == a && s.attempts[a].worker == a)
  }

  lemma InitialAttemptsStep(c: Config, s: State, st: Step)
    requires Enabled(s, st) && c.tasks <= |s.attempts|
    ensures var s' := Apply(c, s, st);
            && c.tasks <= |s'.attempts|
            && forall a :: 0 <= a < c.tasks ==>
                 s'.attempts[a].task == s.attempts[a].task && s'.attempts[a].worker == s.attempts[a].worker
  {
  }

  lemma {:induction false} InitialAttemptsStay(c: Config, schedule: seq<Step>, s: State)
    requires c.Valid() && Exec(c, schedule) == At(s)
    ensures c.tasks <= |s.attempts|
    ensures forall a :: 0 <= a < c.tasks ==> s.attempts[a].task == a && s.attempts[a].worker == a
  {
    if schedule != [] {
      var n := |schedule| - 1;
      var before := Exec(c, schedule[..n]).s;
      InitialAttemptsStay(c, schedule[..n], before);
      InitialAttemptsStep(c, before, schedule[n]);
    }
  }

  lemma ClosedIsFinal(c: Config, s: State) returns (winner: seq<nat>)
    requires c.Valid() && Reachable(c, s) && s.watcher == Closed
    ensures Final(c, s, winner)
  {
    var schedule :| Exec(c, schedule) == At(s);
    InitialAttemptsStay(c, schedule, s);
    var x := RunInv(c, schedule, s);
    winner := CloseMeansAllSucceeded(c, s);
  }

  lemma WinnersAreDistinct(attempts: seq<Attempt>, winner: seq<nat>)
    requires Finished(attempts, winner)
    ensures Distinct(winner)
  {
    forall t, u | 0 <= t < u < |winner| ensures winner[t] != winner[u] {
      assert SucceededOnce(attempts, t, winner[t]) && SucceededOnce(attempts, u, winner[u]);
    }
  }

  /** An attempt at a task is never made after the one that succeeded. */
  lemma WinnerIsLast(attempts: seq<Attempt>, winner: seq<nat>, a: nat)
    requires Finished(attempts, winner) && Retried(attempts) && a < |attempts|
    ensures a <= winner[attempts[a].task]
  {
    var t := attempts[a].task;
    assert SucceededOnce(attempts, t, winner[t]);
  }

  lemma WinnersAreListed(s: State, winner: seq<nat>)
    requires Data(s) && Finished(s.attempts, winner)
    ensures Elements(winner) <= Elements(s.imds)
  {
    forall t | 0 <= t < |winner| ensures winner[t] in Elements(s.imds) {
      assert SucceededOnce(s.attempts, t, winner[t]);
      assert winner[t] in s.imds;
    }
  }

  /** In a clean phase an entry of the list is the winner of the task that is read for it. */
  lemma CleanEntry(c: Config, s: State, winner: seq<nat>, i: nat)
    requires Final(c, s, winner) && Clean(s) && i < |s.imds|
    ensures Listed(s)[i] == s.attempts[s.imds[i]].task < c.tasks
    ensures winner[Listed(s)[i]] == s.imds[i]
    ensures s.files[s.attempts[s.imds[i]].worker] == s.imds[i]
  {
    var a := s.imds[i];
    assert s.files[s.attempts[a].worker] == a;
    assert SucceededOnce(s.attempts, s.attempts[a].task, winner[s.attempts[a].task]);
  }

  /** A clean phase lists the buckets of every task exactly once. */
  lemma CleanIsComplete(c: Config, s: State, winner: seq<nat>)
    requires Final(c, s, winner) && Clean(s)
    ensures IsEnumeration(Listed(s), c.tasks)
    ensures forall i :: 0 <= i < |s.imds| ==> Listed(s)[i] == s.attempts[s.imds[i]].task
  {
    var listed := Listed(s);
    forall i | 0 <= i < |s.imds|
      ensures listed[i] == s.attempts[s.imds[i]].task < c.tasks && winner[listed[i]] == s.imds[i]
    {
      CleanEntry(c, s, winner, i);
    }
    WinnersAreListed(s, winner);
    hide Clean, Data, Sequential, Elements;
    forall t | 0 <= t < c.tasks ensures t in listed {
      WinnerIsListed(s.attempts, s.imds, winner, listed, t);
    }
  }

  lemma WinnerIsListed(attempts: seq<Attempt>, imds: seq<nat>, winner: seq<nat>, listed: seq<nat>, t: nat)
    requires Finished(attempts, winner) && Elements(winner) <= Elements(imds) && t < |winner|
    requires |listed| == |imds| && forall i :: 0 <= i < |imds| ==> imds[i] < |attempts| && listed[i] == attempts[imds[i]].task
    ensures t in listed
  {
    assert winner[t] in Elements(imds);
    var i :| 0 <= i < |imds| && imds[i] == winner[t];
    assert SucceededOnce(attempts, t, winner[t]);
    assert listed[i] == t;
  }

  /** When every task is listed exactly once, only winners are listed. */
  lemma CompleteListsWinners(c: Config, s: State, winner: seq<nat>)
    requires Final(c, s, winner) && IsEnumeration(Listed(s), c.tasks)
    ensures Elements(s.imds) == Elements(winner)
  {
    EnumerationSize(Listed(s), c.tasks);
    DistinctSize(s.imds);
    WinnersAreDistinct(s.attempts, winner);
    DistinctSize(winner);
    WinnersAreListed(s, winner);
    SubsetOfSameSize(Elements(winner), Elements(s.imds));
  }

  lemma EnumerationSize(xs: seq<nat>, n: nat)
    requires IsEnumeration(xs, n)
    ensures |xs| == n
  {
    DistinctSize(xs);
    BoundedSet(Elements(xs), n);
    forall t | 0 <= t < n ensures t in Elements(xs) {
      assert t in xs;
    }
    CoveringSet(Elements(xs), n);
  }

  /**
   The files of every listed worker still hold what its own attempt wrote. The last writer on a
   worker never comes before the attempt listed for it and never after the winner of its own
   task; a list that is a permutation leaves room for neither.
   */
  lemma CompleteKeepsFiles(c: Config, s: State, winner: seq<nat>)
    requires Final(c, s, winner) && IsEnumeration(Listed(s), c.tasks)
    ensures forall i :: 0 <= i < |s.imds| ==> s.files[s.attempts[s.imds[i]].worker] == s.imds[i]
  {
    hide Finished, Sequential, Retried, Catalogued, Progressed, Filing, Elements, IsEnumeration, Total;
    CompleteListsWinners(c, s, winner);
    var readers := WritersInOrder(c, s, winner);
    WinnersAreDistinct(s.attempts, winner);
    ReadersAreWinners(Listed(s), winner, readers);
    SameTotal(s.imds, readers);
    TotalMonotone(s.imds, readers);
  }

  lemma WritersInOrder(c: Config, s: State, winner: seq<nat>) returns (readers: seq<nat>)
    requires Final(c, s, winner)
    ensures |readers| == |s.imds|
    ensures forall i :: 0 <= i < |s.imds| ==>
      && Listed(s)[i] < |winner| && readers[i] == winner[Listed(s)[i]]
      && s.imds[i] <= s.files[s.attempts[s.imds[i]].worker] <= readers[i]
  {
    readers := seq(|s.imds|, i requires 0 <= i < |s.imds| => winner[Listed(s)[i]]);
    forall i | 0 <= i < |s.imds|
      ensures s.imds[i] <= s.files[s.attempts[s.imds[i]].worker] <= readers[i]
    {
      var last := s.files[s.attempts[s.imds[i]].worker];
      WinnerIsLast(s.attempts, winner, last);
      assert Listed(s)[i] == s.attempts[last].task;
    }
  }

  lemma ReadersAreWinners(listed: seq<nat>, winner: seq<nat>, readers: seq<nat>)
    requires IsEnumeration(listed, |winner|) && Distinct(winner)
    requires |readers| == |listed| && forall i :: 0 <= i < |listed| ==> readers[i] == winner[listed[i]]
    ensures Distinct(readers) && Elements(readers) == Elements(winner)
  {
    forall i, j | 0 <= i < j < |readers| ensures readers[i] != readers[j] {
      assert listed[i] < listed[j] || listed[j] < listed[i];
    }
    forall t | 0 <= t < |winner| ensures winner[t] in Elements(readers) {
      assert t in listed;
      var i :| 0 <= i < |listed| && listed[i] == t;
      assert readers[i] == winner[t];
    }
  }

  lemma KeptFilesAreClean(c: Config, s: State, winner: seq<nat>)
    requires Final(c, s, winner) && Elements(s.imds) == Elements(winner)
    requires forall i :: 0 <= i < |s.imds| ==> s.files[s.attempts[s.imds[i]].worker] == s.imds[i]
    ensures Clean(s)
  {
    forall a | 0 <= a < |s.attempts| && s.remotes[a] == Reported
      ensures s.attempts[a].pc == Ended(true) && s.files[s.attempts[a].worker] == a
    {
      assert a in s.imds;
      assert a in Elements(winner);
      var t :| 0 <= t < |winner| && winner[t] == a;
      assert SucceededOnce(s.attempts, t, winner[t]);
    }
    forall a, b | 0 <= a < |s.attempts| && 0 <= b < |s.attempts| && a != b
                  && s.attempts[a].worker == s.attempts[b].worker && s.remotes[a] == Reported
      ensures s.remotes[b] == Untouched
    {
    }
  }

  /**
   The lists handed to the reducers name the buckets of every task exactly once if and only if
   no failed attempt reported its files and no listed worker was written by a second attempt.
   */
  lemma ListedOnceIffClean(c: Config, s: State)
    requires c.Valid() && Reachable(c, s) && s.watcher == Closed
    ensures Data(s)
    ensures IsEnumeration(Listed(s), c.tasks) <==> Clean(s)
  {
    var winner := ClosedIsFinal(c, s);
    if Clean(s) {
      CleanIsComplete(c, s, winner);
    }
    if IsEnumeration(Listed(s), c.tasks) {
      CompleteListsWinners(c, s, winner);
      CompleteKeepsFiles(c, s, winner);
      KeptFilesAreClean(c, s, winner);
    }
  }

  lemma RetryFollowsFailure(c: Config, s: State, winner: seq<nat>, b: nat)
    requires Final(c, s, winner) && c.tasks <= b < |s.attempts|
    ensures s.attempts[s.attempts[b].task].pc == Ended(false)
  {
    var t := s.attempts[b].task;
    assert s.attempts[t].task == t;
  }

  /** Attempts beyond the first ones are made only after one of the first ones failed. */
  lemma FirstFailureIsInitial(c: Config, s: State, winner: seq<nat>)
    requires Final(c, s, winner)
    requires forall a :: 0 <= a < c.tasks ==> s.attempts[a].pc == Ended(true)
    ensures |s.attempts| == c.tasks
  {
    if c.tasks < |s.attempts| {
      RetryFollowsFailure(c, s, winner, c.tasks);
    }
  }

  /** A map phase without a failed RPC is clean. */
  lemma CrashFreeIsClean(c: Config, s: State)
    requires c.Valid() && Reachable(c, s) && s.watcher == Closed
    requires forall a :: 0 <= a < |s.attempts| ==> s.attempts[a].pc != Ended(false)
    ensures Clean(s)
  {
    var winner := ClosedIsFinal(c, s);
    forall a | 0 <= a < |s.attempts| ensures s.attempts[a].pc == Ended(true) {
      assert s.attempts[a].pc.Ended?;
    }
    FirstFailureIsInitial(c, s, winner);
  }

  /** A worker that fails its first attempt never wins anything. */
  lemma LostWorker(c: Config, s: State, winner: seq<nat>, a: nat, t: nat)
    requires Final(c, s, winner)
    requires a < c.tasks && s.attempts[a].pc == Ended(false) && t < c.tasks
    ensures s.attempts[winner[t]].worker != a
  {
    assert SucceededOnce(s.attempts, t, winner[t]);
    var b := winner[t];
    assert b != a;
  }

  /**
   With as many workers as tasks there is no way back from a failed RPC: every map phase that
   recovers from one hands the reducers a wrong set of files.
   */
  lemma NoSpareWorkerNoRecovery(c: Config, s: State, failed: nat)
    requires c.Valid() && Reachable(c, s) && s.watcher == Closed
    requires c.workers == c.tasks
    requires failed < |s.attempts| && s.attempts[failed].pc == Ended(false)
    ensures Data(s) && !IsEnumeration(Listed(s), c.tasks)
  {
    var winner := ClosedIsFinal(c, s);
    ListedOnceIffClean(c, s);
    if Clean(s) {
      WinnersNeedWorkers(c, s, winner, failed);
    }
  }

  /** In a clean phase the winners ran on different workers, none of which failed its first attempt. */
  lemma WorkersOfWinners(c: Config, s: State, winner: seq<nat>, a: nat) returns (used: seq<nat>)
    requires Final(c, s, winner) && Clean(s)
    requires a < c.tasks && s.attempts[a].pc == Ended(false)
    ensures |used| == c.tasks && Distinct(used)
    ensures forall t :: 0 <= t < c.tasks ==> used[t] < c.workers && used[t] != a
  {
    used := seq(c.tasks, t requires 0 <= t < c.tasks => s.attempts[winner[t]].worker);
    forall t | 0 <= t < c.tasks ensures used[t] < c.workers && used[t] != a {
      LostWorker(c, s, winner, a, t);
      assert SucceededOnce(s.attempts, t, winner[t]);
    }
    WinnersAreDistinct(s.attempts, winner);
    forall t, u | 0 <= t < u < c.tasks ensures used[t] != used[u] {
      assert SucceededOnce(s.attempts, t, winner[t]) && SucceededOnce(s.attempts, u, winner[u]);
    }
  }

  lemma WinnersNeedWorkers(c: Config, s: State, winner: seq<nat>, failed: nat)
    requires Final(c, s, winner) && c.workers == c.tasks
    requires failed < |s.attempts| && s.attempts[failed].pc == Ended(false)
    ensures !Clean(s)
  {
    if Clean(s) {
      var a := failed;
      if forall b :: 0 <= b < c.tasks ==> s.attempts[b].pc == Ended(true) {
        FirstFailureIsInitial(c, s, winner);
      } else {
        a :| 0 <= a < c.tasks && s.attempts[a].pc != Ended(true);
      }
      assert s.attempts[a].pc == Ended(false);
      var used := WorkersOfWinners(c, s, winner, a);
      DistinctSize(used);
      MissingOne(Elements(used), c.workers, a);
      assert false;
    }
  }

  // ---- the two situations occur -----------------------------------------------------------

  lemma Reach(c: Config, s: State, st: Step) returns (s': State)
    requires c.Valid() && Reachable(c, s) && Enabled(s, st)
    ensures s' == Apply(c, s, st) && Reachable(c, s')
  {
    var schedule :| Exec(c, schedule) == At(s);
    s' := Apply(c, s, st);
    var longer := schedule + [st];
    assert longer[..|longer| - 1] == schedule;
    assert Exec(c, longer) == At(s');
  }

  lemma ReachableData(c: Config, s: State)
    requires c.Valid() && Reachable(c, s)
    ensures Data(s)
  {
    var _ := ReachableInv(c, s);
  }

  /** One attempt runs from its start to its success. */
  lemma ReachSuccess(c: Config, s: State, a: nat) returns (s': State)
    requires c.Valid() && Reachable(c, s) && a < |s.attempts| == |s.remotes|
    requires s.attempts[a].pc == ToStore && s.remotes[a] == Untouched
    requires s.attempts[a].worker < |s.workers| && |s.finish| < CHANNEL_CAPACITY && s.main != Done
    ensures Reachable(c, s')
    ensures s' == s.(
      attempts := SetPc(s.attempts, a, Ended(true)),
      workers := s.workers[s.attempts[a].worker := Idle],
      taskStates := s.taskStates[s.attempts[a].worker := s.attempts[a].task],
      finish := s.finish + [s.attempts[a].worker],
      remotes := s.remotes[a := Reported],
      imds := s.imds + [a],
      files := s.files[s.attempts[a].worker := a])
  {
    s' := Reach(c, s, Store(a));
    s' := Reach(c, s', Write(a));
    s' := Reach(c, s', Report(a));
    s' := Reach(c, s', Return(a, true));
    s' := Reach(c, s', Mark(a));
    s' := Reach(c, s', Send(a));
    assert s'.attempts == SetPc(s.attempts, a, Ended(true));
    assert s'.remotes == s.remotes[a := Reported];
  }

  /** One attempt fails before its worker wrote anything. */
  lemma ReachFailure(c: Config, s: State, a: nat) returns (s': State)
    requires c.Valid() && Reachable(c, s) && a < |s.attempts|
    requires s.attempts[a].pc == ToStore && s.attempts[a].worker < |s.workers| && |s.crashChan| < CHANNEL_CAPACITY
    ensures Reachable(c, s')
    ensures s' == s.(
      attempts := SetPc(s.attempts, a, Ended(false)),
      workers := s.workers[s.attempts[a].worker := Unknown],
      taskStates := s.taskStates[s.attempts[a].worker := s.attempts[a].task],
      crashChan := s.crashChan + [s.attempts[a].worker])
  {
    s' := Reach(c, s, Store(a));
    s' := Reach(c, s', Return(a, false));
    s' := Reach(c, s', Mark(a));
    s' := Reach(c, s', Send(a));
    assert s'.attempts == SetPc(s.attempts, a, Ended(false));
  }

  /** The report at the head of `crashChan` leads to a new attempt on worker `w`. */
  lemma ReachReassign(c: Config, s: State, w: nat) returns (s': State)
    requires c.Valid() && Reachable(c, s) && s.watcher == Listening && s.main == Waiting
    requires s.crashChan != [] && s.crashChan[0] in s.taskStates && s.crashChan[0] != w
    requires w < |s.workers| && s.workers[w] == Idle
    ensures Reachable(c, s')
    ensures s' == s.(
      crashChan := s.crashChan[1..],
      workers := s.workers[w := Busy],
      attempts := s.attempts + [Attempt(s.taskStates[s.crashChan[0]], w, ToStore)],
      remotes := s.remotes + [Untouched])
  {
    s' := Reach(c, s, TakeCrash);
    s' := Reach(c, s', Hand);
    s' := Reach(c, s', Claim(w));
    s' := Reach(c, s', Reassign);
  }

  /** Two workers, two tasks: task 0 succeeds, task 1 fails. */
  lemma HalfDone() returns (s: State)
    ensures Reachable(Config(2, 2), s)
    ensures s == State([Idle, Unknown], [Attempt(0, 0, Ended(true)), Attempt(1, 1, Ended(false))],
                       map[0 := 0, 1 := 1], [1], [], 1, Listening, Waiting, false,
                       [Reported, Untouched], [0], map[0 := 0])
  {
    var c := Config(2, 2);
    s := Init(c);
    assert Exec(c, []) == At(s);
    hide Reachable;
    s := ReachSuccess(c, s, 0);
    s := ReachFailure(c, s, 1);
    s := Reach(c, s, TakeFinish);
  }

  /** Then the phase ends, and task 1 is listed twice, task 0 never. */
  lemma RecoveryWithoutSpareLosesATask() returns (s: State)
    ensures Reachable(Config(2, 2), s) && s.main == Done
    ensures Data(s) && Listed(s) == [1, 1]
  {
    var c := Config(2, 2);
    s := HalfDone();
    hide Reachable;
    s := ReachReassign(c, s, 0);
    s := ReachSuccess(c, s, 2);
    s := Reach(c, s, TakeFinish);
    s := Reach(c, s, Exit);
    ReachableData(c, s);
  }

  /** One task, two workers: the first attempt fails, the second succeeds on the spare worker. */
  lemma RecoveredRun() returns (s: State)
    ensures Reachable(Config(1, 2), s) && s.main == Done && s.watcher == Closed
    ensures s.attempts == [Attempt(0, 0, Ended(false)), Attempt(0, 1, Ended(true))]
    ensures s.remotes == [Untouched, Reported] && s.imds == [1] && s.files == map[1 := 1]
  {
    var c := Config(1, 2);
    s := Init(c);
    assert Exec(c, []) == At(s);
    hide Reachable;
    s := ReachFailure(c, s, 0);
    s := ReachReassign(c, s, 1);
    s := ReachSuccess(c, s, 1);
    s := Reach(c, s, TakeFinish);
    s := Reach(c, s, Exit);
  }

  /** With a spare worker the phase recovers from a failed RPC and stays clean. */
  lemma RecoveryWithSpareIsClean() returns (s: State)
    ensures Reachable(Config(1, 2), s) && s.main == Done
    ensures |s.attempts| == 2 && s.attempts[0].pc == Ended(false)
    ensures Data(s) && Listed(s) == [0] && Clean(s)
  {
    s := RecoveredRun();
    hide Reachable;
    ReachableData(Config(1, 2), s);
  }

  /**
   The same phase, but the worker that was given up goes on, writes its files and reports them:
   then the task is listed twice, spare worker or not.
   */
  lemma LateReportRepeatsATask() returns (s: State)
    ensures Reachable(Config(1, 2), s) && s.main == Done
    ensures Data(s) && Listed(s) == [0, 0]
  {
    var c := Config(1, 2);
    s := RecoveredRun();
    hide Reachable;
    s := Reach(c, s, Write(0));
    s := Reach(c, s, Report(0));
    ReachableData(c, s);
  }
}

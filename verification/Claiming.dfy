/**
 The scan of `availableWorkers` while nobody else changes a worker: one step per turn of its
 inner loop, and one for the end of a pass.
 */
module Claiming {
  import opened Dispatch

  datatype Scan = Scan(states: seq<WorkerState>, i: nat, chosen: seq<nat>, returned: bool)

  function Start(states: seq<WorkerState>): Scan {
    Scan(states, 0, [], false)
  }

  function Next(sc: Scan, num: nat): Scan {
    if sc.returned then sc
    else if sc.i >= |sc.states| then sc.(i := 0)
    else if |sc.chosen| >= num then sc.(returned := true)
    else if sc.states[sc.i] == Idle then
      sc.(states := sc.states[sc.i := Busy], chosen := sc.chosen + [sc.i], i := sc.i + 1)
    else sc.(i := sc.i + 1)
  }

  function After(sc: Scan, num: nat, k: nat): Scan {
    if k == 0 then sc else Next(After(sc, num, k - 1), num)
  }

  /** The call returns at some time. */
  ghost predicate Returns(states: seq<WorkerState>, num: nat) {
    exists k :: After(Start(states), num, k).returned
  }

  // ---- what it takes ----------------------------------------------------------------------

  function IdleBefore(states: seq<WorkerState>, k: nat): (r: seq<nat>)
    requires k <= |states|
    ensures |r| <= k && forall i :: 0 <= i < |r| ==> r[i] < k && states[r[i]] == Idle
  {
    if k == 0 then []
    else if states[k - 1] == Idle then IdleBefore(states, k - 1) + [k - 1]
    else IdleBefore(states, k - 1)
  }

  /** The idle workers, in the order in which they registered. */
  function IdleWorkers(states: seq<WorkerState>): (r: seq<nat>)
    ensures |r| <= |states|
  {
    IdleBefore(states, |states|)
  }

  lemma {:induction false} IdleIncreasing(states: seq<WorkerState>, k: nat)
    requires k <= |states|
    ensures forall i, j :: 0 <= i < j < |IdleBefore(states, k)| ==> IdleBefore(states, k)[i] < IdleBefore(states, k)[j]
  {
    if k > 0 {
      IdleIncreasing(states, k - 1);
    }
  }

  lemma {:induction false} IdleGrows(states: seq<WorkerState>, k: nat, l: nat)
    requires k <= l <= |states|
    ensures IdleBefore(states, k) <= IdleBefore(states, l)
  {
    if k < l {
      IdleGrows(states, k, l - 1);
    }
  }

  lemma {:induction false} IdleAreIn(states: seq<WorkerState>, k: nat, w: nat)
    requires w < k <= |states| && states[w] == Idle
    ensures w in IdleBefore(states, k)
  {
    if w < k - 1 {
      IdleAreIn(states, k - 1, w);
    }
  }

  /** With the chosen ones marked. */
  function WithBusy(states: seq<WorkerState>, chosen: seq<nat>): (r: seq<WorkerState>)
    ensures |r| == |states|
  {
    seq(|states|, w requires 0 <= w < |states| => if w in chosen then Busy else states[w])
  }

  // ---- the invariant ----------------------------------------------------------------------

  /** Workers before `p` were looked at; after the first pass that is all of them. */
  ghost predicate Scanning(s0: seq<WorkerState>, num: nat, sc: Scan, p: nat) {
    && sc.i <= p <= |s0| && (p == sc.i || p == |s0|)
    && sc.chosen == IdleBefore(s0, p) && |sc.chosen| <= num
    && sc.states == WithBusy(s0, sc.chosen)
    && (sc.returned ==> |sc.chosen| == num && s0 != [])
  }

  /** Nobody idle is left among those that were looked at. */
  lemma LookedAt(s0: seq<WorkerState>, p: nat, i: nat)
    requires i < |s0| && p <= |s0|
    ensures var now := WithBusy(s0, IdleBefore(s0, p));
            if i < p then now[i] != Idle else now[i] == s0[i] && i !in IdleBefore(s0, p)
  {
    if i < p && s0[i] == Idle {
      IdleAreIn(s0, p, i);
    }
  }

  lemma WithBusyNext(s0: seq<WorkerState>, chosen: seq<nat>, w: nat)
    requires w < |s0|
    ensures WithBusy(s0, chosen + [w]) == WithBusy(s0, chosen)[w := Busy]
  {
  }

  lemma ScanningNext(s0: seq<WorkerState>, num: nat, sc: Scan, p: nat) returns (q: nat)
    requires Scanning(s0, num, sc, p)
    ensures Scanning(s0, num, Next(sc, num), q)
    ensures !sc.returned && sc.i < |s0| && |sc.chosen| < num && p == sc.i ==> q == p + 1
  {
    q := p;
    if !sc.returned && sc.i < |s0| && |sc.chosen| < num {
      LookedAt(s0, p, sc.i);
      WithBusyNext(s0, sc.chosen, sc.i);
      q := if p == sc.i then p + 1 else p;
    }
  }

  lemma {:induction false} ScanningAfter(s0: seq<WorkerState>, num: nat, k: nat) returns (p: nat)
    ensures Scanning(s0, num, After(Start(s0), num, k), p)
  {
    if k == 0 {
      p := 0;
      assert WithBusy(s0, []) == s0;
    } else {
      var q := ScanningAfter(s0, num, k - 1);
      p := ScanningNext(s0, num, After(Start(s0), num, k - 1), q);
    }
  }

  /** When the call returns, it has taken the first idle workers, all different, and marked no other. */
  lemma ReturnedClaim(s0: seq<WorkerState>, num: nat, k: nat)
    requires After(Start(s0), num, k).returned
    ensures var sc := After(Start(s0), num, k);
            && s0 != [] && num <= |IdleWorkers(s0)| && sc.chosen == IdleWorkers(s0)[..num]
            && sc.states == WithBusy(s0, sc.chosen)
            && forall i, j :: 0 <= i < j < num ==> sc.chosen[i] < sc.chosen[j]
  {
    var p := ScanningAfter(s0, num, k);
    IdleGrows(s0, p, |s0|);
    IdleIncreasing(s0, p);
  }

  lemma {:induction false} AfterNext(sc: Scan, num: nat, k: nat)
    ensures After(sc, num, k + 1) == After(Next(sc, num), num, k)
  {
    if k > 0 {
      AfterNext(sc, num, k - 1);
    }
  }

  lemma {:induction false} ComesBack(s0: seq<WorkerState>, num: nat, sc: Scan, p: nat) returns (k: nat)
    requires Scanning(s0, num, sc, p) && s0 != [] && num <= |IdleWorkers(s0)|
    ensures After(sc, num, k).returned
    decreases if sc.returned then 0 else if |sc.chosen| < num then |s0| - sc.i + 3 else if sc.i >= |s0| then 2 else 1
  {
    if sc.returned {
      return 0;
    }
    var q := ScanningNext(s0, num, sc, p);
    var l := ComesBack(s0, num, Next(sc, num), q);
    AfterNext(sc, num, l);
    k := l + 1;
  }

  /** The call returns if and only if there is a worker at all and enough of them are idle. */
  lemma ReturnsIffEnoughIdle(states: seq<WorkerState>, num: nat)
    ensures Returns(states, num) <==> states != [] && num <= |IdleWorkers(states)|
  {
    if k :| After(Start(states), num, k).returned {
      ReturnedClaim(states, num, k);
    }
    if states != [] && num <= |IdleWorkers(states)| {
      assert WithBusy(states, []) == states;
      var k := ComesBack(states, num, Start(states), 0);
      assert After(Start(states), num, k).returned;
    }
  }

  /** When everybody is idle, everybody can be taken. */
  lemma {:induction false} AllIdle(states: seq<WorkerState>, k: nat)
    requires k <= |states| && forall w :: 0 <= w < |states| ==> states[w] == Idle
    ensures |IdleBefore(states, k)| == k && forall i :: 0 <= i < k ==> IdleBefore(states, k)[i] == i
  {
    if k > 0 {
      AllIdle(states, k - 1);
    }
  }

  /** The first claim of a map phase leaves the workers as the dispatch protocol starts with them. */
  lemma FirstClaim(states: seq<WorkerState>, tasks: nat)
    requires 1 <= tasks <= |states|
    requires forall w :: 0 <= w < |states| ==> states[w] == Idle
    ensures tasks <= |IdleWorkers(states)|
    ensures WithBusy(states, IdleWorkers(states)[..tasks]) == Init(Config(tasks, |states|)).workers
  {
    AllIdle(states, |states|);
    var chosen := IdleWorkers(states)[..tasks];
    forall w | 0 <= w < |states| ensures w in chosen <==> w < tasks {
      if w < tasks {
        assert chosen[w] == w;
      }
    }
  }
}

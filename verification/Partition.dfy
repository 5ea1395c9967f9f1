/**
 The partition loop of a worker's Map: one goroutine per input file emits into a bounded
 channel, and the loop sorts what it receives into one bucket per reducer until the channel,
 which it closes itself after the last `done`, is drained.
 */
module Partition {
  import opened Channels
  import opened Codec

  /** `hash` stands for FNV-1a; only the mask to 31 bits and the modulus matter. */
  function ReducerForKey(hash: string -> nat, key: string, nReduce: nat): (r: nat)
    requires nReduce > 0
    ensures r < nReduce
  {
    hash(key) % 0x8000_0000 % nReduce
  }

  /** The low 31 bits of the hash, and their remainder. */
  lemma ReducerIs(hash: string -> nat, key: string, nReduce: nat, high: nat, low: nat, q: nat, r: nat)
    requires hash(key) == high * 0x8000_0000 + low && low < 0x8000_0000
    requires low == q * nReduce + r && r < nReduce
    ensures ReducerForKey(hash, key, nReduce) == r
  {
    RemainderIs(hash(key), 0x8000_0000, high, low);
    RemainderIs(low, nReduce, q, r);
  }

  lemma RemainderIs(x: nat, n: nat, q: nat, r: nat)
    requires x == q * n + r && r < n
    ensures x % n == r
  {
    var q' := x / n;
    assert x == q' * n + x % n;
    if q < q' {
      NextMultiple(q, q', n);
    } else if q' < q {
      NextMultiple(q', q, n);
    }
  }

  lemma NextMultiple(a: nat, b: nat, n: nat)
    requires a < b
    ensures a * n + n <= b * n
  {
    assert b * n == a * n + (b - a) * n;
    assert (b - a) * n == n + (b - a - 1) * n;
  }

  datatype State = State(
    rests: seq<seq<KV>>,   // what each mapper has still to emit
    ended: seq<bool>,      // the mapper has sent its `done`
    chan: seq<KV>,
    closed: bool,
    done: nat,
    count: nat,
    buckets: seq<seq<KV>>,
    exited: bool,
    panicked: bool)

  /** `emits` is what the map function emits for each input file. */
  datatype Config = Config(emits: seq<seq<KV>>, nReduce: nat, hash: string -> nat)

  function Init(c: Config): State {
    State(c.emits, seq(|c.emits|, _ => false), [], false, 0, 0, seq(c.nReduce, _ => []), false, false)
  }

  datatype Step = Emit(i: nat) | Finish(i: nat) | TakeKV | TakeDone | Leave

  predicate Enabled(s: State, st: Step) {
    match st
    case Emit(i) => i < |s.rests| && s.rests[i] != [] && |s.chan| < CHANNEL_CAPACITY
    case Finish(i) => i < |s.rests| && i < |s.ended| && s.rests[i] == [] && !s.ended[i] && s.done < CHANNEL_CAPACITY
    case TakeKV => !s.exited && s.chan != []
    case TakeDone => !s.exited && s.done > 0
    case Leave => !s.exited && s.chan == [] && s.closed
  }

  function Apply(c: Config, s: State, st: Step): State
    requires Enabled(s, st)
  {
    match st
    case Emit(i) =>
      s.(rests := s.rests[i := s.rests[i][1..]], chan := s.chan + [s.rests[i][0]],
         panicked := s.panicked || s.closed)
    case Finish(i) =>
      s.(ended := s.ended[i := true], done := s.done + 1)
    case TakeKV =>
      var r := if c.nReduce > 0 then ReducerForKey(c.hash, s.chan[0].key, c.nReduce) else 0;
      if r < |s.buckets| then
        s.(chan := s.chan[1..], buckets := s.buckets[r := s.buckets[r] + [s.chan[0]]])
      else
        s.(panicked := true)
    case TakeDone =>
      var last := s.count + 1 == |c.emits|;
      s.(done := s.done - 1, count := s.count + 1, closed := s.closed || last, panicked := s.panicked || (last && s.closed))
    case Leave =>
      s.(exited := true)
  }

  datatype Outcome = Stuck | At(s: State)

  function Exec(c: Config, schedule: seq<Step>): Outcome {
    if schedule == [] then
      At(Init(c))
    else
      var n := |schedule| - 1;
      match Exec(c, schedule[..n])
      case Stuck => Stuck
      case At(s) => if Enabled(s, schedule[n]) then At(Apply(c, s, schedule[n])) else Stuck
  }

  ghost predicate Reachable(c: Config, s: State) {
    exists schedule :: Exec(c, schedule) == At(s)
  }

  // ---- bags -------------------------------------------------------------------------------

  /** All elements of all lists, with their multiplicity. */
  function BagOf<T>(xss: seq<seq<T>>): multiset<T> {
    if xss == [] then multiset{} else multiset(xss[0]) + BagOf(xss[1..])
  }

  /** The bag of all lists is the bag of one of them and the bag of the others. */
  lemma {:induction false} BagAt<T>(xss: seq<seq<T>>, i: nat)
    requires i < |xss|
    ensures BagOf(xss) == BagOf(xss[i := []]) + multiset(xss[i])
  {
    var others := xss[i := []];
    if i > 0 {
      BagAt(xss[1..], i - 1);
      assert others[1..] == xss[1..][i - 1 := []];
    } else {
      assert others[1..] == xss[1..];
      assert multiset(others[0]) == multiset{};
    }
  }

  lemma BagUpdate<T>(xss: seq<seq<T>>, i: nat, xs: seq<T>)
    requires i < |xss|
    ensures BagOf(xss[i := xs]) == BagOf(xss[i := []]) + multiset(xs)
  {
    BagAt(xss[i := xs], i);
    assert xss[i := xs][i := []] == xss[i := []];
  }

  lemma {:induction false} BagOfEmpty<T>(xss: seq<seq<T>>)
    requires forall i :: 0 <= i < |xss| ==> xss[i] == []
    ensures BagOf(xss) == multiset{}
  {
    if xss != [] {
      BagOfEmpty(xss[1..]);
    }
  }

  /** An element that only list `r` may hold is in the bag as often as in list `r`. */
  lemma {:induction false} BagCount<T>(xss: seq<seq<T>>, r: nat, x: T)
    requires r < |xss|
    requires forall i :: 0 <= i < |xss| && i != r ==> x !in xss[i]
    ensures BagOf(xss)[x] == multiset(xss[r])[x]
  {
    if r > 0 {
      assert x !in multiset(xss[0]);
      BagCount(xss[1..], r - 1, x);
    } else {
      BagAbsent(xss[1..], x);
    }
  }

  lemma {:induction false} BagAbsent<T>(xss: seq<seq<T>>, x: T)
    requires forall i :: 0 <= i < |xss| ==> x !in xss[i]
    ensures x !in BagOf(xss)
  {
    if xss != [] {
      assert x !in multiset(xss[0]);
      BagAbsent(xss[1..], x);
    }
  }

  // ---- the invariant ----------------------------------------------------------------------

  function Trues(bs: seq<bool>): nat {
    if bs == [] then 0 else (if bs[0] then 1 else 0) + Trues(bs[1..])
  }

  lemma {:induction false} TruesUpdate(bs: seq<bool>, i: nat)
    requires i < |bs| && !bs[i]
    ensures Trues(bs[i := true]) == Trues(bs) + 1
  {
    if i > 0 {
      TruesUpdate(bs[1..], i - 1);
      assert bs[i := true][1..] == bs[1..][i - 1 := true];
    } else {
      assert bs[i := true][1..] == bs[1..];
    }
  }

  lemma {:induction false} AllTrue(bs: seq<bool>)
    ensures Trues(bs) <= |bs|
    ensures Trues(bs) == |bs| ==> forall i :: 0 <= i < |bs| ==> bs[i]
  {
    if bs != [] {
      AllTrue(bs[1..]);
    }
  }

  /** Each KV is with its mapper, in the channel or in a bucket, as often as it was emitted. */
  ghost predicate Conserved(emits: seq<seq<KV>>, rests: seq<seq<KV>>, chan: seq<KV>, buckets: seq<seq<KV>>) {
    BagOf(rests) + multiset(chan) + BagOf(buckets) == BagOf(emits)
  }

  ghost predicate Sorted(c: Config, buckets: seq<seq<KV>>) {
    && |buckets| == c.nReduce
    && forall r, j :: 0 <= r < |buckets| && 0 <= j < |buckets[r]| ==> ReducerForKey(c.hash, buckets[r][j].key, c.nReduce) == r
  }

  ghost predicate Closing(c: Config, s: State) {
    && |s.rests| == |s.ended| == |c.emits|
    && (forall i :: 0 <= i < |s.ended| && s.ended[i] ==> s.rests[i] == [])
    && s.done + s.count == Trues(s.ended)
    && (s.closed <==> s.count == |c.emits|)
    && (s.exited ==> s.closed && s.chan == [])
    && !s.panicked
  }

  ghost predicate Inv(c: Config, s: State) {
    Conserved(c.emits, s.rests, s.chan, s.buckets) && Sorted(c, s.buckets) && Closing(c, s)
  }

  /** Once the channel is closed no mapper has anything left to send. */
  lemma ClosedMeansEnded(c: Config, s: State)
    requires Closing(c, s) && s.closed
    ensures s.done == 0
    ensures forall i :: 0 <= i < |s.ended| ==> s.ended[i]
  {
    AllTrue(s.ended);
  }

  lemma ConservedEmit(emits: seq<seq<KV>>, rests: seq<seq<KV>>, i: nat, chan: seq<KV>, buckets: seq<seq<KV>>)
    requires Conserved(emits, rests, chan, buckets)
    requires i < |rests| && rests[i] != []
    ensures Conserved(emits, rests[i := rests[i][1..]], chan + [rests[i][0]], buckets)
  {
    var x := rests[i];
    BagAt(rests, i);
    BagUpdate(rests, i, x[1..]);
    assert x == [x[0]] + x[1..];
    assert multiset(x) == multiset{x[0]} + multiset(x[1..]);
    assert multiset(chan + [x[0]]) == multiset(chan) + multiset{x[0]};
  }

  lemma ConservedTake(emits: seq<seq<KV>>, rests: seq<seq<KV>>, chan: seq<KV>, buckets: seq<seq<KV>>, r: nat)
    requires Conserved(emits, rests, chan, buckets)
    requires chan != [] && r < |buckets|
    ensures Conserved(emits, rests, chan[1..], buckets[r := buckets[r] + [chan[0]]])
  {
    BagAt(buckets, r);
    BagUpdate(buckets, r, buckets[r] + [chan[0]]);
    assert chan == [chan[0]] + chan[1..];
    assert multiset(chan) == multiset{chan[0]} + multiset(chan[1..]);
    assert multiset(buckets[r] + [chan[0]]) == multiset(buckets[r]) + multiset{chan[0]};
  }

  lemma OpenWhileEmitting(c: Config, s: State, i: nat)
    requires Closing(c, s) && i < |s.rests| && s.rests[i] != []
    ensures !s.closed
  {
    AllTrue(s.ended);
  }

  lemma KeepEmit(c: Config, s: State, i: nat)
    requires Inv(c, s) && Enabled(s, Emit(i))
    ensures Inv(c, Apply(c, s, Emit(i)))
  {
    ConservedEmit(c.emits, s.rests, i, s.chan, s.buckets);
    OpenWhileEmitting(c, s, i);
  }

  lemma KeepTakeKV(c: Config, s: State)
    requires Inv(c, s) && Enabled(s, TakeKV) && c.nReduce > 0
    ensures Inv(c, Apply(c, s, TakeKV))
  {
    var r := ReducerForKey(c.hash, s.chan[0].key, c.nReduce);
    ConservedTake(c.emits, s.rests, s.chan, s.buckets, r);
    SortedUpdate(c, s.buckets, r, s.chan[0]);
  }

  lemma SortedUpdate(c: Config, buckets: seq<seq<KV>>, r: nat, x: KV)
    requires Sorted(c, buckets) && r < |buckets| && ReducerForKey(c.hash, x.key, c.nReduce) == r
    ensures Sorted(c, buckets[r := buckets[r] + [x]])
  {
  }

  lemma KeepControl(c: Config, s: State, st: Step)
    requires Inv(c, s) && Enabled(s, st) && (st.Finish? || st.TakeDone? || st.Leave?)
    ensures Inv(c, Apply(c, s, st))
  {
    AllTrue(s.ended);
    if st.Finish? {
      TruesUpdate(s.ended, st.i);
    }
  }

  lemma {:induction false} RunInv(c: Config, schedule: seq<Step>, s: State)
    requires c.nReduce > 0 && |c.emits| > 0
    requires Exec(c, schedule) == At(s)
    ensures Inv(c, s)
  {
    if schedule == [] {
      BagOfEmpty(s.buckets);
      assert Trues(s.ended) == 0 by {
        NoneTrue(s.ended);
      }
    } else {
      var n := |schedule| - 1;
      var before := Exec(c, schedule[..n]).s;
      RunInv(c, schedule[..n], before);
      match schedule[n]
      case Emit(i) => KeepEmit(c, before, i);
      case TakeKV => KeepTakeKV(c, before);
      case _ => KeepControl(c, before, schedule[n]);
    }
  }

  lemma {:induction false} NoneTrue(bs: seq<bool>)
    requires forall i :: 0 <= i < |bs| ==> !bs[i]
    ensures Trues(bs) == 0
  {
    if bs != [] {
      NoneTrue(bs[1..]);
    }
  }

  /** Nothing is sent on the closed channel, it is closed once, and no bucket index is out of range. */
  lemma NeverPanics(c: Config, s: State)
    requires c.nReduce > 0 && |c.emits| > 0 && Reachable(c, s)
    ensures !s.panicked
  {
    var schedule :| Exec(c, schedule) == At(s);
    RunInv(c, schedule, s);
  }

  /** `bucket` holds exactly the emitted KVs of reducer `r`, each as often as it was emitted. */
  ghost predicate IsShare(c: Config, r: nat, bucket: seq<KV>)
    requires c.nReduce > 0
  {
    forall x: KV :: multiset(bucket)[x] ==
      if ReducerForKey(c.hash, x.key, c.nReduce) == r then BagOf(c.emits)[x] else 0
  }

  /** Whatever the interleaving, the loop ends with every emitted KV in the bucket of its reducer. */
  lemma BucketsAreShares(c: Config, s: State, r: nat)
    requires c.nReduce > 0 && |c.emits| > 0 && Reachable(c, s)
    requires s.exited && r < c.nReduce
    ensures |s.buckets| == c.nReduce
    ensures IsShare(c, r, s.buckets[r])
  {
    var schedule :| Exec(c, schedule) == At(s);
    RunInv(c, schedule, s);
    ClosedMeansEnded(c, s);
    BagOfEmpty(s.rests);
    assert BagOf(s.buckets) == BagOf(c.emits);
    forall x: KV ensures multiset(s.buckets[r])[x] ==
      if ReducerForKey(c.hash, x.key, c.nReduce) == r then BagOf(c.emits)[x] else 0
    {
      BucketCount(c, s.buckets, r, x);
    }
  }

  lemma BucketCount(c: Config, buckets: seq<seq<KV>>, r: nat, x: KV)
    requires c.nReduce > 0 && Sorted(c, buckets) && r < c.nReduce
    ensures multiset(buckets[r])[x] ==
      if ReducerForKey(c.hash, x.key, c.nReduce) == r then BagOf(buckets)[x] else 0
  {
    var q := ReducerForKey(c.hash, x.key, c.nReduce);
    assert forall i :: 0 <= i < |buckets| && i != q ==> x !in buckets[i];
    BagCount(buckets, q, x);
    if r != q {
      assert x !in multiset(buckets[r]);
    }
  }

  // ---- progress ---------------------------------------------------------------------------

  /** Until the loop is left some step is possible. */
  lemma NeverStuck(c: Config, s: State) returns (st: Step)
    requires c.nReduce > 0 && |c.emits| > 0 && Reachable(c, s) && !s.exited
    ensures Enabled(s, st)
  {
    var schedule :| Exec(c, schedule) == At(s);
    RunInv(c, schedule, s);
    if s.chan != [] {
      st := TakeKV;
    } else if s.done > 0 {
      st := TakeDone;
    } else if s.closed {
      st := Leave;
    } else {
      AllTrue(s.ended);
      var i := SomeoneEmits(s.ended);
      st := if s.rests[i] == [] then Finish(i) else Emit(i);
    }
  }

  lemma {:induction false} SomeoneEmits(bs: seq<bool>) returns (i: nat)
    requires Trues(bs) < |bs|
    ensures i < |bs| && !bs[i]
  {
    if bs[0] {
      i := SomeoneEmits(bs[1..]);
      i := i + 1;
    } else {
      i := 0;
    }
  }

  function Work(rests: seq<seq<KV>>): nat {
    if rests == [] then 0 else |rests[0]| + Work(rests[1..])
  }

  lemma {:induction false} WorkUpdate(rests: seq<seq<KV>>, i: nat)
    requires i < |rests| && rests[i] != []
    ensures Work(rests[i := rests[i][1..]]) == Work(rests) - 1
  {
    var rests' := rests[i := rests[i][1..]];
    if i > 0 {
      WorkUpdate(rests[1..], i - 1);
      assert rests'[1..] == rests[1..][i - 1 := rests[i][1..]];
    } else {
      assert rests'[1..] == rests[1..];
    }
  }

  function Measure(c: Config, s: State): int {
    2 * Work(s.rests) + |s.chan| + 2 * (|c.emits| - Trues(s.ended)) + s.done + if s.exited then 0 else 1
  }

  lemma StepDecreases(c: Config, s: State, st: Step)
    requires Inv(c, s) && Enabled(s, st) && c.nReduce > 0
    ensures 0 <= Measure(c, Apply(c, s, st)) < Measure(c, s)
  {
    AllTrue(s.ended);
    match st
    case Emit(i) => WorkUpdate(s.rests, i);
    case Finish(i) => TruesUpdate(s.ended, i); AllTrue(s.ended[i := true]);
    case _ =>
  }

  /** Every run of the loop is finite. */
  lemma {:induction false} RunsAreBounded(c: Config, schedule: seq<Step>, s: State)
    requires c.nReduce > 0 && |c.emits| > 0
    requires Exec(c, schedule) == At(s)
    ensures 0 <= Measure(c, s)
    ensures |schedule| + Measure(c, s) <= 2 * Work(c.emits) + 2 * |c.emits| + 1
  {
    if schedule == [] {
      NoneTrue(s.ended);
    } else {
      var n := |schedule| - 1;
      var before := Exec(c, schedule[..n]).s;
      RunInv(c, schedule[..n], before);
      RunsAreBounded(c, schedule[..n], before);
      StepDecreases(c, before, schedule[n]);
    }
  }

  /** Without an input file the loop waits for ever: nobody closes the channel. */
  lemma NoFilesBlocks(c: Config, st: Step)
    requires c.emits == []
    ensures !Enabled(Init(c), st)
    ensures !Init(c).exited
  {
  }
}

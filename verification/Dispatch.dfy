/**
 The map phase of the master as a transition system (`distributeMapTask`, `orDone` and the
 one-worker case of `availableWorkers`).

 Every goroutine that issues a Map RPC is an `Attempt`. It stores its task under its worker,
 calls the worker, marks the worker and sends one message. The worker side of the call runs
 on its own: it writes its intermediate files and reports them to the master, and it may go
 on doing so after the master has given the call up. Workers stand for their UUIDs, which are
 distinct, and the set of workers is fixed when dispatch starts.
 */
module Dispatch {
  import opened Channels

  datatype WorkerState = Idle | Busy | Unknown

  /** Where the goroutine of an attempt stands. */
  datatype Pc =
    | ToStore            // about to store the task in taskStates
    | Calling            // inside the Map RPC
    | Returned(ok: bool) // the RPC gave `ok`, the worker is not marked yet
    | Marked(ok: bool)   // the worker is marked, the message is not sent yet
    | Ended(ok: bool)

  /** How far the worker itself got with the call. */
  datatype Remote = Untouched | Written | Reported

  datatype Attempt = Attempt(task: nat, worker: nat, pc: Pc)

  /** The goroutine started by `orDone`. */
  datatype Watcher = Listening | Handing(uuid: nat) | Closed

  /** The goroutine that ranges over the stream of `orDone`. */
  datatype Dispatcher =
    | Waiting
    | Selecting(crashed: nat)
    | Claimed(crashed: nat, worker: nat)
    | Done

  datatype State = State(
    workers: seq<WorkerState>,
    attempts: seq<Attempt>,
    taskStates: map<nat, nat>,
    crashChan: seq<nat>,
    finish: seq<nat>,
    count: nat,
    watcher: Watcher,
    main: Dispatcher,
    panicked: bool,
    remotes: seq<Remote>,  // the worker side of each attempt
    imds: seq<nat>,        // attempts in the order in which their UpdateIMDInfo ran
    files: map<nat, nat>)  // worker -> attempt whose buckets its files hold

  /** `tasks` is the master's totalWorkers, `workers` the number of registered workers. */
  datatype Config = Config(tasks: nat, workers: nat) {
    predicate Valid() {
      1 <= tasks <= workers
    }
  }

  /** All initial goroutines are spawned; workers 0..tasks-1 were claimed for them. */
  function Init(c: Config): (s: State)
    requires c.Valid()
  {
    State(
      seq(c.workers, (w: nat) => if w < c.tasks then Busy else Idle),
      seq(c.tasks, (t: nat) => Attempt(t, t, ToStore)),
      map[], [], [], 0, Listening, Waiting, false,
      seq(c.tasks, (t: nat) => Untouched), [], map[])
  }

  datatype Step =
    | Store(a: nat)
    | Write(a: nat)
    | Report(a: nat)
    | Return(a: nat, ok: bool)
    | Mark(a: nat)
    | Send(a: nat)
    | TakeFinish
    | TakeCrash
    | Hand
    | Claim(w: nat)
    | Reassign
    | Exit

  predicate Enabled(s: State, st: Step) {
    match st
    case Store(a) => a < |s.attempts| && s.attempts[a].pc == ToStore
    case Write(a) => a < |s.attempts| && a < |s.remotes| && s.attempts[a].pc != ToStore && s.remotes[a] == Untouched
    case Report(a) => a < |s.remotes| && s.remotes[a] == Written
    case Return(a, ok) => a < |s.attempts| && s.attempts[a].pc == Calling &&
                          (ok ==> a < |s.remotes| && s.remotes[a] == Reported)
    case Mark(a) => a < |s.attempts| && s.attempts[a].pc.Returned? && s.attempts[a].worker < |s.workers|
    case Send(a) => a < |s.attempts| && s.attempts[a].pc.Marked? &&
                    |if s.attempts[a].pc.ok then s.finish else s.crashChan| < CHANNEL_CAPACITY
    case TakeFinish => s.watcher == Listening && s.finish != []
    case TakeCrash => s.watcher == Listening && s.crashChan != []
    case Hand => s.watcher.Handing? && s.main == Waiting
    case Claim(w) => s.main.Selecting? && w < |s.workers| && s.workers[w] == Idle
    case Reassign => s.main.Claimed? && (s.main.crashed == s.main.worker ==> |s.crashChan| < CHANNEL_CAPACITY)
    case Exit => s.watcher == Closed && s.main == Waiting
  }

  function SetPc(attempts: seq<Attempt>, a: nat, pc: Pc): (r: seq<Attempt>)
    requires a < |attempts|
  {
    attempts[a := attempts[a].(pc := pc)]
  }

  function Apply(c: Config, s: State, st: Step): State
    requires Enabled(s, st)
  {
    match st
    case Store(a) =>
      s.(attempts := SetPc(s.attempts, a, Calling),
         taskStates := s.taskStates[s.attempts[a].worker := s.attempts[a].task])
    case Write(a) =>
      s.(remotes := s.remotes[a := Written], files := s.files[s.attempts[a].worker := a])
    case Report(a) =>
      s.(remotes := s.remotes[a := Reported], imds := s.imds + [a])
    case Return(a, ok) =>
      s.(attempts := SetPc(s.attempts, a, Returned(ok)))
    case Mark(a) =>
      var ok := s.attempts[a].pc.ok;
      s.(attempts := SetPc(s.attempts, a, Marked(ok)),
         workers := s.workers[s.attempts[a].worker := if ok then Idle else Unknown])
    case Send(a) =>
      var w := s.attempts[a].worker;
      if s.attempts[a].pc.ok then
        // `finish` is closed once distributeMapTask has returned
        s.(attempts := SetPc(s.attempts, a, Ended(true)), finish := s.finish + [w],
           panicked := s.panicked || s.main == Done)
      else
        s.(attempts := SetPc(s.attempts, a, Ended(false)), crashChan := s.crashChan + [w])
    case TakeFinish =>
      s.(finish := s.finish[1..], count := s.count + 1,
         watcher := if s.count + 1 == c.tasks then Closed else Listening)
    case TakeCrash =>
      s.(crashChan := s.crashChan[1..], watcher := Handing(s.crashChan[0]))
    case Hand =>
      s.(watcher := Listening, main := Selecting(s.watcher.uuid))
    case Claim(w) =>
      s.(workers := s.workers[w := Busy], main := Claimed(s.main.crashed, w))
    case Reassign =>
      var crashed, w := s.main.crashed, s.main.worker;
      if crashed == w then
        s.(crashChan := s.crashChan + [crashed], main := Waiting)
      else if crashed !in s.taskStates then
        s.(main := Waiting)
      else
        s.(attempts := s.attempts + [Attempt(s.taskStates[crashed], w, ToStore)],
           remotes := s.remotes + [Untouched], main := Waiting)
    case Exit =>
      s.(main := Done)
  }

  /** The state after a schedule, or Stuck when some step of it is not enabled in its turn. */
  datatype Outcome = Stuck | At(s: State)

  function Exec(c: Config, schedule: seq<Step>): Outcome
    requires c.Valid()
  {
    if schedule == [] then
      At(Init(c))
    else
      var n := |schedule| - 1;
      match Exec(c, schedule[..n])
      case Stuck => Stuck
      case At(s) => if Enabled(s, schedule[n]) then At(Apply(c, s, schedule[n])) else Stuck
  }

  ghost predicate Reachable(c: Config, s: State)
    requires c.Valid()
  {
    exists schedule :: Exec(c, schedule) == At(s)
  }

  // ---------------------------------------------------------------------------------------
  // The invariant. Each part speaks of the few components it depends on.
  // ---------------------------------------------------------------------------------------

  predicate Live(pc: Pc) {
    !pc.Ended?
  }

  predicate Engaged(pc: Pc) {
    pc.ToStore? || pc.Calling? || pc.Returned?
  }

  predicate Failed(pc: Pc) {
    pc == Marked(false) || pc == Ended(false)
  }

  predicate Won(pc: Pc) {
    pc == Returned(true) || pc == Marked(true) || pc == Ended(true)
  }

  /** The attempt must find its task under its worker in taskStates. */
  predicate Stores(pc: Pc) {
    pc.Calling? || pc.Returned? || pc == Marked(false)
  }

  /** The crash reports that nobody has acted upon yet, wherever they are. */
  function Reports(crashChan: seq<nat>, watcher: Watcher, main: Dispatcher): multiset<nat> {
    multiset(crashChan)
    + (if watcher.Handing? then multiset{watcher.uuid} else multiset{})
    + (if main.Selecting? || main.Claimed? then multiset{main.crashed} else multiset{})
  }

  function ClaimedWorker(main: Dispatcher): int {
    if main.Claimed? then main.worker else -1
  }

  /** The one place in which a task is. */
  datatype Place = Running(a: nat) | Crashed(w: nat) | Succeeded(a: nat)

  predicate PlaceHolds(attempts: seq<Attempt>, taskStates: map<nat, nat>, reports: multiset<nat>, t: nat, p: Place) {
    match p
    case Running(a) => a < |attempts| && attempts[a].task == t && Live(attempts[a].pc)
    case Succeeded(a) => a < |attempts| && attempts[a].task == t && attempts[a].pc == Ended(true)
    case Crashed(w) => w in reports && w in taskStates && taskStates[w] == t
  }

  /** Each task is in exactly one place. */
  ghost predicate Places(attempts: seq<Attempt>, taskStates: map<nat, nat>, reports: multiset<nat>, place: seq<Place>) {
    && (forall a :: 0 <= a < |attempts| ==> attempts[a].task < |place|)
    && (forall a :: 0 <= a < |attempts| && Live(attempts[a].pc) ==> place[attempts[a].task] == Running(a))
    && (forall a :: 0 <= a < |attempts| && attempts[a].pc == Ended(true) ==> place[attempts[a].task] == Succeeded(a))
    && (forall t :: 0 <= t < |place| ==> PlaceHolds(attempts, taskStates, reports, t, place[t]))
    && (forall w :: w in reports ==> w in taskStates && taskStates[w] < |place| && place[taskStates[w]] == Crashed(w))
    && (forall w :: w in reports ==> reports[w] == 1)
  }

  /** A busy worker is kept busy by exactly one attempt, or (holder -1) by the main goroutine. */
  ghost predicate Holders(attempts: seq<Attempt>, workers: seq<WorkerState>, claimed: int, holder: seq<int>) {
    && |holder| == |workers|
    && (forall a :: 0 <= a < |attempts| ==> attempts[a].worker < |workers|)
    && (forall a :: 0 <= a < |attempts| && Engaged(attempts[a].pc) ==>
          workers[attempts[a].worker] == Busy && holder[attempts[a].worker] == a)
    && (forall w :: 0 <= w < |workers| && workers[w] == Busy && holder[w] != -1 ==>
          0 <= holder[w] < |attempts| && attempts[holder[w]].worker == w && Engaged(attempts[holder[w]].pc))
    && (forall w :: 0 <= w < |workers| && workers[w] == Busy && holder[w] == -1 ==> claimed == w)
    && (claimed != -1 ==> 0 <= claimed < |workers| && workers[claimed] == Busy && holder[claimed] == -1)
  }

  /** A crash is final for its worker. `consumed` are the workers whose crash led to a new attempt. */
  ghost predicate Crashes(attempts: seq<Attempt>, workers: seq<WorkerState>, reports: multiset<nat>, consumed: set<nat>) {
    && (forall w :: w in reports ==> w < |workers| && workers[w] == Unknown && w !in consumed)
    && (forall w :: w in consumed ==> w < |workers| && workers[w] == Unknown)
    && (forall a :: 0 <= a < |attempts| ==> attempts[a].worker < |workers|)
    && (forall a :: 0 <= a < |attempts| && Failed(attempts[a].pc) ==> workers[attempts[a].worker] == Unknown)
    && (forall a :: 0 <= a < |attempts| && attempts[a].pc == Marked(false) ==>
          attempts[a].worker !in reports && attempts[a].worker !in consumed)
  }

  /** A worker is given a new attempt only after it succeeded with the one before. */
  ghost predicate Sequential(attempts: seq<Attempt>) {
    forall a, b :: 0 <= a < b < |attempts| && attempts[a].worker == attempts[b].worker ==>
      attempts[a].pc == Marked(true) || attempts[a].pc == Ended(true)
  }

  /** `taskStates` holds the task of every attempt that may still crash. */
  ghost predicate Stored(attempts: seq<Attempt>, taskStates: map<nat, nat>) {
    forall a :: 0 <= a < |attempts| && Stores(attempts[a].pc) ==>
      attempts[a].worker in taskStates && taskStates[attempts[a].worker] == attempts[a].task
  }

  function SucceededTasks(place: seq<Place>): set<nat> {
    set t | 0 <= t < |place| && place[t].Succeeded?
  }

  ghost predicate Counting(c: Config, s: State, x: Witness) {
    && |s.finish| + s.count == |SucceededTasks(x.place)|
    && (s.watcher == Closed <==> s.count == c.tasks)
    && (s.main == Done ==> s.watcher == Closed)
    && !s.panicked
    && |s.attempts| == c.tasks + |x.consumed|
    && |x.consumed| < c.workers
  }

  /** A task is attempted again only after its attempt failed. */
  ghost predicate Retried(attempts: seq<Attempt>) {
    forall a, b :: 0 <= a < b < |attempts| && attempts[a].task == attempts[b].task ==> attempts[a].pc == Ended(false)
  }

  /** The master lists exactly the attempts that reported, each once. */
  ghost predicate Catalogued(remotes: seq<Remote>, imds: seq<nat>) {
    && (forall i :: 0 <= i < |imds| ==> imds[i] < |remotes| && remotes[imds[i]] == Reported)
    && (forall a :: 0 <= a < |remotes| && remotes[a] == Reported ==> a in imds)
    && (forall i, j :: 0 <= i < j < |imds| ==> imds[i] != imds[j])
  }

  ghost predicate Progressed(attempts: seq<Attempt>, remotes: seq<Remote>) {
    && |remotes| == |attempts|
    && (forall a :: 0 <= a < |attempts| && attempts[a].pc == ToStore ==> remotes[a] == Untouched)
    && (forall a :: 0 <= a < |attempts| && Won(attempts[a].pc) ==> remotes[a] == Reported)
  }

  /** The files of a worker hold the buckets of the last attempt that wrote there. */
  ghost predicate Filing(attempts: seq<Attempt>, remotes: seq<Remote>, files: map<nat, nat>) {
    && |remotes| == |attempts|
    && (forall w :: w in files ==> files[w] < |attempts| && attempts[files[w]].worker == w && remotes[files[w]] != Untouched)
    && (forall a :: 0 <= a < |attempts| && remotes[a] != Untouched ==>
          attempts[a].worker in files && a <= files[attempts[a].worker])
  }

  /** What the proofs carry along a run. */
  datatype Witness = Witness(place: seq<Place>, holder: seq<int>, consumed: set<nat>)

  ghost predicate Tokens(attempts: seq<Attempt>, workers: seq<WorkerState>, claimed: int,
                         taskStates: map<nat, nat>, reports: multiset<nat>, x: Witness) {
    && Places(attempts, taskStates, reports, x.place)
    && Holders(attempts, workers, claimed, x.holder)
    && Crashes(attempts, workers, reports, x.consumed)
    && Sequential(attempts)
    && Stored(attempts, taskStates)
  }

  ghost predicate Control(c: Config, s: State, x: Witness) {
    && c.Valid()
    && |s.workers| == c.workers
    && |x.place| == c.tasks
    && Tokens(s.attempts, s.workers, ClaimedWorker(s.main), s.taskStates, Reports(s.crashChan, s.watcher, s.main), x)
    && Counting(c, s, x)
  }

  ghost predicate Data(s: State) {
    && Retried(s.attempts)
    && Catalogued(s.remotes, s.imds)
    && Progressed(s.attempts, s.remotes)
    && Filing(s.attempts, s.remotes, s.files)
  }

  ghost predicate Inv(c: Config, s: State, x: Witness) {
    Control(c, s, x) && Data(s)
  }

  // ---- how each part follows a change -----------------------------------------------------

  lemma PlacesAdvance(attempts: seq<Attempt>, a: nat, pc: Pc, ts: map<nat, nat>, reports: multiset<nat>, place: seq<Place>)
    requires Places(attempts, ts, reports, place)
    requires a < |attempts| && Live(attempts[a].pc) && Live(pc)
    ensures Places(SetPc(attempts, a, pc), ts, reports, place)
  {
  }

  lemma PlacesStore(attempts: seq<Attempt>, ts: map<nat, nat>, w: nat, t: nat, reports: multiset<nat>, place: seq<Place>)
    requires Places(attempts, ts, reports, place)
    requires w !in reports
    ensures Places(attempts, ts[w := t], reports, place)
  {
  }

  lemma PlacesSucceed(attempts: seq<Attempt>, a: nat, ts: map<nat, nat>, reports: multiset<nat>, place: seq<Place>)
    requires Places(attempts, ts, reports, place)
    requires a < |attempts| && Live(attempts[a].pc)
    ensures Places(SetPc(attempts, a, Ended(true)), ts, reports, place[attempts[a].task := Succeeded(a)])
  {
    assert place[attempts[a].task] == Running(a);
  }

  lemma PlacesCrash(attempts: seq<Attempt>, a: nat, ts: map<nat, nat>, reports: multiset<nat>, place: seq<Place>)
    requires Places(attempts, ts, reports, place)
    requires a < |attempts| && Live(attempts[a].pc)
    requires attempts[a].worker !in reports
    requires attempts[a].worker in ts && ts[attempts[a].worker] == attempts[a].task
    ensures Places(SetPc(attempts, a, Ended(false)), ts, reports + multiset{attempts[a].worker},
                   place[attempts[a].task := Crashed(attempts[a].worker)])
  {
    assert place[attempts[a].task] == Running(a);
  }

  lemma PlacesRespawn(attempts: seq<Attempt>, w: nat, u: nat, ts: map<nat, nat>, reports: multiset<nat>, place: seq<Place>)
    requires Places(attempts, ts, reports, place)
    requires u in reports
    ensures Places(attempts + [Attempt(ts[u], w, ToStore)], ts, reports - multiset{u}, place[ts[u] := Running(|attempts|)])
  {
    assert place[ts[u]] == Crashed(u);
  }

  lemma HoldersAdvance(attempts: seq<Attempt>, a: nat, pc: Pc, workers: seq<WorkerState>, claimed: int, holder: seq<int>)
    requires Holders(attempts, workers, claimed, holder)
    requires a < |attempts| && (Engaged(attempts[a].pc) <==> Engaged(pc))
    ensures Holders(SetPc(attempts, a, pc), workers, claimed, holder)
  {
  }

  lemma HoldersMark(attempts: seq<Attempt>, a: nat, pc: Pc, workers: seq<WorkerState>, state: WorkerState, claimed: int, holder: seq<int>)
    requires Holders(attempts, workers, claimed, holder)
    requires a < |attempts| && Engaged(attempts[a].pc) && !Engaged(pc) && state != Busy
    ensures Holders(SetPc(attempts, a, pc), workers[attempts[a].worker := state], claimed, holder)
  {
  }

  lemma HoldersClaim(attempts: seq<Attempt>, w: nat, workers: seq<WorkerState>, holder: seq<int>)
    requires Holders(attempts, workers, -1, holder)
    requires w < |workers| && workers[w] == Idle
    ensures Holders(attempts, workers[w := Busy], w, holder[w := -1])
  {
  }

  lemma HoldersRespawn(attempts: seq<Attempt>, w: nat, t: nat, workers: seq<WorkerState>, holder: seq<int>)
    requires Holders(attempts, workers, w, holder)
    ensures Holders(attempts + [Attempt(t, w, ToStore)], workers, -1, holder[w := |attempts|])
  {
  }

  lemma CrashesAdvance(attempts: seq<Attempt>, a: nat, pc: Pc, workers: seq<WorkerState>, reports: multiset<nat>, consumed: set<nat>)
    requires Crashes(attempts, workers, reports, consumed)
    requires a < |attempts| && !Failed(pc)
    ensures Crashes(SetPc(attempts, a, pc), workers, reports, consumed)
  {
  }

  lemma CrashesMark(attempts: seq<Attempt>, a: nat, ok: bool, workers: seq<WorkerState>, reports: multiset<nat>, consumed: set<nat>)
    requires Crashes(attempts, workers, reports, consumed)
    requires a < |attempts| && workers[attempts[a].worker] == Busy
    ensures Crashes(SetPc(attempts, a, Marked(ok)), workers[attempts[a].worker := if ok then Idle else Unknown], reports, consumed)
  {
  }

  lemma CrashesSend(attempts: seq<Attempt>, a: nat, workers: seq<WorkerState>, reports: multiset<nat>, consumed: set<nat>)
    requires Crashes(attempts, workers, reports, consumed) && Sequential(attempts)
    requires a < |attempts| && attempts[a].pc == Marked(false)
    ensures Crashes(SetPc(attempts, a, Ended(false)), workers, reports + multiset{attempts[a].worker}, consumed)
  {
    forall b | 0 <= b < |attempts| && b != a && attempts[b].pc == Marked(false)
      ensures attempts[b].worker != attempts[a].worker
    {
      assert b < a || a < b;
    }
  }

  lemma CrashesClaim(attempts: seq<Attempt>, w: nat, workers: seq<WorkerState>, reports: multiset<nat>, consumed: set<nat>)
    requires Crashes(attempts, workers, reports, consumed)
    requires w < |workers| && workers[w] == Idle
    ensures Crashes(attempts, workers[w := Busy], reports, consumed)
  {
  }

  lemma CrashesRespawn(attempts: seq<Attempt>, t: nat, w: nat, u: nat, workers: seq<WorkerState>, reports: multiset<nat>, consumed: set<nat>)
    requires Crashes(attempts, workers, reports, consumed)
    requires u in reports && reports[u] == 1 && w < |workers|
    ensures Crashes(attempts + [Attempt(t, w, ToStore)], workers, reports - multiset{u}, consumed + {u})
  {
  }

  /** A worker that is not idle-or-better has at most one attempt that is not yet won. */
  lemma SequentialRespawn(attempts: seq<Attempt>, t: nat, w: nat, workers: seq<WorkerState>, holder: seq<int>, reports: multiset<nat>, consumed: set<nat>)
    requires Sequential(attempts) && Holders(attempts, workers, w, holder) && Crashes(attempts, workers, reports, consumed)
    ensures Sequential(attempts + [Attempt(t, w, ToStore)])
  {
    forall a | 0 <= a < |attempts| && attempts[a].worker == w
      ensures attempts[a].pc == Marked(true) || attempts[a].pc == Ended(true)
    {
      assert !Engaged(attempts[a].pc) && !Failed(attempts[a].pc);
    }
  }

  lemma SequentialAdvance(attempts: seq<Attempt>, a: nat, pc: Pc)
    requires Sequential(attempts) && a < |attempts|
    requires attempts[a].pc == Marked(true) ==> pc == Ended(true)
    requires !attempts[a].pc.Ended?
    ensures Sequential(SetPc(attempts, a, pc))
  {
  }

  lemma StoredStore(attempts: seq<Attempt>, a: nat, ts: map<nat, nat>)
    requires Stored(attempts, ts) && Sequential(attempts)
    requires a < |attempts| && attempts[a].pc == ToStore
    ensures Stored(SetPc(attempts, a, Calling), ts[attempts[a].worker := attempts[a].task])
  {
    forall b | 0 <= b < |attempts| && b != a && Stores(attempts[b].pc)
      ensures attempts[b].worker != attempts[a].worker
    {
      assert b < a || a < b;
    }
  }

  lemma StoredAdvance(attempts: seq<Attempt>, a: nat, pc: Pc, ts: map<nat, nat>)
    requires Stored(attempts, ts) && a < |attempts|
    requires Stores(pc) ==> Stores(attempts[a].pc)
    ensures Stored(SetPc(attempts, a, pc), ts)
  {
  }

  lemma TokensStore(attempts: seq<Attempt>, a: nat, workers: seq<WorkerState>, claimed: int, ts: map<nat, nat>, reports: multiset<nat>, x: Witness)
    requires Tokens(attempts, workers, claimed, ts, reports, x)
    requires a < |attempts| && attempts[a].pc == ToStore
    ensures Tokens(SetPc(attempts, a, Calling), workers, claimed, ts[attempts[a].worker := attempts[a].task], reports, x)
  {
    PlacesAdvance(attempts, a, Calling, ts, reports, x.place);
    PlacesStore(SetPc(attempts, a, Calling), ts, attempts[a].worker, attempts[a].task, reports, x.place);
    HoldersAdvance(attempts, a, Calling, workers, claimed, x.holder);
    CrashesAdvance(attempts, a, Calling, workers, reports, x.consumed);
    SequentialAdvance(attempts, a, Calling);
    StoredStore(attempts, a, ts);
  }

  lemma TokensReturn(attempts: seq<Attempt>, a: nat, ok: bool, workers: seq<WorkerState>, claimed: int, ts: map<nat, nat>, reports: multiset<nat>, x: Witness)
    requires Tokens(attempts, workers, claimed, ts, reports, x)
    requires a < |attempts| && attempts[a].pc == Calling
    ensures Tokens(SetPc(attempts, a, Returned(ok)), workers, claimed, ts, reports, x)
  {
    PlacesAdvance(attempts, a, Returned(ok), ts, reports, x.place);
    HoldersAdvance(attempts, a, Returned(ok), workers, claimed, x.holder);
    CrashesAdvance(attempts, a, Returned(ok), workers, reports, x.consumed);
    SequentialAdvance(attempts, a, Returned(ok));
    StoredAdvance(attempts, a, Returned(ok), ts);
  }

  lemma TokensMark(attempts: seq<Attempt>, a: nat, ok: bool, workers: seq<WorkerState>, claimed: int, ts: map<nat, nat>, reports: multiset<nat>, x: Witness)
    requires Tokens(attempts, workers, claimed, ts, reports, x)
    requires a < |attempts| && attempts[a].pc == Returned(ok)
    ensures Tokens(SetPc(attempts, a, Marked(ok)), workers[attempts[a].worker := if ok then Idle else Unknown], claimed, ts, reports, x)
  {
    PlacesAdvance(attempts, a, Marked(ok), ts, reports, x.place);
    HoldersMark(attempts, a, Marked(ok), workers, if ok then Idle else Unknown, claimed, x.holder);
    CrashesMark(attempts, a, ok, workers, reports, x.consumed);
    SequentialAdvance(attempts, a, Marked(ok));
    StoredAdvance(attempts, a, Marked(ok), ts);
  }

  lemma TokensSucceed(attempts: seq<Attempt>, a: nat, workers: seq<WorkerState>, claimed: int, ts: map<nat, nat>, reports: multiset<nat>, x: Witness)
    requires Tokens(attempts, workers, claimed, ts, reports, x)
    requires a < |attempts| && attempts[a].pc == Marked(true)
    ensures Tokens(SetPc(attempts, a, Ended(true)), workers, claimed, ts, reports,
                   x.(place := x.place[attempts[a].task := Succeeded(a)]))
  {
    PlacesSucceed(attempts, a, ts, reports, x.place);
    HoldersAdvance(attempts, a, Ended(true), workers, claimed, x.holder);
    CrashesAdvance(attempts, a, Ended(true), workers, reports, x.consumed);
    SequentialAdvance(attempts, a, Ended(true));
    StoredAdvance(attempts, a, Ended(true), ts);
  }

  lemma TokensCrash(attempts: seq<Attempt>, a: nat, workers: seq<WorkerState>, claimed: int, ts: map<nat, nat>, reports: multiset<nat>, x: Witness)
    requires Tokens(attempts, workers, claimed, ts, reports, x)
    requires a < |attempts| && attempts[a].pc == Marked(false)
    ensures Tokens(SetPc(attempts, a, Ended(false)), workers, claimed, ts, reports + multiset{attempts[a].worker},
                   x.(place := x.place[attempts[a].task := Crashed(attempts[a].worker)]))
  {
    PlacesCrash(attempts, a, ts, reports, x.place);
    HoldersAdvance(attempts, a, Ended(false), workers, claimed, x.holder);
    CrashesSend(attempts, a, workers, reports, x.consumed);
    SequentialAdvance(attempts, a, Ended(false));
    StoredAdvance(attempts, a, Ended(false), ts);
  }

  lemma TokensClaim(attempts: seq<Attempt>, w: nat, workers: seq<WorkerState>, ts: map<nat, nat>, reports: multiset<nat>, x: Witness)
    requires Tokens(attempts, workers, -1, ts, reports, x)
    requires w < |workers| && workers[w] == Idle
    ensures w < |x.holder|
    ensures Tokens(attempts, workers[w := Busy], w, ts, reports, x.(holder := x.holder[w := -1]))
  {
    HoldersClaim(attempts, w, workers, x.holder);
    CrashesClaim(attempts, w, workers, reports, x.consumed);
  }

  lemma TokensRespawn(attempts: seq<Attempt>, w: nat, u: nat, workers: seq<WorkerState>, ts: map<nat, nat>, reports: multiset<nat>, x: Witness)
    requires Tokens(attempts, workers, w, ts, reports, x)
    requires u in reports
    ensures u in ts && ts[u] < |x.place| && w < |x.holder|
    ensures Tokens(attempts + [Attempt(ts[u], w, ToStore)], workers, -1, ts, reports - multiset{u},
                   Witness(x.place[ts[u] := Running(|attempts|)], x.holder[w := |attempts|], x.consumed + {u}))
  {
    PlacesRespawn(attempts, w, u, ts, reports, x.place);
    HoldersRespawn(attempts, w, ts[u], workers, x.holder);
    CrashesRespawn(attempts, ts[u], w, u, workers, reports, x.consumed);
    SequentialRespawn(attempts, ts[u], w, workers, x.holder, reports, x.consumed);
  }

  lemma RetriedRespawn(attempts: seq<Attempt>, w: nat, u: nat, ts: map<nat, nat>, reports: multiset<nat>, place: seq<Place>)
    requires Retried(attempts) && Places(attempts, ts, reports, place) && u in reports
    ensures Retried(attempts + [Attempt(ts[u], w, ToStore)])
  {
    forall a | 0 <= a < |attempts| && attempts[a].task == ts[u]
      ensures attempts[a].pc == Ended(false)
    {
      assert place[ts[u]] == Crashed(u);
    }
  }

  lemma CataloguedReport(remotes: seq<Remote>, imds: seq<nat>, a: nat)
    requires Catalogued(remotes, imds) && a < |remotes| && remotes[a] == Written
    ensures Catalogued(remotes[a := Reported], imds + [a])
  {
    forall b | 0 <= b < |remotes| && remotes[a := Reported][b] == Reported
      ensures b in imds + [a]
    {
      if b == a {
        assert (imds + [a])[|imds|] == a;
      } else {
        assert b in imds;
      }
    }
  }

  lemma CataloguedWrite(remotes: seq<Remote>, imds: seq<nat>, a: nat)
    requires Catalogued(remotes, imds)
    requires a < |remotes| && remotes[a] == Untouched
    ensures Catalogued(remotes[a := Written], imds)
  {
  }

  lemma RemotesAdvance(attempts: seq<Attempt>, a: nat, pc: Pc, remotes: seq<Remote>, files: map<nat, nat>)
    requires Retried(attempts) && Progressed(attempts, remotes) && Filing(attempts, remotes, files)
    requires a < |attempts| && Live(attempts[a].pc)
    requires pc != ToStore && (Won(pc) ==> remotes[a] == Reported)
    ensures Retried(SetPc(attempts, a, pc))
    ensures Progressed(SetPc(attempts, a, pc), remotes)
    ensures Filing(SetPc(attempts, a, pc), remotes, files)
  {
  }

  lemma RemotesReport(attempts: seq<Attempt>, a: nat, remotes: seq<Remote>, files: map<nat, nat>)
    requires Progressed(attempts, remotes) && Filing(attempts, remotes, files)
    requires a < |attempts| && remotes[a] == Written
    ensures Progressed(attempts, remotes[a := Reported])
    ensures Filing(attempts, remotes[a := Reported], files)
  {
  }

  lemma FilingWrite(attempts: seq<Attempt>, a: nat, remotes: seq<Remote>, files: map<nat, nat>)
    requires Filing(attempts, remotes, files) && Sequential(attempts) && Progressed(attempts, remotes)
    requires a < |attempts| && remotes[a] == Untouched
    ensures Filing(attempts, remotes[a := Written], files[attempts[a].worker := a])
  {
    forall b | 0 <= b < |attempts| && remotes[b] != Untouched && attempts[b].worker == attempts[a].worker
      ensures b <= a
    {
    }
  }

  lemma RemotesRespawn(attempts: seq<Attempt>, x: Attempt, remotes: seq<Remote>, imds: seq<nat>, files: map<nat, nat>)
    requires Catalogued(remotes, imds) && Progressed(attempts, remotes) && Filing(attempts, remotes, files)
    requires x.pc == ToStore
    ensures Catalogued(remotes + [Untouched], imds)
    ensures Progressed(attempts + [x], remotes + [Untouched])
    ensures Filing(attempts + [x], remotes + [Untouched], files)
  {
  }

  // ---- counting ---------------------------------------------------------------------------

  lemma BoundedSet(xs: set<nat>, n: nat)
    requires forall i :: i in xs ==> i < n
    ensures |xs| <= n
  {
    if n > 0 {
      BoundedSet(xs - {n - 1}, n - 1);
    } else {
      assert xs == {};
    }
  }

  lemma MissingOne(xs: set<nat>, n: nat, missing: nat)
    requires forall i :: i in xs ==> i < n
    requires missing < n && missing !in xs
    ensures |xs| < n
  {
    BoundedSet(xs + {missing}, n);
  }

  lemma SucceededUpdate(place: seq<Place>, t: nat, p: Place)
    requires t < |place| && !place[t].Succeeded?
    ensures |SucceededTasks(place)| < |place|
    ensures |SucceededTasks(place[t := p])| == |SucceededTasks(place)| + if p.Succeeded? then 1 else 0
  {
    MissingOne(SucceededTasks(place), |place|, t);
    if p.Succeeded? {
      assert SucceededTasks(place[t := p]) == SucceededTasks(place) + {t};
    } else {
      assert SucceededTasks(place[t := p]) == SucceededTasks(place);
    }
  }

  // ---- where the crash reports are --------------------------------------------------------

  lemma ReportsSend(crashChan: seq<nat>, w: nat, watcher: Watcher, main: Dispatcher)
    ensures Reports(crashChan + [w], watcher, main) == Reports(crashChan, watcher, main) + multiset{w}
  {
  }

  lemma ReportsTake(crashChan: seq<nat>, main: Dispatcher)
    requires crashChan != []
    ensures Reports(crashChan[1..], Handing(crashChan[0]), main) == Reports(crashChan, Listening, main)
  {
    assert crashChan == [crashChan[0]] + crashChan[1..];
  }

  lemma ReportsReassign(crashChan: seq<nat>, watcher: Watcher, u: nat, w: nat)
    ensures Reports(crashChan, watcher, Waiting) == Reports(crashChan, watcher, Claimed(u, w)) - multiset{u}
    ensures u in Reports(crashChan, watcher, Claimed(u, w))
  {
  }

  // ---- every step keeps the invariant -----------------------------------------------------

  function InitWitness(c: Config): Witness {
    Witness(seq(c.tasks, (t: nat) => Running(t)), seq(c.workers, (w: nat) => w as int), {})
  }

  /** How the witness follows a step. */
  function NextWitness(s: State, x: Witness, st: Step): Witness
    requires Enabled(s, st)
  {
    match st
    case Send(a) =>
      var t := s.attempts[a].task;
      if t < |x.place| then
        x.(place := x.place[t := if s.attempts[a].pc.ok then Succeeded(a) else Crashed(s.attempts[a].worker)])
      else x
    case Claim(w) =>
      if w < |x.holder| then x.(holder := x.holder[w := -1]) else x
    case Reassign =>
      var crashed, w := s.main.crashed, s.main.worker;
      if crashed in s.taskStates && s.taskStates[crashed] < |x.place| && w < |x.holder| then
        Witness(x.place[s.taskStates[crashed] := Running(|s.attempts|)],
                x.holder[w := |s.attempts|],
                x.consumed + {crashed})
      else x
    case _ => x
  }

  lemma InitInv(c: Config)
    requires c.Valid()
    ensures Inv(c, Init(c), InitWitness(c))
  {
    InitControl(c);
    InitData(c);
  }

  lemma InitControl(c: Config)
    requires c.Valid()
    ensures Control(c, Init(c), InitWitness(c))
  {
    InitCounting(c);
    hide Counting, Places, Holders, Crashes;
    var s, x := Init(c), InitWitness(c);
    assert Reports(s.crashChan, s.watcher, s.main) == multiset{};
    InitPlaces(c);
    InitHolders(c);
  }

  lemma InitCounting(c: Config)
    requires c.Valid()
    ensures Counting(c, Init(c), InitWitness(c))
  {
    assert SucceededTasks(InitWitness(c).place) == {};
  }

  lemma InitPlaces(c: Config)
    requires c.Valid()
    ensures Places(Init(c).attempts, map[], multiset{}, InitWitness(c).place)
  {
  }

  lemma InitHolders(c: Config)
    requires c.Valid()
    ensures Holders(Init(c).attempts, Init(c).workers, -1, InitWitness(c).holder)
    ensures Crashes(Init(c).attempts, Init(c).workers, multiset{}, {})
  {
  }

  lemma InitData(c: Config)
    requires c.Valid()
    ensures Data(Init(c))
  {
  }

  lemma KeepStore(c: Config, s: State, x: Witness, a: nat)
    requires Inv(c, s, x) && Enabled(s, Store(a))
    ensures Inv(c, Apply(c, s, Store(a)), x)
  {
    hide Tokens, Filing, Catalogued, Retried;
    var reports := Reports(s.crashChan, s.watcher, s.main);
    TokensStore(s.attempts, a, s.workers, ClaimedWorker(s.main), s.taskStates, reports, x);
    RemotesAdvance(s.attempts, a, Calling, s.remotes, s.files);
  }

  lemma KeepWrite(c: Config, s: State, x: Witness, a: nat)
    requires Inv(c, s, x) && Enabled(s, Write(a))
    ensures Inv(c, Apply(c, s, Write(a)), x)
  {
    hide Places, Holders, Crashes, Stored, Retried;
    CataloguedWrite(s.remotes, s.imds, a);
    FilingWrite(s.attempts, a, s.remotes, s.files);
  }

  lemma KeepReport(c: Config, s: State, x: Witness, a: nat)
    requires Inv(c, s, x) && Enabled(s, Report(a))
    ensures Inv(c, Apply(c, s, Report(a)), x)
  {
    hide Tokens, Retried, Filing, Catalogued;
    CataloguedReport(s.remotes, s.imds, a);
    RemotesReport(s.attempts, a, s.remotes, s.files);
  }

  lemma KeepReturn(c: Config, s: State, x: Witness, a: nat, ok: bool)
    requires Inv(c, s, x) && Enabled(s, Return(a, ok))
    ensures Inv(c, Apply(c, s, Return(a, ok)), x)
  {
    hide Tokens, Filing, Catalogued, Retried;
    var reports := Reports(s.crashChan, s.watcher, s.main);
    TokensReturn(s.attempts, a, ok, s.workers, ClaimedWorker(s.main), s.taskStates, reports, x);
    RemotesAdvance(s.attempts, a, Returned(ok), s.remotes, s.files);
  }

  lemma KeepMark(c: Config, s: State, x: Witness, a: nat)
    requires Inv(c, s, x) && Enabled(s, Mark(a))
    ensures Inv(c, Apply(c, s, Mark(a)), x)
  {
    hide Tokens, Filing, Catalogued, Retried;
    var reports := Reports(s.crashChan, s.watcher, s.main);
    var ok := s.attempts[a].pc.ok;
    TokensMark(s.attempts, a, ok, s.workers, ClaimedWorker(s.main), s.taskStates, reports, x);
    RemotesAdvance(s.attempts, a, Marked(ok), s.remotes, s.files);
  }

  lemma KeepSend(c: Config, s: State, x: Witness, a: nat)
    requires Inv(c, s, x) && Enabled(s, Send(a))
    ensures Inv(c, Apply(c, s, Send(a)), NextWitness(s, x, Send(a)))
  {
    hide Control, Data;
    KeepSendData(c, s, a);
    KeepSendControl(c, s, x, a);
  }

  lemma KeepSendData(c: Config, s: State, a: nat)
    requires Data(s) && Enabled(s, Send(a))
    ensures Data(Apply(c, s, Send(a)))
  {
    RemotesAdvance(s.attempts, a, Ended(s.attempts[a].pc.ok), s.remotes, s.files);
  }

  lemma KeepSendControl(c: Config, s: State, x: Witness, a: nat)
    requires Control(c, s, x) && Enabled(s, Send(a))
    ensures Control(c, Apply(c, s, Send(a)), NextWitness(s, x, Send(a)))
  {
    hide Tokens, Counting;
    CountingSend(c, s, x, a);
    TokensSend(c, s, x, a);
  }

  lemma TokensSend(c: Config, s: State, x: Witness, a: nat)
    requires Control(c, s, x) && Enabled(s, Send(a))
    ensures var s' := Apply(c, s, Send(a));
            Tokens(s'.attempts, s'.workers, ClaimedWorker(s'.main), s'.taskStates,
                   Reports(s'.crashChan, s'.watcher, s'.main), NextWitness(s, x, Send(a)))
  {
    var reports := Reports(s.crashChan, s.watcher, s.main);
    assert s.attempts[a].task < |x.place|;
    hide Tokens, Counting;
    if s.attempts[a].pc.ok {
      TokensSucceed(s.attempts, a, s.workers, ClaimedWorker(s.main), s.taskStates, reports, x);
    } else {
      ReportsSend(s.crashChan, s.attempts[a].worker, s.watcher, s.main);
      TokensCrash(s.attempts, a, s.workers, ClaimedWorker(s.main), s.taskStates, reports, x);
    }
  }

  lemma CountingSend(c: Config, s: State, x: Witness, a: nat)
    requires Control(c, s, x) && Enabled(s, Send(a))
    ensures Counting(c, Apply(c, s, Send(a)), NextWitness(s, x, Send(a)))
  {
    SucceededUpdate(x.place, s.attempts[a].task,
                    if s.attempts[a].pc.ok then Succeeded(a) else Crashed(s.attempts[a].worker));
  }

  lemma KeepTakeFinish(c: Config, s: State, x: Witness)
    requires Inv(c, s, x) && Enabled(s, TakeFinish)
    ensures Inv(c, Apply(c, s, TakeFinish), x)
  {
    hide Tokens, Retried, Catalogued, Progressed, Filing;
    var s' := Apply(c, s, TakeFinish);
    assert Reports(s'.crashChan, s'.watcher, s'.main) == Reports(s.crashChan, s.watcher, s.main);
  }

  lemma ReportsStay(c: Config, s: State, st: Step)
    requires Enabled(s, st) && (st.TakeCrash? || st.Hand? || st.Exit?)
    ensures var s' := Apply(c, s, st);
            Reports(s'.crashChan, s'.watcher, s'.main) == Reports(s.crashChan, s.watcher, s.main)
  {
    if st.TakeCrash? {
      ReportsTake(s.crashChan, s.main);
    }
  }

  /** Taking a crash, handing it over and leaving the loop move no task. */
  lemma KeepWatcher(c: Config, s: State, x: Witness, st: Step)
    requires Inv(c, s, x) && Enabled(s, st)
    requires st.TakeCrash? || st.Hand? || st.Exit?
    ensures Inv(c, Apply(c, s, st), x)
  {
    hide Tokens, Data, Reports;
    ReportsStay(c, s, st);
    KeepWatcherData(c, s, st);
  }

  lemma KeepWatcherData(c: Config, s: State, st: Step)
    requires Data(s) && Enabled(s, st)
    requires st.TakeCrash? || st.Hand? || st.Exit?
    ensures Data(Apply(c, s, st))
  {
    hide Retried, Catalogued, Progressed, Filing;
  }

  lemma KeepClaim(c: Config, s: State, x: Witness, w: nat)
    requires Inv(c, s, x) && Enabled(s, Claim(w))
    ensures Inv(c, Apply(c, s, Claim(w)), NextWitness(s, x, Claim(w)))
  {
    hide Tokens, Retried, Catalogued, Progressed, Filing;
    var s' := Apply(c, s, Claim(w));
    var reports := Reports(s.crashChan, s.watcher, s.main);
    assert Reports(s'.crashChan, s'.watcher, s'.main) == reports;
    TokensClaim(s.attempts, w, s.workers, s.taskStates, reports, x);
  }

  /** The two early exits of the re-execution loop are never taken. */
  lemma ReassignIsFresh(c: Config, s: State, x: Witness)
    requires Control(c, s, x) && s.main.Claimed?
    ensures s.main.crashed != s.main.worker
    ensures s.main.crashed in s.taskStates
    ensures s.main.crashed in Reports(s.crashChan, s.watcher, s.main)
  {
    ReportsReassign(s.crashChan, s.watcher, s.main.crashed, s.main.worker);
  }

  lemma KeepReassign(c: Config, s: State, x: Witness)
    requires Inv(c, s, x) && Enabled(s, Reassign)
    ensures Inv(c, Apply(c, s, Reassign), NextWitness(s, x, Reassign))
  {
    hide Control, Data;
    KeepReassignControl(c, s, x);
    KeepReassignData(c, s, x);
  }

  lemma KeepReassignData(c: Config, s: State, x: Witness)
    requires Inv(c, s, x) && Enabled(s, Reassign)
    ensures Data(Apply(c, s, Reassign))
  {
    ReassignIsFresh(c, s, x);
    var u, w := s.main.crashed, s.main.worker;
    RetriedRespawn(s.attempts, w, u, s.taskStates, Reports(s.crashChan, s.watcher, s.main), x.place);
    RemotesRespawn(s.attempts, Attempt(s.taskStates[u], w, ToStore), s.remotes, s.imds, s.files);
  }

  lemma KeepReassignControl(c: Config, s: State, x: Witness)
    requires Control(c, s, x) && Enabled(s, Reassign)
    ensures Control(c, Apply(c, s, Reassign), NextWitness(s, x, Reassign))
  {
    hide Tokens, Counting;
    ReassignIsFresh(c, s, x);
    CountingReassign(c, s, x);
    var u, w := s.main.crashed, s.main.worker;
    ReportsReassign(s.crashChan, s.watcher, u, w);
    TokensRespawn(s.attempts, w, u, s.workers, s.taskStates, Reports(s.crashChan, s.watcher, s.main), x);
  }

  lemma CountingReassign(c: Config, s: State, x: Witness)
    requires Control(c, s, x) && Enabled(s, Reassign)
    ensures Counting(c, Apply(c, s, Reassign), NextWitness(s, x, Reassign))
  {
    ReassignIsFresh(c, s, x);
    var u := s.main.crashed;
    SucceededUpdate(x.place, s.taskStates[u], Running(|s.attempts|));
    MissingOne(x.consumed + {u}, c.workers, s.main.worker);
  }

  lemma KeepStep(c: Config, s: State, x: Witness, st: Step)
    requires Inv(c, s, x) && Enabled(s, st)
    ensures Inv(c, Apply(c, s, st), NextWitness(s, x, st))
  {
    hide Inv;
    match st
    case Store(a) => KeepStore(c, s, x, a);
    case Write(a) => KeepWrite(c, s, x, a);
    case Report(a) => KeepReport(c, s, x, a);
    case Return(a, ok) => KeepReturn(c, s, x, a, ok);
    case Mark(a) => KeepMark(c, s, x, a);
    case Send(a) => KeepSend(c, s, x, a);
    case Claim(w) => KeepClaim(c, s, x, w);
    case Reassign => KeepReassign(c, s, x);
    case TakeFinish => KeepTakeFinish(c, s, x);
    case _ => KeepWatcher(c, s, x, st);
  }
}

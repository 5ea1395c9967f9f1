/** The master's own record of workers and tasks, and the operations that update it. */
module Master {
  import opened Seqs
  import opened Splitting
  import Claiming
  import Dispatch

  datatype WorkerInfo = WorkerInfo(uuid: string, ip: string, state: Dispatch.WorkerState)

  datatype FileInfo = FileInfo(name: string, from: nat, to: nat)

  datatype IMDInfo = IMDInfo(ip: string, file: string)

  /** An input file with its contents. */
  datatype Source = Source(name: string, text: string)

  /** A report of intermediate files, with the address that the worker had when it came in. */
  datatype Update = Update(ip: string, files: seq<string>)

  // ---- specifications ---------------------------------------------------------------------

  /** The address of the last worker with that UUID, or nothing. */
  function AddressOf(workers: seq<WorkerInfo>, uuid: string): string {
    if workers == [] then ""
    else
      var n := |workers| - 1;
      if workers[n].uuid == uuid then workers[n].ip else AddressOf(workers[..n], uuid)
  }

  ghost predicate DistinctUUIDs(workers: seq<WorkerInfo>) {
    forall i, j :: 0 <= i < j < |workers| ==> workers[i].uuid != workers[j].uuid
  }

  /** With distinct UUIDs the address found is the worker's own. */
  lemma {:induction false} AddressIsOwn(workers: seq<WorkerInfo>, w: nat)
    requires DistinctUUIDs(workers) && w < |workers|
    ensures AddressOf(workers, workers[w].uuid) == workers[w].ip
  {
    var n := |workers| - 1;
    if w < n {
      AddressIsOwn(workers[..n], w);
    }
  }

  /** The last worker with a UUID answers for it; nobody gives the empty string. */
  lemma {:induction false} AddressIsLast(workers: seq<WorkerInfo>, uuid: string, w: nat)
    ensures (forall i :: 0 <= i < |workers| ==> workers[i].uuid != uuid) ==> AddressOf(workers, uuid) == ""
    ensures w < |workers| && workers[w].uuid == uuid && (forall i :: w < i < |workers| ==> workers[i].uuid != uuid) ==>
      AddressOf(workers, uuid) == workers[w].ip
  {
    if workers != [] {
      AddressIsLast(workers[..|workers| - 1], uuid, w);
    }
  }

  /** What a report adds to the list of reduce task `r`. */
  function EntryFor(r: nat): Update -> seq<IMDInfo> {
    (u: Update) => if r < |u.files| then [IMDInfo(u.ip, u.files[r])] else []
  }

  /** When every report names one file per reduce task, entry `j` of every list comes from report `j`. */
  lemma {:induction false} ListsAreAligned(log: seq<Update>, r: nat, j: nat)
    requires (forall i :: 0 <= i < |log| ==> r < |log[i].files|) && j < |log|
    ensures |FlatMap(EntryFor(r), log)| == |log|
    ensures FlatMap(EntryFor(r), log)[j] == IMDInfo(log[j].ip, log[j].files[r])
  {
    var entries := seq(|log|, i requires 0 <= i < |log| => IMDInfo(log[i].ip, log[i].files[r]));
    FlatMapSingles(EntryFor(r), log, entries);
  }

  /** The part of each file that task `i` of `n` is given. */
  function ShareOf(n: nat, i: nat): Source -> seq<FileInfo> {
    (s: Source) => if i < n then [FileInfo(s.name, RangeOf(s.text, n, i).from, RangeOf(s.text, n, i).to)] else []
  }

  /** An entry of task `i` names the file, and what it makes the worker read is the chunk of the task. */
  ghost predicate IsShare(f: FileInfo, s: Source, n: nat, i: nat) {
    i < n && f.name == s.name && PartialContent(s.text, f.from, f.to) == Chunk(s.text, n, i)
  }

  lemma ShareIs(n: nat, i: nat, s: Source)
    requires i < n
    ensures |ShareOf(n, i)(s)| == 1 && IsShare(ShareOf(n, i)(s)[0], s, n, i)
  {
  }

  /** Task `i` has one share of each file, in order. */
  ghost predicate HasShares(task: seq<FileInfo>, files: seq<Source>, n: nat, i: nat) {
    |task| == |files| && forall f :: 0 <= f < |files| ==> IsShare(task[f], files[f], n, i)
  }

  lemma {:induction false} SharesAre(n: nat, i: nat, files: seq<Source>)
    requires i < n
    ensures HasShares(FlatMap(ShareOf(n, i), files), files, n, i)
  {
    hide IsShare, ShareOf;
    if files != [] {
      SharesAre(n, i, files[1..]);
      ShareIs(n, i, files[0]);
    }
  }

  /** What the tasks read of file `f`, task by task. */
  ghost function ReadOf(tasks: seq<seq<FileInfo>>, f: nat, text: string): (r: seq<string>)
    ensures |r| == |tasks|
  {
    seq(|tasks|, i requires 0 <= i < |tasks| =>
      if f < |tasks[i]| then PartialContent(text, tasks[i][f].from, tasks[i][f].to) else [])
  }

  /** Together the tasks read each file, from the first byte to the last. */
  lemma TasksReadAll(tasks: seq<seq<FileInfo>>, files: seq<Source>, f: nat)
    requires tasks != [] && f < |files|
    requires forall i :: 0 <= i < |tasks| ==> HasShares(tasks[i], files, |tasks|, i)
    ensures Flatten(ReadOf(tasks, f, files[f].text)) == files[f].text
  {
    var n, text := |tasks|, files[f].text;
    hide Chunk, PartialContent;
    assert ReadOf(tasks, f, text) == Chunks(text, n, n) by {
      forall i | 0 <= i < n ensures ReadOf(tasks, f, text)[i] == Chunk(text, n, i) {
        assert HasShares(tasks[i], files, n, i);
      }
    }
    ChunksMakeTheFile(text, n);
  }

  function States(workers: seq<WorkerInfo>): (r: seq<Dispatch.WorkerState>)
    ensures |r| == |workers|
  {
    seq(|workers|, w requires 0 <= w < |workers| => workers[w].state)
  }

  lemma StatesUpdate(workers: seq<WorkerInfo>, w: nat, state: Dispatch.WorkerState)
    requires w < |workers|
    ensures States(workers[w := workers[w].(state := state)]) == States(workers)[w := state]
  {
  }

  /** The same workers, whatever their states. */
  predicate SameWorkers(before: seq<WorkerInfo>, after: seq<WorkerInfo>) {
    && |before| == |after|
    && forall w :: 0 <= w < |before| ==> after[w] == before[w].(state := after[w].state)
  }

  // ---- the object -------------------------------------------------------------------------

  class Master {
    var workers: seq<WorkerInfo>
    var mapTasks: seq<seq<FileInfo>>
    var reduceTasks: seq<seq<IMDInfo>>
    var numWorkers: nat
    const totalWorkers: nat
    const numReducer: nat
    ghost var log: seq<Update>

    ghost predicate Valid()
      reads this
    {
      && numWorkers == |workers|
      && |reduceTasks| == numReducer
      && forall r :: 0 <= r < numReducer ==> reduceTasks[r] == FlatMap(EntryFor(r), log)
    }

    constructor (nWorker: nat, nReduce: nat)
      ensures Valid() && totalWorkers == nWorker && numReducer == nReduce
      ensures workers == [] && mapTasks == [] && log == []
    {
      workers, mapTasks, numWorkers, log := [], [], 0, [];
      reduceTasks := seq(nReduce, _ => []);
      totalWorkers, numReducer := nWorker, nReduce;
    }

    /** A worker is appended, idle; its id is its place. */
    method WorkerRegister(uuid: string, ip: string) returns (id: nat)
      requires Valid()
      modifies this`workers, this`numWorkers
      ensures Valid()
      ensures workers == old(workers) + [WorkerInfo(uuid, ip, Dispatch.Idle)]
      ensures id < |workers| && workers[id] == WorkerInfo(uuid, ip, Dispatch.Idle)
    {
      workers := workers + [WorkerInfo(uuid, ip, Dispatch.Idle)];
      numWorkers := numWorkers + 1;
      id := numWorkers - 1;
    }

    method ServiceDiscovery(uuid: string) returns (ip: string)
      ensures ip == AddressOf(workers, uuid)
    {
      ip := "";
      for i := 0 to |workers|
        invariant ip == AddressOf(workers[..i], uuid)
      {
        assert workers[..i + 1][..i] == workers[..i];
        if workers[i].uuid == uuid {
          ip := workers[i].ip;
        }
      }
      assert workers[..|workers|] == workers;
    }

    /**
     One more entry in the list of every reduce task that the report names a file for. A report
     with more files than there are reduce tasks makes the program panic after these.
     */
    method UpdateIMDInfo(uuid: string, filenames: seq<string>) returns (panicked: bool)
      requires Valid()
      modifies this`reduceTasks, this`log
      ensures Valid() && log == old(log) + [Update(AddressOf(workers, uuid), filenames)]
      ensures forall r :: 0 <= r < numReducer ==>
        reduceTasks[r] == old(reduceTasks[r]) + EntryFor(r)(Update(AddressOf(workers, uuid), filenames))
      ensures panicked <==> |filenames| > numReducer
    {
      ghost var u := Update(AddressOf(workers, uuid), filenames);
      panicked := false;
      var i: nat := 0;
      while i < |filenames| && !panicked
        invariant i <= |filenames| && i <= |reduceTasks| == numReducer && log == old(log)
        invariant forall r :: 0 <= r < i ==> reduceTasks[r] == old(reduceTasks)[r] + EntryFor(r)(u)
        invariant forall r :: i <= r < numReducer ==> reduceTasks[r] == old(reduceTasks)[r]
        invariant panicked ==> i == numReducer < |filenames|
        decreases |filenames| - i, !panicked
      {
        var ip := ServiceDiscovery(uuid);
        if i >= |reduceTasks| {
          panicked := true;
        } else {
          reduceTasks := reduceTasks[i := reduceTasks[i] + [IMDInfo(ip, filenames[i])]];
          i := i + 1;
        }
      }
      log := log + [u];
      forall r | 0 <= r < numReducer
        ensures reduceTasks[r] == FlatMap(EntryFor(r), log)
        ensures reduceTasks[r] == old(reduceTasks)[r] + EntryFor(r)(u)
      {
        FlatMapAppend(EntryFor(r), old(log), u);
        if r >= |filenames| {
          assert old(reduceTasks)[r] + [] == old(reduceTasks)[r];
        }
      }
    }

    /** Every task gets one range of every file: exactly its share of the lines. */
    method DistributeWork(files: seq<Source>)
      requires totalWorkers >= 1
      modifies this`mapTasks
      ensures |mapTasks| == totalWorkers
      ensures forall i :: 0 <= i < totalWorkers ==> HasShares(mapTasks[i], files, totalWorkers, i)
      ensures forall f :: 0 <= f < |files| ==> Flatten(ReadOf(mapTasks, f, files[f].text)) == files[f].text
    {
      mapTasks := seq(totalWorkers, _ => []);
      for f := 0 to |files|
        invariant |mapTasks| == totalWorkers
        invariant forall i :: 0 <= i < totalWorkers ==> mapTasks[i] == FlatMap(ShareOf(totalWorkers, i), files[..f])
      {
        DistributeFile(files[f]);
        forall i | 0 <= i < totalWorkers
          ensures FlatMap(ShareOf(totalWorkers, i), files[..f + 1]) ==
                  FlatMap(ShareOf(totalWorkers, i), files[..f]) + ShareOf(totalWorkers, i)(files[f])
        {
          FlatMapNext(ShareOf(totalWorkers, i), files, f);
        }
      }
      assert files[..|files|] == files;
      forall i | 0 <= i < totalWorkers ensures HasShares(mapTasks[i], files, totalWorkers, i) {
        SharesAre(totalWorkers, i, files);
      }
      forall f | 0 <= f < |files| ensures Flatten(ReadOf(mapTasks, f, files[f].text)) == files[f].text {
        TasksReadAll(mapTasks, files, f);
      }
    }

    /** The inner loop: `from` walks over the lines of one file. */
    method DistributeFile(file: Source)
      requires totalWorkers >= 1 && |mapTasks| == totalWorkers
      modifies this`mapTasks
      ensures |mapTasks| == totalWorkers
      ensures forall i :: 0 <= i < totalWorkers ==> mapTasks[i] == old(mapTasks[i]) + ShareOf(totalWorkers, i)(file)
      ensures forall i :: 0 <= i < totalWorkers ==>
        |mapTasks[i]| == |old(mapTasks[i])| + 1 && IsShare(mapTasks[i][|old(mapTasks[i])|], file, totalWorkers, i)
    {
      hide LineOffsets, Lines, RangeOf;
      var lineOffsets := FileLineOffsets(file.text);
      var totalLine := |lineOffsets| - 1;
      ghost var lines := Lines(file.text);
      var baseWorkLoad := totalLine / totalWorkers;
      var from: nat := 0;
      for i := 0 to totalWorkers
        invariant |mapTasks| == totalWorkers
        invariant from == FromLine(totalLine, totalWorkers, i)
        invariant forall j :: 0 <= j < i ==> mapTasks[j] == old(mapTasks)[j] + ShareOf(totalWorkers, j)(file)
        invariant forall j :: i <= j < totalWorkers ==> mapTasks[j] == old(mapTasks)[j]
      {
        var workLoad := baseWorkLoad;
        if i < totalLine % totalWorkers {
          workLoad := workLoad + 1;
        }
        ShareBytes(file.text, totalWorkers, i);
        var startByte := lineOffsets[from];
        var endByte := lineOffsets[from + workLoad];
        mapTasks := mapTasks[i := mapTasks[i] + [FileInfo(file.name, startByte, endByte)]];
        from := from + workLoad;
      }
      forall i | 0 <= i < totalWorkers
        ensures |ShareOf(totalWorkers, i)(file)| == 1 && IsShare(ShareOf(totalWorkers, i)(file)[0], file, totalWorkers, i)
      {
        ShareIs(totalWorkers, i, file);
      }
    }

    /**
     The first `turns` turns of the scan for `num` workers, while nobody else changes a state.
     The program puts no bound on them: it goes on until the call returns.
     */
    method AvailableWorkers(num: nat, turns: nat) returns (chosen: seq<nat>, returned: bool)
      requires Valid()
      modifies this`workers
      ensures Valid() && SameWorkers(old(workers), workers)
      ensures var sc := Claiming.After(Claiming.Start(States(old(workers))), num, turns);
              returned == sc.returned && chosen == sc.chosen && States(workers) == sc.states
    {
      chosen, returned := [], false;
      var i: nat := 0;
      ghost var start := Claiming.Start(States(workers));
      for t := 0 to turns
        invariant |workers| == numWorkers && SameWorkers(old(workers), workers)
        invariant Claiming.Scan(States(workers), i, chosen, returned) == Claiming.After(start, num, t)
      {
        if returned {
          continue;
        }
        if i >= |workers| {
          i := 0;
        } else if |chosen| >= num {
          returned := true;
        } else {
          if workers[i].state == Dispatch.Idle {
            StatesUpdate(workers, i, Dispatch.Busy);
            chosen := chosen + [i];
            workers := workers[i := workers[i].(state := Dispatch.Busy)];
          }
          i := i + 1;
        }
      }
    }
  }

  lemma ShareBytes(text: string, n: nat, i: nat)
    requires i < n
    ensures var lines := Lines(text); var offsets := LineOffsets(lines, 0);
            && FromLine(|lines|, n, i) <= FromLine(|lines|, n, i + 1) <= |lines|
            && FromLine(|lines|, n, i + 1) == FromLine(|lines|, n, i) + WorkLoad(|lines|, n, i)
            && RangeOf(text, n, i) == Range(offsets[FromLine(|lines|, n, i)], offsets[FromLine(|lines|, n, i + 1)])
  {
    var lines := Lines(text);
    ShareInRange(|lines|, n, i);
    LineOffsetsAt(lines, 0, FromLine(|lines|, n, i));
    LineOffsetsAt(lines, 0, FromLine(|lines|, n, i + 1));
  }
}

/**
 * The bounded-parallelism scheduler `BaseLoader` (with the `image` method of its
 * subclass `Loader`): four pools of files, a session state, a cap on parallel
 * transfers and a progress value.
 */
module Loaders {
  import opened Files
  import opened Pools
  import opened Admission
  import opened Session
  import Paths

  class BaseLoader {
    var fileGroup: string
    var baseURL: string
    var path: string
    var maxParallelDownloads: nat
    var state: LoaderState
    var progress: real
    var totalToLoad: nat
    /** Pending files, in the order they were added. */
    var list: seq<File>
    var inflight: set<File>
    /** Files whose transfer succeeded. */
    var queue: set<File>
    /** Files whose transfer failed (`_deleteQueue`). */
    var deleteQueue: set<File>

    /** The loader invariant. */
    ghost predicate Valid()
      reads this
    {
      Invariant(list, inflight, queue, deleteQueue, state, totalToLoad, progress)
    }

    /** The outcome of a `checkLoadQueue` scan started now, one entry at a time. */
    ghost function Scanned(): Scan<File>
      reads this, list
    {
      ScanFrom(list, StatesOf(list), 0, Scan([], {}, |inflight|), maxParallelDownloads)
    }

    constructor ()
      ensures Valid()
      ensures fileGroup == "" && baseURL == "" && path == "" && maxParallelDownloads == 32
      ensures state == LoaderState.Idle && progress == 0.0 && totalToLoad == 0
      ensures list == [] && inflight == {} && queue == {} && deleteQueue == {}
    {
      fileGroup := "";
      baseURL := "";
      path := "";
      maxParallelDownloads := 32;
      state := LoaderState.Idle;
      progress := 0.0;
      totalToLoad := 0;
      list := [];
      inflight := {};
      queue := {};
      deleteQueue := {};
    }

    method SetBaseURL(value: string)
      requires Valid()
      modifies this`baseURL
      ensures Valid() && baseURL == Paths.NormalizeDir(value)
    {
      baseURL := Paths.NormalizeDir(value);
    }

    method SetPath(value: string)
      requires Valid()
      modifies this`path
      ensures Valid() && path == Paths.NormalizeDir(value)
    {
      path := Paths.NormalizeDir(value);
    }

    method SetFileGroup(name: string)
      requires Valid()
      modifies this`fileGroup
      ensures Valid() && fileGroup == name
    {
      fileGroup := name;
    }

    method IsLoadingNow() returns (b: bool)
      ensures b <==> IsLoading(state)
    {
      b := IsLoading(state);
    }

    method IsReadyNow() returns (b: bool)
      ensures b <==> IsReady(state)
    {
      b := IsReady(state);
    }

    /**
     * `addFile`: a new `Pending` file joins the end of the pending pool and the
     * batch count grows by one; no other pool changes. The registration
     * promise then attaches `resolve` and `reject` to it.
     */
    method AddFile(key: string, url: string) returns (f: File)
      requires Valid()
      modifies this`list, this`totalToLoad
      ensures Valid() && fresh(f)
      ensures f.key == key && f.url == url && f.kind == "image"
      ensures f.Status() == FileStatus(FileState.Pending, true, 0, 0)
      ensures list == old(list) + [f] && totalToLoad == old(totalToLoad) + 1
    {
      f := new File(key, url, "image");
      DistinctSnoc(list, f);
      list := list + [f];
      totalToLoad := totalToLoad + 1;
      f.attached := true;
    }

    /** `Loader.image`: delegates to `addFile`. */
    method Image(key: string, url: string) returns (f: File)
      requires Valid()
      modifies this`list, this`totalToLoad
      ensures Valid() && fresh(f)
      ensures f.key == key && f.url == url && f.Status() == FileStatus(FileState.Pending, true, 0, 0)
      ensures list == old(list) + [f] && totalToLoad == old(totalToLoad) + 1
    {
      f := AddFile(key, url);
    }

    /**
     * `start`: nothing happens unless the loader is ready. Otherwise the
     * counters are reset and the batch is the pending pool; an empty batch
     * completes at once (the failed pool is kept), and a non-empty one starts
     * loading with the other pools cleared and one scan of the pending pool.
     */
    method Start()
      requires Valid()
      modifies this`progress, this`totalToLoad, this`state
      modifies this`list, this`inflight, this`queue, this`deleteQueue, list
      ensures Valid()
      ensures !IsReady(old(state)) ==>
        && state == old(state) && progress == old(progress) && totalToLoad == old(totalToLoad)
        && list == old(list) && inflight == old(inflight) && queue == old(queue) && deleteQueue == old(deleteQueue)
      ensures IsReady(old(state)) ==> totalToLoad == old(|list|)
      ensures IsReady(old(state)) && old(list) == [] ==>
        && state == LoaderState.Complete && progress == 1.0
        && list == [] && inflight == {} && queue == {} && deleteQueue == old(deleteQueue)
      ensures IsReady(old(state)) && old(list) != [] ==>
        var r := old(ScanFrom(list, StatesOf(list), 0, Scan([], {}, 0), maxParallelDownloads));
        && state == LoaderState.Loading && progress == 0.0 && queue == {} && deleteQueue == {}
        && list == r.kept && inflight == r.chosen
      ensures Marked(old(list), old(StatesOf(list)), old(StatusesOf(list)), inflight)
    {
      if !(state == LoaderState.Idle || state == LoaderState.Complete) {
        assert forall j :: 0 <= j < |list| ==> list[j] !in inflight;
        return;
      }
      if |list| == 0 {
        progress, totalToLoad := 0.0, 0;
        LoadComplete();
      } else {
        BeginSession();
      }
    }

    /**
     * The rest of `start` for a non-empty batch: progress is reset, the batch
     * is the pending pool, the session starts loading with the succeeded and
     * failed pools cleared, and one scan fills the free slots.
     */
    method BeginSession()
      requires Valid() && IsReady(state) && |list| > 0
      modifies this`progress, this`totalToLoad, this`state
      modifies this`list, this`inflight, this`queue, this`deleteQueue, list
      ensures Valid()
      ensures var r := old(ScanFrom(list, StatesOf(list), 0, Scan([], {}, 0), maxParallelDownloads));
        && state == LoaderState.Loading && progress == 0.0 && totalToLoad == old(|list|)
        && queue == {} && deleteQueue == {} && list == r.kept && inflight == r.chosen
      ensures Marked(old(list), old(StatesOf(list)), old(StatusesOf(list)), inflight)
    {
      ghost var S, states, st := list, StatesOf(list), StatusesOf(list);
      ghost var scan := ScanFrom(list, states, 0, Scan([], {}, 0), maxParallelDownloads);
      EnterLoading();
      assert list == S && StatesOf(list) == states && StatusesOf(list) == st && Scanned() == scan;
      CheckLoadQueue();
      assert Marked(S, states, st, inflight);
    }

    /**
     * The resets `start` makes before its scan: progress and the batch size,
     * the `Loading` state, and the in-flight, succeeded and failed pools
     * cleared; then `updateProgress`, which finds the whole batch outstanding.
     */
    method EnterLoading()
      requires Valid() && IsReady(state) && |list| > 0
      modifies this`progress, this`totalToLoad, this`state, this`inflight, this`queue, this`deleteQueue
      ensures Valid() && state == LoaderState.Loading && progress == 0.0 && totalToLoad == |list|
      ensures inflight == {} && queue == {} && deleteQueue == {}
    {
      progress, totalToLoad := 0.0, |list|;
      state, inflight, queue, deleteQueue := LoaderState.Loading, {}, {}, {};
      UpdateProgress();
    }

    /** `updateProgress`; its only caller runs it at the start of a session, when the batch is non-empty. */
    method UpdateProgress()
      requires Valid() && state == LoaderState.Loading
      modifies this`progress
      ensures Valid() && progress == Progress(|list| + |inflight|, totalToLoad)
    {
      progress := Progress(|list| + |inflight|, totalToLoad);
    }

    /**
     * `loadComplete`: the pending, in-flight and succeeded pools are emptied,
     * progress is 1 and the session is complete. The failed pool is kept.
     */
    method LoadComplete()
      requires Valid()
      modifies this`list, this`inflight, this`queue, this`progress, this`state
      ensures Valid()
      ensures list == [] && inflight == {} && queue == {} && progress == 1.0 && state == LoaderState.Complete
    {
      list := [];
      inflight := {};
      queue := {};
      progress := 1.0;
      state := LoaderState.Complete;
    }

    /** The body of one admission: the entry moves from the pending pool to the in-flight pool and its `load` runs. */
    method Admit(entry: File)
      requires Valid() && state == LoaderState.Loading && entry in list
      modifies this`list, this`inflight, entry
      ensures Valid() && state == LoaderState.Loading
      ensures list == Without(old(list), entry) && inflight == old(inflight) + {entry}
      ensures |list| == old(|list|) - 1 && |inflight| == old(|inflight|) + 1
      ensures entry.Status() == StateChange(old(entry.Status()), FileState.Loading) && entry.state == FileState.Loading
    {
      WithoutMembers(list, entry);
      inflight := inflight + {entry};
      list := Without(list, entry);
      entry.Load();
    }

    /** One iteration of the scan: the entry is admitted when it is `Populated`, or `Pending` with a slot free. */
    method ScanEntry(entry: File, ghost S: seq<File>, ghost states: seq<FileState>, ghost st: seq<FileStatus>,
                     ghost start: set<File>, ghost final: Scan<File>, ghost i: nat, ghost acc: Scan<File>)
      returns (ghost next: Scan<File>)
      requires Valid() && state == LoaderState.Loading
      requires Scanning(list, inflight, S, states, start, i, acc) && Marked(S, states, st, acc.chosen)
      requires i < |S| && entry == S[i] && ScanFrom(S, states, i, acc, maxParallelDownloads) == final
      modifies this`list, this`inflight, entry
      ensures Valid() && state == LoaderState.Loading
      ensures Scanning(list, inflight, S, states, start, i + 1, next) && Marked(S, states, st, next.chosen)
      ensures |inflight| == maxParallelDownloads ==> final == Scan(list, next.chosen, next.size)
      ensures |inflight| != maxParallelDownloads ==> ScanFrom(S, states, i + 1, next, maxParallelDownloads) == final
    {
      assert list[|acc.kept|] == entry && entry !in acc.chosen;
      assert entry.Status() == st[i] && entry.state == states[i];
      if entry.state == FileState.Populated || (entry.state == FileState.Pending && |inflight| < maxParallelDownloads) {
        ScanAdmitStep(list, inflight, S, states, start, i, acc, maxParallelDownloads, final);
        Admit(entry);
        next := Scan(acc.kept, acc.chosen + {entry}, acc.size + 1);
        forall j | 0 <= j < |S|
          ensures S[j].Status() == if S[j] in next.chosen then StateChange(st[j], FileState.Loading) else st[j]
        {
          if S[j] != entry {
            assert S[j].Status() == old(S[j].Status());
          } else {
            assert old(S[j].Status()) == st[j];
          }
        }
      } else {
        ScanKeepStep(list, inflight, S, states, start, i, acc, maxParallelDownloads, final);
        next := Scan(acc.kept + [entry], acc.chosen, acc.size);
      }
    }

    /**
     * `checkLoadQueue`: one pass over a snapshot of the pending pool, entry by
     * entry, with the outcome `Scanned` describes (`full` stands for the
     * source's `break`). The admitted entries enter `Loading`; every other
     * entry keeps its state.
     */
    method CheckLoadQueue()
      requires Valid() && state == LoaderState.Loading
      modifies this`list, this`inflight, list
      ensures Valid() && state == LoaderState.Loading
      ensures list == old(Scanned()).kept && inflight == old(inflight) + old(Scanned()).chosen
      ensures |inflight| == old(Scanned()).size
      ensures Marked(old(list), old(StatesOf(list)), old(StatusesOf(list)), inflight)
    {
      ghost var S := list;
      ghost var states := StatesOf(list);
      ghost var st := StatusesOf(list);
      ghost var final := Scanned();
      ghost var acc: Scan<File> := Scan([], {}, |inflight|);
      assert S[0..] == S && inflight + {} == inflight;
      var entries := list;
      var i := 0;
      var full := false;
      while i < |entries| && !full
        invariant 0 <= i <= |entries| && entries == S
        invariant Valid() && state == LoaderState.Loading
        invariant Scanning(list, inflight, S, states, old(inflight), i, acc) && Marked(S, states, st, acc.chosen)
        invariant full ==> final == Scan(list, acc.chosen, acc.size)
        invariant !full ==> ScanFrom(S, states, i, acc, maxParallelDownloads) == final
      {
        acc := ScanEntry(entries[i], S, states, st, old(inflight), final, i, acc);
        full := |inflight| == maxParallelDownloads;
        i := i + 1;
      }
      if !full {
        assert S[i..] == [] && list == acc.kept;
      }
      forall j | 0 <= j < |S|
        ensures S[j] in inflight <==> S[j] in acc.chosen
      {
        assert S[j] in old(list);
      }
    }

    /**
     * The first half of `nextFile`: the finished file leaves the in-flight pool
     * for the succeeded or the failed pool, and the four pools together keep
     * their size.
     */
    method Reclaim(f: File, success: bool)
      requires Valid() && f in inflight
      modifies this`inflight, this`queue, this`deleteQueue
      ensures Valid() && state == LoaderState.Loading
      ensures inflight == old(inflight) - {f} && |inflight| == old(|inflight|) - 1
      ensures success ==> queue == old(queue) + {f} && deleteQueue == old(deleteQueue)
      ensures !success ==> queue == old(queue) && deleteQueue == old(deleteQueue) + {f}
      ensures |list| + |inflight| + |queue| + |deleteQueue| == old(|list| + |inflight| + |queue| + |deleteQueue|)
    {
      ReclaimKeepsInvariant(list, inflight, queue, deleteQueue, state, totalToLoad, progress, f, success);
      if success {
        queue := queue + {f};
      } else {
        deleteQueue := deleteQueue + {f};
      }
      inflight := inflight - {f};
    }

    /**
     * The second half of `nextFile`: a non-empty pending pool is scanned again;
     * otherwise the session completes once nothing is in flight. The failed
     * pool is never touched, and progress only changes when the session
     * completes.
     */
    method Advance()
      requires Valid() && state == LoaderState.Loading
      modifies this`list, this`inflight, this`queue, this`progress, this`state, list
      ensures AfterAdvance(old(list), old(inflight), old(queue), old(progress), old(StatesOf(list)), old(StatusesOf(list)))
    {
      if |list| > 0 {
        CheckLoadQueue();
      } else if |inflight| == 0 {
        LoadComplete();
      }
    }

    /**
     * The loader after the second half of `nextFile`, given its pending pool
     * `list0`, in-flight and succeeded pools, progress, and the pending files'
     * states and statuses before it. With nothing pending and nothing in
     * flight the session has completed. Otherwise it goes on loading with
     * progress and the succeeded pool unchanged, and a non-empty pending pool
     * has been scanned from the in-flight count. The pending files the scan
     * admitted have had `load` run on them; every other one keeps its status.
     */
    ghost predicate AfterAdvance(list0: seq<File>, inflight0: set<File>, queue0: set<File>, progress0: real,
                                 states0: seq<FileState>, st0: seq<FileStatus>)
      reads this, list0
    {
      && Valid()
      && (|list0| == 0 && |inflight0| == 0 ==>
            state == LoaderState.Complete && progress == 1.0 && list == [] && inflight == {} && queue == {})
      && (|list0| != 0 || |inflight0| != 0 ==> state == LoaderState.Loading && progress == progress0 && queue == queue0)
      && (|list0| == 0 ==> list == [] && inflight == inflight0)
      && |states0| == |list0|
      && (|list0| != 0 ==>
            var r := ScanFrom(list0, states0, 0, Scan([], {}, |inflight0|), maxParallelDownloads);
            list == r.kept && inflight == inflight0 + r.chosen)
      && Marked(list0, states0, st0, inflight)
    }

    /**
     * The loader after `nextFile(f)`, given its pools, progress and the pending
     * files' states and statuses before it: the file has left the in-flight
     * pool for the succeeded pool on success and the failed pool on failure,
     * then the loader advanced as `AfterAdvance` says.
     */
    ghost predicate AfterNextFile(list0: seq<File>, inflight0: set<File>, queue0: set<File>, deleteQueue0: set<File>,
                                  progress0: real, states0: seq<FileState>, st0: seq<FileStatus>, f: File, success: bool)
      reads this, list0
    {
      && f !in inflight
      && deleteQueue == (if success then deleteQueue0 else deleteQueue0 + {f})
      && AfterAdvance(list0, inflight0 - {f}, if success then queue0 + {f} else queue0, progress0, states0, st0)
    }

    /**
     * `nextFile`: the finished file is reclaimed, then the freed slot is
     * refilled by a scan of the pending pool; with nothing pending and nothing
     * else in flight the session completes. The pending files admitted by the
     * scan have had `load` run on them; every other file keeps its status.
     */
    method NextFile(f: File, success: bool)
      requires Valid() && f in inflight
      modifies this`list, this`inflight, this`queue, this`deleteQueue, this`progress, this`state, list
      ensures AfterNextFile(old(list), old(inflight), old(queue), old(deleteQueue), old(progress),
                            old(StatesOf(list)), old(StatusesOf(list)), f, success)
    {
      ghost var S, states, st := list, StatesOf(list), StatusesOf(list);
      ghost var inflight0 := inflight;
      Reclaim(f, success);
      assert StatesOf(list) == states && StatusesOf(list) == st;
      ghost var queue1 := queue;
      Advance();
      assert AfterAdvance(S, inflight0 - {f}, queue1, old(progress), states, st);
      ScanAdmitsOnlyPending(S, states, |inflight0 - {f}|, maxParallelDownloads, f);
    }

    /**
     * The end of a transfer, the event that drives the loader: the file's
     * `onLoad` or `onError` hook runs, then `nextFile` moves it to the
     * succeeded or the failed pool.
     */
    method Finish(f: File, success: bool)
      requires Valid() && f in inflight
      modifies f, this`list, this`inflight, this`queue, this`deleteQueue, this`progress, this`state, list
      ensures success ==> f.Status() == StateChange(StateChange(old(f.Status()), FileState.Loaded), FileState.Complete)
      ensures !success ==> f.Status() == StateChange(old(f.Status()), FileState.Failed)
      ensures AfterNextFile(old(list), old(inflight), old(queue), old(deleteQueue), old(progress),
                            old(StatesOf(list)), old(StatusesOf(list)), f, success)
    {
      ghost var states, st := StatesOf(list), StatusesOf(list);
      if success {
        f.OnLoad();
      } else {
        f.OnError();
      }
      ghost var outcome := f.Status();
      assert StatesOf(list) == states && StatusesOf(list) == st;
      NextFile(f, success);
      assert f.Status() == outcome;
    }
  }

  /**
   * One image through a whole session: registered with `image`, admitted by
   * `start`, then finished by its transfer. Its registration promise settles
   * exactly once, fulfilled on success and rejected on failure, and the
   * session completes with the file in the failed pool only on failure.
   */
  method SingleImageSession(key: string, url: string, success: bool) returns (loader: BaseLoader, f: File)
    ensures loader.Valid() && loader.state == LoaderState.Complete && loader.progress == 1.0
    ensures loader.list == [] && loader.inflight == {} && loader.queue == {}
    ensures success ==> Fulfilled(f.Status()) && loader.deleteQueue == {}
    ensures !success ==> Rejected(f.Status()) && loader.deleteQueue == {f}
  {
    loader := new BaseLoader();
    f := loader.Image(key, url);
    ghost var before := f.Status();
    PendingScanAdmitsPrefix([f], [FileState.Pending], 0, loader.maxParallelDownloads);
    assert StatesOf(loader.list) == [FileState.Pending] && Elems([f][..1]) == {f};
    loader.Start();
    assert f.Status() == StateChange(before, FileState.Loading);
    TransferOutcome(f.Status());
    loader.Finish(f, success);
  }
}

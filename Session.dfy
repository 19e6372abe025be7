/**
 * The loader's session states, its progress value, the invariant that ties the
 * four pools of files to the session, and what one `checkLoadQueue` scan does
 * to the pools, all stated on plain values.
 */
module Session {
  import opened Files
  import opened Pools
  import opened Admission

  /** The session states, in the order of their numeric codes 0..5. */
  datatype LoaderState = Idle | Loading | Processing | Complete | Shutdown | Destroyed

  /** `isLoading()`: never true of a session that is ready to start. */
  predicate IsLoading(s: LoaderState)
    ensures IsLoading(s) ==> !IsReady(s)
  {
    s == LoaderState.Loading || s == LoaderState.Processing
  }

  /** `isReady()`: a new session may start. */
  predicate IsReady(s: LoaderState) {
    s == LoaderState.Idle || s == LoaderState.Complete
  }

  /** A session is never both loading and ready, and the states in which it is neither are the teardown ones. */
  lemma LoadingAndReadyExclusive(s: LoaderState)
    ensures !(IsLoading(s) && IsReady(s))
    ensures !IsLoading(s) && !IsReady(s) <==> s == LoaderState.Shutdown || s == LoaderState.Destroyed
  {
  }

  /** `updateProgress`: the fraction of the batch no longer pending or in flight. */
  function Progress(outstanding: nat, total: nat): (r: real)
    requires total > 0
    ensures outstanding <= total ==> 0.0 <= r <= 1.0
    ensures r == 1.0 <==> outstanding == 0
    ensures r == 0.0 <==> outstanding == total
  {
    1.0 - (outstanding as real) / (total as real)
  }

  /** Fewer outstanding files never means less progress. */
  lemma ProgressMonotone(fewer: nat, more: nat, total: nat)
    requires total > 0 && fewer <= more
    ensures Progress(more, total) <= Progress(fewer, total)
  {
    assert (fewer as real) / (total as real) <= (more as real) / (total as real);
  }

  /** Every state of a snapshot is `Pending`. */
  predicate AllPending(states: seq<FileState>) {
    forall j :: 0 <= j < |states| ==> states[j] == FileState.Pending
  }

  /**
   * A scan over pending files that are all `Pending`, started with `size` of
   * `cap` slots taken, admits the first `k` of them, `k` being the free slots or
   * the pending count, whichever is smaller, and keeps the others in order:
   * either nothing stays pending or every slot is taken.
   */
  lemma PendingScanAdmitsPrefix(pending: seq<File>, states: seq<FileState>, size: nat, cap: nat)
    requires |pending| == |states| && AllPending(states) && size <= cap
    ensures var k := Min(cap - size, |pending|);
      ScanFrom(pending, states, 0, Scan([], {}, size), cap)
        == Scan(pending[k..], Elems(pending[..k]), size + k)
    ensures var k := Min(cap - size, |pending|); pending[k..] == [] || size + k == cap
  {
    var k := Min(cap - size, |pending|);
    ScanAllPending(pending, states, 0, {}, size, cap);
    assert pending[0..k] == pending[..k] && {} + Elems(pending[..k]) == Elems(pending[..k]);
  }

  /** Without `Populated` entries, a scan started within the cap ends within it. */
  lemma ScanWithinCap(pending: seq<File>, states: seq<FileState>, size: nat, cap: nat)
    requires |pending| == |states| && NoPopulated(states) && size <= cap
    ensures ScanFrom(pending, states, 0, Scan([], {}, size), cap).size <= cap
  {
    ScanMatchesMask(pending, states, size, cap);
    AdmitWithinCap(states, size, cap);
  }

  /**
   * A scan splits the snapshot: every entry is kept or admitted, and nothing
   * else is.
   */
  lemma ScanPartition(pending: seq<File>, states: seq<FileState>, size: nat, cap: nat)
    requires |pending| == |states|
    ensures var r := ScanFrom(pending, states, 0, Scan([], {}, size), cap);
      forall f :: f in r.kept || f in r.chosen <==> f in pending
  {
    var m := AdmitMask(states, size, cap);
    ScanMatchesMask(pending, states, size, cap);
    RemainingChosenPartition(pending, m);
  }

  /** A file that is not pending is never admitted by a scan. */
  lemma ScanAdmitsOnlyPending(pending: seq<File>, states: seq<FileState>, size: nat, cap: nat, f: File)
    requires |pending| == |states| && f !in pending
    ensures f !in ScanFrom(pending, states, 0, Scan([], {}, size), cap).chosen
  {
    ScanPartition(pending, states, size, cap);
  }

  /** Every file is in at most one pool, and at most once in the pending pool. */
  ghost predicate PoolsDisjoint(list: seq<File>, inflight: set<File>, queue: set<File>, deleteQueue: set<File>) {
    && Distinct(list)
    && (forall f :: f in list ==> f !in inflight && f !in queue && f !in deleteQueue)
    && inflight !! queue && inflight !! deleteQueue && queue !! deleteQueue
  }

  /**
   * The session, on the sizes of the four pools: only `Idle`, `Loading` and
   * `Complete` are ever entered. Before the first session nothing has left the
   * pending pool; while loading, the four pools together hold the whole batch;
   * once complete, nothing is in flight. Progress stays within [0, 1].
   */
  ghost predicate SessionShape(state: LoaderState, pending: nat, inflight: nat, succeeded: nat, failed: nat,
                               totalToLoad: nat, progress: real)
  {
    && (state == LoaderState.Idle || state == LoaderState.Loading || state == LoaderState.Complete)
    && (state == LoaderState.Idle ==> inflight == 0 && succeeded == 0 && failed == 0 && totalToLoad == pending)
    && (state == LoaderState.Loading ==> pending + inflight + succeeded + failed == totalToLoad && totalToLoad > 0)
    && (state == LoaderState.Complete ==> inflight == 0 && succeeded == 0)
    && 0.0 <= progress <= 1.0
  }

  /** The loader invariant, on the values of the loader's fields. */
  ghost predicate Invariant(list: seq<File>, inflight: set<File>, queue: set<File>, deleteQueue: set<File>,
                            state: LoaderState, totalToLoad: nat, progress: real)
  {
    && PoolsDisjoint(list, inflight, queue, deleteQueue)
    && SessionShape(state, |list|, |inflight|, |queue|, |deleteQueue|, totalToLoad, progress)
  }

  /**
   * Moving an in-flight file to the succeeded or the failed pool keeps the
   * invariant, with one file fewer in flight and the session still loading.
   */
  lemma ReclaimKeepsInvariant(list: seq<File>, inflight: set<File>, queue: set<File>, deleteQueue: set<File>,
                              state: LoaderState, totalToLoad: nat, progress: real, f: File, success: bool)
    requires Invariant(list, inflight, queue, deleteQueue, state, totalToLoad, progress) && f in inflight
    ensures success ==> Invariant(list, inflight - {f}, queue + {f}, deleteQueue, state, totalToLoad, progress)
    ensures !success ==> Invariant(list, inflight - {f}, queue, deleteQueue + {f}, state, totalToLoad, progress)
    ensures state == LoaderState.Loading && |inflight - {f}| == |inflight| - 1
  {
    assert f !in queue && f !in deleteQueue;
  }

  /**
   * Where a scan of the snapshot `S` (with `start` in flight) stands before
   * entry `i`: the pending pool is the kept entries followed by the unvisited
   * ones, and the in-flight pool has gained the admitted ones.
   */
  ghost predicate Scanning(list: seq<File>, inflight: set<File>, S: seq<File>, states: seq<FileState>,
                           start: set<File>, i: nat, acc: Scan<File>)
  {
    && |S| == |states| && i <= |S|
    && list == acc.kept + S[i..]
    && inflight == start + acc.chosen && |inflight| == acc.size
  }

  /**
   * The files of the snapshot `S`, whose statuses were `st` (and states
   * `states`) when it was taken: each one admitted so far has had `load` run
   * on it once, entering `Loading` and settling nothing; every other one still
   * has its snapshot status.
   */
  ghost predicate Marked(S: seq<File>, states: seq<FileState>, st: seq<FileStatus>, chosen: set<File>)
    reads S
  {
    && |S| == |states| == |st|
    && forall j :: 0 <= j < |S| ==>
         && st[j].state == states[j]
         && S[j].Status() == if S[j] in chosen then StateChange(st[j], FileState.Loading) else st[j]
  }

  /**
   * Admitting entry `i` of the scan: it leaves the pending pool for the
   * in-flight pool, and the scan stands before entry `i + 1`, where it either
   * stops with every slot taken or goes on as `ScanFrom` says.
   */
  lemma ScanAdmitStep(list: seq<File>, inflight: set<File>, S: seq<File>, states: seq<FileState>,
                      start: set<File>, i: nat, acc: Scan<File>, cap: nat, final: Scan<File>)
    requires Scanning(list, inflight, S, states, start, i, acc) && i < |S|
    requires Distinct(list) && (forall f :: f in list ==> f !in inflight)
    requires Eligible(states[i], acc.size, cap) && ScanFrom(S, states, i, acc, cap) == final
    ensures S[i] in list && S[i] !in acc.chosen
    ensures var next := Scan(acc.kept, acc.chosen + {S[i]}, acc.size + 1);
      && Scanning(Without(list, S[i]), inflight + {S[i]}, S, states, start, i + 1, next)
      && (next.size == cap ==> final == Scan(Without(list, S[i]), next.chosen, next.size))
      && (next.size != cap ==> ScanFrom(S, states, i + 1, next, cap) == final)
  {
    var entry := S[i];
    ShiftOne(acc.kept, S, i);
    assert list[|acc.kept|] == entry;
    DistinctSplit(acc.kept, S[i..]);
    WithoutSplice(acc.kept, entry, S[i + 1..]);
    var next := Scan(acc.kept, acc.chosen + {entry}, acc.size + 1);
    ScanAdvance(S, states, i, acc, cap, final, next);
  }

  /** Passing over entry `i` of the scan: nothing moves, and the scan stops or goes on as `ScanFrom` says. */
  lemma ScanKeepStep(list: seq<File>, inflight: set<File>, S: seq<File>, states: seq<FileState>,
                     start: set<File>, i: nat, acc: Scan<File>, cap: nat, final: Scan<File>)
    requires Scanning(list, inflight, S, states, start, i, acc) && i < |S|
    requires (forall f :: f in list ==> f !in inflight)
    requires !Eligible(states[i], acc.size, cap) && ScanFrom(S, states, i, acc, cap) == final
    ensures S[i] in list && S[i] !in acc.chosen
    ensures var next := Scan(acc.kept + [S[i]], acc.chosen, acc.size);
      && Scanning(list, inflight, S, states, start, i + 1, next)
      && (next.size == cap ==> final == Scan(list, next.chosen, next.size))
      && (next.size != cap ==> ScanFrom(S, states, i + 1, next, cap) == final)
  {
    ShiftOne(acc.kept, S, i);
    assert list[|acc.kept|] == S[i];
    var next := Scan(acc.kept + [S[i]], acc.chosen, acc.size);
    ScanAdvance(S, states, i, acc, cap, final, next);
  }
}

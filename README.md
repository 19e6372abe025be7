# Asset loader: file lifecycle and bounded-parallelism scheduler

A Dafny model of the asset loader in `dist/index.es.js`. It covers two parts.

**`File`.** Each requested asset is a `File` object. Its state moves through a
guarded transition, `onStateChange`. That transition calls the registration
promise's `resolve` when the file becomes `COMPLETE` and its `reject` when it
becomes `FAILED`. Default hooks (`onLoad`, `onError`, `onProcess`,
`onComplete`, `onDestroy`) drive fixed state sequences.

**`BaseLoader`.** The loader keeps four pools of files:

- `list`: pending;
- `inflight`: being transferred;
- `queue`: succeeded;
- `_deleteQueue`: failed.

It also keeps a session state, a cap `maxParallelDownloads` on parallel
transfers, a `progress` value and a batch size `totalToLoad`. `Loader.image`
only delegates to `addFile`.

Modules:

- `Paths`: the trailing-`/` normalisation of `setBaseURL` and `setPath`.
- `Pools`: the JavaScript `Set` that is iterated in insertion order (the pending
  pool). It is modelled as a sequence without repetitions; `Without` is
  `Set.prototype.delete`.
- `Files`:
  - the `FileState` enumeration;
  - the `File` class, whose fields the hooks update in place;
  - `StateChange`, a pure function stating what `onStateChange` does to a
    file's `FileStatus` (its state, whether the callbacks are attached, and how
    many times each has been called).
- `Admission`: the admission rule of one `checkLoadQueue` scan, on values.
  - `ScanFrom` follows the loop entry by entry.
  - `AdmitMask` gives the decision for every entry of the snapshot at once.
  - `ScanFromMatchesMask` proves that the two agree.
- `Session`:
  - the session states and `isLoading`/`isReady`;
  - `Progress`;
  - the loader invariant on plain values (pools disjoint, and the session's shape
    on the pool sizes);
  - what one scan does to the pools (cap, prefix, partition).
- `Loaders`: the `BaseLoader` class. Its `list` is a `seq<File>`, its other
  pools are `set<File>`, and its methods update them in place.
  - `CheckLoadQueue` is the `for … of` loop over a snapshot of `list`, with a
    `full` flag standing for the `break`.
  - `Finish(f, success)` is the end of a transfer: the file's `onLoad` or
    `onError` hook runs, then `nextFile`. It is what the `XHRLoader` promise
    chain does.

How the pieces fit:

- **`checkLoadQueue`.** `CheckLoadQueue` is proved to compute
  `ScanFrom(list, states, 0, Scan([], {}, |inflight|), cap)` on the entry
  states. The lemmas in `Admission` and `Session` then give the properties of
  that pass:
  - files only move from `list` to `inflight`;
  - a `PENDING` entry is admitted only while a slot is free;
  - without `POPULATED` entries the cap holds;
  - when every pending entry is `PENDING`, exactly the first
    `min(free slots, |list|)` entries are admitted, in order.
- **`nextFile` and `start`.** `Start` and `NextFile` state their outcome through
  the same `ScanFrom`, and also what happens to the files: each admitted file
  has had `load` run on it exactly once, and every other file keeps its status
  (`Marked`). `SingleImageSession` chains `image`, `start` and the end of the
  transfer for one file and proves that its promise settles exactly once.

## Model

| member | source | states |
|---|---|---|
| Paths.NormalizeDir | dist/index.es.js:133-146 | The stored value is empty exactly when the input is, otherwise ends in `/`; it extends the input by at most one character, and an input already ending in `/` is kept. |
| Paths.NormalizeDirIdempotent | dist/index.es.js:133-146 | Calling `setBaseURL`/`setPath` twice stores the same value as calling it once. |
| Paths.NormalizeDirAppendsSlashOnly | dist/index.es.js:133-146 | The value is unchanged or gains one trailing `/`, and it gains it exactly when it is non-empty and does not end in `/`. |
| Pools.Without | dist/index.es.js:196 | `Set.prototype.delete`: deleting a file that is not in the pending pool changes nothing, and deleting one that is removes exactly one entry. |
| Files.StateChange | dist/index.es.js:59-75 | `onStateChange(v)` always lands in `v` and never attaches or detaches the callbacks; when `v` is already the state, nothing changes. |
| Files.StateChangeIdempotent | dist/index.es.js:59-75 | Calling `onStateChange(v)` a second time changes nothing and calls no callback. |
| Files.StateChangeSettlement | dist/index.es.js:59-75 | `resolve` is called (once) exactly when an attached file moves to `COMPLETE` from another state; `reject` exactly when it moves to `FAILED`; any other transition calls neither. |
| Files.OnLoadFulfilsOnce | dist/index.es.js:81-85 | The default `onLoad` ends in `COMPLETE` with `resolve` called one more time (when attached) and `reject` untouched, from any state. |
| Files.LoadStaysUnsettled | dist/index.es.js:76-80 | `load` moves an unsettled file to `LOADING` without settling it. |
| Files.TransferOutcome | dist/index.es.js:81-89 | For a file in transfer with callbacks attached, the default `onLoad` leaves it `COMPLETE` with `resolve` called once and `reject` never; the default `onError` leaves it `FAILED` with `reject` called once and `resolve` never. |
| Files.StatesOf | dist/index.es.js:192-193 | The states of a snapshot, entry by entry, as the scan reads them. |
| Files.StatusesOf | dist/index.es.js:192-193 | The status of every file of a snapshot, entry by entry: what the scan may change and what it must leave alone. |
| Files.File.constructor | dist/index.es.js:52-58 | A new file has the given key, url and type, is `PENDING` and has no callbacks. |
| Files.File.OnStateChange | dist/index.es.js:59-75 | The new status is `StateChange` of the old one. |
| Files.File.Load | dist/index.es.js:76-80 | `load` performs `onStateChange(LOADING)`; an unsettled file ends in transfer. |
| Files.File.OnLoad | dist/index.es.js:81-85 | `LOADED` then `COMPLETE`: ends `COMPLETE`, `resolve` called once more when attached. |
| Files.File.OnError | dist/index.es.js:86-89 | `FAILED`; `reject` called once more when attached, unless the file was already `FAILED`. |
| Files.File.OnProcess | dist/index.es.js:90-93 | `PROCESSING`, settling nothing. |
| Files.File.OnComplete | dist/index.es.js:94-97 | `COMPLETE`; `resolve` called once more when attached, unless the file was already `COMPLETE`. |
| Files.File.OnDestroy | dist/index.es.js:98-101 | `DESTROYED`, settling nothing. |
| Admission.AdmitMask | dist/index.es.js:191-205 | One admission decision per entry of the snapshot; `ScanFromMatchesMask` proves these are exactly the loop's decisions, and the `Admit*` lemmas state what they are. |
| Admission.ScanFrom | dist/index.es.js:191-205 | The loop entry by entry: admit an eligible entry, keep the others in order, stop when the in-flight count equals the cap; `ScanFromMatchesMask` states its outcome. |
| Admission.RemainingSubset | dist/index.es.js:191-205 | The scan only ever removes entries from the pending pool. |
| Admission.RemainingChosenPartition | dist/index.es.js:191-205 | Every entry of the snapshot is either left pending or admitted, and nothing else is admitted. |
| Admission.AdmitOnlyEligibleStates | dist/index.es.js:193-194 | Only `PENDING` and `POPULATED` entries are admitted. |
| Admission.AdmitPendingBelowCap | dist/index.es.js:194 | A `PENDING` entry is admitted only while fewer than `maxParallelDownloads` files are in flight. |
| Admission.AdmitFillsCap | dist/index.es.js:191-205 | Without `POPULATED` entries, a scan ends with the cap or all pending files in flight, whichever is fewer. |
| Admission.AdmitWithinCap | dist/index.es.js:191-205 | Without `POPULATED` entries, a scan started within the cap ends within it. |
| Admission.AdmitBelowCapTakesAll | dist/index.es.js:191-205 | If a scan ends below the cap, it admitted every `PENDING` and `POPULATED` entry. |
| Admission.AdmitAboveCap | dist/index.es.js:193-204 | Once more than `maxParallelDownloads` are in flight, the `===` test never stops the scan and exactly the `POPULATED` entries are admitted. |
| Admission.PopulatedIgnoresCap | dist/index.es.js:193 | A concrete scan in which `POPULATED` entries push the in-flight count past the cap. |
| Admission.ScanFromMatchesMask | dist/index.es.js:191-205 | The entry-by-entry loop keeps, admits and counts exactly what `AdmitMask` decides. |
| Admission.ScanMatchesMask | dist/index.es.js:191-205 | The same, for a whole scan from the first entry. |
| Admission.ScanAdvance | dist/index.es.js:192-204 | Proof helper, one unfolding of `ScanFrom`: one loop iteration: admit or keep the entry, then stop if the in-flight count equals the cap. |
| Admission.ScanAllPending | dist/index.es.js:191-205 | Over entries that are all `PENDING`, the scan admits the longest prefix that fits the free slots. |
| Session.IsLoading | dist/index.es.js:151-156 | A loading session is never ready to start: `isLoading()` implies `!isReady()`, and so, equally, `isReady()` implies `!isLoading()`. |
| Session.IsReady | dist/index.es.js:154-156 | `isReady()`; no contract of its own: its exclusion with `isLoading()` is `IsLoading`'s postcondition, and `LoadingAndReadyExclusive` states the states in which both are false. |
| Session.LoadingAndReadyExclusive | dist/index.es.js:151-156 | `isLoading()` and `isReady()` are never both true; both are false exactly in `SHUTDOWN` and `DESTROYED`. |
| Session.Progress | dist/index.es.js:188-190 | With no more outstanding files than the batch, progress lies in [0, 1]; it is 1 exactly when nothing is outstanding and 0 exactly when everything is. |
| Session.ProgressMonotone | dist/index.es.js:188-190 | Fewer outstanding files never give less progress. |
| Session.PendingScanAdmitsPrefix | dist/index.es.js:191-205 | A scan over `PENDING` files admits the first `min(free slots, pending)` of them and keeps the rest in order; afterwards nothing is pending or every slot is taken. |
| Session.ScanWithinCap | dist/index.es.js:191-205 | Without `POPULATED` entries, `|inflight| <= maxParallelDownloads` is preserved by a scan. |
| Session.ScanPartition | dist/index.es.js:195-196 | A scan moves files from `list` to `inflight` and nowhere else: their union is preserved. |
| Session.ScanAdmitsOnlyPending | dist/index.es.js:192-196 | A scan admits only files of the pending pool; the file `nextFile` just reclaimed is never re-admitted. |
| Session.ReclaimKeepsInvariant | dist/index.es.js:209-215 | Moving a finished file from `inflight` to `queue` or `_deleteQueue` keeps the pools disjoint and their total size, with the session still loading. |
| Session.ScanAdmitStep | dist/index.es.js:193-204 | Proof helper for `ScanEntry`: admitting an entry removes it from `list`, adds it to `inflight`, and advances the scan as `ScanFrom` does. |
| Session.ScanKeepStep | dist/index.es.js:192-204 | Proof helper for `ScanEntry`: passing over an entry changes no pool and advances the scan as `ScanFrom` does. |
| Loaders.BaseLoader.constructor | dist/index.es.js:115-132 | Empty pools, `IDLE`, progress 0, a cap of 32, empty paths. |
| Loaders.BaseLoader.SetBaseURL | dist/index.es.js:133-139 | `baseURL` becomes `NormalizeDir(value)`. |
| Loaders.BaseLoader.SetPath | dist/index.es.js:140-146 | `path` becomes `NormalizeDir(value)`. |
| Loaders.BaseLoader.SetFileGroup | dist/index.es.js:147-150 | `fileGroup` becomes the given name. |
| Loaders.BaseLoader.IsLoadingNow | dist/index.es.js:151-153 | True exactly in `LOADING` and `PROCESSING`. |
| Loaders.BaseLoader.IsReadyNow | dist/index.es.js:154-156 | True exactly in `IDLE` and `COMPLETE`. |
| Loaders.BaseLoader.AddFile | dist/index.es.js:157-167 | A fresh `PENDING` file with callbacks attached is appended to `list` and `totalToLoad` grows by one; no other pool changes. |
| Loaders.BaseLoader.Image | dist/index.es.js:241-243 | Same as `addFile`. |
| Loaders.BaseLoader.Start | dist/index.es.js:168-187 | Not ready: nothing changes. Empty batch: `COMPLETE`, progress 1, `_deleteQueue` kept. Otherwise `totalToLoad = |list|`, `LOADING`, `queue` and `_deleteQueue` cleared, progress 0, and one scan from an empty `inflight`. The admitted files have had `load` run on them once; every other pending file keeps its status. |
| Loaders.BaseLoader.BeginSession | dist/index.es.js:172-186 | For a ready loader with a non-empty batch: `LOADING`, progress 0, `totalToLoad = |list|`, `queue` and `_deleteQueue` empty, `list` and `inflight` as one scan from an empty `inflight` leaves them, and only the admitted files have had `load` run. |
| Loaders.BaseLoader.EnterLoading | dist/index.es.js:172-184 | The resets before the first scan: progress 0, `totalToLoad = |list|`, `LOADING`, the other three pools empty, and the invariant kept. |
| Loaders.BaseLoader.UpdateProgress | dist/index.es.js:188-190 | `progress` becomes `Progress(|list| + |inflight|, totalToLoad)`. |
| Loaders.BaseLoader.LoadComplete | dist/index.es.js:225-234 | `list`, `inflight`, `queue` empty, progress 1, `COMPLETE`; `_deleteQueue` kept. |
| Loaders.BaseLoader.Admit | dist/index.es.js:195-197 | The entry moves from `list` (order of the rest kept) to `inflight` and enters `LOADING`. |
| Loaders.BaseLoader.ScanEntry | dist/index.es.js:193-204 | One iteration: the entry is admitted exactly when `POPULATED`, or `PENDING` with a free slot, and then has had `load` run on it; every other file of the snapshot keeps its status; the scan stays in step with `ScanFrom`. |
| Loaders.BaseLoader.CheckLoadQueue | dist/index.es.js:191-206 | `list` and `inflight` become what `ScanFrom` computes on the entry states; each admitted file has had `load` run on it once (entering `LOADING`, settling nothing) and every other file keeps its whole status. |
| Loaders.BaseLoader.Reclaim | dist/index.es.js:209-215 | The file leaves `inflight` for `queue` on success or `_deleteQueue` on failure; the total over the four pools is unchanged. |
| Loaders.BaseLoader.Advance | dist/index.es.js:216-223 | A non-empty `list` is scanned again from the in-flight count; an empty one with nothing in flight completes the session (progress 1, `list`, `inflight`, `queue` empty); otherwise the session keeps loading with progress and `queue` unchanged. Admitted files have had `load` run; every other pending file keeps its status. |
| Loaders.BaseLoader.NextFile | dist/index.es.js:207-224 | The file leaves `inflight` for `queue` (success) or `_deleteQueue` (failure) and is not re-admitted; then the loader advances as `Advance` states, from the reduced in-flight count and the new `queue`; admitted pending files have had `load` run and every other keeps its status. |
| Loaders.BaseLoader.Finish | dist/index.es.js:22-37 | The `onLoad` or `onError` hook runs, then `nextFile`: the file ends with the status those hooks give it, and the pools, state and progress are what `NextFile` states. |
| Loaders.SingleImageSession | dist/index.es.js:157-224 | One image registered, started and finished: its promise settles exactly once (fulfilled on success, rejected on failure), and the session ends `COMPLETE` with progress 1, empty pools, and the file in `_deleteQueue` only on failure. |

## Left out

- `Game` and the canvas drawing: presentation, needs a browser.
- `XHRLoader`'s network request: the outcome of a transfer is the `success` argument of `Finish`.
- Promises and `.then`/`.catch` scheduling. `resolve` and `reject` are counters on the file (`resolveCalls`, `rejectCalls`) plus an `attached` flag for the `if (this.resolve)` guard. Each completion is one atomic `Finish` call.
- `console.log`, and the `prefix`, `crossOrigin` and `data` fields: they do not affect scheduling.
- `totalFailed` and `totalComplete`: they are only ever set to 0 and are never read.
- Floating point in `updateProgress`: progress is a `real`. `UpdateProgress` requires a session in progress (`totalToLoad > 0`); its only caller, `start`, guarantees this.
- The commented-out destroy pass over `_deleteQueue` in `loadComplete`: it does not run.
- `packages/renderer-webgl2/dist/VertexBuffer.js` and `src/loader/Loader.ts` are not part of this model. The first wraps WebGL calls. The second wraps `BaseLoader` and `ImageFile`, which are not shown.
- Files in states other than `PENDING`. Within `dist/index.es.js`, `addFile` creates every file `PENDING` and no code path sets `POPULATED`. Other states come from outside that file: from files the caller builds (`src/loader/Loader.ts:13` passes an `ImageFile` to `addFile`), from overridden hooks, or from outside writes to the public `list` or to a file's `state`. The model therefore allows any state for pending files: the scan reads each entry's state and admits on it. The cap and prefix results hold under the stated assumptions (no `POPULATED` entries, or all `PENDING`). They are not loader invariants, because those outside writers can break them.
- Loaders.BaseLoader.CheckLoadQueue: states the new pools through `ScanFrom`, and the cap and prefix results as separate lemmas about `ScanFrom` (`Session.ScanWithinCap`, `Session.PendingScanAdmitsPrefix`), not in its own postcondition.
- Loaders.BaseLoader.NextFile: does not update `progress` while loading, as in the source; progress changes only at the start and the end of a session.

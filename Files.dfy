/**
 * One requested asset and its lifecycle: the `FileState` enumeration and the
 * object built by the `File(key, url, type)` factory, with its guarded
 * `onStateChange` and the default hooks that drive it.
 */
module Files {

  /** The lifecycle states, in the order of their numeric codes 0..8. */
  datatype FileState =
    | Pending | Loading | Loaded | Failed | Processing | Errored | Complete | Destroyed | Populated

  /**
   * What `onStateChange` reads and writes on a file: its state, whether the
   * registration promise's `resolve`/`reject` are attached to it, and how many
   * times each of them has been called so far.
   */
  datatype FileStatus = FileStatus(state: FileState, attached: bool, resolveCalls: nat, rejectCalls: nat)

  /** Neither callback has been called yet. */
  predicate Unsettled(s: FileStatus) {
    s.resolveCalls == 0 && s.rejectCalls == 0
  }

  /** Admitted and waiting for its transfer: the state `load` leaves, nothing settled. */
  predicate InTransfer(s: FileStatus) {
    s.state == Loading && Unsettled(s)
  }

  /** Finished successfully: `resolve` called exactly once, `reject` never. */
  predicate Fulfilled(s: FileStatus) {
    s.state == Complete && s.resolveCalls == 1 && s.rejectCalls == 0
  }

  /** Finished with a failure: `reject` called exactly once, `resolve` never. */
  predicate Rejected(s: FileStatus) {
    s.state == Failed && s.rejectCalls == 1 && s.resolveCalls == 0
  }

  /** The effect of `onStateChange(value)` on a file. */
  function StateChange(s: FileStatus, value: FileState): (r: FileStatus)
    ensures r.state == value && r.attached == s.attached
    ensures s.state == value ==> r == s
  {
    if s.state == value then s
    else if value == Complete then
      s.(state := value, resolveCalls := s.resolveCalls + (if s.attached then 1 else 0))
    else if value == Failed then
      s.(state := value, rejectCalls := s.rejectCalls + (if s.attached then 1 else 0))
    else
      s.(state := value)
  }

  /** Repeating a transition is a no-op. */
  lemma StateChangeIdempotent(s: FileStatus, value: FileState)
    ensures StateChange(StateChange(s, value), value) == StateChange(s, value)
  {
  }

  /**
   * `resolve` is called exactly when the state changes to `Complete` and `reject`
   * exactly when it changes to `Failed` (given that they are attached); every
   * other transition calls neither.
   */
  lemma StateChangeSettlement(s: FileStatus, value: FileState)
    ensures var r := StateChange(s, value);
      && r.resolveCalls >= s.resolveCalls && r.rejectCalls >= s.rejectCalls
      && (r.resolveCalls > s.resolveCalls <==> s.attached && s.state != Complete && value == Complete)
      && (r.rejectCalls > s.rejectCalls <==> s.attached && s.state != Failed && value == Failed)
      && r.resolveCalls <= s.resolveCalls + 1 && r.rejectCalls <= s.rejectCalls + 1
  {
  }

  /** The default `onLoad` (Loaded, then Complete) ends in `Complete` having called `resolve` once, whatever the state before. */
  lemma OnLoadFulfilsOnce(s: FileStatus)
    ensures var r := StateChange(StateChange(s, Loaded), Complete);
      && r.state == Complete && r.attached == s.attached
      && r.resolveCalls == s.resolveCalls + (if s.attached then 1 else 0)
      && r.rejectCalls == s.rejectCalls
  {
  }

  /** `load` moves an unsettled file to `Loading` without settling it. */
  lemma LoadStaysUnsettled(s: FileStatus)
    requires Unsettled(s)
    ensures InTransfer(StateChange(s, Loading))
  {
  }

  /** The default `onLoad` of an attached file in transfer fulfils it; the default `onError` rejects it. */
  lemma TransferOutcome(s: FileStatus)
    requires InTransfer(s) && s.attached
    ensures Fulfilled(StateChange(StateChange(s, Loaded), Complete))
    ensures Rejected(StateChange(s, Failed))
  {
  }

  /** The file `States` of a sequence of files, element by element. */
  function StatesOf(files: seq<File>): (r: seq<FileState>)
    reads files
    ensures |r| == |files|
    ensures forall j :: 0 <= j < |files| ==> r[j] == files[j].state
  {
    if files == [] then [] else [files[0].state] + StatesOf(files[1..])
  }

  /** The `Status` of each file of a sequence, element by element. */
  function StatusesOf(files: seq<File>): (r: seq<FileStatus>)
    reads files
    ensures |r| == |files|
    ensures forall j :: 0 <= j < |files| ==> r[j] == files[j].Status()
  {
    if files == [] then [] else [files[0].Status()] + StatusesOf(files[1..])
  }

  /** The object returned by the `File(key, url, type)` factory. */
  class File {
    const key: string
    const url: string
    const kind: string
    var state: FileState
    /** `resolve` and `reject` are set on the file (`addFile` sets both at once). */
    var attached: bool
    var resolveCalls: nat
    var rejectCalls: nat

    function Status(): FileStatus
      reads this
    {
      FileStatus(state, attached, resolveCalls, rejectCalls)
    }

    /** A new file is `Pending`, with no callbacks attached. */
    constructor (key: string, url: string, kind: string)
      ensures this.key == key && this.url == url && this.kind == kind
      ensures Status() == FileStatus(Pending, false, 0, 0)
    {
      this.key := key;
      this.url := url;
      this.kind := kind;
      state := Pending;
      attached := false;
      resolveCalls := 0;
      rejectCalls := 0;
    }

    /** The guarded transition: nothing happens when `value` is the current state. */
    method OnStateChange(value: FileState)
      modifies this
      ensures Status() == StateChange(old(Status()), value)
    {
      if state != value {
        state := value;
        if value == Complete {
          if attached {
            resolveCalls := resolveCalls + 1;
          }
        } else if value == Failed {
          if attached {
            rejectCalls := rejectCalls + 1;
          }
        }
      }
    }

    /** `load`: enter `Loading`; the transfer it then starts is outside the model. */
    method Load()
      modifies this
      ensures Status() == StateChange(old(Status()), Loading)
      ensures Unsettled(old(Status())) ==> InTransfer(Status())
    {
      OnStateChange(Loading);
    }

    /** Default `onLoad`: `Loaded`, then `Complete`. */
    method OnLoad()
      modifies this
      ensures Status() == StateChange(StateChange(old(Status()), Loaded), Complete)
      ensures state == Complete && attached == old(attached) && rejectCalls == old(rejectCalls)
      ensures resolveCalls == old(resolveCalls) + (if attached then 1 else 0)
    {
      OnStateChange(Loaded);
      OnStateChange(Complete);
      OnLoadFulfilsOnce(old(Status()));
    }

    /** Default `onError`: `Failed`. */
    method OnError()
      modifies this
      ensures Status() == StateChange(old(Status()), Failed)
      ensures state == Failed && resolveCalls == old(resolveCalls)
      ensures rejectCalls == old(rejectCalls) + (if attached && old(state) != Failed then 1 else 0)
    {
      OnStateChange(Failed);
    }

    /** Default `onProcess`: `Processing`, which settles nothing. */
    method OnProcess()
      modifies this
      ensures Status() == StateChange(old(Status()), Processing)
      ensures state == Processing && resolveCalls == old(resolveCalls) && rejectCalls == old(rejectCalls)
    {
      OnStateChange(Processing);
    }

    /** Default `onComplete`: `Complete`, which calls `resolve` unless the file was already complete. */
    method OnComplete()
      modifies this
      ensures Status() == StateChange(old(Status()), Complete)
      ensures state == Complete && rejectCalls == old(rejectCalls)
      ensures resolveCalls == old(resolveCalls) + (if attached && old(state) != Complete then 1 else 0)
    {
      OnStateChange(Complete);
    }

    /** Default `onDestroy`: `Destroyed`, which settles nothing. */
    method OnDestroy()
      modifies this
      ensures Status() == StateChange(old(Status()), Destroyed)
      ensures state == Destroyed && resolveCalls == old(resolveCalls) && rejectCalls == old(rejectCalls)
    {
      OnStateChange(Destroyed);
    }
  }
}

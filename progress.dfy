/**
 * The per-run progress counters the service keeps in its `currentImports`
 * map and that callers poll: the run's state, how many concepts it will
 * process, how many it has processed and how many of those loaded. A counter
 * not yet set is null, and is read as zero when it is incremented.
 */
module ImportProgress {
  import opened Wrappers
  import opened ImportRun

  datatype BatchImportState = Running | Failed | Completed

  datatype BatchImportStatus = BatchImportStatus(
    state: BatchImportState,
    target: Option<int>,
    processed: Option<int>,
    loaded: Option<int>)

  /** A counter's value, null read as zero. */
  function Count(counter: Option<int>): int {
    if counter.None? then 0 else counter.value
  }

  /** `new BatchImportStatus(state)`: no counter set yet. */
  function NewStatus(state: BatchImportState): BatchImportStatus {
    BatchImportStatus(state, None, None, None)
  }

  /** The counters are consistent: none is negative, and no more loaded than processed. */
  predicate Consistent(s: BatchImportStatus) {
    0 <= Count(s.loaded) <= Count(s.processed)
  }

  /** The status after one more concept was processed, and loaded if `loaded`. */
  function Bumped(s: BatchImportStatus, loaded: bool): (r: BatchImportStatus)
    ensures r.processed.Some? && Count(r.processed) == Count(s.processed) + 1
    ensures Count(r.loaded) == Count(s.loaded) + (if loaded then 1 else 0)
    ensures loaded ==> r.loaded.Some?
    ensures !loaded ==> r.loaded == s.loaded
    ensures r.state == s.state && r.target == s.target
    ensures Consistent(s) ==> Consistent(r)
  {
    var processed := if s.processed.None? then 1 else s.processed.value + 1;
    var s' := s.(processed := Some(processed));
    if loaded then s'.(loaded := Some(if s.loaded.None? then 1 else s.loaded.value + 1)) else s'
  }

  /** The status after processing concepts with these outcomes in turn. */
  function BumpedAll(s: BatchImportStatus, outcomes: seq<bool>): BatchImportStatus
    decreases |outcomes|
  {
    if outcomes == [] then s else Bumped(BumpedAll(s, outcomes[..|outcomes| - 1]), outcomes[|outcomes| - 1])
  }

  /** How many of the outcomes are successes. */
  function Successes(outcomes: seq<bool>): (r: nat)
    ensures r <= |outcomes|
    decreases |outcomes|
  {
    if outcomes == [] then 0
    else Successes(outcomes[..|outcomes| - 1]) + (if outcomes[|outcomes| - 1] then 1 else 0)
  }

  /**
   * After N concepts of which K loaded, `processed` has grown by exactly N and
   * `loaded` by exactly K, whatever the order of the outcomes, and a
   * consistent status stays consistent.
   */
  lemma {:induction false} BumpedAllCounts(s: BatchImportStatus, outcomes: seq<bool>)
    ensures Count(BumpedAll(s, outcomes).processed) == Count(s.processed) + |outcomes|
    ensures Count(BumpedAll(s, outcomes).loaded) == Count(s.loaded) + Successes(outcomes)
    ensures BumpedAll(s, outcomes).state == s.state && BumpedAll(s, outcomes).target == s.target
    ensures Consistent(s) ==> Consistent(BumpedAll(s, outcomes))
    decreases |outcomes|
  {
    if outcomes != [] {
      BumpedAllCounts(s, outcomes[..|outcomes| - 1]);
    }
  }

  /** Starting from no counts, N concepts with K successes read processed == N and loaded == K. */
  lemma FreshRunCounts(outcomes: seq<bool>)
    ensures Count(BumpedAll(NewStatus(Running), outcomes).processed) == |outcomes|
    ensures Count(BumpedAll(NewStatus(Running), outcomes).loaded) == Successes(outcomes)
  {
    BumpedAllCounts(NewStatus(Running), outcomes);
  }

  /** `getBatchImportStatus` on a map: a RUNNING entry is created only if there is none. */
  function WithStatus(imports: map<ImportId, BatchImportStatus>, id: ImportId): (r: map<ImportId, BatchImportStatus>)
    ensures id in r
    ensures id in imports ==> r == imports
    ensures id !in imports ==> r[id] == NewStatus(Running)
    ensures r.Keys == imports.Keys + {id}
    ensures forall k :: k in imports ==> r[k] == imports[k]
  {
    if id in imports then imports else imports[id := NewStatus(Running)]
  }

  /** Asking for a status twice changes nothing the second time. */
  lemma WithStatusIdempotent(imports: map<ImportId, BatchImportStatus>, id: ImportId)
    ensures WithStatus(WithStatus(imports, id), id) == WithStatus(imports, id)
  {
  }

  /** `incrementProgress` on a map: the run's status, created if missing, bumped once. */
  function Incremented(imports: map<ImportId, BatchImportStatus>, id: ImportId, loaded: bool): map<ImportId, BatchImportStatus> {
    var w := WithStatus(imports, id);
    w[id := Bumped(w[id], loaded)]
  }

  /** The map after `incrementProgress` was called once per outcome, in order. */
  function IncrementedAll(imports: map<ImportId, BatchImportStatus>, id: ImportId, loaded: seq<bool>): map<ImportId, BatchImportStatus>
    decreases |loaded|
  {
    if loaded == [] then imports
    else Incremented(IncrementedAll(imports, id, loaded[..|loaded| - 1]), id, loaded[|loaded| - 1])
  }

  /**
   * A run of increments touches only its own run's entry, which ends as the
   * status it started from (created if missing) bumped once per outcome.
   */
  lemma {:induction false} IncrementedAllBumps(imports: map<ImportId, BatchImportStatus>, id: ImportId, loaded: seq<bool>)
    ensures loaded != [] ==> IncrementedAll(imports, id, loaded) == imports[id := BumpedAll(WithStatus(imports, id)[id], loaded)]
    ensures loaded == [] ==> IncrementedAll(imports, id, loaded) == imports
    decreases |loaded|
  {
    if |loaded| > 1 {
      IncrementedAllBumps(imports, id, loaded[..|loaded| - 1]);
    } else if |loaded| == 1 {
      assert loaded[..0] == [];
      assert BumpedAll(WithStatus(imports, id)[id], loaded) == Bumped(WithStatus(imports, id)[id], loaded[0]);
    }
  }

  /** One batch of N concepts, K of which loaded, raises `processed` by exactly N and `loaded` by exactly K. */
  lemma BatchProgress(imports: map<ImportId, BatchImportStatus>, id: ImportId, loaded: seq<bool>)
    requires loaded != []
    ensures id in IncrementedAll(imports, id, loaded)
    ensures Count(IncrementedAll(imports, id, loaded)[id].processed) == Count(WithStatus(imports, id)[id].processed) + |loaded|
    ensures Count(IncrementedAll(imports, id, loaded)[id].loaded) == Count(WithStatus(imports, id)[id].loaded) + Successes(loaded)
  {
    IncrementedAllBumps(imports, id, loaded);
    BumpedAllCounts(WithStatus(imports, id)[id], loaded);
  }

  /** The `processed` counter of a run as reported, zero for a run not yet seen. */
  function Processed(imports: map<ImportId, BatchImportStatus>, id: ImportId): int {
    Count(WithStatus(imports, id)[id].processed)
  }

  /** Whatever the outcomes, each increment adds exactly one to the run's `processed` counter. */
  lemma ProcessedGrows(imports: map<ImportId, BatchImportStatus>, id: ImportId, loaded: seq<bool>)
    ensures Processed(IncrementedAll(imports, id, loaded), id) == Processed(imports, id) + |loaded|
  {
    if loaded != [] {
      BatchProgress(imports, id, loaded);
    }
  }

  /**
   * The service's `currentImports` map and the three synchronized methods
   * that read and update it. Both versions of the service hold the same code.
   */
  class ImportStatusBoard {
    var currentImports: map<ImportId, BatchImportStatus>

    /** Every run's counters are consistent. */
    predicate Valid()
      reads this
    {
      forall id :: id in currentImports ==> Consistent(currentImports[id])
    }

    constructor ()
      ensures currentImports == map[]
      ensures Valid()
    {
      currentImports := map[];
    }

    /** `currentImports.put(id, new BatchImportStatus(RUNNING))`, as `startImport` does. */
    method Start(id: ImportId)
      modifies this
      requires Valid()
      ensures Valid()
      ensures currentImports == old(currentImports)[id := NewStatus(Running)]
    {
      currentImports := currentImports[id := NewStatus(Running)];
    }

    /** `getBatchImportStatus`: the run's status, created RUNNING if missing. */
    method GetBatchImportStatus(id: ImportId) returns (status: BatchImportStatus)
      modifies this
      requires Valid()
      ensures Valid()
      ensures currentImports == WithStatus(old(currentImports), id)
      ensures status == currentImports[id]
    {
      if id !in currentImports {
        currentImports := currentImports[id := NewStatus(Running)];
      }
      status := currentImports[id];
    }

    /** `setTarget`: the number of concepts the run will process. */
    method SetTarget(id: ImportId, rowsToProcess: int)
      modifies this
      requires Valid()
      ensures Valid()
      ensures currentImports == WithStatus(old(currentImports), id)[id := WithStatus(old(currentImports), id)[id].(target := Some(rowsToProcess))]
    {
      var status := GetBatchImportStatus(id);
      currentImports := currentImports[id := status.(target := Some(rowsToProcess))];
    }

    /** `incrementProgress`: one more processed, and one more loaded if it loaded. */
    method IncrementProgress(id: ImportId, loaded: bool)
      modifies this
      requires Valid()
      ensures Valid()
      ensures currentImports == Incremented(old(currentImports), id, loaded)
    {
      var status := GetBatchImportStatus(id);
      var processed := if status.processed.None? then 1 else status.processed.value + 1;
      status := status.(processed := Some(processed));
      if loaded {
        status := status.(loaded := Some(if status.loaded.None? then 1 else status.loaded.value + 1));
      }
      currentImports := currentImports[id := status];
    }

    /** `getBatchImportStatus(id).setState(state)`. */
    method SetState(id: ImportId, state: BatchImportState)
      modifies this
      requires Valid()
      ensures Valid()
      ensures currentImports == WithStatus(old(currentImports), id)[id := WithStatus(old(currentImports), id)[id].(state := state)]
    {
      var status := GetBatchImportStatus(id);
      currentImports := currentImports[id := status.(state := state)];
    }
  }
}

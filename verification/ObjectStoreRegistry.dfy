/** The MVCC owner of hot state (object_store_state_backend.py), as one transition per call. */
module ObjectStoreRegistry {
  import opened Wrappers
  import opened Bytes
  import opened Sorting
  import opened Manifests

  datatype Handle<R> = Handle(partition: StatePartition, version: int, ref: R, inputSequence: int, sizeBytes: int)

  datatype Snapshot<R> = Snapshot(checkpointId: int, epoch: int, handles: seq<Handle<R>>)

  datatype Registry<R> = Registry(current: map<StatePartition, Handle<R>>, snapshots: map<int, Snapshot<R>>)

  /** A commit: the reference is the one that the object store holds the new value under. */
  datatype Request<R> = Request(
    partition: StatePartition, ref: R, expectedVersion: int, inputSequence: int, sizeBytes: int)

  datatype RegistryError = InvalidArgument | VersionConflict | SequenceConflict | EpochConflict

  /** Handles are filed under their own partition and have passed the checks of `StateHandle`. */
  ghost predicate WellFormed<R>(reg: Registry<R>) {
    forall p :: p in reg.current ==>
      reg.current[p].partition == p && reg.current[p].version >= 1 && reg.current[p].inputSequence >= 0
  }

  function Version<R>(reg: Registry<R>, p: StatePartition): int {
    if p in reg.current then reg.current[p].version else 0
  }

  /** The input sequence that a commit must exceed. */
  function Sequence<R>(reg: Registry<R>, p: StatePartition): int {
    if p in reg.current then reg.current[p].inputSequence else -1
  }

  // ---- commit --------------------------------------------------------------

  /** `_validate_update`: a handle to replay, `None` for a fresh update, or an error. */
  function ValidateUpdate<R>(reg: Registry<R>, p: StatePartition, expected: int, sequence: int)
    : Result<Option<Handle<R>>, RegistryError>
  {
    if expected < 0 || sequence < 0 then
      Err(InvalidArgument)
    else if p in reg.current && reg.current[p].version == expected + 1 && reg.current[p].inputSequence == sequence then
      Ok(Some(reg.current[p]))
    else if Version(reg, p) != expected then
      Err(VersionConflict)
    else if p in reg.current && sequence <= reg.current[p].inputSequence then
      Err(SequenceConflict)
    else
      Ok(None)
  }

  function NewHandle<R>(r: Request<R>): Handle<R> {
    Handle(r.partition, r.expectedVersion + 1, r.ref, r.inputSequence, r.sizeBytes)
  }

  function CommitResult<R>(reg: Registry<R>, r: Request<R>): Result<Handle<R>, RegistryError> {
    if r.sizeBytes < 0 then
      Err(InvalidArgument)
    else
      match ValidateUpdate(reg, r.partition, r.expectedVersion, r.inputSequence)
      case Err(e) => Err(e)
      case Ok(Some(replayed)) => Ok(replayed)
      case Ok(None) => Ok(NewHandle(r))
  }

  /** The commit creates a version, rather than failing or replaying one. */
  predicate CreatesVersion<R>(reg: Registry<R>, r: Request<R>) {
    r.sizeBytes >= 0 && ValidateUpdate(reg, r.partition, r.expectedVersion, r.inputSequence) == Ok(None)
  }

  function AfterCommit<R>(reg: Registry<R>, r: Request<R>): Registry<R> {
    if CreatesVersion(reg, r) then reg.(current := reg.current[r.partition := NewHandle(r)]) else reg
  }

  // ---- snapshots -----------------------------------------------------------

  /** `tuple(sorted(current.values()))`, partitions compared through an order-preserving ranking. */
  function SortedHandles<R>(current: map<StatePartition, Handle<R>>, rank: StatePartition -> Blob)
    : (handles: seq<Handle<R>>)
    requires Injective(rank)
  {
    var order := Ordered(current.Keys, rank);
    OrderedIsOrdering(current.Keys, rank);
    seq(|order|, i requires 0 <= i < |order| => assert order[i] in order; current[order[i]])
  }

  function BeginResult<R>(reg: Registry<R>, id: int, epoch: int, rank: StatePartition -> Blob)
    : Result<Snapshot<R>, RegistryError>
    requires Injective(rank)
  {
    if id in reg.snapshots then
      if reg.snapshots[id].epoch != epoch then Err(EpochConflict) else Ok(reg.snapshots[id])
    else if id < 0 || epoch < 0 then
      Err(InvalidArgument)
    else
      Ok(Snapshot(id, epoch, SortedHandles(reg.current, rank)))
  }

  function AfterBegin<R>(reg: Registry<R>, id: int, epoch: int, rank: StatePartition -> Blob): Registry<R>
    requires Injective(rank)
  {
    var result := BeginResult(reg, id, epoch, rank);
    if result.Ok? then reg.(snapshots := reg.snapshots[id := result.value]) else reg
  }

  function AfterRelease<R>(reg: Registry<R>, id: int): Registry<R> {
    reg.(snapshots := reg.snapshots - {id})
  }

  /** `{handle.partition: handle for handle in handles}`: the last handle of a partition wins. */
  function ByPartition<R>(handles: seq<Handle<R>>): map<StatePartition, Handle<R>> {
    if handles == [] then
      map[]
    else
      var last := |handles| - 1;
      ByPartition(handles[..last])[handles[last].partition := handles[last]]
  }

  function AfterRestore<R>(reg: Registry<R>, s: Snapshot<R>): Registry<R> {
    Registry(ByPartition(s.handles), reg.snapshots[s.checkpointId := s])
  }

  // ---- the class -----------------------------------------------------------

  class ObjectStoreStateBackend<R(==)> {
    var current: map<StatePartition, Handle<R>>
    var snapshots: map<int, Snapshot<R>>
    ghost var puts: seq<R>

    ghost function State(): Registry<R>
      reads this
    {
      Registry(current, snapshots)
    }

    constructor ()
      ensures current == map[] && snapshots == map[] && puts == []
    {
      current, snapshots, puts := map[], map[], [];
    }

    method Validate(p: StatePartition, expected: int, sequence: int)
      returns (r: Result<Option<Handle<R>>, RegistryError>)
      ensures r == ValidateUpdate(State(), p, expected, sequence)
    {
      if expected < 0 || sequence < 0 {
        return Err(InvalidArgument);
      }
      var version := 0;
      if p in current {
        var handle := current[p];
        version := handle.version;
        if handle.version == expected + 1 && handle.inputSequence == sequence {
          return Ok(Some(handle));
        }
      }
      if version != expected {
        return Err(VersionConflict);
      }
      if p in current && sequence <= current[p].inputSequence {
        return Err(SequenceConflict);
      }
      r := Ok(None);
    }

    /** `commit`: the value is put into the object store only when a version is created. */
    method Commit(request: Request<R>) returns (r: Result<Handle<R>, RegistryError>)
      modifies this
      ensures r == CommitResult(old(State()), request)
      ensures State() == AfterCommit(old(State()), request)
      ensures puts == if CreatesVersion(old(State()), request) then old(puts) + [request.ref] else old(puts)
    {
      if request.sizeBytes < 0 {
        return Err(InvalidArgument);
      }
      var replay := Validate(request.partition, request.expectedVersion, request.inputSequence);
      if replay.Err? {
        return Err(replay.error);
      }
      if replay.value.Some? {
        return Ok(replay.value.value);
      }
      puts := puts + [request.ref];
      var handle := NewHandle(request);
      current := current[request.partition := handle];
      r := Ok(handle);
    }

    /** `commit_ref`: as `commit`, for a value that is in the object store already. */
    method CommitRef(request: Request<R>) returns (r: Result<Handle<R>, RegistryError>)
      modifies this`current
      ensures r == CommitResult(old(State()), request)
      ensures State() == AfterCommit(old(State()), request)
    {
      if request.sizeBytes < 0 {
        return Err(InvalidArgument);
      }
      var replay := Validate(request.partition, request.expectedVersion, request.inputSequence);
      if replay.Err? {
        return Err(replay.error);
      }
      if replay.value.Some? {
        return Ok(replay.value.value);
      }
      var handle := NewHandle(request);
      current := current[request.partition := handle];
      r := Ok(handle);
    }

    method BeginSnapshot(id: int, epoch: int, rank: StatePartition -> Blob)
      returns (r: Result<Snapshot<R>, RegistryError>)
      requires Injective(rank)
      modifies this`snapshots
      ensures r == BeginResult(old(State()), id, epoch, rank)
      ensures State() == AfterBegin(old(State()), id, epoch, rank)
    {
      if id in snapshots {
        if snapshots[id].epoch != epoch {
          return Err(EpochConflict);
        }
        assert snapshots == snapshots[id := snapshots[id]];
        return Ok(snapshots[id]);
      }
      if id < 0 || epoch < 0 {
        return Err(InvalidArgument);
      }
      var snapshot := Snapshot(id, epoch, SortedHandles(current, rank));
      snapshots := snapshots[id := snapshot];
      r := Ok(snapshot);
    }

    method ReleaseSnapshot(id: int)
      modifies this`snapshots
      ensures State() == AfterRelease(old(State()), id)
    {
      snapshots := snapshots - {id};
    }

    method RestoreHot(s: Snapshot<R>)
      modifies this`current, this`snapshots
      ensures State() == AfterRestore(old(State()), s)
    {
      var restored: map<StatePartition, Handle<R>> := map[];
      var i := 0;
      while i < |s.handles|
        invariant 0 <= i <= |s.handles| && unchanged(this)
        invariant restored == ByPartition(s.handles[..i])
      {
        assert s.handles[..i + 1][..i] == s.handles[..i];
        restored := restored[s.handles[i].partition := s.handles[i]];
        i := i + 1;
      }
      assert s.handles[..i] == s.handles;
      current := restored;
      snapshots := snapshots[s.checkpointId := s];
    }
  }

  // ---- runs ----------------------------------------------------------------

  /** One call by one of any number of clients; a retry is a call made again. */
  datatype Op<R> =
    | Commit(request: Request<R>)
    | Begin(id: int, epoch: int)
    | Release(released: int)
    | Restore(snapshot: Snapshot<R>)

  function Next<R>(reg: Registry<R>, op: Op<R>, rank: StatePartition -> Blob): Registry<R>
    requires Injective(rank)
  {
    match op
    case Commit(request) => AfterCommit(reg, request)
    case Begin(id, epoch) => AfterBegin(reg, id, epoch, rank)
    case Release(id) => AfterRelease(reg, id)
    case Restore(s) => AfterRestore(reg, s)
  }

  function Run<R>(reg: Registry<R>, ops: seq<Op<R>>, rank: StatePartition -> Blob): Registry<R>
    requires Injective(rank)
  {
    if ops == [] then
      reg
    else
      var last := |ops| - 1;
      Next(Run(reg, ops[..last], rank), ops[last], rank)
  }

  /** The handles that the run created for a partition, in order. */
  function Created<R>(reg: Registry<R>, ops: seq<Op<R>>, rank: StatePartition -> Blob, p: StatePartition)
    : seq<Handle<R>>
    requires Injective(rank)
  {
    if ops == [] then
      []
    else
      var last := |ops| - 1;
      var before, state := Created(reg, ops[..last], rank, p), Run(reg, ops[..last], rank);
      if ops[last].Commit? && ops[last].request.partition == p && CreatesVersion(state, ops[last].request) then
        before + [NewHandle(ops[last].request)]
      else
        before
  }

  predicate NoRestore<R>(ops: seq<Op<R>>) {
    forall i :: 0 <= i < |ops| ==> !ops[i].Restore?
  }

  lemma {:induction false} RunConcat<R>(reg: Registry<R>, a: seq<Op<R>>, b: seq<Op<R>>, rank: StatePartition -> Blob)
    requires Injective(rank)
    ensures Run(reg, a + b, rank) == Run(Run(reg, a, rank), b, rank)
  {
    hide Next, Injective;
    if b == [] {
      assert a + b == a;
    } else {
      var last := |b| - 1;
      assert (a + b)[..|a + b| - 1] == a + b[..last];
      RunConcat(reg, a, b[..last], rank);
    }
  }

  lemma CommitKeepsWellFormed<R>(reg: Registry<R>, r: Request<R>)
    requires WellFormed(reg)
    ensures WellFormed(AfterCommit(reg, r))
  {
  }

  lemma {:induction false} RunWellFormed<R>(reg: Registry<R>, ops: seq<Op<R>>, rank: StatePartition -> Blob)
    requires Injective(rank) && WellFormed(reg) && NoRestore(ops)
    ensures WellFormed(Run(reg, ops, rank))
  {
    hide Injective, CreatesVersion, SortedHandles;
    if ops != [] {
      var last := |ops| - 1;
      RunWellFormed(reg, ops[..last], rank);
      if ops[last].Commit? {
        CommitKeepsWellFormed(Run(reg, ops[..last], rank), ops[last].request);
      }
    }
  }

  /** Versions follow one another without a gap and input sequences strictly increase. */
  ghost predicate Advances<R>(created: seq<Handle<R>>, p: StatePartition, version: int, sequence: int) {
    && (forall i :: 0 <= i < |created| ==> created[i].partition == p && created[i].version == version + 1 + i)
    && (forall i :: 0 <= i < |created| ==> created[i].inputSequence > sequence)
    && (forall i, j :: 0 <= i < j < |created| ==> created[i].inputSequence < created[j].inputSequence)
  }

  /** The current handle is the last one created, or the one the run began with. */
  ghost predicate EndsWith<R>(reg: Registry<R>, created: seq<Handle<R>>, end: Registry<R>, p: StatePartition) {
    if created == [] then
      (p in end.current <==> p in reg.current) && (p in reg.current ==> end.current[p] == reg.current[p])
    else
      p in end.current && end.current[p] == created[|created| - 1]
  }

  lemma CurrentOnlyByCommit<R>(reg: Registry<R>, op: Op<R>, rank: StatePartition -> Blob, p: StatePartition)
    requires Injective(rank) && !op.Restore?
    requires op.Commit? && CreatesVersion(reg, op.request) ==> op.request.partition != p
    ensures p in Next(reg, op, rank).current <==> p in reg.current
    ensures p in reg.current ==> Next(reg, op, rank).current[p] == reg.current[p]
  {
    hide Injective, SortedHandles, CreatesVersion;
  }

  /** Between hot restores, over all interleavings, every partition's versions grow by exactly one. */
  lemma {:induction false} VersionsAdvance<R>(
      reg: Registry<R>, ops: seq<Op<R>>, rank: StatePartition -> Blob, p: StatePartition)
    requires Injective(rank) && WellFormed(reg) && NoRestore(ops)
    ensures Advances(Created(reg, ops, rank, p), p, Version(reg, p), Sequence(reg, p))
    ensures EndsWith(reg, Created(reg, ops, rank, p), Run(reg, ops, rank), p)
  {
    hide Injective, Next;
    if ops != [] {
      var last := |ops| - 1;
      var state, before := Run(reg, ops[..last], rank), Created(reg, ops[..last], rank, p);
      VersionsAdvance(reg, ops[..last], rank, p);
      RunWellFormed(reg, ops[..last], rank);
      if ops[last].Commit? && ops[last].request.partition == p && CreatesVersion(state, ops[last].request) {
        CreatedNext(reg, before, state, ops[last].request, p);
        NextIsCommit(state, ops[last], rank);
      } else {
        CurrentOnlyByCommit(state, ops[last], rank, p);
      }
    }
  }

  lemma NextIsCommit<R>(reg: Registry<R>, op: Op<R>, rank: StatePartition -> Blob)
    requires Injective(rank) && op.Commit?
    ensures Next(reg, op, rank) == AfterCommit(reg, op.request)
  {
  }

  lemma CreatedNext<R>(reg: Registry<R>, before: seq<Handle<R>>, state: Registry<R>, r: Request<R>, p: StatePartition)
    requires WellFormed(reg) && r.partition == p && CreatesVersion(state, r)
    requires Advances(before, p, Version(reg, p), Sequence(reg, p)) && EndsWith(reg, before, state, p)
    ensures Advances(before + [NewHandle(r)], p, Version(reg, p), Sequence(reg, p))
    ensures AfterCommit(state, r).current[p] == NewHandle(r)
  {
  }

  predicate SameRequest<R>(a: Request<R>, b: Request<R>) {
    a.partition == b.partition && a.expectedVersion == b.expectedVersion && a.inputSequence == b.inputSequence
  }

  /** A commit that succeeds leaves its handle current, at the version and sequence that were asked for. */
  lemma CommitTakesEffect<R>(reg: Registry<R>, r: Request<R>)
    requires CommitResult(reg, r).Ok?
    ensures var h := CommitResult(reg, r).value;
      && r.partition in AfterCommit(reg, r).current && AfterCommit(reg, r).current[r.partition] == h
      && h.version == r.expectedVersion + 1 && h.inputSequence == r.inputSequence
  {
  }

  /** A retry replays exactly when the handle it asks for is still current; then nothing changes, whatever its value. */
  lemma ReplayIff<R(!new)>(reg: Registry<R>, r: Request<R>)
    requires r.sizeBytes >= 0 && r.expectedVersion >= 0 && r.inputSequence >= 0
    ensures r.partition in reg.current && reg.current[r.partition].version == r.expectedVersion + 1
            && reg.current[r.partition].inputSequence == r.inputSequence
       <==> CommitResult(reg, r).Ok? && AfterCommit(reg, r) == reg && !CreatesVersion(reg, r)
    ensures CommitResult(reg, r).Ok? && !CreatesVersion(reg, r) ==>
      forall ref :: CommitResult(reg, r.(ref := ref)) == CommitResult(reg, r)
  {
  }

  /**
    Two clients commit different values under one version and sequence: the second is
    answered with the handle of the first, as if its own value had been stored.
   */
  lemma OtherValueDropped<R>(p: StatePartition, x: R, y: R, sequence: nat, size: nat, other: nat)
    requires x != y
    ensures var empty: Registry<R> := Registry(map[], map[]);
      var first, second := Request(p, x, 0, sequence, size), Request(p, y, 0, sequence, other);
      var after := AfterCommit(empty, first);
      && CommitResult(after, second) == CommitResult(empty, first) == Ok(Handle(p, 1, x, sequence, size))
      && AfterCommit(after, second) == after && after.current[p].ref != y
  {
  }

  /** Whatever calls come between, a request that was answered is answered again by the same handle or by a conflict. */
  lemma AnsweredOnce<R>(
      reg: Registry<R>, ops: seq<Op<R>>, rank: StatePartition -> Blob, first: Request<R>, retry: Request<R>)
    requires Injective(rank) && WellFormed(reg) && NoRestore(ops) && SameRequest(first, retry)
    requires CommitResult(reg, first).Ok?
    ensures var state := Run(AfterCommit(reg, first), ops, rank);
      && !CreatesVersion(state, retry)
      && (CommitResult(state, retry).Ok? ==> CommitResult(state, retry) == CommitResult(reg, first))
      && (retry.sizeBytes >= 0 && Created(AfterCommit(reg, first), ops, rank, first.partition) == [] ==>
            CommitResult(state, retry) == CommitResult(reg, first))
  {
    hide Injective, Advances;
    var committed, p := AfterCommit(reg, first), first.partition;
    CommitTakesEffect(reg, first);
    CommitKeepsWellFormed(reg, first);
    VersionsAdvance(committed, ops, rank, p);
    var created := Created(committed, ops, rank, p);
    if created != [] {
      LastVersion(created, p, Version(committed, p), Sequence(committed, p));
    }
  }

  lemma LastVersion<R>(created: seq<Handle<R>>, p: StatePartition, version: int, sequence: int)
    requires Advances(created, p, version, sequence) && created != []
    ensures created[|created| - 1].version == version + |created|
  {
  }

  /**
    Exactly once: between hot restores, all successful answers to one request, from
    whichever clients and in whatever order, are one and the same handle, and only
    one of the calls created a version.
   */
  lemma ExactlyOnce<R>(reg: Registry<R>, ops: seq<Op<R>>, rank: StatePartition -> Blob, i: nat, j: nat)
    requires Injective(rank) && WellFormed(reg) && NoRestore(ops) && i < j < |ops|
    requires ops[i].Commit? && ops[j].Commit? && SameRequest(ops[i].request, ops[j].request)
    requires CommitResult(Run(reg, ops[..i], rank), ops[i].request).Ok?
    requires CommitResult(Run(reg, ops[..j], rank), ops[j].request).Ok?
    ensures CommitResult(Run(reg, ops[..i], rank), ops[i].request)
         == CommitResult(Run(reg, ops[..j], rank), ops[j].request)
    ensures !CreatesVersion(Run(reg, ops[..j], rank), ops[j].request)
  {
    hide Injective, CommitResult, CreatesVersion, WellFormed, Next;
    RunWellFormed(reg, ops[..i], rank);
    assert ops[..j] == ops[..i + 1] + ops[i + 1..j];
    RunConcat(reg, ops[..i + 1], ops[i + 1..j], rank);
    assert ops[..i + 1][..i] == ops[..i];
    NextIsCommit(Run(reg, ops[..i], rank), ops[i], rank);
    AnsweredOnce(Run(reg, ops[..i], rank), ops[i + 1..j], rank, ops[i].request, ops[j].request);
  }

  // ---- snapshots over runs -------------------------------------------------

  predicate Pins<R>(op: Op<R>, id: int) {
    match op
    case Release(released) => released != id
    case Restore(s) => s.checkpointId != id
    case _ => true
  }

  /** A begun snapshot keeps its handles until it is released or replaced by a restore, and is returned unchanged. */
  lemma {:induction false} SnapshotPinned<R>(
      reg: Registry<R>, ops: seq<Op<R>>, rank: StatePartition -> Blob, id: int, epoch: int)
    requires Injective(rank) && BeginResult(reg, id, epoch, rank).Ok?
    requires forall i :: 0 <= i < |ops| ==> Pins(ops[i], id)
    ensures var state := Run(AfterBegin(reg, id, epoch, rank), ops, rank);
      && id in state.snapshots && Ok(state.snapshots[id]) == BeginResult(reg, id, epoch, rank)
  {
    hide Injective, SortedHandles, AfterCommit;
    if ops != [] {
      SnapshotPinned(reg, ops[..|ops| - 1], rank, id, epoch);
      CommitKeepsSnapshots(Run(AfterBegin(reg, id, epoch, rank), ops[..|ops| - 1], rank), ops[|ops| - 1]);
    }
  }

  lemma CommitKeepsSnapshots<R>(reg: Registry<R>, op: Op<R>)
    ensures op.Commit? ==> AfterCommit(reg, op.request).snapshots == reg.snapshots
  {
  }

  /** Beginning it again returns the same snapshot, however much was committed since. */
  lemma BeginAgain<R>(reg: Registry<R>, ops: seq<Op<R>>, rank: StatePartition -> Blob, id: int, epoch: int, other: int)
    requires Injective(rank) && BeginResult(reg, id, epoch, rank).Ok?
    requires forall i :: 0 <= i < |ops| ==> Pins(ops[i], id)
    ensures var state := Run(AfterBegin(reg, id, epoch, rank), ops, rank);
      BeginResult(state, id, other, rank) ==
        if other == epoch then BeginResult(reg, id, epoch, rank) else Err(EpochConflict)
  {
    hide Injective, Run, SortedHandles;
    SnapshotPinned(reg, ops, rank, id, epoch);
  }

  lemma {:induction false} ByPartitionLookup<R>(handles: seq<Handle<R>>, i: nat)
    requires i < |handles|
    requires forall j, k :: 0 <= j < k < |handles| ==> handles[j].partition != handles[k].partition
    ensures handles[i].partition in ByPartition(handles) && ByPartition(handles)[handles[i].partition] == handles[i]
  {
    var last := |handles| - 1;
    if i < last {
      ByPartitionLookup(handles[..last], i);
      assert handles[i].partition != handles[last].partition;
    }
  }

  lemma {:induction false} ByPartitionKeys<R>(handles: seq<Handle<R>>, p: StatePartition) returns (i: nat)
    requires p in ByPartition(handles)
    ensures i < |handles| && handles[i].partition == p
  {
    i := |handles| - 1;
    if handles[i].partition != p {
      i := ByPartitionKeys(handles[..i], p);
    }
  }

  /** A hot restore of a fresh snapshot brings back exactly the handles that were current when it was begun. */
  lemma RestoreUndoesCommits<R>(reg: Registry<R>, later: Registry<R>, rank: StatePartition -> Blob, id: int, epoch: int)
    requires Injective(rank) && WellFormed(reg) && id !in reg.snapshots && BeginResult(reg, id, epoch, rank).Ok?
    ensures AfterRestore(later, BeginResult(reg, id, epoch, rank).value).current == reg.current
  {
    HandlesRoundTrip(reg, rank);
  }

  lemma HandlesRoundTrip<R>(reg: Registry<R>, rank: StatePartition -> Blob)
    requires Injective(rank) && WellFormed(reg)
    ensures ByPartition(SortedHandles(reg.current, rank)) == reg.current
  {
    hide Ordered, Injective, ByPartition;
    var order, handles := Ordered(reg.current.Keys, rank), SortedHandles(reg.current, rank);
    OrderedIsOrdering(reg.current.Keys, rank);
    AscendingNoDuplicates(order, rank);
    forall i | 0 <= i < |order| ensures handles[i] == reg.current[order[i]] && handles[i].partition == order[i] {
      assert order[i] in order;
    }
    forall p | p in reg.current
      ensures p in ByPartition(handles) && ByPartition(handles)[p] == reg.current[p]
    {
      assert p in order;
      var i :| 0 <= i < |order| && order[i] == p;
      ByPartitionLookup(handles, i);
    }
    forall p | p in ByPartition(handles) ensures p in reg.current {
      var i := ByPartitionKeys(handles, p);
      assert order[i] in order;
    }
  }
}

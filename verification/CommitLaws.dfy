/** Which requests the owner of hot state accepts, and what snapshots of it hold. */
module CommitLaws {
  import opened Wrappers
  import opened Bytes
  import opened Sorting
  import opened Manifests
  import opened ObjectStoreRegistry

  // ---- one request ---------------------------------------------------------

  predicate Negative<R>(r: Request<R>) {
    r.sizeBytes < 0 || r.expectedVersion < 0 || r.inputSequence < 0
  }

  /** The version and sequence asked for are the ones that the partition has already. */
  predicate AsksAgain<R>(reg: Registry<R>, r: Request<R>) {
    Version(reg, r.partition) == r.expectedVersion + 1 && Sequence(reg, r.partition) == r.inputSequence
  }

  ghost predicate OthersStay<R>(reg: Registry<R>, after: Registry<R>, p: StatePartition) {
    && after.snapshots == reg.snapshots
    && (forall q :: q in reg.current && q != p ==> q in after.current && after.current[q] == reg.current[q])
    && (forall q :: q in after.current && q != p ==> q in reg.current)
  }

  /**
    Every answer to a request, in the version and sequence that its partition has: it
    creates the next version with its own reference and size exactly when it expects that
    version and exceeds that sequence. Otherwise nothing changes, and it is a replay, or
    one of the three errors on its exact condition.
   */
  lemma CommitAnswers<R>(reg: Registry<R>, r: Request<R>)
    requires WellFormed(reg)
    ensures var p := r.partition;
      var v, q, result, after := Version(reg, p), Sequence(reg, p), CommitResult(reg, r), AfterCommit(reg, r);
      && (result == Err(InvalidArgument) <==> Negative(r))
      && (result == Err(VersionConflict) <==> !Negative(r) && r.expectedVersion != v && !AsksAgain(reg, r))
      && (result == Err(SequenceConflict) <==> !Negative(r) && r.expectedVersion == v && r.inputSequence <= q)
      && (result.Ok? <==>
            !Negative(r) && (AsksAgain(reg, r) || (r.expectedVersion == v && r.inputSequence > q)))
      && (!Negative(r) && r.expectedVersion == v && r.inputSequence > q ==>
            && result == Ok(Handle(p, v + 1, r.ref, r.inputSequence, r.sizeBytes))
            && p in after.current && after.current[p] == result.value && CreatesVersion(reg, r))
      && (!(r.expectedVersion == v && r.inputSequence > q) || Negative(r) ==>
            after == reg && !CreatesVersion(reg, r))
      && (result.Ok? && AsksAgain(reg, r) ==> p in reg.current && result.value == reg.current[p])
      && OthersStay(reg, after, p)
  {
  }

  /** A partition begins at version 0 and before every sequence; a commit moves both to what it asked for. */
  lemma VersionAndSequence<R>(reg: Registry<R>, r: Request<R>)
    requires WellFormed(reg)
    ensures r.partition !in reg.current ==>
      Version(reg, r.partition) == 0 && Sequence(reg, r.partition) == -1
    ensures CommitResult(reg, r).Ok? ==>
      && Version(AfterCommit(reg, r), r.partition) == r.expectedVersion + 1
      && Sequence(AfterCommit(reg, r), r.partition) == r.inputSequence
  {
    hide ValidateUpdate;
    if CommitResult(reg, r).Ok? {
      CommitTakesEffect(reg, r);
    }
  }

  /** Each step of a run is a call on the backend. */
  method PerformCall<R(==)>(b: ObjectStoreStateBackend<R>, op: Op<R>, rank: StatePartition -> Blob)
    requires Injective(rank)
    modifies b
    ensures b.State() == Next(old(b.State()), op, rank)
  {
    hide CommitResult, CreatesVersion, BeginResult;
    match op
    case Commit(request) =>
      var r := b.Commit(request);
    case Begin(id, epoch) =>
      var r := b.BeginSnapshot(id, epoch, rank);
    case Release(id) => b.ReleaseSnapshot(id);
    case Restore(s) => b.RestoreHot(s);
  }

  // ---- a run of requests ---------------------------------------------------

  /** The requests of a run for one partition, in order. */
  function RequestsFor<R>(ops: seq<Op<R>>, p: StatePartition): seq<Request<R>> {
    if ops == [] then
      []
    else
      var last := |ops| - 1;
      var before := RequestsFor(ops[..last], p);
      if ops[last].Commit? && ops[last].request.partition == p then before + [ops[last].request] else before
  }

  /** Each request expects the version that the one before it creates, and sequences increase. */
  ghost predicate Successive<R>(requests: seq<Request<R>>, version: int, sequence: int) {
    && (forall i :: 0 <= i < |requests| ==>
          !Negative(requests[i]) && requests[i].expectedVersion == version + i && requests[i].inputSequence > sequence)
    && (forall i, j :: 0 <= i < j < |requests| ==> requests[i].inputSequence < requests[j].inputSequence)
  }

  ghost predicate HandlesOf<R>(created: seq<Handle<R>>, requests: seq<Request<R>>) {
    && |created| == |requests|
    && forall i :: 0 <= i < |requests| ==> created[i] == Handle(
         requests[i].partition, requests[i].expectedVersion + 1, requests[i].ref, requests[i].inputSequence,
         requests[i].sizeBytes)
  }

  /**
    From any registry, with whatever calls for other partitions and snapshots in between, `n`
    successive requests for one partition create `n` versions, each with its own reference.
   */
  lemma {:induction false} SuccessiveRequestsCreate<R>(
      reg: Registry<R>, ops: seq<Op<R>>, rank: StatePartition -> Blob, p: StatePartition)
    requires Injective(rank) && WellFormed(reg) && NoRestore(ops)
    requires Successive(RequestsFor(ops, p), Version(reg, p), Sequence(reg, p))
    ensures HandlesOf(Created(reg, ops, rank, p), RequestsFor(ops, p))
    ensures var requests, end := RequestsFor(ops, p), Run(reg, ops, rank);
      && Version(end, p) == Version(reg, p) + |requests|
      && Sequence(end, p) == (if requests == [] then Sequence(reg, p) else requests[|requests| - 1].inputSequence)
  {
    hide Injective, Next, WellFormed, Successive, CommitResult, CreatesVersion, ValidateUpdate, AfterCommit, Negative;
    if ops != [] {
      var last := |ops| - 1;
      var before, state := RequestsFor(ops[..last], p), Run(reg, ops[..last], rank);
      SuccessivePrefix(RequestsFor(ops, p), before, Version(reg, p), Sequence(reg, p));
      SuccessiveRequestsCreate(reg, ops[..last], rank, p);
      RunWellFormed(reg, ops[..last], rank);
      if ops[last].Commit? && ops[last].request.partition == p {
        var r := ops[last].request;
        assert RequestsFor(ops, p)[|before|] == r;
        Newer(RequestsFor(ops, p), |before|, Version(reg, p), Sequence(reg, p));
        FreshRequest(state, r);
        NextIsCommit(state, ops[last], rank);
      } else {
        CurrentOnlyByCommit(state, ops[last], rank, p);
      }
    }
  }

  lemma FreshRequest<R>(reg: Registry<R>, r: Request<R>)
    requires WellFormed(reg) && !Negative(r)
    requires r.expectedVersion == Version(reg, r.partition) && r.inputSequence > Sequence(reg, r.partition)
    ensures CreatesVersion(reg, r) && Version(AfterCommit(reg, r), r.partition) == r.expectedVersion + 1
    ensures Sequence(AfterCommit(reg, r), r.partition) == r.inputSequence
  {
    hide ValidateUpdate, CreatesVersion;
    CommitAnswers(reg, r);
    VersionAndSequence(reg, r);
  }

  lemma SuccessivePrefix<R>(requests: seq<Request<R>>, before: seq<Request<R>>, version: int, sequence: int)
    requires Successive(requests, version, sequence) && |before| <= |requests| && requests[..|before|] == before
    ensures Successive(before, version, sequence)
  {
    assert forall i :: 0 <= i < |before| ==> before[i] == requests[i];
  }

  lemma Newer<R>(requests: seq<Request<R>>, n: nat, version: int, sequence: int)
    requires Successive(requests, version, sequence) && n < |requests|
    ensures !Negative(requests[n]) && requests[n].expectedVersion == version + n && requests[n].inputSequence > sequence
    ensures n > 0 ==> requests[n].inputSequence > requests[..n][n - 1].inputSequence
  {
  }

  // ---- snapshots -----------------------------------------------------------

  /** The handles that are current, each once and in the order of their partitions. */
  ghost predicate ListsCurrent<R>(
      handles: seq<Handle<R>>, current: map<StatePartition, Handle<R>>, rank: StatePartition -> Blob)
  {
    && |handles| == |current|
    && (forall i :: 0 <= i < |handles| ==>
          handles[i].partition in current && current[handles[i].partition] == handles[i])
    && (forall i, j :: 0 <= i < j < |handles| ==> Less(rank(handles[i].partition), rank(handles[j].partition)))
    && (forall p :: p in current ==> current[p] in handles)
  }

  /**
    A snapshot begun for the first time lists the current handles and is retained; a known id
    with another epoch is a conflict, and a negative id or epoch is refused. Handles do not move.
   */
  lemma BeginAnswers<R>(reg: Registry<R>, id: int, epoch: int, rank: StatePartition -> Blob)
    requires Injective(rank) && WellFormed(reg)
    ensures var result, after := BeginResult(reg, id, epoch, rank), AfterBegin(reg, id, epoch, rank);
      && (result == Err(EpochConflict) <==> id in reg.snapshots && reg.snapshots[id].epoch != epoch)
      && (result == Err(InvalidArgument) <==> id !in reg.snapshots && (id < 0 || epoch < 0))
      && (result.Err? ==> after == reg && (result.error == EpochConflict || result.error == InvalidArgument))
      && (result.Ok? ==> id in after.snapshots && after.snapshots[id] == result.value)
      && (result.Ok? && id in reg.snapshots ==> result.value == reg.snapshots[id])
      && (result.Ok? && id !in reg.snapshots ==>
            && result.value.checkpointId == id && result.value.epoch == epoch
            && ListsCurrent(result.value.handles, reg.current, rank))
      && after.current == reg.current
      && (forall k :: k in after.snapshots && k != id ==> k in reg.snapshots)
      && (forall k :: k in reg.snapshots ==> k in after.snapshots && after.snapshots[k] == reg.snapshots[k])
  {
    hide SortedHandles, Injective;
    HandlesListCurrent(reg, rank);
  }

  lemma HandlesListCurrent<R>(reg: Registry<R>, rank: StatePartition -> Blob)
    requires Injective(rank) && WellFormed(reg)
    ensures ListsCurrent(SortedHandles(reg.current, rank), reg.current, rank)
  {
    hide Ordered, Injective, Less;
    var order, handles := Ordered(reg.current.Keys, rank), SortedHandles(reg.current, rank);
    OrderedIsOrdering(reg.current.Keys, rank);
    forall i | 0 <= i < |order| ensures handles[i] == reg.current[order[i]] && handles[i].partition == order[i] {
      assert order[i] in order;
    }
    forall p | p in reg.current ensures reg.current[p] in handles {
      assert p in order;
      var i :| 0 <= i < |order| && order[i] == p;
      assert handles[i] == reg.current[p];
    }
    assert |reg.current| == |reg.current.Keys|;
  }

  /** A released snapshot is gone, and only that one; its id can then be begun with any epoch. */
  lemma ReleaseForgets<R>(reg: Registry<R>, id: int, epoch: nat, rank: StatePartition -> Blob)
    requires Injective(rank)
    ensures var after := AfterRelease(reg, id);
      && after.current == reg.current && id !in after.snapshots
      && (forall k :: k != id ==> (k in after.snapshots <==> k in reg.snapshots))
      && (forall k :: k != id && k in reg.snapshots ==> after.snapshots[k] == reg.snapshots[k])
      && (id >= 0 ==> BeginResult(after, id, epoch, rank).Ok?)
  {
    hide Injective, SortedHandles;
  }

  ghost predicate ValidHandles<R>(s: Snapshot<R>) {
    forall i :: 0 <= i < |s.handles| ==> s.handles[i].version >= 1 && s.handles[i].inputSequence >= 0
  }

  /**
    A hot restore retains its snapshot and makes the last handle of each partition current,
    and no others; it keeps the registry well-formed.
   */
  lemma RestoreAnswers<R>(reg: Registry<R>, s: Snapshot<R>)
    requires ValidHandles(s)
    ensures var after := AfterRestore(reg, s);
      && WellFormed(after)
      && s.checkpointId in after.snapshots && after.snapshots[s.checkpointId] == s
      && (forall k :: k != s.checkpointId ==> (k in after.snapshots <==> k in reg.snapshots))
      && (forall k :: k != s.checkpointId && k in reg.snapshots ==> after.snapshots[k] == reg.snapshots[k])
      && (forall p :: p in after.current ==> IsLastOf(s.handles, p, after.current[p]))
      && (forall i :: 0 <= i < |s.handles| ==> s.handles[i].partition in after.current)
  {
    hide ByPartition;
    forall p | p in ByPartition(s.handles) ensures IsLastOf(s.handles, p, ByPartition(s.handles)[p]) {
      LastWins(s.handles, p);
    }
    forall i | 0 <= i < |s.handles| ensures s.handles[i].partition in ByPartition(s.handles) {
      FiledUnderPartition(s.handles, i);
    }
  }

  ghost predicate IsLastOf<R>(handles: seq<Handle<R>>, p: StatePartition, h: Handle<R>) {
    exists i :: 0 <= i < |handles| && handles[i] == h && h.partition == p
      && forall j :: i < j < |handles| ==> handles[j].partition != p
  }

  lemma {:induction false} LastWins<R>(handles: seq<Handle<R>>, p: StatePartition)
    requires p in ByPartition(handles)
    ensures IsLastOf(handles, p, ByPartition(handles)[p])
  {
    var last := |handles| - 1;
    if handles[last].partition == p {
      assert handles[last] == ByPartition(handles)[p];
    } else {
      LastWins(handles[..last], p);
      var h := ByPartition(handles)[p];
      var i :| 0 <= i < last && handles[..last][i] == h && h.partition == p
        && forall j :: i < j < last ==> handles[..last][j].partition != p;
      assert handles[i] == h;
      forall j | i < j < |handles| ensures handles[j].partition != p {
        if j < last {
          assert handles[..last][j] == handles[j];
        }
      }
    }
  }

  lemma {:induction false} FiledUnderPartition<R>(handles: seq<Handle<R>>, i: nat)
    requires i < |handles|
    ensures handles[i].partition in ByPartition(handles)
  {
    var last := |handles| - 1;
    if i < last {
      FiledUnderPartition(handles[..last], i);
      assert handles[..last][i] == handles[i];
    }
  }
}

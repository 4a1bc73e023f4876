/** Crash safety, recovery and retention of the checkpoint store. */
module CheckpointLaws {
  import opened Wrappers
  import opened Bytes
  import opened Manifests
  import opened CheckpointFiles
  import P = CheckpointProtocol

  // ---- calls and crashes ---------------------------------------------------

  /**
    Everything that happens to a checkpoint root: the store's operations, any
    bytes written over a `_latest` object, and any directory made by others.
   */
  datatype Call =
    | WriteState(id: int, handle: P.Handle, payload: Blob, scope: Scope)
    | Commit(manifest: Manifest)
    | Cleanup(job: string, retained: int)
    | Delete(job: string, checkpoint: nat)
    | Overwrite(job: string, bytes: Blob)
    | MakeDir(path: Path)

  predicate Callable(call: Call) {
    match call
    case WriteState(_, handle, _, _) => P.ValidHandle(handle)
    case Commit(m) => ValidManifest(m)
    case _ => true
  }

  /** The states that a call passes through when it is not interrupted. */
  function States(env: Environment, fs: FileSystem, call: Call): seq<FileSystem>
    requires Callable(call)
  {
    match call
    case WriteState(id, handle, payload, scope) => P.WriteState(env, fs, id, handle, payload, scope).states
    case Commit(m) => P.Commit(env, fs, m).states
    case Cleanup(job, retained) => P.Cleanup(env, fs, job, retained).states
    case Delete(job, id) => [P.DeleteCheckpoint(env, fs, job, id)]
    case Overwrite(job, bytes) => [WriteBytes(fs, LatestPointer(env, job), bytes)]
    case MakeDir(path) => [MakeDirectory(fs, path)]
  }

  /** A call that a crash stops after `writes` of its steps, if it has that many. */
  datatype Attempt = Attempt(call: Call, writes: nat)

  function After(env: Environment, fs: FileSystem, a: Attempt): FileSystem
    requires Callable(a.call)
  {
    var states := States(env, fs, a.call);
    P.Final(fs, states[..if a.writes < |states| then a.writes else |states|])
  }

  function Run(env: Environment, fs: FileSystem, attempts: seq<Attempt>): FileSystem
    requires forall i :: 0 <= i < |attempts| ==> Callable(attempts[i].call)
  {
    if attempts == [] then
      fs
    else
      var last := |attempts| - 1;
      After(env, Run(env, fs, attempts[..last]), attempts[last])
  }

  // ---- the invariant -------------------------------------------------------

  /** The object of an entry lies in no checkpoint directory but the manifest's own. */
  ghost predicate OwnEntry(env: Environment, m: Manifest, e: Entry) {
    forall p, job, k: nat :: env.locate(e.uri) == Some(p) && Below(p, CheckpointDirectory(env, job, k)) ==>
      job == m.jobId && k == m.checkpointId
  }

  ghost predicate OwnsState(env: Environment, m: Manifest) {
    forall i :: 0 <= i < |m.entries| ==> OwnEntry(env, m, m.entries[i])
  }

  ghost predicate Holds(env: Environment, fs: FileSystem, job: string, id: nat, m: Manifest) {
    && ValidManifest(m) && OwnsState(env, m) && m.jobId == job && m.checkpointId == id
    && MetadataPath(env, job, id) in fs.files
    && fs.files[MetadataPath(env, job, id)] == P.ManifestBytes(env, m)
    && P.AllPresent(env, fs, m.entries)
  }

  ghost predicate Recorded(env: Environment, fs: FileSystem, job: string, id: nat) {
    exists m :: Holds(env, fs, job, id, m)
  }

  /** Metadata is what `commit` wrote, and every object it lists is there. */
  ghost predicate Sound(env: Environment, fs: FileSystem) {
    && Closed(fs)
    && forall job, id: nat :: MetadataPath(env, job, id) in fs.files ==> Recorded(env, fs, job, id)
  }

  /** Every entry that `write_state` returns may go into the manifest of its checkpoint. */
  lemma WrittenEntriesAreOwn(
      env: Environment, fs: FileSystem, id: nat, h: P.Handle, payload: Blob, scope: Scope, m: Manifest, e: Entry)
    requires Lawful(env) && P.ValidHandle(h)
    requires m.checkpointId == id && m.jobId == h.partition.jobId
    requires P.WriteState(env, fs, id, h, payload, scope).result == Ok(e)
    ensures OwnEntry(env, m, e)
    ensures P.Present(env, P.Final(fs, P.WriteState(env, fs, id, h, payload, scope).states), e)
  {
    var path := P.ObjectPath(env, id, h, payload, scope);
    forall job, k: nat | Below(path, CheckpointDirectory(env, job, k)) ensures job == m.jobId && k == id {
      StateInOwnDirectory(env, id, h.partition, h.version, scope, env.digest(payload), job, k);
    }
  }

  /** Nothing but the payload itself stands at the path. */
  predicate Unobstructed(fs: FileSystem, path: Path, payload: Blob) {
    Exists(fs, path) ==> path in fs.files && fs.files[path] == payload
  }

  /**
    What was written is read back exactly when no other bytes already stood at its
    path: an object is never rewritten, whatever an earlier write left there.
   */
  lemma WriteThenRead(env: Environment, fs: FileSystem, id: int, h: P.Handle, payload: Blob, scope: Scope, e: Entry)
    requires Lawful(env) && P.ValidHandle(h)
    requires P.WriteState(env, fs, id, h, payload, scope).result == Ok(e)
    ensures P.ReadState(env, P.Final(fs, P.WriteState(env, fs, id, h, payload, scope).states), e) == Ok(payload)
       <==> Unobstructed(fs, P.ObjectPath(env, id, h, payload, scope), payload)
  {
    hide StatePath;
    var path := P.ObjectPath(env, id, h, payload, scope);
    assert env.locate(e.uri) == Some(path);
  }

  // ---- reading metadata back -----------------------------------------------

  lemma ReadBack(env: Environment, fs: FileSystem, job: string, id: nat, m: Manifest)
    requires Lawful(env) && Holds(env, fs, job, id, m)
    ensures P.ReadManifest(env, fs, job, id) == Ok(Some(Stored(m)))
  {
    hide ToDict, FromDict, MetadataPath, Stored, ValidManifest, OwnsState, P.AllPresent, NamesAscend, Lawful,
      P.ManifestBytes;
    ManifestRoundTrip(m);
    StoredIdentity(m);
    LoadsManifest(env, m);
  }

  lemma LoadsManifest(env: Environment, m: Manifest)
    requires Lawful(env) && ValidManifest(m)
    ensures env.loads(P.ManifestBytes(env, m))
         == Some(Object(map["format_version" := Int(1), "manifest" := ToDict(m)]))
  {
    hide ToDict, ValidManifest;
    ToDictExact(m);
    var o := Object(map["format_version" := Int(1), "manifest" := ToDict(m)]);
    assert Exact(o);
  }

  lemma StoredIdentity(m: Manifest)
    ensures Stored(m).jobId == m.jobId && Stored(m).checkpointId == m.checkpointId && Stored(m).entries == m.entries
  {
  }

  /** Every discoverable manifest has all its state objects. */
  lemma DiscoverableIsComplete(env: Environment, fs: FileSystem, job: string, id: nat, m: Manifest)
    requires Lawful(env) && Sound(env, fs)
    requires P.ReadManifest(env, fs, job, id) == Ok(Some(m))
    ensures P.AllPresent(env, fs, m.entries)
  {
    hide Closed;
    assert Recorded(env, fs, job, id);
    var committed :| Holds(env, fs, job, id, committed);
    ReadBack(env, fs, job, id, committed);
    StoredIdentity(committed);
  }

  // ---- every step keeps the invariant --------------------------------------

  /** Files and directories only appear, and no metadata changes. */
  ghost predicate Extends(env: Environment, fs: FileSystem, next: FileSystem) {
    && fs.files.Keys <= next.files.Keys && fs.dirs <= next.dirs && Closed(next)
    && forall job, id: nat :: MetadataPath(env, job, id) in next.files ==>
         MetadataPath(env, job, id) in fs.files
         && next.files[MetadataPath(env, job, id)] == fs.files[MetadataPath(env, job, id)]
  }

  lemma ExtensionKeepsSound(env: Environment, fs: FileSystem, next: FileSystem)
    requires Sound(env, fs) && Extends(env, fs, next)
    ensures Sound(env, next)
  {
    hide Closed, MetadataPath;
    forall job, id: nat | MetadataPath(env, job, id) in next.files ensures Recorded(env, next, job, id) {
      assert Recorded(env, fs, job, id);
      var m :| Holds(env, fs, job, id, m);
      assert Holds(env, next, job, id, m);
    }
  }

  lemma WriteKeepsClosed(fs: FileSystem, p: Path, bytes: Blob)
    requires Closed(fs)
    ensures Closed(WriteBytes(fs, p, bytes))
  {
  }

  lemma WriteElsewhere(env: Environment, fs: FileSystem, p: Path, bytes: Blob)
    requires Sound(env, fs) && |p| != 3
    ensures Sound(env, WriteBytes(fs, p, bytes))
  {
    WriteKeepsClosed(fs, p, bytes);
    ExtensionKeepsSound(env, fs, WriteBytes(fs, p, bytes));
  }

  lemma DirectoryKeepsSound(env: Environment, fs: FileSystem, p: Path)
    requires Sound(env, fs)
    ensures Sound(env, MakeDirectory(fs, p))
  {
    ExtensionKeepsSound(env, fs, MakeDirectory(fs, p));
  }

  lemma MetadataPathInjective(env: Environment, a: string, i: nat, b: string, j: nat)
    requires Lawful(env) && MetadataPath(env, a, i) == MetadataPath(env, b, j)
    ensures a == b && i == j
  {
    NameRoundTrip(i);
    NameRoundTrip(j);
    assert MetadataPath(env, a, i)[0] == MetadataPath(env, b, j)[0];
    assert MetadataPath(env, a, i)[1] == MetadataPath(env, b, j)[1];
  }

  lemma PublishKeepsSound(env: Environment, fs: FileSystem, m: Manifest)
    requires Lawful(env) && Sound(env, fs) && ValidManifest(m) && OwnsState(env, m) && P.AllPresent(env, fs, m.entries)
    ensures Sound(env, WriteBytes(fs, MetadataPath(env, m.jobId, m.checkpointId), P.ManifestBytes(env, m)))
  {
    hide Closed, MetadataPath, P.ManifestBytes, OwnEntry, Lawful;
    var path := MetadataPath(env, m.jobId, m.checkpointId);
    var next := WriteBytes(fs, path, P.ManifestBytes(env, m));
    WriteKeepsClosed(fs, path, P.ManifestBytes(env, m));
    forall job, id: nat | MetadataPath(env, job, id) in next.files ensures Recorded(env, next, job, id) {
      if MetadataPath(env, job, id) == path {
        MetadataPathInjective(env, job, id, m.jobId, m.checkpointId);
        assert Holds(env, next, job, id, m);
      } else {
        assert Recorded(env, fs, job, id);
        var other :| Holds(env, fs, job, id, other);
        assert Holds(env, next, job, id, other);
      }
    }
  }

  lemma PathAboveParent(p: Path, dir: Path, q: Path)
    requires q in Parents(p) && Below(q, dir)
    ensures Below(p, dir)
  {
    var k :| 0 < k < |p| && q == p[..k];
    assert p[..k][..|dir|] == p[..|dir|];
  }

  lemma DeleteKeepsClosed(fs: FileSystem, dir: Path)
    requires Closed(fs)
    ensures Closed(DeleteDir(fs, dir))
  {
    var next := DeleteDir(fs, dir);
    forall p, q | p in next.files && q in Parents(p) ensures q in next.dirs {
      if Below(q, dir) {
        PathAboveParent(p, dir, q);
      }
    }
  }

  lemma OtherMetadataStays(env: Environment, fs: FileSystem, job: string, k: nat, other: string, id: nat)
    requires Lawful(env) && MetadataPath(env, other, id) in fs.files
    ensures MetadataPath(env, other, id) in P.DeleteCheckpoint(env, fs, job, k).files || (other == job && id == k)
  {
    hide MetadataPath, CheckpointDirectory, Lawful;
    var path := MetadataPath(env, other, id);
    MetadataBelow(env, other, id);
    if Below(path, CheckpointDirectory(env, job, k)) {
      DirectoriesApart(env, other, id, job, k, path);
    }
  }

  lemma DeletedMetadataGone(env: Environment, fs: FileSystem, job: string, k: nat)
    requires Closed(fs)
    ensures MetadataPath(env, job, k) !in P.DeleteCheckpoint(env, fs, job, k).files
  {
    MetadataBelow(env, job, k);
  }

  /** Deleting a checkpoint takes nothing from the others, since each owns its exclusive state. */
  lemma DeleteKeepsSound(env: Environment, fs: FileSystem, job: string, k: nat)
    requires Lawful(env) && Sound(env, fs)
    ensures Sound(env, P.DeleteCheckpoint(env, fs, job, k))
  {
    hide Closed, MetadataPath, CheckpointDirectory, P.ManifestBytes, Lawful;
    var dir, next := CheckpointDirectory(env, job, k), P.DeleteCheckpoint(env, fs, job, k);
    DeleteKeepsClosed(fs, dir);
    DeletedMetadataGone(env, fs, job, k);
    forall other, id: nat | MetadataPath(env, other, id) in next.files ensures Recorded(env, next, other, id) {
      assert Recorded(env, fs, other, id);
      var m :| Holds(env, fs, other, id, m);
      forall i | 0 <= i < |m.entries| ensures P.Present(env, next, m.entries[i]) {
        assert P.Present(env, fs, m.entries[i]) && OwnEntry(env, m, m.entries[i]);
        var p := env.locate(m.entries[i].uri).value;
        assert Below(p, dir) ==> other == job && id == k;
      }
      assert Holds(env, next, other, id, m);
    }
  }

  ghost predicate AllSound(env: Environment, states: seq<FileSystem>) {
    forall i :: 0 <= i < |states| ==> Sound(env, states[i])
  }

  lemma {:induction false} DeletionsKeepSound(env: Environment, fs: FileSystem, job: string, ids: seq<int>)
    requires Lawful(env) && Sound(env, fs) && forall i :: 0 <= i < |ids| ==> ids[i] >= 0
    ensures AllSound(env, P.Deletions(env, fs, job, ids))
  {
    hide Sound, Lawful, P.DeleteCheckpoint;
    if ids != [] {
      var last := |ids| - 1;
      DeletionsKeepSound(env, fs, job, ids[..last]);
      DeleteKeepsSound(env, P.Final(fs, P.Deletions(env, fs, job, ids[..last])), job, ids[last]);
    }
  }

  lemma CommitKeepsSound(env: Environment, fs: FileSystem, m: Manifest)
    requires Lawful(env) && Sound(env, fs) && ValidManifest(m) && OwnsState(env, m)
    ensures AllSound(env, P.Commit(env, fs, m).states)
  {
    hide Sound, Lawful, WriteBytes, P.FirstProblem, P.ManifestBytes, P.PointerBytes, OwnsState;
    var path, pointer := MetadataPath(env, m.jobId, m.checkpointId), LatestPointer(env, m.jobId);
    if P.FirstProblem(env, fs, m.entries).None? {
      PublishKeepsSound(env, fs, m);
      var published := WriteBytes(fs, path, P.ManifestBytes(env, m));
      WriteElsewhere(env, fs, pointer, P.PointerBytes(env, m.checkpointId));
      WriteElsewhere(env, published, pointer, P.PointerBytes(env, m.checkpointId));
    }
  }

  /** The states of any call keep the invariant, one after the other. */
  lemma CallKeepsSound(env: Environment, fs: FileSystem, call: Call)
    requires Lawful(env) && Sound(env, fs) && Callable(call)
    requires call.Commit? ==> OwnsState(env, call.manifest)
    ensures AllSound(env, States(env, fs, call))
  {
    hide Sound, Lawful, OwnsState, WriteBytes, MakeDirectory, P.Commit, P.Deletions, P.DeleteCheckpoint, P.Listing;
    match call
    case WriteState(id, handle, payload, scope) =>
      WriteElsewhere(env, fs, P.ObjectPath(env, id, handle, payload, scope), payload);
    case Commit(m) => CommitKeepsSound(env, fs, m);
    case Cleanup(job, retained) =>
      if retained >= 1 {
        P.RetiredNaturals(env, fs, job, retained);
        DeletionsKeepSound(env, fs, job, P.Retired(P.Listing(env, fs, job), retained));
      }
    case Delete(job, id) => DeleteKeepsSound(env, fs, job, id);
    case Overwrite(job, bytes) => WriteElsewhere(env, fs, LatestPointer(env, job), bytes);
    case MakeDir(path) => DirectoryKeepsSound(env, fs, path);
  }

  /**
    Crash safety: whatever calls are made and wherever a crash stops each of them,
    every discoverable manifest has all its state objects, provided that committed
    manifests own their exclusive state.
   */
  lemma {:induction false} CrashSafety(env: Environment, fs: FileSystem, attempts: seq<Attempt>)
    requires Lawful(env) && Sound(env, fs)
    requires forall i :: 0 <= i < |attempts| ==> Callable(attempts[i].call)
    requires forall i :: 0 <= i < |attempts| && attempts[i].call.Commit? ==> OwnsState(env, attempts[i].call.manifest)
    ensures Sound(env, Run(env, fs, attempts))
    ensures forall job, id: nat, m: Manifest :: P.ReadManifest(env, Run(env, fs, attempts), job, id) == Ok(Some(m)) ==>
      P.AllPresent(env, Run(env, fs, attempts), m.entries)
  {
    hide Sound, Lawful, OwnsState, States, P.ReadManifest, P.AllPresent;
    if attempts != [] {
      var last := |attempts| - 1;
      var before := Run(env, fs, attempts[..last]);
      CrashSafety(env, fs, attempts[..last]);
      CallKeepsSound(env, before, attempts[last].call);
    }
    forall job, id: nat, m: Manifest | P.ReadManifest(env, Run(env, fs, attempts), job, id) == Ok(Some(m))
      ensures P.AllPresent(env, Run(env, fs, attempts), m.entries)
    {
      DiscoverableIsComplete(env, Run(env, fs, attempts), job, id, m);
    }
  }

  // ---- deletion without the ownership premise ------------------------------

  /** Every discoverable manifest has its objects. */
  ghost predicate Complete(env: Environment, fs: FileSystem) {
    forall job, id: nat, m: Manifest :: P.ReadManifest(env, fs, job, id) == Ok(Some(m)) ==>
      P.AllPresent(env, fs, m.entries)
  }

  ghost predicate LiesIn(env: Environment, m: Manifest, dir: Path) {
    exists i, p :: 0 <= i < |m.entries| && env.locate(m.entries[i].uri) == Some(p) && Below(p, dir)
  }

  /** No discoverable manifest of another checkpoint lists an object in the directory of checkpoint `k`. */
  ghost predicate OthersOutside(env: Environment, fs: FileSystem, job: string, k: nat) {
    forall other, id: nat, m: Manifest ::
      P.ReadManifest(env, fs, other, id) == Ok(Some(m)) && (other != job || id != k) ==>
        !LiesIn(env, m, CheckpointDirectory(env, job, k))
  }

  /**
    Deleting a checkpoint leaves every discoverable manifest complete exactly when
    no manifest of another checkpoint lists an object inside the deleted directory.
   */
  lemma DeletionSafeIff(env: Environment, fs: FileSystem, job: string, k: nat)
    requires Lawful(env) && Closed(fs) && Complete(env, fs) && CheckpointDirectory(env, job, k) in fs.dirs
    ensures Complete(env, P.DeleteCheckpoint(env, fs, job, k)) <==>
      OthersOutside(env, fs, job, k)
  {
    hide Closed, MetadataPath, CheckpointDirectory, P.ReadManifest, Lawful, FromDict, Below;
    var dir, next := CheckpointDirectory(env, job, k), P.DeleteCheckpoint(env, fs, job, k);
    forall other, id: nat
      ensures P.ReadManifest(env, next, other, id)
           == if other == job && id == k then Ok(None) else P.ReadManifest(env, fs, other, id)
    {
      ReadAfterDelete(env, fs, job, k, other, id);
    }
    if Complete(env, next) {
      forall other, id: nat, m: Manifest
        | P.ReadManifest(env, fs, other, id) == Ok(Some(m)) && (other != job || id != k)
        ensures !LiesIn(env, m, dir)
      {
        assert P.AllPresent(env, next, m.entries);
        forall i, p | 0 <= i < |m.entries| && env.locate(m.entries[i].uri) == Some(p) ensures !Below(p, dir) {
          assert P.Present(env, next, m.entries[i]);
        }
      }
    }
    if OthersOutside(env, fs, job, k) {
      forall other, id: nat, m: Manifest | P.ReadManifest(env, next, other, id) == Ok(Some(m))
        ensures P.AllPresent(env, next, m.entries)
      {
        assert P.AllPresent(env, fs, m.entries) && !LiesIn(env, m, dir);
        forall i | 0 <= i < |m.entries| ensures P.Present(env, next, m.entries[i]) {
          assert P.Present(env, fs, m.entries[i]);
          assert !Below(env.locate(m.entries[i].uri).value, dir);
        }
      }
    }
  }

  lemma ReadAfterDelete(env: Environment, fs: FileSystem, job: string, k: nat, other: string, id: nat)
    requires Lawful(env) && Closed(fs)
    ensures P.ReadManifest(env, P.DeleteCheckpoint(env, fs, job, k), other, id)
         == if other == job && id == k then Ok(None) else P.ReadManifest(env, fs, other, id)
  {
    hide MetadataPath, CheckpointDirectory, Lawful, FromDict, Below, Closed;
    DeletedMetadataGone(env, fs, job, k);
    if MetadataPath(env, other, id) in fs.files {
      OtherMetadataStays(env, fs, job, k, other, id);
    }
  }
}

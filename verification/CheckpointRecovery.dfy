/** What a commit leaves for recovery to find: at its end, and wherever a crash stops it. */
module CheckpointRecovery {
  import opened Wrappers
  import opened IntegerSort
  import opened Manifests
  import opened CheckpointFiles
  import opened CheckpointLaws
  import opened CheckpointRetention
  import P = CheckpointProtocol

  /** The files after `k` of the writes of a commit. */
  function Stopped(env: Environment, fs: FileSystem, m: Manifest, k: nat): FileSystem
    requires ValidManifest(m) && k <= |P.Commit(env, fs, m).states|
  {
    P.Final(fs, P.Commit(env, fs, m).states[..k])
  }

  function Committed(env: Environment, fs: FileSystem, m: Manifest): FileSystem
    requires ValidManifest(m)
  {
    P.Final(fs, P.Commit(env, fs, m).states)
  }

  // ---- acceptance ----------------------------------------------------------

  /** The first commit of an id succeeds exactly when the objects it lists are there. */
  lemma FirstCommitIff(env: Environment, fs: FileSystem, m: Manifest)
    requires ValidManifest(m) && MetadataPath(env, m.jobId, m.checkpointId) !in fs.files
    ensures P.Commit(env, fs, m).result.Ok? <==> P.AllPresent(env, fs, m.entries)
  {
    hide P.AllPresent, P.ManifestBytes, P.PointerBytes;
  }

  /** Entry `i` is the first one whose object cannot be found. */
  ghost predicate FirstMissing(env: Environment, fs: FileSystem, entries: seq<Entry>, i: nat) {
    && i < |entries| && !P.Present(env, fs, entries[i])
    && forall j :: 0 <= j < i ==> P.Present(env, fs, entries[j])
  }

  lemma {:induction false} FirstProblemIs(env: Environment, fs: FileSystem, entries: seq<Entry>, i: nat)
    requires FirstMissing(env, fs, entries, i)
    ensures P.FirstProblem(env, fs, entries) == Some(
      if env.locate(entries[i].uri).None? then P.ForeignUri(entries[i].uri) else P.MissingObject(entries[i].uri))
  {
    hide P.Present;
    if i > 0 {
      assert P.Present(env, fs, entries[0]);
      var rest := entries[1..];
      assert !P.Present(env, fs, rest[i - 1]);
      forall j | 0 <= j < i - 1 ensures P.Present(env, fs, rest[j]) {
        assert rest[j] == entries[j + 1];
      }
      FirstProblemIs(env, fs, rest, i - 1);
    }
  }

  /**
    A refused commit writes nothing. It names the first entry whose object is missing, by whether its
    location is inside the root; with all objects there, only other metadata is refused.
   */
  lemma CommitRefusal(env: Environment, fs: FileSystem, m: Manifest)
    requires ValidManifest(m)
    ensures P.Commit(env, fs, m).result.Err? ==> P.Commit(env, fs, m).states == []
    ensures forall i: nat :: FirstMissing(env, fs, m.entries, i) ==> P.Commit(env, fs, m).result == Err(
      if env.locate(m.entries[i].uri).None? then P.ForeignUri(m.entries[i].uri)
      else P.MissingObject(m.entries[i].uri))
    ensures P.AllPresent(env, fs, m.entries) && P.Commit(env, fs, m).result.Err? ==>
      && P.Commit(env, fs, m).result.error == P.DifferentMetadata
      && MetadataPath(env, m.jobId, m.checkpointId) in fs.files
  {
    hide P.ManifestBytes, P.PointerBytes, P.Present;
    forall i: nat | FirstMissing(env, fs, m.entries, i) ensures P.Commit(env, fs, m).result == Err(
      if env.locate(m.entries[i].uri).None? then P.ForeignUri(m.entries[i].uri)
      else P.MissingObject(m.entries[i].uri))
    {
      FirstProblemIs(env, fs, m.entries, i);
    }
  }

  // ---- the order of the writes ---------------------------------------------

  /**
    A commit writes the metadata, unless it is already there, and then the pointer; after a
    crash the pointer has moved only if the metadata is there. No other file changes.
   */
  lemma CommitOrder(env: Environment, fs: FileSystem, m: Manifest, k: nat)
    requires ValidManifest(m) && P.Commit(env, fs, m).result.Ok? && k <= |P.Commit(env, fs, m).states|
    ensures var path, pointer := MetadataPath(env, m.jobId, m.checkpointId), LatestPointer(env, m.jobId);
      var steps, stopped := |P.Commit(env, fs, m).states|, Stopped(env, fs, m, k);
      && steps == (if path in fs.files then 1 else 2)
      && (k == 0 ==> stopped == fs)
      && (k > 0 ==> path in stopped.files && stopped.files[path] == P.ManifestBytes(env, m))
      && (k == steps ==> pointer in stopped.files && stopped.files[pointer] == P.PointerBytes(env, m.checkpointId))
      && (k < steps ==> SameFile(fs, stopped, pointer))
      && (forall p :: p != path && p != pointer ==> SameFile(fs, stopped, p))
  {
    hide P.ManifestBytes, P.PointerBytes, P.FirstProblem;
    var states := P.Commit(env, fs, m).states;
    assert |MetadataPath(env, m.jobId, m.checkpointId)| == 3 && |LatestPointer(env, m.jobId)| == 2;
    assert k > 0 ==> Stopped(env, fs, m, k) == states[k - 1];
  }

  // ---- the directories of a job --------------------------------------------

  /** The scan meets exactly the directories that stand directly below the job's own. */
  lemma NamesAre(env: Environment, fs: FileSystem, job: string, name: string)
    ensures name in P.Names(env, fs, job) <==> [env.quote(job), name] in fs.dirs
  {
    if [env.quote(job), name] in fs.dirs {
      assert [env.quote(job), name][1] == name;
    }
    if name in P.Names(env, fs, job) {
      var p :| p in fs.dirs && |p| == 2 && p[0] == env.quote(job) && p[1] == name;
      assert p == [env.quote(job), name];
    }
  }

  // ---- the pointer ---------------------------------------------------------

  /** What a commit writes over the pointer decodes to the object of the format, and the reader finds the id in it. */
  lemma PointerAfterCommit(env: Environment, fs: FileSystem, m: Manifest)
    requires Lawful(env) && ValidManifest(m) && P.Commit(env, fs, m).result.Ok?
    ensures var after, pointer := Committed(env, fs, m), LatestPointer(env, m.jobId);
      && pointer in after.files
      && env.loads(after.files[pointer])
         == Some(Object(map["format_version" := Int(1), "checkpoint_id" := Int(m.checkpointId)]))
      && P.PointerId(env, after, m.jobId) == Ok(Some(m.checkpointId))
  {
    hide P.Commit, LatestPointer, P.PointerBytes, P.ManifestBytes, Lawful;
    var states := P.Commit(env, fs, m).states;
    assert states[..|states|] == states;
    CommitOrder(env, fs, m, |states|);
    LoadsPointer(env, m.checkpointId);
  }

  lemma LoadsPointer(env: Environment, id: int)
    requires Lawful(env)
    ensures env.loads(P.PointerBytes(env, id))
         == Some(Object(map["format_version" := Int(1), "checkpoint_id" := Int(id)]))
  {
    var o := Object(map["format_version" := Int(1), "checkpoint_id" := Int(id)]);
    assert Exact(o);
  }

  /** `int` of a float drops its fraction, towards zero. */
  lemma TruncatesTowardsZero(n: int, d: Positive)
    ensures var t := P.Truncated(n, d);
      && (n >= 0 ==> t * d <= n < (t + 1) * d)
      && (n < 0 ==> (t - 1) * d < n <= t * d)
  {
    var m := if n >= 0 then n else -n;
    assert m == (m / d) * d + m % d;
    if n < 0 {
      var q := m / d;
      assert (-q - 1) * d == -(q * d) - d && (-q) * d == -(q * d);
    } else {
      assert (m / d + 1) * d == (m / d) * d + d;
    }
  }

  /**
    What the reader makes of a pointer object of the format, for each kind of id in it; any other
    version, a missing id, and a file that is no JSON text are passed over.
   */
  lemma PointerReads(env: Environment, fs: FileSystem, job: string, fields: map<string, Json>)
    requires LatestPointer(env, job) in fs.files && env.loads(fs.files[LatestPointer(env, job)]) == Some(Object(fields))
    ensures var r := P.PointerId(env, fs, job);
      var ours := "format_version" in fields && "checkpoint_id" in fields && IsOne(fields["format_version"]);
      && (!ours ==> r == Ok(None))
      && (ours ==> var id := fields["checkpoint_id"];
            && (id.Int? ==> r == Ok(Some(id.n)))
            && (id.Bool? ==> r == Ok(Some(if id.b then 1 else 0)))
            && (id.Real? && id.x.Finite? ==> r == Ok(Some(P.Truncated(id.x.numerator, id.x.denominator))))
            && (id.Real? && id.x.Infinite? ==> r == Err(P.InfiniteId))
            && (id.Text? ==> r == Ok(env.parseInt(id.s)))
            && (id.Null? || id.List? || id.Object? || (id.Real? && id.x.NotANumber?) ==> r == Ok(None)))
  {
    hide LatestPointer, P.Truncated;
  }

  /** The number one, as an integer, a boolean or a float in any terms. */
  predicate IsOne(j: Json) {
    (j.Int? && j.n == 1) || (j.Bool? && j.b) || (j.Real? && j.x.Finite? && j.x.numerator - j.x.denominator == 0)
  }

  /** No pointer, or one that is no JSON text, is passed over. */
  lemma NoPointer(env: Environment, fs: FileSystem, job: string)
    requires LatestPointer(env, job) in fs.files ==> env.loads(fs.files[LatestPointer(env, job)]) == None
    ensures P.PointerId(env, fs, job) == Ok(None)
  {
    hide LatestPointer;
  }

  lemma SamePointer(env: Environment, a: FileSystem, b: FileSystem, job: string)
    requires SameFile(a, b, LatestPointer(env, job))
    ensures P.PointerId(env, b, job) == P.PointerId(env, a, job)
  {
    hide LatestPointer, P.ToInt;
  }

  lemma SameMetadata(env: Environment, a: FileSystem, b: FileSystem, job: string, id: nat)
    requires SameFile(a, b, MetadataPath(env, job, id))
    ensures P.ReadManifest(env, b, job, id) == P.ReadManifest(env, a, job, id)
  {
    hide MetadataPath, FromDict;
  }

  // ---- recovery ------------------------------------------------------------

  /** From the first write on, exactly the committed id has joined the completed ones. */
  lemma CommitCompletes(env: Environment, fs: FileSystem, m: Manifest, k: nat)
    requires Lawful(env) && Sound(env, fs) && ValidManifest(m) && OwnsState(env, m)
    requires P.Commit(env, fs, m).result.Ok? && 0 < k <= |P.Commit(env, fs, m).states|
    ensures Completed(env, Stopped(env, fs, m, k), m.jobId) == Completed(env, fs, m.jobId) + {m.checkpointId}
  {
    hide P.Commit, MetadataPath, LatestPointer, P.ManifestBytes, P.PointerBytes, Sound, Lawful, Completed;
    var stopped := Stopped(env, fs, m, k);
    StoppedSound(env, fs, m, k);
    SoundIsClosed(env, fs);
    SoundIsClosed(env, stopped);
    CommitOrder(env, fs, m, k);
    forall id ensures id in Completed(env, stopped, m.jobId) <==>
      id in Completed(env, fs, m.jobId) || id == m.checkpointId
    {
      CompletedIff(env, fs, m.jobId, id);
      CompletedIff(env, stopped, m.jobId, id);
      if id >= 0 && id != m.checkpointId {
        OtherFile(env, fs, m, k, m.jobId, id);
      }
    }
  }

  lemma StoppedSound(env: Environment, fs: FileSystem, m: Manifest, k: nat)
    requires Lawful(env) && Sound(env, fs) && ValidManifest(m) && OwnsState(env, m)
    requires k <= |P.Commit(env, fs, m).states|
    ensures Sound(env, Stopped(env, fs, m, k))
  {
    hide Sound, P.Commit;
    CommitKeepsSound(env, fs, m);
  }

  lemma OtherFile(env: Environment, fs: FileSystem, m: Manifest, k: nat, job: string, id: nat)
    requires Lawful(env) && ValidManifest(m)
    requires P.Commit(env, fs, m).result.Ok? && k <= |P.Commit(env, fs, m).states|
    requires job != m.jobId || id != m.checkpointId
    ensures SameFile(fs, Stopped(env, fs, m, k), MetadataPath(env, job, id))
  {
    hide P.Commit, P.ManifestBytes, P.PointerBytes, SameFile, Lawful;
    CommitOrder(env, fs, m, k);
    assert |MetadataPath(env, job, id)| == 3 && |LatestPointer(env, m.jobId)| == 2;
    if MetadataPath(env, job, id) == MetadataPath(env, m.jobId, m.checkpointId) {
      MetadataPathInjective(env, job, id, m.jobId, m.checkpointId);
    }
  }

  /**
    What recovery finds after a commit, once its metadata is there: the manifest of the highest
    id among those committed before and this one, which for this one is the manifest as stored.
   */
  ghost predicate Recovers(env: Environment, fs: FileSystem, m: Manifest, after: FileSystem) {
    var top := MaxOf(Completed(env, fs, m.jobId) + {m.checkpointId});
    && top >= 0
    && P.Latest(env, after, m.jobId)
       == (if top == m.checkpointId then Ok(Some(Stored(m))) else P.ReadManifest(env, fs, m.jobId, top))
    && P.Latest(env, after, m.jobId).Ok? && P.Latest(env, after, m.jobId).value.Some?
  }

  lemma CommittedManifestReads(env: Environment, fs: FileSystem, m: Manifest, k: nat)
    requires Lawful(env) && ValidManifest(m) && OwnsState(env, m)
    requires P.Commit(env, fs, m).result.Ok? && 0 < k <= |P.Commit(env, fs, m).states|
    ensures P.ReadManifest(env, Stopped(env, fs, m, k), m.jobId, m.checkpointId) == Ok(Some(Stored(m)))
  {
    hide Lawful, P.ReadManifest, P.ManifestBytes, P.PointerBytes, MetadataPath, LatestPointer, Stored, OwnsState,
      P.Present, P.FirstProblem;
    CommitOrder(env, fs, m, k);
    assert P.AllPresent(env, fs, m.entries);
    forall i | 0 <= i < |m.entries| ensures P.Present(env, Stopped(env, fs, m, k), m.entries[i]) {
      StillPresent(env, fs, m, k, m.entries[i]);
    }
    assert Holds(env, Stopped(env, fs, m, k), m.jobId, m.checkpointId, m);
    ReadBack(env, Stopped(env, fs, m, k), m.jobId, m.checkpointId, m);
  }

  /**
    Recovery after a crash at any point of a commit. Before the metadata is written it finds what
    it found before; from then on, with the pointer moved or not, the highest committed manifest.
   */
  lemma LatestAfterCrash(env: Environment, fs: FileSystem, m: Manifest, k: nat)
    requires Lawful(env) && Sound(env, fs) && ValidManifest(m) && OwnsState(env, m)
    requires P.Commit(env, fs, m).result.Ok? && k <= |P.Commit(env, fs, m).states|
    requires k < |P.Commit(env, fs, m).states| ==> P.PointerId(env, fs, m.jobId).Ok?
    ensures k == 0 ==> P.Latest(env, Stopped(env, fs, m, k), m.jobId) == P.Latest(env, fs, m.jobId)
    ensures k > 0 ==> Recovers(env, fs, m, Stopped(env, fs, m, k))
  {
    hide P.Commit, P.Latest, P.PointerId, P.ReadManifest, Sound, Lawful, Completed, MetadataPath, LatestPointer,
      P.ManifestBytes, P.PointerBytes, OwnsState, Stored;
    var stopped, job := Stopped(env, fs, m, k), m.jobId;
    CommitOrder(env, fs, m, k);
    if k > 0 {
      var states := P.Commit(env, fs, m).states;
      if k == |states| {
        assert states[..k] == states;
        PointerAfterCommit(env, fs, m);
      } else {
        SamePointer(env, fs, stopped, job);
      }
      StoppedSound(env, fs, m, k);
      CommitCompletes(env, fs, m, k);
      LatestIsHighestCommitted(env, stopped, job);
      CommittedManifestReads(env, fs, m, k);
      var top := MaxOf(Completed(env, fs, job) + {m.checkpointId});
      if top != m.checkpointId {
        OtherFile(env, fs, m, k, job, top);
        SameMetadata(env, fs, stopped, job, top);
      }
    }
  }

  /** After a successful commit recovery finds the highest committed manifest, whatever the pointer held before. */
  lemma LatestAfterCommit(env: Environment, fs: FileSystem, m: Manifest)
    requires Lawful(env) && Sound(env, fs) && ValidManifest(m) && OwnsState(env, m)
    requires P.Commit(env, fs, m).result.Ok?
    ensures Recovers(env, fs, m, Committed(env, fs, m))
    ensures Completed(env, Committed(env, fs, m), m.jobId) == Completed(env, fs, m.jobId) + {m.checkpointId}
  {
    hide P.Commit, Recovers, Sound, OwnsState, Lawful, Completed;
    var states := P.Commit(env, fs, m).states;
    assert states[..|states|] == states;
    CommitOrder(env, fs, m, |states|);
    LatestAfterCrash(env, fs, m, |states|);
    CommitCompletes(env, fs, m, |states|);
  }

  lemma {:induction false} TriedAlike(env: Environment, a: FileSystem, b: FileSystem, job: string, ids: set<int>)
    requires P.Naturals(ids)
    requires forall id: nat :: P.ReadManifest(env, b, job, id) == P.ReadManifest(env, a, job, id)
    ensures P.NewestReadable(env, b, job, ids) == P.NewestReadable(env, a, job, ids)
  {
    hide P.ReadManifest;
    if ids != {} {
      TriedAlike(env, a, b, job, ids - {MaxOf(ids)});
    }
  }

  /** A commit does not change what recovery finds for another job. */
  lemma OtherJobsUnaffected(env: Environment, fs: FileSystem, m: Manifest, job: string)
    requires Lawful(env) && Sound(env, fs) && ValidManifest(m) && OwnsState(env, m)
    requires P.Commit(env, fs, m).result.Ok? && job != m.jobId
    ensures Completed(env, Committed(env, fs, m), job) == Completed(env, fs, job)
    ensures P.PointerId(env, Committed(env, fs, m), job) == P.PointerId(env, fs, job)
    ensures P.PointerId(env, fs, job).Ok? ==> P.Latest(env, Committed(env, fs, m), job) == P.Latest(env, fs, job)
  {
    hide P.Commit, Sound, P.PointerId, P.ReadManifest, P.Listing, P.Candidates, P.NewestReadable, P.ManifestBytes,
      P.PointerBytes, OwnsState, MetadataPath, SameFile;
    var states, after := P.Commit(env, fs, m).states, Committed(env, fs, m);
    assert states[..|states|] == states;
    CommitOrder(env, fs, m, |states|);
    StoppedSound(env, fs, m, |states|);
    SoundIsClosed(env, fs);
    SoundIsClosed(env, after);
    forall id: nat ensures SameFile(fs, after, MetadataPath(env, job, id)) {
      OtherFile(env, fs, m, |states|, job, id);
    }
    forall id ensures id in Completed(env, after, job) <==> id in Completed(env, fs, job) {
      CompletedIff(env, fs, job, id);
      CompletedIff(env, after, job, id);
      if id >= 0 {
        SameIn(fs, after, MetadataPath(env, job, id));
      }
    }
    assert LatestPointer(env, job)[0] != LatestPointer(env, m.jobId)[0];
    assert LatestPointer(env, job) != MetadataPath(env, m.jobId, m.checkpointId) by { ThreeLong(env, m); }
    SamePointer(env, fs, after, job);
    if job != "" && P.PointerId(env, fs, job).Ok? {
      forall id: nat ensures P.ReadManifest(env, after, job, id) == P.ReadManifest(env, fs, job, id) {
        SameMetadata(env, fs, after, job, id);
      }
      var pointer := P.PointerId(env, fs, job).value;
      P.ListingNaturals(env, fs, job);
      P.ListingNaturals(env, after, job);
      CandidatesOf(pointer, P.Listing(env, fs, job));
      CandidatesOf(pointer, P.Listing(env, after, job));
      TriedAlike(env, fs, after, job, P.Candidates(pointer, P.Listing(env, fs, job)));
    }
  }

  lemma SameIn(a: FileSystem, b: FileSystem, p: Path)
    requires SameFile(a, b, p)
    ensures p in a.files <==> p in b.files
  {
  }

  lemma ThreeLong(env: Environment, m: Manifest)
    requires ValidManifest(m)
    ensures |MetadataPath(env, m.jobId, m.checkpointId)| == 3
  {
  }
}

/**
  What each operation of the checkpoint store does to the files: the states that
  its atomic writes and directory deletions pass through, in order, and its result.
  A crash stops an operation after any number of them.
 */
module CheckpointProtocol {
  import opened Wrappers
  import opened Bytes
  import opened Sorting
  import opened IntegerSort
  import opened Manifests
  import opened Texts
  import opened CheckpointFiles

  datatype StoreError =
    | EmptyJobId
    | NegativeCheckpointId
    | RetainedCount
    | ForeignUri(uri: string)
    | MissingObject(uri: string)
    | DifferentMetadata
    | SizeMismatch
    | ChecksumMismatch
    | NotAnObject    // AttributeError: a JSON text that is not an object
    | InfiniteId     // OverflowError: `int` of an infinite number

  datatype Outcome<T> = Outcome(states: seq<FileSystem>, result: Result<T, StoreError>)

  function Final(fs: FileSystem, states: seq<FileSystem>): FileSystem {
    if states == [] then fs else states[|states| - 1]
  }

  // ---- state objects -------------------------------------------------------

  datatype Handle = Handle(partition: StatePartition, version: int, inputSequence: int)

  /** The checks of `StatePartition.__post_init__` and `StateHandle.__post_init__`. */
  predicate ValidHandle(h: Handle) {
    && h.partition.jobId != "" && h.partition.operatorId != "" && h.partition.keyGroup >= 0
    && h.version >= 1 && h.inputSequence >= 0
  }

  function Checksum(env: Environment, payload: Blob): string {
    "sha256:" + env.digest(payload)
  }

  /** Where `write_state` puts a payload; only an exclusive object's place depends on the checkpoint. */
  function ObjectPath(env: Environment, id: int, h: Handle, payload: Blob, scope: Scope): Path
    requires ValidHandle(h)
  {
    StatePath(env, if id < 0 then 0 else id, h.partition, h.version, scope, env.digest(payload))
  }

  function WriteState(env: Environment, fs: FileSystem, id: int, h: Handle, payload: Blob, scope: Scope)
    : Outcome<Entry>
    requires ValidHandle(h)
  {
    if scope == Exclusive && id < 0 then
      Outcome([], Err(NegativeCheckpointId))
    else
      var path := ObjectPath(env, id, h, payload, scope);
      var entry := Entry(
        h.partition, h.version, h.inputSequence, env.uri(path), Checksum(env, payload), |payload|, scope);
      Outcome(if Exists(fs, path) then [] else [WriteBytes(fs, path, payload)], Ok(entry))
  }

  function ReadState(env: Environment, fs: FileSystem, e: Entry): Result<Blob, StoreError> {
    match env.locate(e.uri)
    case None => Err(ForeignUri(e.uri))
    case Some(path) =>
      if path !in fs.files then Err(MissingObject(e.uri))
      else if |fs.files[path]| != e.sizeBytes then Err(SizeMismatch)
      else if Checksum(env, fs.files[path]) != e.checksum then Err(ChecksumMismatch)
      else Ok(fs.files[path])
  }

  // ---- commit --------------------------------------------------------------

  predicate Present(env: Environment, fs: FileSystem, e: Entry) {
    env.locate(e.uri).Some? && Exists(fs, env.locate(e.uri).value)
  }

  predicate AllPresent(env: Environment, fs: FileSystem, entries: seq<Entry>) {
    forall i :: 0 <= i < |entries| ==> Present(env, fs, entries[i])
  }

  function EntryProblem(env: Environment, fs: FileSystem, e: Entry): (r: Option<StoreError>)
    ensures r.None? <==> Present(env, fs, e)
  {
    match env.locate(e.uri)
    case None => Some(ForeignUri(e.uri))
    case Some(path) => if Exists(fs, path) then None else Some(MissingObject(e.uri))
  }

  /** The first entry whose object is missing decides the error. */
  function FirstProblem(env: Environment, fs: FileSystem, entries: seq<Entry>): (r: Option<StoreError>)
    ensures r.None? <==> AllPresent(env, fs, entries)
  {
    if entries == [] then None
    else
      var p := EntryProblem(env, fs, entries[0]);
      assert entries == [entries[0]] + entries[1..];
      if p.Some? then p else FirstProblem(env, fs, entries[1..])
  }

  function ManifestBytes(env: Environment, m: Manifest): Blob {
    env.dumps(Object(map["format_version" := Int(1), "manifest" := ToDict(m)]))
  }

  function PointerBytes(env: Environment, id: int): Blob {
    env.dumps(Object(map["format_version" := Int(1), "checkpoint_id" := Int(id)]))
  }

  function Commit(env: Environment, fs: FileSystem, m: Manifest): Outcome<()>
    requires ValidManifest(m)
  {
    var problem := FirstProblem(env, fs, m.entries);
    var path, pointer := MetadataPath(env, m.jobId, m.checkpointId), LatestPointer(env, m.jobId);
    if problem.Some? then
      Outcome([], Err(problem.value))
    else if path in fs.files then
      if fs.files[path] != ManifestBytes(env, m) then
        Outcome([], Err(DifferentMetadata))
      else
        Outcome([WriteBytes(fs, pointer, PointerBytes(env, m.checkpointId))], Ok(()))
    else
      var published := WriteBytes(fs, path, ManifestBytes(env, m));
      Outcome([published, WriteBytes(published, pointer, PointerBytes(env, m.checkpointId))], Ok(()))
  }

  // ---- recovery ------------------------------------------------------------

  /** `x == 1` in Python. */
  predicate EqualsOne(j: Json) {
    j == Int(1) || j == Bool(true) || (j.Real? && j.x.Finite? && j.x.numerator == j.x.denominator)
  }

  /** The ratio without its fraction. */
  function Truncated(n: int, d: Positive): int {
    if n >= 0 then n / d else -(-n / d)
  }

  /** `int(value)`: `Ok(None)` for the exceptions that `latest` catches. */
  function ToInt(env: Environment, j: Json): Result<Option<int>, StoreError> {
    match j
    case Int(n) => Ok(Some(n))
    case Bool(b) => Ok(Some(if b then 1 else 0))
    case Real(Finite(n, d)) => Ok(Some(Truncated(n, d)))
    case Real(Infinite) => Err(InfiniteId)
    case Text(s) => Ok(env.parseInt(s))
    case _ => Ok(None)
  }

  /** The id in the `_latest` object, if it can be read at all. */
  function PointerId(env: Environment, fs: FileSystem, job: string): Result<Option<int>, StoreError> {
    var pointer := LatestPointer(env, job);
    if pointer !in fs.files then
      Ok(None)
    else
      match env.loads(fs.files[pointer])
      case None => Ok(None)
      case Some(Object(fields)) =>
        if !("format_version" in fields && EqualsOne(fields["format_version"])) then Ok(None)
        else if "checkpoint_id" !in fields then Ok(None)
        else ToInt(env, fields["checkpoint_id"])
      case Some(_) => Err(NotAnObject)
  }

  function ReadManifest(env: Environment, fs: FileSystem, job: string, id: nat): Result<Option<Manifest>, StoreError> {
    var path := MetadataPath(env, job, id);
    if path !in fs.files then
      Ok(None)
    else
      match env.loads(fs.files[path])
      case None => Ok(None)
      case Some(Object(fields)) => (
        if !("format_version" in fields && EqualsOne(fields["format_version"])) || "manifest" !in fields then
          Ok(None)
        else
          match FromDict(fields["manifest"])
          case None => Ok(None)
          case Some(m) => Ok(if m.jobId != job || m.checkpointId != id then None else Some(m))
      )
      case Some(_) => Err(NotAnObject)
  }

  /** Names of the directories directly below the job's directory. */
  function Names(env: Environment, fs: FileSystem, job: string): set<string> {
    set p | p in fs.dirs && |p| == 2 && p[0] == env.quote(job) :: p[1]
  }

  /** Whether the scan counts a directory as checkpoint `id`. */
  predicate Denotes(env: Environment, fs: FileSystem, job: string, name: string, id: int) {
    id >= 0 && CheckpointIdOf(name) == Some(id) && MetadataPath(env, job, id) in fs.files
  }

  /** The ids that the scan appends, in the order in which it meets the directories. */
  function ScannedIds(env: Environment, fs: FileSystem, job: string, names: seq<string>): (ids: seq<int>)
    ensures forall i :: 0 <= i < |ids| ==> ids[i] >= 0
  {
    if names == [] then
      []
    else
      var last := |names| - 1;
      var before, id := ScannedIds(env, fs, job, names[..last]), CheckpointIdOf(names[last]);
      if id.Some? && MetadataPath(env, job, id.value) in fs.files then before + [id.value] else before
  }

  /** `list_completed_checkpoints`. */
  function Listing(env: Environment, fs: FileSystem, job: string): seq<int> {
    RanksInjective();
    SortInts(ScannedIds(env, fs, job, Ordered(Names(env, fs, job), Rank)))
  }

  ghost predicate Naturals(ids: set<int>) {
    forall i :: i in ids ==> i >= 0
  }

  /** Trying the ids from the largest down until one has a manifest. */
  ghost function NewestReadable(env: Environment, fs: FileSystem, job: string, ids: set<int>)
    : Result<Option<Manifest>, StoreError>
    requires Naturals(ids)
  {
    if ids == {} then
      Ok(None)
    else
      var id := MaxOf(ids);
      var read := ReadManifest(env, fs, job, id);
      if read == Ok(None) then NewestReadable(env, fs, job, ids - {id}) else read
  }

  function Candidates(pointer: Option<int>, listing: seq<int>): set<int> {
    (set id | id in listing) + if pointer.Some? && pointer.value >= 0 then {pointer.value} else {}
  }

  lemma {:induction false} CountScanned(env: Environment, fs: FileSystem, job: string, names: seq<string>, id: int)
    requires NoDuplicates(names)
    ensures multiset(ScannedIds(env, fs, job, names))[id] == |set n | n in names && Denotes(env, fs, job, n, id)|
  {
    hide CheckpointIdOf, MetadataPath;
    if names != [] {
      var last := |names| - 1;
      var init := names[..last];
      CountScanned(env, fs, job, init, id);
      var before := set n | n in init && Denotes(env, fs, job, n, id);
      var after := set n | n in names && Denotes(env, fs, job, n, id);
      assert names == init + [names[last]];
      if Denotes(env, fs, job, names[last], id) {
        assert after == before + {names[last]};
      } else {
        assert after == before;
      }
    }
  }

  /** The scan counts every id once for each directory that denotes it, in any order of the directories. */
  lemma ScanCounts(env: Environment, fs: FileSystem, job: string, id: int)
    ensures multiset(Listing(env, fs, job))[id] == |set n | n in Names(env, fs, job) && Denotes(env, fs, job, n, id)|
  {
    RanksInjective();
    var names := Ordered(Names(env, fs, job), Rank);
    OrderedIsOrdering(Names(env, fs, job), Rank);
    AscendingNoDuplicates(names, Rank);
    CountScanned(env, fs, job, names, id);
    assert (set n | n in names && Denotes(env, fs, job, n, id))
        == (set n | n in Names(env, fs, job) && Denotes(env, fs, job, n, id));
  }

  lemma ScanOrderIrrelevant(env: Environment, fs: FileSystem, job: string, names: seq<string>)
    requires NoDuplicates(names) && forall n :: n in names <==> n in Names(env, fs, job)
    ensures SortInts(ScannedIds(env, fs, job, names)) == Listing(env, fs, job)
  {
    RanksInjective();
    var ordered := Ordered(Names(env, fs, job), Rank);
    OrderedIsOrdering(Names(env, fs, job), Rank);
    AscendingNoDuplicates(ordered, Rank);
    var a, b := ScannedIds(env, fs, job, names), ScannedIds(env, fs, job, ordered);
    forall id ensures multiset(a)[id] == multiset(b)[id] {
      CountScanned(env, fs, job, names, id);
      CountScanned(env, fs, job, ordered, id);
      assert (set n | n in names && Denotes(env, fs, job, n, id))
          == (set n | n in ordered && Denotes(env, fs, job, n, id));
    }
    SortOfPermutation(a, b);
  }

  lemma SortedNaturals(ids: seq<int>)
    requires forall i :: 0 <= i < |ids| ==> ids[i] >= 0
    ensures forall i :: 0 <= i < |SortInts(ids)| ==> SortInts(ids)[i] >= 0
  {
    forall i | 0 <= i < |SortInts(ids)| ensures SortInts(ids)[i] >= 0 {
      InSorted(ids, SortInts(ids)[i]);
    }
  }

  /** The listing has no negative ids. */
  lemma ListingNaturals(env: Environment, fs: FileSystem, job: string)
    ensures Naturals(set id | id in Listing(env, fs, job))
    ensures forall i :: 0 <= i < |Listing(env, fs, job)| ==> Listing(env, fs, job)[i] >= 0
  {
    hide ScannedIds, Names, SortInts;
    RanksInjective();
    var scanned := ScannedIds(env, fs, job, Ordered(Names(env, fs, job), Rank));
    SortedNaturals(scanned);
  }

  ghost function Latest(env: Environment, fs: FileSystem, job: string): Result<Option<Manifest>, StoreError> {
    if job == "" then
      Err(EmptyJobId)
    else
      match PointerId(env, fs, job)
      case Err(e) => Err(e)
      case Ok(pointer) =>
        ListingNaturals(env, fs, job);
        NewestReadable(env, fs, job, Candidates(pointer, Listing(env, fs, job)))
  }

  // ---- retention -----------------------------------------------------------

  function DeleteCheckpoint(env: Environment, fs: FileSystem, job: string, id: nat): FileSystem {
    var dir := CheckpointDirectory(env, job, id);
    if Exists(fs, dir) then DeleteDir(fs, dir) else fs
  }

  /** `checkpoint_ids[:-retained_count]`. */
  function Retired(listing: seq<int>, r: int): seq<int>
    requires r >= 1
  {
    listing[..if |listing| > r then |listing| - r else 0]
  }

  /** The states that deleting the ids one after another passes through. */
  function Deletions(env: Environment, fs: FileSystem, job: string, ids: seq<int>): (states: seq<FileSystem>)
    requires forall i :: 0 <= i < |ids| ==> ids[i] >= 0
    ensures |states| == |ids|
  {
    if ids == [] then
      []
    else
      var last := |ids| - 1;
      var before := Deletions(env, fs, job, ids[..last]);
      before + [DeleteCheckpoint(env, Final(fs, before), job, ids[last])]
  }

  lemma RetiredNaturals(env: Environment, fs: FileSystem, job: string, r: int)
    requires r >= 1
    ensures forall i :: 0 <= i < |Retired(Listing(env, fs, job), r)| ==> Retired(Listing(env, fs, job), r)[i] >= 0
  {
    hide Listing;
    ListingNaturals(env, fs, job);
  }

  function Cleanup(env: Environment, fs: FileSystem, job: string, r: int): Outcome<()> {
    if r < 1 then
      Outcome([], Err(RetainedCount))
    else if job == "" then
      Outcome([], Err(EmptyJobId))
    else
      RetiredNaturals(env, fs, job, r);
      Outcome(Deletions(env, fs, job, Retired(Listing(env, fs, job), r)), Ok(()))
  }
}

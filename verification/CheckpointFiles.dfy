/** The files of a checkpoint root and their layout (checkpoint_file_system.py, checkpoint_layout.py). */
module CheckpointFiles {
  import opened Wrappers
  import opened Bytes
  import opened Decimals
  import opened Manifests

  /** A path below the checkpoint root, as its components. */
  type Path = seq<string>

  datatype FileSystem = FileSystem(files: map<Path, Blob>, dirs: set<Path>)

  /**
    What the store needs from its platform: percent-quoting, JSON texts, `int` on a text, the URI of a path
    and back (`None` outside the root), and the hexadecimal SHA-256 digest.
   */
  datatype Environment = Environment(
    quote: string -> string,
    dumps: Json -> Blob,
    loads: Blob -> Option<Json>,
    parseInt: string -> Option<int>,
    uri: Path -> string,
    locate: string -> Option<Path>,
    digest: Blob -> string)

  ghost predicate Lawful(env: Environment) {
    && (forall a, b :: env.quote(a) == env.quote(b) ==> a == b)
    && (forall j :: Exact(j) ==> env.loads(env.dumps(j)) == Some(j))
    && (forall p :: env.uri(p) != "" && env.locate(env.uri(p)) == Some(p))
    && (forall a, b :: env.digest(a) == env.digest(b) ==> a == b)
  }

  predicate Exists(fs: FileSystem, p: Path) {
    p in fs.files || p in fs.dirs
  }

  /** The file is in both with the same bytes, or in neither. */
  predicate SameFile(a: FileSystem, b: FileSystem, p: Path) {
    (p in a.files <==> p in b.files) && (p in a.files ==> a.files[p] == b.files[p])
  }

  predicate Below(p: Path, dir: Path) {
    |dir| <= |p| && p[..|dir|] == dir
  }

  function Parents(p: Path): set<Path> {
    set k | 0 < k < |p| :: p[..k]
  }

  /** `write_bytes`: parent directories are created. */
  function WriteBytes(fs: FileSystem, p: Path, bytes: Blob): FileSystem {
    FileSystem(fs.files[p := bytes], fs.dirs + Parents(p))
  }

  function MakeDirectory(fs: FileSystem, p: Path): FileSystem {
    fs.(dirs := fs.dirs + Parents(p) + {p})
  }

  /** `delete_dir` with everything below it. */
  function DeleteDir(fs: FileSystem, dir: Path): FileSystem {
    FileSystem(
      map p | p in fs.files && !Below(p, dir) :: fs.files[p],
      set p | p in fs.dirs && !Below(p, dir))
  }

  /** Every file is in directories that exist. */
  ghost predicate Closed(fs: FileSystem) {
    forall p :: p in fs.files ==> Parents(p) <= fs.dirs
  }

  // ---- layout --------------------------------------------------------------

  function CheckpointName(id: nat): string {
    "chk-" + Decimal(id)
  }

  function CheckpointDirectory(env: Environment, job: string, id: nat): Path {
    [env.quote(job), CheckpointName(id)]
  }

  function MetadataPath(env: Environment, job: string, id: nat): Path {
    [env.quote(job), CheckpointName(id), "_metadata"]
  }

  function LatestPointer(env: Environment, job: string): Path {
    [env.quote(job), "_latest"]
  }

  function Base(id: nat, scope: Scope): string {
    match scope
    case Exclusive => CheckpointName(id)
    case Shared => "shared"
    case TaskOwned => "taskowned"
  }

  function FileName(version: nat, scope: Scope, digest: string): string {
    if scope == Shared then
      "sha256-" + digest + ".bin"
    else
      "state-v" + Decimal(version) + "-" + (if |digest| <= 16 then digest else digest[..16]) + ".bin"
  }

  function StatePath(
      env: Environment, id: nat, partition: StatePartition, version: nat, scope: Scope, digest: string): Path
    requires partition.keyGroup >= 0
  {
    [env.quote(partition.jobId), Base(id, scope), "op-" + env.quote(partition.operatorId),
     "kg-" + Decimal(partition.keyGroup), FileName(version, scope, digest)]
  }

  /** The id that a directory name denotes to the scan: `chk-` and decimal digits. */
  function CheckpointIdOf(name: string): Option<nat> {
    if |name| >= 4 && name[..4] == "chk-" then ParseDigits(name[4..]) else None
  }

  lemma NameRoundTrip(id: nat)
    ensures CheckpointIdOf(CheckpointName(id)) == Some(id)
  {
    ParseDecimal(id);
    assert CheckpointName(id)[4..] == Decimal(id);
  }

  /** A directory denotes `id` under exactly one plain name; any other name has superfluous zeros. */
  lemma NameIsPlain(name: string, id: nat)
    requires CheckpointIdOf(name) == Some(id)
    ensures name == CheckpointName(id) <==> Plain(name[4..])
  {
    DecimalOfDigits(name[4..], id);
    assert name == "chk-" + name[4..];
    assert CheckpointName(id)[4..] == Decimal(id);
  }

  /** Checkpoint directories of different checkpoints do not contain one another. */
  lemma DirectoriesApart(env: Environment, job: string, id: nat, other: string, k: nat, p: Path)
    requires Lawful(env)
    requires Below(p, CheckpointDirectory(env, job, id)) && Below(p, CheckpointDirectory(env, other, k))
    ensures job == other && id == k
  {
    assert p[..2][0] == p[0] && p[..2][1] == p[1];
    NameRoundTrip(id);
    NameRoundTrip(k);
  }

  lemma MetadataBelow(env: Environment, job: string, id: nat)
    ensures Below(MetadataPath(env, job, id), CheckpointDirectory(env, job, id))
    ensures CheckpointDirectory(env, job, id) in Parents(MetadataPath(env, job, id))
  {
    assert MetadataPath(env, job, id)[..2] == CheckpointDirectory(env, job, id);
  }

  /** Only `chk-N` is the directory of a checkpoint: shared and task-owned state lies in none. */
  lemma StateInOwnDirectory(
      env: Environment, id: nat, p: StatePartition, version: nat, scope: Scope, digest: string, job: string, k: nat)
    requires Lawful(env) && p.keyGroup >= 0
    ensures Below(StatePath(env, id, p, version, scope, digest), CheckpointDirectory(env, job, k))
       <==> scope == Exclusive && job == p.jobId && k == id
  {
    var path := StatePath(env, id, p, version, scope, digest);
    assert path[..2] == [env.quote(p.jobId), Base(id, scope)];
    NameRoundTrip(id);
    NameRoundTrip(k);
    assert CheckpointName(k)[0] == 'c' && "shared"[0] == 's' && "taskowned"[0] == 't';
  }
}

/** Where state objects go, what their entries say, and what reading one back tells. */
module StateObjects {
  import opened Wrappers
  import opened Bytes
  import opened Decimals
  import opened Manifests
  import opened CheckpointFiles
  import opened DigestCollisions
  import P = CheckpointProtocol

  // ---- the layout ----------------------------------------------------------

  /** The directories and files of a job, by name. */
  lemma LayoutNames(env: Environment, job: string, id: nat)
    ensures MetadataPath(env, job, id) == [env.quote(job), "chk-" + Decimal(id), "_metadata"]
    ensures CheckpointDirectory(env, job, id) == [env.quote(job), "chk-" + Decimal(id)]
    ensures LatestPointer(env, job) == [env.quote(job), "_latest"]
    ensures forall p: StatePartition, v: nat, digest: string :: p.keyGroup >= 0 ==>
      && StatePath(env, id, p, v, Exclusive, digest)[..2] == CheckpointDirectory(env, p.jobId, id)
      && StatePath(env, id, p, v, Shared, digest)[..2] == [env.quote(p.jobId), "shared"]
      && StatePath(env, id, p, v, TaskOwned, digest)[..2] == [env.quote(p.jobId), "taskowned"]
  {
    hide FileName, Decimal;
  }

  /** Writing a file makes every directory above it, and no other. */
  lemma WriteMakesParents(fs: FileSystem, p: Path, bytes: Blob, dir: Path)
    ensures dir in WriteBytes(fs, p, bytes).dirs <==>
      dir in fs.dirs || (0 < |dir| < |p| && p[..|dir|] == dir)
  {
  }

  /** Making a directory makes it and every one above it. */
  lemma MakesDirectory(fs: FileSystem, p: Path, dir: Path)
    ensures dir in MakeDirectory(fs, p).dirs <==> dir in fs.dirs || dir == p || (0 < |dir| < |p| && p[..|dir|] == dir)
    ensures MakeDirectory(fs, p).files == fs.files
  {
  }

  /** Deleting a directory removes it and what is below it, and nothing else. */
  lemma DeleteRemovesTree(fs: FileSystem, dir: Path, p: Path)
    ensures var after := DeleteDir(fs, dir);
      && (p in after.files <==> p in fs.files && forall rest: Path :: p != Joined(dir, rest))
      && (p in after.dirs <==> p in fs.dirs && forall rest: Path :: p != Joined(dir, rest))
      && (p in after.files ==> after.files[p] == fs.files[p])
  {
    if CheckpointFiles.Below(p, dir) {
      assert p == Joined(dir, p[|dir|..]);
    } else {
      forall rest: Path ensures p != Joined(dir, rest) {
        assert Joined(dir, rest)[..|dir|] == dir;
      }
    }
  }

  function Joined(dir: Path, rest: Path): Path {
    dir + rest
  }

  // ---- one path, one object ------------------------------------------------

  predicate Digits(s: string) {
    forall i :: 0 <= i < |s| ==> IsDigit(s[i])
  }

  /** A numeral ends before the first character that is not a digit. */
  lemma NumeralEnds(a: string, s: string, b: string, t: string)
    requires Digits(a) && Digits(b) && a + "-" + s == b + "-" + t
    ensures a == b && s == t
  {
    var x, y := a + "-" + s, b + "-" + t;
    assert x[|a|] == '-' && y[|b|] == '-';
    assert |a| < |b| ==> y[|a|] == b[|a|] && IsDigit(b[|a|]);
    assert |b| < |a| ==> x[|b|] == a[|b|] && IsDigit(a[|b|]);
    assert |a| == |b|;
    assert x[..|a|] == a && y[..|a|] == b && x[|a| + 1..] == s && y[|a| + 1..] == t;
  }

  /** Names of exclusive and task-owned objects tell versions apart, and digests by their first sixteen digits. */
  lemma VersionedNames(v: nat, d: string, w: nat, e: string, s: Scope, t: Scope)
    requires s != Shared && t != Shared
    ensures FileName(v, s, d) == FileName(w, t, e) <==> v == w && Short(d) == Short(e)
  {
    hide Decimal;
    var x, y := FileName(v, s, d), FileName(w, t, e);
    assert x == "state-v" + Decimal(v) + "-" + Short(d) + ".bin";
    assert y == "state-v" + Decimal(w) + "-" + Short(e) + ".bin";
    var a, b := Decimal(v) + "-" + Short(d), Decimal(w) + "-" + Short(e);
    assert x[7..|x| - 4] == a && y[7..|y| - 4] == b;
    if x == y {
      assert Digits(Decimal(v)) && Digits(Decimal(w));
      NumeralEnds(Decimal(v), Short(d), Decimal(w), Short(e));
      DecimalInjective(v, w);
    }
  }

  /** Names of shared objects tell all digests apart. */
  lemma SharedNames(v: nat, d: string, w: nat, e: string)
    ensures FileName(v, Shared, d) == FileName(w, Shared, e) <==> d == e
  {
    var x, y := FileName(v, Shared, d), FileName(w, Shared, e);
    assert x[7..|x| - 4] == d && y[7..|y| - 4] == e;
  }

  lemma SameBaseIff(i: nat, s: Scope, j: nat, t: Scope)
    ensures Base(i, s) == Base(j, t) <==> s == t && (s == Exclusive ==> i == j)
  {
    NameRoundTrip(i);
    NameRoundTrip(j);
    assert CheckpointName(i)[0] == 'c' && CheckpointName(j)[0] == 'c';
    assert "shared"[0] == 's' && "taskowned"[0] == 't';
  }

  /** What of a payload its object's name depends on. */
  ghost predicate SameName(env: Environment, h: P.Handle, a: Blob, g: P.Handle, b: Blob, scope: Scope) {
    if scope == Shared then a == b else h.version == g.version && Short(env.digest(a)) == Short(env.digest(b))
  }

  /**
    Two writes go to one object exactly when they agree in job, operator, key group and scope, in the checkpoint
    if they are exclusive, and in the payload if shared, or else in the version and sixteen digits of the digest.
   */
  lemma SameObjectIff(
      env: Environment, i: nat, h: P.Handle, a: Blob, s: Scope, j: nat, g: P.Handle, b: Blob, t: Scope)
    requires Lawful(env) && P.ValidHandle(h) && P.ValidHandle(g)
    ensures P.ObjectPath(env, i, h, a, s) == P.ObjectPath(env, j, g, b, t) <==>
      h.partition == g.partition && s == t && (s == Exclusive ==> i == j) && SameName(env, h, a, g, b, s)
  {
    hide FileName, Base, Decimal, Short;
    var p, q := P.ObjectPath(env, i, h, a, s), P.ObjectPath(env, j, g, b, t);
    assert p == q <==> p[0] == q[0] && p[1] == q[1] && p[2] == q[2] && p[3] == q[3] && p[4] == q[4];
    SameBaseIff(i, s, j, t);
    OperatorPart(env, h.partition.operatorId, g.partition.operatorId);
    GroupPart(h.partition.keyGroup, g.partition.keyGroup);
    if s == Shared && t == Shared {
      SharedNames(h.version, env.digest(a), g.version, env.digest(b));
    } else if s != Shared && t != Shared {
      VersionedNames(h.version, env.digest(a), g.version, env.digest(b), s, t);
    }
  }

  lemma OperatorPart(env: Environment, a: string, b: string)
    requires Lawful(env)
    ensures "op-" + env.quote(a) == "op-" + env.quote(b) <==> a == b
  {
    assert ("op-" + env.quote(a))[3..] == env.quote(a) && ("op-" + env.quote(b))[3..] == env.quote(b);
  }

  lemma GroupPart(a: nat, b: nat)
    ensures "kg-" + Decimal(a) == "kg-" + Decimal(b) <==> a == b
  {
    hide Decimal;
    assert ("kg-" + Decimal(a))[3..] == Decimal(a) && ("kg-" + Decimal(b))[3..] == Decimal(b);
    if Decimal(a) == Decimal(b) {
      DecimalInjective(a, b);
    }
  }

  // ---- what is accepted ----------------------------------------------------

  /** A handle names a job, an operator and a key group, and a version from 1 on. */
  lemma HandleChecks(h: P.Handle)
    ensures P.ValidHandle(h) <==>
      |h.partition.jobId| > 0 && |h.partition.operatorId| > 0 && h.partition.keyGroup > -1
      && h.version > 0 && h.inputSequence > -1
  {
  }

  /** An entry says besides where its object is and what it must look like. */
  lemma EntryChecks(e: Entry)
    ensures ValidEntry(e) <==>
      P.ValidHandle(P.Handle(e.partition, e.version, e.inputSequence))
      && |e.uri| > 0 && |e.checksum| > 0 && e.sizeBytes > -1
  {
  }

  /** A manifest is of one job, and its numbers are not negative. */
  lemma ManifestChecks(m: Manifest)
    ensures ValidManifest(m) <==>
      |m.jobId| > 0 && m.checkpointId > -1 && m.epoch > -1
      && forall e :: e in m.entries ==> ValidEntry(e) && e.partition.jobId == m.jobId
  {
  }

  /** What writing returns passes the checks of an entry. */
  lemma WrittenEntryIsValid(env: Environment, fs: FileSystem, id: int, h: P.Handle, payload: Blob, scope: Scope)
    requires Lawful(env) && P.ValidHandle(h)
    ensures var r := P.WriteState(env, fs, id, h, payload, scope).result; r.Ok? ==> ValidEntry(r.value)
  {
    hide StatePath;
  }

  // ---- writing and reading -------------------------------------------------

  /**
    A write is refused exactly for an exclusive object of a negative checkpoint. Otherwise its entry
    describes the payload and leads to its path, where an object now is; no other file changes.
   */
  lemma WriteStateAccepts(env: Environment, fs: FileSystem, id: int, h: P.Handle, payload: Blob, scope: Scope)
    requires Lawful(env) && P.ValidHandle(h)
    ensures var w, path := P.WriteState(env, fs, id, h, payload, scope), P.ObjectPath(env, id, h, payload, scope);
      var after := P.Final(fs, w.states);
      && (w.result.Err? <==> scope == Exclusive && id < 0)
      && (w.result.Err? ==> w.result.error == P.NegativeCheckpointId && after == fs)
      && (w.result.Ok? ==>
            && Describes(w.result.value, h, payload, scope) && env.locate(w.result.value.uri) == Some(path)
            && w.result.value.checksum == "sha256:" + env.digest(payload)
            && |w.states| == (if Exists(fs, path) then 0 else 1)
            && (Exists(fs, path) ==> after == fs)
            && (!Exists(fs, path) ==> path in after.files && after.files[path] == payload)
            && (forall p :: p != path ==> SameFile(fs, after, p)))
  {
    hide StatePath;
  }

  predicate Describes(e: Entry, h: P.Handle, payload: Blob, scope: Scope) {
    && e.partition == h.partition && e.version == h.version && e.inputSequence == h.inputSequence
    && e.sizeBytes == |payload| && e.scope == scope
  }

  /**
    Whatever has happened to the files since, reading through the entry of a write returns the payload
    or tells the damage: no object, another length, or other bytes of that length.
   */
  lemma ReadTellsDamage(
      env: Environment, fs: FileSystem, id: int, h: P.Handle, payload: Blob, scope: Scope, e: Entry, now: FileSystem)
    requires Lawful(env) && P.ValidHandle(h)
    requires P.WriteState(env, fs, id, h, payload, scope).result == Ok(e)
    ensures var path, read := P.ObjectPath(env, id, h, payload, scope), P.ReadState(env, now, e);
      && (read == Ok(payload) <==> path in now.files && now.files[path] == payload)
      && (read.Ok? ==> read.value == payload)
      && (read == Err(P.MissingObject(e.uri)) <==> path !in now.files)
      && (read == Err(P.SizeMismatch) <==> path in now.files && |now.files[path]| != |payload|)
      && (read == Err(P.ChecksumMismatch) <==>
            path in now.files && |now.files[path]| == |payload| && now.files[path] != payload)
  {
    hide StatePath;
    var path := P.ObjectPath(env, id, h, payload, scope);
    assert env.locate(e.uri) == Some(path);
    if path in now.files {
      SameChecksum(env, now.files[path], payload);
    }
  }

  lemma SameChecksum(env: Environment, a: Blob, b: Blob)
    requires Lawful(env)
    ensures P.Checksum(env, a) == P.Checksum(env, b) <==> a == b
  {
    assert P.Checksum(env, a)[7..] == env.digest(a) && P.Checksum(env, b)[7..] == env.digest(b);
  }

  // ---- retention -----------------------------------------------------------

  /** A cleanup is refused exactly without a job id or a positive number to retain, and then deletes nothing. */
  lemma CleanupRefusedIff(env: Environment, fs: FileSystem, job: string, retained: int)
    ensures var c := P.Cleanup(env, fs, job, retained);
      && (c.result.Err? <==> retained < 1 || job == "")
      && (c.result.Err? ==> c.states == [])
      && (c.result == Err(P.RetainedCount) <==> retained < 1)
  {
    hide P.Listing, P.Deletions;
    if retained >= 1 {
      P.RetiredNaturals(env, fs, job, retained);
    }
  }
}

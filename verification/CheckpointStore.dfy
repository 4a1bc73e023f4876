/** `FileSystemCheckpointStore`, with the states its files pass through recorded in `trace`. */
module CheckpointStore {
  import opened Wrappers
  import opened Bytes
  import opened Sorting
  import opened IntegerSort
  import opened Manifests
  import opened CheckpointFiles
  import P = CheckpointProtocol

  /** Newest first: `sort(reverse=True)`. */
  ghost predicate Nonincreasing(s: seq<int>) {
    forall i, j :: 0 <= i < j < |s| ==> s[j] <= s[i]
  }

  function Reversed(s: seq<int>): (r: seq<int>)
    ensures |r| == |s| && forall i :: 0 <= i < |s| ==> r[i] == s[|s| - 1 - i]
  {
    seq(|s|, i requires 0 <= i < |s| => s[|s| - 1 - i])
  }

  class FileSystemCheckpointStore {
    const env: Environment
    var fs: FileSystem
    ghost var trace: seq<FileSystem>

    ghost predicate Valid()
      reads this
    {
      trace != [] && trace[|trace| - 1] == fs
    }

    constructor (env: Environment, fs: FileSystem)
      ensures Valid() && this.env == env && this.fs == fs && trace == [fs]
    {
      this.env, this.fs, trace := env, fs, [fs];
    }

    method WriteBytes(path: Path, bytes: Blob)
      requires Valid()
      modifies this
      ensures Valid() && fs == CheckpointFiles.WriteBytes(old(fs), path, bytes) && trace == old(trace) + [fs]
    {
      fs := CheckpointFiles.WriteBytes(fs, path, bytes);
      trace := trace + [fs];
    }

    method WriteState(id: int, handle: P.Handle, payload: Blob, scope: Scope)
      returns (r: Result<Entry, P.StoreError>)
      requires Valid() && P.ValidHandle(handle)
      modifies this
      ensures Valid()
      ensures trace == old(trace) + P.WriteState(env, old(fs), id, handle, payload, scope).states
      ensures r == P.WriteState(env, old(fs), id, handle, payload, scope).result
    {
      if scope == Exclusive && id < 0 {
        return Err(P.NegativeCheckpointId);
      }
      var path := P.ObjectPath(env, id, handle, payload, scope);
      if !Exists(fs, path) {
        WriteBytes(path, payload);
      }
      r := Ok(Entry(
        handle.partition, handle.version, handle.inputSequence,
        env.uri(path), P.Checksum(env, payload), |payload|, scope));
    }

    method CheckEntries(entries: seq<Entry>) returns (r: Option<P.StoreError>)
      ensures r == P.FirstProblem(env, fs, entries)
    {
      var i := 0;
      while i < |entries|
        invariant 0 <= i <= |entries|
        invariant P.FirstProblem(env, fs, entries) == P.FirstProblem(env, fs, entries[i..])
      {
        assert entries[i..][1..] == entries[i + 1..];
        var problem := P.EntryProblem(env, fs, entries[i]);
        if problem.Some? {
          return problem;
        }
        i := i + 1;
      }
      r := None;
    }

    method Commit(m: Manifest) returns (r: Result<(), P.StoreError>)
      requires Valid() && ValidManifest(m)
      modifies this
      ensures Valid()
      ensures trace == old(trace) + P.Commit(env, old(fs), m).states
      ensures r == P.Commit(env, old(fs), m).result
    {
      var problem := CheckEntries(m.entries);
      if problem.Some? {
        return Err(problem.value);
      }
      var path, metadata := MetadataPath(env, m.jobId, m.checkpointId), P.ManifestBytes(env, m);
      if path in fs.files {
        if fs.files[path] != metadata {
          return Err(P.DifferentMetadata);
        }
      } else {
        WriteBytes(path, metadata);
      }
      WriteBytes(LatestPointer(env, m.jobId), P.PointerBytes(env, m.checkpointId));
      r := Ok(());
    }

    /** `list_directories`: the names come in no particular order. */
    method ListDirectories(job: string) returns (names: seq<string>)
      ensures NoDuplicates(names) && forall n :: n in names <==> n in P.Names(env, fs, job)
    {
      var rest := P.Names(env, fs, job);
      names := [];
      while rest != {}
        invariant rest <= P.Names(env, fs, job) && NoDuplicates(names)
        invariant forall n :: n in names <==> n in P.Names(env, fs, job) && n !in rest
        decreases |rest|
      {
        var name :| name in rest;
        rest := rest - {name};
        names := names + [name];
      }
    }

    method ListCompletedCheckpoints(job: string) returns (r: Result<seq<int>, P.StoreError>)
      ensures r == if job == "" then Err(P.EmptyJobId) else Ok(P.Listing(env, fs, job))
    {
      if job == "" {
        return Err(P.EmptyJobId);
      }
      var names := ListDirectories(job);
      var completed := [];
      var i := 0;
      while i < |names|
        invariant 0 <= i <= |names|
        invariant completed == P.ScannedIds(env, fs, job, names[..i])
      {
        assert names[..i + 1][..i] == names[..i];
        var id := CheckpointIdOf(names[i]);
        if id.Some? && MetadataPath(env, job, id.value) in fs.files {
          completed := completed + [id.value];
        }
        i := i + 1;
      }
      assert names[..|names|] == names;
      P.ScanOrderIrrelevant(env, fs, job, names);
      r := Ok(SortInts(completed));
    }

    method Latest(job: string) returns (r: Result<Option<Manifest>, P.StoreError>)
      ensures r == P.Latest(env, fs, job)
    {
      if job == "" {
        return Err(P.EmptyJobId);
      }
      var candidates: seq<int> := [];
      var pointer := P.PointerId(env, fs, job);
      if pointer.Err? {
        return Err(pointer.error);
      }
      if pointer.value.Some? && pointer.value.value >= 0 {
        candidates := [pointer.value.value];
      }
      var listing := ListCompletedCheckpoints(job);
      candidates := candidates + Reversed(listing.value);
      P.ListingNaturals(env, fs, job);
      ghost var ids := P.Candidates(pointer.value, listing.value);
      CandidatesAre(pointer.value, listing.value, candidates, ids);
      candidates := SortDescending(candidates);
      r := FirstReadable(job, candidates, ids);
    }

    /** The loop over the sorted candidates. */
    method FirstReadable(job: string, candidates: seq<int>, ghost ids: set<int>)
      returns (r: Result<Option<Manifest>, P.StoreError>)
      requires Nonincreasing(candidates) && P.Naturals(ids)
      requires forall id :: id in ids <==> id in candidates
      ensures r == P.NewestReadable(env, fs, job, ids)
    {
      var seen: set<int> := {};
      var i := 0;
      assert ids - seen == ids;
      while i < |candidates|
        invariant 0 <= i <= |candidates|
        invariant forall id :: id in seen <==> id in candidates[..i]
        invariant P.NewestReadable(env, fs, job, ids) == P.NewestReadable(env, fs, job, ids - seen)
      {
        var id := candidates[i];
        assert id in ids;
        assert candidates[..i + 1] == candidates[..i] + [id];
        if id !in seen {
          NextIsMax(candidates, i, ids, seen);
          var manifest := P.ReadManifest(env, fs, job, id);
          if manifest != Ok(None) {
            return manifest;
          }
          assert ids - (seen + {id}) == ids - seen - {id};
          seen := seen + {id};
        }
        i := i + 1;
      }
      assert candidates[..i] == candidates;
      assert ids - seen == {};
      r := Ok(None);
    }

    method DeleteCheckpoint(job: string, id: nat)
      requires Valid()
      modifies this
      ensures Valid() && fs == P.DeleteCheckpoint(env, old(fs), job, id) && trace == old(trace) + [fs]
    {
      if Exists(fs, CheckpointDirectory(env, job, id)) {
        fs := DeleteDir(fs, CheckpointDirectory(env, job, id));
      }
      trace := trace + [fs];
    }

    method CleanupCheckpoints(job: string, retained: int) returns (r: Result<(), P.StoreError>)
      requires Valid()
      modifies this
      ensures Valid()
      ensures trace == old(trace) + P.Cleanup(env, old(fs), job, retained).states
      ensures r == P.Cleanup(env, old(fs), job, retained).result
    {
      if retained < 1 {
        return Err(P.RetainedCount);
      }
      var listing := ListCompletedCheckpoints(job);
      if listing.Err? {
        return Err(listing.error);
      }
      P.RetiredNaturals(env, fs, job, retained);
      var retired := P.Retired(listing.value, retained);
      DeleteAll(job, retired);
      r := Ok(());
    }

    method DeleteAll(job: string, ids: seq<int>)
      requires Valid() && forall i :: 0 <= i < |ids| ==> ids[i] >= 0
      modifies this
      ensures Valid() && trace == old(trace) + P.Deletions(env, old(fs), job, ids)
    {
      assert ids[..0] == [];
      var i := 0;
      while i < |ids|
        invariant 0 <= i <= |ids| && Valid()
        invariant trace == old(trace) + P.Deletions(env, old(fs), job, ids[..i])
        invariant fs == P.Final(old(fs), P.Deletions(env, old(fs), job, ids[..i]))
      {
        assert ids[..i + 1][..i] == ids[..i];
        DeleteCheckpoint(job, ids[i]);
        i := i + 1;
      }
      assert ids[..i] == ids;
    }
  }

  function SortDescending(s: seq<int>): (r: seq<int>)
    ensures Nonincreasing(r) && forall x :: x in r <==> x in s
  {
    SortIsSorted(s);
    var r := Reversed(SortInts(s));
    assert forall x :: x in r <==> x in s by {
      forall x ensures x in r <==> x in s {
        InSorted(s, x);
        if x in SortInts(s) {
          var i :| 0 <= i < |SortInts(s)| && SortInts(s)[i] == x;
          assert r[|r| - 1 - i] == x;
        }
      }
    }
    r
  }

  lemma CandidatesAre(pointer: Option<int>, listing: seq<int>, candidates: seq<int>, ids: set<int>)
    requires ids == P.Candidates(pointer, listing)
    requires candidates == (if pointer.Some? && pointer.value >= 0 then [pointer.value] else []) + Reversed(listing)
    ensures forall id :: id in ids <==> id in candidates
  {
    forall id ensures id in Reversed(listing) <==> id in listing {
      if id in listing {
        var i :| 0 <= i < |listing| && listing[i] == id;
        assert Reversed(listing)[|listing| - 1 - i] == id;
      }
    }
  }

  lemma NextIsMax(candidates: seq<int>, i: nat, ids: set<int>, seen: set<int>)
    requires Nonincreasing(candidates) && i < |candidates| && candidates[i] !in seen
    requires forall id :: id in ids <==> id in candidates
    requires forall id :: id in seen <==> id in candidates[..i]
    ensures ids - seen != {} && MaxOf(ids - seen) == candidates[i]
  {
    assert candidates[i] in candidates;
    assert candidates[i] in ids - seen;
    forall x | x in ids - seen ensures x <= candidates[i] {
      assert x !in candidates[..i];
      var j :| 0 <= j < |candidates| && candidates[j] == x;
      assert j >= i;
    }
  }
}

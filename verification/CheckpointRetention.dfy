/** What recovery finds and what retention keeps. */
module CheckpointRetention {
  import opened Wrappers
  import opened Sorting
  import opened IntegerSort
  import opened Decimals
  import opened Manifests
  import opened Texts
  import opened CheckpointFiles
  import opened CheckpointLaws
  import P = CheckpointProtocol

  // ---- write once ----------------------------------------------------------

  /** Metadata that is there keeps its bytes, in every state that a call passes through. */
  lemma MetadataIsWriteOnce(env: Environment, fs: FileSystem, call: Call, k: nat, job: string, id: nat)
    requires Lawful(env) && Callable(call) && k < |States(env, fs, call)|
    requires MetadataPath(env, job, id) in fs.files && MetadataPath(env, job, id) in States(env, fs, call)[k].files
    ensures States(env, fs, call)[k].files[MetadataPath(env, job, id)] == fs.files[MetadataPath(env, job, id)]
  {
    hide Lawful, P.FirstProblem, P.ManifestBytes, P.PointerBytes, P.Listing;
    match call
    case Cleanup(name, retained) =>
      P.RetiredNaturals(env, fs, name, retained);
      DeletionsOnlyRemove(env, fs, name, P.Retired(P.Listing(env, fs, name), retained), k, MetadataPath(env, job, id));
    case _ =>
  }

  lemma {:induction false} DeletionsOnlyRemove(
      env: Environment, fs: FileSystem, job: string, ids: seq<int>, k: nat, p: Path)
    requires k < |ids| && forall i :: 0 <= i < |ids| ==> ids[i] >= 0
    requires p in P.Deletions(env, fs, job, ids)[k].files
    ensures p in fs.files && P.Deletions(env, fs, job, ids)[k].files[p] == fs.files[p]
  {
    var last := |ids| - 1;
    if k < last {
      DeletionsOnlyRemove(env, fs, job, ids[..last], k, p);
    } else if last > 0 {
      DeletionsOnlyRemove(env, fs, job, ids[..last], last - 1, p);
    }
  }

  /** A second commit of an id succeeds exactly when it would write the same metadata. */
  lemma RecommitIff(env: Environment, fs: FileSystem, m: Manifest)
    requires ValidManifest(m) && MetadataPath(env, m.jobId, m.checkpointId) in fs.files
    ensures P.Commit(env, fs, m).result.Ok? <==>
      P.AllPresent(env, fs, m.entries)
      && fs.files[MetadataPath(env, m.jobId, m.checkpointId)] == P.ManifestBytes(env, m)
    ensures P.Commit(env, fs, m).result.Err? ==> P.Commit(env, fs, m).states == []
  {
    hide P.AllPresent, P.ManifestBytes, P.PointerBytes;
  }

  /** A stored manifest determines its JSON form. */
  lemma StoredDetermines(m: Manifest, n: Manifest)
    requires Stored(m) == Stored(n)
    ensures ToDict(m) == ToDict(n)
  {
    hide Dict, SortedItems, EntryJson;
    SameDict(Dict(m.sourcePositions), Dict(n.sourcePositions));
    SameDict(Dict(m.sinkTransactions), Dict(n.sinkTransactions));
  }

  lemma SameDict(c: map<string, string>, d: map<string, string>)
    requires SortedItems(c) == SortedItems(d)
    ensures c == d
  {
    hide SortedItems, Rank;
    ItemsInclude(c, d);
    ItemsInclude(d, c);
  }

  lemma ItemsInclude(c: map<string, string>, d: map<string, string>)
    requires SortedItems(c) == SortedItems(d)
    ensures forall k :: k in c ==> k in d && c[k] == d[k]
  {
    ItemsAscend(c);
    ItemsAscend(d);
    hide SortedItems, Rank, NamesAscend, IsOrdering;
    forall k | k in c ensures k in d && c[k] == d[k] {
      var i := NameAt(c, k);
      assert SortedItems(c)[i] == (k, c[k]);
      assert SortedItems(d)[i] == (Names(d)[i], d[Names(d)[i]]);
    }
  }

  lemma NameAt(c: map<string, string>, k: string) returns (i: nat)
    requires k in c
    ensures i < |Names(c)| && Names(c)[i] == k
  {
    assert k in Names(c);
    i :| 0 <= i < |Names(c)| && Names(c)[i] == k;
  }

  /**
    After a commit, committing another manifest under the same id succeeds exactly
    when it would be stored as the same one.
   */
  lemma SecondCommitIff(env: Environment, fs: FileSystem, m: Manifest, n: Manifest)
    requires Lawful(env) && ValidManifest(m) && ValidManifest(n)
    requires n.jobId == m.jobId && n.checkpointId == m.checkpointId && P.Commit(env, fs, m).result.Ok?
    ensures var after := P.Final(fs, P.Commit(env, fs, m).states);
      P.Commit(env, after, n).result.Ok? <==> Stored(n) == Stored(m)
  {
    hide P.ManifestBytes, P.PointerBytes, Lawful, P.FirstProblem, P.Present, MetadataPath, LatestPointer, Stored,
      ToDict;
    var states := P.Commit(env, fs, m).states;
    var after, path := P.Final(fs, states), MetadataPath(env, m.jobId, m.checkpointId);
    CommittedMetadata(env, fs, m);
    RecommitIff(env, after, n);
    if P.ManifestBytes(env, n) == P.ManifestBytes(env, m) {
      SameBytesSameStored(env, m, n);
    }
    if Stored(n) == Stored(m) {
      StoredDetermines(m, n);
      SameBytes(env, m, n);
      assert states[..|states|] == states;
      forall i | 0 <= i < |n.entries| ensures P.Present(env, after, n.entries[i]) {
        SameEntries(m, n);
        assert P.Present(env, fs, m.entries[i]);
        StillPresent(env, fs, m, |states|, m.entries[i]);
      }
    }
  }

  lemma SameEntries(m: Manifest, n: Manifest)
    requires Stored(n) == Stored(m)
    ensures n.entries == m.entries
  {
    StoredIdentity(m);
    StoredIdentity(n);
  }

  lemma SameBytes(env: Environment, m: Manifest, n: Manifest)
    requires ToDict(m) == ToDict(n)
    ensures P.ManifestBytes(env, m) == P.ManifestBytes(env, n)
  {
  }

  lemma SameBytesSameStored(env: Environment, m: Manifest, n: Manifest)
    requires Lawful(env) && ValidManifest(m) && ValidManifest(n) && P.ManifestBytes(env, m) == P.ManifestBytes(env, n)
    ensures Stored(m) == Stored(n)
  {
    hide ToDict, FromDict, Stored, ValidManifest, P.ManifestBytes;
    LoadsManifest(env, m);
    LoadsManifest(env, n);
    var c := Object(map["format_version" := Int(1), "manifest" := ToDict(m)]);
    var d := Object(map["format_version" := Int(1), "manifest" := ToDict(n)]);
    assert c.fields["manifest"] == d.fields["manifest"];
    ManifestRoundTrip(m);
    ManifestRoundTrip(n);
  }

  lemma CommittedMetadata(env: Environment, fs: FileSystem, m: Manifest)
    requires ValidManifest(m) && P.Commit(env, fs, m).result.Ok?
    ensures var after, path := P.Final(fs, P.Commit(env, fs, m).states), MetadataPath(env, m.jobId, m.checkpointId);
      path in after.files && after.files[path] == P.ManifestBytes(env, m)
  {
    hide P.ManifestBytes, P.PointerBytes, P.FirstProblem;
    assert |MetadataPath(env, m.jobId, m.checkpointId)| == 3 && |LatestPointer(env, m.jobId)| == 2;
  }

  /** After a crash anywhere inside a commit, committing again leads to the very files of an uninterrupted commit. */
  lemma CommitResumes(env: Environment, fs: FileSystem, m: Manifest, k: nat)
    requires Lawful(env) && ValidManifest(m) && P.Commit(env, fs, m).result.Ok?
    requires k <= |P.Commit(env, fs, m).states|
    ensures var states := P.Commit(env, fs, m).states; var stopped := P.Final(fs, states[..k]);
      && P.Commit(env, stopped, m).result == Ok(())
      && P.Final(stopped, P.Commit(env, stopped, m).states) == P.Final(fs, states)
  {
    hide P.ManifestBytes, P.PointerBytes, Lawful, P.FirstProblem, P.Present;
    var states := P.Commit(env, fs, m).states;
    var stopped := P.Final(fs, states[..k]);
    forall i | 0 <= i < |m.entries| ensures P.Present(env, stopped, m.entries[i]) {
      assert P.Present(env, fs, m.entries[i]);
      StillPresent(env, fs, m, k, m.entries[i]);
    }
    var again := P.Commit(env, stopped, m);
    assert again.result == Ok(());
    assert P.Final(stopped, again.states).files == P.Final(fs, states).files;
    assert P.Final(stopped, again.states).dirs == P.Final(fs, states).dirs;
  }

  lemma StillPresent(env: Environment, fs: FileSystem, m: Manifest, k: nat, e: Entry)
    requires ValidManifest(m) && k <= |P.Commit(env, fs, m).states| && P.Present(env, fs, e)
    ensures P.Present(env, P.Final(fs, P.Commit(env, fs, m).states[..k]), e)
  {
    hide P.ManifestBytes, P.PointerBytes, P.FirstProblem;
  }

  // ---- the listing ---------------------------------------------------------

  /** The ids of a job whose metadata can be found. */
  ghost function Completed(env: Environment, fs: FileSystem, job: string): set<int> {
    Elements(P.Listing(env, fs, job))
  }

  /** The directories that the scan takes for checkpoint `id`. */
  function Denoting(env: Environment, fs: FileSystem, job: string, id: int): set<string> {
    set n | n in P.Names(env, fs, job) && P.Denotes(env, fs, job, n, id)
  }

  /** The scan finds exactly the ids whose metadata exists. */
  lemma CompletedIff(env: Environment, fs: FileSystem, job: string, id: int)
    requires Closed(fs)
    ensures id in Completed(env, fs, job) <==> id >= 0 && MetadataPath(env, job, id) in fs.files
  {
    P.ScanCounts(env, fs, job, id);
    var listing, names := P.Listing(env, fs, job), Denoting(env, fs, job, id);
    assert id in listing <==> multiset(listing)[id] > 0;
    if id >= 0 && MetadataPath(env, job, id) in fs.files {
      NameRoundTrip(id);
      MetadataBelow(env, job, id);
      var dir := CheckpointDirectory(env, job, id);
      assert dir in fs.dirs && dir[1] == CheckpointName(id);
      assert CheckpointName(id) in names;
    } else {
      assert names == {};
    }
  }

  // ---- recovery ------------------------------------------------------------

  /**
    `latest` yields a manifest exactly as large as its id is among the readable ones:
    every larger candidate is unreadable.
   */
  lemma {:induction false} NewestReadableIs(env: Environment, fs: FileSystem, job: string, ids: set<int>)
    requires P.Naturals(ids)
    ensures var r := P.NewestReadable(env, fs, job, ids);
      && (r == Ok(None) ==> forall id :: id in ids ==> Unreadable(env, fs, job, id))
      && (r.Ok? && r.value.Some? ==> FoundAt(env, fs, job, ids, r.value.value))
  {
    hide P.ReadManifest;
    if ids != {} {
      var id := MaxOf(ids);
      NewestReadableIs(env, fs, job, ids - {id});
      if P.ReadManifest(env, fs, job, id).Ok? && P.ReadManifest(env, fs, job, id).value.Some? {
        ReadsOwnId(env, fs, job, id);
        assert FoundAt(env, fs, job, ids, P.ReadManifest(env, fs, job, id).value.value);
      } else if P.ReadManifest(env, fs, job, id).Ok? {
        FoundBelow(env, fs, job, ids, id);
      }
    }
  }

  ghost predicate Unreadable(env: Environment, fs: FileSystem, job: string, id: int) {
    id >= 0 && P.ReadManifest(env, fs, job, id) == Ok(None)
  }

  ghost predicate FoundAt(env: Environment, fs: FileSystem, job: string, ids: set<int>, m: Manifest) {
    && m.checkpointId in ids && m.checkpointId >= 0
    && P.ReadManifest(env, fs, job, m.checkpointId) == Ok(Some(m))
    && forall id :: id in ids && id > m.checkpointId ==> Unreadable(env, fs, job, id)
  }

  lemma ReadsOwnId(env: Environment, fs: FileSystem, job: string, id: nat)
    ensures var r := P.ReadManifest(env, fs, job, id);
      r.Ok? && r.value.Some? ==> r.value.value.checkpointId == id && r.value.value.jobId == job
  {
    hide FromDict, MetadataPath;
  }

  lemma FoundBelow(env: Environment, fs: FileSystem, job: string, ids: set<int>, top: int)
    requires top in ids && Unreadable(env, fs, job, top)
    ensures forall m :: FoundAt(env, fs, job, ids - {top}, m) ==> FoundAt(env, fs, job, ids, m)
  {
    hide P.ReadManifest;
  }

  /** `latest` fails exactly when `_latest` is JSON but not an object, or names an infinite id. */
  lemma PointerFailsIff(env: Environment, fs: FileSystem, job: string)
    ensures P.PointerId(env, fs, job).Err? <==>
      LatestPointer(env, job) in fs.files && Fatal(env.loads(fs.files[LatestPointer(env, job)]))
  {
    hide LatestPointer;
  }

  predicate Fatal(pointer: Option<Json>) {
    && pointer.Some?
    && (!pointer.value.Object?
        || ("format_version" in pointer.value.fields && P.EqualsOne(pointer.value.fields["format_version"])
            && "checkpoint_id" in pointer.value.fields && pointer.value.fields["checkpoint_id"] == Real(Infinite)))
  }

  /**
    Recovery: unless the pointer makes it fail, `latest` is the manifest of the
    highest committed id, whatever the pointer holds; with nothing committed it is `None`.
   */
  lemma LatestIsHighestCommitted(env: Environment, fs: FileSystem, job: string)
    requires Lawful(env) && Sound(env, fs) && job != "" && P.PointerId(env, fs, job).Ok?
    ensures Completed(env, fs, job) == {} ==> P.Latest(env, fs, job) == Ok(None)
    ensures Completed(env, fs, job) != {} ==>
      IsNewest(env, fs, job, MaxOf(Completed(env, fs, job)))
  {
    hide Closed, P.Listing, P.PointerId, P.ReadManifest, P.Candidates, P.NewestReadable, Lawful, Sound;
    var pointer, done := P.PointerId(env, fs, job).value, Completed(env, fs, job);
    var ids := P.Candidates(pointer, P.Listing(env, fs, job));
    P.ListingNaturals(env, fs, job);
    CandidatesOf(pointer, P.Listing(env, fs, job));
    forall id: nat ensures id in done <==> MetadataPath(env, job, id) in fs.files {
      SoundIsClosed(env, fs);
      CompletedIff(env, fs, job, id);
    }
    CandidateTried(env, fs, job, pointer, done, ids);
  }

  /**
    `latest` raises exactly without a job id, or when the pointer file is JSON that is
    not an object, or an object of this format with an infinite id.
   */
  lemma LatestFailsIff(env: Environment, fs: FileSystem, job: string)
    requires Lawful(env) && Sound(env, fs)
    ensures P.Latest(env, fs, job).Err? <==>
      job == ""
      || (LatestPointer(env, job) in fs.files && Fatal(env.loads(fs.files[LatestPointer(env, job)])))
  {
    hide Closed, P.Listing, P.PointerId, P.ReadManifest, P.NewestReadable, Lawful, Sound, Fatal, LatestPointer;
    PointerFailsIff(env, fs, job);
    if job != "" && P.PointerId(env, fs, job).Ok? {
      LatestIsHighestCommitted(env, fs, job);
    }
  }

  /** Whatever is committed, a pointer file that holds the number 5 makes `latest` raise. */
  lemma NumberPointerFails(env: Environment, fs: FileSystem, job: string)
    requires Lawful(env) && job != ""
    ensures P.Latest(env, WriteBytes(fs, LatestPointer(env, job), env.dumps(Int(5))), job) == Err(P.NotAnObject)
  {
    hide LatestPointer;
    assert Exact(Int(5)) && env.loads(env.dumps(Int(5))) == Some(Int(5));
  }

  ghost predicate IsNewest(env: Environment, fs: FileSystem, job: string, id: int) {
    && id >= 0 && P.Latest(env, fs, job) == P.ReadManifest(env, fs, job, id)
    && P.Latest(env, fs, job).Ok? && P.Latest(env, fs, job).value.Some?
  }

  lemma SoundIsClosed(env: Environment, fs: FileSystem)
    requires Sound(env, fs)
    ensures Closed(fs)
  {
  }

  lemma CandidatesOf(pointer: Option<int>, listing: seq<int>)
    ensures P.Candidates(pointer, listing)
         == Elements(listing) + if pointer.Some? && pointer.value >= 0 then {pointer.value} else {}
  {
  }

  lemma CandidateTried(
      env: Environment, fs: FileSystem, job: string, pointer: Option<int>, done: set<int>, ids: set<int>)
    requires Lawful(env) && Sound(env, fs) && P.Naturals(done) && P.Naturals(ids)
    requires ids == done + if pointer.Some? && pointer.value >= 0 then {pointer.value} else {}
    requires forall id: nat :: id in done <==> MetadataPath(env, job, id) in fs.files
    ensures done == {} ==> P.NewestReadable(env, fs, job, ids) == Ok(None)
    ensures done != {} ==> var m := MaxOf(done);
      && P.NewestReadable(env, fs, job, ids) == P.ReadManifest(env, fs, job, m)
      && P.ReadManifest(env, fs, job, m).Ok? && P.ReadManifest(env, fs, job, m).value.Some?
  {
    hide Lawful, Sound, FromDict, Closed;
    if done != {} {
      CommittedReads(env, fs, job, MaxOf(done));
      FirstTry(env, fs, job, done);
    }
    if pointer.Some? && pointer.value >= 0 && pointer.value !in done {
      assert ids - {pointer.value} == done;
      if done != {} {
        assert MaxOf(ids) == pointer.value || MaxOf(ids) == MaxOf(done);
      } else {
        assert ids == {pointer.value};
        assert MaxOf(ids) == pointer.value;
      }
    } else {
      assert ids == done;
    }
  }

  lemma FirstTry(env: Environment, fs: FileSystem, job: string, ids: set<int>)
    requires P.Naturals(ids) && ids != {}
    ensures P.ReadManifest(env, fs, job, MaxOf(ids)) != Ok(None) ==>
      P.NewestReadable(env, fs, job, ids) == P.ReadManifest(env, fs, job, MaxOf(ids))
  {
    hide P.ReadManifest;
  }

  lemma CommittedReads(env: Environment, fs: FileSystem, job: string, id: nat)
    requires Lawful(env) && Sound(env, fs) && MetadataPath(env, job, id) in fs.files
    ensures P.ReadManifest(env, fs, job, id).Ok? && P.ReadManifest(env, fs, job, id).value.Some?
  {
    hide P.ReadManifest, Closed, Holds;
    assert Recorded(env, fs, job, id);
    var m :| Holds(env, fs, job, id, m);
    ReadBack(env, fs, job, id, m);
  }

  // ---- retention -----------------------------------------------------------

  ghost function Occurrences(s: seq<int>, ids: set<int>): nat {
    if s == [] then 0
    else Occurrences(s[..|s| - 1], ids) + if s[|s| - 1] in ids then 1 else 0
  }

  /** In ascending order, the members of an upward closed set come last. */
  lemma {:induction false} TailIn(s: seq<int>, ids: set<int>) returns (k: nat)
    requires Nondecreasing(s)
    requires forall x, y :: x in ids && y in s && x <= y ==> y in ids
    ensures k <= |s| && Occurrences(s, ids) == |s| - k
    ensures forall i :: 0 <= i < |s| ==> (s[i] in ids <==> i >= k)
  {
    if s == [] {
      k := 0;
    } else {
      var last := |s| - 1;
      k := TailIn(s[..last], ids);
      assert forall i :: 0 <= i < last ==> s[..last][i] == s[i];
      if s[last] !in ids {
        forall i | 0 <= i < last ensures s[i] !in ids {
          assert s[i] <= s[last] && s[last] in s;
        }
        assert k == last;
        k := |s|;
      }
    }
  }

  lemma NewestUpward(s: seq<int>, r: int)
    ensures forall x, y :: x in Newest(Elements(s), r) && y in s && x <= y ==> y in Newest(Elements(s), r)
  {
    var all := Elements(s);
    forall x, y | x in Newest(all, r) && y in s && x <= y ensures y in Newest(all, r) {
      assert Above(all, y) <= Above(all, x);
      SubsetSize(Above(all, y), Above(all, x));
    }
  }

  lemma SubsetSize<T>(a: set<T>, b: set<T>)
    requires a <= b
    ensures |a| <= |b|
  {
    assert b == a + (b - a);
  }

  /**
    Slicing off all but the last `r` entries retires exactly the ids outside the `r`
    newest if and only if those fill no more than `r` entries.
   */
  lemma RetiredIff(s: seq<int>, r: int)
    requires Nondecreasing(s) && r >= 1
    ensures Elements(P.Retired(s, r)) == Elements(s) - Newest(Elements(s), r)
       <==> Occurrences(s, Newest(Elements(s), r)) <= r
  {
    hide Occurrences, Newest;
    var all := Elements(s);
    var newest := Newest(all, r);
    NewestUpward(s, r);
    var k := TailIn(s, newest);
    var cut := |P.Retired(s, r)|;
    if Occurrences(s, newest) <= r {
      if k > 0 {
        ManyAbove(s, k, r);
      }
      assert k == cut;
      forall x ensures x in Elements(P.Retired(s, r)) <==> x in all - newest {
        SplitAt(s, k, newest, x);
      }
    } else {
      assert s[k] == P.Retired(s, r)[k];
      assert s[k] in Elements(P.Retired(s, r)) && s[k] in newest;
    }
  }

  lemma SplitAt(s: seq<int>, k: nat, newest: set<int>, x: int)
    requires k <= |s| && forall i :: 0 <= i < |s| ==> (s[i] in newest <==> i >= k)
    ensures x in Elements(s[..k]) <==> x in Elements(s) - newest
  {
    if x in s && x !in newest {
      var i :| 0 <= i < |s| && s[i] == x;
      assert s[..k][i] == x;
    }
    if x in s[..k] {
      var i :| 0 <= i < k && s[..k][i] == x;
      assert s[i] == x;
    }
  }

  lemma ManyAbove(s: seq<int>, k: nat, r: int)
    requires Nondecreasing(s) && 0 < k <= |s| && s[k - 1] !in Newest(Elements(s), r)
    ensures |s| - k >= r
  {
    var above := Above(Elements(s), s[k - 1]);
    assert s[k - 1] in s;
    forall y | y in above ensures y in Elements(s[k..]) {
      var i :| 0 <= i < |s| && s[i] == y;
      assert i >= k;
      assert s[k..][i - k] == y;
    }
    ElementsBound(s[k..]);
    SubsetSize(above, Elements(s[k..]));
  }

  /** Deleting ids removes exactly the files below their directories. */
  lemma {:induction false} DeletionsRemove(env: Environment, fs: FileSystem, job: string, ids: seq<int>, k: nat)
    requires Lawful(env) && Closed(fs) && forall i :: 0 <= i < |ids| ==> ids[i] >= 0
    ensures var after := P.Final(fs, P.Deletions(env, fs, job, ids));
      && Closed(after)
      && P.ReadManifest(env, after, job, k) == (if k in ids then Ok(None) else P.ReadManifest(env, fs, job, k))
      && (MetadataPath(env, job, k) in after.files <==> MetadataPath(env, job, k) in fs.files && k !in ids)
  {
    hide Closed, Lawful, P.ReadManifest, MetadataPath, CheckpointDirectory;
    if ids != [] {
      var last := |ids| - 1;
      assert ids == ids[..last] + [ids[last]];
      DeletionsRemove(env, fs, job, ids[..last], k);
      var before := P.Final(fs, P.Deletions(env, fs, job, ids[..last]));
      DeleteKeepsClosed(before, CheckpointDirectory(env, job, ids[last]));
      ReadAfterDelete(env, before, job, ids[last], job, k);
      DeletedMetadataGone(env, before, job, ids[last]);
      if MetadataPath(env, job, k) in before.files {
        OtherMetadataStays(env, before, job, ids[last], job, k);
      }
    }
  }

  function AfterCleanup(env: Environment, fs: FileSystem, job: string, r: int): FileSystem {
    P.Final(fs, P.Cleanup(env, fs, job, r).states)
  }

  /** The entries of the listing that belong to the `r` newest ids. */
  ghost function NewestEntries(env: Environment, fs: FileSystem, job: string, r: int): nat {
    Occurrences(P.Listing(env, fs, job), Newest(Completed(env, fs, job), r))
  }

  /**
    Retention keeps exactly the `r` newest checkpoints if and only if those fill
    no more than `r` entries of the listing.
   */
  lemma CleanupKeepsNewestIff(env: Environment, fs: FileSystem, job: string, r: int)
    requires Lawful(env) && Closed(fs) && job != "" && r >= 1
    ensures Completed(env, AfterCleanup(env, fs, job, r), job) == Newest(Completed(env, fs, job), r)
       <==> NewestEntries(env, fs, job, r) <= r
  {
    hide P.Listing, Newest, Occurrences, Closed, Lawful, P.Deletions, MetadataPath, Elements;
    var listing := P.Listing(env, fs, job);
    P.RetiredNaturals(env, fs, job, r);
    ListingSorted(env, fs, job);
    RetiredIff(listing, r);
    CompletedAfterCleanup(env, fs, job, r);
    NewestWithin(Completed(env, fs, job), r);
    RetiredWithin(listing, r);
  }

  lemma NewestWithin(all: set<int>, r: int)
    ensures Newest(all, r) <= all
  {
  }

  lemma RetiredWithin(s: seq<int>, r: int)
    requires r >= 1
    ensures Elements(P.Retired(s, r)) <= Elements(s)
  {
  }

  lemma ListingSorted(env: Environment, fs: FileSystem, job: string)
    ensures Nondecreasing(P.Listing(env, fs, job))
  {
    RanksInjective();
    SortIsSorted(P.ScannedIds(env, fs, job, Ordered(P.Names(env, fs, job), Rank)));
  }

  lemma CompletedAfterCleanup(env: Environment, fs: FileSystem, job: string, r: int)
    requires Lawful(env) && Closed(fs) && job != "" && r >= 1
    ensures Completed(env, AfterCleanup(env, fs, job, r), job)
         == Completed(env, fs, job) - Elements(P.Retired(P.Listing(env, fs, job), r))
  {
    hide P.Listing, P.Deletions, Closed, Lawful, MetadataPath;
    P.RetiredNaturals(env, fs, job, r);
    var after, retired := AfterCleanup(env, fs, job, r), P.Retired(P.Listing(env, fs, job), r);
    DeletionsRemove(env, fs, job, retired, 0);
    P.ListingNaturals(env, fs, job);
    P.ListingNaturals(env, after, job);
    forall id ensures id in Completed(env, after, job) <==> id in Completed(env, fs, job) && id !in retired {
      CompletedIff(env, fs, job, id);
      CompletedIff(env, after, job, id);
      if id >= 0 {
        DeletionsRemove(env, fs, job, retired, id);
      }
    }
  }

  lemma {:induction false} OccurrencesOfOne(s: seq<int>, x: int)
    ensures Occurrences(s, {x}) == multiset(s)[x]
  {
    if s != [] {
      var last := |s| - 1;
      OccurrencesOfOne(s[..last], x);
      assert s == s[..last] + [s[last]];
    }
  }

  lemma LargestRetiredIff(s: seq<int>, r: int, x: int)
    requires Nondecreasing(s) && r >= 1 && x in s && forall y :: y in s ==> y <= x
    ensures x in P.Retired(s, r) <==> multiset(s)[x] > r
  {
    hide Occurrences;
    var k := TailIn(s, {x});
    OccurrencesOfOne(s, x);
    var cut := |P.Retired(s, r)|;
    if k < cut {
      assert P.Retired(s, r)[k] == x;
    }
  }

  /** The newest checkpoint survives exactly when at most `r` directories are taken for it. */
  lemma NewestSurvivesIff(env: Environment, fs: FileSystem, job: string, r: int, id: int)
    requires Lawful(env) && Closed(fs) && job != "" && r >= 1
    requires IsMax(id, Completed(env, fs, job))
    ensures id in Completed(env, AfterCleanup(env, fs, job, r), job) <==> |Denoting(env, fs, job, id)| <= r
  {
    hide P.Listing, P.Retired, Closed, Lawful, AfterCleanup;
    var s := P.Listing(env, fs, job);
    ListingSorted(env, fs, job);
    assert forall y :: y in s ==> y in Completed(env, fs, job);
    LargestRetiredIff(s, r, id);
    P.ScanCounts(env, fs, job, id);
    CompletedAfterCleanup(env, fs, job, r);
  }

  /**
    A stray directory `chk-007` beside `chk-7` makes a cleanup that should retain one
    checkpoint delete the only one.
   */
  lemma StrayDirectoryLosesCheckpoint(env: Environment, fs: FileSystem, job: string)
    requires Lawful(env) && Closed(fs) && job != ""
    requires Completed(env, fs, job) == {7} && [env.quote(job), "chk-007"] in fs.dirs
    ensures Completed(env, AfterCleanup(env, fs, job, 1), job) == {}
  {
    hide P.Listing, AfterCleanup, Closed, Lawful;
    CompletedIff(env, fs, job, 7);
    SevenNames();
    assert [env.quote(job), "chk-007"][1] == "chk-007";
    MetadataBelow(env, job, 7);
    assert CheckpointDirectory(env, job, 7) in fs.dirs by { ClosedParents(fs, MetadataPath(env, job, 7)); }
    assert CheckpointDirectory(env, job, 7)[1] == "chk-7";
    SubsetSize({"chk-7", "chk-007"}, Denoting(env, fs, job, 7));
    assert "chk-7" != "chk-007" by { assert |"chk-7"| != |"chk-007"|; }
    NewestSurvivesIff(env, fs, job, 1, 7);
    CompletedAfterCleanup(env, fs, job, 1);
    var after := Completed(env, AfterCleanup(env, fs, job, 1), job);
    assert after <= {7} && 7 !in after;
  }

  lemma SevenNames()
    ensures CheckpointName(7) == "chk-7" && CheckpointIdOf("chk-7") == Some(7) && CheckpointIdOf("chk-007") == Some(7)
  {
    assert Decimal(7) == "7" && "chk-7"[4..] == "7" && "chk-007"[4..] == "007";
    assert "007"[..2] == "00" && "00"[..1] == "0";
    assert ParseDigits("0") == Some(0) && ParseDigits("00") == Some(0);
  }

  lemma ClosedParents(fs: FileSystem, p: Path)
    requires Closed(fs) && p in fs.files
    ensures Parents(p) <= fs.dirs
  {
  }

  lemma OneEntryEach(s: seq<int>, r: int)
    requires Nondecreasing(s) && NoDuplicates(s) && r >= 1
    ensures Occurrences(s, Newest(Elements(s), r)) <= r
  {
    hide Newest, Occurrences;
    var newest := Newest(Elements(s), r);
    NewestUpward(s, r);
    var k := TailIn(s, newest);
    if k < |s| {
      var tail := s[k + 1..];
      NoDuplicatesCount(tail);
      assert forall x :: x in tail ==> x in Above(Elements(s), s[k]) by {
        forall x | x in tail ensures x in Above(Elements(s), s[k]) {
          var i :| 0 <= i < |tail| && tail[i] == x;
          assert s[k + 1 + i] == x && s[k] != x;
        }
      }
      SubsetSize(Elements(tail), Above(Elements(s), s[k]));
      NewestAbove(Elements(s), r, s[k]);
    }
  }

  lemma NewestAbove(all: set<int>, r: int, x: int)
    requires x in Newest(all, r)
    ensures |Above(all, x)| < r
  {
  }

  /** Every directory that the scan counts has a name that the store itself would give it. */
  ghost predicate NoStrays(env: Environment, fs: FileSystem, job: string) {
    forall n :: n in P.Names(env, fs, job) && CheckpointIdOf(n).Some? ==> Plain(n[4..])
  }

  lemma ListedOnce(env: Environment, fs: FileSystem, job: string)
    requires NoStrays(env, fs, job)
    ensures NoDuplicates(P.Listing(env, fs, job))
  {
    hide P.Listing, P.Names, Plain, MetadataPath;
    var s := P.Listing(env, fs, job);
    forall i, j | 0 <= i < j < |s| ensures s[i] != s[j] {
      if s[i] == s[j] {
        P.ScanCounts(env, fs, job, s[i]);
        SeenTwice(s, i, j);
        var names := Denoting(env, fs, job, s[i]);
        forall n | n in names ensures n == CheckpointName(s[i]) {
          NameIsPlain(n, s[i]);
        }
        SubsetSize(names, if s[i] >= 0 then {CheckpointName(s[i])} else {});
      }
    }
  }

  lemma SeenTwice(s: seq<int>, i: nat, j: nat)
    requires i < j < |s| && s[i] == s[j]
    ensures multiset(s)[s[i]] >= 2
  {
    assert s == s[..j] + [s[j]] + s[j + 1..];
    assert s[i] == s[..j][i];
    assert s[i] in multiset(s[..j]);
  }

  /** Without stray directories, retention keeps exactly the `r` newest and recovery finds the same manifest. */
  lemma CleanupKeepsNewest(env: Environment, fs: FileSystem, job: string, r: int)
    requires Lawful(env) && Sound(env, fs) && job != "" && r >= 1 && NoStrays(env, fs, job)
    requires P.PointerId(env, fs, job).Ok?
    ensures Completed(env, AfterCleanup(env, fs, job, r), job) == Newest(Completed(env, fs, job), r)
    ensures P.Latest(env, AfterCleanup(env, fs, job, r), job) == P.Latest(env, fs, job)
  {
    hide Sound, P.Listing, Newest, P.PointerId, P.Latest, P.ReadManifest, AfterCleanup;
    SoundIsClosed(env, fs);
    ListedOnce(env, fs, job);
    ListingSorted(env, fs, job);
    OneEntryEach(P.Listing(env, fs, job), r);
    CleanupKeepsNewestIff(env, fs, job, r);
    LatestAfterCleanup(env, fs, job, r);
  }

  lemma LargestIsNewest(all: set<int>, r: int)
    requires all != {} && r >= 1
    ensures MaxOf(all) in Newest(all, r)
    ensures MaxOf(Newest(all, r)) == MaxOf(all)
  {
    assert Above(all, MaxOf(all)) == {};
    NewestWithin(all, r);
  }

  lemma {:induction false} PointerStays(env: Environment, fs: FileSystem, job: string, ids: seq<int>)
    requires forall i :: 0 <= i < |ids| ==> ids[i] >= 0
    ensures P.PointerId(env, P.Final(fs, P.Deletions(env, fs, job, ids)), job) == P.PointerId(env, fs, job)
  {
    if ids != [] {
      var last := |ids| - 1;
      var before := P.Final(fs, P.Deletions(env, fs, job, ids[..last]));
      PointerStays(env, fs, job, ids[..last]);
      PointerOutside(env, job, ids[last]);
      assert LatestPointer(env, job) in P.DeleteCheckpoint(env, before, job, ids[last]).files
        <==> LatestPointer(env, job) in before.files;
    }
  }

  lemma PointerOutside(env: Environment, job: string, id: nat)
    ensures !Below(LatestPointer(env, job), CheckpointDirectory(env, job, id))
  {
    assert LatestPointer(env, job)[1][0] != CheckpointDirectory(env, job, id)[1][0];
  }

  lemma LatestAfterCleanup(env: Environment, fs: FileSystem, job: string, r: int)
    requires Lawful(env) && Sound(env, fs) && job != "" && r >= 1 && P.PointerId(env, fs, job).Ok?
    requires Completed(env, AfterCleanup(env, fs, job, r), job) == Newest(Completed(env, fs, job), r)
    ensures P.Latest(env, AfterCleanup(env, fs, job, r), job) == P.Latest(env, fs, job)
  {
    hide Sound, P.Listing, Newest, P.PointerId, P.Latest, P.ReadManifest, P.Deletions, Lawful, MetadataPath,
      Completed, P.Retired;
    var after := AfterCleanup(env, fs, job, r);
    P.RetiredNaturals(env, fs, job, r);
    var retired := P.Retired(P.Listing(env, fs, job), r);
    PointerStays(env, fs, job, retired);
    CallKeepsSound(env, fs, Cleanup(job, r));
    FinalSound(env, fs, P.Deletions(env, fs, job, retired));
    LatestIsHighestCommitted(env, fs, job);
    LatestIsHighestCommitted(env, after, job);
    var done := Completed(env, fs, job);
    NewestWithin(done, r);
    if done != {} {
      LargestIsNewest(done, r);
      SoundIsClosed(env, fs);
      SoundIsClosed(env, after);
      CompletedIff(env, after, job, MaxOf(done));
      DeletionsRemove(env, fs, job, retired, MaxOf(done));
    }
  }

  lemma FinalSound(env: Environment, fs: FileSystem, states: seq<FileSystem>)
    requires Sound(env, fs) && AllSound(env, states)
    ensures Sound(env, P.Final(fs, states))
  {
    hide Sound;
  }
}

/** Rescaling as a checkpoint restore performs it: the backends themselves, end to end. */
module RescaleProcedure {
  import opened Wrappers
  import opened KeyGroups
  import opened KeyCodec
  import opened KeyedState
  import opened StoredState
  import opened KeyGroupSnapshots
  import opened ManagedSnapshot
  import opened IntegerSort
  import opened MemoryBackend
  import opened Rescale
  import opened RescaleTheorem
  import opened RestoreAcceptance

  ghost function Models<K(!new)>(backends: seq<MemoryStateBackend<K>>): (contents: seq<Contents<K>>)
    reads backends
    ensures |contents| == |backends|
  {
    seq(|backends|, i requires 0 <= i < |backends| reads backends => backends[i].model)
  }

  ghost function Dictionaries<K(!new)>(backends: seq<MemoryStateBackend<K>>): (stores: seq<Entries>)
    reads backends
    ensures |stores| == |backends|
  {
    seq(|backends|, i requires 0 <= i < |backends| reads backends => backends[i].Stored())
  }

  ghost predicate AllValid<K(!new)>(codec: KeyCodec<K>, backends: seq<MemoryStateBackend<K>>)
    reads backends
  {
    forall i :: 0 <= i < |backends| ==> backends[i].Valid() && backends[i].codec == codec
  }

  lemma ValidStores<K(!new)>(codec: KeyCodec<K>, backends: seq<MemoryStateBackend<K>>)
    requires AllValid(codec, backends)
    ensures AllStored(codec, Dictionaries(backends), Models(backends))
  {
    hide Stores;
  }

  /** A snapshot of a valid backend does not fail. */
  lemma BackendDecodes<K(!new)>(codec: KeyCodec<K>, backends: seq<MemoryStateBackend<K>>, i: nat)
    requires AllValid(codec, backends) && i < |backends|
    ensures Decodable(backends[i].Stored())
  {
    StoredIsValid(codec, backends[i].Stored(), backends[i].model);
  }

  /** The values of a mapping, in some order. */
  method Values(groups: map<int, GroupSnapshot>) returns (parts: seq<GroupSnapshot>)
    ensures Lists(parts, groups)
  {
    parts := [];
    var pending := groups.Keys;
    while pending != {}
      invariant pending <= groups.Keys
      invariant forall i :: 0 <= i < |parts| ==> IsValueOf(parts[i], groups)
      invariant forall g :: g in groups && g !in pending ==> groups[g] in parts
      decreases pending
    {
      Inhabited(pending);
      var g :| g in pending;
      assert IsValueOf(groups[g], groups);
      parts := parts + [groups[g]];
      pending := pending - {g};
    }
  }

  /** `snapshot_state` of every subtask. */
  method SnapshotAll<K(!new)>(
      codec: KeyCodec<K>, backends: seq<MemoryStateBackend<K>>, m: int, watermarks: seq<int>)
    returns (fragments: seq<Envelope<GroupSnapshot>>)
    requires ValidParallelism(m, |backends|) && |watermarks| == |backends| && AllValid(codec, backends)
    ensures fragments == Fragments(codec, m, Dictionaries(backends), watermarks)
  {
    hide Buckets;
    var n := |backends|;
    fragments := [];
    for i := 0 to n
      invariant |fragments| == i
      invariant forall k :: 0 <= k < i ==>
        fragments[k] == Fragment(codec, m, n, k, Dictionaries(backends)[k], watermarks[k])
    {
      BackendDecodes(codec, backends, i);
      var groups := backends[i].SnapshotKeyGroups(m, RangeGroups(m, n, i));
      fragments := fragments
        + [Envelope(FORMAT_VERSION, Some(KEY_ENCODING_VERSION), m, RangeOf(m, n, i), groups.value, watermarks[i])];
    }
  }

  lemma FragmentsRefused<K>(codec: KeyCodec<K>, m: int, stores: seq<Entries>, watermarks: seq<int>, target: int)
    requires ValidParallelism(m, |stores|) && |watermarks| == |stores| && !(1 <= target <= m)
    ensures !Acceptable(Fragments(codec, m, stores, watermarks), target)
  {
  }

  lemma SharesCount<K>(codec: KeyCodec<K>, m: int, stores: seq<Entries>, watermarks: seq<int>, target: int)
    requires ValidParallelism(m, |stores|) && |watermarks| == |stores| && ValidParallelism(m, target)
    ensures |Repartitioned(Fragments(codec, m, stores, watermarks), target)| == target
  {
  }

  /** `restore_state` of one new subtask: join the key groups of its share. */
  method RestoreShare<K(!new)>(
      codec: KeyCodec<K>, ghost m: int, ghost stores: seq<Entries>, ghost contents: seq<Contents<K>>,
      ghost watermarks: seq<int>, ghost target: int, ghost j: int, share: Envelope<GroupSnapshot>)
    returns (b: MemoryStateBackend<K>)
    requires Lawful(codec) && ValidParallelism(m, |stores|) && ValidParallelism(m, target) && 0 <= j < target
    requires AllStored(codec, stores, contents) && AllPlaced(codec, m, contents) && |watermarks| == |stores|
    requires share == Repartitioned(Fragments(codec, m, stores, watermarks), target)[j]
    ensures fresh(b) && b.Valid() && b.codec == codec && b.model == Rescaled(codec, m, contents, target, j)
  {
    hide AllStored, AllPlaced, Fragments, Repartitioned, Rescaled, Joined, Lists;
    var parts := Values(share.keyGroups);
    RestoredBackends(codec, m, stores, contents, watermarks, target, j, parts);
    b := new MemoryStateBackend(codec);
    var error := b.RestoreKeyGroups(parts, Rescaled(codec, m, contents, target, j));
  }

  /**
    From the old backends to the new ones: snapshot every old backend, redistribute,
    and restore each share into a fresh backend. It succeeds exactly for a valid
    target parallelism, and each new backend then holds exactly the keyed state that
    routing assigns to it.
   */
  method RescaleBackends<K(!new)>(
      codec: KeyCodec<K>, backends: seq<MemoryStateBackend<K>>, m: int, watermarks: seq<int>, target: int)
    returns (r: Result<seq<MemoryStateBackend<K>>, SnapshotError>)
    requires ValidParallelism(m, |backends|) && |watermarks| == |backends| && AllValid(codec, backends)
    requires AllPlaced(codec, m, Models(backends))
    ensures r.Ok? <==> ValidParallelism(m, target)
    ensures r.Ok? ==> |r.value| == target && AllValid(codec, r.value) && fresh(r.value)
    ensures r.Ok? ==> Models(r.value) == AllRescaled(codec, m, Models(backends), target)
  {
    hide AllStored, AllPlaced, Acceptable, Fragments, Repartitioned, Rescaled, MemoryStateBackend.Valid;
    ghost var contents, stores := Models(backends), Dictionaries(backends);
    CodecLawful(codec, backends);
    ValidStores(codec, backends);
    var fragments := SnapshotAll(codec, backends, m, watermarks);
    if 1 <= target <= m {
      FragmentsAcceptable(codec, m, stores, watermarks, target);
      SharesCount(codec, m, stores, watermarks, target);
    } else {
      FragmentsRefused(codec, m, stores, watermarks, target);
    }
    var shares := Repartition(fragments, target);
    if shares.Err? {
      return Err(shares.error);
    }
    var restored: seq<MemoryStateBackend<K>> := [];
    for j := 0 to target
      invariant |restored| == j && fresh(restored)
      invariant AllValid(codec, restored)
      invariant forall k :: 0 <= k < j ==> restored[k].model == Rescaled(codec, m, contents, target, k)
    {
      var b := RestoreShare(codec, m, stores, contents, watermarks, target, j, shares.value[j]);
      restored := restored + [b];
    }
    r := Ok(restored);
  }

  lemma CodecLawful<K(!new)>(codec: KeyCodec<K>, backends: seq<MemoryStateBackend<K>>)
    requires AllValid(codec, backends) && backends != []
    ensures Lawful(codec)
  {
    assert backends[0].Valid();
  }
}

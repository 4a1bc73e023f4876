/** Rescaling RocksDB backends end to end: as for the memory backends, with validation before installing. */
module RocksDbRescale {
  import opened Wrappers
  import opened KeyGroups
  import opened KeyCodec
  import opened KeyedState
  import opened StoredState
  import opened KeyGroupSnapshots
  import opened ManagedSnapshot
  import opened RocksDbBackend
  import opened Rescale
  import opened RescaleTheorem
  import Procedure = RescaleProcedure
  import opened RestoreAcceptance

  ghost function Models<K(!new)>(backends: seq<RocksDbStateBackend<K>>): (contents: seq<Contents<K>>)
    reads backends
    ensures |contents| == |backends|
  {
    seq(|backends|, i requires 0 <= i < |backends| reads backends => backends[i].model)
  }

  ghost function Dictionaries<K(!new)>(backends: seq<RocksDbStateBackend<K>>): (stores: seq<Entries>)
    reads backends
    ensures |stores| == |backends|
  {
    seq(|backends|, i requires 0 <= i < |backends| reads backends => backends[i].Stored())
  }

  ghost predicate AllValid<K(!new)>(codec: KeyCodec<K>, backends: seq<RocksDbStateBackend<K>>)
    reads backends
  {
    forall i :: 0 <= i < |backends| ==> backends[i].Valid() && backends[i].codec == codec
  }

  lemma ValidStores<K(!new)>(codec: KeyCodec<K>, backends: seq<RocksDbStateBackend<K>>)
    requires AllValid(codec, backends)
    ensures AllStored(codec, Dictionaries(backends), Models(backends))
  {
    hide Stores;
  }

  /** A snapshot of a valid backend does not fail. */
  lemma BackendDecodes<K(!new)>(codec: KeyCodec<K>, backends: seq<RocksDbStateBackend<K>>, i: nat)
    requires AllValid(codec, backends) && i < |backends|
    ensures Decodable(backends[i].Stored())
  {
    StoredIsValid(codec, backends[i].Stored(), backends[i].model);
  }

  /** `snapshot_state` of every subtask. */
  method SnapshotAll<K(!new)>(
      codec: KeyCodec<K>, backends: seq<RocksDbStateBackend<K>>, m: int, watermarks: seq<int>)
    returns (fragments: seq<Envelope<GroupSnapshot>>)
    requires ValidParallelism(m, |backends|) && |watermarks| == |backends| && AllValid(codec, backends)
    ensures fragments == Fragments(codec, m, Dictionaries(backends), watermarks)
  {
    hide Buckets;
    var n := |backends|;
    fragments := [];
    for i := 0 to n
      invariant |fragments| == i
      invariant forall k :: 0 <= k < i ==>
        fragments[k] == Fragment(codec, m, n, k, Dictionaries(backends)[k], watermarks[k])
    {
      BackendDecodes(codec, backends, i);
      var groups := backends[i].SnapshotKeyGroups(m, RangeGroups(m, n, i));
      fragments := fragments
        + [Envelope(FORMAT_VERSION, Some(KEY_ENCODING_VERSION), m, RangeOf(m, n, i), groups.value, watermarks[i])];
    }
  }

  /** `restore_state` of one new subtask: join the key groups of its share. */
  method RestoreShare<K(!new)>(
      codec: KeyCodec<K>, ghost m: int, ghost stores: seq<Entries>, ghost contents: seq<Contents<K>>,
      ghost watermarks: seq<int>, ghost target: int, ghost j: int, share: Envelope<GroupSnapshot>)
    returns (b: RocksDbStateBackend<K>)
    requires Lawful(codec) && ValidParallelism(m, |stores|) && ValidParallelism(m, target) && 0 <= j < target
    requires AllStored(codec, stores, contents) && AllPlaced(codec, m, contents) && |watermarks| == |stores|
    requires share == Repartitioned(Fragments(codec, m, stores, watermarks), target)[j]
    ensures fresh(b) && b.Valid() && b.codec == codec && b.model == Rescaled(codec, m, contents, target, j)
  {
    hide AllStored, AllPlaced, Fragments, Repartitioned, Rescaled, Joined, Lists;
    var parts := Procedure.Values(share.keyGroups);
    RestoredBackends(codec, m, stores, contents, watermarks, target, j, parts);
    SharesAccepted(codec, m, stores, contents, watermarks, target, j, parts);
    b := new RocksDbStateBackend(codec);
    var error := b.RestoreKeyGroups(parts, Rescaled(codec, m, contents, target, j));
  }

  /**
    From the old backends to the new ones: snapshot every old backend, redistribute,
    and restore each share into a fresh backend. It succeeds exactly for a valid
    target parallelism, and each new backend then holds exactly the keyed state that
    routing assigns to it.
   */
  method RescaleBackends<K(!new)>(
      codec: KeyCodec<K>, backends: seq<RocksDbStateBackend<K>>, m: int, watermarks: seq<int>, target: int)
    returns (r: Result<seq<RocksDbStateBackend<K>>, SnapshotError>)
    requires ValidParallelism(m, |backends|) && |watermarks| == |backends| && AllValid(codec, backends)
    requires AllPlaced(codec, m, Models(backends))
    ensures r.Ok? <==> ValidParallelism(m, target)
    ensures r.Ok? ==> |r.value| == target && AllValid(codec, r.value) && fresh(r.value)
    ensures r.Ok? ==> Models(r.value) == AllRescaled(codec, m, Models(backends), target)
  {
    hide AllStored, AllPlaced, Acceptable, Fragments, Repartitioned, Rescaled, RocksDbStateBackend.Valid;
    ghost var contents, stores := Models(backends), Dictionaries(backends);
    CodecLawful(codec, backends);
    ValidStores(codec, backends);
    var fragments := SnapshotAll(codec, backends, m, watermarks);
    if 1 <= target <= m {
      FragmentsAcceptable(codec, m, stores, watermarks, target);
      Procedure.SharesCount(codec, m, stores, watermarks, target);
    } else {
      Procedure.FragmentsRefused(codec, m, stores, watermarks, target);
    }
    var shares := Repartition(fragments, target);
    if shares.Err? {
      return Err(shares.error);
    }
    var restored: seq<RocksDbStateBackend<K>> := [];
    for j := 0 to target
      invariant |restored| == j && fresh(restored)
      invariant AllValid(codec, restored)
      invariant forall k :: 0 <= k < j ==> restored[k].model == Rescaled(codec, m, contents, target, k)
    {
      var b := RestoreShare(codec, m, stores, contents, watermarks, target, j, shares.value[j]);
      restored := restored + [b];
    }
    r := Ok(restored);
  }

  lemma CodecLawful<K(!new)>(codec: KeyCodec<K>, backends: seq<RocksDbStateBackend<K>>)
    requires AllValid(codec, backends) && backends != []
    ensures Lawful(codec)
  {
    assert backends[0].Valid();
  }
}

/** What RocksDB's restore demands of key-group snapshots, and why snapshots of backends meet it. */
module RestoreAcceptance {
  import opened Bytes
  import opened StateCodec
  import opened Encodings
  import opened KeyGroups
  import opened KeyCodec
  import opened KeyedState
  import opened StoredState
  import opened KeyGroupSnapshots
  import opened ManagedSnapshot
  import opened Rescale
  import opened RescaleTheorem

  lemma StateValid(d: map<Blob, Blob>, cells: map<Slot, Cell>, b: Blob)
    requires Encodes(d, cells, SlotKey, CellBytes) && b in d
    ensures StateEntryValid(b, d[b])
  {
    assert Encoded(b, cells, SlotKey);
    var s :| s in cells && SlotKey(s) == b;
    StateKeyRoundTrip(b, s);
    LookupCell(d, cells, s);
  }

  lemma ExpiryValid(d: map<Blob, Blob>, index: set<IndexEntry>, b: Blob)
    requires Encodes(d, Unit(index), IndexKey, NoBytes) && b in d
    ensures ExpiryEntryValid(b, d[b])
  {
    assert Encoded(b, Unit(index), IndexKey);
    var x :| x in Unit(index) && IndexKey(x) == b;
    ExpiryKeyRoundTrip(b, x.0, EncodeStateKey(x.1));
    StateKeyRoundTrip(EncodeStateKey(x.1), x.1);
    IndexKeyInjective();
    EncodesLookup(d, Unit(index), IndexKey, NoBytes, x);
  }

  lemma TimerValid<K(!new)>(codec: KeyCodec<K>, d: map<Blob, Blob>, timers: map<TimerId, (K, K)>, b: Blob)
    requires Lawful(codec) && b in d
    requires Encodes(d, timers, TimerKey(codec), PairBytes(codec)) && TimersFiled(codec, timers)
    ensures TimerEntryValid(codec, b, d[b])
  {
    assert Encoded(b, timers, TimerKey(codec));
    var t :| t in timers && TimerKey(codec)(t) == b;
    TimerKeyInjective(codec);
    EncodesLookup(d, timers, TimerKey(codec), PairBytes(codec), t);
    var v := timers[t];
    assert d[b] == codec.dumpPair(v.0, v.1) && codec.loadPair(d[b]) == (v.0, v.1);
    TimerKeyRoundTrip(t.domain, t.timestamp, codec.digest(t.key, t.namespace));
  }

  /** Every entry of a backend passes the validation. */
  lemma StoredIsValid<K(!new)>(codec: KeyCodec<K>, e: Entries, c: Contents<K>)
    requires Lawful(codec) && StoredIn(codec, e, c)
    ensures AllEntriesValid(codec, e) && Decodable(e)
  {
    hide Lawful, Encodes, StateEntryValid, ExpiryEntryValid, TimerEntryValid;
    forall b | b in e.state ensures StateEntryValid(b, e.state[b]) { StateValid(e.state, c.cells, b); }
    forall b | b in e.expiry ensures ExpiryEntryValid(b, e.expiry[b]) { ExpiryValid(e.expiry, c.index, b); }
    forall b | b in e.timers ensures TimerEntryValid(codec, b, e.timers[b]) {
      TimerValid(codec, e.timers, c.timers, b);
    }
    ValidDecodes(codec, e);
  }

  lemma ValidDecodes<K>(codec: KeyCodec<K>, e: Entries)
    requires AllEntriesValid(codec, e)
    ensures Decodable(e)
  {
  }

  lemma PieceValid<K>(codec: KeyCodec<K>, m: int, e: Entries, groups: set<int>)
    requires m >= 1 && AllEntriesValid(codec, e)
    ensures AllEntriesValid(codec, Restricted(codec, m, e, groups))
  {
    hide StateEntryValid, ExpiryEntryValid, TimerEntryValid;
  }

  lemma PiecesAgree<K>(
      f: Family, codec: KeyCodec<K>, m: int, stores: seq<Entries>, target: int, j: int, parts: seq<GroupSnapshot>)
    requires ValidParallelism(m, |stores|) && ValidParallelism(m, target) && WellPlaced(codec, m, stores)
    requires KeyDetermined(Selected(f, stores), GroupOf(f, codec, m))
    requires ArePieces(codec, m, stores, target, j, parts)
    ensures PartsAgree(Selected(f, Unpickled(parts)))
  {
    hide ArePieces, WellPlaced, OwnedGroups;
    var received, ds := Selected(f, Unpickled(parts)), Selected(f, stores);
    StoresAgree(f, codec, m, stores);
    forall i, k, b | 0 <= i < |received| && 0 <= k < |received| && b in received[i] && b in received[k]
      ensures received[i][b] == received[k][b]
    {
      assert HeldBy(received, b, received[i][b]) && HeldBy(received, b, received[k][b]);
      HeldByParts(f, codec, m, stores, target, j, parts, b, received[i][b]);
      HeldByParts(f, codec, m, stores, target, j, parts, b, received[k][b]);
      HeldOnce(ds, b, received[i][b], received[k][b]);
    }
  }

  lemma HeldOnce(ds: seq<map<Blob, Blob>>, b: Blob, v: Blob, w: Blob)
    requires PartsAgree(ds) && HeldBy(ds, b, v) && HeldBy(ds, b, w)
    ensures v == w
  {
  }

  lemma PiecesValid<K>(
      codec: KeyCodec<K>, m: int, stores: seq<Entries>, target: int, j: int, parts: seq<GroupSnapshot>)
    requires m >= 1 && ArePieces(codec, m, stores, target, j, parts)
    requires forall i :: 0 <= i < |stores| ==> AllEntriesValid(codec, stores[i])
    ensures PartsValid(codec, parts)
  {
    hide AllEntriesValid, Restricted, OwnedGroups;
    forall k | 0 <= k < |parts| ensures AllEntriesValid(codec, parts[k].entries) {
      assert SomePiece(codec, m, stores, target, j, parts[k].entries);
      var i, g :| IsPiece(codec, m, stores, target, j, parts[k].entries, i, g);
      PieceValid(codec, m, stores[i], {g});
    }
  }

  /** What a new subtask is handed in a rescale, RocksDB accepts: valid entries without conflicts. */
  lemma SharesAccepted<K(!new)>(
      codec: KeyCodec<K>, m: int, stores: seq<Entries>, contents: seq<Contents<K>>, watermarks: seq<int>,
      target: int, j: int, parts: seq<GroupSnapshot>)
    requires Lawful(codec) && ValidParallelism(m, |stores|) && ValidParallelism(m, target) && 0 <= j < target
    requires AllStored(codec, stores, contents) && AllPlaced(codec, m, contents) && |watermarks| == |stores|
    requires Lists(parts, Repartitioned(Fragments(codec, m, stores, watermarks), target)[j].keyGroups)
    ensures (forall s :: s in parts ==> Supported(s)) && PartsValid(codec, parts) && NoConflicts(parts)
  {
    hide WellPlaced, KeyDetermined, AllPlaced, StoredIn, Lists, Repartitioned, Fragments, ArePieces, Lawful,
      PartsAgree, AllEntriesValid, PartsValid;
    EntriesWellPlaced(codec, m, stores, contents);
    ReceivedPieces(codec, m, stores, watermarks, target, j, parts);
    forall i | 0 <= i < |stores| ensures AllEntriesValid(codec, stores[i]) {
      StoredIsValid(codec, stores[i], contents[i]);
    }
    PiecesValid(codec, m, stores, target, j, parts);
    PiecesAgree(State, codec, m, stores, target, j, parts);
    PiecesAgree(Expiry, codec, m, stores, target, j, parts);
    PiecesAgree(Timers, codec, m, stores, target, j, parts);
    FamiliesOf(parts);
  }

  lemma FamiliesOf(parts: seq<GroupSnapshot>)
    ensures States(parts) == Selected(State, Unpickled(parts))
    ensures Expiries(parts) == Selected(Expiry, Unpickled(parts))
    ensures TimerMaps(parts) == Selected(Timers, Unpickled(parts))
  {
  }
}

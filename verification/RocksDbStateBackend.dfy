/** The RocksDB keyed state backend: `rocks_db_state_backend.py`, over four sorted column families. */
module RocksDbBackend {
  import opened Wrappers
  import opened Bytes
  import opened StateCodec
  import opened Sorting
  import opened Encodings
  import opened KeyCodec
  import opened KeyedState
  import opened StoredState
  import opened StateScans
  import opened KeyGroupSnapshots

  /** The loop of `namespaces`: iterate from the prefix and stop at the first key outside it. */
  method ScannedNamespaces<K>(codec: KeyCodec<K>, keys: seq<Blob>, name: Field, key: Field, ghost order: seq<Slot>)
    returns (found: seq<K>)
    requires InOrder(keys, order, SlotKey) && Ascending(keys, Identity)
    ensures found == DecodedNamespaces(codec, Filter(order, HasNameAndKey(name, key)))
  {
    var prefix := StateKeyPrefix(name, key);
    ghost var p := HasNameAndKey(name, key);
    found := [];
    var i := Seek(keys, prefix);
    NamespacePrefix(keys, order, name, key);
    PrefixScan(keys, prefix, order, p, i);
    while i < |keys|
      invariant Seek(keys, prefix) <= i <= |keys|
      invariant found == DecodedNamespaces(codec, Filter(order[..i], p))
    {
      NamespaceStep(codec, keys, order, i, name, key);
      if !StartsWith(keys[i], prefix) {
        PrefixScan(keys, prefix, order, p, i);
        break;
      }
      found := found + [codec.decode(DecodeStateKey(keys[i]).value.namespace)];
      i := i + 1;
    }
    FilterStops(order, p, i);
  }

  class RocksDbStateBackend<K(!new)> {
    const codec: KeyCodec<K>
    var currentKey: Option<K>
    var state: map<Blob, Blob>
    var expiry: map<Blob, Blob>
    var timers: map<Blob, Blob>

    /** The keyed state that the column families hold. */
    ghost var model: Contents<K>

    ghost predicate Valid()
      reads this
    {
      Lawful(codec) && Stores(codec, state, expiry, timers, model)
    }

    constructor (codec: KeyCodec<K>)
      requires Lawful(codec)
      ensures Valid() && this.codec == codec && model == Empty() && currentKey == None
    {
      this.codec := codec;
      currentKey := None;
      state, expiry, timers := map[], map[], map[];
      model := Empty();
    }

    method SetCurrentKey(key: K)
      requires Valid()
      modifies this
      ensures Valid() && model == old(model) && currentKey == Some(key)
    {
      currentKey := Some(key);
    }

    function SlotProblem(descriptor: Descriptor, namespace: K): Option<BackendError>
      reads this
    {
      SlotError(codec, currentKey, descriptor, namespace)
    }

    function SlotFor(descriptor: Descriptor, namespace: K): Slot
      reads this
      requires SlotProblem(descriptor, namespace).None?
    {
      SlotOf(codec, descriptor, currentKey.value, namespace)
    }

    method Get(descriptor: Descriptor, namespace: K, now: Millis, renewal: Millis)
      returns (r: Result<Option<Blob>, BackendError>)
      requires Valid()
      modifies this
      ensures Valid() && currentKey == old(currentKey)
      ensures SlotProblem(descriptor, namespace).Some? ==>
        r == Err(SlotProblem(descriptor, namespace).value) && model == old(model)
      ensures SlotProblem(descriptor, namespace).None? ==>
        var slot := SlotFor(descriptor, namespace);
        && r == Ok(Visible(old(model), slot, descriptor.ttl, now))
        && model == AfterGet(old(model), true, slot, descriptor.ttl, now, renewal)
    {
      hide Lawful, Encodes, EncodeStateKey, DecodeStateValue;
      var problem := SlotProblem(descriptor, namespace);
      if problem.Some? {
        return Err(problem.value);
      }
      ghost var slot := SlotFor(descriptor, namespace);
      var stateKey := EncodeStateKey(SlotFor(descriptor, namespace));
      StoredCellIs(state, model.cells, slot);
      var stored := StoredCell(state, stateKey);
      if stored.None? {
        return Ok(None);
      }
      var (expiresAt, payload) := stored.value;
      if expiresAt.Some? && expiresAt.value <= now
         && (descriptor.ttl.None? || !descriptor.ttl.value.returnExpired)
      {
        DeleteStateKey(stateKey, slot);
        assert slot == SlotFor(descriptor, namespace);
        assert Visible(old(model), slot, descriptor.ttl, now) == None;
        return Ok(None);
      }
      assert Visible(model, slot, descriptor.ttl, now) == Some(payload);
      if descriptor.ttl.Some? && descriptor.ttl.value.refreshOnRead {
        var error := Put(descriptor, payload, namespace, renewal);
      }
      assert slot == SlotFor(descriptor, namespace);
      return Ok(Some(payload));
    }

    method Put(descriptor: Descriptor, payload: Blob, namespace: K, now: Millis)
      returns (error: Option<BackendError>)
      requires Valid()
      modifies this
      ensures Valid() && currentKey == old(currentKey)
      ensures SlotProblem(descriptor, namespace).Some? ==>
        error == SlotProblem(descriptor, namespace) && model == old(model)
      ensures SlotProblem(descriptor, namespace).None? ==>
        && error == None
        && model == KeyedState.Put(
             old(model), SlotFor(descriptor, namespace), payload, ExpiryFor(descriptor.ttl, now))
    {
      var problem := SlotProblem(descriptor, namespace);
      if problem.Some? {
        return problem;
      }
      ghost var slot := SlotFor(descriptor, namespace);
      var stateKey := EncodeStateKey(SlotFor(descriptor, namespace));
      var expiresAt := ExpiryFor(descriptor.ttl, now);
      StoredExpiryIs(state, model.cells, slot);
      PutStored(codec, state, expiry, timers, model, slot, payload, expiresAt);
      // the write batch, applied at once
      var previous := StoredExpiry(state, stateKey);
      var batch := if previous.Some? then expiry - {EncodeExpiryKey(previous.value, stateKey)} else expiry;
      batch := if expiresAt.Some? then batch[EncodeExpiryKey(expiresAt.value, stateKey) := []] else batch;
      state, expiry := state[stateKey := EncodeStateValue(payload, Signed(expiresAt))], batch;
      model := KeyedState.Put(model, slot, payload, expiresAt);
      return None;
    }

    /** `_delete_state_key`: the value and its index entry go in one batch. */
    method DeleteStateKey(stateKey: Blob, ghost slot: Slot)
      requires Valid() && stateKey == EncodeStateKey(slot)
      modifies this
      ensures Valid() && currentKey == old(currentKey)
      ensures model == KeyedState.Delete(old(model), slot)
    {
      StoredExpiryIs(state, model.cells, slot);
      DeleteStored(codec, state, expiry, timers, model, slot);
      var previous := StoredExpiry(state, stateKey);
      var batch := if previous.Some? then expiry - {EncodeExpiryKey(previous.value, stateKey)} else expiry;
      state, expiry := state - {stateKey}, batch;
      model := KeyedState.Delete(model, slot);
    }

    method Delete(descriptor: Descriptor, namespace: K)
      returns (error: Option<BackendError>)
      requires Valid()
      modifies this
      ensures Valid() && currentKey == old(currentKey)
      ensures SlotProblem(descriptor, namespace).Some? ==>
        error == SlotProblem(descriptor, namespace) && model == old(model)
      ensures SlotProblem(descriptor, namespace).None? ==>
        error == None && model == KeyedState.Delete(old(model), SlotFor(descriptor, namespace))
    {
      var problem := SlotProblem(descriptor, namespace);
      if problem.Some? {
        return problem;
      }
      DeleteStateKey(EncodeStateKey(SlotFor(descriptor, namespace)), SlotFor(descriptor, namespace));
      return None;
    }

    method Namespaces(descriptor: Descriptor) returns (r: Result<seq<K>, BackendError>)
      requires Valid()
      ensures PrefixError(codec, currentKey, descriptor).Some? ==>
        r == Err(PrefixError(codec, currentKey, descriptor).value)
      ensures PrefixError(codec, currentKey, descriptor).None? ==>
        r == Ok(KeyedState.Namespaces(codec, model, descriptor.name, codec.encode(currentKey.value)))
    {
      var problem := PrefixError(codec, currentKey, descriptor);
      if problem.Some? {
        return Err(problem.value);
      }
      var key := codec.encode(currentKey.value);
      StoresSlotsSorted(codec, state, expiry, timers, model);
      OrderedIsOrdering(state.Keys, Identity);
      var found := ScannedNamespaces(codec, SortedKeys(state.Keys), descriptor.name, key, SlotOrder(model));
      NamespacesFound(codec, model, descriptor.name, key);
      return Ok(found);
    }

    method RegisterTimer(timestamp: int, namespace: K, domain: TimerDomain)
      returns (error: Option<BackendError>)
      requires Valid()
      modifies this
      ensures Valid() && currentKey == old(currentKey)
      ensures error == RegistrationError(currentKey, timestamp)
      ensures error.Some? ==> model == old(model)
      ensures error.None? ==>
        model == Register(codec, old(model), domain, timestamp, currentKey.value, namespace)
    {
      if timestamp < 0 {
        return Some(NegativeTimestamp);
      }
      if currentKey.None? {
        return Some(NoCurrentKey);
      }
      if timestamp >= 0x1_0000_0000_0000_0000 {
        return Some(TimestampOverflow);
      }
      var key := currentKey.value;
      ghost var t := TimerOf(codec, domain, timestamp, key, namespace);
      StoreTimer(codec, timers, model.timers, t, (key, namespace));
      var digest := codec.digest(codec.encode(key), codec.encode(namespace));
      timers := timers[EncodeTimerKey(domain, timestamp, digest) := codec.dumpPair(key, namespace)];
      model := Register(codec, model, domain, timestamp, key, namespace);
      return None;
    }

    method DeleteTimer(timestamp: int, namespace: K, domain: TimerDomain)
      returns (error: Option<BackendError>)
      requires Valid()
      modifies this
      ensures Valid() && currentKey == old(currentKey)
      ensures error == DeletionError(currentKey, timestamp)
      ensures error.Some? ==> model == old(model)
      ensures error.None? ==>
        model == Unregister(codec, old(model), domain, timestamp, currentKey.value, namespace)
    {
      if currentKey.None? {
        return Some(NoCurrentKey);
      }
      if !(0 <= timestamp < 0x1_0000_0000_0000_0000) {
        return Some(TimestampOverflow);
      }
      ghost var t := TimerOf(codec, domain, timestamp, currentKey.value, namespace);
      DropTimer(codec, timers, model.timers, t);
      var digest := codec.digest(codec.encode(currentKey.value), codec.encode(namespace));
      timers := timers - {EncodeTimerKey(domain, timestamp, digest)};
      model := Unregister(codec, model, domain, timestamp, currentKey.value, namespace);
      return None;
    }

    method PopDueTimers(timestamp: int, domain: TimerDomain, limit: Option<int>)
      returns (result: seq<TimerEvent<K>>)
      requires Valid()
      modifies this
      ensures Valid() && currentKey == old(currentKey)
      ensures var fired := Fired(codec, old(model), domain, timestamp, limit);
        result == Events(old(model), fired) && model == WithoutTimers(old(model), fired)
    {
      result := ScanDue(timestamp, domain, limit);
      RemoveFired(result, Fired(codec, model, domain, timestamp, limit));
    }

    /** The first loop of `pop_due_timers`: iterate from the domain's prefix and stop where it ends. */
    method ScanDue(timestamp: int, domain: TimerDomain, limit: Option<int>)
      returns (result: seq<TimerEvent<K>>)
      requires Valid()
      ensures result == Events(model, Fired(codec, model, domain, timestamp, limit))
    {
      hide Encodes, Fired, Filter, Ordered, EncodeTimerKey, DecodeTimerTimestamp, StartsWith, Lawful, Events, AllFiled,
        TimerOrder, SortedKeys, Ascending, Seek, TimerPrefix, PairBytes, TimerKey, InOrder, TimersFiled;
      var prefix := TimerPrefix(domain);
      var keys := SortedKeys(timers.Keys);
      TimerKeysSorted(codec, timers, model);
      assert Encodes(timers, model.timers, TimerKey(codec), PairBytes(codec));
      hide Stores;
      ghost var order, p := TimerOrder(codec, model), IsDue(domain, timestamp);
      result := [];
      var i := Seek(keys, prefix);
      TimerPrefixScan(codec, timers, model, keys, domain, timestamp, i);
      ghost var fired: seq<TimerId> := Filter(order[..i], p);
      NothingFound(model, order, p);
      while i < |keys|
        invariant Seek(keys, prefix) <= i <= |keys| == |order|
        invariant fired == Filter(order[..i], p) && |fired| == |result|
        invariant AllFiled(fired, model.timers) && result == Events(model, fired)
        invariant limit.Some? ==> |fired| < PopBound(limit, |order|)
      {
        var encodedKey := keys[i];
        TimerScanStep(codec, timers, model, keys, i, domain);
        FilterStep(order, p, i);
        if !StartsWith(encodedKey, prefix) {
          TimerPrefixScan(codec, timers, model, keys, domain, timestamp, i);
          break;
        }
        var timerTimestamp := DecodeTimerTimestamp(encodedKey).value;
        if timerTimestamp > timestamp {
          LaterTimersNotDue(codec, model, domain, timestamp, i);
          break;
        }
        var (key, namespace) := codec.loadPair(timers[encodedKey]);
        result := result + [TimerEvent(timerTimestamp, key, namespace, domain)];
        EventsStep(model, fired, order[i]);
        fired := fired + [order[i]];
        i := i + 1;
        if limit.Some? && |result| >= limit.value {
          break;
        }
      }
      FiredFound(codec, model, domain, timestamp, limit, i);
    }

    /** The second loop of `pop_due_timers`. */
    method RemoveFired(events: seq<TimerEvent<K>>, ghost fired: seq<TimerId>)
      requires Valid()
      requires AllFiled(fired, model.timers) && events == Events(model, fired)
      modifies this
      ensures Valid() && currentKey == old(currentKey)
      ensures model == WithoutTimers(old(model), fired)
    {
      hide Encodes, EncodeTimerKey, Lawful, Remaining, WithoutTimers, TimersFiled;
      ghost var before := model;
      RemainingNone(before, fired);
      for j := 0 to |events|
        invariant model == before && currentKey == old(currentKey)
        invariant state == old(state) && expiry == old(expiry)
        invariant Encodes(timers, Remaining(before, fired, j), TimerKey(codec), PairBytes(codec))
      {
        var event := events[j];
        FiledUnder(codec, before, fired, j);
        DropTimer(codec, timers, Remaining(before, fired, j), fired[j]);
        RemainingStep(before, fired, j);
        timers := timers - {TimerKeyOf(codec, event)};
      }
      RemainingAll(codec, before, fired);
      model := WithoutTimers(model, fired);
    }

    method CleanupExpired(now: int, limit: Option<int>) returns (removed: nat)
      requires Valid()
      modifies this
      ensures Valid() && currentKey == old(currentKey)
      ensures removed == CleanupCount(old(model), now, limit)
      ensures model == AfterCleanup(old(model), now, limit)
    {
      hide Stores, Encodes, Swept, SweptCount, Processed, FirstEntries, SortedKeys, IndexOrder, IndexKey,
        EncodeStateKey, StoredExpiry, DecodeExpiryKey, Lawful, Matches;
      ghost var order := IndexOrder(model);
      var keys := SortedKeys(expiry.Keys);
      StoresIndexSorted(codec, state, expiry, timers, model);
      SweptNone(model);
      var batchState, batchExpiry := state, expiry;
      removed := 0;
      var processed := 0;
      while processed < |keys|
        invariant unchanged(this)
        invariant 0 <= processed <= |keys| == |order|
        invariant limit.Some? ==> processed <= if limit.value < 0 then 0 else limit.value
        invariant forall j :: 0 <= j < processed ==> order[j].0 <= now
        invariant Stores(codec, batchState, batchExpiry, timers, Swept(model, FirstEntries(model, processed)))
        invariant removed == SweptCount(model, FirstEntries(model, processed))
      {
        IndexScanStep(keys, order, processed);
        ghost var x, gone := order[processed], FirstEntries(model, processed);
        var (expiresAt, stateKey) := DecodeExpiryKey(keys[processed]).value;
        if expiresAt > now || (limit.Some? && processed >= limit.value) {
          break;
        }
        FirstEntriesStep(model, processed);
        StoresMatches(codec, state, expiry, timers, model, x);
        SweepStored(codec, batchState, batchExpiry, timers, model, gone, x);
        if StoredExpiry(state, stateKey) == Some(expiresAt) {
          batchState := batchState - {stateKey};
          removed := removed + 1;
        }
        batchExpiry := batchExpiry - {keys[processed]};
        processed := processed + 1;
      }
      ProcessedFound(model, now, limit, processed);
      if processed > 0 {
        state, expiry := batchState, batchExpiry;
      }
      model := AfterCleanup(model, now, limit);
    }

    /** The column families, as snapshots divide them. */
    function Stored(): Entries
      reads this
    {
      Entries(state, expiry, timers)
    }

    method SnapshotKeyGroups(maxParallelism: int, keyGroups: set<int>)
      returns (r: Result<map<int, GroupSnapshot>, CodecError>)
      requires maxParallelism >= 1
      ensures r.Ok? <==> Decodable(Stored())
      ensures r.Ok? ==> r.value == Pickled(Buckets(codec, maxParallelism, Stored(), keyGroups))
    {
      var buckets := FillBuckets(codec, maxParallelism, Stored(), keyGroups);
      if buckets.Err? {
        return Err(buckets.error);
      }
      r := Ok(Pickled(buckets.value));
    }

    /**
      Validates every entry and refuses conflicting ones before the union replaces the
      contents. If that union encodes a keyed state `restored`, the backend holds it.
     */
    method RestoreKeyGroups(snapshots: seq<GroupSnapshot>, ghost restored: Contents<K>)
      returns (error: Option<RestoreError>)
      requires Valid()
      modifies this
      ensures currentKey == old(currentKey)
      ensures error.None? <==>
        (forall s :: s in snapshots ==> Supported(s)) && PartsValid(codec, snapshots) && NoConflicts(snapshots)
      ensures error.None? ==> Stored() == Joined(snapshots)
      ensures var e := Joined(snapshots);
        error.None? && Stores(codec, e.state, e.expiry, e.timers, restored) ==> Valid() && model == restored
      ensures error.Some? ==> Valid() && Stored() == old(Stored()) && model == old(model)
    {
      hide Stores, Joined, PartsValid, NoConflicts;
      var r := ValidateSnapshots(codec, snapshots);
      if r.Err? {
        return Some(r.error);
      }
      state, expiry, timers := r.value.state, r.value.expiry, r.value.timers;
      model := restored;
      return None;
    }
  }
}

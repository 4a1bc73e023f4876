/** The in-memory keyed state backend: `memory_state_backend.py`. */
module MemoryBackend {
  import opened Wrappers
  import opened Bytes
  import opened StateCodec
  import opened Sorting
  import opened Encodings
  import opened KeyCodec
  import opened KeyedState
  import opened StoredState
  import opened StateScans
  import opened KeyGroupSnapshots

  /** The comprehension of `namespaces`: scan all sorted keys and skip the ones outside the prefix. */
  method MatchingNamespaces<K>(codec: KeyCodec<K>, keys: seq<Blob>, name: Field, key: Field, ghost order: seq<Slot>)
    returns (found: seq<K>)
    requires InOrder(keys, order, SlotKey)
    ensures found == DecodedNamespaces(codec, Filter(order, HasNameAndKey(name, key)))
  {
    var prefix := StateKeyPrefix(name, key);
    ghost var p := HasNameAndKey(name, key);
    found := [];
    NothingDecoded(codec, order, p);
    for i := 0 to |keys|
      invariant found == DecodedNamespaces(codec, Filter(order[..i], p))
    {
      NamespaceStep(codec, keys, order, i, name, key);
      if StartsWith(keys[i], prefix) {
        found := found + [codec.decode(DecodeStateKey(keys[i]).value.namespace)];
      }
    }
    assert order[..|keys|] == order;
  }

  class MemoryStateBackend<K(!new)> {
    const codec: KeyCodec<K>
    var currentKey: Option<K>
    var state: map<Blob, Blob>
    var expiry: map<Blob, Blob>
    var timers: map<Blob, Blob>

    /** The keyed state that the three dictionaries hold. */
    ghost var model: Contents<K>

    ghost predicate Valid()
      reads this
    {
      Lawful(codec) && Stores(codec, state, expiry, timers, model)
    }

    constructor (codec: KeyCodec<K>)
      requires Lawful(codec)
      ensures Valid() && this.codec == codec && model == Empty() && currentKey == None
    {
      this.codec := codec;
      currentKey := None;
      state, expiry, timers := map[], map[], map[];
      model := Empty();
    }

    method SetCurrentKey(key: K)
      requires Valid()
      modifies this
      ensures Valid() && model == old(model) && currentKey == Some(key)
    {
      currentKey := Some(key);
    }

    function SlotProblem(descriptor: Descriptor, namespace: K): Option<BackendError>
      reads this
    {
      SlotError(codec, currentKey, descriptor, namespace)
    }

    function SlotFor(descriptor: Descriptor, namespace: K): Slot
      reads this
      requires SlotProblem(descriptor, namespace).None?
    {
      SlotOf(codec, descriptor, currentKey.value, namespace)
    }

    method Get(descriptor: Descriptor, namespace: K, now: Millis, renewal: Millis)
      returns (r: Result<Option<Blob>, BackendError>)
      requires Valid()
      modifies this
      ensures Valid() && currentKey == old(currentKey)
      ensures SlotProblem(descriptor, namespace).Some? ==>
        r == Err(SlotProblem(descriptor, namespace).value) && model == old(model)
      ensures SlotProblem(descriptor, namespace).None? ==>
        var slot := SlotFor(descriptor, namespace);
        && r == Ok(Visible(old(model), slot, descriptor.ttl, now))
        && model == AfterGet(old(model), false, slot, descriptor.ttl, now, renewal)
    {
      hide Lawful, Encodes, EncodeStateKey, DecodeStateValue;
      var problem := SlotProblem(descriptor, namespace);
      if problem.Some? {
        return Err(problem.value);
      }
      ghost var slot := SlotFor(descriptor, namespace);
      var stateKey := EncodeStateKey(SlotFor(descriptor, namespace));
      StoredCellIs(state, model.cells, slot);
      var stored := StoredCell(state, stateKey);
      if stored.None? {
        return Ok(None);
      }
      var (expiresAt, payload) := stored.value;
      if expiresAt.Some? && expiresAt.value <= now
         && (descriptor.ttl.None? || !descriptor.ttl.value.returnExpired)
      {
        ForgetStored(codec, state, expiry, timers, model, slot);
        state := state - {stateKey};
        model := model.(cells := model.cells - {slot});
        assert slot == SlotFor(descriptor, namespace);
        assert Visible(old(model), slot, descriptor.ttl, now) == None;
        return Ok(None);
      }
      assert Visible(model, slot, descriptor.ttl, now) == Some(payload);
      if descriptor.ttl.Some? && descriptor.ttl.value.refreshOnRead {
        var error := Put(descriptor, payload, namespace, renewal);
      }
      assert slot == SlotFor(descriptor, namespace);
      return Ok(Some(payload));
    }

    method Put(descriptor: Descriptor, payload: Blob, namespace: K, now: Millis)
      returns (error: Option<BackendError>)
      requires Valid()
      modifies this
      ensures Valid() && currentKey == old(currentKey)
      ensures SlotProblem(descriptor, namespace).Some? ==>
        error == SlotProblem(descriptor, namespace) && model == old(model)
      ensures SlotProblem(descriptor, namespace).None? ==>
        && error == None
        && model == KeyedState.Put(
             old(model), SlotFor(descriptor, namespace), payload, ExpiryFor(descriptor.ttl, now))
    {
      var problem := SlotProblem(descriptor, namespace);
      if problem.Some? {
        return problem;
      }
      ghost var slot := SlotFor(descriptor, namespace);
      var stateKey := EncodeStateKey(SlotFor(descriptor, namespace));
      var expiresAt := ExpiryFor(descriptor.ttl, now);
      StoredExpiryIs(state, model.cells, slot);
      PutStored(codec, state, expiry, timers, model, slot, payload, expiresAt);
      var previous := StoredExpiry(state, stateKey);
      if previous.Some? {
        expiry := expiry - {EncodeExpiryKey(previous.value, stateKey)};
      }
      state := state[stateKey := EncodeStateValue(payload, Signed(expiresAt))];
      if expiresAt.Some? {
        expiry := expiry[EncodeExpiryKey(expiresAt.value, stateKey) := []];
      }
      model := KeyedState.Put(model, slot, payload, expiresAt);
      return None;
    }

    method Delete(descriptor: Descriptor, namespace: K)
      returns (error: Option<BackendError>)
      requires Valid()
      modifies this
      ensures Valid() && currentKey == old(currentKey)
      ensures SlotProblem(descriptor, namespace).Some? ==>
        error == SlotProblem(descriptor, namespace) && model == old(model)
      ensures SlotProblem(descriptor, namespace).None? ==>
        error == None && model == KeyedState.Delete(old(model), SlotFor(descriptor, namespace))
    {
      var problem := SlotProblem(descriptor, namespace);
      if problem.Some? {
        return problem;
      }
      ghost var slot := SlotFor(descriptor, namespace);
      var stateKey := EncodeStateKey(SlotFor(descriptor, namespace));
      StoredExpiryIs(state, model.cells, slot);
      DeleteStored(codec, state, expiry, timers, model, slot);
      var previous := StoredExpiry(state, stateKey);
      state := state - {stateKey};
      if previous.Some? {
        expiry := expiry - {EncodeExpiryKey(previous.value, stateKey)};
      }
      model := KeyedState.Delete(model, slot);
      return None;
    }

    method Namespaces(descriptor: Descriptor) returns (r: Result<seq<K>, BackendError>)
      requires Valid()
      ensures PrefixError(codec, currentKey, descriptor).Some? ==>
        r == Err(PrefixError(codec, currentKey, descriptor).value)
      ensures PrefixError(codec, currentKey, descriptor).None? ==>
        r == Ok(KeyedState.Namespaces(codec, model, descriptor.name, codec.encode(currentKey.value)))
    {
      var problem := PrefixError(codec, currentKey, descriptor);
      if problem.Some? {
        return Err(problem.value);
      }
      var key := codec.encode(currentKey.value);
      StoresSlotsSorted(codec, state, expiry, timers, model);
      var found := MatchingNamespaces(codec, SortedKeys(state.Keys), descriptor.name, key, SlotOrder(model));
      NamespacesFound(codec, model, descriptor.name, key);
      return Ok(found);
    }

    method RegisterTimer(timestamp: int, namespace: K, domain: TimerDomain)
      returns (error: Option<BackendError>)
      requires Valid()
      modifies this
      ensures Valid() && currentKey == old(currentKey)
      ensures error == RegistrationError(currentKey, timestamp)
      ensures error.Some? ==> model == old(model)
      ensures error.None? ==>
        model == Register(codec, old(model), domain, timestamp, currentKey.value, namespace)
    {
      if timestamp < 0 {
        return Some(NegativeTimestamp);
      }
      if currentKey.None? {
        return Some(NoCurrentKey);
      }
      if timestamp >= 0x1_0000_0000_0000_0000 {
        return Some(TimestampOverflow);
      }
      var key := currentKey.value;
      ghost var t := TimerOf(codec, domain, timestamp, key, namespace);
      StoreTimer(codec, timers, model.timers, t, (key, namespace));
      var digest := codec.digest(codec.encode(key), codec.encode(namespace));
      timers := timers[EncodeTimerKey(domain, timestamp, digest) := codec.dumpPair(key, namespace)];
      model := Register(codec, model, domain, timestamp, key, namespace);
      return None;
    }

    method DeleteTimer(timestamp: int, namespace: K, domain: TimerDomain)
      returns (error: Option<BackendError>)
      requires Valid()
      modifies this
      ensures Valid() && currentKey == old(currentKey)
      ensures error == DeletionError(currentKey, timestamp)
      ensures error.Some? ==> model == old(model)
      ensures error.None? ==>
        model == Unregister(codec, old(model), domain, timestamp, currentKey.value, namespace)
    {
      if currentKey.None? {
        return Some(NoCurrentKey);
      }
      if !(0 <= timestamp < 0x1_0000_0000_0000_0000) {
        return Some(TimestampOverflow);
      }
      ghost var t := TimerOf(codec, domain, timestamp, currentKey.value, namespace);
      DropTimer(codec, timers, model.timers, t);
      var digest := codec.digest(codec.encode(currentKey.value), codec.encode(namespace));
      timers := timers - {EncodeTimerKey(domain, timestamp, digest)};
      model := Unregister(codec, model, domain, timestamp, currentKey.value, namespace);
      return None;
    }

    method PopDueTimers(timestamp: int, domain: TimerDomain, limit: Option<int>)
      returns (result: seq<TimerEvent<K>>)
      requires Valid()
      modifies this
      ensures Valid() && currentKey == old(currentKey)
      ensures var fired := Fired(codec, old(model), domain, timestamp, limit);
        result == Events(old(model), fired) && model == WithoutTimers(old(model), fired)
    {
      result := ScanDue(timestamp, domain, limit);
      RemoveFired(result, Fired(codec, model, domain, timestamp, limit));
    }

    /** The first loop of `pop_due_timers`: scan all sorted timers, skipping the other domain. */
    method ScanDue(timestamp: int, domain: TimerDomain, limit: Option<int>)
      returns (result: seq<TimerEvent<K>>)
      requires Valid()
      ensures result == Events(model, Fired(codec, model, domain, timestamp, limit))
    {
      hide Encodes, Fired, Filter, Ordered, EncodeTimerKey, DecodeTimerTimestamp, StartsWith, Lawful, Events, AllFiled,
        TimerOrder, SortedKeys, TimerKey, PairBytes, TimerPrefix, InOrder, TimersFiled;
      var prefix := TimerPrefix(domain);
      var keys := SortedKeys(timers.Keys);
      TimerKeysSorted(codec, timers, model);
      assert Encodes(timers, model.timers, TimerKey(codec), PairBytes(codec));
      hide Stores;
      ghost var order, p := TimerOrder(codec, model), IsDue(domain, timestamp);
      result := [];
      var i := 0;
      ghost var fired: seq<TimerId> := Filter(order[..0], p);
      NothingFound(model, order, p);
      while i < |keys|
        invariant 0 <= i <= |keys| == |order|
        invariant fired == Filter(order[..i], p) && |fired| == |result|
        invariant AllFiled(fired, model.timers) && result == Events(model, fired)
        invariant limit.Some? ==> |fired| < PopBound(limit, |order|)
      {
        var encodedKey := keys[i];
        TimerScanStep(codec, timers, model, keys, i, domain);
        FilterStep(order, p, i);
        if StartsWith(encodedKey, prefix) {
          var timerTimestamp := DecodeTimerTimestamp(encodedKey).value;
          if timerTimestamp > timestamp {
            LaterTimersNotDue(codec, model, domain, timestamp, i);
            break;
          }
          var (key, namespace) := codec.loadPair(timers[encodedKey]);
          result := result + [TimerEvent(timerTimestamp, key, namespace, domain)];
          EventsStep(model, fired, order[i]);
          fired := fired + [order[i]];
          if limit.Some? && |result| >= limit.value {
            i := i + 1;
            break;
          }
        }
        i := i + 1;
      }
      FiredFound(codec, model, domain, timestamp, limit, i);
    }

    /** The second loop of `pop_due_timers`. */
    method RemoveFired(events: seq<TimerEvent<K>>, ghost fired: seq<TimerId>)
      requires Valid()
      requires AllFiled(fired, model.timers) && events == Events(model, fired)
      modifies this
      ensures Valid() && currentKey == old(currentKey)
      ensures model == WithoutTimers(old(model), fired)
    {
      hide Encodes, EncodeTimerKey, Lawful, Remaining, WithoutTimers, TimersFiled;
      ghost var before := model;
      RemainingNone(before, fired);
      for j := 0 to |events|
        invariant model == before && currentKey == old(currentKey)
        invariant state == old(state) && expiry == old(expiry)
        invariant Encodes(timers, Remaining(before, fired, j), TimerKey(codec), PairBytes(codec))
      {
        var event := events[j];
        FiledUnder(codec, before, fired, j);
        DropTimer(codec, timers, Remaining(before, fired, j), fired[j]);
        RemainingStep(before, fired, j);
        timers := timers - {TimerKeyOf(codec, event)};
      }
      RemainingAll(codec, before, fired);
      model := WithoutTimers(model, fired);
    }

    method CleanupExpired(now: int, limit: Option<int>) returns (removed: nat)
      requires Valid()
      modifies this
      ensures Valid() && currentKey == old(currentKey)
      ensures removed == CleanupCount(old(model), now, limit)
      ensures model == AfterCleanup(old(model), now, limit)
    {
      hide Stores, Encodes, Swept, SweptCount, Processed, FirstEntries, SortedKeys, IndexOrder, IndexKey,
        EncodeStateKey, StoredExpiry, DecodeExpiryKey, Lawful;
      ghost var before, order := model, IndexOrder(model);
      var keys := SortedKeys(expiry.Keys);
      StoresIndexSorted(codec, state, expiry, timers, model);
      SweptNone(before);
      removed := 0;
      var processed := 0;
      while processed < |keys|
        invariant 0 <= processed <= |keys| == |order| && currentKey == old(currentKey)
        invariant limit.Some? ==> processed <= if limit.value < 0 then 0 else limit.value
        invariant forall j :: 0 <= j < processed ==> order[j].0 <= now
        invariant Valid() && model == Swept(before, FirstEntries(before, processed))
        invariant removed == SweptCount(before, FirstEntries(before, processed))
      {
        IndexScanStep(keys, order, processed);
        ghost var x, gone := order[processed], FirstEntries(before, processed);
        var (expiresAt, stateKey) := DecodeExpiryKey(keys[processed]).value;
        if expiresAt > now || (limit.Some? && processed >= limit.value) {
          break;
        }
        FirstEntriesStep(before, processed);
        SweepStored(codec, state, expiry, timers, before, gone, x);
        if StoredExpiry(state, stateKey) == Some(expiresAt) {
          state := state - {stateKey};
          removed := removed + 1;
        }
        expiry := expiry - {keys[processed]};
        model := Swept(before, FirstEntries(before, processed + 1));
        processed := processed + 1;
      }
      ProcessedFound(before, now, limit, processed);
    }

    /** The three dictionaries, as snapshots divide them. */
    function Stored(): Entries
      reads this
    {
      Entries(state, expiry, timers)
    }

    method SnapshotKeyGroups(maxParallelism: int, keyGroups: set<int>)
      returns (r: Result<map<int, GroupSnapshot>, CodecError>)
      requires maxParallelism >= 1
      ensures r.Ok? <==> Decodable(Stored())
      ensures r.Ok? ==> r.value == Pickled(Buckets(codec, maxParallelism, Stored(), keyGroups))
    {
      var buckets := FillBuckets(codec, maxParallelism, Stored(), keyGroups);
      if buckets.Err? {
        return Err(buckets.error);
      }
      r := Ok(Pickled(buckets.value));
    }

    /**
      Replaces the contents by the union of the snapshots, given in the order of the
      mapping, whatever bytes they hold. If these encode a keyed state `restored`, the
      backend holds that state.
     */
    method RestoreKeyGroups(snapshots: seq<GroupSnapshot>, ghost restored: Contents<K>)
      returns (error: Option<RestoreError>)
      requires Valid()
      modifies this
      ensures currentKey == old(currentKey)
      ensures error.None? <==> forall s :: s in snapshots ==> Supported(s)
      ensures error.None? ==> Stored() == Joined(snapshots)
      ensures var e := Joined(snapshots);
        error.None? && Stores(codec, e.state, e.expiry, e.timers, restored) ==> Valid() && model == restored
      ensures error.Some? ==> Valid() && Stored() == old(Stored()) && model == old(model)
    {
      hide Stores, Joined;
      var r := JoinSnapshots(snapshots);
      if r.Err? {
        return Some(r.error);
      }
      state, expiry, timers := r.value.state, r.value.expiry, r.value.timers;
      model := restored;
      return None;
    }
  }
}

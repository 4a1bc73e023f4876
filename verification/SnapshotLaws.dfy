/** What a key-group snapshot holds, entry by entry, and which snapshots are understood. */
module SnapshotLaws {
  import opened Wrappers
  import opened Bytes
  import opened StateCodec
  import opened KeyCodec
  import opened KeyGroupSnapshots
  import M = ManagedSnapshot

  /** An entry decodes exactly when it is the encoding of something. */
  lemma DecodesIff(b: Blob)
    ensures StateDecodes(b) <==> exists slot :: EncodeStateKey(slot) == b
    ensures ExpiryDecodes(b) <==> exists expires: UInt64, slot :: EncodeExpiryKey(expires, EncodeStateKey(slot)) == b
    ensures TimerDecodes(b) <==> |b| > 8
  {
    hide EncodeStateKey, DecodeStateKey, EncodeExpiryKey, DecodeExpiryKey;
    if StateDecodes(b) {
      StateKeyRoundTrip(b, DecodeStateKey(b).value);
    }
    forall slot | EncodeStateKey(slot) == b ensures StateDecodes(b) {
      StateKeyRoundTrip(b, slot);
    }
    if ExpiryDecodes(b) {
      var (expires, stateKey) := DecodeExpiryKey(b).value;
      ExpiryKeyRoundTrip(b, expires, stateKey);
      StateKeyRoundTrip(stateKey, DecodeStateKey(stateKey).value);
    }
    forall expires: UInt64, slot | EncodeExpiryKey(expires, EncodeStateKey(slot)) == b ensures ExpiryDecodes(b) {
      ExpiryKeyRoundTrip(b, expires, EncodeStateKey(slot));
      StateKeyRoundTrip(EncodeStateKey(slot), slot);
    }
  }

  /** The group of an entry: that of its key, for index entries the key of the value, for timers the stored key. */
  lemma EntryGroups<K(!new)>(codec: KeyCodec<K>, m: int, slot: Slot, expires: UInt64, key: K, namespace: K)
    requires Lawful(codec) && m >= 1
    ensures StateGroup(codec, m, EncodeStateKey(slot)) == KeyGroupOf(codec, codec.decode(slot.key), m)
    ensures ExpiryGroup(codec, m, EncodeExpiryKey(expires, EncodeStateKey(slot)))
         == KeyGroupOf(codec, codec.decode(slot.key), m)
    ensures TimerGroup(codec, m, codec.dumpPair(key, namespace)) == KeyGroupOf(codec, key, m)
  {
    hide EncodeStateKey, DecodeStateKey, EncodeExpiryKey, DecodeExpiryKey, KeyGroupOf;
    StateKeyRoundTrip(EncodeStateKey(slot), slot);
    ExpiryKeyRoundTrip(EncodeExpiryKey(expires, EncodeStateKey(slot)), expires, EncodeStateKey(slot));
  }

  /**
    A snapshot has a bucket for a group exactly when the group was asked for and has an entry; the bucket
    holds the entries of the group with their values, in all three dictionaries.
   */
  lemma BucketHolds<K>(codec: KeyCodec<K>, m: int, e: Entries, requested: set<int>, g: int)
    requires m >= 1
    ensures var snapshot := Pickled(Buckets(codec, m, e, requested));
      && (g in snapshot <==>
            g in requested
            && ((exists b :: b in e.state && StateGroup(codec, m, b) == g)
                || (exists b :: b in e.expiry && ExpiryGroup(codec, m, b) == g)
                || (exists b :: b in e.timers && TimerGroup(codec, m, e.timers[b]) == g)))
      && (g in snapshot ==> var d := snapshot[g].entries;
            && (forall b :: b in d.state <==> b in e.state && StateGroup(codec, m, b) == g)
            && (forall b :: b in d.expiry <==> b in e.expiry && ExpiryGroup(codec, m, b) == g)
            && (forall b :: b in d.timers <==> b in e.timers && TimerGroup(codec, m, e.timers[b]) == g)
            && (forall b :: b in d.state ==> d.state[b] == e.state[b])
            && (forall b :: b in d.expiry ==> d.expiry[b] == e.expiry[b])
            && (forall b :: b in d.timers ==> d.timers[b] == e.timers[b])
            && snapshot[g].formatVersion == 2 && snapshot[g].keyEncodingVersion == Some(2))
  {
    hide StateGroup, ExpiryGroup, TimerGroup;
    var r := Restricted(codec, m, e, {g});
    forall b ensures (b in r.state <==> b in e.state && StateGroup(codec, m, b) == g)
      && (b in r.expiry <==> b in e.expiry && ExpiryGroup(codec, m, b) == g)
      && (b in r.timers <==> b in e.timers && TimerGroup(codec, m, e.timers[b]) == g)
    {
    }
    assert r == NO_ENTRIES <==> r.state == map[] && r.expiry == map[] && r.timers == map[];
    Inhabited(r.state);
    Inhabited(r.expiry);
    Inhabited(r.timers);
  }

  lemma Inhabited(d: map<Blob, Blob>)
    ensures d == map[] <==> forall b :: b !in d
  {
  }

  /** An envelope is valid in the current formats, with a range inside the key groups and groups inside the range. */
  lemma EnvelopeValidIff<T>(e: M.Envelope<T>)
    ensures M.ValidEnvelope(e) <==>
      && e.formatVersion == 2 && e.keyEncodingVersion.Some? && e.keyEncodingVersion.value == 2
      && 0 < e.maxParallelism && 0 <= e.range.start && e.range.start <= e.range.end
      && e.range.end + 1 <= e.maxParallelism
      && (forall g :: g in e.keyGroups ==> e.range.start <= g && g <= e.range.end)
  {
  }

  /** Snapshots of another format, or of keys encoded in another way, are refused, whatever they hold. */
  lemma OtherFormatsRefused(s: GroupSnapshot)
    ensures Supported(s) <==> s.formatVersion == 2 && s.keyEncodingVersion.Some? && s.keyEncodingVersion.value == 2
  {
  }

  // ---- entries that RocksDB accepts ----------------------------------------

  ghost predicate IsTimerKey<K>(codec: KeyCodec<K>, key: Blob, pair: (K, K), domain: TimerDomain, timestamp: UInt64) {
    key == EncodeTimerKey(domain, timestamp, codec.digest(codec.encode(pair.0), codec.encode(pair.1)))
  }

  /**
    A state entry is valid when its key is an encoding and its value has an expiry; an index entry when its key is
    one and its value empty; a timer when its key is the one for its payload, in some domain at some time.
   */
  lemma EntryValidIff<K>(codec: KeyCodec<K>, key: Blob, value: Blob)
    ensures StateEntryValid(key, value) <==> (exists slot :: EncodeStateKey(slot) == key) && |value| > 7
    ensures ExpiryEntryValid(key, value) <==>
      (exists expires: UInt64, slot :: EncodeExpiryKey(expires, EncodeStateKey(slot)) == key) && |value| == 0
    ensures TimerEntryValid(codec, key, value) <==>
      exists domain, timestamp: UInt64 :: IsTimerKey(codec, key, codec.loadPair(value), domain, timestamp)
  {
    hide EncodeStateKey, EncodeExpiryKey, StateDecodes, ExpiryDecodes, EncodeTimerKey, DecodeTimerTimestamp;
    DecodesIff(key);
    var pair := codec.loadPair(value);
    var digest := codec.digest(codec.encode(pair.0), codec.encode(pair.1));
    if TimerEntryValid(codec, key, value) {
      var domain := if StartsWith(key, TimerPrefix(EventTime)) then EventTime else ProcessingTime;
      assert IsTimerKey(codec, key, pair, domain, DecodeTimerTimestamp(key).value);
    }
    if exists domain, timestamp: UInt64 :: IsTimerKey(codec, key, pair, domain, timestamp) {
      var domain, timestamp: UInt64 :| IsTimerKey(codec, key, pair, domain, timestamp);
      TimerKeyRoundTrip(domain, timestamp, digest);
      assert StartsWith(key, TimerPrefix(EventTime)) <==> EventTime == domain;
      assert StartsWith(key, TimerPrefix(ProcessingTime)) <==> ProcessingTime == domain;
    }
  }
}

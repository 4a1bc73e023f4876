/** Key-group snapshots of a backend, and what restoring a choice of them yields. */
module KeyGroupSnapshots {
  import opened Wrappers
  import opened Bytes
  import opened StateCodec
  import opened KeyCodec

  /** The entries of a backend, or of one key group of it. */
  datatype Entries = Entries(state: map<Blob, Blob>, expiry: map<Blob, Blob>, timers: map<Blob, Blob>)

  const NO_ENTRIES := Entries(map[], map[], map[])

  datatype GroupSnapshot = GroupSnapshot(formatVersion: int, keyEncodingVersion: Option<int>, entries: Entries)

  datatype RestoreError = UnsupportedSnapshot | InvalidEntry | ConflictingEntry

  predicate Supported(s: GroupSnapshot) {
    s.formatVersion == 2 && s.keyEncodingVersion == Some(2)
  }

  /** Stands for the group of an entry whose key does not decode; a snapshot fails on such an entry. */
  const NO_GROUP := -1

  function StateGroup<K>(codec: KeyCodec<K>, m: int, key: Blob): int
    requires m >= 1
  {
    match DecodeStateKey(key)
    case Err(_) => NO_GROUP
    case Ok(slot) => KeyGroupOf(codec, codec.decode(slot.key), m)
  }

  function ExpiryGroup<K>(codec: KeyCodec<K>, m: int, key: Blob): int
    requires m >= 1
  {
    match DecodeExpiryKey(key)
    case Err(_) => NO_GROUP
    case Ok((_, stateKey)) => StateGroup(codec, m, stateKey)
  }

  function TimerGroup<K>(codec: KeyCodec<K>, m: int, value: Blob): int
    requires m >= 1
  {
    KeyGroupOf(codec, codec.loadPair(value).0, m)
  }

  // ---- entries that decode -------------------------------------------------

  predicate StateDecodes(key: Blob) {
    DecodeStateKey(key).Ok?
  }

  predicate ExpiryDecodes(key: Blob) {
    DecodeExpiryKey(key).Ok? && DecodeStateKey(DecodeExpiryKey(key).value.1).Ok?
  }

  predicate TimerDecodes(key: Blob) {
    DecodeTimerTimestamp(key).Ok?
  }

  /** Every key of the three dictionaries decodes, so that every entry has a key group. */
  predicate Decodable(e: Entries) {
    && (forall b :: b in e.state ==> StateDecodes(b))
    && (forall b :: b in e.expiry ==> ExpiryDecodes(b))
    && (forall b :: b in e.timers ==> TimerDecodes(b))
  }

  /** The key group of an entry, for each of the three dictionaries. */
  function GroupOfState<K>(codec: KeyCodec<K>, m: int): (Blob, Blob) -> int
    requires m >= 1
  {
    (key: Blob, value: Blob) => StateGroup(codec, m, key)
  }

  function GroupOfExpiry<K>(codec: KeyCodec<K>, m: int): (Blob, Blob) -> int
    requires m >= 1
  {
    (key: Blob, value: Blob) => ExpiryGroup(codec, m, key)
  }

  function GroupOfTimer<K>(codec: KeyCodec<K>, m: int): (Blob, Blob) -> int
    requires m >= 1
  {
    (key: Blob, value: Blob) => TimerGroup(codec, m, value)
  }

  function Within(d: map<Blob, Blob>, group: (Blob, Blob) -> int, groups: set<int>): map<Blob, Blob> {
    map b | b in d && group(b, d[b]) in groups :: d[b]
  }

  /** The entries whose key group is in `groups`. */
  function Restricted<K>(codec: KeyCodec<K>, m: int, e: Entries, groups: set<int>): Entries
    requires m >= 1
  {
    Entries(
      Within(e.state, GroupOfState(codec, m), groups),
      Within(e.expiry, GroupOfExpiry(codec, m), groups),
      Within(e.timers, GroupOfTimer(codec, m), groups))
  }

  /** The buckets of `snapshot_key_groups`: one per requested group that has entries. */
  function Buckets<K>(codec: KeyCodec<K>, m: int, e: Entries, requested: set<int>): map<int, Entries>
    requires m >= 1
  {
    map g | g in requested && Restricted(codec, m, e, {g}) != NO_ENTRIES :: Restricted(codec, m, e, {g})
  }

  function Pickled(buckets: map<int, Entries>): map<int, GroupSnapshot> {
    map g | g in buckets :: GroupSnapshot(2, Some(2), buckets[g])
  }

  function BucketOf(buckets: map<int, Entries>, g: int): Entries {
    if g in buckets then buckets[g] else NO_ENTRIES
  }

  lemma WithinStep(d: map<Blob, Blob>, group: (Blob, Blob) -> int, b: Blob, v: Blob, groups: set<int>)
    requires b !in d
    ensures Within(d[b := v], group, groups)
         == if group(b, v) in groups then Within(d, group, groups)[b := v] else Within(d, group, groups)
  {
  }

  lemma BucketIs<K>(codec: KeyCodec<K>, m: int, e: Entries, requested: set<int>, g: int)
    requires m >= 1 && g in requested
    ensures BucketOf(Buckets(codec, m, e, requested), g) == Restricted(codec, m, e, {g})
  {
  }

  /** When the restriction to one group changes, only its bucket does. */
  lemma BucketChanges<K>(codec: KeyCodec<K>, m: int, e: Entries, after: Entries, requested: set<int>, g: int)
    requires m >= 1 && Restricted(codec, m, after, {g}) != NO_ENTRIES
    requires forall h :: h != g ==> Restricted(codec, m, after, {h}) == Restricted(codec, m, e, {h})
    ensures var before := Buckets(codec, m, e, requested);
      Buckets(codec, m, after, requested)
      == if g in requested then before[g := Restricted(codec, m, after, {g})] else before
  {
    hide Restricted, Buckets;
    var before, next := Buckets(codec, m, e, requested), Buckets(codec, m, after, requested);
    var changed := if g in requested then before[g := Restricted(codec, m, after, {g})] else before;
    forall h: int ensures (h in next <==> h in changed) && (h in next ==> next[h] == changed[h]) {
      BucketAt(codec, m, e, requested, h);
      BucketAt(codec, m, after, requested, h);
    }
  }

  lemma BucketAt<K>(codec: KeyCodec<K>, m: int, e: Entries, requested: set<int>, h: int)
    requires m >= 1
    ensures h in Buckets(codec, m, e, requested) <==> h in requested && Restricted(codec, m, e, {h}) != NO_ENTRIES
    ensures h in Buckets(codec, m, e, requested) ==> Buckets(codec, m, e, requested)[h] == Restricted(codec, m, e, {h})
  {
  }

  /** Filing one more state entry changes the bucket of its group only. */
  lemma BucketState<K>(codec: KeyCodec<K>, m: int, e: Entries, requested: set<int>, b: Blob, v: Blob)
    requires m >= 1 && b !in e.state
    ensures var g, before := StateGroup(codec, m, b), Buckets(codec, m, e, requested);
      Buckets(codec, m, e.(state := e.state[b := v]), requested)
      == if g in requested
         then before[g := BucketOf(before, g).(state := BucketOf(before, g).state[b := v])]
         else before
  {
    var after, g := e.(state := e.state[b := v]), StateGroup(codec, m, b);
    forall h: int
      ensures Restricted(codec, m, after, {h})
        == if h == g
           then Restricted(codec, m, e, {h}).(state := Restricted(codec, m, e, {h}).state[b := v])
           else Restricted(codec, m, e, {h})
    {
      WithinStep(e.state, GroupOfState(codec, m), b, v, {h});
    }
    assert b in Restricted(codec, m, after, {g}).state;
    BucketChanges(codec, m, e, after, requested, g);
    if g in requested {
      BucketIs(codec, m, e, requested, g);
    }
  }

  lemma BucketExpiry<K>(codec: KeyCodec<K>, m: int, e: Entries, requested: set<int>, b: Blob, v: Blob)
    requires m >= 1 && b !in e.expiry
    ensures var g, before := ExpiryGroup(codec, m, b), Buckets(codec, m, e, requested);
      Buckets(codec, m, e.(expiry := e.expiry[b := v]), requested)
      == if g in requested
         then before[g := BucketOf(before, g).(expiry := BucketOf(before, g).expiry[b := v])]
         else before
  {
    var after, g := e.(expiry := e.expiry[b := v]), ExpiryGroup(codec, m, b);
    forall h: int
      ensures Restricted(codec, m, after, {h})
        == if h == g
           then Restricted(codec, m, e, {h}).(expiry := Restricted(codec, m, e, {h}).expiry[b := v])
           else Restricted(codec, m, e, {h})
    {
      WithinStep(e.expiry, GroupOfExpiry(codec, m), b, v, {h});
    }
    assert b in Restricted(codec, m, after, {g}).expiry;
    BucketChanges(codec, m, e, after, requested, g);
    if g in requested {
      BucketIs(codec, m, e, requested, g);
    }
  }

  lemma BucketTimer<K>(codec: KeyCodec<K>, m: int, e: Entries, requested: set<int>, b: Blob, v: Blob)
    requires m >= 1 && b !in e.timers
    ensures var g, before := TimerGroup(codec, m, v), Buckets(codec, m, e, requested);
      Buckets(codec, m, e.(timers := e.timers[b := v]), requested)
      == if g in requested
         then before[g := BucketOf(before, g).(timers := BucketOf(before, g).timers[b := v])]
         else before
  {
    var after, g := e.(timers := e.timers[b := v]), TimerGroup(codec, m, v);
    forall h: int
      ensures Restricted(codec, m, after, {h})
        == if h == g
           then Restricted(codec, m, e, {h}).(timers := Restricted(codec, m, e, {h}).timers[b := v])
           else Restricted(codec, m, e, {h})
    {
      WithinStep(e.timers, GroupOfTimer(codec, m), b, v, {h});
    }
    assert b in Restricted(codec, m, after, {g}).timers;
    BucketChanges(codec, m, e, after, requested, g);
    if g in requested {
      BucketIs(codec, m, e, requested, g);
    }
  }

  // ---- the snapshot loops --------------------------------------------------

  function Picked(d: map<Blob, Blob>, keys: set<Blob>): map<Blob, Blob> {
    map b | b in d && b in keys :: d[b]
  }

  /** The three loops of `snapshot_key_groups`; a key that does not decode stops them. */
  method FillBuckets<K>(codec: KeyCodec<K>, m: int, e: Entries, requested: set<int>)
    returns (r: Result<map<int, Entries>, CodecError>)
    requires m >= 1
    ensures r.Ok? <==> Decodable(e)
    ensures r.Ok? ==> r.value == Buckets(codec, m, e, requested)
  {
    r := FillState(codec, m, e.state, requested);
    if r.Ok? {
      r := FillExpiry(codec, m, Entries(e.state, map[], map[]), e.expiry, requested, r.value);
    }
    if r.Ok? {
      r := FillTimers(codec, m, Entries(e.state, e.expiry, map[]), e.timers, requested, r.value);
    }
  }

  method FillState<K>(codec: KeyCodec<K>, m: int, d: map<Blob, Blob>, requested: set<int>)
    returns (r: Result<map<int, Entries>, CodecError>)
    requires m >= 1
    ensures r.Ok? <==> forall b :: b in d ==> StateDecodes(b)
    ensures r.Ok? ==> r.value == Buckets(codec, m, Entries(d, map[], map[]), requested)
  {
    hide Buckets, Restricted, DecodeStateKey, StateGroup;
    var buckets: map<int, Entries> := map[];
    var pending := d.Keys;
    ghost var done: set<Blob> := {};
    BucketsOfNothing(codec, m, requested);
    assert Picked(d, done) == map[];
    while pending != {}
      invariant pending !! done && pending + done == d.Keys
      invariant forall b :: b in done ==> StateDecodes(b)
      invariant buckets == Buckets(codec, m, Entries(Picked(d, done), map[], map[]), requested)
      decreases pending
    {
      var b :| b in pending;
      var slot := DecodeStateKey(b);
      if slot.Err? {
        return Err(slot.error);
      }
      var g := StateGroup(codec, m, b);
      BucketState(codec, m, Entries(Picked(d, done), map[], map[]), requested, b, d[b]);
      assert Picked(d, done + {b}) == Picked(d, done)[b := d[b]];
      if g in requested {
        var bucket := BucketOf(buckets, g);
        buckets := buckets[g := bucket.(state := bucket.state[b := d[b]])];
      }
      pending, done := pending - {b}, done + {b};
    }
    assert Picked(d, done) == d;
    r := Ok(buckets);
  }

  lemma BucketsOfNothing<K>(codec: KeyCodec<K>, m: int, requested: set<int>)
    requires m >= 1
    ensures Buckets(codec, m, NO_ENTRIES, requested) == map[]
  {
    hide Buckets;
    forall h: int ensures h !in Buckets(codec, m, NO_ENTRIES, requested) {
      BucketAt(codec, m, NO_ENTRIES, requested, h);
      assert Restricted(codec, m, NO_ENTRIES, {h}) == NO_ENTRIES;
    }
  }

  method FillExpiry<K>(
      codec: KeyCodec<K>, m: int, ghost e: Entries, d: map<Blob, Blob>, requested: set<int>, filled: map<int, Entries>)
    returns (r: Result<map<int, Entries>, CodecError>)
    requires m >= 1 && e.expiry == map[]
    requires filled == Buckets(codec, m, e, requested)
    ensures r.Ok? <==> forall b :: b in d ==> ExpiryDecodes(b)
    ensures r.Ok? ==> r.value == Buckets(codec, m, e.(expiry := d), requested)
  {
    hide Buckets, Restricted, DecodeStateKey, DecodeExpiryKey, ExpiryGroup;
    var buckets := filled;
    var pending := d.Keys;
    ghost var done: set<Blob> := {};
    assert e.(expiry := Picked(d, done)) == e by { assert Picked(d, done) == map[]; }
    while pending != {}
      invariant pending !! done && pending + done == d.Keys
      invariant forall b :: b in done ==> ExpiryDecodes(b)
      invariant buckets == Buckets(codec, m, e.(expiry := Picked(d, done)), requested)
      decreases pending
    {
      var b :| b in pending;
      var entry := DecodeExpiryKey(b);
      if entry.Err? {
        return Err(entry.error);
      }
      var slot := DecodeStateKey(entry.value.1);
      if slot.Err? {
        return Err(slot.error);
      }
      var g := ExpiryGroup(codec, m, b);
      BucketExpiry(codec, m, e.(expiry := Picked(d, done)), requested, b, d[b]);
      assert Picked(d, done + {b}) == Picked(d, done)[b := d[b]];
      if g in requested {
        var bucket := BucketOf(buckets, g);
        buckets := buckets[g := bucket.(expiry := bucket.expiry[b := d[b]])];
      }
      pending, done := pending - {b}, done + {b};
    }
    assert Picked(d, done) == d;
    r := Ok(buckets);
  }

  method FillTimers<K>(
      codec: KeyCodec<K>, m: int, ghost e: Entries, d: map<Blob, Blob>, requested: set<int>, filled: map<int, Entries>)
    returns (r: Result<map<int, Entries>, CodecError>)
    requires m >= 1 && e.timers == map[]
    requires filled == Buckets(codec, m, e, requested)
    ensures r.Ok? <==> forall b :: b in d ==> TimerDecodes(b)
    ensures r.Ok? ==> r.value == Buckets(codec, m, e.(timers := d), requested)
  {
    hide Buckets, Restricted, DecodeTimerTimestamp, TimerGroup;
    var buckets := filled;
    var pending := d.Keys;
    ghost var done: set<Blob> := {};
    assert e.(timers := Picked(d, done)) == e by { assert Picked(d, done) == map[]; }
    while pending != {}
      invariant pending !! done && pending + done == d.Keys
      invariant forall b :: b in done ==> TimerDecodes(b)
      invariant buckets == Buckets(codec, m, e.(timers := Picked(d, done)), requested)
      decreases pending
    {
      var b :| b in pending;
      var timestamp := DecodeTimerTimestamp(b);
      if timestamp.Err? {
        return Err(timestamp.error);
      }
      var g := TimerGroup(codec, m, d[b]);
      BucketTimer(codec, m, e.(timers := Picked(d, done)), requested, b, d[b]);
      assert Picked(d, done + {b}) == Picked(d, done)[b := d[b]];
      if g in requested {
        var bucket := BucketOf(buckets, g);
        buckets := buckets[g := bucket.(timers := bucket.timers[b := d[b]])];
      }
      pending, done := pending - {b}, done + {b};
    }
    assert Picked(d, done) == d;
    r := Ok(buckets);
  }

  // ---- restoring -----------------------------------------------------------

  /** Successive `dict.update` calls. */
  function Updated(parts: seq<map<Blob, Blob>>): map<Blob, Blob> {
    if parts == [] then map[] else Updated(parts[..|parts| - 1]) + parts[|parts| - 1]
  }

  function States(parts: seq<GroupSnapshot>): seq<map<Blob, Blob>> {
    seq(|parts|, i requires 0 <= i < |parts| => parts[i].entries.state)
  }

  function Expiries(parts: seq<GroupSnapshot>): seq<map<Blob, Blob>> {
    seq(|parts|, i requires 0 <= i < |parts| => parts[i].entries.expiry)
  }

  function TimerMaps(parts: seq<GroupSnapshot>): seq<map<Blob, Blob>> {
    seq(|parts|, i requires 0 <= i < |parts| => parts[i].entries.timers)
  }

  function Joined(parts: seq<GroupSnapshot>): Entries {
    Entries(Updated(States(parts)), Updated(Expiries(parts)), Updated(TimerMaps(parts)))
  }

  lemma JoinedStep(parts: seq<GroupSnapshot>, i: nat)
    requires i < |parts|
    ensures var before, next := Joined(parts[..i]), parts[i].entries;
      Joined(parts[..i + 1])
      == Entries(before.state + next.state, before.expiry + next.expiry, before.timers + next.timers)
  {
    assert States(parts[..i + 1])[..i] == States(parts[..i]);
    assert Expiries(parts[..i + 1])[..i] == Expiries(parts[..i]);
    assert TimerMaps(parts[..i + 1])[..i] == TimerMaps(parts[..i]);
  }

  /** The loops of `restore_key_groups`: check every payload, then join them. */
  method JoinSnapshots(parts: seq<GroupSnapshot>) returns (r: Result<Entries, RestoreError>)
    ensures r.Ok? <==> forall s :: s in parts ==> Supported(s)
    ensures r.Ok? ==> r.value == Joined(parts)
  {
    for i := 0 to |parts|
      invariant forall j :: 0 <= j < i ==> Supported(parts[j])
    {
      if !Supported(parts[i]) {
        return Err(UnsupportedSnapshot);
      }
    }
    var e := NO_ENTRIES;
    assert Joined(parts[..0]) == NO_ENTRIES;
    for i := 0 to |parts|
      invariant e == Joined(parts[..i])
    {
      JoinedStep(parts, i);
      var next := parts[i].entries;
      e := Entries(e.state + next.state, e.expiry + next.expiry, e.timers + next.timers);
    }
    assert parts[..|parts|] == parts;
    return Ok(e);
  }

  /** Updated parts hold exactly the entries of the parts, if the parts never disagree. */
  ghost predicate PartsAgree(parts: seq<map<Blob, Blob>>) {
    forall i, j, b :: 0 <= i < |parts| && 0 <= j < |parts| && b in parts[i] && b in parts[j] ==>
      parts[i][b] == parts[j][b]
  }

  ghost predicate HeldBy(parts: seq<map<Blob, Blob>>, b: Blob, v: Blob) {
    exists i :: 0 <= i < |parts| && b in parts[i] && parts[i][b] == v
  }

  lemma {:induction false} UpdatedFrom(parts: seq<map<Blob, Blob>>)
    ensures forall b :: b in Updated(parts) ==> HeldBy(parts, b, Updated(parts)[b])
    ensures forall i, b :: 0 <= i < |parts| && b in parts[i] ==> b in Updated(parts)
  {
    if parts != [] {
      var last := |parts| - 1;
      UpdatedFrom(parts[..last]);
      forall b | b in Updated(parts) ensures HeldBy(parts, b, Updated(parts)[b]) {
        if b !in parts[last] {
          assert b in Updated(parts[..last]);
          assert HeldBy(parts[..last], b, Updated(parts)[b]);
          var i :| 0 <= i < last && b in parts[..last][i] && parts[..last][i][b] == Updated(parts)[b];
          assert b in parts[i];
        }
      }
      forall i, b | 0 <= i < |parts| && b in parts[i] ensures b in Updated(parts) {
        if i < last {
          assert b in parts[..last][i];
        }
      }
    }
  }

  lemma UpdatedIff(parts: seq<map<Blob, Blob>>, b: Blob, v: Blob)
    requires PartsAgree(parts)
    ensures b in Updated(parts) && Updated(parts)[b] == v <==> HeldBy(parts, b, v)
  {
    UpdatedFrom(parts);
    if HeldBy(parts, b, v) {
      assert HeldBy(parts, b, Updated(parts)[b]);
    }
  }

  // ---- restoring into RocksDB ----------------------------------------------

  /** What `_validate_key_group_entry` asks of an entry. */
  predicate StateEntryValid(key: Blob, value: Blob) {
    StateDecodes(key) && DecodeStateValue(value).Ok?
  }

  predicate ExpiryEntryValid(key: Blob, value: Blob) {
    ExpiryDecodes(key) && value == []
  }

  /** The timer key is the one that its payload is filed under. */
  predicate TimerEntryValid<K>(codec: KeyCodec<K>, key: Blob, value: Blob) {
    && TimerDecodes(key)
    && (StartsWith(key, TimerPrefix(EventTime)) || StartsWith(key, TimerPrefix(ProcessingTime)))
    && var domain := if StartsWith(key, TimerPrefix(EventTime)) then EventTime else ProcessingTime;
       var (k, namespace) := codec.loadPair(value);
       key == EncodeTimerKey(
         domain, DecodeTimerTimestamp(key).value, codec.digest(codec.encode(k), codec.encode(namespace)))
  }

  function TimerValidator<K>(codec: KeyCodec<K>): (Blob, Blob) -> bool {
    (key: Blob, value: Blob) => TimerEntryValid(codec, key, value)
  }

  predicate AllEntriesValid<K>(codec: KeyCodec<K>, e: Entries) {
    && (forall b :: b in e.state ==> StateEntryValid(b, e.state[b]))
    && (forall b :: b in e.expiry ==> ExpiryEntryValid(b, e.expiry[b]))
    && (forall b :: b in e.timers ==> TimerEntryValid(codec, b, e.timers[b]))
  }

  predicate Agreeing(a: map<Blob, Blob>, b: map<Blob, Blob>) {
    forall k :: k in a && k in b ==> a[k] == b[k]
  }

  /** The innermost loop of `_validated_key_group_entries`: one family of one payload. */
  method MergeFamily(valid: (Blob, Blob) -> bool, seen: map<Blob, Blob>, entries: map<Blob, Blob>)
    returns (r: Result<map<Blob, Blob>, RestoreError>)
    ensures r.Ok? <==> (forall b :: b in entries ==> valid(b, entries[b])) && Agreeing(seen, entries)
    ensures r.Ok? ==> r.value == seen + entries
  {
    var merged := seen;
    var pending := entries.Keys;
    ghost var done: set<Blob> := {};
    assert seen + Picked(entries, done) == seen;
    while pending != {}
      invariant pending !! done && pending + done == entries.Keys
      invariant forall b :: b in done ==> valid(b, entries[b])
      invariant Agreeing(seen, Picked(entries, done)) && merged == seen + Picked(entries, done)
      decreases pending
    {
      var b :| b in pending;
      if !valid(b, entries[b]) {
        return Err(InvalidEntry);
      }
      if b in merged && merged[b] != entries[b] {
        return Err(ConflictingEntry);
      }
      assert Picked(entries, done + {b}) == Picked(entries, done)[b := entries[b]];
      merged := merged[b := entries[b]];
      pending, done := pending - {b}, done + {b};
    }
    assert Picked(entries, done) == entries;
    r := Ok(merged);
  }

  /** No two parts disagree about an entry. */
  ghost predicate NoConflicts(parts: seq<GroupSnapshot>) {
    PartsAgree(States(parts)) && PartsAgree(Expiries(parts)) && PartsAgree(TimerMaps(parts))
  }

  ghost predicate PartsValid<K>(codec: KeyCodec<K>, parts: seq<GroupSnapshot>) {
    forall i :: 0 <= i < |parts| ==> AllEntriesValid(codec, parts[i].entries)
  }

  /** One more part agrees with the earlier ones exactly when it agrees with their union. */
  lemma OneMoreAgrees(parts: seq<map<Blob, Blob>>)
    requires parts != []
    ensures var last := |parts| - 1;
      PartsAgree(parts) <==> PartsAgree(parts[..last]) && Agreeing(Updated(parts[..last]), parts[last])
  {
    var last := |parts| - 1;
    var init := parts[..last];
    UpdatedFrom(init);
    if PartsAgree(parts) {
      forall k | k in Updated(init) && k in parts[last] ensures Updated(init)[k] == parts[last][k] {
        assert HeldBy(init, k, Updated(init)[k]);
        var i :| 0 <= i < last && k in init[i] && init[i][k] == Updated(init)[k];
        assert k in parts[i];
      }
      assert PartsAgree(init);
    }
    if PartsAgree(init) && Agreeing(Updated(init), parts[last]) {
      forall i, j, b | 0 <= i < |parts| && 0 <= j < |parts| && b in parts[i] && b in parts[j]
        ensures parts[i][b] == parts[j][b]
      {
        AgreesWithUnion(init, i, b, parts[i], last, parts[last]);
        AgreesWithUnion(init, j, b, parts[j], last, parts[last]);
      }
    }
  }

  lemma AgreesWithUnion(
      init: seq<map<Blob, Blob>>, i: int, b: Blob, part: map<Blob, Blob>, last: int, added: map<Blob, Blob>)
    requires PartsAgree(init) && Agreeing(Updated(init), added) && last == |init| && 0 <= i <= last
    requires part == if i < last then init[i] else added
    requires b in part
    ensures b in Updated(init) + added && part[b] == (Updated(init) + added)[b]
  {
    UpdatedFrom(init);
    if i < last {
      UpdatedIff(init, b, part[b]);
      assert HeldBy(init, b, part[b]);
    }
  }

  /** `restore_key_groups` of RocksDB: check every payload, then validate and merge every entry. */
  method ValidateSnapshots<K>(codec: KeyCodec<K>, parts: seq<GroupSnapshot>)
    returns (r: Result<Entries, RestoreError>)
    ensures r.Ok? <==> (forall s :: s in parts ==> Supported(s)) && PartsValid(codec, parts) && NoConflicts(parts)
    ensures r.Ok? ==> r.value == Joined(parts)
  {
    hide PartsAgree, Joined, StateEntryValid, ExpiryEntryValid, TimerEntryValid;
    for i := 0 to |parts|
      invariant forall j :: 0 <= j < i ==> Supported(parts[j])
    {
      if !Supported(parts[i]) {
        return Err(UnsupportedSnapshot);
      }
    }
    var e := NO_ENTRIES;
    NothingJoined(parts);
    for i := 0 to |parts|
      invariant e == Joined(parts[..i])
      invariant PartsValid(codec, parts[..i]) && NoConflicts(parts[..i])
    {
      PrefixAccepted(codec, parts, i);
      var next := parts[i].entries;
      var state := MergeFamily(StateEntryValid, e.state, next.state);
      if state.Err? {
        return Err(state.error);
      }
      var expiry := MergeFamily(ExpiryEntryValid, e.expiry, next.expiry);
      if expiry.Err? {
        return Err(expiry.error);
      }
      var timers := MergeFamily(TimerValidator(codec), e.timers, next.timers);
      if timers.Err? {
        return Err(timers.error);
      }
      e := Entries(state.value, expiry.value, timers.value);
    }
    assert parts[..|parts|] == parts;
    return Ok(e);
  }

  lemma NothingJoined(parts: seq<GroupSnapshot>)
    ensures Joined(parts[..0]) == NO_ENTRIES && NoConflicts(parts[..0])
  {
  }

  lemma PrefixAgrees(all: seq<map<Blob, Blob>>, i: nat)
    requires i <= |all| && PartsAgree(all)
    ensures PartsAgree(all[..i])
  {
  }

  /** One family of one more part. */
  lemma FamilyAccepted(all: seq<map<Blob, Blob>>, i: nat)
    requires i < |all| && PartsAgree(all[..i])
    ensures PartsAgree(all[..i + 1]) <==> Agreeing(Updated(all[..i]), all[i])
    ensures PartsAgree(all) ==> Agreeing(Updated(all[..i]), all[i])
  {
    hide PartsAgree, Agreeing, Updated;
    assert all[..i + 1][..i] == all[..i];
    OneMoreAgrees(all[..i + 1]);
    if PartsAgree(all) {
      PrefixAgrees(all, i + 1);
    }
  }

  lemma FamiliesPrefix(parts: seq<GroupSnapshot>, i: nat)
    requires i <= |parts|
    ensures States(parts[..i]) == States(parts)[..i]
    ensures Expiries(parts[..i]) == Expiries(parts)[..i]
    ensures TimerMaps(parts[..i]) == TimerMaps(parts)[..i]
  {
  }

  lemma ValidPrefix<K>(codec: KeyCodec<K>, parts: seq<GroupSnapshot>, i: nat)
    requires i < |parts| && PartsValid(codec, parts[..i])
    ensures PartsValid(codec, parts[..i + 1]) <==> AllEntriesValid(codec, parts[i].entries)
    ensures PartsValid(codec, parts) ==> AllEntriesValid(codec, parts[i].entries)
  {
    hide AllEntriesValid;
    if PartsValid(codec, parts[..i + 1]) {
      assert parts[..i + 1][i] == parts[i];
    }
    if AllEntriesValid(codec, parts[i].entries) {
      var longer := parts[..i + 1];
      forall k | 0 <= k < |longer| ensures AllEntriesValid(codec, longer[k].entries) {
        assert k < i ==> parts[..i][k] == longer[k];
      }
    }
  }

  /** What one more part must satisfy, and that nothing is accepted with a prefix that is not. */
  lemma PrefixAccepted<K>(codec: KeyCodec<K>, parts: seq<GroupSnapshot>, i: nat)
    requires i < |parts| && PartsValid(codec, parts[..i]) && NoConflicts(parts[..i])
    ensures var e, next := Joined(parts[..i]), parts[i].entries;
      var fits := Agreeing(e.state, next.state) && Agreeing(e.expiry, next.expiry) && Agreeing(e.timers, next.timers);
      && (NoConflicts(parts[..i + 1]) <==> fits)
      && (PartsValid(codec, parts[..i + 1]) <==> AllEntriesValid(codec, next))
      && (PartsValid(codec, parts) && NoConflicts(parts) ==> fits && AllEntriesValid(codec, next))
      && Joined(parts[..i + 1])
         == Entries(e.state + next.state, e.expiry + next.expiry, e.timers + next.timers)
  {
    hide PartsAgree, Agreeing, Updated, PartsValid, AllEntriesValid;
    JoinedStep(parts, i);
    FamiliesPrefix(parts, i);
    FamiliesPrefix(parts, i + 1);
    FamilyAccepted(States(parts), i);
    FamilyAccepted(Expiries(parts), i);
    FamilyAccepted(TimerMaps(parts), i);
    ValidPrefix(codec, parts, i);
  }
}

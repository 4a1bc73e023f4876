/** What the sorted scans of the backends find: state prefixes, due timers and overdue index entries. */
module StateScans {
  import opened Wrappers
  import opened Bytes
  import opened StateCodec
  import opened Sorting
  import opened Encodings
  import opened KeyCodec
  import opened KeyedState
  import opened StoredState

  // ---- namespaces ----------------------------------------------------------

  function HasNameAndKey(name: Field, key: Field): Slot -> bool {
    (s: Slot) => s.name == name && s.key == key
  }

  ghost function SlotOrder<K>(c: Contents<K>): seq<Slot> {
    SlotKeyInjective();
    Ordered(c.cells.Keys, SlotKey)
  }

  /** The i-th sorted state key is the encoding of the i-th slot. */
  lemma StateKeysSorted<K>(state: map<Blob, Blob>, c: Contents<K>)
    requires Encodes(state, c.cells, SlotKey, CellBytes)
    ensures InOrder(SortedKeys(state.Keys), SlotOrder(c), SlotKey)
  {
    SlotKeyInjective();
    EncodesSorted(state, c.cells, SlotKey, CellBytes);
  }

  lemma StoresSlotsSorted<K>(
      codec: KeyCodec<K>, state: map<Blob, Blob>, expiry: map<Blob, Blob>, timers: map<Blob, Blob>, c: Contents<K>)
    requires Stores(codec, state, expiry, timers, c)
    ensures InOrder(SortedKeys(state.Keys), SlotOrder(c), SlotKey)
  {
    StateKeysSorted(state, c);
  }

  /** One step of a prefix scan. */
  lemma StateScanStep(keys: seq<Blob>, order: seq<Slot>, i: nat, name: Field, key: Field)
    requires i < |order| && InOrder(keys, order, SlotKey)
    ensures StartsWith(keys[i], StateKeyPrefix(name, key)) <==> HasNameAndKey(name, key)(order[i])
    ensures DecodeStateKey(keys[i]) == Ok(order[i])
  {
    assert keys[i] == SlotKey(order[i]) == EncodeStateKey(order[i]);
    PrefixSelectsNameAndKey(order[i], name, key);
    StateKeyRoundTrip(EncodeStateKey(order[i]), order[i]);
  }

  /** What a prefix scan adds to its result at the i-th key. */
  lemma NamespaceStep<K>(codec: KeyCodec<K>, keys: seq<Blob>, order: seq<Slot>, i: nat, name: Field, key: Field)
    requires i < |order| && InOrder(keys, order, SlotKey)
    ensures DecodeStateKey(keys[i]) == Ok(order[i])
    ensures var before := DecodedNamespaces(codec, Filter(order[..i], HasNameAndKey(name, key)));
      DecodedNamespaces(codec, Filter(order[..i + 1], HasNameAndKey(name, key)))
      == if StartsWith(keys[i], StateKeyPrefix(name, key)) then before + [codec.decode(order[i].namespace)] else before
  {
    StateScanStep(keys, order, i, name, key);
    FilterStep(order, HasNameAndKey(name, key), i);
  }

  lemma NothingDecoded<K>(codec: KeyCodec<K>, order: seq<Slot>, p: Slot -> bool)
    ensures DecodedNamespaces(codec, Filter(order[..0], p)) == []
  {
  }

  lemma NamespacesFound<K(!new)>(codec: KeyCodec<K>, c: Contents<K>, name: Field, key: Field)
    ensures Namespaces(codec, c, name, key)
         == DecodedNamespaces(codec, Filter(SlotOrder(c), HasNameAndKey(name, key)))
  {
    SlotKeyInjective();
    OrderedFilter(c.cells.Keys, SlotsOf(c, name, key), HasNameAndKey(name, key), SlotKey);
  }

  // ---- timers --------------------------------------------------------------

  function IsDue(domain: TimerDomain, timestamp: int): TimerId -> bool {
    (t: TimerId) => t.domain == domain && t.timestamp <= timestamp
  }

  ghost function TimerOrder<K(!new)>(codec: KeyCodec<K>, c: Contents<K>): seq<TimerId>
    requires Lawful(codec)
  {
    TimerKeyInjective(codec);
    Ordered(c.timers.Keys, TimerKey(codec))
  }

  lemma TimerOrderIs<K(!new)>(codec: KeyCodec<K>, c: Contents<K>)
    requires Lawful(codec)
    ensures IsOrdering(TimerOrder(codec, c), c.timers.Keys, TimerKey(codec))
  {
    TimerKeyInjective(codec);
    OrderedIsOrdering(c.timers.Keys, TimerKey(codec));
  }

  lemma TimerKeysSorted<K(!new)>(codec: KeyCodec<K>, timers: map<Blob, Blob>, c: Contents<K>)
    requires Lawful(codec)
    requires Encodes(timers, c.timers, TimerKey(codec), PairBytes(codec))
    ensures InOrder(SortedKeys(timers.Keys), TimerOrder(codec, c), TimerKey(codec))
  {
    TimerKeyInjective(codec);
    EncodesSorted(timers, c.timers, TimerKey(codec), PairBytes(codec));
  }

  /** What a scan reads off the i-th stored timer. */
  lemma TimerScanStep<K(!new)>(
      codec: KeyCodec<K>, timers: map<Blob, Blob>, c: Contents<K>, keys: seq<Blob>, i: nat, domain: TimerDomain)
    requires Lawful(codec) && i < |TimerOrder(codec, c)|
    requires Encodes(timers, c.timers, TimerKey(codec), PairBytes(codec))
    requires InOrder(keys, TimerOrder(codec, c), TimerKey(codec))
    ensures var t := TimerOrder(codec, c)[i];
      && t in c.timers
      && (StartsWith(keys[i], TimerPrefix(domain)) <==> t.domain == domain)
      && DecodeTimerTimestamp(keys[i]) == Ok(t.timestamp)
      && keys[i] in timers && codec.loadPair(timers[keys[i]]) == c.timers[t]
  {
    var t := TimerOrder(codec, c)[i];
    TimerOrderIs(codec, c);
    assert t in TimerOrder(codec, c);
    assert keys[i] == TimerKey(codec)(t);
    TimerKeyRoundTrip(t.domain, t.timestamp, codec.digest(t.key, t.namespace));
    TimerKeyInjective(codec);
    EncodesLookup(timers, c.timers, TimerKey(codec), PairBytes(codec), t);
    var v := c.timers[t];
    assert timers[TimerKey(codec)(t)] == codec.dumpPair(v.0, v.1);
  }

  /** Past a timer that is not yet due, no timer of its domain is due. */
  lemma LaterTimersNotDue<K(!new)>(codec: KeyCodec<K>, c: Contents<K>, domain: TimerDomain, timestamp: int, i: nat)
    requires Lawful(codec) && i < |TimerOrder(codec, c)|
    requires TimerOrder(codec, c)[i].domain == domain && TimerOrder(codec, c)[i].timestamp > timestamp
    ensures NoneFrom(TimerOrder(codec, c), IsDue(domain, timestamp), i)
  {
    var order := TimerOrder(codec, c);
    TimerOrderIs(codec, c);
    var t := order[i];
    forall j | i <= j < |order| ensures !IsDue(domain, timestamp)(order[j]) {
      var u := order[j];
      if j > i && u.domain == domain {
        assert Less(TimerKey(codec)(t), TimerKey(codec)(u));
        TimerKeyOrder(
          domain, t.timestamp, codec.digest(t.key, t.namespace), u.timestamp, codec.digest(u.key, u.namespace));
      }
    }
  }

  /** The most events a pop with this limit returns, given how many timers there are. */
  function PopBound(limit: Option<int>, timers: nat): nat {
    if limit.None? then timers else if limit.value < 1 then 1 else limit.value
  }

  /**
    A scan that took every due timer among the first `i` and then stopped, for want
    of due timers or at its limit, took the timers that `Fired` names.
   */
  lemma FiredFound<K(!new)>(
      codec: KeyCodec<K>, c: Contents<K>, domain: TimerDomain, timestamp: int, limit: Option<int>, i: nat)
    requires Lawful(codec) && i <= |TimerOrder(codec, c)|
    requires var order, p := TimerOrder(codec, c), IsDue(domain, timestamp);
      var found, bound := |Filter(order[..i], p)|, PopBound(limit, |order|);
      (found <= bound && NoneFrom(order, p, i)) || found == bound
    ensures Fired(codec, c, domain, timestamp, limit) == Filter(TimerOrder(codec, c)[..i], IsDue(domain, timestamp))
  {
    hide Filter, Ordered, Lawful;
    var order, p := TimerOrder(codec, c), IsDue(domain, timestamp);
    TimerKeyInjective(codec);
    OrderedFilter(c.timers.Keys, Due(c, domain, timestamp), p, TimerKey(codec));
    ScanFinds(order, p, i, PopBound(limit, |order|));
  }

  lemma EventsStep<K>(c: Contents<K>, fired: seq<TimerId>, t: TimerId)
    requires AllFiled(fired, c.timers) && t in c.timers
    ensures AllFiled(fired + [t], c.timers)
    ensures Events(c, fired + [t]) == Events(c, fired) + [EventOf(t, c.timers[t])]
  {
  }

  /** Timers still in the dictionary after some of the fired ones were removed. */
  ghost function Remaining<K>(c: Contents<K>, fired: seq<TimerId>, i: nat): map<TimerId, (K, K)>
    requires i <= |fired|
  {
    WithoutTimers(c, fired[..i]).timers
  }

  lemma RemainingStep<K>(c: Contents<K>, fired: seq<TimerId>, i: nat)
    requires i < |fired|
    ensures Remaining(c, fired, i + 1) == Remaining(c, fired, i) - {fired[i]}
  {
    assert fired[..i + 1] == fired[..i] + [fired[i]];
  }

  lemma NothingFound<K>(c: Contents<K>, order: seq<TimerId>, p: TimerId -> bool)
    ensures Filter(order[..0], p) == [] && AllFiled<K>([], c.timers) && Events(c, []) == []
  {
  }

  lemma RemainingNone<K>(c: Contents<K>, fired: seq<TimerId>)
    ensures Remaining(c, fired, 0) == c.timers
  {
  }

  lemma RemainingAll<K>(codec: KeyCodec<K>, c: Contents<K>, fired: seq<TimerId>)
    requires TimersFiled(codec, c.timers)
    ensures Remaining(c, fired, |fired|) == WithoutTimers(c, fired).timers
    ensures TimersFiled(codec, WithoutTimers(c, fired).timers)
    ensures WithoutTimers(c, fired).cells == c.cells && WithoutTimers(c, fired).index == c.index
  {
    assert fired[..|fired|] == fired;
  }

  /** The physical key of an event, as `encode_timer_key` rebuilds it. */
  function TimerKeyOf<K>(codec: KeyCodec<K>, event: TimerEvent<K>): Blob {
    EncodeTimerKey(event.domain, event.timestamp, codec.digest(codec.encode(event.key), codec.encode(event.namespace)))
  }

  lemma FiledUnder<K>(codec: KeyCodec<K>, c: Contents<K>, fired: seq<TimerId>, j: nat)
    requires AllFiled(fired, c.timers) && TimersFiled(codec, c.timers) && j < |fired|
    ensures TimerKeyOf(codec, Events(c, fired)[j]) == TimerKey(codec)(fired[j])
  {
    assert fired[j] in c.timers;
  }

  // ---- cleanup -------------------------------------------------------------

  function IsOverdue(now: int): IndexEntry -> bool {
    (x: IndexEntry) => x.0 <= now
  }

  ghost function IndexOrder<K>(c: Contents<K>): seq<IndexEntry> {
    IndexKeyInjective();
    Ordered(c.index, IndexKey)
  }

  lemma IndexOrderIs<K>(c: Contents<K>)
    ensures IsOrdering(IndexOrder(c), c.index, IndexKey)
  {
    IndexKeyInjective();
    OrderedIsOrdering(c.index, IndexKey);
  }

  lemma IndexKeysSorted<K>(expiry: map<Blob, Blob>, c: Contents<K>)
    requires Encodes(expiry, Unit(c.index), IndexKey, NoBytes)
    ensures InOrder(SortedKeys(expiry.Keys), IndexOrder(c), IndexKey)
  {
    IndexKeyInjective();
    EncodesSorted(expiry, Unit(c.index), IndexKey, NoBytes);
    assert Unit(c.index).Keys == c.index;
  }

  lemma StoresIndexSorted<K>(
      codec: KeyCodec<K>, state: map<Blob, Blob>, expiry: map<Blob, Blob>, timers: map<Blob, Blob>, c: Contents<K>)
    requires Stores(codec, state, expiry, timers, c)
    ensures InOrder(SortedKeys(expiry.Keys), IndexOrder(c), IndexKey)
  {
    IndexKeysSorted(expiry, c);
  }

  lemma IndexScanStep(keys: seq<Blob>, order: seq<IndexEntry>, i: nat)
    requires i < |order| && InOrder(keys, order, IndexKey)
    ensures keys[i] == IndexKey(order[i])
    ensures DecodeExpiryKey(keys[i]) == Ok((order[i].0 as UInt64, EncodeStateKey(order[i].1)))
  {
    ExpiryKeyRoundTrip(keys[i], order[i].0, EncodeStateKey(order[i].1));
  }

  /** Past an entry that is not overdue, none is. */
  lemma LaterEntriesNotOverdue(order: seq<IndexEntry>, now: int, i: nat)
    requires Ascending(order, IndexKey) && i < |order| && order[i].0 > now
    ensures NoneFrom(order, IsOverdue(now), i)
  {
    forall j | i <= j < |order| ensures !IsOverdue(now)(order[j]) {
      if j > i {
        assert Less(IndexKey(order[i]), IndexKey(order[j]));
        ExpiryKeyOrder(order[i].0, EncodeStateKey(order[i].1), order[j].0, EncodeStateKey(order[j].1));
      }
    }
  }

  lemma {:induction false} FilterAll<T>(s: seq<T>, p: T -> bool)
    requires forall x :: x in s ==> p(x)
    ensures Filter(s, p) == s
  {
    if s != [] {
      var last := |s| - 1;
      FilterAll(s[..last], p);
      assert s[last] in s;
      assert s == s[..last] + [s[last]];
    }
  }

  ghost function FirstEntries<K>(c: Contents<K>, i: nat): set<IndexEntry>
    requires i <= |IndexOrder(c)|
  {
    Elements(IndexOrder(c)[..i])
  }

  /** A cleanup that stopped after `i` overdue entries processed exactly those `Processed` names. */
  lemma ProcessedFound<K>(c: Contents<K>, now: int, limit: Option<int>, i: nat)
    requires i <= |IndexOrder(c)|
    requires forall j :: 0 <= j < i ==> IndexOrder(c)[j].0 <= now
    requires limit.Some? ==> i <= if limit.value < 0 then 0 else limit.value
    requires i == |IndexOrder(c)| || IndexOrder(c)[i].0 > now || (limit.Some? && i >= limit.value)
    ensures Processed(c, now, limit) == FirstEntries(c, i)
  {
    hide Filter, Ascending, IndexKey, Ordered;
    var order, p := IndexOrder(c), IsOverdue(now);
    IndexKeyInjective();
    IndexOrderIs(c);
    OrderedFilter(c.index, Overdue(c, now), p, IndexKey);
    CleanupStops(order, now, limit, i);
  }

  lemma CleanupStops(order: seq<IndexEntry>, now: int, limit: Option<int>, i: nat)
    requires Ascending(order, IndexKey) && i <= |order|
    requires forall j :: 0 <= j < i ==> order[j].0 <= now
    requires limit.Some? ==> i <= if limit.value < 0 then 0 else limit.value
    requires i == |order| || order[i].0 > now || (limit.Some? && i >= limit.value)
    ensures var due := Filter(order, IsOverdue(now)); due[..CleanupBound(limit, |due|)] == order[..i]
  {
    hide Filter, Ascending, IndexKey;
    OverdueScanned(order, now, i);
    if i == |order| {
      assert order[..i] == order;
    } else if order[i].0 > now {
      LaterEntriesNotOverdue(order, now, i);
      FilterStops(order, IsOverdue(now), i);
    }
  }

  lemma OverdueScanned(order: seq<IndexEntry>, now: int, i: nat)
    requires i <= |order| && forall j :: 0 <= j < i ==> order[j].0 <= now
    ensures Filter(order[..i], IsOverdue(now)) == order[..i]
    ensures i <= |Filter(order, IsOverdue(now))| && Filter(order, IsOverdue(now))[..i] == order[..i]
  {
    FilterAll(order[..i], IsOverdue(now));
    FilterPrefix(order, IsOverdue(now), i);
  }

  lemma FirstEntriesStep<K>(c: Contents<K>, i: nat)
    requires i < |IndexOrder(c)|
    ensures var x := IndexOrder(c)[i];
      && FirstEntries(c, i + 1) == FirstEntries(c, i) + {x}
      && x !in FirstEntries(c, i)
      && x in c.index
  {
    IndexOrderIs(c);
    AscendingNoDuplicates(IndexOrder(c), IndexKey);
    FirstOf(IndexOrder(c), i);
    assert IndexOrder(c)[i] in IndexOrder(c);
  }

  lemma FirstOf(order: seq<IndexEntry>, i: nat)
    requires i < |order| && NoDuplicates(order)
    ensures Elements(order[..i + 1]) == Elements(order[..i]) + {order[i]}
    ensures order[i] !in Elements(order[..i])
  {
    assert order[..i + 1] == order[..i] + [order[i]];
  }

  /** Sweeping one more entry drops its cell exactly when the entry still describes it. */
  lemma SweepStep<K>(c: Contents<K>, gone: set<IndexEntry>, x: IndexEntry)
    requires x !in gone
    ensures Swept(c, gone + {x}).cells
         == if Matches(c.cells, x) then Swept(c, gone).cells - {x.1} else Swept(c, gone).cells
    ensures Swept(c, gone + {x}).index == Swept(c, gone).index - {x}
    ensures SweptCount(c, gone + {x}) == SweptCount(c, gone) + if Matches(c.cells, x) then 1 else 0
    ensures Matches(Swept(c, gone).cells, x) <==> Matches(c.cells, x)
  {
    var before := set y | y in gone && Matches(c.cells, y);
    var after := set y | y in gone + {x} && Matches(c.cells, y);
    if Matches(c.cells, x) {
      assert after == before + {x};
    } else {
      assert after == before;
    }
  }

  lemma SweptNone<K>(c: Contents<K>)
    ensures FirstEntries(c, 0) == {} && Swept(c, {}) == c && SweptCount(c, {}) == 0
  {
    assert (set x | x in {} && Matches(c.cells, x)) == {};
  }

  /** The test a cleanup makes on the stored value. */
  lemma StoredMatches(state: map<Blob, Blob>, cells: map<Slot, Cell>, x: IndexEntry)
    requires Encodes(state, cells, SlotKey, CellBytes)
    ensures StoredExpiry(state, EncodeStateKey(x.1)) == Some(x.0) <==> Matches(cells, x)
  {
    StoredExpiryIs(state, cells, x.1);
  }

  /** The physical form of sweeping one more entry. */
  lemma SweepStored<K(!new)>(
      codec: KeyCodec<K>, state: map<Blob, Blob>, expiry: map<Blob, Blob>, timers: map<Blob, Blob>,
      c: Contents<K>, gone: set<IndexEntry>, x: IndexEntry)
    requires Stores(codec, state, expiry, timers, Swept(c, gone)) && x !in gone
    ensures Stores(codec,
      if Matches(c.cells, x) then state - {EncodeStateKey(x.1)} else state, expiry - {IndexKey(x)}, timers,
      Swept(c, gone + {x}))
    ensures SweptCount(c, gone + {x}) == SweptCount(c, gone) + if Matches(c.cells, x) then 1 else 0
    ensures StoredExpiry(state, EncodeStateKey(x.1)) == Some(x.0) <==> Matches(c.cells, x)
  {
    hide Encodes, EncodeStateKey, IndexKey, StoredExpiry;
    var now := Swept(c, gone);
    SweepStep(c, gone, x);
    StoredMatches(state, now.cells, x);
    DropEntry(expiry, now.index, x);
    DropCell(state, now.cells, x.1);
    assert SlotKey(x.1) == EncodeStateKey(x.1);
  }

  lemma StoresMatches<K>(
      codec: KeyCodec<K>, state: map<Blob, Blob>, expiry: map<Blob, Blob>, timers: map<Blob, Blob>,
      c: Contents<K>, x: IndexEntry)
    requires Stores(codec, state, expiry, timers, c)
    ensures StoredExpiry(state, EncodeStateKey(x.1)) == Some(x.0) <==> Matches(c.cells, x)
  {
    StoredMatches(state, c.cells, x);
  }

  // ---- scans from a prefix -------------------------------------------------

  /** Nothing before the seek position qualifies, nor anything after the first key outside the prefix. */
  lemma PrefixScan<T>(keys: seq<Blob>, prefix: Blob, order: seq<T>, p: T -> bool, i: nat)
    requires Ascending(keys, Identity) && |order| == |keys|
    requires forall j :: 0 <= j < |keys| && p(order[j]) ==> StartsWith(keys[j], prefix)
    ensures Filter(order[..Seek(keys, prefix)], p) == []
    ensures Seek(keys, prefix) <= i < |keys| && !StartsWith(keys[i], prefix) ==> NoneFrom(order, p, i)
  {
    var k := Seek(keys, prefix);
    forall j | 0 <= j < k ensures !p(order[..k][j]) {
      SeekSkips(keys, prefix, j);
    }
    FilterStops(order[..k], p, 0);
    if k <= i < |keys| && !StartsWith(keys[i], prefix) {
      forall j | i <= j < |keys| ensures !p(order[j]) {
        PrefixScanStops(keys, prefix, i, j);
      }
    }
  }

  lemma NamespacePrefix(keys: seq<Blob>, order: seq<Slot>, name: Field, key: Field)
    requires InOrder(keys, order, SlotKey)
    ensures forall j :: 0 <= j < |keys| && HasNameAndKey(name, key)(order[j]) ==>
      StartsWith(keys[j], StateKeyPrefix(name, key))
  {
    forall j | 0 <= j < |keys| && HasNameAndKey(name, key)(order[j])
      ensures StartsWith(keys[j], StateKeyPrefix(name, key))
    {
      StateScanStep(keys, order, j, name, key);
    }
  }

  lemma TimerPrefixScan<K(!new)>(
      codec: KeyCodec<K>, timers: map<Blob, Blob>, c: Contents<K>, keys: seq<Blob>,
      domain: TimerDomain, timestamp: int, i: nat)
    requires Lawful(codec) && keys == SortedKeys(timers.Keys)
    requires Encodes(timers, c.timers, TimerKey(codec), PairBytes(codec))
    ensures |TimerOrder(codec, c)| == |keys|
    ensures var order, p := TimerOrder(codec, c), IsDue(domain, timestamp);
      && Filter(order[..Seek(keys, TimerPrefix(domain))], p) == []
      && (Seek(keys, TimerPrefix(domain)) <= i < |keys| && !StartsWith(keys[i], TimerPrefix(domain)) ==>
            NoneFrom(order, p, i))
  {
    var order, p := TimerOrder(codec, c), IsDue(domain, timestamp);
    TimerKeysSorted(codec, timers, c);
    OrderedIsOrdering(timers.Keys, Identity);
    forall j | 0 <= j < |keys| && p(order[j]) ensures StartsWith(keys[j], TimerPrefix(domain)) {
      TimerScanStep(codec, timers, c, keys, j, domain);
    }
    PrefixScan(keys, TimerPrefix(domain), order, p, i);
  }
}

/** How the byte dictionaries of a backend hold keyed state. */
module StoredState {
  import opened Wrappers
  import opened Bytes
  import opened StateCodec
  import opened Encodings
  import opened KeyCodec
  import opened KeyedState

  function Signed(expires: Option<Instant>): Option<Int64> {
    if expires.None? then None else Some(expires.value)
  }

  function CellBytes(c: Cell): Blob {
    EncodeStateValue(c.payload, Signed(c.expires))
  }

  function PairBytes<K>(codec: KeyCodec<K>): ((K, K)) -> Blob {
    (v: (K, K)) => codec.dumpPair(v.0, v.1)
  }

  ghost predicate Stores<K>(
      codec: KeyCodec<K>, state: map<Blob, Blob>, expiry: map<Blob, Blob>, timers: map<Blob, Blob>, c: Contents<K>)
  {
    && Encodes(state, c.cells, SlotKey, CellBytes)
    && Encodes(expiry, Unit(c.index), IndexKey, NoBytes)
    && Encodes(timers, c.timers, TimerKey(codec), PairBytes(codec))
    && TimersFiled(codec, c.timers)
  }

  lemma CellRoundTrip(c: Cell)
    ensures DecodeStateValue(CellBytes(c)) == Ok((Signed(c.expires), c.payload))
  {
    StateValueRoundTrip(c.payload, Signed(c.expires));
  }

  lemma UnitUpdate<A>(s: set<A>, x: A)
    ensures Unit(s + {x}) == Unit(s)[x := ()]
    ensures Unit(s - {x}) == Unit(s) - {x}
  {
  }

  /** Reading a state key finds the cell of its slot, or nothing. */
  lemma LookupCell(state: map<Blob, Blob>, cells: map<Slot, Cell>, slot: Slot)
    requires Encodes(state, cells, SlotKey, CellBytes)
    ensures SlotKey(slot) in state <==> slot in cells
    ensures slot in cells ==> state[SlotKey(slot)] == CellBytes(cells[slot])
    ensures slot in cells ==>
      DecodeStateValue(state[SlotKey(slot)]) == Ok((Signed(cells[slot].expires), cells[slot].payload))
  {
    SlotKeyInjective();
    EncodesLookup(state, cells, SlotKey, CellBytes, slot);
    if slot in cells {
      CellRoundTrip(cells[slot]);
    }
  }

  lemma StoreCell(state: map<Blob, Blob>, cells: map<Slot, Cell>, slot: Slot, cell: Cell)
    requires Encodes(state, cells, SlotKey, CellBytes)
    ensures Encodes(state[SlotKey(slot) := CellBytes(cell)], cells[slot := cell], SlotKey, CellBytes)
  {
    SlotKeyInjective();
    EncodesPut(state, cells, SlotKey, CellBytes, slot, cell);
  }

  lemma DropCell(state: map<Blob, Blob>, cells: map<Slot, Cell>, slot: Slot)
    requires Encodes(state, cells, SlotKey, CellBytes)
    ensures Encodes(state - {SlotKey(slot)}, cells - {slot}, SlotKey, CellBytes)
  {
    SlotKeyInjective();
    EncodesDrop(state, cells, SlotKey, CellBytes, slot);
  }

  lemma AddEntry(expiry: map<Blob, Blob>, index: set<IndexEntry>, x: IndexEntry)
    requires Encodes(expiry, Unit(index), IndexKey, NoBytes)
    ensures Encodes(expiry[IndexKey(x) := []], Unit(index + {x}), IndexKey, NoBytes)
  {
    IndexKeyInjective();
    EncodesPut(expiry, Unit(index), IndexKey, NoBytes, x, ());
    UnitUpdate(index, x);
  }

  lemma DropEntry(expiry: map<Blob, Blob>, index: set<IndexEntry>, x: IndexEntry)
    requires Encodes(expiry, Unit(index), IndexKey, NoBytes)
    ensures Encodes(expiry - {IndexKey(x)}, Unit(index - {x}), IndexKey, NoBytes)
  {
    IndexKeyInjective();
    EncodesDrop(expiry, Unit(index), IndexKey, NoBytes, x);
    UnitUpdate(index, x);
  }

  lemma StoreTimer<K(!new)>(
      codec: KeyCodec<K>, timers: map<Blob, Blob>, filed: map<TimerId, (K, K)>, t: TimerId, v: (K, K))
    requires Lawful(codec)
    requires Encodes(timers, filed, TimerKey(codec), PairBytes(codec))
    ensures Encodes(timers[TimerKey(codec)(t) := PairBytes(codec)(v)], filed[t := v], TimerKey(codec), PairBytes(codec))
  {
    TimerKeyInjective(codec);
    EncodesPut(timers, filed, TimerKey(codec), PairBytes(codec), t, v);
  }

  lemma DropTimer<K(!new)>(codec: KeyCodec<K>, timers: map<Blob, Blob>, filed: map<TimerId, (K, K)>, t: TimerId)
    requires Lawful(codec)
    requires Encodes(timers, filed, TimerKey(codec), PairBytes(codec))
    ensures Encodes(timers - {TimerKey(codec)(t)}, filed - {t}, TimerKey(codec), PairBytes(codec))
  {
    TimerKeyInjective(codec);
    EncodesDrop(timers, filed, TimerKey(codec), PairBytes(codec), t);
  }

  // ---- single updates, as both backends perform them -----------------------

  /** The expiry stored with a state key, if there is one. */
  function StoredExpiry(state: map<Blob, Blob>, stateKey: Blob): Option<Int64> {
    if stateKey !in state then
      None
    else
      match DecodeStateValue(state[stateKey])
      case Err(_) => None
      case Ok((expires, _)) => expires
  }

  /** The cell stored under a state key. */
  function StoredCell(state: map<Blob, Blob>, stateKey: Blob): Option<(Option<Int64>, Blob)> {
    if stateKey !in state then
      None
    else
      match DecodeStateValue(state[stateKey])
      case Err(_) => None
      case Ok(cell) => Some(cell)
  }

  lemma StoredCellIs(state: map<Blob, Blob>, cells: map<Slot, Cell>, slot: Slot)
    requires Encodes(state, cells, SlotKey, CellBytes)
    ensures StoredCell(state, EncodeStateKey(slot))
         == if slot in cells then Some((Signed(cells[slot].expires), cells[slot].payload)) else None
  {
    LookupCell(state, cells, slot);
  }

  /** The index without the entry that a stored expiry accounts for. */
  function Unindexed(expiry: map<Blob, Blob>, previous: Option<Int64>, stateKey: Blob): map<Blob, Blob> {
    if previous.Some? && previous.value >= 0 then
      expiry - {EncodeExpiryKey(previous.value, stateKey)}
    else
      expiry
  }

  function Indexed(expiry: map<Blob, Blob>, expires: Option<Instant>, stateKey: Blob): map<Blob, Blob> {
    if expires.Some? then expiry[EncodeExpiryKey(expires.value, stateKey) := []] else expiry
  }

  lemma StoredExpiryIs(state: map<Blob, Blob>, cells: map<Slot, Cell>, slot: Slot)
    requires Encodes(state, cells, SlotKey, CellBytes)
    ensures StoredExpiry(state, EncodeStateKey(slot))
         == if slot in cells then Signed(cells[slot].expires) else None
  {
    LookupCell(state, cells, slot);
  }

  lemma UnindexedStored<K>(state: map<Blob, Blob>, expiry: map<Blob, Blob>, c: Contents<K>, slot: Slot)
    requires Encodes(state, c.cells, SlotKey, CellBytes)
    requires Encodes(expiry, Unit(c.index), IndexKey, NoBytes)
    ensures var key := EncodeStateKey(slot);
      Encodes(
        Unindexed(expiry, StoredExpiry(state, key), key), Unit(c.index - CurrentEntries(c, slot)), IndexKey, NoBytes)
  {
    StoredExpiryIs(state, c.cells, slot);
    if slot in c.cells && c.cells[slot].expires.Some? {
      DropEntry(expiry, c.index, (c.cells[slot].expires.value, slot));
    } else {
      assert c.index - CurrentEntries(c, slot) == c.index;
    }
  }

  lemma IndexedStored(expiry: map<Blob, Blob>, index: set<IndexEntry>, slot: Slot, expires: Option<Instant>)
    requires Encodes(expiry, Unit(index), IndexKey, NoBytes)
    ensures Encodes(
      Indexed(expiry, expires, EncodeStateKey(slot)), Unit(index + EntriesOf(slot, expires)), IndexKey, NoBytes)
  {
    if expires.Some? {
      AddEntry(expiry, index, (expires.value, slot));
    } else {
      assert index + EntriesOf(slot, expires) == index;
    }
  }

  /** The physical form of `Put`. */
  lemma PutStored<K(!new)>(
      codec: KeyCodec<K>, state: map<Blob, Blob>, expiry: map<Blob, Blob>, timers: map<Blob, Blob>,
      c: Contents<K>, slot: Slot, payload: Blob, expires: Option<Instant>)
    requires Stores(codec, state, expiry, timers, c)
    ensures var key := EncodeStateKey(slot);
      Stores(codec,
        state[key := EncodeStateValue(payload, Signed(expires))],
        Indexed(Unindexed(expiry, StoredExpiry(state, key), key), expires, key),
        timers, Put(c, slot, payload, expires))
  {
    UnindexedStored(state, expiry, c, slot);
    var key := EncodeStateKey(slot);
    IndexedStored(Unindexed(expiry, StoredExpiry(state, key), key), c.index - CurrentEntries(c, slot), slot, expires);
    StoreCell(state, c.cells, slot, Cell(expires, payload));
  }

  /** The physical form of `Delete`. */
  lemma DeleteStored<K(!new)>(
      codec: KeyCodec<K>, state: map<Blob, Blob>, expiry: map<Blob, Blob>, timers: map<Blob, Blob>,
      c: Contents<K>, slot: Slot)
    requires Stores(codec, state, expiry, timers, c)
    ensures var key := EncodeStateKey(slot);
      Stores(codec, state - {key}, Unindexed(expiry, StoredExpiry(state, key), key), timers, Delete(c, slot))
  {
    UnindexedStored(state, expiry, c, slot);
    DropCell(state, c.cells, slot);
  }

  /** Dropping a value without its index entry. */
  lemma ForgetStored<K(!new)>(
      codec: KeyCodec<K>, state: map<Blob, Blob>, expiry: map<Blob, Blob>, timers: map<Blob, Blob>,
      c: Contents<K>, slot: Slot)
    requires Stores(codec, state, expiry, timers, c)
    ensures Stores(codec, state - {EncodeStateKey(slot)}, expiry, timers, c.(cells := c.cells - {slot}))
  {
    DropCell(state, c.cells, slot);
  }
}

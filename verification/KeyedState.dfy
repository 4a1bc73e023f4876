/**
  What managed keyed state means: an expiring table of values with a secondary
  expiry index, and a set of timers. Both backends are proved against it.
 */
module KeyedState {
  import opened Wrappers
  import opened Bytes
  import opened StateCodec
  import opened Sorting
  import opened KeyCodec

  /** A clock reading or a time-to-live; two of them add up to a storable expiry. */
  type Millis = n: int | 0 <= n < 0x4000_0000_0000_0000
  type TimeToLive = n: int | 1 <= n < 0x4000_0000_0000_0000 witness 1
  type Instant = n: int | 0 <= n < 0x8000_0000_0000_0000

  datatype TtlConfig = TtlConfig(ttl: TimeToLive, refreshOnRead: bool, returnExpired: bool)

  /** `name` is the UTF-8 form of the descriptor's name. */
  datatype Descriptor = Descriptor(name: Blob, ttl: Option<TtlConfig>)

  datatype BackendError = NoCurrentKey | ComponentTooLong | NegativeTimestamp | TimestampOverflow

  datatype Cell = Cell(expires: Option<Instant>, payload: Blob)

  /** An entry (e, slot) of the expiry index. */
  type IndexEntry = (Instant, Slot)

  datatype TimerId = TimerId(domain: TimerDomain, timestamp: UInt64, key: Blob, namespace: Blob)

  /** What a fired timer hands to the operator: key and namespace as they were registered. */
  datatype TimerEvent<K> = TimerEvent(timestamp: UInt64, key: K, namespace: K, domain: TimerDomain)

  datatype Contents<K> = Contents(
    cells: map<Slot, Cell>,
    index: set<IndexEntry>,
    timers: map<TimerId, (K, K)>)

  function Empty<K>(): Contents<K> {
    Contents(map[], {}, map[])
  }

  // ---- slots ---------------------------------------------------------------

  /** Why `encode_state_key` fails: without a current key, or for a component that is too long. */
  function SlotError<K>(codec: KeyCodec<K>, currentKey: Option<K>, d: Descriptor, namespace: K): Option<BackendError> {
    if currentKey.None? then Some(NoCurrentKey)
    else if Fits(d.name) && Fits(codec.encode(currentKey.value)) && Fits(codec.encode(namespace)) then None
    else Some(ComponentTooLong)
  }

  function SlotOf<K>(codec: KeyCodec<K>, d: Descriptor, key: K, namespace: K): Slot
    requires SlotError(codec, Some(key), d, namespace).None?
  {
    Slot(d.name, codec.encode(key), codec.encode(namespace))
  }

  /** Why `state_key_prefix` fails. */
  function PrefixError<K>(codec: KeyCodec<K>, currentKey: Option<K>, d: Descriptor): Option<BackendError> {
    if currentKey.None? then Some(NoCurrentKey)
    else if Fits(d.name) && Fits(codec.encode(currentKey.value)) then None
    else Some(ComponentTooLong)
  }

  // ---- values --------------------------------------------------------------

  predicate IsExpired(cell: Cell, now: Millis) {
    cell.expires.Some? && cell.expires.value <= now
  }

  /** Whether a read treats the cell as gone. */
  predicate Vanished(cell: Cell, ttl: Option<TtlConfig>, now: Millis) {
    IsExpired(cell, now) && (ttl.None? || !ttl.value.returnExpired)
  }

  function ExpiryFor(ttl: Option<TtlConfig>, now: Millis): Option<Instant> {
    if ttl.None? then None else Some(now + ttl.value.ttl)
  }

  /** The index entry a cell accounts for. */
  function EntriesOf(slot: Slot, expires: Option<Instant>): set<IndexEntry> {
    if expires.None? then {} else {(expires.value, slot)}
  }

  function CurrentEntries<K>(c: Contents<K>, slot: Slot): set<IndexEntry> {
    if slot in c.cells then EntriesOf(slot, c.cells[slot].expires) else {}
  }

  function Put<K>(c: Contents<K>, slot: Slot, payload: Blob, expires: Option<Instant>): Contents<K> {
    c.(cells := c.cells[slot := Cell(expires, payload)],
       index := c.index - CurrentEntries(c, slot) + EntriesOf(slot, expires))
  }

  function Delete<K>(c: Contents<K>, slot: Slot): Contents<K> {
    c.(cells := c.cells - {slot}, index := c.index - CurrentEntries(c, slot))
  }

  /** What a read returns. */
  function Visible<K>(c: Contents<K>, slot: Slot, ttl: Option<TtlConfig>, now: Millis): Option<Blob> {
    if slot in c.cells && !Vanished(c.cells[slot], ttl, now) then Some(c.cells[slot].payload) else None
  }

  /**
    The contents after a read. `exact` tells whether dropping a vanished cell also
    drops its index entry: RocksDB does, the memory backend leaves it behind.
    A refreshing read reads the clock a second time, at `renewal`.
   */
  function AfterGet<K>(c: Contents<K>, exact: bool, slot: Slot, ttl: Option<TtlConfig>, now: Millis, renewal: Millis)
    : Contents<K>
  {
    if slot !in c.cells then
      c
    else if Vanished(c.cells[slot], ttl, now) then
      if exact then Delete(c, slot) else c.(cells := c.cells - {slot})
    else if ttl.Some? && ttl.value.refreshOnRead then
      Put(c, slot, c.cells[slot].payload, ExpiryFor(ttl, renewal))
    else
      c
  }

  // ---- namespaces ----------------------------------------------------------

  function SlotsOf<K>(c: Contents<K>, name: Field, key: Field): set<Slot> {
    set s | s in c.cells && s.name == name && s.key == key
  }

  function SlotKey(s: Slot): Blob {
    EncodeStateKey(s)
  }

  lemma SlotKeyInjective()
    ensures Injective(SlotKey)
  {
    forall a, b | SlotKey(a) == SlotKey(b) ensures a == b {
      EncodeStateKeyInjective(a, b);
    }
  }

  /** Every namespace that holds a value, expired or not, in byte order. */
  function Namespaces<K(!new)>(codec: KeyCodec<K>, c: Contents<K>, name: Field, key: Field): seq<K> {
    SlotKeyInjective();
    DecodedNamespaces(codec, Ordered(SlotsOf(c, name, key), SlotKey))
  }

  function DecodedNamespaces<K>(codec: KeyCodec<K>, slots: seq<Slot>): seq<K> {
    seq(|slots|, i requires 0 <= i < |slots| => codec.decode(slots[i].namespace))
  }

  // ---- timers --------------------------------------------------------------

  function TimerKey<K>(codec: KeyCodec<K>): TimerId -> Blob {
    (t: TimerId) => EncodeTimerKey(t.domain, t.timestamp, codec.digest(t.key, t.namespace))
  }

  lemma TimerKeyInjective<K(!new)>(codec: KeyCodec<K>)
    requires Lawful(codec)
    ensures Injective(TimerKey(codec))
  {
    forall a, b | TimerKey(codec)(a) == TimerKey(codec)(b) ensures a == b {
      EncodeTimerKeyInjective(
        a.domain, a.timestamp, codec.digest(a.key, a.namespace),
        b.domain, b.timestamp, codec.digest(b.key, b.namespace));
    }
  }

  function TimerOf<K>(codec: KeyCodec<K>, domain: TimerDomain, timestamp: UInt64, key: K, namespace: K): TimerId {
    TimerId(domain, timestamp, codec.encode(key), codec.encode(namespace))
  }

  /** Timers carry a key and a namespace with the encodings they are filed under. */
  ghost predicate TimersFiled<K>(codec: KeyCodec<K>, timers: map<TimerId, (K, K)>) {
    forall t :: t in timers ==> codec.encode(timers[t].0) == t.key && codec.encode(timers[t].1) == t.namespace
  }

  /** Registration looks at the timestamp before the current key; deletion the other way round. */
  function RegistrationError<K>(currentKey: Option<K>, timestamp: int): Option<BackendError> {
    if timestamp < 0 then Some(NegativeTimestamp)
    else if currentKey.None? then Some(NoCurrentKey)
    else if timestamp >= 0x1_0000_0000_0000_0000 then Some(TimestampOverflow)
    else None
  }

  function DeletionError<K>(currentKey: Option<K>, timestamp: int): Option<BackendError> {
    if currentKey.None? then Some(NoCurrentKey)
    else if !(0 <= timestamp < 0x1_0000_0000_0000_0000) then Some(TimestampOverflow)
    else None
  }

  function Register<K>(codec: KeyCodec<K>, c: Contents<K>, domain: TimerDomain, timestamp: UInt64, key: K, namespace: K)
    : Contents<K>
  {
    c.(timers := c.timers[TimerOf(codec, domain, timestamp, key, namespace) := (key, namespace)])
  }

  function Unregister<K>(
      codec: KeyCodec<K>, c: Contents<K>, domain: TimerDomain, timestamp: UInt64, key: K, namespace: K)
    : Contents<K>
  {
    c.(timers := c.timers - {TimerOf(codec, domain, timestamp, key, namespace)})
  }

  function Due<K>(c: Contents<K>, domain: TimerDomain, timestamp: int): set<TimerId> {
    set t | t in c.timers && t.domain == domain && t.timestamp <= timestamp
  }

  function Min(a: int, b: int): int {
    if a < b then a else b
  }

  /** The limit is tested after an event is taken, so a limit below one still yields one event. */
  function FiredCount(due: nat, limit: Option<int>): nat {
    if limit.None? then due else Min(due, if limit.value < 1 then 1 else limit.value)
  }

  /** The timers a pop removes, in the order it returns them. */
  function Fired<K(!new)>(codec: KeyCodec<K>, c: Contents<K>, domain: TimerDomain, timestamp: int, limit: Option<int>)
    : (fired: seq<TimerId>)
    requires Lawful(codec)
    ensures AllFiled(fired, c.timers)
  {
    TimerKeyInjective(codec);
    OrderedIsOrdering(Due(c, domain, timestamp), TimerKey(codec));
    var due := Ordered(Due(c, domain, timestamp), TimerKey(codec));
    assert forall i :: 0 <= i < |due| ==> due[i] in due;
    due[..FiredCount(|due|, limit)]
  }

  predicate AllFiled<K>(fired: seq<TimerId>, timers: map<TimerId, (K, K)>) {
    forall i :: 0 <= i < |fired| ==> fired[i] in timers
  }

  function EventOf<K>(t: TimerId, v: (K, K)): TimerEvent<K> {
    TimerEvent(t.timestamp, v.0, v.1, t.domain)
  }

  function Events<K>(c: Contents<K>, fired: seq<TimerId>): seq<TimerEvent<K>>
    requires AllFiled(fired, c.timers)
  {
    seq(|fired|, i requires 0 <= i < |fired| => EventOf(fired[i], c.timers[fired[i]]))
  }

  function WithoutTimers<K>(c: Contents<K>, gone: seq<TimerId>): Contents<K> {
    c.(timers := c.timers - set t | t in gone)
  }

  // ---- cleanup -------------------------------------------------------------

  function IndexKey(x: IndexEntry): Blob {
    EncodeExpiryKey(x.0, EncodeStateKey(x.1))
  }

  lemma IndexKeyInjective()
    ensures Injective(IndexKey)
  {
    forall a, b | IndexKey(a) == IndexKey(b) ensures a == b {
      ExpiryKeyRoundTrip(IndexKey(a), a.0, EncodeStateKey(a.1));
      ExpiryKeyRoundTrip(IndexKey(a), b.0, EncodeStateKey(b.1));
      EncodeStateKeyInjective(a.1, b.1);
    }
  }

  /** The index entry names the expiry its cell still has. */
  predicate Matches(cells: map<Slot, Cell>, x: IndexEntry) {
    x.1 in cells && cells[x.1].expires == Some(x.0)
  }

  function Overdue<K>(c: Contents<K>, now: int): set<IndexEntry> {
    set x | x in c.index && x.0 <= now
  }

  /** The index entries one cleanup call processes: the earliest ones, at most `limit`. */
  function Processed<K>(c: Contents<K>, now: int, limit: Option<int>): set<IndexEntry> {
    IndexKeyInjective();
    var order := Ordered(Overdue(c, now), IndexKey);
    Elements(order[..CleanupBound(limit, |order|)])
  }

  /** How many of `due` overdue entries a cleanup with this limit processes. */
  function CleanupBound(limit: Option<int>, due: nat): (n: nat)
    ensures n <= due
  {
    if limit.None? then due else Min(due, if limit.value < 0 then 0 else limit.value)
  }

  /** Drop the given index entries and every cell one of them still describes. */
  function Swept<K>(c: Contents<K>, gone: set<IndexEntry>): Contents<K> {
    c.(cells := map s | s in c.cells && CurrentEntries(c, s) !! gone :: c.cells[s],
       index := c.index - gone)
  }

  function SweptCount<K>(c: Contents<K>, gone: set<IndexEntry>): nat {
    |set x | x in gone && Matches(c.cells, x)|
  }

  function AfterCleanup<K>(c: Contents<K>, now: int, limit: Option<int>): Contents<K> {
    Swept(c, Processed(c, now, limit))
  }

  function CleanupCount<K>(c: Contents<K>, now: int, limit: Option<int>): nat {
    SweptCount(c, Processed(c, now, limit))
  }
}

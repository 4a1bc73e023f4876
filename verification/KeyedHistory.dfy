/**
  What a keyed backend answers, told by the calls alone: the history of one value and the
  times at which it was written, read and cleaned up decide every read.
 */
module KeyedHistory {
  import opened Wrappers
  import opened Bytes
  import opened StateCodec
  import opened Sorting
  import opened KeyCodec
  import opened KeyedState
  import opened BackendLaws
  import opened MemoryBackend
  import opened RocksDbBackend

  // ---- one value through any run -------------------------------------------

  /** What the calls so far have left of one value: its payload and the time it is good for. */
  datatype Held = Nothing | Held(payload: Blob, deadline: Option<int>)

  predicate Overripe(h: Held, now: int) {
    h.Held? && h.deadline.Some? && h.deadline.value <= now
  }

  function Good(ttl: Option<TtlConfig>, now: int): Option<int> {
    if ttl.None? then None else Some(now + ttl.value.ttl)
  }

  /** A descriptor, the current key and a namespace name this value. */
  predicate Names<K>(codec: KeyCodec<K>, key: Option<K>, d: Descriptor, namespace: K, slot: Slot) {
    && key.Some? && slot.name == d.name && slot.key == codec.encode(key.value)
    && slot.namespace == codec.encode(namespace)
  }

  /** The call is about this value. */
  predicate Addresses<K>(codec: KeyCodec<K>, key: Option<K>, op: Operation<K>, slot: Slot) {
    (op.Read? || op.Write? || op.Remove?) && Names(codec, key, op.descriptor, op.namespace, slot)
  }

  /** A read returns the payload unless its time is up and the reading descriptor hides that. */
  function Answer(h: Held, d: Descriptor, now: int): Option<Blob> {
    if h.Nothing? then None
    else if Overripe(h, now) && (d.ttl.Some? ==> !d.ttl.value.returnExpired) then None
    else Some(h.payload)
  }

  function HeldAfter<K>(codec: KeyCodec<K>, key: Option<K>, slot: Slot, h: Held, op: Operation<K>): Held {
    match op
    case Write(d, payload, _, now) =>
      if Addresses(codec, key, op, slot) then Held.Held(payload, Good(d.ttl, now)) else h
    case Remove(_, _) => if Addresses(codec, key, op, slot) then Nothing else h
    case Read(d, _, now, renewal) =>
      if !Addresses(codec, key, op, slot) then h
      else if Answer(h, d, now).None? then Nothing
      else if d.ttl.Some? && d.ttl.value.refreshOnRead then Held.Held(h.payload, Some(renewal + d.ttl.value.ttl))
      else h
    case Cleanup(cutoff, _) => if Overripe(h, cutoff) then Nothing else h
    case _ => h
  }

  function KeyAfter<K>(key: Option<K>, op: Operation<K>): Option<K> {
    if op.SelectKey? then Some(op.key) else key
  }

  /** The value after a history of calls, and the key they left current. */
  function History<K>(codec: KeyCodec<K>, key: Option<K>, slot: Slot, h: Held, ops: seq<Operation<K>>)
    : (Option<K>, Held)
    decreases |ops|
  {
    if ops == [] then
      (key, h)
    else
      History(codec, KeyAfter(key, ops[0]), slot, HeldAfter(codec, key, slot, h, ops[0]), ops[1..])
  }

  function HeldIn<K>(c: Contents<K>, slot: Slot): Held {
    if slot !in c.cells then Nothing
    else
      var cell := c.cells[slot];
      Held.Held(cell.payload, if cell.expires.None? then None else Some(cell.expires.value))
  }

  lemma StepIsHistory<K(!new)>(codec: KeyCodec<K>, exact: bool, s: Store<K>, op: Operation<K>, slot: Slot)
    requires Lawful(codec) && IndexSound(exact, s.contents)
    requires op.Cleanup? ==> op.limit == None
    ensures Step(codec, exact, s, op).0.currentKey == KeyAfter(s.currentKey, op)
    ensures HeldIn(Step(codec, exact, s, op).0.contents, slot)
         == HeldAfter(codec, s.currentKey, slot, HeldIn(s.contents, slot), op)
  {
    hide Lawful, IndexSound, AfterCleanup, CleanupCount, Fired, Events, Namespaces, Put, Delete;
    match op
    case Cleanup(cutoff, _) => CleanupIsHistory(exact, s.contents, cutoff, slot);
    case Read(d, namespace, now, renewal) => SlotStepIsHistory(codec, exact, s, op, slot);
    case Write(d, payload, namespace, now) => SlotStepIsHistory(codec, exact, s, op, slot);
    case Remove(d, namespace) => SlotStepIsHistory(codec, exact, s, op, slot);
    case _ =>
  }

  lemma CleanupIsHistory<K>(exact: bool, c: Contents<K>, cutoff: int, slot: Slot)
    requires IndexSound(exact, c)
    ensures HeldIn(AfterCleanup(c, cutoff, None), slot)
         == if Overripe(HeldIn(c, slot), cutoff) then Nothing else HeldIn(c, slot)
  {
    hide AfterCleanup, CleanupCount, IndexCovers, IndexExact;
    if exact {
      ExactCovers(c);
    }
    CleanupRemovesExactlyExpired(c, cutoff);
  }

  lemma SlotStepIsHistory<K(!new)>(codec: KeyCodec<K>, exact: bool, s: Store<K>, op: Operation<K>, slot: Slot)
    requires Lawful(codec) && OnSlot(op)
    ensures Step(codec, exact, s, op).0.currentKey == s.currentKey
    ensures HeldIn(Step(codec, exact, s, op).0.contents, slot)
         == HeldAfter(codec, s.currentKey, slot, HeldIn(s.contents, slot), op)
  {
    hide Lawful, Fits;
    SlotErrorIs(codec, s.currentKey, op.descriptor, op.namespace);
  }

  /**
    Over every run of either backend whose cleanups are unlimited, what is stored for a
    value is what the history of the calls says.
   */
  lemma {:induction false} RunsAreHistory<K(!new)>(
      codec: KeyCodec<K>, exact: bool, s: Store<K>, ops: seq<Operation<K>>, slot: Slot)
    requires Lawful(codec) && IndexSound(exact, s.contents)
    requires forall op :: op in ops && op.Cleanup? ==> op.limit == None
    ensures var after := Run(codec, exact, s, ops).0;
      (after.currentKey, HeldIn(after.contents, slot))
      == History(codec, s.currentKey, slot, HeldIn(s.contents, slot), ops)
    decreases |ops|
  {
    hide Lawful, IndexSound, Step, HeldAfter;
    if ops != [] {
      assert ops[0] in ops;
      StepIsHistory(codec, exact, s, ops[0], slot);
      StepKeepsIndex(codec, exact, s, ops[0]);
      RunsAreHistory(codec, exact, Step(codec, exact, s, ops[0]).0, ops[1..], slot);
    }
  }

  /**
    What a read returns after any such run from empty backends: the payload that its
    history has left, or nothing.
   */
  lemma ReadsTellHistory<K(!new)>(
      codec: KeyCodec<K>, exact: bool, ops: seq<Operation<K>>, read: Operation<K>, slot: Slot)
    requires Lawful(codec) && read.Read?
    requires forall op :: op in ops && op.Cleanup? ==> op.limit == None
    requires Addresses(codec, History(codec, None, slot, Nothing, ops).0, read, slot)
    ensures var after := Run(codec, exact, Store(None, Empty()), ops).0;
      Step(codec, exact, after, read).1
      == Value(Answer(History(codec, None, slot, Nothing, ops).1, read.descriptor, read.now))
  {
    hide Lawful, Run, History, AfterGet, Fits;
    var start: Store<K> := Store(None, Empty());
    RunsAreHistory(codec, exact, start, ops, slot);
    var after := Run(codec, exact, start, ops).0;
    SlotErrorIs(codec, after.currentKey, read.descriptor, read.namespace);
  }

  // ---- which calls fail ----------------------------------------------------

  /** Four bytes cannot hold the length. */
  predicate Large(b: Blob) {
    |b| > 4294967295
  }

  /** A call on a value fails exactly without a current key, or when one of the three components is 4 GiB or longer. */
  lemma SlotErrorIs<K>(codec: KeyCodec<K>, currentKey: Option<K>, d: Descriptor, namespace: K)
    ensures var error := SlotError(codec, currentKey, d, namespace);
      && (error == Some(NoCurrentKey) <==> currentKey.None?)
      && (error == Some(ComponentTooLong) <==>
            currentKey.Some?
            && (Large(d.name) || Large(codec.encode(currentKey.value)) || Large(codec.encode(namespace))))
      && (error.None? || error == Some(NoCurrentKey) || error == Some(ComponentTooLong))
    ensures forall slot: Slot ::
      Names(codec, currentKey, d, namespace, slot) <==>
        (SlotError(codec, currentKey, d, namespace).None?
         && slot == SlotOf(codec, d, currentKey.value, namespace))
  {
  }

  /** Listing the namespaces of a value fails exactly without a current key, or when name or key is too long. */
  lemma PrefixErrorIs<K>(codec: KeyCodec<K>, currentKey: Option<K>, d: Descriptor)
    ensures var error := PrefixError(codec, currentKey, d);
      && (error == Some(NoCurrentKey) <==> currentKey.None?)
      && (error == Some(ComponentTooLong) <==>
            currentKey.Some? && (Large(d.name) || Large(codec.encode(currentKey.value))))
      && (error.None? || error == Some(NoCurrentKey) || error == Some(ComponentTooLong))
  {
  }

  /**
    Timestamps are 64 bits. A registration reports a negative one before a missing key and a
    missing key before a large one; a deletion reports a missing key first and any other
    timestamp as out of range.
   */
  lemma TimerErrorsAre<K>(currentKey: Option<K>, timestamp: int)
    ensures var error := RegistrationError(currentKey, timestamp);
      && (error == Some(NegativeTimestamp) <==> timestamp < 0)
      && (error == Some(NoCurrentKey) <==> timestamp >= 0 && currentKey.None?)
      && (error == Some(TimestampOverflow) <==> currentKey.Some? && timestamp > 18446744073709551615)
      && (error.None? <==> currentKey.Some? && 0 <= timestamp <= 18446744073709551615)
    ensures var error := DeletionError(currentKey, timestamp);
      && (error == Some(NoCurrentKey) <==> currentKey.None?)
      && (error == Some(TimestampOverflow) <==>
            currentKey.Some? && (timestamp < 0 || timestamp > 18446744073709551615))
      && (error.None? <==> currentKey.Some? && 0 <= timestamp <= 18446744073709551615)
  {
  }

  // ---- namespaces ----------------------------------------------------------

  /**
    The listing has one namespace for each value of the name and key, whatever its expiry, and each of
    them encodes to the value's own; they come in the byte order of the stored keys.
   */
  lemma NamespacesListed<K(!new)>(codec: KeyCodec<K>, c: Contents<K>, name: Field, key: Field)
    returns (slots: seq<Slot>)
    requires Lawful(codec) && (forall s :: s in c.cells ==> exists k :: codec.encode(k) == s.namespace)
    ensures var listed := Namespaces(codec, c, name, key);
      && |slots| == |listed| && NoDuplicates(slots)
      && (forall i :: 0 <= i < |listed| ==> codec.encode(listed[i]) == slots[i].namespace)
    ensures forall s :: s in slots <==> s in c.cells && s.name == name && s.key == key
    ensures forall i, j :: 0 <= i < j < |slots| ==> Less(EncodeStateKey(slots[i]), EncodeStateKey(slots[j]))
  {
    hide EncodeStateKey;
    SlotKeyInjective();
    slots := Ordered(SlotsOf(c, name, key), SlotKey);
    OrderedIsOrdering(SlotsOf(c, name, key), SlotKey);
    AscendingNoDuplicates(slots, SlotKey);
    forall i | 0 <= i < |slots| ensures codec.encode(codec.decode(slots[i].namespace)) == slots[i].namespace {
      assert slots[i] in slots;
      var k :| codec.encode(k) == slots[i].namespace;
    }
    forall i, j | 0 <= i < j < |slots| ensures Less(EncodeStateKey(slots[i]), EncodeStateKey(slots[j])) {
      assert Less(SlotKey(slots[i]), SlotKey(slots[j]));
    }
  }

  // ---- limits --------------------------------------------------------------

  /**
    A limited pop takes all that is due, or as many as the limit says, but always one
    when any is due; without a limit it takes all.
   */
  lemma PopCounts<K(!new)>(codec: KeyCodec<K>, c: Contents<K>, domain: TimerDomain, timestamp: int, limit: Option<int>)
    requires Lawful(codec)
    ensures var fired, due := |Fired(codec, c, domain, timestamp, limit)|, |Due(c, domain, timestamp)|;
      && fired <= due && (due > 0 ==> fired > 0)
      && (limit.None? ==> fired == due)
      && (limit.Some? ==> fired == due || fired == limit.value || (fired == 1 && limit.value < 1))
      && (limit.Some? ==> fired <= 1 || fired <= limit.value)
  {
    hide Ordered, Lawful;
  }

  /** A timer is due when it is pending in the domain and its time has come; an event gives what was registered. */
  lemma DueIs<K>(c: Contents<K>, domain: TimerDomain, timestamp: int, t: TimerId)
    ensures t in Due(c, domain, timestamp) <==> t in c.timers && t.domain == domain && !(timestamp < t.timestamp)
    ensures t in Due(c, domain, timestamp) ==>
      Events(c, [t]) == [TimerEvent(t.timestamp, c.timers[t].0, c.timers[t].1, domain)]
  {
  }

  /** A limited cleanup processes the earliest overdue entries: as many as the limit says, or all. */
  lemma CleanupTakesEarliest<K>(c: Contents<K>, now: int, limit: Option<int>)
    ensures var p, due := Processed(c, now, limit), Overdue(c, now);
      && p <= due
      && (limit.None? ==> p == due)
      && (limit.Some? ==> p == due || |p| == limit.value || (p == {} && limit.value < 0))
      && (limit.Some? ==> |p| <= limit.value || p == {})
      && (forall x, y :: x in p && y in due - p ==> x.0 <= y.0)
  {
    hide Ordered, IndexKey;
    ProcessedBounds(c, now, limit);
    var p, due := Processed(c, now, limit), Overdue(c, now);
    if |p| == |due| {
      SubsetOfSameSize(p, due);
    }
    assert |p| == 0 ==> p == {};
    forall x, y | x in p && y in due - p ensures x.0 <= y.0 {
      ProcessedFirst(c, now, limit, x, y);
    }
  }

  lemma ProcessedFirst<K>(c: Contents<K>, now: int, limit: Option<int>, x: IndexEntry, y: IndexEntry)
    requires x in Processed(c, now, limit) && y in Overdue(c, now) - Processed(c, now, limit)
    ensures x.0 <= y.0
  {
    hide Ordered, IndexKey, Overdue, CleanupBound;
    IndexKeyInjective();
    var order := Ordered(Overdue(c, now), IndexKey);
    OrderedIsOrdering(Overdue(c, now), IndexKey);
    var n := CleanupBound(limit, |order|);
    assert x in order[..n] && y in order && y !in order[..n];
    var i :| 0 <= i < n && order[..n][i] == x;
    var j := Behind(order, n, y);
    EarlierEntry(order[i], order[j]);
  }

  lemma Behind<T>(s: seq<T>, n: nat, y: T) returns (j: nat)
    requires n <= |s| && y in s && y !in s[..n]
    ensures n <= j < |s| && s[j] == y
  {
    assert s == s[..n] + s[n..];
    var k :| 0 <= k < |s[n..]| && s[n..][k] == y;
    j := n + k;
  }

  lemma EarlierEntry(x: IndexEntry, y: IndexEntry)
    requires Less(IndexKey(x), IndexKey(y))
    ensures x.0 <= y.0
  {
    ExpiryKeyOrder(x.0, EncodeStateKey(x.1), y.0, EncodeStateKey(y.1));
  }

  // ---- reads after a write, in the times alone -----------------------------

  /** A read: the clock when it looks at the value, and the second reading when it renews it. */
  type Reading = (Millis, Millis)

  /** From when a value written at `written` counts, before the read `i`. */
  function Since(cfg: TtlConfig, written: int, readings: seq<Reading>, i: nat): int
    requires i <= |readings|
  {
    if i == 0 || !cfg.refreshOnRead then written else readings[i - 1].1
  }

  /** Each of the first `n` reads came before the time-to-live since the write, or the last renewal, was over. */
  predicate InTime(cfg: TtlConfig, written: int, readings: seq<Reading>, n: nat)
    requires n <= |readings|
  {
    forall i :: 0 <= i < n ==> readings[i].0 < Since(cfg, written, readings, i) + cfg.ttl
  }

  function AfterReads<K>(c: Contents<K>, exact: bool, slot: Slot, ttl: Option<TtlConfig>, readings: seq<Reading>)
    : Contents<K>
  {
    if readings == [] then c
    else
      var last := readings[|readings| - 1];
      AfterGet(AfterReads(c, exact, slot, ttl, readings[..|readings| - 1]), exact, slot, ttl, last.0, last.1)
  }

  /** What the writes of a value do not touch. */
  ghost predicate Elsewhere<K>(c: Contents<K>, d: Contents<K>, slot: Slot) {
    && d.timers == c.timers
    && (forall s :: s != slot ==> (s in d.cells <==> s in c.cells) && (s in c.cells ==> d.cells[s] == c.cells[s]))
    && (forall x: IndexEntry :: x.1 != slot ==> (x in d.index <==> x in c.index))
  }

  lemma OneReadElsewhere<K>(
      c: Contents<K>, exact: bool, slot: Slot, ttl: Option<TtlConfig>, now: Millis, renewal: Millis)
    ensures Elsewhere(c, AfterGet(c, exact, slot, ttl, now, renewal), slot)
  {
  }

  /** The value after a write and some reads of it, while they are all in time. */
  function Kept(ttl: Option<TtlConfig>, payload: Blob, written: Millis, readings: seq<Reading>): Cell {
    if ttl.None? then Cell(None, payload)
    else
      var since := Since(ttl.value, written, readings, |readings|);
      Cell(Some(since + ttl.value.ttl), payload)
  }

  predicate StillThere(ttl: Option<TtlConfig>, written: int, readings: seq<Reading>, n: nat)
    requires n <= |readings|
  {
    ttl.Some? && !ttl.value.returnExpired ==> InTime(ttl.value, written, readings, n)
  }

  lemma {:induction false} CellAfterReads<K>(
      c: Contents<K>, exact: bool, slot: Slot, ttl: Option<TtlConfig>, payload: Blob, written: Millis,
      readings: seq<Reading>)
    ensures var after := AfterReads(Put(c, slot, payload, ExpiryFor(ttl, written)), exact, slot, ttl, readings);
      && (slot in after.cells <==> StillThere(ttl, written, readings, |readings|))
      && (slot in after.cells ==> after.cells[slot] == Kept(ttl, payload, written, readings))
      && Elsewhere(c, after, slot)
  {
    hide Elsewhere;
    var start := Put(c, slot, payload, ExpiryFor(ttl, written));
    PutElsewhere(c, slot, payload, ExpiryFor(ttl, written));
    if readings != [] {
      var n := |readings| - 1;
      CellAfterReads(c, exact, slot, ttl, payload, written, readings[..n]);
      var before := AfterReads(start, exact, slot, ttl, readings[..n]);
      OneReadElsewhere(before, exact, slot, ttl, readings[n].0, readings[n].1);
      ElsewhereTwice(c, before, AfterReads(start, exact, slot, ttl, readings), slot);
      if ttl.Some? {
        EarlierReads(ttl.value, written, readings);
      }
    }
  }

  lemma PutElsewhere<K>(c: Contents<K>, slot: Slot, payload: Blob, expires: Option<Instant>)
    ensures Elsewhere(c, Put(c, slot, payload, expires), slot)
  {
  }

  lemma ElsewhereTwice<K>(a: Contents<K>, b: Contents<K>, c: Contents<K>, slot: Slot)
    requires Elsewhere(a, b, slot) && Elsewhere(b, c, slot)
    ensures Elsewhere(a, c, slot)
  {
  }

  lemma EarlierReads(cfg: TtlConfig, written: int, readings: seq<Reading>)
    requires readings != []
    ensures var n := |readings| - 1; var init := readings[..n];
      && (InTime(cfg, written, readings, |readings|) <==>
            InTime(cfg, written, init, n) && readings[n].0 < Since(cfg, written, init, n) + cfg.ttl)
      && Since(cfg, written, readings, n) == Since(cfg, written, init, n)
  {
    var n := |readings| - 1;
    var init := readings[..n];
    forall i | 0 <= i <= n ensures Since(cfg, written, readings, i) == Since(cfg, written, init, i) {
    }
  }

  /**
    After a write, the last of any number of reads returns the payload exactly when
    every read so far came within the time-to-live of the write, or with renewal on
    reading, of the read before it. Without a time-to-live, or with expired values
    visible, every read returns it. Other values and the timers do not change.
   */
  lemma ReadAfterReadsIff<K>(
      c: Contents<K>, exact: bool, slot: Slot, ttl: Option<TtlConfig>, payload: Blob, written: Millis,
      readings: seq<Reading>)
    requires readings != []
    ensures var n := |readings| - 1;
      var start := Put(c, slot, payload, ExpiryFor(ttl, written));
      var before := AfterReads(start, exact, slot, ttl, readings[..n]);
      && Visible(before, slot, ttl, readings[n].0)
         == (if ttl.None? || ttl.value.returnExpired || InTime(ttl.value, written, readings, |readings|)
             then Some(payload) else None)
      && Elsewhere(c, AfterReads(start, exact, slot, ttl, readings), slot)
  {
    hide Elsewhere;
    var n := |readings| - 1;
    CellAfterReads(c, exact, slot, ttl, payload, written, readings[..n]);
    CellAfterReads(c, exact, slot, ttl, payload, written, readings);
    if ttl.Some? {
      EarlierReads(ttl.value, written, readings);
    }
  }

  /** What the reads of a value that was written at `written` return, in the times alone. */
  function ReadResults(ttl: Option<TtlConfig>, payload: Blob, written: Millis, readings: seq<Reading>)
    : (results: seq<Result<Option<Blob>, BackendError>>)
    ensures |results| == |readings|
  {
    seq(|readings|, i requires 0 <= i < |readings| =>
      Ok(if ttl.None? || ttl.value.returnExpired || InTime(ttl.value, written, readings, i + 1)
         then Some(payload) else None))
  }

  lemma ResultsStep(ttl: Option<TtlConfig>, payload: Blob, written: Millis, readings: seq<Reading>, n: nat)
    requires n < |readings|
    ensures ReadResults(ttl, payload, written, readings[..n + 1])
         == ReadResults(ttl, payload, written, readings[..n])
            + [Ok(if ttl.None? || ttl.value.returnExpired || InTime(ttl.value, written, readings[..n + 1], n + 1)
                  then Some(payload) else None)]
  {
    forall i | 0 <= i < n
      ensures ReadResults(ttl, payload, written, readings[..n + 1])[i]
           == ReadResults(ttl, payload, written, readings[..n])[i]
    {
      if ttl.Some? {
        SamePrefix(ttl.value, written, readings, n, i + 1);
      }
    }
  }

  lemma SamePrefix(cfg: TtlConfig, written: int, readings: seq<Reading>, n: nat, k: nat)
    requires k <= n < |readings|
    ensures InTime(cfg, written, readings[..n + 1], k) <==> InTime(cfg, written, readings[..n], k)
  {
    forall i | 0 <= i < k ensures Since(cfg, written, readings[..n + 1], i) == Since(cfg, written, readings[..n], i) {
    }
  }

  /** The memory backend: write once, read any number of times. */
  method ReadRepeatedlyFromMemory<K(!new)>(
      b: MemoryStateBackend<K>, d: Descriptor, namespace: K, payload: Blob, written: Millis, readings: seq<Reading>)
    returns (results: seq<Result<Option<Blob>, BackendError>>)
    requires b.Valid() && b.SlotProblem(d, namespace).None?
    modifies b
    ensures b.Valid() && results == ReadResults(d.ttl, payload, written, readings)
    ensures b.currentKey == old(b.currentKey)
    ensures Elsewhere(old(b.model), b.model, old(b.SlotFor(d, namespace)))
  {
    hide Lawful, AfterGet, Visible, Put, ReadResults, InTime, SlotError, Elsewhere;
    ghost var c, slot := b.model, b.SlotFor(d, namespace);
    ghost var start := Put(c, slot, payload, ExpiryFor(d.ttl, written));
    var error := b.Put(d, payload, namespace, written);
    results := [];
    NoResults(d.ttl, payload, written);
    PutElsewhere(c, slot, payload, ExpiryFor(d.ttl, written));
    for n := 0 to |readings|
      invariant b.Valid() && b.currentKey == old(b.currentKey)
      invariant b.model == AfterReads(start, false, slot, d.ttl, readings[..n])
      invariant results == ReadResults(d.ttl, payload, written, readings[..n])
      invariant Elsewhere(c, b.model, slot)
    {
      assert readings[..n + 1][..n] == readings[..n];
      ReadAfterReadsIff(c, false, slot, d.ttl, payload, written, readings[..n + 1]);
      ResultsStep(d.ttl, payload, written, readings, n);
      var r := b.Get(d, namespace, readings[n].0, readings[n].1);
      results := results + [r];
    }
    assert readings[..|readings|] == readings;
  }

  lemma NoResults(ttl: Option<TtlConfig>, payload: Blob, written: Millis)
    ensures ReadResults(ttl, payload, written, []) == []
  {
  }

  /** RocksDB: write once, read any number of times. */
  method ReadRepeatedlyFromRocksDb<K(!new)>(
      b: RocksDbStateBackend<K>, d: Descriptor, namespace: K, payload: Blob, written: Millis, readings: seq<Reading>)
    returns (results: seq<Result<Option<Blob>, BackendError>>)
    requires b.Valid() && b.SlotProblem(d, namespace).None?
    modifies b
    ensures b.Valid() && results == ReadResults(d.ttl, payload, written, readings)
    ensures b.currentKey == old(b.currentKey)
    ensures Elsewhere(old(b.model), b.model, old(b.SlotFor(d, namespace)))
  {
    hide Lawful, AfterGet, Visible, Put, ReadResults, InTime, SlotError, Elsewhere;
    ghost var c, slot := b.model, b.SlotFor(d, namespace);
    ghost var start := Put(c, slot, payload, ExpiryFor(d.ttl, written));
    var error := b.Put(d, payload, namespace, written);
    results := [];
    NoResults(d.ttl, payload, written);
    PutElsewhere(c, slot, payload, ExpiryFor(d.ttl, written));
    for n := 0 to |readings|
      invariant b.Valid() && b.currentKey == old(b.currentKey)
      invariant b.model == AfterReads(start, true, slot, d.ttl, readings[..n])
      invariant results == ReadResults(d.ttl, payload, written, readings[..n])
      invariant Elsewhere(c, b.model, slot)
    {
      assert readings[..n + 1][..n] == readings[..n];
      ReadAfterReadsIff(c, true, slot, d.ttl, payload, written, readings[..n + 1]);
      ResultsStep(d.ttl, payload, written, readings, n);
      var r := b.Get(d, namespace, readings[n].0, readings[n].1);
      results := results + [r];
    }
    assert readings[..|readings|] == readings;
  }

  /**
    One read between a write and another read: the second returns the payload exactly
    when it comes within the time-to-live of the write, or of the first read's renewal.
   */
  lemma SecondReadIff<K>(
      c: Contents<K>, exact: bool, slot: Slot, cfg: TtlConfig, payload: Blob, written: Millis, first: Millis,
      renewal: Millis, second: Millis)
    requires !cfg.returnExpired && first < written + cfg.ttl
    ensures var start := Put(c, slot, payload, ExpiryFor(Some(cfg), written));
      Visible(AfterGet(start, exact, slot, Some(cfg), first, renewal), slot, Some(cfg), second) == Some(payload)
      <==> second < (if cfg.refreshOnRead then renewal else written) + cfg.ttl
  {
  }
}

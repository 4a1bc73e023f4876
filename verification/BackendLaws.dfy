/** Invariants of the expiry index, what cleanup removes, and the agreement of the two backends. */
module BackendLaws {
  import opened Wrappers
  import opened Bytes
  import opened StateCodec
  import opened Sorting
  import opened KeyCodec
  import opened KeyedState
  import opened StateScans

  // ---- the expiry index ----------------------------------------------------

  /** Every value that expires has its index entry; the index may hold more. */
  ghost predicate IndexCovers<K>(c: Contents<K>) {
    forall s :: s in c.cells ==> CurrentEntries(c, s) <= c.index
  }

  /** The index holds the entries of the stored values and nothing else. */
  ghost predicate IndexExact<K>(c: Contents<K>) {
    forall x :: x in c.index <==> Matches(c.cells, x)
  }

  ghost predicate IndexSound<K>(exact: bool, c: Contents<K>) {
    if exact then IndexExact(c) else IndexCovers(c)
  }

  lemma ExactCovers<K>(c: Contents<K>)
    requires IndexExact(c)
    ensures IndexCovers(c)
  {
  }

  lemma PutKeepsIndex<K>(exact: bool, c: Contents<K>, slot: Slot, payload: Blob, expires: Option<Instant>)
    requires IndexSound(exact, c)
    ensures IndexSound(exact, Put(c, slot, payload, expires))
  {
  }

  lemma DeleteKeepsIndex<K>(exact: bool, c: Contents<K>, slot: Slot)
    requires IndexSound(exact, c)
    ensures IndexSound(exact, Delete(c, slot))
  {
  }

  lemma GetKeepsIndex<K>(
      exact: bool, c: Contents<K>, slot: Slot, ttl: Option<TtlConfig>, now: Millis, renewal: Millis)
    requires IndexSound(exact, c)
    ensures IndexSound(exact, AfterGet(c, exact, slot, ttl, now, renewal))
  {
    if slot in c.cells {
      PutKeepsIndex(exact, c, slot, c.cells[slot].payload, ExpiryFor(ttl, renewal));
      DeleteKeepsIndex(exact, c, slot);
    }
  }

  lemma SweepKeepsIndex<K>(exact: bool, c: Contents<K>, gone: set<IndexEntry>)
    requires IndexSound(exact, c)
    ensures IndexSound(exact, Swept(c, gone))
  {
    var after := Swept(c, gone);
    if exact {
      forall x ensures x in after.index <==> Matches(after.cells, x) {
        if Matches(c.cells, x) {
          assert CurrentEntries(c, x.1) == {x};
        }
      }
    }
  }

  // ---- what cleanup removes ------------------------------------------------

  lemma ProcessedUnlimited<K>(c: Contents<K>, now: int)
    ensures Processed(c, now, None) == Overdue(c, now)
  {
    IndexKeyInjective();
    OrderedIsOrdering(Overdue(c, now), IndexKey);
    var order := Ordered(Overdue(c, now), IndexKey);
    assert order[..|order|] == order;
  }

  lemma ProcessedBounds<K>(c: Contents<K>, now: int, limit: Option<int>)
    ensures Processed(c, now, limit) <= Overdue(c, now)
    ensures |Processed(c, now, limit)| == CleanupBound(limit, |Overdue(c, now)|)
  {
    IndexKeyInjective();
    OrderedIsOrdering(Overdue(c, now), IndexKey);
    var order := Ordered(Overdue(c, now), IndexKey);
    AscendingNoDuplicates(order, IndexKey);
    var first := order[..CleanupBound(limit, |order|)];
    NoDuplicatesCount(first);
    forall x | x in first ensures x in order {
    }
  }

  function ExpiredSlots<K>(c: Contents<K>, now: int): set<Slot> {
    set s | s in c.cells && c.cells[s].expires.Some? && c.cells[s].expires.value <= now
  }

  function LiveOverdue<K>(c: Contents<K>, now: int): set<IndexEntry> {
    set x | x in Overdue(c, now) && Matches(c.cells, x)
  }

  /** Index entries that still describe their cells correspond one to one to the expired cells. */
  lemma {:induction false} EntriesPerSlot<K>(c: Contents<K>, slots: set<Slot>, entries: set<IndexEntry>)
    requires forall s :: s in slots ==> s in c.cells && c.cells[s].expires.Some?
    requires forall x :: x in entries <==> x.1 in slots && Matches(c.cells, x)
    ensures |entries| == |slots|
    decreases slots
  {
    if slots == {} {
      assert forall x :: x !in entries;
    } else {
      var s :| s in slots;
      var x: IndexEntry := (c.cells[s].expires.value, s);
      assert x in entries;
      EntriesPerSlot(c, slots - {s}, entries - {x});
      assert entries == (entries - {x}) + {x};
    }
  }

  /**
    With every expiring value indexed, an unlimited cleanup removes exactly the
    values that have expired, leaves the others as they are, and returns how many
    it removed.
   */
  lemma CleanupRemovesExactlyExpired<K>(c: Contents<K>, now: int)
    requires IndexCovers(c)
    ensures AfterCleanup(c, now, None).cells
         == map s | s in c.cells && s !in ExpiredSlots(c, now) :: c.cells[s]
    ensures CleanupCount(c, now, None) == |ExpiredSlots(c, now)|
    ensures forall x :: x in AfterCleanup(c, now, None).index <==> x in c.index && x.0 > now
  {
    ProcessedUnlimited(c, now);
    forall s | s in c.cells
      ensures CurrentEntries(c, s) !! Overdue(c, now) <==> s !in ExpiredSlots(c, now)
    {
      assert CurrentEntries(c, s) <= c.index;
      if s in ExpiredSlots(c, now) {
        assert (c.cells[s].expires.value, s) in CurrentEntries(c, s);
      }
    }
    forall x ensures x in LiveOverdue(c, now) <==> x.1 in ExpiredSlots(c, now) && Matches(c.cells, x) {
      if x.1 in ExpiredSlots(c, now) && Matches(c.cells, x) {
        assert x in CurrentEntries(c, x.1);
      }
    }
    EntriesPerSlot(c, ExpiredSlots(c, now), LiveOverdue(c, now));
  }

  // ---- cleanup in portions -------------------------------------------------

  lemma SweepsCompose<K>(c: Contents<K>, p: set<IndexEntry>, q: set<IndexEntry>)
    requires p !! q
    ensures Swept(Swept(c, p), q) == Swept(c, p + q)
    ensures SweptCount(c, p) + SweptCount(Swept(c, p), q) == SweptCount(c, p + q)
  {
    var after := Swept(c, p);
    forall s | s in after.cells ensures CurrentEntries(after, s) == CurrentEntries(c, s) {
    }
    var inP := set x | x in p && Matches(c.cells, x);
    var inQ := set x | x in q && Matches(after.cells, x);
    forall x | x in q ensures Matches(after.cells, x) <==> Matches(c.cells, x) {
      if Matches(c.cells, x) {
        assert CurrentEntries(c, x.1) == {x};
      }
    }
    assert (set x | x in p + q && Matches(c.cells, x)) == inP + inQ;
  }

  function CleanupRounds<K>(c: Contents<K>, now: int, limits: seq<int>): (Contents<K>, nat)
    decreases |limits|
  {
    if limits == [] then
      (c, 0)
    else
      var (after, removed) := CleanupRounds(AfterCleanup(c, now, Some(limits[0])), now, limits[1..]);
      (after, CleanupCount(c, now, Some(limits[0])) + removed)
  }

  function Sum(limits: seq<int>): int {
    if limits == [] then 0 else limits[0] + Sum(limits[1..])
  }

  /**
    Cleaning up in portions at one instant reaches the state of one unlimited
    cleanup, with the same total, once the portions add up to the overdue entries.
   */
  lemma {:induction false} RepeatedCleanupConverges<K>(c: Contents<K>, now: int, limits: seq<int>)
    requires forall i :: 0 <= i < |limits| ==> limits[i] >= 1
    requires Sum(limits) >= |Overdue(c, now)|
    ensures CleanupRounds(c, now, limits) == (AfterCleanup(c, now, None), CleanupCount(c, now, None))
    decreases |limits|
  {
    hide AfterCleanup, CleanupCount, Overdue;
    if limits == [] {
      NothingOverdue(c, now);
    } else {
      var after := AfterCleanup(c, now, Some(limits[0]));
      FirstRound(c, now, limits[0]);
      SumNonNegative(limits[1..]);
      RepeatedCleanupConverges(after, now, limits[1..]);
    }
  }

  lemma NothingOverdue<K>(c: Contents<K>, now: int)
    requires |Overdue(c, now)| <= 0
    ensures AfterCleanup(c, now, None) == c && CleanupCount(c, now, None) == 0
  {
    ProcessedUnlimited(c, now);
    assert Overdue(c, now) == {};
    SweptNone(c);
  }

  lemma {:induction false} SumNonNegative(limits: seq<int>)
    requires forall i :: 0 <= i < |limits| ==> limits[i] >= 1
    ensures Sum(limits) >= 0
  {
    if limits != [] {
      SumNonNegative(limits[1..]);
    }
  }

  /** One limited round followed by an unlimited cleanup is one unlimited cleanup. */
  lemma FirstRound<K>(c: Contents<K>, now: int, limit: int)
    requires limit >= 1
    ensures var after := AfterCleanup(c, now, Some(limit));
      && |Overdue(after, now)| == |Overdue(c, now)| - Min(|Overdue(c, now)|, limit)
      && AfterCleanup(after, now, None) == AfterCleanup(c, now, None)
      && CleanupCount(c, now, Some(limit)) + CleanupCount(after, now, None) == CleanupCount(c, now, None)
  {
    hide Processed, Swept, SweptCount;
    var due, first := Overdue(c, now), Processed(c, now, Some(limit));
    ProcessedBounds(c, now, Some(limit));
    assert due == first + (due - first);
    assert |due| == |first| + |due - first|;
    SweptOverdue(c, now, first);
    ProcessedUnlimited(c, now);
    ProcessedUnlimited(Swept(c, first), now);
    SweepsCompose(c, first, due - first);
  }

  lemma SweptOverdue<K>(c: Contents<K>, now: int, gone: set<IndexEntry>)
    ensures Overdue(Swept(c, gone), now) == Overdue(c, now) - gone
  {
  }

  // ---- limited cleanup and stale entries -----------------------------------

  function IsLive(cells: map<Slot, Cell>): IndexEntry -> bool {
    (x: IndexEntry) => Matches(cells, x)
  }

  /** The live entries among the first ones of an order are the first live ones. */
  lemma LivePrefix(m: set<IndexEntry>, r: set<IndexEntry>, cells: map<Slot, Cell>, i: nat)
    requires i <= |m| && Injective(IndexKey)
    requires forall x :: x in r <==> x in m && Matches(cells, x)
    ensures var live := set x | x in Elements(Ordered(m, IndexKey)[..i]) && Matches(cells, x);
      |live| <= |r| && live == Elements(Ordered(r, IndexKey)[..|live|])
  {
    hide Ordered;
    var order, p := Ordered(m, IndexKey), IsLive(cells);
    var taken := Filter(order[..i], p);
    OrderedFilter(m, r, p, IndexKey);
    FilterPrefix(order, p, i);
    OrderedIsOrdering(r, IndexKey);
    AscendingNoDuplicates(Ordered(r, IndexKey), IndexKey);
    var live := set x | x in Elements(order[..i]) && Matches(cells, x);
    forall x ensures x in live <==> x in taken {
      FilterMembers(order[..i], p, x);
    }
    assert Elements(taken) == live;
    NoDuplicatesCount(taken);
  }

  /** The live entries that a limited cleanup of the memory backend processes. */
  function LiveProcessed<K>(c: Contents<K>, now: int, limit: Option<int>): set<IndexEntry> {
    set x | x in Processed(c, now, limit) && Matches(c.cells, x)
  }

  /**
    A limited cleanup of the memory backend spends part of its limit on stale
    entries. It returns what RocksDB returns, and leaves the same values, exactly
    when no live overdue entry waits behind a stale one: when it processed all of
    them, or nothing but them.
   */
  lemma LimitedCleanupAgreesIff<K>(m: Contents<K>, r: Contents<K>, now: int, limit: int)
    requires m.cells == r.cells && IndexCovers(m) && IndexExact(r)
    ensures var processed := Processed(m, now, Some(limit));
      CleanupCount(m, now, Some(limit)) == CleanupCount(r, now, Some(limit))
      <==> LiveOverdue(m, now) <= processed || processed <= LiveOverdue(m, now)
    ensures CleanupCount(m, now, Some(limit)) == CleanupCount(r, now, Some(limit)) ==>
      AfterCleanup(m, now, Some(limit)).cells == AfterCleanup(r, now, Some(limit)).cells
  {
    hide Processed, Swept, Ordered, Elements;
    var p, live := Processed(m, now, Some(limit)), LiveOverdue(m, now);
    var both := LiveProcessed(m, now, Some(limit));
    LiveMeetsExact(m, r, now, Some(limit));
    ProcessedBounds(m, now, Some(limit));
    ProcessedBounds(r, now, Some(limit));
    assert both <= p && both <= live;
    if live <= p {
      assert both == live;
    }
    if p <= live {
      assert both == p;
    }
    SubsetCounts(both, p);
    SubsetCounts(both, live);
    SubsetCounts(live, Overdue(m, now));
  }

  lemma SubsetCounts<T>(a: set<T>, b: set<T>)
    requires a <= b
    ensures |a| <= |b|
    ensures |a| == |b| ==> a == b
  {
    assert b == a + (b - a);
    assert |b| == |a| + |b - a|;
  }

  lemma LiveMeetsExact<K>(m: Contents<K>, r: Contents<K>, now: int, limit: Option<int>)
    requires m.cells == r.cells && IndexCovers(m) && IndexExact(r)
    ensures Overdue(r, now) == LiveOverdue(m, now)
    ensures CleanupCount(m, now, limit) == |LiveProcessed(m, now, limit)|
    ensures CleanupCount(r, now, limit) == |Processed(r, now, limit)|
    ensures |LiveProcessed(m, now, limit)| == |Processed(r, now, limit)| ==>
      AfterCleanup(m, now, limit).cells == AfterCleanup(r, now, limit).cells
  {
    hide Swept, Ordered, IndexKey;
    IndexKeyInjective();
    MatchesCurrent(m);
    var due := |Overdue(m, now)|;
    LivePrefix(Overdue(m, now), Overdue(r, now), m.cells, CleanupBound(limit, due));
    ProcessedBounds(r, now, limit);
    assert Processed(r, now, limit) == set x | x in Processed(r, now, limit) && Matches(r.cells, x);
    if |LiveProcessed(m, now, limit)| == |Processed(r, now, limit)| {
      assert LiveProcessed(m, now, limit) == Processed(r, now, limit);
      SweptByLive(m, r, Processed(m, now, limit), Processed(r, now, limit));
    }
  }

  lemma MatchesCurrent<K>(c: Contents<K>)
    ensures forall x :: Matches(c.cells, x) ==> x in CurrentEntries(c, x.1)
  {
  }

  lemma SweptByLive<K>(m: Contents<K>, r: Contents<K>, p: set<IndexEntry>, q: set<IndexEntry>)
    requires m.cells == r.cells
    requires forall x :: x in q <==> x in p && Matches(m.cells, x)
    ensures Swept(m, p).cells == Swept(r, q).cells
  {
    forall s | s in m.cells ensures CurrentEntries(m, s) !! p <==> CurrentEntries(r, s) !! q {
      assert forall x :: x in CurrentEntries(m, s) ==> Matches(m.cells, x);
    }
  }

  // ---- runs ----------------------------------------------------------------

  datatype Operation<K> =
    | SelectKey(key: K)
    | Read(descriptor: Descriptor, namespace: K, now: Millis, renewal: Millis)
    | Write(descriptor: Descriptor, payload: Blob, namespace: K, now: Millis)
    | Remove(descriptor: Descriptor, namespace: K)
    | ListNamespaces(descriptor: Descriptor)
    | AddTimer(timestamp: int, namespace: K, domain: TimerDomain)
    | DropTimer(timestamp: int, namespace: K, domain: TimerDomain)
    | PopTimers(timestamp: int, domain: TimerDomain, limit: Option<int>)
    | Cleanup(cutoff: int, limit: Option<int>)

  datatype Response<K> =
    | Done
    | Failed(error: BackendError)
    | Value(value: Option<Blob>)
    | Listed(namespaces: seq<K>)
    | Popped(events: seq<TimerEvent<K>>)
    | Removed(count: nat)

  datatype Store<K> = Store(currentKey: Option<K>, contents: Contents<K>)

  /** One call on a backend; `exact` tells RocksDB from the memory backend. */
  function Step<K(!new)>(codec: KeyCodec<K>, exact: bool, s: Store<K>, op: Operation<K>): (Store<K>, Response<K>)
    requires Lawful(codec)
  {
    var c := s.contents;
    match op
    case SelectKey(key) => (s.(currentKey := Some(key)), Done)
    case PopTimers(timestamp, domain, limit) =>
      var fired := Fired(codec, c, domain, timestamp, limit);
      (s.(contents := WithoutTimers(c, fired)), Popped(Events(c, fired)))
    case Cleanup(now, limit) =>
      (s.(contents := AfterCleanup(c, now, limit)), Removed(CleanupCount(c, now, limit)))
    case AddTimer(timestamp, namespace, domain) =>
      var error := RegistrationError(s.currentKey, timestamp);
      if error.Some? then
        (s, Failed(error.value))
      else
        (s.(contents := Register(codec, c, domain, timestamp, s.currentKey.value, namespace)), Done)
    case DropTimer(timestamp, namespace, domain) =>
      var error := DeletionError(s.currentKey, timestamp);
      if error.Some? then
        (s, Failed(error.value))
      else
        (s.(contents := Unregister(codec, c, domain, timestamp, s.currentKey.value, namespace)), Done)
    case ListNamespaces(d) =>
      var error := PrefixError(codec, s.currentKey, d);
      if error.Some? then
        (s, Failed(error.value))
      else
        (s, Listed(Namespaces(codec, c, d.name, codec.encode(s.currentKey.value))))
    case _ =>
      var error := SlotError(codec, s.currentKey, op.descriptor, op.namespace);
      if error.Some? then
        (s, Failed(error.value))
      else
        SlotStep(exact, s, SlotOf(codec, op.descriptor, s.currentKey.value, op.namespace), op)
  }

  predicate OnSlot<K>(op: Operation<K>) {
    op.Read? || op.Write? || op.Remove?
  }

  function SlotStep<K>(exact: bool, s: Store<K>, slot: Slot, op: Operation<K>): (Store<K>, Response<K>)
    requires OnSlot(op)
  {
    var c := s.contents;
    match op
    case Read(d, _, now, renewal) =>
      (s.(contents := AfterGet(c, exact, slot, d.ttl, now, renewal)), Value(Visible(c, slot, d.ttl, now)))
    case Write(d, payload, _, now) => (s.(contents := Put(c, slot, payload, ExpiryFor(d.ttl, now))), Done)
    case Remove(_, _) => (s.(contents := Delete(c, slot)), Done)
  }

  function Run<K(!new)>(codec: KeyCodec<K>, exact: bool, s: Store<K>, ops: seq<Operation<K>>)
    : (Store<K>, seq<Response<K>>)
    requires Lawful(codec)
    decreases |ops|
  {
    if ops == [] then
      (s, [])
    else
      var (next, response) := Step(codec, exact, s, ops[0]);
      var (last, responses) := Run(codec, exact, next, ops[1..]);
      (last, [response] + responses)
  }

  lemma StepKeepsIndex<K(!new)>(codec: KeyCodec<K>, exact: bool, s: Store<K>, op: Operation<K>)
    requires Lawful(codec) && IndexSound(exact, s.contents)
    ensures IndexSound(exact, Step(codec, exact, s, op).0.contents)
  {
    hide IndexSound;
    match op
    case Cleanup(now, limit) => SweepKeepsIndex(exact, s.contents, Processed(s.contents, now, limit));
    case PopTimers(timestamp, domain, limit) =>
      TimersKeepIndex(exact, s.contents, WithoutTimers(s.contents, Fired(codec, s.contents, domain, timestamp, limit)));
    case AddTimer(timestamp, namespace, domain) =>
      TimersKeepIndex(exact, s.contents, Step(codec, exact, s, op).0.contents);
    case DropTimer(timestamp, namespace, domain) =>
      TimersKeepIndex(exact, s.contents, Step(codec, exact, s, op).0.contents);
    case Read(d, namespace, _, _) => SlotStepKeepsIndex(codec, exact, s, op);
    case Write(d, _, namespace, _) => SlotStepKeepsIndex(codec, exact, s, op);
    case Remove(d, namespace) => SlotStepKeepsIndex(codec, exact, s, op);
    case _ =>
  }

  lemma TimersKeepIndex<K>(exact: bool, c: Contents<K>, after: Contents<K>)
    requires IndexSound(exact, c) && after.cells == c.cells && after.index == c.index
    ensures IndexSound(exact, after)
  {
  }

  lemma SlotStepKeepsIndex<K(!new)>(codec: KeyCodec<K>, exact: bool, s: Store<K>, op: Operation<K>)
    requires Lawful(codec) && IndexSound(exact, s.contents) && OnSlot(op)
    ensures IndexSound(exact, Step(codec, exact, s, op).0.contents)
  {
    hide IndexSound;
    if SlotError(codec, s.currentKey, op.descriptor, op.namespace).None? {
      var slot := SlotOf(codec, op.descriptor, s.currentKey.value, op.namespace);
      match op
      case Read(d, _, now, renewal) => GetKeepsIndex(exact, s.contents, slot, d.ttl, now, renewal);
      case Write(d, payload, _, now) => PutKeepsIndex(exact, s.contents, slot, payload, ExpiryFor(d.ttl, now));
      case Remove(_, _) => DeleteKeepsIndex(exact, s.contents, slot);
    }
  }

  /** In every reachable state the index covers the expiring values; RocksDB's is exact. */
  lemma {:induction false} IndexInvariant<K(!new)>(codec: KeyCodec<K>, exact: bool, s: Store<K>, ops: seq<Operation<K>>)
    requires Lawful(codec) && IndexSound(exact, s.contents)
    ensures IndexSound(exact, Run(codec, exact, s, ops).0.contents)
    decreases |ops|
  {
    if ops != [] {
      StepKeepsIndex(codec, exact, s, ops[0]);
      IndexInvariant(codec, exact, Step(codec, exact, s, ops[0]).0, ops[1..]);
    }
  }

  // ---- the two backends agree ----------------------------------------------

  /** Same key, same values and same timers; the indexes may differ by stale entries. */
  ghost predicate Related<K>(memory: Store<K>, rocks: Store<K>) {
    && memory.currentKey == rocks.currentKey
    && memory.contents.cells == rocks.contents.cells
    && memory.contents.timers == rocks.contents.timers
    && IndexCovers(memory.contents) && IndexExact(rocks.contents)
  }

  lemma CleanupAgrees<K>(m: Contents<K>, r: Contents<K>, now: int)
    requires m.cells == r.cells && IndexCovers(m) && IndexCovers(r)
    ensures AfterCleanup(m, now, None).cells == AfterCleanup(r, now, None).cells
    ensures AfterCleanup(m, now, None).timers == m.timers && AfterCleanup(r, now, None).timers == r.timers
    ensures CleanupCount(m, now, None) == CleanupCount(r, now, None)
  {
    CleanupRemovesExactlyExpired(m, now);
    CleanupRemovesExactlyExpired(r, now);
    assert ExpiredSlots(m, now) == ExpiredSlots(r, now);
  }

  lemma TimersAgree<K(!new)>(
      codec: KeyCodec<K>, m: Contents<K>, r: Contents<K>, domain: TimerDomain, timestamp: int, limit: Option<int>)
    requires Lawful(codec) && m.timers == r.timers
    ensures Fired(codec, m, domain, timestamp, limit) == Fired(codec, r, domain, timestamp, limit)
  {
    assert Due(m, domain, timestamp) == Due(r, domain, timestamp);
  }

  lemma NamespacesAgree<K(!new)>(codec: KeyCodec<K>, m: Contents<K>, r: Contents<K>, name: Field, key: Field)
    requires m.cells == r.cells
    ensures Namespaces(codec, m, name, key) == Namespaces(codec, r, name, key)
  {
    assert SlotsOf(m, name, key) == SlotsOf(r, name, key);
  }

  lemma StepsAgree<K(!new)>(codec: KeyCodec<K>, m: Store<K>, r: Store<K>, op: Operation<K>)
    requires Lawful(codec) && Related(m, r)
    requires op.Cleanup? ==> op.limit == None
    ensures Step(codec, false, m, op).1 == Step(codec, true, r, op).1
    ensures Related(Step(codec, false, m, op).0, Step(codec, true, r, op).0)
  {
    StepKeepsIndex(codec, false, m, op);
    StepKeepsIndex(codec, true, r, op);
    ResponsesAgree(codec, m, r, op);
  }

  lemma ResponsesAgree<K(!new)>(codec: KeyCodec<K>, m: Store<K>, r: Store<K>, op: Operation<K>)
    requires Lawful(codec) && Related(m, r)
    requires op.Cleanup? ==> op.limit == None
    ensures var ((m', a), (r', b)) := (Step(codec, false, m, op), Step(codec, true, r, op));
      && a == b && m'.currentKey == r'.currentKey
      && m'.contents.cells == r'.contents.cells && m'.contents.timers == r'.contents.timers
  {
    hide IndexCovers, IndexExact, AfterCleanup, CleanupCount, Fired, Namespaces, Lawful;
    match op
    case Cleanup(now, _) =>
      ExactCovers(r.contents);
      CleanupAgrees(m.contents, r.contents, now);
    case PopTimers(timestamp, domain, limit) =>
      TimersAgree(codec, m.contents, r.contents, domain, timestamp, limit);
    case ListNamespaces(d) =>
      if PrefixError(codec, m.currentKey, d).None? {
        NamespacesAgree(codec, m.contents, r.contents, d.name, codec.encode(m.currentKey.value));
      }
    case _ =>
  }

  /**
    For any sequence of calls whose cleanups are unlimited, both backends give the
    same responses and keep the same values and timers.
   */
  lemma {:induction false} BackendsSimulate<K(!new)>(
      codec: KeyCodec<K>, m: Store<K>, r: Store<K>, ops: seq<Operation<K>>)
    requires Lawful(codec) && Related(m, r)
    requires forall op :: op in ops && op.Cleanup? ==> op.limit == None
    ensures Run(codec, false, m, ops).1 == Run(codec, true, r, ops).1
    ensures Related(Run(codec, false, m, ops).0, Run(codec, true, r, ops).0)
    decreases |ops|
  {
    if ops != [] {
      assert ops[0] in ops;
      StepsAgree(codec, m, r, ops[0]);
      BackendsSimulate(codec, Step(codec, false, m, ops[0]).0, Step(codec, true, r, ops[0]).0, ops[1..]);
    }
  }
}

/** Event-time and processing-time timers: `timer_service.py`, and their conservation over every run. */
module Timers {
  import opened Wrappers
  import opened Bytes
  import opened StateCodec
  import opened Sorting
  import opened KeyCodec
  import opened KeyedState
  import opened MemoryBackend
  import opened BackendLaws

  datatype WatermarkError = WatermarkTooLow

  class TimerService<K(!new)> {
    const backend: MemoryStateBackend<K>
    var watermark: int

    constructor (backend: MemoryStateBackend<K>)
      ensures this.backend == backend && watermark == -1
    {
      this.backend := backend;
      watermark := -1;
    }

    /** Fires nothing unless the watermark really advances. */
    method AdvanceWatermark(timestamp: int) returns (events: seq<TimerEvent<K>>)
      requires backend.Valid()
      modifies this, backend
      ensures backend.Valid() && backend.currentKey == old(backend.currentKey)
      ensures watermark == if timestamp <= old(watermark) then old(watermark) else timestamp
      ensures (backend.model, events) == Advanced(backend.codec, old(backend.model), old(watermark), timestamp)
    {
      if timestamp <= watermark {
        return [];
      }
      watermark := timestamp;
      events := backend.PopDueTimers(timestamp, EventTime, None);
    }

    method RestoreWatermark(timestamp: int) returns (error: Option<WatermarkError>)
      modifies this
      ensures error.Some? <==> timestamp < -1
      ensures watermark == if timestamp < -1 then old(watermark) else timestamp
    {
      if timestamp < -1 {
        return Some(WatermarkTooLow);
      }
      watermark := timestamp;
      return None;
    }

    method RegisterEventTimeTimer(timestamp: int, namespace: K) returns (error: Option<BackendError>)
      requires backend.Valid()
      modifies backend
      ensures backend.Valid() && error == RegistrationError(old(backend.currentKey), timestamp)
      ensures backend.model == if error.Some? then old(backend.model) else
        Register(backend.codec, old(backend.model), EventTime, timestamp, old(backend.currentKey).value, namespace)
    {
      error := backend.RegisterTimer(timestamp, namespace, EventTime);
    }

    method DeleteEventTimeTimer(timestamp: int, namespace: K) returns (error: Option<BackendError>)
      requires backend.Valid()
      modifies backend
      ensures backend.Valid() && error == DeletionError(old(backend.currentKey), timestamp)
      ensures backend.model == if error.Some? then old(backend.model) else
        Unregister(backend.codec, old(backend.model), EventTime, timestamp, old(backend.currentKey).value, namespace)
    {
      error := backend.DeleteTimer(timestamp, namespace, EventTime);
    }

    method RegisterProcessingTimeTimer(timestamp: int, namespace: K) returns (error: Option<BackendError>)
      requires backend.Valid()
      modifies backend
      ensures backend.Valid() && error == RegistrationError(old(backend.currentKey), timestamp)
      ensures backend.model == if error.Some? then old(backend.model) else
        Register(backend.codec, old(backend.model), ProcessingTime, timestamp, old(backend.currentKey).value, namespace)
    {
      error := backend.RegisterTimer(timestamp, namespace, ProcessingTime);
    }

    method DeleteProcessingTimeTimer(timestamp: int, namespace: K) returns (error: Option<BackendError>)
      requires backend.Valid()
      modifies backend
      ensures backend.Valid() && error == DeletionError(old(backend.currentKey), timestamp)
      ensures backend.model == if error.Some? then old(backend.model) else
        Unregister(
          backend.codec, old(backend.model), ProcessingTime, timestamp, old(backend.currentKey).value, namespace)
    {
      error := backend.DeleteTimer(timestamp, namespace, ProcessingTime);
    }

    method PopDueProcessingTimeTimers(timestamp: int) returns (events: seq<TimerEvent<K>>)
      requires backend.Valid()
      modifies backend
      ensures backend.Valid()
      ensures var fired := Fired(backend.codec, old(backend.model), ProcessingTime, timestamp, None);
        events == Events(old(backend.model), fired) && backend.model == WithoutTimers(old(backend.model), fired)
    {
      events := backend.PopDueTimers(timestamp, ProcessingTime, None);
    }
  }

  function Advanced<K(!new)>(codec: KeyCodec<K>, c: Contents<K>, watermark: int, timestamp: int)
    : (Contents<K>, seq<TimerEvent<K>>)
    requires Lawful(codec)
  {
    if timestamp <= watermark then
      (c, [])
    else
      var fired := Fired(codec, c, EventTime, timestamp, None);
      (WithoutTimers(c, fired), Events(c, fired))
  }

  // ---- one pop -------------------------------------------------------------

  /** A pop takes distinct due timers, earliest first; whatever it leaves is no earlier than what it took. */
  lemma PopTakesEarliest<K(!new)>(
      codec: KeyCodec<K>, c: Contents<K>, domain: TimerDomain, timestamp: int, limit: Option<int>)
    requires Lawful(codec)
    ensures var fired, due := Fired(codec, c, domain, timestamp, limit), Due(c, domain, timestamp);
      && NoDuplicates(fired) && |fired| == FiredCount(|due|, limit)
      && (forall t :: t in fired ==> t in due)
      && InTimestampOrder(fired)
      && (forall t :: t in due && t !in fired ==> NotBefore(t, fired))
  {
    hide Ordered, Lawful;
    TimerKeyInjective(codec);
    var due := Due(c, domain, timestamp);
    var order := Ordered(due, TimerKey(codec));
    OrderedIsOrdering(due, TimerKey(codec));
    AscendingNoDuplicates(order, TimerKey(codec));
    OrderedByTimestamp(codec, order, domain);
    TakeFirst(order, FiredCount(|order|, limit));
  }

  /** `t` is due no earlier than any of the timers in `fired`. */
  ghost predicate NotBefore(t: TimerId, fired: seq<TimerId>) {
    forall i :: 0 <= i < |fired| ==> fired[i].timestamp <= t.timestamp
  }

  ghost predicate InTimestampOrder(fired: seq<TimerId>) {
    forall i, j :: 0 <= i < j < |fired| ==> fired[i].timestamp <= fired[j].timestamp
  }

  lemma TakeFirst(order: seq<TimerId>, n: nat)
    requires n <= |order| && InTimestampOrder(order) && NoDuplicates(order)
    ensures InTimestampOrder(order[..n]) && NoDuplicates(order[..n])
    ensures forall t :: t in order[..n] ==> t in order
    ensures forall t :: t in order && t !in order[..n] ==> NotBefore(t, order[..n])
  {
    forall t | t in order && t !in order[..n] ensures NotBefore(t, order[..n]) {
      forall i | 0 <= i < n ensures order[i] != t { assert order[..n][i] == order[i]; }
      var j :| 0 <= j < |order| && order[j] == t;
      assert j >= n;
    }
  }

  lemma OrderedByTimestamp<K>(codec: KeyCodec<K>, order: seq<TimerId>, domain: TimerDomain)
    requires Ascending(order, TimerKey(codec)) && forall t :: t in order ==> t.domain == domain
    ensures InTimestampOrder(order)
  {
    forall i, j | 0 <= i < j < |order| ensures order[i].timestamp <= order[j].timestamp {
      assert order[i] in order && order[j] in order;
      EarlierTimer(codec, order[i], order[j]);
    }
  }

  lemma EarlierTimer<K>(codec: KeyCodec<K>, t: TimerId, u: TimerId)
    requires t.domain == u.domain && Less(TimerKey(codec)(t), TimerKey(codec)(u))
    ensures t.timestamp <= u.timestamp
  {
    TimerKeyOrder(
      t.domain, t.timestamp, codec.digest(t.key, t.namespace), u.timestamp, codec.digest(u.key, u.namespace));
  }

  lemma UnlimitedPopTakesAll<K(!new)>(codec: KeyCodec<K>, c: Contents<K>, domain: TimerDomain, timestamp: int)
    requires Lawful(codec)
    ensures Elements(Fired(codec, c, domain, timestamp, None)) == Due(c, domain, timestamp)
  {
    PopTakesEarliest(codec, c, domain, timestamp, None);
    var fired := Fired(codec, c, domain, timestamp, None);
    NoDuplicatesCount(fired);
    SubsetOfSameSize(Elements(fired), Due(c, domain, timestamp));
  }

  // ---- watermarks ----------------------------------------------------------

  /**
    Advancing to `w` leaves the processing-time timers alone, fires in timestamp
    order, and removes exactly the event-time timers it fires.
   */
  lemma AdvanceFiresDue<K(!new)>(codec: KeyCodec<K>, c: Contents<K>, watermark: int, w: int)
    requires Lawful(codec) && w > watermark
    ensures var (after, events) := Advanced(codec, c, watermark, w);
      && (forall t :: t in after.timers <==> t in c.timers && (t.domain == ProcessingTime || t.timestamp > w))
      && (forall t :: t in after.timers ==> after.timers[t] == c.timers[t])
      && |events| == |Due(c, EventTime, w)|
      && (forall i, j :: 0 <= i < j < |events| ==> events[i].timestamp <= events[j].timestamp)
  {
    hide Fired, Lawful;
    PopTakesEarliest(codec, c, EventTime, w, None);
    UnlimitedPopTakesAll(codec, c, EventTime, w);
    var fired := Fired(codec, c, EventTime, w, None);
    assert forall t :: t in fired <==> t in Elements(fired);
  }

  /**
    A watermark that does not advance fires nothing, so timers registered at or
    below it stay: after `advance_watermark(w)` no event-time timer at or below
    `w` remains exactly when `w` was ahead of the watermark, or none was there.
   */
  lemma NoneDueRemainsIff<K(!new)>(codec: KeyCodec<K>, c: Contents<K>, watermark: int, w: int)
    requires Lawful(codec)
    ensures Due(Advanced(codec, c, watermark, w).0, EventTime, w) == {}
       <==> w > watermark || Due(c, EventTime, w) == {}
  {
    if w > watermark {
      AdvanceFiresDue(codec, c, watermark, w);
    }
  }

  /**
    Advance to `w`, register a timer for `w`, advance to `w` again: the second advance
    fires nothing, and the timer stays although the watermark has reached it.
   */
  lemma LateTimerStays<K(!new)>(codec: KeyCodec<K>, c: Contents<K>, w: UInt64, key: K, namespace: K)
    requires Lawful(codec)
    ensures var advanced := Advanced(codec, c, -1, w).0;
      var late := Register(codec, advanced, EventTime, w, key, namespace);
      && Advanced(codec, late, w, w) == (late, [])
      && TimerOf(codec, EventTime, w, key, namespace) in Due(Advanced(codec, late, w, w).0, EventTime, w)
  {
    hide Fired, Events;
  }

  /** Registering a pending timer again changes neither the pending timers nor what will fire. */
  lemma RegisteringTwice<K(!new)>(
      codec: KeyCodec<K>, c: Contents<K>, domain: TimerDomain, timestamp: UInt64,
      key: K, namespace: K, other: K, again: K)
    requires Lawful(codec)
    requires codec.encode(other) == codec.encode(key) && codec.encode(again) == codec.encode(namespace)
    ensures var once := Register(codec, c, domain, timestamp, key, namespace);
      Register(codec, once, domain, timestamp, other, again).timers.Keys == once.timers.Keys
  {
    var once := Register(codec, c, domain, timestamp, key, namespace);
    assert TimerOf(codec, domain, timestamp, other, again) == TimerOf(codec, domain, timestamp, key, namespace);
    assert TimerOf(codec, domain, timestamp, key, namespace) in once.timers;
  }

  // ---- conservation --------------------------------------------------------

  /** The timers that were newly registered, that fired and that were deleted. */
  datatype Ledger = Ledger(registered: multiset<TimerId>, fired: multiset<TimerId>, deleted: multiset<TimerId>)

  function Combine(a: Ledger, b: Ledger): Ledger {
    Ledger(a.registered + b.registered, a.fired + b.fired, a.deleted + b.deleted)
  }

  function NothingHappened(): Ledger {
    Ledger(multiset{}, multiset{}, multiset{})
  }

  /** What one call does to the timers. */
  function LedgerOf<K(!new)>(codec: KeyCodec<K>, s: Store<K>, op: Operation<K>): Ledger
    requires Lawful(codec)
  {
    match op
    case AddTimer(timestamp, namespace, domain) =>
      if RegistrationError(s.currentKey, timestamp).Some? then
        NothingHappened()
      else
        var t := TimerOf(codec, domain, timestamp, s.currentKey.value, namespace);
        if t in s.contents.timers then NothingHappened() else Ledger(multiset{t}, multiset{}, multiset{})
    case DropTimer(timestamp, namespace, domain) =>
      if DeletionError(s.currentKey, timestamp).Some? then
        NothingHappened()
      else
        var t := TimerOf(codec, domain, timestamp, s.currentKey.value, namespace);
        if t in s.contents.timers then Ledger(multiset{}, multiset{}, multiset{t}) else NothingHappened()
    case PopTimers(timestamp, domain, limit) =>
      Ledger(multiset{}, multiset(Fired(codec, s.contents, domain, timestamp, limit)), multiset{})
    case _ => NothingHappened()
  }

  function RunLedger<K(!new)>(codec: KeyCodec<K>, exact: bool, s: Store<K>, ops: seq<Operation<K>>): Ledger
    requires Lawful(codec)
    decreases |ops|
  {
    if ops == [] then
      NothingHappened()
    else
      Combine(LedgerOf(codec, s, ops[0]), RunLedger(codec, exact, Step(codec, exact, s, ops[0]).0, ops[1..]))
  }

  function Pending<K>(s: Store<K>): multiset<TimerId> {
    multiset(s.contents.timers.Keys)
  }

  ghost predicate Balanced(before: multiset<TimerId>, l: Ledger, after: multiset<TimerId>) {
    before + l.registered == l.fired + l.deleted + after
  }

  lemma FiredAsMultiset(fired: seq<TimerId>, keys: set<TimerId>)
    requires NoDuplicates(fired) && forall t :: t in fired ==> t in keys
    ensures multiset(keys) == multiset(fired) + multiset(keys - Elements(fired))
  {
    forall t ensures multiset(fired)[t] == if t in fired then 1 else 0 {
      CountOnce(fired, t);
    }
    assert forall t :: t in keys - Elements(fired) <==> t in keys && t !in fired;
  }

  lemma {:induction false} CountOnce(s: seq<TimerId>, t: TimerId)
    requires NoDuplicates(s)
    ensures multiset(s)[t] == if t in s then 1 else 0
  {
    if s != [] {
      assert s == [s[0]] + s[1..];
      CountOnce(s[1..], t);
    }
  }

  lemma AddedKey(keys: set<TimerId>, t: TimerId)
    ensures t !in keys ==> multiset(keys + {t}) == multiset(keys) + multiset{t}
    ensures t in keys ==> keys + {t} == keys && multiset(keys) == multiset{t} + multiset(keys - {t})
    ensures t !in keys ==> keys - {t} == keys
  {
  }

  lemma StepBalanced<K(!new)>(codec: KeyCodec<K>, exact: bool, s: Store<K>, op: Operation<K>)
    requires Lawful(codec)
    ensures Balanced(Pending(s), LedgerOf(codec, s, op), Pending(Step(codec, exact, s, op).0))
  {
    hide Lawful;
    match op
    case PopTimers(timestamp, domain, limit) => PopBalanced(codec, exact, s, timestamp, domain, limit);
    case AddTimer(timestamp, namespace, domain) => AddBalanced(codec, exact, s, timestamp, namespace, domain);
    case DropTimer(timestamp, namespace, domain) => DropBalanced(codec, exact, s, timestamp, namespace, domain);
    case _ => OthersLeaveTimers(codec, exact, s, op);
  }

  lemma AddBalanced<K(!new)>(
      codec: KeyCodec<K>, exact: bool, s: Store<K>, timestamp: int, namespace: K, domain: TimerDomain)
    requires Lawful(codec)
    ensures var op := AddTimer(timestamp, namespace, domain);
      Balanced(Pending(s), LedgerOf(codec, s, op), Pending(Step(codec, exact, s, op).0))
  {
    hide Lawful, Processed, Fired, Events, AfterGet, Put, Delete, Namespaces;
    if RegistrationError(s.currentKey, timestamp).None? {
      var t := TimerOf(codec, domain, timestamp, s.currentKey.value, namespace);
      AddedKey(s.contents.timers.Keys, t);
      assert Step(codec, exact, s, AddTimer(timestamp, namespace, domain)).0.contents.timers.Keys
          == s.contents.timers.Keys + {t};
    }
  }

  lemma DropBalanced<K(!new)>(
      codec: KeyCodec<K>, exact: bool, s: Store<K>, timestamp: int, namespace: K, domain: TimerDomain)
    requires Lawful(codec)
    ensures var op := DropTimer(timestamp, namespace, domain);
      Balanced(Pending(s), LedgerOf(codec, s, op), Pending(Step(codec, exact, s, op).0))
  {
    hide Lawful, Processed, Fired, Events, AfterGet, Put, Delete, Namespaces;
    if DeletionError(s.currentKey, timestamp).None? {
      var t := TimerOf(codec, domain, timestamp, s.currentKey.value, namespace);
      AddedKey(s.contents.timers.Keys, t);
      assert Step(codec, exact, s, DropTimer(timestamp, namespace, domain)).0.contents.timers.Keys
          == s.contents.timers.Keys - {t};
    }
  }

  lemma OthersLeaveTimers<K(!new)>(codec: KeyCodec<K>, exact: bool, s: Store<K>, op: Operation<K>)
    requires Lawful(codec) && !op.PopTimers? && !op.AddTimer? && !op.DropTimer?
    ensures Step(codec, exact, s, op).0.contents.timers == s.contents.timers
  {
    hide Lawful, Processed;
  }

  lemma PopBalanced<K(!new)>(
      codec: KeyCodec<K>, exact: bool, s: Store<K>, timestamp: int, domain: TimerDomain, limit: Option<int>)
    requires Lawful(codec)
    ensures var op := PopTimers(timestamp, domain, limit);
      Balanced(Pending(s), LedgerOf(codec, s, op), Pending(Step(codec, exact, s, op).0))
  {
    hide Fired, Events, Lawful;
    var fired, keys := Fired(codec, s.contents, domain, timestamp, limit), s.contents.timers.Keys;
    PopTakesEarliest(codec, s.contents, domain, timestamp, limit);
    FiredAsMultiset(fired, keys);
    assert WithoutTimers(s.contents, fired).timers.Keys == keys - Elements(fired);
  }

  lemma BalancedCompose(a: multiset<TimerId>, l: Ledger, b: multiset<TimerId>, m: Ledger, c: multiset<TimerId>)
    requires Balanced(a, l, b) && Balanced(b, m, c)
    ensures Balanced(a, Combine(l, m), c)
  {
    forall t: TimerId
      ensures a[t] + (l.registered[t] + m.registered[t])
           == l.fired[t] + m.fired[t] + (l.deleted[t] + m.deleted[t]) + c[t]
    {
      assert (a + l.registered)[t] == (l.fired + l.deleted + b)[t];
      assert (b + m.registered)[t] == (m.fired + m.deleted + c)[t];
    }
  }

  /**
    Over every run of either backend, each registration of a timer that was not
    pending ends exactly once: it fired, was deleted, or is still pending.
   */
  lemma {:induction false} TimersConserved<K(!new)>(
      codec: KeyCodec<K>, exact: bool, s: Store<K>, ops: seq<Operation<K>>)
    requires Lawful(codec)
    ensures Balanced(Pending(s), RunLedger(codec, exact, s, ops), Pending(Run(codec, exact, s, ops).0))
    decreases |ops|
  {
    if ops != [] {
      hide Step, LedgerOf, Balanced, Pending, Combine, Lawful;
      var next := Step(codec, exact, s, ops[0]).0;
      StepBalanced(codec, exact, s, ops[0]);
      TimersConserved(codec, exact, next, ops[1..]);
      BalancedCompose(
        Pending(s), LedgerOf(codec, s, ops[0]), Pending(next),
        RunLedger(codec, exact, next, ops[1..]), Pending(Run(codec, exact, next, ops[1..]).0));
    } else {
      assert Pending(s) + multiset{} == multiset{} + multiset{} + Pending(s);
    }
  }

  // ---- what the ledger counts ----------------------------------------------

  /** How many timers the responses of a run handed out. */
  function HandedOut<K>(responses: seq<Response<K>>): nat {
    if responses == [] then 0
    else (if responses[0].Popped? then |responses[0].events| else 0) + HandedOut(responses[1..])
  }

  /** Only popping fires, a timer for each event; only dropping deletes and only adding registers, one each at most. */
  lemma LedgerTells<K(!new)>(codec: KeyCodec<K>, exact: bool, s: Store<K>, op: Operation<K>)
    requires Lawful(codec)
    ensures var l, response := LedgerOf(codec, s, op), Step(codec, exact, s, op).1;
      && |l.fired| == (if response.Popped? then |response.events| else 0)
      && (l.registered != multiset{} ==> op.AddTimer? && |l.registered| == 1)
      && (l.deleted != multiset{} ==> op.DropTimer? && |l.deleted| == 1)
  {
    hide Lawful, Fired, Put, Delete, AfterGet, Visible, Processed, Namespaces;
  }

  /** Over a run the fired timers are as many as the events handed out. */
  lemma {:induction false} FiredAreHandedOut<K(!new)>(
      codec: KeyCodec<K>, exact: bool, s: Store<K>, ops: seq<Operation<K>>)
    requires Lawful(codec)
    ensures |RunLedger(codec, exact, s, ops).fired| == HandedOut(Run(codec, exact, s, ops).1)
    decreases |ops|
  {
    hide Lawful, Step, LedgerOf;
    if ops != [] {
      LedgerTells(codec, exact, s, ops[0]);
      FiredAreHandedOut(codec, exact, Step(codec, exact, s, ops[0]).0, ops[1..]);
      var responses := Run(codec, exact, s, ops).1;
      assert responses[1..] == Run(codec, exact, Step(codec, exact, s, ops[0]).0, ops[1..]).1;
    }
  }
}

/** The rescale theorem on keyed state: values, expiry index and timers of the restored backends. */
module RescaleTheorem {
  import opened Wrappers
  import opened Bytes
  import opened StateCodec
  import opened Sorting
  import opened Encodings
  import opened KeyGroups
  import opened KeyCodec
  import opened KeyedState
  import opened StoredState
  import opened KeyGroupSnapshots
  import opened ManagedSnapshot
  import opened BackendLaws
  import opened Rescale

  // ---- routing of stored entries -------------------------------------------

  function SlotGroup<K>(codec: KeyCodec<K>, m: int, s: Slot): int
    requires m >= 1
  {
    KeyGroupOf(codec, codec.decode(s.key), m)
  }

  function TimerIdGroup<K>(codec: KeyCodec<K>, m: int, t: TimerId): int
    requires m >= 1
  {
    KeyGroupOf(codec, codec.decode(t.key), m)
  }

  /** Entries of a key are grouped as routing groups the key itself, however it was written. */
  lemma EntriesFollowKey<K(!new)>(codec: KeyCodec<K>, m: int, key: K, name: Field, namespace: Field)
    requires Lawful(codec) && m >= 1
    ensures Fits(codec.encode(key)) ==>
      SlotGroup(codec, m, Slot(name, codec.encode(key), namespace)) == KeyGroupOf(codec, key, m)
    ensures forall d, t ::
      TimerIdGroup(codec, m, TimerId(d, t, codec.encode(key), namespace)) == KeyGroupOf(codec, key, m)
  {
  }

  lemma StateGroupOf<K>(codec: KeyCodec<K>, m: int, s: Slot)
    requires m >= 1
    ensures StateGroup(codec, m, SlotKey(s)) == SlotGroup(codec, m, s)
  {
    StateKeyRoundTrip(EncodeStateKey(s), s);
  }

  lemma ExpiryGroupOf<K>(codec: KeyCodec<K>, m: int, x: IndexEntry)
    requires m >= 1
    ensures ExpiryGroup(codec, m, IndexKey(x)) == SlotGroup(codec, m, x.1)
  {
    ExpiryKeyRoundTrip(IndexKey(x), x.0, EncodeStateKey(x.1));
    StateGroupOf(codec, m, x.1);
  }

  lemma TimerGroupOf<K(!new)>(codec: KeyCodec<K>, m: int, t: TimerId, v: (K, K))
    requires Lawful(codec) && m >= 1 && codec.encode(v.0) == t.key
    ensures TimerGroup(codec, m, PairBytes(codec)(v)) == TimerIdGroup(codec, m, t)
  {
    assert codec.encode(codec.decode(codec.encode(v.0))) == codec.encode(v.0);
  }

  // ---- unions and restrictions of stored dictionaries ----------------------

  lemma EncodesUnion<A(!new), B>(
      p: map<Blob, Blob>, q: map<Blob, Blob>, a: map<A, B>, b: map<A, B>, key: A -> Blob, val: B -> Blob)
    requires Injective(key) && Encodes(p, a, key, val) && Encodes(q, b, key, val)
    ensures Encodes(p + q, a + b, key, val)
  {
    forall x | x in a + b ensures key(x) in p + q && (p + q)[key(x)] == val((a + b)[x]) {
      EncodesLookup(p, a, key, val, x);
      EncodesLookup(q, b, key, val, x);
    }
    forall y | y in p + q ensures Encoded(y, a + b, key) {
      if y in q {
        assert Encoded(y, b, key);
        var x :| x in b && key(x) == y;
        assert x in a + b;
      } else {
        assert Encoded(y, a, key);
        var x :| x in a && key(x) == y;
        assert x in a + b;
      }
    }
  }

  lemma EncodesWithin<A(!new), B>(
      p: map<Blob, Blob>, a: map<A, B>, key: A -> Blob, val: B -> Blob,
      group: (Blob, Blob) -> int, groups: set<int>, kept: map<A, B>)
    requires Encodes(p, a, key, val)
    requires forall x :: x in kept <==> x in a && group(key(x), val(a[x])) in groups
    requires forall x :: x in kept ==> kept[x] == a[x]
    ensures Encodes(Within(p, group, groups), kept, key, val)
  {
    forall y | y in Within(p, group, groups) ensures Encoded(y, kept, key) {
      assert Encoded(y, a, key);
      var x :| x in a && key(x) == y;
      assert x in kept;
    }
  }

  function Union<K>(contents: seq<Contents<K>>): Contents<K> {
    if contents == [] then
      Empty()
    else
      var before, last := Union(contents[..|contents| - 1]), contents[|contents| - 1];
      Contents(before.cells + last.cells, before.index + last.index, before.timers + last.timers)
  }

  ghost predicate StoredIn<K>(codec: KeyCodec<K>, e: Entries, c: Contents<K>) {
    Stores(codec, e.state, e.expiry, e.timers, c)
  }

  ghost predicate AllStored<K>(codec: KeyCodec<K>, stores: seq<Entries>, contents: seq<Contents<K>>) {
    |stores| == |contents| && forall i :: 0 <= i < |stores| ==> StoredIn(codec, stores[i], contents[i])
  }

  lemma AllEntriesStep(stores: seq<Entries>)
    requires stores != []
    ensures var last := |stores| - 1; var before, e := AllEntries(stores[..last]), stores[last];
      AllEntries(stores) == Entries(before.state + e.state, before.expiry + e.expiry, before.timers + e.timers)
  {
    var last := |stores| - 1;
    assert Selected(State, stores)[..last] == Selected(State, stores[..last]);
    assert Selected(Expiry, stores)[..last] == Selected(Expiry, stores[..last]);
    assert Selected(Timers, stores)[..last] == Selected(Timers, stores[..last]);
  }

  lemma UnionStep<K(!new)>(codec: KeyCodec<K>, p: Entries, q: Entries, a: Contents<K>, b: Contents<K>)
    requires Lawful(codec) && StoredIn(codec, p, a) && StoredIn(codec, q, b)
    ensures StoredIn(codec, Entries(p.state + q.state, p.expiry + q.expiry, p.timers + q.timers),
      Contents(a.cells + b.cells, a.index + b.index, a.timers + b.timers))
  {
    hide Encodes, Lawful;
    SlotKeyInjective();
    EncodesUnion(p.state, q.state, a.cells, b.cells, SlotKey, CellBytes);
    UnionIndex(p.expiry, q.expiry, a.index, b.index);
    UnionTimers(codec, p.timers, q.timers, a.timers, b.timers);
  }

  lemma UnionIndex(p: map<Blob, Blob>, q: map<Blob, Blob>, a: set<IndexEntry>, b: set<IndexEntry>)
    requires Encodes(p, Unit(a), IndexKey, NoBytes) && Encodes(q, Unit(b), IndexKey, NoBytes)
    ensures Encodes(p + q, Unit(a + b), IndexKey, NoBytes)
  {
    hide Encodes;
    IndexKeyInjective();
    EncodesUnion(p, q, Unit(a), Unit(b), IndexKey, NoBytes);
    assert Unit(a + b) == Unit(a) + Unit(b);
  }

  lemma UnionTimers<K(!new)>(
      codec: KeyCodec<K>, p: map<Blob, Blob>, q: map<Blob, Blob>, a: map<TimerId, (K, K)>, b: map<TimerId, (K, K)>)
    requires Lawful(codec)
    requires Encodes(p, a, TimerKey(codec), PairBytes(codec)) && Encodes(q, b, TimerKey(codec), PairBytes(codec))
    ensures Encodes(p + q, a + b, TimerKey(codec), PairBytes(codec))
  {
    hide Encodes, Lawful;
    TimerKeyInjective(codec);
    EncodesUnion(p, q, a, b, TimerKey(codec), PairBytes(codec));
  }

  /** The union of the old backends' bytes holds the union of their keyed states. */
  lemma {:induction false} UnionStored<K(!new)>(codec: KeyCodec<K>, stores: seq<Entries>, contents: seq<Contents<K>>)
    requires Lawful(codec) && AllStored(codec, stores, contents)
    ensures StoredIn(codec, AllEntries(stores), Union(contents))
  {
    if stores != [] {
      var last := |stores| - 1;
      UnionStored(codec, stores[..last], contents[..last]);
      AllEntriesStep(stores);
      UnionStep(codec, AllEntries(stores[..last]), stores[last], Union(contents[..last]), contents[last]);
    }
  }

  /** The part of keyed state whose key groups are in `groups`. */
  function OfGroups<K>(codec: KeyCodec<K>, m: int, c: Contents<K>, groups: set<int>): Contents<K>
    requires m >= 1
  {
    Contents(
      map s | s in c.cells && SlotGroup(codec, m, s) in groups :: c.cells[s],
      set x | x in c.index && SlotGroup(codec, m, x.1) in groups,
      map t | t in c.timers && TimerIdGroup(codec, m, t) in groups :: c.timers[t])
  }

  lemma OfGroupsStored<K(!new)>(codec: KeyCodec<K>, m: int, e: Entries, c: Contents<K>, groups: set<int>)
    requires Lawful(codec) && m >= 1 && StoredIn(codec, e, c)
    ensures StoredIn(codec, Restricted(codec, m, e, groups), OfGroups(codec, m, c, groups))
  {
    hide Encodes, Lawful, StateGroup, ExpiryGroup, TimerGroup, SlotGroup, TimerIdGroup, Within;
    var kept := OfGroups(codec, m, c, groups);
    forall s: Slot { StateGroupOf(codec, m, s); }
    EncodesWithin(e.state, c.cells, SlotKey, CellBytes, GroupOfState(codec, m), groups, kept.cells);
    forall x: IndexEntry { ExpiryGroupOf(codec, m, x); }
    EncodesWithin(e.expiry, Unit(c.index), IndexKey, NoBytes, GroupOfExpiry(codec, m), groups, Unit(kept.index));
    forall t | t in c.timers
      ensures TimerGroup(codec, m, PairBytes(codec)(c.timers[t])) == TimerIdGroup(codec, m, t)
    {
      TimerGroupOf(codec, m, t, c.timers[t]);
    }
    EncodesWithin(e.timers, c.timers, TimerKey(codec), PairBytes(codec), GroupOfTimer(codec, m), groups, kept.timers);
  }

  // ---- placement -----------------------------------------------------------

  /** Backend `i` of `n` holds only keys of its own range. */
  ghost predicate Placed<K>(codec: KeyCodec<K>, m: int, n: int, i: int, c: Contents<K>)
    requires m >= 1
  {
    OfGroups(codec, m, c, OwnedGroups(m, n, i)) == c
  }

  ghost predicate AllPlaced<K>(codec: KeyCodec<K>, m: int, contents: seq<Contents<K>>)
    requires m >= 1
  {
    forall i :: 0 <= i < |contents| ==> Placed(codec, m, |contents|, i, contents[i])
  }

  lemma PlacedEntries<K(!new)>(codec: KeyCodec<K>, m: int, n: int, i: int, e: Entries, c: Contents<K>)
    requires Lawful(codec) && m >= 1 && StoredIn(codec, e, c) && Placed(codec, m, n, i, c)
    ensures Restricted(codec, m, e, OwnedGroups(m, n, i)) == e
    ensures forall f :: OnlyOwn(f, codec, m, n, i, e)
  {
    hide OwnedGroups, Lawful;
    var owned := OwnedGroups(m, n, i);
    var r := Restricted(codec, m, e, owned);
    OfGroupsStored(codec, m, e, c, owned);
    EncodesDeterminesBytes(r.state, e.state, c.cells, SlotKey, CellBytes);
    EncodesDeterminesBytes(r.expiry, e.expiry, Unit(c.index), IndexKey, NoBytes);
    EncodesDeterminesBytes(r.timers, e.timers, c.timers, TimerKey(codec), PairBytes(codec));
    forall f ensures OnlyOwn(f, codec, m, n, i, e) {
      SelectRestricted(f, codec, m, e, owned);
    }
  }

  /** A physical timer key determines its group, although the group is read from the value. */
  lemma TimersDetermined<K(!new)>(codec: KeyCodec<K>, m: int, stores: seq<Entries>, contents: seq<Contents<K>>)
    requires Lawful(codec) && m >= 1 && AllStored(codec, stores, contents)
    ensures KeyDetermined(Selected(Timers, stores), GroupOfTimer(codec, m))
  {
    var ds := Selected(Timers, stores);
    forall i, j, b | 0 <= i < |ds| && 0 <= j < |ds| && b in ds[i] && b in ds[j]
      ensures TimerGroup(codec, m, ds[i][b]) == TimerGroup(codec, m, ds[j][b])
    {
      var t := TimerAt(codec, stores[i], contents[i], b);
      var u := TimerAt(codec, stores[j], contents[j], b);
      TimerKeyInjective(codec);
      TimerGroupOf(codec, m, t, contents[i].timers[t]);
      TimerGroupOf(codec, m, u, contents[j].timers[u]);
    }
  }

  lemma TimerAt<K(!new)>(codec: KeyCodec<K>, e: Entries, c: Contents<K>, b: Blob) returns (t: TimerId)
    requires StoredIn(codec, e, c) && b in e.timers
    ensures t in c.timers && TimerKey(codec)(t) == b && e.timers[b] == PairBytes(codec)(c.timers[t])
    ensures codec.encode(c.timers[t].0) == t.key
  {
    assert Encoded(b, c.timers, TimerKey(codec));
    t :| t in c.timers && TimerKey(codec)(t) == b;
  }

  lemma EntriesWellPlaced<K(!new)>(codec: KeyCodec<K>, m: int, stores: seq<Entries>, contents: seq<Contents<K>>)
    requires Lawful(codec) && m >= 1 && AllStored(codec, stores, contents) && AllPlaced(codec, m, contents)
    ensures WellPlaced(codec, m, stores)
    ensures forall f :: KeyDetermined(Selected(f, stores), GroupOf(f, codec, m))
  {
    hide Stores, Lawful, OwnedGroups, OfGroups;
    forall f, i | 0 <= i < |stores| ensures OnlyOwn(f, codec, m, |stores|, i, stores[i]) {
      PlacedEntries(codec, m, |stores|, i, stores[i], contents[i]);
    }
    TimersDetermined(codec, m, stores, contents);
  }

  // ---- the theorem ---------------------------------------------------------

  /** The keyed state that subtask `j` of `target` must end up with. */
  function Rescaled<K>(codec: KeyCodec<K>, m: int, contents: seq<Contents<K>>, target: int, j: int): Contents<K>
    requires m >= 1
  {
    OfGroups(codec, m, Union(contents), OwnedGroups(m, target, j))
  }

  /**
    Snapshotting N backends that each hold only keys of their own range,
    redistributing to `target` subtasks and restoring: the bytes that subtask `j`
    joins are supported, and hold exactly the keyed state it must end up with.
   */
  lemma RestoredBackends<K(!new)>(
      codec: KeyCodec<K>, m: int, stores: seq<Entries>, contents: seq<Contents<K>>, watermarks: seq<int>,
      target: int, j: int, parts: seq<GroupSnapshot>)
    requires Lawful(codec) && ValidParallelism(m, |stores|) && ValidParallelism(m, target) && 0 <= j < target
    requires AllStored(codec, stores, contents) && AllPlaced(codec, m, contents) && |watermarks| == |stores|
    requires Lists(parts, Repartitioned(Fragments(codec, m, stores, watermarks), target)[j].keyGroups)
    ensures forall s :: s in parts ==> Supported(s)
    ensures StoredIn(codec, Joined(parts), Rescaled(codec, m, contents, target, j))
    ensures Placed(codec, m, target, j, Rescaled(codec, m, contents, target, j))
  {
    hide WellPlaced, KeyDetermined, AllPlaced, AllStored, StoredIn, Lists, OwnedGroups, Repartitioned, Fragments,
      Restricted, Union, AllEntries, Joined, OfGroups;
    EntriesWellPlaced(codec, m, stores, contents);
    RescalePreservesEntries(codec, m, stores, watermarks, target, j, parts);
    UnionStored(codec, stores, contents);
    OfGroupsStored(codec, m, AllEntries(stores), Union(contents), OwnedGroups(m, target, j));
    OfGroupsTwice(codec, m, Union(contents), OwnedGroups(m, target, j));
  }

  lemma OfGroupsTwice<K>(codec: KeyCodec<K>, m: int, c: Contents<K>, groups: set<int>)
    requires m >= 1
    ensures OfGroups(codec, m, OfGroups(codec, m, c, groups), groups) == OfGroups(codec, m, c, groups)
  {
  }

  // ---- conservation --------------------------------------------------------

  /** Every cell, index entry and timer of `part` is in `all`, with the same value. */
  ghost predicate PartOf<K>(part: Contents<K>, all: Contents<K>) {
    && (forall s :: s in part.cells ==> s in all.cells && all.cells[s] == part.cells[s])
    && part.index <= all.index
    && (forall t :: t in part.timers ==> t in all.timers && all.timers[t] == part.timers[t])
  }

  ghost predicate Apart<K>(a: Contents<K>, b: Contents<K>) {
    a.cells.Keys !! b.cells.Keys && a.index !! b.index && a.timers.Keys !! b.timers.Keys
  }

  /** Nothing is in `all` that is in none of the parts. */
  ghost predicate NothingElse<K>(parts: seq<Contents<K>>, all: Contents<K>) {
    && (forall s :: s in all.cells ==> SomeCell(parts, s))
    && (forall x :: x in all.index ==> SomeEntry(parts, x))
    && (forall t :: t in all.timers ==> SomeTimer(parts, t))
  }

  ghost predicate SomeCell<K>(parts: seq<Contents<K>>, s: Slot) {
    exists i :: 0 <= i < |parts| && s in parts[i].cells
  }

  ghost predicate SomeEntry<K>(parts: seq<Contents<K>>, x: IndexEntry) {
    exists i :: 0 <= i < |parts| && x in parts[i].index
  }

  ghost predicate SomeTimer<K>(parts: seq<Contents<K>>, t: TimerId) {
    exists i :: 0 <= i < |parts| && t in parts[i].timers
  }

  /** The parts divide `all`: pairwise apart, each a part of it, and nothing missing. */
  ghost predicate Divides<K>(parts: seq<Contents<K>>, all: Contents<K>) {
    && (forall i, k :: 0 <= i < |parts| && 0 <= k < |parts| && i != k ==> Apart(parts[i], parts[k]))
    && (forall i :: 0 <= i < |parts| ==> PartOf(parts[i], all))
    && NothingElse(parts, all)
  }

  lemma PlacedApart<K>(codec: KeyCodec<K>, m: int, n: int, i: int, k: int, a: Contents<K>, b: Contents<K>)
    requires m >= 1 && i != k && Placed(codec, m, n, i, a) && Placed(codec, m, n, k, b)
    ensures Apart(a, b)
  {
    hide OfGroups, OwnerOf;
    var mine, yours := OwnedGroups(m, n, i), OwnedGroups(m, n, k);
    assert mine !! yours;
    Grouped(codec, m, a, mine);
    Grouped(codec, m, b, yours);
  }

  lemma Grouped<K>(codec: KeyCodec<K>, m: int, c: Contents<K>, groups: set<int>)
    requires m >= 1 && OfGroups(codec, m, c, groups) == c
    ensures forall s :: s in c.cells ==> SlotGroup(codec, m, s) in groups
    ensures forall x :: x in c.index ==> SlotGroup(codec, m, x.1) in groups
    ensures forall t :: t in c.timers ==> TimerIdGroup(codec, m, t) in groups
  {
    hide SlotGroup, TimerIdGroup;
    var part := OfGroups(codec, m, c, groups);
    forall s | s in c.cells ensures SlotGroup(codec, m, s) in groups { assert s in part.cells; }
    forall x | x in c.index ensures SlotGroup(codec, m, x.1) in groups { assert x in part.index; }
    forall t | t in c.timers ensures TimerIdGroup(codec, m, t) in groups { assert t in part.timers; }
  }

  /** Pairwise disjoint keyed states divide their union. */
  lemma {:induction false} UnionDivided<K>(parts: seq<Contents<K>>)
    requires forall i, k :: 0 <= i < |parts| && 0 <= k < |parts| && i != k ==> Apart(parts[i], parts[k])
    ensures Divides(parts, Union(parts))
  {
    if parts != [] {
      var last := |parts| - 1;
      var init := parts[..last];
      UnionDivided(init);
      forall i | 0 <= i < |parts| ensures PartOf(parts[i], Union(parts)) {
        if i < last {
          assert PartOf(init[i], Union(init));
          assert Apart(parts[i], parts[last]);
        }
      }
      UnionAddsNothing(parts);
    }
  }

  lemma UnionAddsNothing<K>(parts: seq<Contents<K>>)
    requires parts != [] && NothingElse(parts[..|parts| - 1], Union(parts[..|parts| - 1]))
    ensures NothingElse(parts, Union(parts))
  {
    var last := |parts| - 1;
    var init := parts[..last];
    forall s | s in Union(parts).cells ensures SomeCell(parts, s) {
      if s !in parts[last].cells {
        assert SomeCell(init, s);
        var i :| 0 <= i < last && s in init[i].cells;
        assert s in parts[i].cells;
      }
    }
    forall x | x in Union(parts).index ensures SomeEntry(parts, x) {
      if x !in parts[last].index {
        assert SomeEntry(init, x);
        var i :| 0 <= i < last && x in init[i].index;
        assert x in parts[i].index;
      }
    }
    forall t | t in Union(parts).timers ensures SomeTimer(parts, t) {
      if t !in parts[last].timers {
        assert SomeTimer(init, t);
        var i :| 0 <= i < last && t in init[i].timers;
        assert t in parts[i].timers;
      }
    }
  }

  function AllRescaled<K>(codec: KeyCodec<K>, m: int, contents: seq<Contents<K>>, target: int): seq<Contents<K>>
    requires m >= 1 && target >= 0
  {
    seq(target, j => Rescaled(codec, m, contents, target, j))
  }

  lemma NewApart<K>(codec: KeyCodec<K>, m: int, contents: seq<Contents<K>>, target: int, i: int, k: int)
    requires m >= 1 && i != k
    ensures Apart(Rescaled(codec, m, contents, target, i), Rescaled(codec, m, contents, target, k))
  {
    hide OfGroups, Union, OwnedGroups;
    var all, mine, yours := Union(contents), OwnedGroups(m, target, i), OwnedGroups(m, target, k);
    OfGroupsTwice(codec, m, all, mine);
    OfGroupsTwice(codec, m, all, yours);
    PlacedApart(codec, m, target, i, k, OfGroups(codec, m, all, mine), OfGroups(codec, m, all, yours));
  }

  lemma OldDivide<K>(codec: KeyCodec<K>, m: int, contents: seq<Contents<K>>)
    requires m >= 1 && AllPlaced(codec, m, contents)
    ensures Divides(contents, Union(contents))
  {
    hide Placed, Apart;
    forall i, k | 0 <= i < |contents| && 0 <= k < |contents| && i != k ensures Apart(contents[i], contents[k]) {
      PlacedApart(codec, m, |contents|, i, k, contents[i], contents[k]);
    }
    UnionDivided(contents);
  }

  lemma NewDivide<K>(codec: KeyCodec<K>, m: int, contents: seq<Contents<K>>, target: int)
    requires ValidParallelism(m, target)
    ensures Divides(AllRescaled(codec, m, contents, target), Union(contents))
  {
    hide Apart, PartOf, NothingElse, Rescaled, Union;
    forall i, k | 0 <= i < target && 0 <= k < target && i != k
      ensures Apart(Rescaled(codec, m, contents, target, i), Rescaled(codec, m, contents, target, k))
    {
      NewApart(codec, m, contents, target, i, k);
    }
    forall i | 0 <= i < target ensures PartOf(Rescaled(codec, m, contents, target, i), Union(contents)) {
      RescaledPart(codec, m, contents, target, i);
    }
    NothingLost(codec, m, contents, target);
  }

  lemma RescaledPart<K>(codec: KeyCodec<K>, m: int, contents: seq<Contents<K>>, target: int, j: int)
    requires m >= 1
    ensures PartOf(Rescaled(codec, m, contents, target, j), Union(contents))
  {
    hide Union, OwnedGroups, SlotGroup, TimerIdGroup;
  }

  /**
    The old backends and the new ones divide the same keyed state: nothing is lost
    and nothing duplicated. Each new backend holds exactly the entries whose key
    group routing sends to it.
   */
  lemma RescaleConserves<K>(codec: KeyCodec<K>, m: int, contents: seq<Contents<K>>, target: int)
    requires ValidParallelism(m, |contents|) && ValidParallelism(m, target) && AllPlaced(codec, m, contents)
    ensures Divides(contents, Union(contents))
    ensures Divides(AllRescaled(codec, m, contents, target), Union(contents))
    ensures forall j :: 0 <= j < target ==>
      Routed(codec, m, target, j, Rescaled(codec, m, contents, target, j), Union(contents))
  {
    hide Divides, AllPlaced, Routed, OfGroups, Union, OwnedGroups;
    OldDivide(codec, m, contents);
    NewDivide(codec, m, contents, target);
    forall j | 0 <= j < target
      ensures Routed(codec, m, target, j, Rescaled(codec, m, contents, target, j), Union(contents))
    {
      RoutedPart(codec, m, target, j, Union(contents));
    }
  }

  /** `part` is what routing sends to subtask `j`. */
  ghost predicate Routed<K>(codec: KeyCodec<K>, m: int, target: int, j: int, part: Contents<K>, all: Contents<K>)
    requires m >= 1
  {
    && (forall s :: s in part.cells <==>
          s in all.cells && KeyGroupOwner(SlotGroup(codec, m, s), m, target) == Ok(j))
    && (forall x :: x in part.index <==>
          x in all.index && KeyGroupOwner(SlotGroup(codec, m, x.1), m, target) == Ok(j))
    && (forall t :: t in part.timers <==>
          t in all.timers && KeyGroupOwner(TimerIdGroup(codec, m, t), m, target) == Ok(j))
  }

  lemma RoutedPart<K>(codec: KeyCodec<K>, m: int, target: int, j: int, all: Contents<K>)
    requires ValidParallelism(m, target) && 0 <= j < target
    ensures Routed(codec, m, target, j, OfGroups(codec, m, all, OwnedGroups(m, target, j)), all)
  {
    hide OwnerOf;
  }

  lemma NothingLost<K>(codec: KeyCodec<K>, m: int, contents: seq<Contents<K>>, target: int)
    requires ValidParallelism(m, target)
    ensures NothingElse(AllRescaled(codec, m, contents, target), Union(contents))
  {
    hide OwnerOf, Union;
    var news, all := AllRescaled(codec, m, contents, target), Union(contents);
    forall s | s in all.cells ensures SomeCell(news, s) {
      OwnerInRange(m, target, SlotGroup(codec, m, s));
      assert s in news[OwnerOf(SlotGroup(codec, m, s), m, target)].cells;
    }
    forall x | x in all.index ensures SomeEntry(news, x) {
      OwnerInRange(m, target, SlotGroup(codec, m, x.1));
      assert x in news[OwnerOf(SlotGroup(codec, m, x.1), m, target)].index;
    }
    forall t | t in all.timers ensures SomeTimer(news, t) {
      OwnerInRange(m, target, TimerIdGroup(codec, m, t));
      assert t in news[OwnerOf(TimerIdGroup(codec, m, t), m, target)].timers;
    }
  }

  /** The expiry index still covers every expiring value after a rescale. */
  lemma RescaleKeepsIndex<K>(codec: KeyCodec<K>, m: int, contents: seq<Contents<K>>, target: int, j: int)
    requires m >= 1 && forall i :: 0 <= i < |contents| ==> IndexCovers(contents[i])
    ensures IndexCovers(Rescaled(codec, m, contents, target, j))
  {
    UnionCovers(contents);
    var all, part := Union(contents), Rescaled(codec, m, contents, target, j);
    forall s | s in part.cells ensures CurrentEntries(part, s) <= part.index {
      assert CurrentEntries(all, s) <= all.index;
    }
  }

  lemma {:induction false} UnionCovers<K>(contents: seq<Contents<K>>)
    requires forall i :: 0 <= i < |contents| ==> IndexCovers(contents[i])
    ensures IndexCovers(Union(contents))
  {
    if contents != [] {
      var last := |contents| - 1;
      UnionCovers(contents[..last]);
      var before, all := Union(contents[..last]), Union(contents);
      forall s | s in all.cells ensures CurrentEntries(all, s) <= all.index {
        if s in contents[last].cells {
          assert CurrentEntries(contents[last], s) <= contents[last].index;
        } else {
          assert CurrentEntries(before, s) <= before.index;
        }
      }
    }
  }
}

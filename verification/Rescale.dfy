/**
  Rescaling end to end: snapshot N backends, redistribute to a new parallelism,
  restore. Nothing is lost or duplicated, and every entry lands where routing
  sends its key.
 */
module Rescale {
  import opened Wrappers
  import opened Bytes
  import opened KeyGroups
  import opened KeyCodec
  import opened KeyGroupSnapshots
  import opened ManagedSnapshot

  function RangeGroups(m: int, parallelism: int, subtask: int): set<int>
    requires parallelism >= 1
  {
    set g | 0 <= g < m && RangeOf(m, parallelism, subtask).Contains(g)
  }

  function OwnedGroups(m: int, parallelism: int, subtask: int): set<int>
    requires m >= 1
  {
    set g | 0 <= g < m && OwnerOf(g, m, parallelism) == subtask
  }

  lemma RangeIsOwned(m: int, parallelism: int, subtask: int)
    requires ValidParallelism(m, parallelism) && 0 <= subtask < parallelism
    ensures RangeGroups(m, parallelism, subtask) == OwnedGroups(m, parallelism, subtask)
  {
    forall g | 0 <= g < m
      ensures RangeOf(m, parallelism, subtask).Contains(g) <==> OwnerOf(g, m, parallelism) == subtask
    {
      RoutingDuality(m, parallelism, subtask, g);
    }
  }

  // ---- the three dictionaries, uniformly -----------------------------------

  datatype Family = State | Expiry | Timers

  function Select(f: Family, e: Entries): map<Blob, Blob> {
    match f
    case State => e.state
    case Expiry => e.expiry
    case Timers => e.timers
  }

  function GroupOf<K>(f: Family, codec: KeyCodec<K>, m: int): (Blob, Blob) -> int
    requires m >= 1
  {
    match f
    case State => GroupOfState(codec, m)
    case Expiry => GroupOfExpiry(codec, m)
    case Timers => GroupOfTimer(codec, m)
  }

  function Selected(f: Family, stores: seq<Entries>): seq<map<Blob, Blob>> {
    seq(|stores|, i requires 0 <= i < |stores| => Select(f, stores[i]))
  }

  function Unpickled(parts: seq<GroupSnapshot>): seq<Entries> {
    seq(|parts|, i requires 0 <= i < |parts| => parts[i].entries)
  }

  function AllEntries(stores: seq<Entries>): Entries {
    Entries(Updated(Selected(State, stores)), Updated(Selected(Expiry, stores)), Updated(Selected(Timers, stores)))
  }

  lemma JoinedIs(parts: seq<GroupSnapshot>)
    ensures Joined(parts) == AllEntries(Unpickled(parts))
  {
    assert States(parts) == Selected(State, Unpickled(parts));
    assert Expiries(parts) == Selected(Expiry, Unpickled(parts));
    assert TimerMaps(parts) == Selected(Timers, Unpickled(parts));
  }

  lemma SelectRestricted<K>(f: Family, codec: KeyCodec<K>, m: int, e: Entries, groups: set<int>)
    requires m >= 1
    ensures Select(f, Restricted(codec, m, e, groups)) == Within(Select(f, e), GroupOf(f, codec, m), groups)
  {
  }

  // ---- the fragments of a checkpoint ---------------------------------------

  /** `snapshot_state` of one subtask: its own key groups in an envelope. */
  function Fragment<K>(codec: KeyCodec<K>, m: int, n: int, i: int, e: Entries, watermark: int): Envelope<GroupSnapshot>
    requires m >= 1 && n >= 1
  {
    Envelope(
      FORMAT_VERSION, Some(KEY_ENCODING_VERSION), m, RangeOf(m, n, i),
      Pickled(Buckets(codec, m, e, RangeGroups(m, n, i))), watermark)
  }

  function Fragments<K>(codec: KeyCodec<K>, m: int, stores: seq<Entries>, watermarks: seq<int>)
    : seq<Envelope<GroupSnapshot>>
    requires m >= 1 && |watermarks| == |stores|
  {
    seq(|stores|, i requires 0 <= i < |stores| => Fragment(codec, m, |stores|, i, stores[i], watermarks[i]))
  }

  /** Subtask `i` holds only entries of its own key groups. */
  ghost predicate OnlyOwn<K>(f: Family, codec: KeyCodec<K>, m: int, n: int, i: int, e: Entries)
    requires m >= 1
  {
    forall b :: b in Select(f, e) ==> GroupOf(f, codec, m)(b, Select(f, e)[b]) in OwnedGroups(m, n, i)
  }

  ghost predicate WellPlaced<K>(codec: KeyCodec<K>, m: int, stores: seq<Entries>)
    requires m >= 1
  {
    forall f, i :: 0 <= i < |stores| ==> OnlyOwn(f, codec, m, |stores|, i, stores[i])
  }

  /** A physical key has one group, whichever store holds it. */
  ghost predicate KeyDetermined(parts: seq<map<Blob, Blob>>, group: (Blob, Blob) -> int) {
    forall i, j, b :: 0 <= i < |parts| && 0 <= j < |parts| && b in parts[i] && b in parts[j] ==>
      group(b, parts[i][b]) == group(b, parts[j][b])
  }

  lemma FragmentsAcceptable<K>(codec: KeyCodec<K>, m: int, stores: seq<Entries>, watermarks: seq<int>, target: int)
    requires ValidParallelism(m, |stores|) && ValidParallelism(m, target) && |watermarks| == |stores|
    ensures Acceptable(Fragments(codec, m, stores, watermarks), target)
  {
    hide Buckets;
    var fragments, n := Fragments(codec, m, stores, watermarks), |stores|;
    forall i | 0 <= i < n ensures ValidEnvelope(fragments[i]) {
      RangesTile(m, n, i);
      BucketKeys(codec, m, stores[i], RangeGroups(m, n, i));
    }
    forall i, j, g | 0 <= i < n && 0 <= j < n && g in fragments[i].keyGroups && g in fragments[j].keyGroups
      ensures fragments[i].keyGroups[g] == fragments[j].keyGroups[g]
    {
      BucketKeys(codec, m, stores[i], RangeGroups(m, n, i));
      BucketKeys(codec, m, stores[j], RangeGroups(m, n, j));
      RangeIsOwned(m, n, i);
      RangeIsOwned(m, n, j);
    }
  }

  lemma BucketKeys<K>(codec: KeyCodec<K>, m: int, e: Entries, requested: set<int>)
    requires m >= 1
    ensures Buckets(codec, m, e, requested).Keys <= requested
    ensures forall g :: g in Buckets(codec, m, e, requested) ==>
      Buckets(codec, m, e, requested)[g] == Restricted(codec, m, e, {g})
    ensures forall g :: g in requested && Restricted(codec, m, e, {g}) != NO_ENTRIES ==>
      g in Buckets(codec, m, e, requested)
  {
  }

  // ---- what a subtask receives ---------------------------------------------

  /** `parts` lists the values of the mapping, in some order. */
  ghost predicate Lists(parts: seq<GroupSnapshot>, groups: map<int, GroupSnapshot>) {
    && (forall i :: 0 <= i < |parts| ==> IsValueOf(parts[i], groups))
    && (forall g :: g in groups ==> groups[g] in parts)
  }

  ghost predicate IsValueOf(s: GroupSnapshot, groups: map<int, GroupSnapshot>) {
    exists g :: g in groups && groups[g] == s
  }

  ghost predicate IsPiece<K>(
      codec: KeyCodec<K>, m: int, stores: seq<Entries>, target: int, j: int, e: Entries, i: int, g: int)
    requires m >= 1
  {
    && 0 <= i < |stores| && g in OwnedGroups(m, |stores|, i) && g in OwnedGroups(m, target, j)
    && e == Restricted(codec, m, stores[i], {g})
  }

  ghost predicate SomePiece<K>(codec: KeyCodec<K>, m: int, stores: seq<Entries>, target: int, j: int, e: Entries)
    requires m >= 1
  {
    exists i, g :: IsPiece(codec, m, stores, target, j, e, i, g)
  }

  /** The parts are the pieces that subtask `j` owns, and no non-empty one is missing. */
  ghost predicate ArePieces<K>(
      codec: KeyCodec<K>, m: int, stores: seq<Entries>, target: int, j: int, parts: seq<GroupSnapshot>)
    requires m >= 1
  {
    && (forall k :: 0 <= k < |parts| ==> SomePiece(codec, m, stores, target, j, parts[k].entries))
    && (forall i, g, e :: IsPiece(codec, m, stores, target, j, e, i, g) && e != NO_ENTRIES ==>
          GroupSnapshot(2, Some(2), e) in parts)
  }

  /** The groups handed to subtask `j` are the old subtasks' non-empty groups that it owns. */
  lemma ReceivedPieces<K>(
      codec: KeyCodec<K>, m: int, stores: seq<Entries>, watermarks: seq<int>, target: int, j: int,
      parts: seq<GroupSnapshot>)
    requires ValidParallelism(m, |stores|) && ValidParallelism(m, target) && |watermarks| == |stores|
    requires 0 <= j < target
    requires Lists(parts, Repartitioned(Fragments(codec, m, stores, watermarks), target)[j].keyGroups)
    ensures forall s :: s in parts ==> Supported(s)
    ensures ArePieces(codec, m, stores, target, j, parts)
  {
    hide Restricted, Buckets, OwnerOf, RangeOf;
    var fragments, n := Fragments(codec, m, stores, watermarks), |stores|;
    var groups := Repartitioned(fragments, target)[j].keyGroups;
    FragmentsAcceptable(codec, m, stores, watermarks, target);
    MergedFrom(fragments);
    forall k | 0 <= k < |parts|
      ensures Supported(parts[k]) && SomePiece(codec, m, stores, target, j, parts[k].entries)
    {
      assert IsValueOf(parts[k], groups);
      var g :| g in groups && groups[g] == parts[k];
      assert HeldBySome(fragments, g, parts[k]);
      var i :| 0 <= i < n && g in fragments[i].keyGroups && fragments[i].keyGroups[g] == parts[k];
      BucketKeys(codec, m, stores[i], RangeGroups(m, n, i));
      RangeIsOwned(m, n, i);
      assert IsPiece(codec, m, stores, target, j, parts[k].entries, i, g);
    }
    forall i, g, e | IsPiece(codec, m, stores, target, j, e, i, g) && e != NO_ENTRIES
      ensures GroupSnapshot(2, Some(2), e) in parts
    {
      BucketKeys(codec, m, stores[i], RangeGroups(m, n, i));
      RangeIsOwned(m, n, i);
      assert g in fragments[i].keyGroups;
      assert groups[g] == GroupSnapshot(2, Some(2), e);
    }
  }

  /** An entry is among the received parts exactly when an old store held it and `j` owns its group. */
  lemma HeldByParts<K>(
      f: Family, codec: KeyCodec<K>, m: int, stores: seq<Entries>, target: int, j: int,
      parts: seq<GroupSnapshot>, b: Blob, v: Blob)
    requires ValidParallelism(m, |stores|) && ValidParallelism(m, target)
    requires WellPlaced(codec, m, stores)
    requires ArePieces(codec, m, stores, target, j, parts)
    ensures HeldBy(Selected(f, Unpickled(parts)), b, v)
       <==> HeldBy(Selected(f, stores), b, v) && GroupOf(f, codec, m)(b, v) in OwnedGroups(m, target, j)
  {
    hide Restricted, OwnedGroups;
    var received, group := Selected(f, Unpickled(parts)), GroupOf(f, codec, m);
    if HeldBy(received, b, v) {
      var k :| 0 <= k < |received| && b in received[k] && received[k][b] == v;
      assert SomePiece(codec, m, stores, target, j, parts[k].entries);
      var i, g :| IsPiece(codec, m, stores, target, j, parts[k].entries, i, g);
      SelectRestricted(f, codec, m, stores[i], {g});
      assert Selected(f, stores)[i] == Select(f, stores[i]);
    }
    if HeldBy(Selected(f, stores), b, v) && group(b, v) in OwnedGroups(m, target, j) {
      var i :| 0 <= i < |stores| && b in Selected(f, stores)[i] && Selected(f, stores)[i][b] == v;
      var e := Restricted(codec, m, stores[i], {group(b, v)});
      SelectRestricted(f, codec, m, stores[i], {group(b, v)});
      assert OnlyOwn(f, codec, m, |stores|, i, stores[i]);
      assert b in Select(f, e);
      assert IsPiece(codec, m, stores, target, j, e, i, group(b, v));
      var k :| 0 <= k < |parts| && parts[k] == GroupSnapshot(2, Some(2), e);
      assert b in received[k] && received[k][b] == v;
    }
  }

  lemma StoresAgree<K>(f: Family, codec: KeyCodec<K>, m: int, stores: seq<Entries>)
    requires m >= 1 && WellPlaced(codec, m, stores)
    requires KeyDetermined(Selected(f, stores), GroupOf(f, codec, m))
    ensures PartsAgree(Selected(f, stores))
  {
    var ds := Selected(f, stores);
    forall i, j, b | 0 <= i < |ds| && 0 <= j < |ds| && b in ds[i] && b in ds[j] ensures ds[i][b] == ds[j][b] {
      assert OnlyOwn(f, codec, m, |stores|, i, stores[i]);
      assert OnlyOwn(f, codec, m, |stores|, j, stores[j]);
    }
  }

  lemma FamilyRescaled<K>(
      f: Family, codec: KeyCodec<K>, m: int, stores: seq<Entries>, target: int, j: int, parts: seq<GroupSnapshot>)
    requires ValidParallelism(m, |stores|) && ValidParallelism(m, target)
    requires WellPlaced(codec, m, stores)
    requires KeyDetermined(Selected(f, stores), GroupOf(f, codec, m))
    requires ArePieces(codec, m, stores, target, j, parts)
    ensures Updated(Selected(f, Unpickled(parts)))
         == Within(Updated(Selected(f, stores)), GroupOf(f, codec, m), OwnedGroups(m, target, j))
  {
    var received, ds, group := Selected(f, Unpickled(parts)), Selected(f, stores), GroupOf(f, codec, m);
    StoresAgree(f, codec, m, stores);
    hide ArePieces, WellPlaced;
    forall b, v
      ensures HeldBy(received, b, v) <==> HeldBy(ds, b, v) && group(b, v) in OwnedGroups(m, target, j)
    {
      HeldByParts(f, codec, m, stores, target, j, parts, b, v);
    }
    SelectedByOwner(received, ds, group, OwnedGroups(m, target, j));
  }

  lemma SelectedByOwner(
      received: seq<map<Blob, Blob>>, ds: seq<map<Blob, Blob>>, group: (Blob, Blob) -> int, owned: set<int>)
    requires PartsAgree(ds)
    requires forall b, v :: HeldBy(received, b, v) <==> HeldBy(ds, b, v) && group(b, v) in owned
    ensures Updated(received) == Within(Updated(ds), group, owned)
  {
    UpdatedFrom(received);
    var all := Updated(ds);
    forall b | b in Updated(received) ensures b in Within(all, group, owned) && all[b] == Updated(received)[b] {
      assert HeldBy(received, b, Updated(received)[b]);
      UpdatedIff(ds, b, Updated(received)[b]);
    }
    forall b | b in Within(all, group, owned) ensures b in Updated(received) {
      UpdatedIff(ds, b, all[b]);
      assert HeldBy(received, b, all[b]);
      var k :| 0 <= k < |received| && b in received[k];
    }
  }

  /**
    The end-to-end theorem on bytes: whatever the order in which subtask `j` joins
    the key groups handed to it, it ends up with exactly the entries of all old
    backends whose key group it owns.
   */
  lemma RescalePreservesEntries<K>(
      codec: KeyCodec<K>, m: int, stores: seq<Entries>, watermarks: seq<int>, target: int, j: int,
      parts: seq<GroupSnapshot>)
    requires ValidParallelism(m, |stores|) && ValidParallelism(m, target) && |watermarks| == |stores|
    requires 0 <= j < target
    requires WellPlaced(codec, m, stores)
    requires forall f :: KeyDetermined(Selected(f, stores), GroupOf(f, codec, m))
    requires Lists(parts, Repartitioned(Fragments(codec, m, stores, watermarks), target)[j].keyGroups)
    ensures forall s :: s in parts ==> Supported(s)
    ensures Joined(parts) == Restricted(codec, m, AllEntries(stores), OwnedGroups(m, target, j))
  {
    hide WellPlaced, KeyDetermined, ArePieces, Updated, Within, OwnedGroups;
    ReceivedPieces(codec, m, stores, watermarks, target, j, parts);
    FamilyRescaled(State, codec, m, stores, target, j, parts);
    FamilyRescaled(Expiry, codec, m, stores, target, j, parts);
    FamilyRescaled(Timers, codec, m, stores, target, j, parts);
    JoinedIs(parts);
  }
}

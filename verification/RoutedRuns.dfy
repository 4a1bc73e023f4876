/** Backends that are only given keys of their own key groups hold nothing else, whatever is done to them. */
module RoutedRuns {
  import opened Wrappers
  import opened StateCodec
  import opened KeyGroups
  import opened KeyCodec
  import opened KeyedState
  import opened KeyGroupSnapshots
  import opened ManagedSnapshot
  import opened BackendLaws
  import opened Rescale
  import opened RescaleTheorem

  /** Routing sends the key to subtask `i` of `n`. */
  predicate Routes<K>(codec: KeyCodec<K>, m: int, n: int, i: int, key: K)
    requires m >= 1
  {
    KeyGroupOwner(KeyGroupOf(codec, key, m), m, n) == Ok(i)
  }

  /** Only keys that are routed to the subtask are selected. */
  predicate RoutedKeys<K>(codec: KeyCodec<K>, m: int, n: int, i: int, ops: seq<Operation<K>>)
    requires m >= 1
  {
    forall k :: 0 <= k < |ops| && ops[k].SelectKey? ==> Routes(codec, m, n, i, ops[k].key)
  }

  ghost predicate WellRouted<K>(codec: KeyCodec<K>, m: int, n: int, i: int, s: Store<K>)
    requires m >= 1
  {
    Placed(codec, m, n, i, s.contents) && (s.currentKey.Some? ==> Routes(codec, m, n, i, s.currentKey.value))
  }

  lemma RoutesGroup<K>(codec: KeyCodec<K>, m: int, n: int, i: int, key: K)
    requires m >= 1 && Routes(codec, m, n, i, key)
    ensures KeyGroupOf(codec, key, m) in OwnedGroups(m, n, i)
  {
  }

  ghost predicate OnlyGroups<K>(codec: KeyCodec<K>, m: int, c: Contents<K>, groups: set<int>)
    requires m >= 1
  {
    && (forall s :: s in c.cells ==> SlotGroup(codec, m, s) in groups)
    && (forall x :: x in c.index ==> SlotGroup(codec, m, x.1) in groups)
    && (forall t :: t in c.timers ==> TimerIdGroup(codec, m, t) in groups)
  }

  lemma OnlyGroupsIs<K>(codec: KeyCodec<K>, m: int, c: Contents<K>, groups: set<int>)
    requires m >= 1
    ensures OfGroups(codec, m, c, groups) == c <==> OnlyGroups(codec, m, c, groups)
  {
    hide SlotGroup, TimerIdGroup;
    if OfGroups(codec, m, c, groups) == c {
      Grouped(codec, m, c, groups);
    }
  }

  /** What a step can add belongs to the current key. */
  ghost predicate AddsOnly<K>(codec: KeyCodec<K>, c: Contents<K>, after: Contents<K>, key: Option<K>) {
    && (forall s :: s in after.cells ==> s in c.cells || (key.Some? && s.key == codec.encode(key.value)))
    && (forall x :: x in after.index ==> x in c.index || (key.Some? && x.1.key == codec.encode(key.value)))
    && (forall t :: t in after.timers ==> t in c.timers || (key.Some? && t.key == codec.encode(key.value)))
  }

  lemma StepAddsOnly<K(!new)>(codec: KeyCodec<K>, exact: bool, s: Store<K>, op: Operation<K>)
    requires Lawful(codec)
    ensures AddsOnly(codec, s.contents, Step(codec, exact, s, op).0.contents, s.currentKey)
  {
    hide Lawful, Processed, Fired, Events;
    if OnSlot(op) && SlotError(codec, s.currentKey, op.descriptor, op.namespace).None? {
      var slot := SlotOf(codec, op.descriptor, s.currentKey.value, op.namespace);
      SlotStepAddsOnly(codec, exact, s, slot, op);
    }
  }

  lemma SlotStepAddsOnly<K>(codec: KeyCodec<K>, exact: bool, s: Store<K>, slot: Slot, op: Operation<K>)
    requires OnSlot(op) && s.currentKey.Some? && slot.key == codec.encode(s.currentKey.value)
    ensures AddsOnly(codec, s.contents, SlotStep(exact, s, slot, op).0.contents, s.currentKey)
  {
  }

  lemma GroupOfKey<K(!new)>(codec: KeyCodec<K>, m: int, key: K)
    requires Lawful(codec) && m >= 1
    ensures forall s: Slot :: s.key == codec.encode(key) ==> SlotGroup(codec, m, s) == KeyGroupOf(codec, key, m)
    ensures forall t: TimerId :: t.key == codec.encode(key) ==> TimerIdGroup(codec, m, t) == KeyGroupOf(codec, key, m)
  {
    assert codec.encode(codec.decode(codec.encode(key))) == codec.encode(key);
  }

  lemma StepStaysRouted<K(!new)>(
      codec: KeyCodec<K>, m: int, n: int, i: int, exact: bool, s: Store<K>, op: Operation<K>)
    requires Lawful(codec) && m >= 1 && WellRouted(codec, m, n, i, s)
    requires op.SelectKey? ==> Routes(codec, m, n, i, op.key)
    ensures WellRouted(codec, m, n, i, Step(codec, exact, s, op).0)
  {
    hide Lawful, OwnedGroups, OfGroups, SlotGroup, TimerIdGroup, Step, Routes;
    var owned, after := OwnedGroups(m, n, i), Step(codec, exact, s, op).0;
    OnlyGroupsIs(codec, m, s.contents, owned);
    OnlyGroupsIs(codec, m, after.contents, owned);
    StepAddsOnly(codec, exact, s, op);
    CurrentKeyAfter(codec, exact, s, op);
    if s.currentKey.Some? {
      GroupOfKey(codec, m, s.currentKey.value);
      RoutesGroup(codec, m, n, i, s.currentKey.value);
    }
  }

  lemma CurrentKeyAfter<K(!new)>(codec: KeyCodec<K>, exact: bool, s: Store<K>, op: Operation<K>)
    requires Lawful(codec)
    ensures Step(codec, exact, s, op).0.currentKey == if op.SelectKey? then Some(op.key) else s.currentKey
  {
    hide Lawful, Processed, Fired, Events, AfterGet, Put, Delete;
  }

  /**
    Over every run whose keys are routed to the subtask, its backend holds only values,
    index entries and timers of its own key groups.
   */
  lemma {:induction false} RunsStayPlaced<K(!new)>(
      codec: KeyCodec<K>, m: int, n: int, i: int, exact: bool, s: Store<K>, ops: seq<Operation<K>>)
    requires Lawful(codec) && m >= 1 && WellRouted(codec, m, n, i, s) && RoutedKeys(codec, m, n, i, ops)
    ensures WellRouted(codec, m, n, i, Run(codec, exact, s, ops).0)
    decreases |ops|
  {
    hide Lawful, WellRouted, Step, Routes;
    if ops != [] {
      StepStaysRouted(codec, m, n, i, exact, s, ops[0]);
      RunsStayPlaced(codec, m, n, i, exact, Step(codec, exact, s, ops[0]).0, ops[1..]);
    }
  }

  /** A new backend, whose current key has not been selected yet. */
  function Restarted<K>(c: Contents<K>): Store<K> {
    Store(None, c)
  }

  /** The keyed states after each subtask's own run. */
  function Ends<K(!new)>(
      codec: KeyCodec<K>, exact: bool, starts: seq<Contents<K>>, runs: seq<seq<Operation<K>>>): seq<Contents<K>>
    requires Lawful(codec) && |runs| == |starts|
  {
    seq(|starts|, i requires 0 <= i < |starts| => Run(codec, exact, Restarted(starts[i]), runs[i]).0.contents)
  }

  predicate AllRouted<K>(codec: KeyCodec<K>, m: int, runs: seq<seq<Operation<K>>>)
    requires m >= 1
  {
    forall i :: 0 <= i < |runs| ==> RoutedKeys(codec, m, |runs|, i, runs[i])
  }

  lemma EmptyPlaced<K>(codec: KeyCodec<K>, m: int, n: int)
    requires m >= 1 && n >= 0
    ensures AllPlaced(codec, m, seq(n, _ => Empty<K>()))
  {
  }

  /** Subtasks that start with their own keys, or with nothing, end with their own keys. */
  lemma AllRunsStayPlaced<K(!new)>(
      codec: KeyCodec<K>, m: int, exact: bool, starts: seq<Contents<K>>, runs: seq<seq<Operation<K>>>)
    requires Lawful(codec) && m >= 1 && |runs| == |starts| && AllPlaced(codec, m, starts) && AllRouted(codec, m, runs)
    ensures AllPlaced(codec, m, Ends(codec, exact, starts, runs))
  {
    hide Placed, RoutedKeys, Run, Lawful;
    var ends := Ends(codec, exact, starts, runs);
    forall i | 0 <= i < |ends| ensures Placed(codec, m, |ends|, i, ends[i]) {
      assert Placed(codec, m, |starts|, i, starts[i]) && RoutedKeys(codec, m, |runs|, i, runs[i]);
      RunsStayPlaced(codec, m, |starts|, i, exact, Restarted(starts[i]), runs[i]);
    }
  }

  lemma RescaledPlaced<K>(codec: KeyCodec<K>, m: int, contents: seq<Contents<K>>, target: int)
    requires m >= 1 && target >= 0
    ensures AllPlaced(codec, m, AllRescaled(codec, m, contents, target))
  {
    hide OfGroups, OwnedGroups, Union;
    forall j | 0 <= j < target
      ensures Placed(codec, m, target, j, AllRescaled(codec, m, contents, target)[j])
    {
      OfGroupsTwice(codec, m, Union(contents), OwnedGroups(m, target, j));
    }
  }

  /** The life of a job: `n` subtasks run, are rescaled, and so on through all parallelisms. */
  datatype Era<K> = Era(runs: seq<seq<Operation<K>>>)

  /** The keyed states at the end of the last era, when each rescale hands on what its theorem says. */
  function Life<K(!new)>(codec: KeyCodec<K>, m: int, exact: bool, eras: seq<Era<K>>): (contents: seq<Contents<K>>)
    requires Lawful(codec) && m >= 1 && eras != []
    ensures |contents| == |eras[|eras| - 1].runs|
  {
    var last := |eras| - 1;
    var runs := eras[last].runs;
    var starts :=
      if last == 0 then seq(|runs|, _ => Empty<K>())
      else AllRescaled(codec, m, Life(codec, m, exact, eras[..last]), |runs|);
    Ends(codec, exact, starts, runs)
  }

  /**
    From the first start through any number of runs and rescales, if every key goes
    to the subtask that routing names, every backend only ever holds keys of its own
    range: the placement that restoring relies on is there at each rescale.
   */
  lemma {:induction false} LifeStaysPlaced<K(!new)>(codec: KeyCodec<K>, m: int, exact: bool, eras: seq<Era<K>>)
    requires Lawful(codec) && m >= 1 && eras != []
    requires forall e :: 0 <= e < |eras| ==> AllRouted(codec, m, eras[e].runs)
    ensures AllPlaced(codec, m, Life(codec, m, exact, eras))
  {
    hide AllPlaced, AllRouted, Lawful, Ends;
    var last := |eras| - 1;
    var runs := eras[last].runs;
    if last == 0 {
      EmptyPlaced(codec, m, |runs|);
      AllRunsStayPlaced(codec, m, exact, seq(|runs|, _ => Empty<K>()), runs);
    } else {
      LifeStaysPlaced(codec, m, exact, eras[..last]);
      RescaledPlaced(codec, m, Life(codec, m, exact, eras[..last]), |runs|);
      AllRunsStayPlaced(
        codec, m, exact, AllRescaled(codec, m, Life(codec, m, exact, eras[..last]), |runs|), runs);
    }
  }

  /**
    The rescale theorem over lives: whatever routed runs and rescales led to the old
    backends, restoring after one more rescale yields exactly what routing assigns.
   */
  lemma RescaleAfterLife<K(!new)>(
      codec: KeyCodec<K>, m: int, exact: bool, eras: seq<Era<K>>, stores: seq<Entries>, watermarks: seq<int>,
      target: int, j: int, parts: seq<GroupSnapshot>)
    requires Lawful(codec) && ValidParallelism(m, |stores|) && ValidParallelism(m, target) && 0 <= j < target
    requires eras != [] && forall e :: 0 <= e < |eras| ==> AllRouted(codec, m, eras[e].runs)
    requires AllStored(codec, stores, Life(codec, m, exact, eras)) && |watermarks| == |stores|
    requires Lists(parts, Repartitioned(Fragments(codec, m, stores, watermarks), target)[j].keyGroups)
    ensures forall s :: s in parts ==> Supported(s)
    ensures StoredIn(codec, Joined(parts), Rescaled(codec, m, Life(codec, m, exact, eras), target, j))
  {
    hide AllPlaced, AllStored, StoredIn, Lists, Lawful, Life, AllRouted, Rescaled, Joined, Repartitioned, Fragments;
    LifeStaysPlaced(codec, m, exact, eras);
    RestoredBackends(codec, m, stores, Life(codec, m, exact, eras), watermarks, target, j, parts);
  }
}

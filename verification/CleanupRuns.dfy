/** A limited cleanup on which the two backends disagree, from an empty start. */
module CleanupRuns {
  import opened Wrappers
  import opened Bytes
  import opened StateCodec
  import opened Sorting
  import opened KeyCodec
  import opened KeyedState
  import opened StateScans
  import opened BackendLaws

  const SHORT_LIVED := TtlConfig(1, false, false)
  const FIRST := Descriptor([0], Some(SHORT_LIVED))
  const SECOND := Descriptor([1], Some(SHORT_LIVED))

  /** A value expires and is read away, another one expires; then at most one expired entry is cleaned up. */
  function DisagreeingRun<K>(key: K, namespace: K, payload: Blob): seq<Operation<K>> {
    [SelectKey(key), Write(FIRST, payload, namespace, 0), Read(FIRST, namespace, 1, 1),
     Write(SECOND, payload, namespace, 1), Cleanup(2, Some(1))]
  }

  /** The contents before the cleanup; the memory backend still indexes the value that was read away. */
  function BeforeCleanup<K>(exact: bool, first: Slot, second: Slot, payload: Blob): Contents<K> {
    Contents(
      map[second := Cell(Some(2), payload)],
      if exact then {(2, second)} else {(1, first), (2, second)},
      map[])
  }

  lemma {:induction false} RunTakesSteps<K(!new)>(codec: KeyCodec<K>, exact: bool, s: Store<K>, ops: seq<Operation<K>>)
    requires Lawful(codec) && ops != []
    ensures var next := Step(codec, exact, s, ops[0]); var rest := Run(codec, exact, next.0, ops[1..]);
      Run(codec, exact, s, ops) == (rest.0, [next.1] + rest.1)
  {
  }

  lemma NothingRuns<K(!new)>(codec: KeyCodec<K>, exact: bool, s: Store<K>)
    requires Lawful(codec)
    ensures Run(codec, exact, s, []) == (s, [])
  {
  }

  lemma ReachesDisagreement<K(!new)>(codec: KeyCodec<K>, exact: bool, key: K, namespace: K, payload: Blob)
    returns (first: Slot, second: Slot)
    requires Lawful(codec) && Fits(codec.encode(key)) && Fits(codec.encode(namespace))
    ensures first == Slot([0], codec.encode(key), codec.encode(namespace))
    ensures second == Slot([1], codec.encode(key), codec.encode(namespace))
    ensures var run := Run(codec, exact, Store(None, Empty()), DisagreeingRun(key, namespace, payload));
      |run.1| == 5 && run.1[4]
      == Removed(CleanupCount(BeforeCleanup<K>(exact, first, second, payload), 2, Some(1)))
  {
    hide Lawful, Run, Processed, CleanupCount, AfterCleanup;
    first := Slot([0], codec.encode(key), codec.encode(namespace));
    second := Slot([1], codec.encode(key), codec.encode(namespace));
    assert first != second by { assert [0][0] != [1][0]; }
    var ops := DisagreeingRun(key, namespace, payload);
    var s0: Store<K> := Store(None, Empty());
    var s1 := Step(codec, exact, s0, ops[0]).0;
    var s2 := Step(codec, exact, s1, ops[1]).0;
    assert s2.contents == Contents(map[first := Cell(Some(1), payload)], {(1, first)}, map[]);
    var s3 := Step(codec, exact, s2, ops[2]).0;
    assert s3.contents == Contents(map[], if exact then {} else {(1, first)}, map[]);
    var s4 := Step(codec, exact, s3, ops[3]).0;
    assert s4.contents == BeforeCleanup<K>(exact, first, second, payload);
    assert ops[1..][1..] == ops[2..] && ops[2..][1..] == ops[3..] && ops[3..][1..] == ops[4..] && ops[4..][1..] == [];
    RunTakesSteps(codec, exact, s0, ops);
    RunTakesSteps(codec, exact, s1, ops[1..]);
    RunTakesSteps(codec, exact, s2, ops[2..]);
    RunTakesSteps(codec, exact, s3, ops[3..]);
    RunTakesSteps(codec, exact, s4, ops[4..]);
    NothingRuns(codec, exact, Step(codec, exact, s4, ops[4]).0);
  }

  /** Of the two overdue entries, the stale one comes first. */
  lemma FirstProcessed<K>(first: Slot, second: Slot, payload: Blob)
    requires first != second
    ensures Processed(BeforeCleanup<K>(false, first, second, payload), 2, Some(1)) == {(1 as Instant, first)}
    ensures Processed(BeforeCleanup<K>(true, first, second, payload), 2, Some(1)) == {(2 as Instant, second)}
  {
    hide Ordered, IndexKey;
    IndexKeyInjective();
    var x: IndexEntry, y: IndexEntry := (1, first), (2, second);
    var m, r := BeforeCleanup<K>(false, first, second, payload), BeforeCleanup<K>(true, first, second, payload);
    assert Overdue(m, 2) == {x, y} && Overdue(r, 2) == {y};
    OrderedIsOrdering({x, y}, IndexKey);
    OrderedIsOrdering({y}, IndexKey);
    StaleComesFirst(first, second);
    var order := Ordered({x, y}, IndexKey);
    assert |order| == 2 && order[0] in order && order[1] in order;
    LessAsymmetric(IndexKey(x), IndexKey(y));
    LessIrreflexive(IndexKey(x));
    LessIrreflexive(IndexKey(y));
    assert order[0] == x;
    assert order[..1] == [x];
    var single := Ordered({y}, IndexKey);
    assert |single| == 1 && single[0] in single;
    assert single[..1] == [y];
  }

  lemma StaleComesFirst(first: Slot, second: Slot)
    ensures Less(IndexKey((1, first)), IndexKey((2, second)))
  {
    ExpiryKeyOrder(1, EncodeStateKey(first), 2, EncodeStateKey(second));
  }

  lemma SweepsOne<K>(c: Contents<K>, x: IndexEntry)
    ensures SweptCount(c, {x}) == if Matches(c.cells, x) then 1 else 0
  {
    SweptNone(c);
    SweepStep(c, {}, x);
    assert {} + {x} == {x};
  }

  /**
    The same calls, from an empty backend: with a limit of one, the memory backend
    spends it on a stale entry and removes nothing, while RocksDB removes the value
    that has expired.
   */
  lemma LimitedCleanupDisagrees<K(!new)>(codec: KeyCodec<K>, key: K, namespace: K, payload: Blob)
    requires Lawful(codec) && Fits(codec.encode(key)) && Fits(codec.encode(namespace))
    ensures var ops := DisagreeingRun(key, namespace, payload); var start: Store<K> := Store(None, Empty());
      var memory, rocks := Run(codec, false, start, ops).1, Run(codec, true, start, ops).1;
      |memory| == |rocks| == 5 && memory[4] == Removed(0) && rocks[4] == Removed(1)
  {
    hide Lawful, Run, Processed;
    var first, second := ReachesDisagreement(codec, false, key, namespace, payload);
    var again, other := ReachesDisagreement(codec, true, key, namespace, payload);
    assert first != second by { assert [0][0] != [1][0]; }
    FirstProcessed<K>(first, second, payload);
    var m, r := BeforeCleanup<K>(false, first, second, payload), BeforeCleanup<K>(true, first, second, payload);
    var x: IndexEntry, y: IndexEntry := (1, first), (2, second);
    SweepsOne(m, x);
    SweepsOne(r, y);
  }
}

/** Redistribution of managed-state snapshots to a new parallelism: `managed_state_snapshot.py`. */
module ManagedSnapshot {
  import opened Wrappers
  import opened IntegerSort
  import opened KeyGroups

  const FORMAT_VERSION := 2
  const KEY_ENCODING_VERSION := 2

  /** One subtask's snapshot; `T` stands for the opaque bytes of a key group. */
  datatype Envelope<T> = Envelope(
    formatVersion: int,
    keyEncodingVersion: Option<int>,
    maxParallelism: int,
    range: KeyGroupRange,
    keyGroups: map<int, T>,
    watermark: int)

  datatype SnapshotError =
    | TargetTooSmall
    | NoSnapshots
    | InvalidSnapshot
    | TargetTooLarge
    | InconsistentMaxParallelism
    | ConflictingKeyGroup(group: int)

  /** `_validate_snapshot_payload` */
  predicate ValidEnvelope<T>(e: Envelope<T>) {
    && e.formatVersion == FORMAT_VERSION
    && e.keyEncodingVersion == Some(KEY_ENCODING_VERSION)
    && e.maxParallelism >= 1
    && 0 <= e.range.start <= e.range.end < e.maxParallelism
    && forall g :: g in e.keyGroups ==> g < e.maxParallelism && e.range.Contains(g)
  }

  // ---- specification -------------------------------------------------------

  /** All key groups of the inputs; later inputs win, which matters only if they conflict. */
  function Merged<T>(inputs: seq<Envelope<T>>): map<int, T> {
    if inputs == [] then
      map[]
    else
      var last := |inputs| - 1;
      Merged(inputs[..last]) + inputs[last].keyGroups
  }

  function MinWatermark<T>(inputs: seq<Envelope<T>>): int
    requires inputs != []
  {
    var last := |inputs| - 1;
    if last == 0 then
      inputs[0].watermark
    else
      var w := MinWatermark(inputs[..last]);
      if inputs[last].watermark < w then inputs[last].watermark else w
  }

  ghost predicate NoConflict<T>(inputs: seq<Envelope<T>>) {
    forall i, j, g :: 0 <= i < |inputs| && 0 <= j < |inputs| && g in inputs[i].keyGroups && g in inputs[j].keyGroups ==>
      inputs[i].keyGroups[g] == inputs[j].keyGroups[g]
  }

  ghost predicate Uniform<T>(inputs: seq<Envelope<T>>, maxParallelism: int) {
    forall i :: 0 <= i < |inputs| ==> ValidEnvelope(inputs[i]) && inputs[i].maxParallelism == maxParallelism
  }

  /** What a redistribution needs of its inputs. */
  ghost predicate Acceptable<T>(inputs: seq<Envelope<T>>, target: int) {
    && inputs != []
    && 1 <= target <= inputs[0].maxParallelism
    && Uniform(inputs, inputs[0].maxParallelism)
    && NoConflict(inputs)
  }

  /** The part of `groups` that subtask `index` of `target` owns. */
  function Share<T>(groups: map<int, T>, maxParallelism: int, target: int, index: int): map<int, T>
    requires maxParallelism >= 1
  {
    map g | g in groups && OwnerOf(g, maxParallelism, target) == index :: groups[g]
  }

  function Repartitioned<T>(inputs: seq<Envelope<T>>, target: int): seq<Envelope<T>>
    requires inputs != [] && inputs[0].maxParallelism >= 1 && target >= 1
  {
    var m := inputs[0].maxParallelism;
    seq(target, index requires 0 <= index < target => Envelope(
      FORMAT_VERSION, Some(KEY_ENCODING_VERSION), m, RangeOf(m, target, index),
      Share(Merged(inputs), m, target, index), MinWatermark(inputs)))
  }

  // ---- the redistribution --------------------------------------------------

  function Restrict<T>(groups: map<int, T>, keys: set<int>): map<int, T> {
    map g | g in groups && g in keys :: groups[g]
  }

  ghost predicate Shares<T>(buckets: seq<map<int, T>>, groups: map<int, T>, maxParallelism: int, target: int)
    requires maxParallelism >= 1
  {
    |buckets| == target && forall j :: 0 <= j < target ==> buckets[j] == Share(groups, maxParallelism, target, j)
  }

  ghost predicate Agree<T>(a: map<int, T>, b: map<int, T>) {
    forall g :: g in a && g in b ==> a[g] == b[g]
  }

  predicate Disagree<T(==)>(a: map<int, T>, b: map<int, T>, g: int) {
    g in a && g in b && a[g] != b[g]
  }

  /** `_redistribute_key_groups` */
  method Redistribute<T(==)>(
      payload: Envelope<T>, maxParallelism: int, target: int, buckets: seq<map<int, T>>, ghost before: map<int, T>)
    returns (r: Result<seq<map<int, T>>, SnapshotError>)
    requires ValidParallelism(maxParallelism, target)
    requires ValidEnvelope(payload) && payload.maxParallelism == maxParallelism
    requires Shares(buckets, before, maxParallelism, target)
    ensures r.Ok? <==> Agree(before, payload.keyGroups)
    ensures r.Ok? ==> Shares(r.value, before + payload.keyGroups, maxParallelism, target)
    ensures r.Err? ==> r.error.ConflictingKeyGroup? && Disagree(before, payload.keyGroups, r.error.group)
  {
    var groups := payload.keyGroups;
    var filled := buckets;
    var pending := groups.Keys;
    ghost var done: set<int> := {};
    assert before + Restrict(groups, done) == before;
    while pending != {}
      invariant pending !! done && pending + done == groups.Keys
      invariant Agree(before, Restrict(groups, done))
      invariant Shares(filled, before + Restrict(groups, done), maxParallelism, target)
      decreases pending
    {
      Inhabited(pending);
      var g :| g in pending;
      OwnerInRange(maxParallelism, target, g);
      var owner := OwnerOf(g, maxParallelism, target);
      if g in filled[owner] && filled[owner][g] != groups[g] {
        return Err(ConflictingKeyGroup(g));
      }
      ShareStep(filled, before + Restrict(groups, done), maxParallelism, target, g, groups[g]);
      assert (before + Restrict(groups, done))[g := groups[g]] == before + Restrict(groups, done + {g});
      filled := filled[owner := filled[owner][g := groups[g]]];
      pending, done := pending - {g}, done + {g};
    }
    assert Restrict(groups, done) == groups;
    return Ok(filled);
  }

  lemma ShareStep<T>(
      buckets: seq<map<int, T>>, groups: map<int, T>, maxParallelism: int, target: int, g: int, value: T)
    requires ValidParallelism(maxParallelism, target) && 0 <= g < maxParallelism
    requires Shares(buckets, groups, maxParallelism, target)
    ensures 0 <= OwnerOf(g, maxParallelism, target) < target
    ensures var owner := OwnerOf(g, maxParallelism, target);
      Shares(buckets[owner := buckets[owner][g := value]], groups[g := value], maxParallelism, target)
  {
    OwnerInRange(maxParallelism, target, g);
    var owner := OwnerOf(g, maxParallelism, target);
    var after := buckets[owner := buckets[owner][g := value]];
    forall j | 0 <= j < target ensures after[j] == Share(groups[g := value], maxParallelism, target, j) {
      assert buckets[j] == Share(groups, maxParallelism, target, j);
    }
  }

  method Repartition<T(==)>(inputs: seq<Envelope<T>>, target: int) returns (r: Result<seq<Envelope<T>>, SnapshotError>)
    ensures r.Ok? <==> Acceptable(inputs, target)
    ensures r.Ok? ==> r.value == Repartitioned(inputs, target)
    ensures r == Err(TargetTooSmall) <==> target < 1
    ensures r == Err(NoSnapshots) <==> target >= 1 && inputs == []
    ensures r == Err(TargetTooLarge) <==>
      inputs != [] && ValidEnvelope(inputs[0]) && target > inputs[0].maxParallelism
  {
    if target < 1 {
      return Err(TargetTooSmall);
    }
    if inputs == [] {
      return Err(NoSnapshots);
    }
    if !ValidEnvelope(inputs[0]) {
      return Err(InvalidSnapshot);
    }
    var m := inputs[0].maxParallelism;
    if AssignKeyGroupRange(m, target, 0).Err? {
      return Err(TargetTooLarge);
    }
    var buckets := seq(target, _ => map[]);
    var watermark := inputs[0].watermark;
    FirstMerged(inputs);
    var first := Redistribute(inputs[0], m, target, buckets, map[]);
    buckets := first.value;
    var i := 1;
    while i < |inputs|
      invariant 1 <= i <= |inputs|
      invariant Uniform(inputs[..i], m) && NoConflict(inputs[..i])
      invariant watermark == MinWatermark(inputs[..i])
      invariant Shares(buckets, Merged(inputs[..i]), m, target)
    {
      PrefixStep(inputs, i);
      if !ValidEnvelope(inputs[i]) {
        return Err(InvalidSnapshot);
      }
      if inputs[i].maxParallelism != m {
        return Err(InconsistentMaxParallelism);
      }
      watermark := if inputs[i].watermark < watermark then inputs[i].watermark else watermark;
      var next := Redistribute(inputs[i], m, target, buckets, Merged(inputs[..i]));
      if next.Err? {
        ConflictIsReal(inputs, i, next.error.group);
        return Err(next.error);
      }
      buckets := next.value;
      i := i + 1;
    }
    assert inputs[..i] == inputs;
    var outputs := seq(target, index requires 0 <= index < target => Envelope(
      FORMAT_VERSION, Some(KEY_ENCODING_VERSION), m, RangeOf(m, target, index), buckets[index], watermark));
    assert outputs == Repartitioned(inputs, target);
    return Ok(outputs);
  }

  lemma FirstMerged<T>(inputs: seq<Envelope<T>>)
    requires inputs != []
    ensures Merged(inputs[..1]) == inputs[0].keyGroups
    ensures MinWatermark(inputs[..1]) == inputs[0].watermark
    ensures NoConflict(inputs[..1])
  {
    assert inputs[..1][..0] == [];
    assert Merged(inputs[..1][..0]) == map[];
  }

  /** Every merged group comes from some input, and without conflicts from whichever holds it. */
  lemma {:induction false} MergedFrom<T>(inputs: seq<Envelope<T>>)
    ensures forall g :: g in Merged(inputs) ==> HeldBySome(inputs, g, Merged(inputs)[g])
    ensures forall i, g :: 0 <= i < |inputs| && g in inputs[i].keyGroups ==> g in Merged(inputs)
    ensures NoConflict(inputs) ==>
      forall i, g :: 0 <= i < |inputs| && g in inputs[i].keyGroups ==> Merged(inputs)[g] == inputs[i].keyGroups[g]
  {
    if inputs != [] {
      var last := |inputs| - 1;
      MergedFrom(inputs[..last]);
      forall g | g in Merged(inputs) ensures HeldBySome(inputs, g, Merged(inputs)[g]) {
        if g !in inputs[last].keyGroups {
          assert g in Merged(inputs[..last]);
          assert HeldBySome(inputs[..last], g, Merged(inputs)[g]);
          var i :| 0 <= i < last && g in inputs[..last][i].keyGroups
            && inputs[..last][i].keyGroups[g] == Merged(inputs)[g];
          assert g in inputs[i].keyGroups;
        }
      }
      forall i, g | 0 <= i < |inputs| && g in inputs[i].keyGroups ensures g in Merged(inputs) {
        if i < last {
          assert g in inputs[..last][i].keyGroups;
        }
      }
      if NoConflict(inputs) {
        forall i, g | 0 <= i < |inputs| && g in inputs[i].keyGroups
          ensures Merged(inputs)[g] == inputs[i].keyGroups[g]
        {
          assert HeldBySome(inputs, g, Merged(inputs)[g]);
        }
      }
    }
  }

  ghost predicate HeldBySome<T>(inputs: seq<Envelope<T>>, g: int, value: T) {
    exists i :: 0 <= i < |inputs| && g in inputs[i].keyGroups && inputs[i].keyGroups[g] == value
  }

  /** Taking one more input keeps the loop's facts unless it disagrees with the merged groups. */
  lemma PrefixStep<T>(inputs: seq<Envelope<T>>, i: nat)
    requires 1 <= i < |inputs|
    ensures Merged(inputs[..i + 1]) == Merged(inputs[..i]) + inputs[i].keyGroups
    ensures MinWatermark(inputs[..i + 1])
         == if inputs[i].watermark < MinWatermark(inputs[..i]) then inputs[i].watermark else MinWatermark(inputs[..i])
    ensures NoConflict(inputs[..i]) && Agree(Merged(inputs[..i]), inputs[i].keyGroups) ==> NoConflict(inputs[..i + 1])
  {
    hide ValidEnvelope;
    assert inputs[..i + 1][..i] == inputs[..i];
    MergedFrom(inputs[..i]);
    var next := inputs[..i + 1];
    if NoConflict(inputs[..i]) && Agree(Merged(inputs[..i]), inputs[i].keyGroups) {
      forall a, b, g | 0 <= a <= i && 0 <= b <= i && g in next[a].keyGroups && g in next[b].keyGroups
        ensures next[a].keyGroups[g] == next[b].keyGroups[g]
      {
        assert a < i ==> inputs[..i][a] == next[a];
        assert b < i ==> inputs[..i][b] == next[b];
      }
    }
  }

  lemma ConflictIsReal<T>(inputs: seq<Envelope<T>>, i: nat, g: int)
    requires i < |inputs| && Disagree(Merged(inputs[..i]), inputs[i].keyGroups, g)
    ensures !NoConflict(inputs)
  {
    MergedFrom(inputs[..i]);
    assert HeldBySome(inputs[..i], g, Merged(inputs[..i])[g]);
    var a :| 0 <= a < i && g in inputs[..i][a].keyGroups && inputs[..i][a].keyGroups[g] == Merged(inputs[..i])[g];
    assert g in inputs[a].keyGroups;
  }

  // ---- laws ----------------------------------------------------------------

  lemma {:induction false} MinWatermarkIs<T>(inputs: seq<Envelope<T>>)
    requires inputs != []
    ensures forall e :: e in inputs ==> MinWatermark(inputs) <= e.watermark
    ensures exists e :: e in inputs && e.watermark == MinWatermark(inputs)
  {
    var last := |inputs| - 1;
    assert inputs == inputs[..last] + [inputs[last]];
    assert inputs[last] in inputs;
    if last > 0 {
      MinWatermarkIs(inputs[..last]);
      if MinWatermark(inputs) == MinWatermark(inputs[..last]) {
        var e :| e in inputs[..last] && e.watermark == MinWatermark(inputs);
        assert e in inputs;
      }
    }
  }

  /** Equal group dictionaries, stated by their entries. */
  lemma SameMerged<T>(a: seq<Envelope<T>>, b: seq<Envelope<T>>)
    requires NoConflict(a) && NoConflict(b)
    requires forall g, v :: HeldBySome(a, g, v) <==> HeldBySome(b, g, v)
    ensures Merged(a) == Merged(b)
  {
    MergedFrom(a);
    MergedFrom(b);
    forall g | g in Merged(a) ensures g in Merged(b) && Merged(a)[g] == Merged(b)[g] {
      assert HeldBySome(b, g, Merged(a)[g]);
    }
    forall g | g in Merged(b) ensures g in Merged(a) {
      assert HeldBySome(a, g, Merged(b)[g]);
    }
  }

  /**
    Every output is a valid envelope for its subtask's range with the least input
    watermark; together the outputs hold exactly the groups of the inputs, each one
    only with its owner.
   */
  lemma RepartitionConserves<T>(inputs: seq<Envelope<T>>, target: int)
    requires Acceptable(inputs, target)
    ensures var m, outputs := inputs[0].maxParallelism, Repartitioned(inputs, target);
      && |outputs| == target && Uniform(outputs, m) && NoConflict(outputs)
      && Merged(outputs) == Merged(inputs)
      && (forall j :: 0 <= j < target ==>
            outputs[j].range == RangeOf(m, target, j) && outputs[j].watermark == MinWatermark(inputs))
      && (forall j, g :: 0 <= j < target ==>
            (g in outputs[j].keyGroups <==> g in Merged(inputs) && KeyGroupOwner(g, m, target) == Ok(j)))
  {
    GroupsInRange(inputs);
    OutputsUniform(inputs, target);
    OutputsMerged(inputs, target);
    var m := inputs[0].maxParallelism;
    forall g | g in Merged(inputs) ensures KeyGroupOwner(g, m, target) == Ok(OwnerOf(g, m, target)) {
    }
  }

  lemma OutputsUniform<T>(inputs: seq<Envelope<T>>, target: int)
    requires Acceptable(inputs, target)
    ensures Uniform(Repartitioned(inputs, target), inputs[0].maxParallelism)
  {
    var m, outputs := inputs[0].maxParallelism, Repartitioned(inputs, target);
    GroupsInRange(inputs);
    forall j | 0 <= j < target ensures ValidEnvelope(outputs[j]) {
      ShareInRange(Merged(inputs), m, target, j);
    }
  }

  lemma OutputsMerged<T>(inputs: seq<Envelope<T>>, target: int)
    requires Acceptable(inputs, target)
    ensures NoConflict(Repartitioned(inputs, target))
    ensures Merged(Repartitioned(inputs, target)) == Merged(inputs)
  {
    GroupsInRange(inputs);
    SharesMerge(Repartitioned(inputs, target), Merged(inputs), inputs[0].maxParallelism, target);
  }

  /** Cutting groups into shares and merging the shares loses and duplicates nothing. */
  lemma SharesMerge<T>(outputs: seq<Envelope<T>>, groups: map<int, T>, m: int, target: int)
    requires ValidParallelism(m, target) && |outputs| == target
    requires forall g :: g in groups ==> 0 <= g < m
    requires forall j :: 0 <= j < target ==> outputs[j].keyGroups == Share(groups, m, target, j)
    ensures NoConflict(outputs) && Merged(outputs) == groups
  {
    hide Merged, OwnerOf;
    MergedFrom(outputs);
    assert NoConflict(outputs);
    forall g | g in groups ensures g in Merged(outputs) && Merged(outputs)[g] == groups[g] {
      OwnerInRange(m, target, g);
      assert g in outputs[OwnerOf(g, m, target)].keyGroups;
    }
    forall g | g in Merged(outputs) ensures g in groups {
      assert HeldBySome(outputs, g, Merged(outputs)[g]);
    }
  }

  lemma GroupsInRange<T>(inputs: seq<Envelope<T>>)
    requires inputs != [] && Uniform(inputs, inputs[0].maxParallelism)
    ensures forall g :: g in Merged(inputs) ==> 0 <= g < inputs[0].maxParallelism
  {
    MergedFrom(inputs);
    forall g | g in Merged(inputs) ensures 0 <= g < inputs[0].maxParallelism {
      assert HeldBySome(inputs, g, Merged(inputs)[g]);
      var i :| 0 <= i < |inputs| && g in inputs[i].keyGroups;
      assert ValidEnvelope(inputs[i]);
    }
  }

  lemma ShareInRange<T>(groups: map<int, T>, m: int, target: int, j: int)
    requires ValidParallelism(m, target) && 0 <= j < target
    requires forall g :: g in groups ==> 0 <= g < m
    ensures 0 <= RangeOf(m, target, j).start <= RangeOf(m, target, j).end < m
    ensures forall g :: g in Share(groups, m, target, j) ==> RangeOf(m, target, j).Contains(g)
  {
    RangesTile(m, target, j);
    forall g | g in Share(groups, m, target, j) ensures RangeOf(m, target, j).Contains(g) {
      RoutingDuality(m, target, j, g);
    }
  }

  /** The outputs can be redistributed again, to any admissible parallelism. */
  lemma OutputsAcceptable<T>(inputs: seq<Envelope<T>>, target: int, next: int)
    requires Acceptable(inputs, target) && 1 <= next <= inputs[0].maxParallelism
    ensures Acceptable(Repartitioned(inputs, target), next)
  {
    RepartitionConserves(inputs, target);
    assert Repartitioned(inputs, target)[0].maxParallelism == inputs[0].maxParallelism;
  }

  /** Rescaling to A and then to B equals rescaling to B. */
  lemma RepartitionComposes<T>(inputs: seq<Envelope<T>>, a: int, b: int)
    requires Acceptable(inputs, a) && 1 <= b <= inputs[0].maxParallelism
    ensures Acceptable(Repartitioned(inputs, a), b) && Acceptable(inputs, b)
    ensures Repartitioned(Repartitioned(inputs, a), b) == Repartitioned(inputs, b)
  {
    OutputsAcceptable(inputs, a, b);
    RepartitionConserves(inputs, a);
    var middle := Repartitioned(inputs, a);
    MinWatermarkIs(middle);
    assert MinWatermark(middle) == MinWatermark(inputs);
    assert middle[0].maxParallelism == inputs[0].maxParallelism;
  }

  /** The order of the inputs, and repetitions among them, do not matter. */
  lemma RepartitionIgnoresOrder<T>(inputs: seq<Envelope<T>>, others: seq<Envelope<T>>, target: int)
    requires Acceptable(inputs, target)
    requires others != [] && forall e :: e in inputs <==> e in others
    ensures Acceptable(others, target)
    ensures Repartitioned(others, target) == Repartitioned(inputs, target)
  {
    var m := inputs[0].maxParallelism;
    forall i | 0 <= i < |others| ensures ValidEnvelope(others[i]) && others[i].maxParallelism == m {
      assert others[i] in inputs;
    }
    forall i, j, g | 0 <= i < |others| && 0 <= j < |others| && g in others[i].keyGroups && g in others[j].keyGroups
      ensures others[i].keyGroups[g] == others[j].keyGroups[g]
    {
      assert others[i] in inputs && others[j] in inputs;
      var k :| 0 <= k < |inputs| && inputs[k] == others[i];
      var l :| 0 <= l < |inputs| && inputs[l] == others[j];
    }
    forall g, v ensures HeldBySome(inputs, g, v) <==> HeldBySome(others, g, v) {
      SameHolders(inputs, others, g, v);
      SameHolders(others, inputs, g, v);
    }
    SameMerged(inputs, others);
    MinWatermarkIs(inputs);
    MinWatermarkIs(others);
  }

  lemma SameHolders<T>(a: seq<Envelope<T>>, b: seq<Envelope<T>>, g: int, v: T)
    requires forall e :: e in a <==> e in b
    ensures HeldBySome(a, g, v) ==> HeldBySome(b, g, v)
  {
    if HeldBySome(a, g, v) {
      var i :| 0 <= i < |a| && g in a[i].keyGroups && a[i].keyGroups[g] == v;
      assert a[i] in b;
      var j :| 0 <= j < |b| && b[j] == a[i];
    }
  }
}

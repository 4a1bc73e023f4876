/** Key-group routing: `key_group_range.py`. */
module KeyGroups {
  import opened Wrappers

  datatype RoutingError = ValueError

  /** An inclusive range of key groups. */
  datatype KeyGroupRange = KeyGroupRange(start: int, end: int) {
    predicate Contains(group: int) {
      start <= group <= end
    }

    function Length(): int {
      end - start + 1
    }
  }

  predicate ValidParallelism(maxParallelism: int, parallelism: int) {
    1 <= parallelism <= maxParallelism
  }

  function AssignKeyGroupRange(maxParallelism: int, parallelism: int, subtask: int)
    : Result<KeyGroupRange, RoutingError>
  {
    if !ValidParallelism(maxParallelism, parallelism) || !(0 <= subtask < parallelism) then
      Err(ValueError)
    else
      Ok(RangeOf(maxParallelism, parallelism, subtask))
  }

  function RangeOf(maxParallelism: int, parallelism: int, subtask: int): KeyGroupRange
    requires parallelism >= 1
  {
    KeyGroupRange(
      (subtask * maxParallelism + parallelism - 1) / parallelism,
      ((subtask + 1) * maxParallelism + parallelism - 1) / parallelism - 1)
  }

  function KeyGroupOwner(group: int, maxParallelism: int, parallelism: int): Result<int, RoutingError> {
    if !ValidParallelism(maxParallelism, parallelism) || !(0 <= group < maxParallelism) then
      Err(ValueError)
    else
      Ok(OwnerOf(group, maxParallelism, parallelism))
  }

  function OwnerOf(group: int, maxParallelism: int, parallelism: int): int
    requires maxParallelism >= 1
  {
    (group * parallelism) / maxParallelism
  }

  /** `x / d` is at least `q` exactly when `x` reaches `q * d`. */
  lemma FloorAtLeast(x: int, d: int, q: int)
    requires d >= 1
    ensures x / d >= q <==> x >= q * d
  {
    var k := x / d;
    assert k * d <= x < (k + 1) * d;
    if k >= q {
      assert k * d >= q * d;
    } else {
      assert (k + 1) * d <= q * d;
    }
  }

  /** The rounded-up quotient is at most `q` exactly when `x` does not pass `q * d`. */
  lemma CeilingAtMost(x: int, d: int, q: int)
    requires d >= 1
    ensures (x + d - 1) / d <= q <==> x <= q * d
  {
    FloorAtLeast(x + d - 1, d, q + 1);
    assert (q + 1) * d == q * d + d;
  }

  /** The rounded-up range bounds and the rounded-down owner are dual. */
  lemma RoutingDuality(maxParallelism: int, parallelism: int, subtask: int, group: int)
    requires ValidParallelism(maxParallelism, parallelism)
    requires 0 <= subtask < parallelism && 0 <= group < maxParallelism
    ensures AssignKeyGroupRange(maxParallelism, parallelism, subtask).Ok?
    ensures KeyGroupOwner(group, maxParallelism, parallelism).Ok?
    ensures AssignKeyGroupRange(maxParallelism, parallelism, subtask).value.Contains(group)
       <==> KeyGroupOwner(group, maxParallelism, parallelism).value == subtask
  {
    CeilingAtMost(subtask * maxParallelism, parallelism, group);
    CeilingAtMost((subtask + 1) * maxParallelism, parallelism, group);
    FloorAtLeast(group * parallelism, maxParallelism, subtask);
    FloorAtLeast(group * parallelism, maxParallelism, subtask + 1);
  }

  /** Every valid key group has an owner among the subtasks. */
  lemma OwnerInRange(maxParallelism: int, parallelism: int, group: int)
    requires ValidParallelism(maxParallelism, parallelism) && 0 <= group < maxParallelism
    ensures 0 <= OwnerOf(group, maxParallelism, parallelism) < parallelism
  {
    FloorAtLeast(group * parallelism, maxParallelism, 0);
    FloorAtLeast(group * parallelism, maxParallelism, parallelism);
    assert group * parallelism < maxParallelism * parallelism;
  }

  /** The ranges tile `[0, maxParallelism)` in subtask order and none is empty. */
  lemma RangesTile(maxParallelism: int, parallelism: int, subtask: int)
    requires ValidParallelism(maxParallelism, parallelism) && 0 <= subtask < parallelism
    ensures RangeOf(maxParallelism, parallelism, 0).start == 0
    ensures RangeOf(maxParallelism, parallelism, parallelism - 1).end == maxParallelism - 1
    ensures subtask + 1 < parallelism ==>
      RangeOf(maxParallelism, parallelism, subtask).end + 1
      == RangeOf(maxParallelism, parallelism, subtask + 1).start
    ensures var r := RangeOf(maxParallelism, parallelism, subtask);
      0 <= r.start <= r.end < maxParallelism
  {
    CeilingAtMost(0, parallelism, 0);
    CeilingAtMost(0, parallelism, -1);
    CeilingAtMost(parallelism * maxParallelism, parallelism, maxParallelism);
    CeilingAtMost(parallelism * maxParallelism, parallelism, maxParallelism - 1);
    ProductOrder(parallelism, maxParallelism - 1);
    RangeWithinBounds(maxParallelism, parallelism, subtask);
    RangeNonEmpty(maxParallelism, parallelism, subtask);
  }

  lemma ProductOrder(p: int, m: int)
    ensures p > 0 ==> p * (m + 1) > m * p
  {
    assert p * (m + 1) == m * p + p;
  }

  lemma RangeWithinBounds(maxParallelism: int, parallelism: int, subtask: int)
    requires ValidParallelism(maxParallelism, parallelism) && 0 <= subtask < parallelism
    ensures var r := RangeOf(maxParallelism, parallelism, subtask);
      0 <= r.start && r.end < maxParallelism
  {
    CeilingAtMost(subtask * maxParallelism, parallelism, -1);
    CeilingAtMost((subtask + 1) * maxParallelism, parallelism, maxParallelism);
    ScaledBounds(subtask, parallelism, maxParallelism);
  }

  lemma ScaledBounds(i: nat, p: nat, m: nat)
    requires i < p
    ensures 0 <= i * m
    ensures (i + 1) * m <= m * p
  {
    assert m * p - (i + 1) * m == m * (p - (i + 1));
  }

  /** The ceiling moves by at least one group, because no subtask gets less than one group's share. */
  lemma RangeNonEmpty(maxParallelism: int, parallelism: int, subtask: int)
    requires ValidParallelism(maxParallelism, parallelism) && 0 <= subtask < parallelism
    ensures var r := RangeOf(maxParallelism, parallelism, subtask);
      r.start <= r.end
  {
    var r := RangeOf(maxParallelism, parallelism, subtask);
    CeilingAtMost((subtask + 1) * maxParallelism, parallelism, r.start);
    CeilingAtMost(subtask * maxParallelism, parallelism, r.start - 1);
    assert (subtask + 1) * maxParallelism == subtask * maxParallelism + maxParallelism;
    assert (r.start - 1) * parallelism + parallelism == r.start * parallelism;
  }

  /** Any two ranges differ in length by at most one. */
  lemma RangesBalanced(maxParallelism: int, parallelism: int, i: int, j: int)
    requires ValidParallelism(maxParallelism, parallelism)
    requires 0 <= i < parallelism && 0 <= j < parallelism
    ensures RangeOf(maxParallelism, parallelism, i).Length()
         <= RangeOf(maxParallelism, parallelism, j).Length() + 1
  {
    LengthBounds(maxParallelism, parallelism, i);
    LengthBounds(maxParallelism, parallelism, j);
  }

  lemma LengthBounds(maxParallelism: int, parallelism: int, i: int)
    requires ValidParallelism(maxParallelism, parallelism) && 0 <= i < parallelism
    ensures var n := RangeOf(maxParallelism, parallelism, i).Length();
      maxParallelism / parallelism <= n <= maxParallelism / parallelism + 1
  {
    var r := RangeOf(maxParallelism, parallelism, i);
    var low := i * maxParallelism;
    var high := low + maxParallelism;
    assert high == (i + 1) * maxParallelism;
    var q := maxParallelism / parallelism;
    assert q * parallelism <= maxParallelism < (q + 1) * parallelism;
    // start is the least group whose product reaches low; end + 1 likewise for high
    CeilingAtMost(low, parallelism, r.start);
    CeilingAtMost(low, parallelism, r.start - 1);
    CeilingAtMost(high, parallelism, r.start + q + 1);
    CeilingAtMost(high, parallelism, r.start + q - 1);
    assert (r.start + q + 1) * parallelism == r.start * parallelism + (q + 1) * parallelism;
    assert (r.start + q - 1) * parallelism == (r.start - 1) * parallelism + q * parallelism;
  }

  /**
    A group has an owner exactly when it is one of the groups and there are no more subtasks than groups: the
    subtask whose share of the groups, as a fraction of all, the group's position falls into.
   */
  lemma OwnerDefinedIff(group: int, maxParallelism: int, parallelism: int)
    ensures var owner := KeyGroupOwner(group, maxParallelism, parallelism);
      && (owner.Ok? <==> 0 < parallelism && parallelism <= maxParallelism && 0 <= group && group < maxParallelism)
      && (owner.Ok? ==>
            owner.value * maxParallelism <= group * parallelism < (owner.value + 1) * maxParallelism)
  {
    if KeyGroupOwner(group, maxParallelism, parallelism).Ok? {
      var x, q := group * parallelism, (group * parallelism) / maxParallelism;
      assert x == q * maxParallelism + x % maxParallelism;
      assert (q + 1) * maxParallelism == q * maxParallelism + maxParallelism;
    }
  }

  /** A range is assigned exactly to existing subtasks, and begins with the first group not below the share before. */
  lemma RangeDefinedIff(maxParallelism: int, parallelism: int, subtask: int)
    ensures var range := AssignKeyGroupRange(maxParallelism, parallelism, subtask);
      && (range.Ok? <==>
            0 < parallelism && parallelism <= maxParallelism && 0 <= subtask && subtask < parallelism)
      && (range.Ok? ==> var r := range.value;
            && (r.start - 1) * parallelism < subtask * maxParallelism <= r.start * parallelism
            && r.end * parallelism < (subtask + 1) * maxParallelism <= (r.end + 1) * parallelism
            && r.Length() == r.end - r.start + 1)
  {
    hide OwnerOf;
    if AssignKeyGroupRange(maxParallelism, parallelism, subtask).Ok? {
      CeilingBetween(subtask * maxParallelism, parallelism);
      CeilingBetween((subtask + 1) * maxParallelism, parallelism);
    }
  }

  lemma CeilingBetween(x: int, p: int)
    requires p >= 1
    ensures var c := (x + p - 1) / p; (c - 1) * p < x <= c * p
  {
    var c := (x + p - 1) / p;
    assert x + p - 1 == c * p + (x + p - 1) % p;
    assert (c - 1) * p == c * p - p;
  }
}

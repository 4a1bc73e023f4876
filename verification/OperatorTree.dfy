/** The operator tree of the progress view (progress_view.py): a depth-first walk over any graph. */
module OperatorTree {
  import opened IntegerSort
  import opened Sorting

  /** An operator of a snapshot; the object itself is its position in the list. */
  datatype Operator = Operator(opId: int, downstream: seq<int>)

  type Row = (nat, string)

  const LAST_BRANCH := "\U{2514}\U{2500} "
  const BRANCH := "\U{251C}\U{2500} "
  const LAST_SPACE := "   "
  const SPACE := "\U{2502}  "

  /** `{op.op_id: op for op in ops}`: the last operator of an id. */
  function ById(ops: seq<Operator>): (byId: map<int, nat>)
    ensures forall t :: t in byId ==> byId[t] < |ops| && ops[byId[t]].opId == t
    ensures forall i :: 0 <= i < |ops| ==> ops[i].opId in byId
  {
    if ops == [] then map[] else ById(ops[..|ops| - 1])[ops[|ops| - 1].opId := |ops| - 1]
  }

  function Ids(ops: seq<Operator>): set<int> {
    ById(ops).Keys
  }

  function Children(ops: seq<Operator>, i: nat): seq<nat>
    requires i < |ops|
  {
    Known(ById(ops), ops[i].downstream)
  }

  ghost predicate Listed(byId: map<int, nat>, c: nat) {
    exists t :: t in byId && byId[t] == c
  }

  lemma ShowListed(byId: map<int, nat>, t: int)
    requires t in byId
    ensures Listed(byId, byId[t])
  {
  }

  /** The operators that targets name, leaving out unknown ones. */
  function Known(byId: map<int, nat>, targets: seq<int>): (r: seq<nat>)
    ensures forall k :: 0 <= k < |r| ==> Listed(byId, r[k])
  {
    if targets == [] then
      []
    else
      var last := |targets| - 1;
      var before := Known(byId, targets[..last]);
      if targets[last] in byId then
        ShowListed(byId, targets[last]);
        before + [byId[targets[last]]]
      else
        before
  }

  ghost predicate InRange(ops: seq<Operator>, s: seq<nat>) {
    forall k :: 0 <= k < |s| ==> s[k] < |ops|
  }

  lemma ChildrenInRange(ops: seq<Operator>, i: nat)
    requires i < |ops|
    ensures InRange(ops, Children(ops, i))
  {
    var byId, children := ById(ops), Children(ops, i);
    forall k | 0 <= k < |children| ensures children[k] < |ops| {
      assert Listed(byId, children[k]);
    }
  }

  // ---- roots ---------------------------------------------------------------

  predicate IsTarget(ops: seq<Operator>, id: int) {
    exists i :: 0 <= i < |ops| && id in ops[i].downstream
  }

  /** Stable: an equal id goes after the ones already there. */
  function InsertById(ops: seq<Operator>, i: nat, s: seq<nat>): (r: seq<nat>)
    requires i < |ops| && InRange(ops, s)
    ensures InRange(ops, r) && multiset(r) == multiset(s) + multiset{i}
  {
    if s == [] || ops[i].opId < ops[s[0]].opId then
      [i] + s
    else
      assert s == [s[0]] + s[1..];
      [s[0]] + InsertById(ops, i, s[1..])
  }

  /** `_tree_roots`: the operators that nobody targets, by id. */
  function Roots(ops: seq<Operator>): (roots: seq<nat>)
    ensures InRange(ops, roots)
  {
    RootsUpTo(ops, |ops|)
  }

  function RootsUpTo(ops: seq<Operator>, n: nat): (roots: seq<nat>)
    requires n <= |ops|
    ensures InRange(ops, roots)
  {
    if n == 0 then []
    else
      var before := RootsUpTo(ops, n - 1);
      if IsTarget(ops, ops[n - 1].opId) then before else InsertById(ops, n - 1, before)
  }

  /** The roots are exactly the operators that nobody targets, each once. */
  lemma {:induction false} RootsAre(ops: seq<Operator>, n: nat, i: nat)
    requires n <= |ops|
    ensures multiset(RootsUpTo(ops, n))[i] == if i < n && !IsTarget(ops, ops[i].opId) then 1 else 0
  {
    hide IsTarget, InsertById;
    if n > 0 {
      RootsAre(ops, n - 1, i);
    }
  }

  function IdsOf(ops: seq<Operator>, s: seq<nat>): seq<int>
    requires InRange(ops, s)
  {
    seq(|s|, k requires 0 <= k < |s| => ops[s[k]].opId)
  }

  lemma IdsCons(ops: seq<Operator>, x: nat, s: seq<nat>)
    requires x < |ops| && InRange(ops, s)
    ensures InRange(ops, [x] + s) && IdsOf(ops, [x] + s) == [ops[x].opId] + IdsOf(ops, s)
  {
  }

  lemma InsertStep(ops: seq<Operator>, i: nat, s: seq<nat>)
    requires i < |ops| && InRange(ops, s)
    ensures InsertById(ops, i, s)
         == if s == [] || ops[i].opId < ops[s[0]].opId then [i] + s else [s[0]] + InsertById(ops, i, s[1..])
  {
  }

  lemma InsertIntStep(x: int, s: seq<int>)
    ensures InsertInt(x, s) == if s == [] || x < s[0] then [x] + s else [s[0]] + InsertInt(x, s[1..])
  {
  }

  lemma {:induction false} InsertedIds(ops: seq<Operator>, i: nat, s: seq<nat>)
    requires i < |ops| && InRange(ops, s)
    ensures IdsOf(ops, InsertById(ops, i, s)) == InsertInt(ops[i].opId, IdsOf(ops, s))
  {
    hide InsertById, InsertInt, IdsOf;
    InsertStep(ops, i, s);
    InsertIntStep(ops[i].opId, IdsOf(ops, s));
    IdsCons(ops, i, s);
    if s == [] {
      assert IdsOf(ops, s) == [] by { NoIds(ops); }
    } else {
      IdsCons(ops, s[0], s[1..]);
      assert s == [s[0]] + s[1..];
      assert IdsOf(ops, s)[1..] == IdsOf(ops, s[1..]);
      InsertedIds(ops, i, s[1..]);
      IdsCons(ops, s[0], InsertById(ops, i, s[1..]));
    }
  }

  /** The roots come in the order of their ids. */
  lemma {:induction false} RootsAscend(ops: seq<Operator>, n: nat)
    requires n <= |ops|
    ensures Nondecreasing(IdsOf(ops, RootsUpTo(ops, n)))
  {
    hide IsTarget, InsertById, IdsOf, Nondecreasing, InsertInt;
    if n == 0 {
      NoIds(ops);
    } else {
      RootsAscend(ops, n - 1);
      InsertedIds(ops, n - 1, RootsUpTo(ops, n - 1));
      InsertSorted(ops[n - 1].opId, IdsOf(ops, RootsUpTo(ops, n - 1)));
    }
  }

  lemma NoIds(ops: seq<Operator>)
    ensures IdsOf(ops, []) == [] && Nondecreasing(IdsOf(ops, []))
  {
  }

  // ---- the walk, as a list of visits still to make -------------------------

  datatype Visit = Visit(operator: nat, prefix: string, isLast: bool, isRoot: bool)

  function RowOf(v: Visit): Row {
    (v.operator, if v.isRoot then "" else v.prefix + if v.isLast then LAST_BRANCH else BRANCH)
  }

  function ChildPrefix(v: Visit): string {
    if v.isRoot then "" else v.prefix + if v.isLast then LAST_SPACE else SPACE
  }

  /** The visits of the children of `v`, in order; the last one is marked. */
  function ChildVisits(children: seq<nat>, prefix: string): seq<Visit> {
    seq(|children|, i requires 0 <= i < |children| => Visit(children[i], prefix, i == |children| - 1, false))
  }

  ghost predicate Inside(ops: seq<Operator>, work: seq<Visit>) {
    forall v :: v in work ==> v.operator < |ops|
  }

  lemma ChildrenInside(ops: seq<Operator>, i: nat, prefix: string)
    requires i < |ops|
    ensures Inside(ops, ChildVisits(Children(ops, i), prefix))
  {
    var visits := ChildVisits(Children(ops, i), prefix);
    ChildrenInRange(ops, i);
    forall v | v in visits ensures v.operator < |ops| {
      var k :| 0 <= k < |visits| && visits[k] == v;
    }
  }

  /**
    Preorder: make the first visit, then those of its children, then the rest. An
    operator id is entered only once, so the walk ends on every graph.
   */
  ghost function Walk(ops: seq<Operator>, work: seq<Visit>, rows: seq<Row>, seen: set<int>): (seq<Row>, set<int>)
    requires Inside(ops, work)
    decreases |Ids(ops) - seen|, |work|
  {
    if work == [] then
      (rows, seen)
    else
      var v := work[0];
      var id := ops[v.operator].opId;
      if id in seen then
        Walk(ops, work[1..], rows, seen)
      else
        ChildrenInside(ops, v.operator, ChildPrefix(v));
        FewerUnseen(ops, v.operator, seen);
        Walk(ops, ChildVisits(Children(ops, v.operator), ChildPrefix(v)) + work[1..], rows + [RowOf(v)], seen + {id})
  }

  lemma FewerUnseen(ops: seq<Operator>, i: nat, seen: set<int>)
    requires i < |ops| && ops[i].opId !in seen
    ensures |Ids(ops) - (seen + {ops[i].opId})| < |Ids(ops) - seen|
  {
    assert Ids(ops) - seen == (Ids(ops) - (seen + {ops[i].opId})) + {ops[i].opId};
  }

  lemma MoreSeen(ops: seq<Operator>, a: set<int>, b: set<int>)
    requires a <= b
    ensures |Ids(ops) - b| <= |Ids(ops) - a|
  {
    assert Ids(ops) - a == (Ids(ops) - b) + ((b - a) * Ids(ops));
  }

  /** Whatever comes after it, making the visits in `work` leads to `rowsAfter` and `seenAfter`. */
  ghost predicate Does(
      ops: seq<Operator>, work: seq<Visit>, rows: seq<Row>, seen: set<int>, rowsAfter: seq<Row>, seenAfter: set<int>)
  {
    Inside(ops, work) && forall rest :: Continues(ops, work, rest, rows, seen, rowsAfter, seenAfter)
  }

  ghost predicate Continues(
      ops: seq<Operator>, work: seq<Visit>, rest: seq<Visit>,
      rows: seq<Row>, seen: set<int>, rowsAfter: seq<Row>, seenAfter: set<int>)
    requires Inside(ops, work)
  {
    Inside(ops, rest) ==> Walk(ops, work + rest, rows, seen) == Walk(ops, rest, rowsAfter, seenAfter)
  }

  lemma DoesNothing(ops: seq<Operator>, rows: seq<Row>, seen: set<int>)
    ensures Does(ops, [], rows, seen, rows, seen)
  {
    hide Walk, Inside;
    assert Inside(ops, []) by { EmptyInside(ops); }
    forall rest ensures Continues(ops, [], rest, rows, seen, rows, seen) {
      assert [] + rest == rest;
    }
  }

  lemma EmptyInside(ops: seq<Operator>)
    ensures Inside(ops, [])
  {
  }

  lemma DoesThen(
      ops: seq<Operator>, a: seq<Visit>, b: seq<Visit>, rows0: seq<Row>, seen0: set<int>,
      rows1: seq<Row>, seen1: set<int>, rows2: seq<Row>, seen2: set<int>)
    requires Does(ops, a, rows0, seen0, rows1, seen1) && Does(ops, b, rows1, seen1, rows2, seen2)
    ensures Does(ops, a + b, rows0, seen0, rows2, seen2)
  {
    hide Walk;
    forall rest ensures Continues(ops, a + b, rest, rows0, seen0, rows2, seen2) {
      assert Continues(ops, a, b + rest, rows0, seen0, rows1, seen1);
      assert Continues(ops, b, rest, rows1, seen1, rows2, seen2);
      assert (a + b) + rest == a + (b + rest);
    }
  }

  lemma DoesSkip(ops: seq<Operator>, v: Visit, rows: seq<Row>, seen: set<int>)
    requires v.operator < |ops| && ops[v.operator].opId in seen
    ensures Does(ops, [v], rows, seen, rows, seen)
  {
    forall rest ensures Continues(ops, [v], rest, rows, seen, rows, seen) {
      assert ([v] + rest)[1..] == rest;
    }
  }

  lemma DoesEnter(
      ops: seq<Operator>, v: Visit, rows: seq<Row>, seen: set<int>, rowsAfter: seq<Row>, seenAfter: set<int>)
    requires v.operator < |ops| && ops[v.operator].opId !in seen
    requires Does(ops, ChildVisits(Children(ops, v.operator), ChildPrefix(v)),
      rows + [RowOf(v)], seen + {ops[v.operator].opId}, rowsAfter, seenAfter)
    ensures Does(ops, [v], rows, seen, rowsAfter, seenAfter)
  {
    hide Children;
    var visits := ChildVisits(Children(ops, v.operator), ChildPrefix(v));
    var rows1, seen1 := rows + [RowOf(v)], seen + {ops[v.operator].opId};
    forall rest ensures Continues(ops, [v], rest, rows, seen, rowsAfter, seenAfter) {
      assert ([v] + rest)[1..] == rest;
      assert Continues(ops, visits, rest, rows1, seen1, rowsAfter, seenAfter);
    }
  }

  /** `_append_tree_rows`: the recursion makes the visit of an operator and of everything below it. */
  method AppendTreeRows(ops: seq<Operator>, byId: map<int, nat>, v: Visit, rows: seq<Row>, seen: set<int>)
    returns (rowsAfter: seq<Row>, seenAfter: set<int>)
    requires byId == ById(ops) && v.operator < |ops|
    ensures seen <= seenAfter && Does(ops, [v], rows, seen, rowsAfter, seenAfter)
    decreases |Ids(ops) - seen|
  {
    hide Does, Known, ChildVisits, RowOf, ChildPrefix, Ids;
    var id := ops[v.operator].opId;
    if id in seen {
      DoesSkip(ops, v, rows, seen);
      return rows, seen;
    }
    seenAfter := seen + {id};
    rowsAfter := rows + [RowOf(v)];
    FewerUnseen(ops, v.operator, seen);
    var children := Known(byId, ops[v.operator].downstream);
    ghost var visits := ChildVisits(children, ChildPrefix(v));
    ghost var rows1, seen1 := rowsAfter, seenAfter;
    ChildrenInRange(ops, v.operator);
    ChildVisitsAt(children, ChildPrefix(v));
    DoesNothing(ops, rows1, seen1);
    var index := 0;
    assert visits[..0] == [];
    while index < |children|
      invariant 0 <= index <= |children| && seen1 <= seenAfter
      invariant Does(ops, visits[..index], rows1, seen1, rowsAfter, seenAfter)
    {
      MoreSeen(ops, seen1, seenAfter);
      ghost var before, seenBefore := rowsAfter, seenAfter;
      rowsAfter, seenAfter := AppendTreeRows(
        ops, byId, Visit(children[index], ChildPrefix(v), index == |children| - 1, false), rowsAfter, seenAfter);
      DoesThen(ops, visits[..index], [visits[index]], rows1, seen1, before, seenBefore, rowsAfter, seenAfter);
      assert visits[..index + 1] == visits[..index] + [visits[index]];
      index := index + 1;
    }
    assert visits[..index] == visits;
    DoesEnter(ops, v, rows, seen, rowsAfter, seenAfter);
  }

  lemma ChildVisitsAt(children: seq<nat>, prefix: string)
    ensures |ChildVisits(children, prefix)| == |children|
    ensures forall i :: 0 <= i < |children| ==>
      ChildVisits(children, prefix)[i] == Visit(children[i], prefix, i == |children| - 1, false)
  {
  }

  function RootVisits(roots: seq<nat>): seq<Visit> {
    seq(|roots|, i requires 0 <= i < |roots| => Visit(roots[i], "", i == |roots| - 1, true))
  }

  ghost function TreeRows(ops: seq<Operator>): seq<Row> {
    RootsInside(ops);
    Walk(ops, RootVisits(Roots(ops)), [], {}).0
  }

  lemma RootsInside(ops: seq<Operator>)
    ensures Inside(ops, RootVisits(Roots(ops)))
  {
    var roots := Roots(ops);
    forall v | v in RootVisits(roots) ensures v.operator < |ops| {
      var k :| 0 <= k < |roots| && RootVisits(roots)[k] == v;
    }
  }

  predicate Emitted(rows: seq<Row>, i: nat) {
    exists k :: 0 <= k < |rows| && rows[k].0 == i
  }

  /** The operators from `i` on that have no row yet, in list order. */
  function Unreached(ops: seq<Operator>, rows: seq<Row>, i: nat): seq<Row>
    requires i <= |ops|
    decreases |ops| - i
  {
    if i == |ops| then []
    else if Emitted(rows, i) then Unreached(ops, rows, i + 1)
    else [(i, "")] + Unreached(ops, rows, i + 1)
  }

  /** `_tree_order`. */
  method TreeOrder(ops: seq<Operator>) returns (rows: seq<Row>)
    ensures rows == TreeRows(ops) + Unreached(ops, TreeRows(ops), 0)
  {
    hide Walk, Does, Inside;
    var byId := ById(ops);
    var roots := Roots(ops);
    ghost var visits := RootVisits(roots);
    RootsInside(ops);
    rows := [];
    var seen: set<int> := {};
    var index := 0;
    DoesNothing(ops, rows, seen);
    assert visits[..0] == [];
    while index < |roots|
      invariant 0 <= index <= |roots|
      invariant Does(ops, visits[..index], [], {}, rows, seen)
    {
      ghost var before, seenBefore := rows, seen;
      rows, seen := AppendTreeRows(ops, byId, Visit(roots[index], "", index == |roots| - 1, true), rows, seen);
      DoesThen(ops, visits[..index], [visits[index]], [], {}, before, seenBefore, rows, seen);
      assert visits[..index + 1] == visits[..index] + [visits[index]];
      index := index + 1;
    }
    assert visits[..index] == visits;
    DoesAll(ops, visits, [], {}, rows, seen);
    rows := rows + Unreached(ops, rows, 0);
  }

  lemma DoesAll(
      ops: seq<Operator>, work: seq<Visit>, rows: seq<Row>, seen: set<int>, rowsAfter: seq<Row>, seenAfter: set<int>)
    requires Does(ops, work, rows, seen, rowsAfter, seenAfter)
    ensures Inside(ops, work) && Walk(ops, work, rows, seen) == (rowsAfter, seenAfter)
  {
    EmptyInside(ops);
    assert Continues(ops, work, [], rows, seen, rowsAfter, seenAfter);
    assert work + [] == work;
    WalkDone(ops, rowsAfter, seenAfter);
  }

  lemma WalkDone(ops: seq<Operator>, rows: seq<Row>, seen: set<int>)
    ensures Walk(ops, [], rows, seen) == (rows, seen)
  {
  }

  // ---- what the walk visits ------------------------------------------------

  ghost predicate RowsValid(ops: seq<Operator>, rows: seq<Row>, seen: set<int>) {
    && (forall k :: 0 <= k < |rows| ==> rows[k].0 < |ops|)
    && (forall j, k :: 0 <= j < k < |rows| ==> ops[rows[j].0].opId != ops[rows[k].0].opId)
    && (forall k :: 0 <= k < |rows| ==> ops[rows[k].0].opId in seen)
  }

  /** Ids are entered once, so operators have at most one row. */
  lemma {:induction false} WalkDistinct(ops: seq<Operator>, work: seq<Visit>, rows: seq<Row>, seen: set<int>)
    requires Inside(ops, work) && RowsValid(ops, rows, seen)
    ensures RowsValid(ops, Walk(ops, work, rows, seen).0, Walk(ops, work, rows, seen).1)
    decreases |Ids(ops) - seen|, |work|
  {
    hide Children, Ids;
    if work != [] {
      var v := work[0];
      if ops[v.operator].opId in seen {
        WalkDistinct(ops, work[1..], rows, seen);
      } else {
        ChildrenInside(ops, v.operator, ChildPrefix(v));
        FewerUnseen(ops, v.operator, seen);
        WalkDistinct(ops, ChildVisits(Children(ops, v.operator), ChildPrefix(v)) + work[1..],
          rows + [RowOf(v)], seen + {ops[v.operator].opId});
      }
    }
  }

  /** A property of operators that holds for everything to visit and passes to children holds for all rows. */
  ghost predicate AllRows(rows: seq<Row>, p: nat -> bool) {
    forall k :: 0 <= k < |rows| ==> p(rows[k].0)
  }

  ghost predicate AllVisits(work: seq<Visit>, p: nat -> bool) {
    forall v :: v in work ==> p(v.operator)
  }

  ghost predicate PassesDown(ops: seq<Operator>, p: nat -> bool) {
    forall i, c :: 0 <= i < |ops| && p(i) && c in Children(ops, i) ==> p(c)
  }

  lemma ChildVisitsAre(ops: seq<Operator>, i: nat, prefix: string, p: nat -> bool)
    requires i < |ops| && p(i) && PassesDown(ops, p)
    ensures AllVisits(ChildVisits(Children(ops, i), prefix), p)
  {
    var visits := ChildVisits(Children(ops, i), prefix);
    forall v | v in visits ensures p(v.operator) {
      var k :| 0 <= k < |visits| && visits[k] == v;
      assert Children(ops, i)[k] in Children(ops, i);
    }
  }

  lemma {:induction false} WalkStaysWithin(
      ops: seq<Operator>, work: seq<Visit>, rows: seq<Row>, seen: set<int>, p: nat -> bool)
    requires Inside(ops, work) && PassesDown(ops, p) && AllVisits(work, p) && AllRows(rows, p)
    ensures AllRows(Walk(ops, work, rows, seen).0, p)
    decreases |Ids(ops) - seen|, |work|
  {
    hide Children, Ids, PassesDown;
    if work != [] {
      var v := work[0];
      if ops[v.operator].opId in seen {
        WalkStaysWithin(ops, work[1..], rows, seen, p);
      } else {
        ChildrenInside(ops, v.operator, ChildPrefix(v));
        ChildVisitsAre(ops, v.operator, ChildPrefix(v), p);
        FewerUnseen(ops, v.operator, seen);
        WalkStaysWithin(ops, ChildVisits(Children(ops, v.operator), ChildPrefix(v)) + work[1..],
          rows + [RowOf(v)], seen + {ops[v.operator].opId}, p);
      }
    }
  }

  /** Children of a row have been entered or are still to be visited. */
  ghost predicate Pending(ops: seq<Operator>, rows: seq<Row>, seen: set<int>, work: seq<Visit>) {
    && (forall k :: 0 <= k < |rows| ==> rows[k].0 < |ops|)
    && (forall k, c :: 0 <= k < |rows| && c in Children(ops, rows[k].0) ==> Entered(ops, c, seen) || ToVisit(work, c))
    && (forall id :: id in seen ==> HasRow(ops, rows, id))
  }

  ghost predicate Entered(ops: seq<Operator>, c: nat, seen: set<int>) {
    c < |ops| && ops[c].opId in seen
  }

  ghost predicate ToVisit(work: seq<Visit>, c: nat) {
    exists v :: v in work && v.operator == c
  }

  ghost predicate HasRow(ops: seq<Operator>, rows: seq<Row>, id: int) {
    exists k :: 0 <= k < |rows| && rows[k].0 < |ops| && ops[rows[k].0].opId == id
  }

  lemma EnterKeepsPending(ops: seq<Operator>, rows: seq<Row>, seen: set<int>, work: seq<Visit>)
    requires work != [] && Inside(ops, work) && Pending(ops, rows, seen, work)
    ensures var v := work[0]; var visits := ChildVisits(Children(ops, v.operator), ChildPrefix(v));
      Pending(ops, rows + [RowOf(v)], seen + {ops[v.operator].opId}, visits + work[1..])
  {
    hide Children;
    var v := work[0];
    var children := Children(ops, v.operator);
    var visits := ChildVisits(children, ChildPrefix(v));
    var rowsAfter, seenAfter, workAfter := rows + [RowOf(v)], seen + {ops[v.operator].opId}, visits + work[1..];
    forall k, c | 0 <= k < |rowsAfter| && c in Children(ops, rowsAfter[k].0)
      ensures Entered(ops, c, seenAfter) || ToVisit(workAfter, c)
    {
      if k < |rows| {
        if !Entered(ops, c, seen) {
          assert ToVisit(work, c);
          var u :| u in work && u.operator == c;
          if u != v {
            assert u in work[1..];
            assert u in workAfter;
          }
        }
      } else {
        var j :| 0 <= j < |children| && children[j] == c;
        assert visits[j].operator == c && visits[j] in workAfter;
      }
    }
    forall id | id in seenAfter ensures HasRow(ops, rowsAfter, id) {
      if id in seen {
        var k :| 0 <= k < |rows| && rows[k].0 < |ops| && ops[rows[k].0].opId == id;
        assert rowsAfter[k].0 == rows[k].0;
      } else {
        assert rowsAfter[|rows|].0 == v.operator;
      }
    }
  }

  lemma SkipKeepsPending(ops: seq<Operator>, rows: seq<Row>, seen: set<int>, work: seq<Visit>)
    requires work != [] && Inside(ops, work) && Pending(ops, rows, seen, work) && ops[work[0].operator].opId in seen
    ensures Pending(ops, rows, seen, work[1..])
  {
    hide Children, HasRow;
    forall k, c | 0 <= k < |rows| && c in Children(ops, rows[k].0)
      ensures Entered(ops, c, seen) || ToVisit(work[1..], c)
    {
      if !Entered(ops, c, seen) {
        assert ToVisit(work, c);
        var u :| u in work && u.operator == c;
        assert u in work[1..];
      }
    }
  }

  /** Everything to visit is entered, and the entered ids are closed under children. */
  lemma {:induction false} WalkCloses(ops: seq<Operator>, work: seq<Visit>, rows: seq<Row>, seen: set<int>)
    requires Inside(ops, work) && Pending(ops, rows, seen, work)
    ensures var (r, s) := Walk(ops, work, rows, seen);
      seen <= s && Pending(ops, r, s, []) && forall v :: v in work ==> ops[v.operator].opId in s
    decreases |Ids(ops) - seen|, |work|
  {
    hide Children, Ids, Pending;
    if work != [] {
      var v := work[0];
      assert work == [v] + work[1..];
      if ops[v.operator].opId in seen {
        SkipKeepsPending(ops, rows, seen, work);
        WalkCloses(ops, work[1..], rows, seen);
      } else {
        ChildrenInside(ops, v.operator, ChildPrefix(v));
        EnterKeepsPending(ops, rows, seen, work);
        FewerUnseen(ops, v.operator, seen);
        WalkCloses(ops, ChildVisits(Children(ops, v.operator), ChildPrefix(v)) + work[1..],
          rows + [RowOf(v)], seen + {ops[v.operator].opId});
      }
    }
  }

  // ---- reachability --------------------------------------------------------

  /** Each operator of the path but the first is a child of the one before it. */
  ghost predicate IsPath(ops: seq<Operator>, path: seq<nat>) {
    && path != [] && (forall k :: 0 <= k < |path| ==> path[k] < |ops|)
    && forall k :: 0 < k < |path| ==> path[k] in Children(ops, path[k - 1])
  }

  ghost predicate Leads(ops: seq<Operator>, path: seq<nat>, i: nat) {
    IsPath(ops, path) && path[0] in Roots(ops) && path[|path| - 1] == i
  }

  ghost predicate Reachable(ops: seq<Operator>, i: nat) {
    exists path :: Leads(ops, path, i)
  }

  lemma ReachablePassesDown(ops: seq<Operator>, i: nat, c: nat)
    requires i < |ops| && Reachable(ops, i) && c in Children(ops, i)
    ensures Reachable(ops, c)
  {
    hide Children, Roots;
    var path :| Leads(ops, path, i);
    ChildInside(ops, i, c);
    assert Leads(ops, path + [c], c);
  }

  lemma ChildInside(ops: seq<Operator>, i: nat, c: nat)
    requires i < |ops| && c in Children(ops, i)
    ensures c < |ops|
  {
    ChildrenInRange(ops, i);
  }

  ghost predicate DistinctIds(ops: seq<Operator>) {
    forall i, j :: 0 <= i < j < |ops| ==> ops[i].opId != ops[j].opId
  }

  /** With distinct ids, an entered id means that very operator has a row. */
  lemma EnteredIsEmitted(ops: seq<Operator>, rows: seq<Row>, seen: set<int>, i: nat)
    requires DistinctIds(ops) && Pending(ops, rows, seen, []) && Entered(ops, i, seen)
    ensures Emitted(rows, i)
  {
    hide Children;
    assert HasRow(ops, rows, ops[i].opId);
    var k :| 0 <= k < |rows| && rows[k].0 < |ops| && ops[rows[k].0].opId == ops[i].opId;
    assert rows[k].0 == i;
  }

  lemma {:induction false} PathEmitted(ops: seq<Operator>, rows: seq<Row>, seen: set<int>, path: seq<nat>)
    requires DistinctIds(ops) && Pending(ops, rows, seen, []) && IsPath(ops, path) && Entered(ops, path[0], seen)
    ensures Emitted(rows, path[|path| - 1])
  {
    hide Children;
    var last := |path| - 1;
    if last == 0 {
      EnteredIsEmitted(ops, rows, seen, path[0]);
    } else {
      PathEmitted(ops, rows, seen, path[..last]);
      var k :| 0 <= k < |rows| && rows[k].0 == path[last - 1];
      assert path[last] in Children(ops, rows[k].0);
      assert !ToVisit([], path[last]);
      EnteredIsEmitted(ops, rows, seen, path[last]);
    }
  }

  /** On every graph with distinct ids, the depth-first rows are exactly the operators reachable from the roots. */
  lemma RowsAreReachable(ops: seq<Operator>, i: nat)
    requires DistinctIds(ops)
    ensures Emitted(TreeRows(ops), i) <==> Reachable(ops, i)
  {
    hide Walk, Roots, Children, Ids;
    var roots := Roots(ops);
    var visits := RootVisits(roots);
    RootsInside(ops);
    var (rows, seen) := Walk(ops, visits, [], {});
    WalkCloses(ops, visits, [], {});
    if Reachable(ops, i) {
      var path :| Leads(ops, path, i);
      var k :| 0 <= k < |roots| && roots[k] == path[0];
      assert visits[k] in visits && visits[k].operator == path[0];
      PathEmitted(ops, rows, seen, path);
    }
    var p := (j: nat) => Reachable(ops, j);
    forall j, c | 0 <= j < |ops| && p(j) && c in Children(ops, j) ensures p(c) {
      ReachablePassesDown(ops, j, c);
    }
    forall v | v in visits ensures p(v.operator) {
      var k :| 0 <= k < |visits| && visits[k] == v;
      RootReachable(ops, k);
    }
    WalkStaysWithin(ops, visits, [], {}, p);
  }

  lemma RootReachable(ops: seq<Operator>, k: nat)
    requires k < |Roots(ops)|
    ensures Reachable(ops, Roots(ops)[k])
  {
    var r := Roots(ops)[k];
    assert r in Roots(ops);
    assert Leads(ops, [r], r);
  }

  // ---- the whole result ----------------------------------------------------

  function Positions(rows: seq<Row>): seq<nat> {
    seq(|rows|, k requires 0 <= k < |rows| => rows[k].0)
  }

  lemma {:induction false} UnreachedAre(ops: seq<Operator>, rows: seq<Row>, i: nat)
    requires i <= |ops|
    ensures forall j: nat :: j in Positions(Unreached(ops, rows, i)) <==> i <= j < |ops| && !Emitted(rows, j)
    ensures forall k :: 0 < k < |Unreached(ops, rows, i)| ==>
      Unreached(ops, rows, i)[k - 1].0 < Unreached(ops, rows, i)[k].0
    decreases |ops| - i
  {
    hide Emitted;
    if i < |ops| {
      UnreachedAre(ops, rows, i + 1);
      var rest := Unreached(ops, rows, i + 1);
      if !Emitted(rows, i) {
        assert Positions(Unreached(ops, rows, i)) == [i] + Positions(rest);
        if rest != [] {
          assert Positions(rest)[0] in Positions(rest);
        }
      }
    }
  }

  lemma {:induction false} StrictlyAscending(s: seq<nat>, i: nat, j: nat)
    requires (forall k :: 0 < k < |s| ==> s[k - 1] < s[k]) && i < j < |s|
    ensures s[i] < s[j]
  {
    if i + 1 < j {
      StrictlyAscending(s, i, j - 1);
    }
  }

  lemma DistinctPositions(ops: seq<Operator>, rows: seq<Row>, seen: set<int>)
    requires RowsValid(ops, rows, seen)
    ensures NoDuplicates(Positions(rows)) && forall i: nat :: i in Positions(rows) ==> i < |ops|
  {
    forall i: nat | i in Positions(rows) ensures i < |ops| {
      var k :| 0 <= k < |rows| && Positions(rows)[k] == i;
      assert rows[k].0 == i;
    }
  }

  lemma AscendingDistinct(rows: seq<Row>)
    requires forall k :: 0 < k < |rows| ==> rows[k - 1].0 < rows[k].0
    ensures NoDuplicates(Positions(rows))
  {
    var s := Positions(rows);
    forall i, j | 0 <= i < j < |s| ensures s[i] != s[j] { StrictlyAscending(s, i, j); }
  }

  lemma ConcatDistinct(a: seq<nat>, b: seq<nat>)
    requires NoDuplicates(a) && NoDuplicates(b) && forall i: nat :: i in a ==> i !in b
    ensures NoDuplicates(a + b)
  {
    forall i, j | 0 <= i < |a| && 0 <= j < |b| ensures a[i] != b[j] {
      assert a[i] in a && b[j] in b;
    }
  }

  /** On every graph, cyclic or malformed, the result lists every operator exactly once. */
  lemma ResultIsPermutation(ops: seq<Operator>)
    ensures var all := Positions(TreeRows(ops) + Unreached(ops, TreeRows(ops), 0));
      NoDuplicates(all) && forall i: nat :: i in all <==> i < |ops|
  {
    hide Walk, Roots, Children, Ids, Unreached, Positions, Emitted, NoDuplicates, RowsValid, RootVisits;
    RootsInside(ops);
    assert RowsValid(ops, [], {}) by { NoRows(ops); }
    WalkDistinct(ops, RootVisits(Roots(ops)), [], {});
    var rows := TreeRows(ops);
    var rest := Unreached(ops, rows, 0);
    DistinctPositions(ops, rows, Walk(ops, RootVisits(Roots(ops)), [], {}).1);
    UnreachedAre(ops, rows, 0);
    AscendingDistinct(rest);
    forall i: nat ensures i in Positions(rows) <==> Emitted(rows, i) { EmittedAt(rows, i); }
    ConcatDistinct(Positions(rows), Positions(rest));
    assert Positions(rows + rest) == Positions(rows) + Positions(rest) by { PositionsConcat(rows, rest); }
  }

  lemma NoRows(ops: seq<Operator>)
    ensures RowsValid(ops, [], {})
  {
  }

  lemma PositionsConcat(a: seq<Row>, b: seq<Row>)
    ensures Positions(a + b) == Positions(a) + Positions(b)
  {
  }

  lemma EmittedAt(rows: seq<Row>, i: nat)
    ensures i in Positions(rows) <==> Emitted(rows, i)
  {
    if Emitted(rows, i) {
      var k :| 0 <= k < |rows| && rows[k].0 == i;
      assert Positions(rows)[k] == i;
    }
  }
}

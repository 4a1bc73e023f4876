/** The prefix of a row in the operator tree, told by the positions on its path from a root. */
module TreePrefixes {
  import opened OperatorTree

  // ---- roots and children --------------------------------------------------

  /** A root is an operator whose id no operator has among its targets. */
  lemma RootIff(ops: seq<Operator>, i: nat)
    ensures i in Roots(ops) <==>
      i < |ops| && forall j, k :: 0 <= j < |ops| && 0 <= k < |ops[j].downstream| ==> ops[j].downstream[k] != ops[i].opId
    ensures multiset(Roots(ops))[i] <= 1
  {
    RootsAre(ops, |ops|, i);
    assert i in Roots(ops) <==> multiset(Roots(ops))[i] > 0;
    if i < |ops| {
      TargetIff(ops, ops[i].opId);
    }
  }

  lemma TargetIff(ops: seq<Operator>, id: int)
    ensures IsTarget(ops, id) <==>
      !(forall j, k :: 0 <= j < |ops| && 0 <= k < |ops[j].downstream| ==> ops[j].downstream[k] != id)
  {
    if IsTarget(ops, id) {
      var j :| 0 <= j < |ops| && id in ops[j].downstream;
      var k :| 0 <= k < |ops[j].downstream| && ops[j].downstream[k] == id;
    }
  }

  /** An id stands for the last operator that has it. */
  lemma {:induction false} LastOfId(ops: seq<Operator>, id: int)
    ensures id in ById(ops) <==> exists i :: 0 <= i < |ops| && ops[i].opId == id
    ensures id in ById(ops) ==> forall i :: ById(ops)[id] < i < |ops| ==> ops[i].opId != id
  {
    if ops != [] {
      LastOfId(ops[..|ops| - 1], id);
    }
  }

  /** Children are the known ones among the targets, in the order of the targets. */
  lemma {:induction false} KnownInOrder(byId: map<int, nat>, a: seq<int>, b: seq<int>)
    ensures Known(byId, a + b) == Known(byId, a) + Known(byId, b)
  {
    if b == [] {
      assert a + b == a;
    } else {
      assert (a + b)[..|a + b| - 1] == a + b[..|b| - 1];
      KnownInOrder(byId, a, b[..|b| - 1]);
      LastKnown(byId, a + b);
      LastKnown(byId, b);
    }
  }

  lemma LastKnown(byId: map<int, nat>, s: seq<int>)
    requires s != []
    ensures Known(byId, s) == Known(byId, s[..|s| - 1]) + OneKnown(byId, s[|s| - 1])
  {
  }

  function OneKnown(byId: map<int, nat>, target: int): seq<nat> {
    if target in byId then [byId[target]] else []
  }

  lemma KnownOne(byId: map<int, nat>, target: int)
    ensures Known(byId, [target]) == if target in byId then [byId[target]] else []
  {
    assert [target][..0] == [];
  }

  // ---- prefixes ------------------------------------------------------------

  /**
    A way down from a root: at each step `picks[k]` is the position of the next operator among
    the children of the one before.
   */
  ghost predicate IsDescent(ops: seq<Operator>, path: seq<nat>, picks: seq<nat>) {
    && |path| == |picks| + 1 && path[0] in Roots(ops)
    && (forall k :: 0 <= k < |path| ==> path[k] < |ops|)
    && (forall k :: 0 <= k < |picks| ==> PickedAt(ops, path[k], picks[k], path[k + 1]))
  }

  ghost predicate PickedAt(ops: seq<Operator>, parent: nat, pick: nat, child: nat) {
    parent < |ops| && pick < |Children(ops, parent)| && Children(ops, parent)[pick] == child
  }

  ghost predicate PicksLast(ops: seq<Operator>, parent: nat, pick: nat) {
    parent < |ops| && pick + 1 == |Children(ops, parent)|
  }

  /** One column for each step: blank below a last child and a line below any other. */
  ghost function Columns(ops: seq<Operator>, path: seq<nat>, picks: seq<nat>): string
    requires |path| >= |picks|
  {
    if picks == [] then ""
    else
      var last := |picks| - 1;
      Columns(ops, path, picks[..last])
      + if PicksLast(ops, path[last], picks[last]) then "   " else "\U{2502}  "
  }

  /** The prefix of the operator that a descent ends at: nothing for a root, else columns and a branch. */
  ghost function PrefixOf(ops: seq<Operator>, path: seq<nat>, picks: seq<nat>): string
    requires |path| >= |picks|
  {
    if picks == [] then ""
    else
      var last := |picks| - 1;
      Columns(ops, path, picks[..last])
      + if PicksLast(ops, path[last], picks[last]) then "\U{2514}\U{2500} " else "\U{251C}\U{2500} "
  }

  /** A visit carries what its descent says. */
  ghost predicate Follows(ops: seq<Operator>, v: Visit, path: seq<nat>, picks: seq<nat>) {
    && IsDescent(ops, path, picks) && path[|picks|] == v.operator && (v.isRoot <==> picks == [])
    && (!v.isRoot ==>
          && v.prefix == Columns(ops, path, picks[..|picks| - 1])
          && (v.isLast <==> PicksLast(ops, path[|picks| - 1], picks[|picks| - 1])))
  }

  ghost predicate Explained(ops: seq<Operator>, v: Visit) {
    exists path: seq<nat>, picks: seq<nat> :: Follows(ops, v, path, picks)
  }

  /** The row is the operator at the end of a descent, with the descent's prefix. */
  ghost predicate Descends(ops: seq<Operator>, row: Row, path: seq<nat>, picks: seq<nat>) {
    IsDescent(ops, path, picks) && row.0 == path[|picks|] && row.1 == PrefixOf(ops, path, picks)
  }

  ghost predicate RowExplained(ops: seq<Operator>, row: Row) {
    exists path: seq<nat>, picks: seq<nat> :: Descends(ops, row, path, picks)
  }

  ghost predicate RowsExplained(ops: seq<Operator>, rows: seq<Row>) {
    forall k :: 0 <= k < |rows| ==> RowExplained(ops, rows[k])
  }

  ghost predicate WorkExplained(ops: seq<Operator>, work: seq<Visit>) {
    forall k :: 0 <= k < |work| ==> Explained(ops, work[k])
  }

  lemma RowOfExplained(ops: seq<Operator>, v: Visit)
    requires Explained(ops, v)
    ensures RowExplained(ops, RowOf(v))
  {
    hide IsDescent, PicksLast, Columns;
    var path: seq<nat>, picks: seq<nat> :| Follows(ops, v, path, picks);
    assert IsDescent(ops, path, picks) ==> |path| == |picks| + 1 by { DescentLength(ops, path, picks); }
    assert Descends(ops, RowOf(v), path, picks);
  }

  lemma DescentLength(ops: seq<Operator>, path: seq<nat>, picks: seq<nat>)
    ensures IsDescent(ops, path, picks) ==> |path| == |picks| + 1 && path[|picks|] < |ops|
  {
  }

  lemma Deeper(ops: seq<Operator>, path: seq<nat>, picks: seq<nat>, j: nat)
    requires IsDescent(ops, path, picks) && j < |Children(ops, path[|picks|])|
    ensures IsDescent(ops, path + [Children(ops, path[|picks|])[j]], picks + [j])
  {
    hide Children, Roots, PickedAt;
    var child := Children(ops, path[|picks|])[j];
    ChildrenInRange(ops, path[|picks|]);
    assert PickedAt(ops, path[|picks|], j, child) by { Picked(ops, path[|picks|], j); }
    forall k | 0 <= k < |picks| + 1
      ensures PickedAt(ops, (path + [child])[k], (picks + [j])[k], (path + [child])[k + 1])
    {
      if k < |picks| {
        assert PickedAt(ops, path[k], picks[k], path[k + 1]);
      }
    }
  }

  lemma Picked(ops: seq<Operator>, parent: nat, j: nat)
    requires parent < |ops| && j < |Children(ops, parent)|
    ensures PickedAt(ops, parent, j, Children(ops, parent)[j])
  {
  }

  lemma {:induction false} ColumnsOfPrefix(ops: seq<Operator>, path: seq<nat>, picks: seq<nat>, more: seq<nat>)
    requires |path| >= |picks|
    ensures Columns(ops, path + more, picks) == Columns(ops, path, picks)
  {
    hide PicksLast;
    if picks != [] {
      ColumnsOfPrefix(ops, path, picks[..|picks| - 1], more);
    }
  }

  /** Below a root the columns begin; below any other operator one column more stands before the branch. */
  lemma ChildPrefixIs(ops: seq<Operator>, v: Visit, path: seq<nat>, picks: seq<nat>)
    requires Follows(ops, v, path, picks)
    ensures ChildPrefix(v) == Columns(ops, path, picks)
  {
    hide IsDescent, PicksLast;
    DescentLength(ops, path, picks);
  }

  lemma ChildrenExplained(ops: seq<Operator>, v: Visit)
    requires v.operator < |ops| && Explained(ops, v)
    ensures WorkExplained(ops, ChildVisits(Children(ops, v.operator), ChildPrefix(v)))
  {
    hide Children, Columns, IsDescent, PicksLast, ChildPrefix;
    var path: seq<nat>, picks: seq<nat> :| Follows(ops, v, path, picks);
    DescentLength(ops, path, picks);
    var children := Children(ops, v.operator);
    var visits := ChildVisits(children, ChildPrefix(v));
    ChildPrefixIs(ops, v, path, picks);
    forall j | 0 <= j < |visits| ensures Explained(ops, visits[j]) {
      Deeper(ops, path, picks, j);
      ColumnsOfPrefix(ops, path, picks, [children[j]]);
      assert (picks + [j])[..|picks|] == picks;
      LastPick(ops, v.operator, j);
      assert Follows(ops, visits[j], path + [children[j]], picks + [j]);
    }
  }

  lemma LastPick(ops: seq<Operator>, parent: nat, j: nat)
    requires parent < |ops|
    ensures PicksLast(ops, parent, j) <==> j == |Children(ops, parent)| - 1
  {
  }

  lemma RootsExplained(ops: seq<Operator>)
    ensures WorkExplained(ops, RootVisits(Roots(ops)))
  {
    hide Roots, Children;
    var roots := Roots(ops);
    forall k | 0 <= k < |roots| ensures Explained(ops, RootVisits(roots)[k]) {
      assert roots[k] in roots;
      assert Follows(ops, RootVisits(roots)[k], [roots[k]], []);
    }
  }

  lemma {:induction false} WalkExplained(ops: seq<Operator>, work: seq<Visit>, rows: seq<Row>, seen: set<int>)
    requires Inside(ops, work) && WorkExplained(ops, work) && RowsExplained(ops, rows)
    ensures RowsExplained(ops, Walk(ops, work, rows, seen).0)
    decreases |Ids(ops) - seen|, |work|
  {
    hide Children, Ids, Explained, RowExplained, ChildVisits;
    if work != [] {
      var v := work[0];
      if ops[v.operator].opId in seen {
        WalkExplained(ops, work[1..], rows, seen);
      } else {
        ChildrenInside(ops, v.operator, ChildPrefix(v));
        ChildrenExplained(ops, v);
        RowOfExplained(ops, v);
        FewerUnseen(ops, v.operator, seen);
        WalkExplained(ops, ChildVisits(Children(ops, v.operator), ChildPrefix(v)) + work[1..],
          rows + [RowOf(v)], seen + {ops[v.operator].opId});
      }
    }
  }

  /**
    Every row of the tree is the end of a descent from a root, and its prefix shows that descent: blank
    or a line for each step but the last, and the branch of the last.
   */
  lemma PrefixesShowDescents(ops: seq<Operator>)
    ensures RowsExplained(ops, TreeRows(ops))
  {
    hide Walk, WorkExplained;
    RootsInside(ops);
    RootsExplained(ops);
    WalkExplained(ops, RootVisits(Roots(ops)), [], {});
  }

  /** Operators without a row in the tree follow without a prefix. */
  lemma {:induction false} UnreachedPlain(ops: seq<Operator>, rows: seq<Row>, i: nat)
    requires i <= |ops|
    ensures forall k :: 0 <= k < |Unreached(ops, rows, i)| ==> Unreached(ops, rows, i)[k].1 == ""
    decreases |ops| - i
  {
    if i < |ops| {
      UnreachedPlain(ops, rows, i + 1);
    }
  }
}

/** The AI projection rewrite preserves what a query means. */
module AiRewrite {
  import opened Wrappers
  import opened Decimals
  import opened SqlExpressions
  import opened AiProjections

  // ---- reserved columns ----------------------------------------------------

  /** The expression names none of the result columns. */
  ghost predicate Unreserved(e: Expr) {
    forall k: nat :: !Names(e, Field(k))
  }

  ghost predicate AllUnreserved(projections: seq<Projection>) {
    forall i :: 0 <= i < |projections| ==> Unreserved(projections[i].value)
  }

  lemma {:induction false} DecimalUndotted(k: nat)
    ensures '.' !in Decimal(k)
  {
    assert forall c :: c in Decimal(k) ==> IsDigit(c);
  }

  lemma FieldFacts(k: nat)
    ensures Undotted(Field(k)) && StartsWith(Field(k), "_klein_")
  {
    DecimalUndotted(k);
    assert "_klein_ai_result_"[..7] == "_klein_";
    assert Field(k)[..7] == "_klein_ai_result_"[..7];
    assert '.' !in "_klein_ai_result_";
  }

  lemma FieldInjective(j: nat, k: nat)
    requires Field(j) == Field(k)
    ensures j == k
  {
    assert Field(j)[17..] == Decimal(j) && Field(k)[17..] == Decimal(k);
    DecimalInjective(j, k);
  }

  // ---- what the plan looks like --------------------------------------------

  /** Computation `k` fills column `k` with a call of the query. */
  ghost predicate ComputesCalls(plan: Plan, projections: seq<Projection>) {
    forall k :: 0 <= k < |plan.computations| ==>
      plan.computations[k].field == Field(k) && IsCallOf(plan.computations[k], projections)
  }

  ghost predicate IsCallOf(c: Computation, projections: seq<Projection>) {
    exists i :: 0 <= i < |projections| && projections[i].value == AiCall(c.identifier, c.inputs)
  }

  /** Calls already planned are found again under their key. */
  ghost predicate KeysKnown(n: Rendering, plan: Plan) {
    forall key :: key in plan.fields ==> exists k :: IsKeyOf(n, plan, key, k)
  }

  ghost predicate IsKeyOf(n: Rendering, plan: Plan, key: (string, string), k: nat) {
    && k < |plan.computations| && key in plan.fields && plan.fields[key] == Field(k)
    && var c := plan.computations[k]; key == (c.identifier, n.sql(AiCall(c.identifier, c.inputs)))
  }

  /** A rewritten projection reads the column of its call, or is the projection itself. */
  ghost predicate Rewrites(n: Rendering, plan: Plan, q: Projection, r: Projection) {
    if q.value.AiCall? then
      exists k :: ReadsCall(plan, q, k) && r == Aliased(Column("", Field(k)), OutputName(n, q))
    else
      r == q
  }

  ghost predicate ReadsCall(plan: Plan, q: Projection, k: nat) {
    k < |plan.computations| && q.value == AiCall(plan.computations[k].identifier, plan.computations[k].inputs)
  }

  ghost predicate AllRewritten(n: Rendering, plan: Plan, projections: seq<Projection>) {
    |plan.rewritten| == |projections|
    && forall i :: 0 <= i < |projections| ==> Rewrites(n, plan, projections[i], plan.rewritten[i])
  }

  ghost predicate PlanMeans(n: Rendering, plan: Plan, projections: seq<Projection>) {
    ComputesCalls(plan, projections) && KeysKnown(n, plan) && AllRewritten(n, plan, projections)
  }

  lemma CallsStay(c: Computation, before: seq<Projection>, q: Projection)
    requires IsCallOf(c, before)
    ensures IsCallOf(c, before + [q])
  {
    var i :| 0 <= i < |before| && before[i].value == AiCall(c.identifier, c.inputs);
    assert (before + [q])[i] == before[i];
  }

  /** A larger plan keeps the meaning of the projections that were rewritten before. */
  lemma RewritesStay(n: Rendering, plan: Plan, next: Plan, q: Projection, r: Projection)
    requires Rewrites(n, plan, q, r) && plan.computations <= next.computations
    ensures Rewrites(n, next, q, r)
  {
    if q.value.AiCall? {
      var k :| ReadsCall(plan, q, k) && r == Aliased(Column("", Field(k)), OutputName(n, q));
      assert ReadsCall(next, q, k);
    }
  }

  lemma NextMeans(n: Rendering, registered: set<string>, plan: Plan, before: seq<Projection>, q: Projection)
    requires Lawful(n) && PlanMeans(n, plan, before) && PlanNext(n, registered, plan, q).Ok?
    ensures PlanMeans(n, PlanNext(n, registered, plan, q).value, before + [q])
  {
    hide PlanNext, Lawful, ComputesCalls, KeysKnown, Rewrites;
    var next, all := PlanNext(n, registered, plan, q).value, before + [q];
    NextComputes(n, registered, plan, before, q);
    NextKeys(n, registered, plan, q);
    NewRewrite(n, registered, plan, q);
    PlanGrows(n, registered, plan, q);
    forall i | 0 <= i < |all| ensures Rewrites(n, next, all[i], next.rewritten[i]) {
      if i < |before| {
        RewritesStay(n, plan, next, before[i], plan.rewritten[i]);
      }
    }
  }

  lemma PlanGrows(n: Rendering, registered: set<string>, plan: Plan, q: Projection)
    requires PlanNext(n, registered, plan, q).Ok?
    ensures var next := PlanNext(n, registered, plan, q).value;
      && plan.computations <= next.computations && plan.rewritten <= next.rewritten
      && |next.rewritten| == |plan.rewritten| + 1
  {
    hide Field, OutputName, AnyNative;
  }

  lemma NextComputes(n: Rendering, registered: set<string>, plan: Plan, before: seq<Projection>, q: Projection)
    requires ComputesCalls(plan, before) && PlanNext(n, registered, plan, q).Ok?
    ensures ComputesCalls(PlanNext(n, registered, plan, q).value, before + [q])
  {
    hide Field, OutputName, AnyNative, IsCallOf;
    var next, all := PlanNext(n, registered, plan, q).value, before + [q];
    forall k | 0 <= k < |next.computations|
      ensures next.computations[k].field == Field(k) && IsCallOf(next.computations[k], all)
    {
      if k < |plan.computations| {
        CallsStay(plan.computations[k], before, q);
      } else {
        LastIsCall(next.computations[k], before, q);
      }
    }
  }

  lemma LastIsCall(c: Computation, before: seq<Projection>, q: Projection)
    requires q.value == AiCall(c.identifier, c.inputs)
    ensures IsCallOf(c, before + [q])
  {
    assert (before + [q])[|before|] == q;
  }

  lemma NextKeys(n: Rendering, registered: set<string>, plan: Plan, q: Projection)
    requires KeysKnown(n, plan) && PlanNext(n, registered, plan, q).Ok?
    ensures KeysKnown(n, PlanNext(n, registered, plan, q).value)
  {
    hide Field, OutputName, AnyNative;
    var next := PlanNext(n, registered, plan, q).value;
    forall key | key in next.fields ensures exists k :: IsKeyOf(n, next, key, k) {
      if key in plan.fields {
        var k :| IsKeyOf(n, plan, key, k);
        assert IsKeyOf(n, next, key, k);
      } else {
        assert IsKeyOf(n, next, key, |plan.computations|);
      }
    }
  }

  lemma NewRewrite(n: Rendering, registered: set<string>, plan: Plan, q: Projection)
    requires Lawful(n) && KeysKnown(n, plan) && PlanNext(n, registered, plan, q).Ok?
    ensures var next := PlanNext(n, registered, plan, q).value;
      next.rewritten != [] && Rewrites(n, next, q, next.rewritten[|next.rewritten| - 1])
  {
    hide Field, OutputName, AnyNative;
    var next := PlanNext(n, registered, plan, q).value;
    if q.value.AiCall? {
      var key := (q.value.identifier, n.sql(q.value));
      if key in plan.fields {
        var k :| IsKeyOf(n, plan, key, k);
        assert ReadsCall(next, q, k);
      } else {
        assert ReadsCall(next, q, |plan.computations|);
      }
    }
  }

  lemma {:induction false} PlanIsMeaningful(n: Rendering, registered: set<string>, projections: seq<Projection>)
    requires Lawful(n) && PlanOf(n, registered, projections).Ok?
    ensures PlanMeans(n, PlanOf(n, registered, projections).value, projections)
  {
    hide PlanNext, PlanMeans;
    if projections == [] {
      EmptyPlan(n);
    } else {
      var last := |projections| - 1;
      PlanIsMeaningful(n, registered, projections[..last]);
      NextMeans(
        n, registered, PlanOf(n, registered, projections[..last]).value, projections[..last], projections[last]);
      assert projections == projections[..last] + [projections[last]];
    }
  }

  lemma EmptyPlan(n: Rendering)
    ensures PlanMeans(n, Plan([], map[], []), [])
  {
  }

  // ---- running the computations on a row -----------------------------------

  /** The columns of the computations `0..k` hold the values of their calls on the original row. */
  ghost predicate Filled(p: Platform, f: Backend, computations: seq<Computation>, k: nat, row: Row, end: Row)
    requires k <= |computations|
  {
    forall j :: 0 <= j < k ==>
      Has(end, Field(j))
      && AiValue(p, f, computations[j].identifier, computations[j].inputs, row) == Ok(end[IndexOf(end, Field(j))].1)
  }

  /** Nothing but the result columns can tell the two rows apart. */
  ghost predicate SameBut(p: Platform, row: Row, end: Row) {
    && (forall e :: Unreserved(e) ==> Eval(p, e, end) == Eval(p, e, row))
    && (forall es :: AllInputsUnreserved(es) ==> EvalAll(p, es, end) == EvalAll(p, es, row))
  }

  ghost predicate AllInputsUnreserved(es: seq<Expr>) {
    forall k: nat :: !SomeNames(es, Field(k))
  }

  ghost predicate Numbered(computations: seq<Computation>) {
    forall k :: 0 <= k < |computations| ==>
      computations[k].field == Field(k) && AllInputsUnreserved(computations[k].inputs)
  }

  lemma ExtendKeepsSame(p: Platform, row: Row, before: Row, k: nat, v: Value)
    requires SameBut(p, row, before)
    ensures SameBut(p, row, Extend(before, Field(k), v))
  {
    hide Extend, Eval, EvalAll, Field, Names, SomeNames;
    FieldFacts(k);
    forall e | Unreserved(e) ensures Eval(p, e, Extend(before, Field(k), v)) == Eval(p, e, row) {
      Unaffected(p, e, before, Field(k), v);
    }
    forall es | AllInputsUnreserved(es) ensures EvalAll(p, es, Extend(before, Field(k), v)) == EvalAll(p, es, row) {
      AllUnaffected(p, es, before, Field(k), v);
    }
  }

  lemma ExtendKeepsFilled(
      p: Platform, f: Backend, computations: seq<Computation>, k: nat, row: Row, before: Row, v: Value)
    requires k < |computations| && Filled(p, f, computations, k, row, before)
    requires AiValue(p, f, computations[k].identifier, computations[k].inputs, row) == Ok(v)
    ensures Filled(p, f, computations, k + 1, row, Extend(before, Field(k), v))
  {
    hide Extend, AiValue, Field;
    var end := Extend(before, Field(k), v);
    forall j | 0 <= j < k + 1
      ensures Has(end, Field(j))
        && AiValue(p, f, computations[j].identifier, computations[j].inputs, row) == Ok(end[IndexOf(end, Field(j))].1)
    {
      ExtendLookup(before, Field(k), v, Field(j));
      if j < k && Field(j) == Field(k) {
        FieldInjective(j, k);
      }
    }
  }

  /** Running the computations succeeds exactly when every call does on the original row, and then fills the columns. */
  lemma {:induction false} RunFills(p: Platform, f: Backend, computations: seq<Computation>, row: Row)
    requires Numbered(computations)
    ensures RunRow(p, f, computations, row).Ok? <==> AllCallsValued(p, f, computations, row)
    ensures RunRow(p, f, computations, row).Ok? ==>
      var end := RunRow(p, f, computations, row).value;
      Filled(p, f, computations, |computations|, row, end) && SameBut(p, row, end)
  {
    hide Extend, EvalAll, Field, Eval, SomeNames;
    if computations != [] {
      var last := |computations| - 1;
      var init, c := computations[..last], computations[last];
      RunFills(p, f, init, row);
      assert AllCallsValued(p, f, computations, row) <==>
        AllCallsValued(p, f, init, row) && AiValue(p, f, c.identifier, c.inputs, row).Ok?;
      if RunRow(p, f, init, row).Ok? {
        var before := RunRow(p, f, init, row).value;
        assert AiValue(p, f, c.identifier, c.inputs, before) == AiValue(p, f, c.identifier, c.inputs, row);
        if AiValue(p, f, c.identifier, c.inputs, row).Ok? {
          var v := AiValue(p, f, c.identifier, c.inputs, row).value;
          ExtendKeepsSame(p, row, before, last, v);
          assert Filled(p, f, computations, last, row, before);
          ExtendKeepsFilled(p, f, computations, last, row, before, v);
        }
      }
    }
  }

  ghost predicate AllCallsValued(p: Platform, f: Backend, computations: seq<Computation>, row: Row) {
    forall j :: 0 <= j < |computations| ==>
      AiValue(p, f, computations[j].identifier, computations[j].inputs, row).Ok?
  }

  // ---- star projections ----------------------------------------------------

  /** No key of the row is a result column behind a table name. */
  ghost predicate NoDottedReserved(row: Row) {
    forall i, k: nat :: 0 <= i < |row| && '.' in row[i].0 ==> AfterDot(row[i].0) != Field(k)
  }

  /** `*` and `t.*` expand alike, wherever internal columns were added. */
  ghost predicate SameStars(row: Row, end: Row) {
    forall result, table :: CopyStar(result, end, table, |end|) == CopyStar(result, row, table, |row|)
  }

  lemma HasOther(row: Row, field: string, v: Value, name: string)
    requires name != field
    ensures Has(Extend(row, field, v), name) <==> Has(row, name)
  {
    ExtendLookup(row, field, v, name);
  }

  lemma {:induction false} StarPrefix(result: Row, row: Row, k: nat, v: Value, table: string, j: nat)
    requires NoDottedReserved(row) && j <= |row|
    ensures j <= |Extend(row, Field(k), v)|
    ensures CopyStar(result, Extend(row, Field(k), v), table, j) == CopyStar(result, row, table, j)
  {
    hide Field, AfterDot, Extend;
    var end := Extend(row, Field(k), v);
    ExtendEntries(row, Field(k), v);
    if j > 0 {
      StarPrefix(result, row, k, v, table, j - 1);
      FieldFacts(k);
      var source := row[j - 1].0;
      if '.' in source {
        HasOther(row, Field(k), v, AfterDot(source));
      }
    }
  }

  lemma ExtendEntries(row: Row, field: string, v: Value)
    ensures var end := Extend(row, field, v);
      && |row| <= |end| <= |row| + 1
      && (forall i :: 0 <= i < |row| ==> end[i].0 == row[i].0 && (row[i].0 != field ==> end[i] == row[i]))
      && (|end| > |row| ==> end[|row|] == (field, v))
  {
  }

  lemma StarUnaffected(row: Row, k: nat, v: Value)
    requires NoDottedReserved(row)
    ensures SameStars(row, Extend(row, Field(k), v)) && NoDottedReserved(Extend(row, Field(k), v))
  {
    hide Field, AfterDot, Extend;
    var end := Extend(row, Field(k), v);
    ExtendEntries(row, Field(k), v);
    FieldFacts(k);
    forall result, table ensures CopyStar(result, end, table, |end|) == CopyStar(result, row, table, |row|) {
      StarPrefix(result, row, k, v, table, |row|);
    }
  }

  lemma {:induction false} RunKeepsStars(p: Platform, f: Backend, computations: seq<Computation>, row: Row)
    requires Numbered(computations) && NoDottedReserved(row) && RunRow(p, f, computations, row).Ok?
    ensures SameStars(row, RunRow(p, f, computations, row).value)
    ensures NoDottedReserved(RunRow(p, f, computations, row).value)
  {
    hide NoDottedReserved, CopyStar, AiValue, AllInputsUnreserved, Field;
    if computations != [] {
      var last := |computations| - 1;
      RunKeepsStars(p, f, computations[..last], row);
      var before := RunRow(p, f, computations[..last], row).value;
      var c := computations[last];
      StarUnaffected(before, last, AiValue(p, f, c.identifier, c.inputs, before).value);
    }
  }

  // ---- the theorem ---------------------------------------------------------

  lemma UnreservedInputs(projections: seq<Projection>, plan: Plan)
    requires AllUnreserved(projections) && ComputesCalls(plan, projections)
    ensures Numbered(plan.computations)
  {
    hide Field, SomeNames;
    forall k | 0 <= k < |plan.computations| ensures AllInputsUnreserved(plan.computations[k].inputs) {
      var c := plan.computations[k];
      assert IsCallOf(c, projections);
      var i :| 0 <= i < |projections| && projections[i].value == AiCall(c.identifier, c.inputs);
      assert Unreserved(projections[i].value);
      forall j: nat ensures !SomeNames(c.inputs, Field(j)) {
        assert !Names(projections[i].value, Field(j));
      }
    }
  }

  /** A rewritten projection yields on the extended row what the original yields on the original row. */
  lemma SameValue(p: Platform, f: Backend, n: Rendering, plan: Plan, q: Projection, r: Projection, row: Row, end: Row)
    requires Lawful(n) && Rewrites(n, plan, q, r) && Unreserved(q.value)
    requires Filled(p, f, plan.computations, |plan.computations|, row, end) && SameBut(p, row, end)
    ensures OutputName(n, r) == OutputName(n, q)
    ensures ValueOf(p, f, r.value, end) == ValueOf(p, f, q.value, row)
    ensures r.value.Star? <==> q.value.Star?
    ensures r.value.Star? ==> r.value == q.value
  {
    hide Field, EvalAll, AiValue;
    if q.value.AiCall? {
      var k :| ReadsCall(plan, q, k) && r == Aliased(Column("", Field(k)), OutputName(n, q));
      assert Has(end, Field(k));
      assert Eval(p, r.value, end) == EvalColumn(end, "", Field(k));
    }
  }

  lemma {:induction false} ProjectSame(
      p: Platform, f: Backend, n: Rendering, plan: Plan, projections: seq<Projection>, row: Row, end: Row, j: nat)
    requires Lawful(n) && AllRewritten(n, plan, projections) && AllUnreserved(projections) && j <= |projections|
    requires Filled(p, f, plan.computations, |plan.computations|, row, end)
    requires SameBut(p, row, end) && SameStars(row, end)
    ensures Project(p, f, n, plan.rewritten[..j], end) == Project(p, f, n, projections[..j], row)
  {
    hide OutputName, ValueOf, CopyStar, Filled, SameBut, Lawful, Unreserved, Rewrites;
    if j > 0 {
      ProjectSame(p, f, n, plan, projections, row, end, j - 1);
      assert plan.rewritten[..j][..j - 1] == plan.rewritten[..j - 1];
      assert projections[..j][..j - 1] == projections[..j - 1];
      SameValue(p, f, n, plan, projections[j - 1], plan.rewritten[j - 1], row, end);
    }
  }

  /** A call that the query can evaluate on a row was valued, since some projection asks for it. */
  lemma {:induction false} ProjectValuesCalls(
      p: Platform, f: Backend, n: Rendering, projections: seq<Projection>, row: Row, i: nat)
    requires Project(p, f, n, projections, row).Ok? && i < |projections| && projections[i].value.AiCall?
    ensures AiValue(p, f, projections[i].value.identifier, projections[i].value.inputs, row).Ok?
  {
    hide OutputName, CopyStar, AiValue, Eval;
    var last := |projections| - 1;
    if i < last {
      ProjectValuesCalls(p, f, n, projections[..last], row, i);
    }
  }

  /** Planned execution of a query on one row. */
  function Planned(p: Platform, f: Backend, n: Rendering, plan: Plan, row: Row): Result<Row, SqlError> {
    match RunRow(p, f, plan.computations, row)
    case Err(_) => Err(SqlError)
    case Ok(end) => Project(p, f, n, plan.rewritten, end)
  }

  /**
    The rewrite preserves meaning: on every row, running the planned computations in
    order and projecting the rewritten list fails exactly when direct evaluation
    with NULL-strict calls does, and otherwise yields the same output row.
   */
  lemma RewritePreservesRow(
      p: Platform, f: Backend, n: Rendering, registered: set<string>, projections: seq<Projection>, row: Row)
    requires Lawful(n) && PlanOf(n, registered, projections).Ok?
    requires AllUnreserved(projections) && NoDottedReserved(row)
    ensures Planned(p, f, n, PlanOf(n, registered, projections).value, row) == Project(p, f, n, projections, row)
  {
    hide RunRow, Project, Filled, SameBut, SameStars, Numbered, NoDottedReserved, KeysKnown, AllRewritten,
      AllUnreserved, AiValue;
    var plan := PlanOf(n, registered, projections).value;
    PlanIsMeaningful(n, registered, projections);
    UnreservedInputs(projections, plan);
    RunFills(p, f, plan.computations, row);
    if RunRow(p, f, plan.computations, row).Ok? {
      var end := RunRow(p, f, plan.computations, row).value;
      RunKeepsStars(p, f, plan.computations, row);
      ProjectSame(p, f, n, plan, projections, row, end, |projections|);
      RewrittenWhole(n, plan, projections);
      assert projections[..|projections|] == projections;
    } else {
      var k :| 0 <= k < |plan.computations|
        && AiValue(p, f, plan.computations[k].identifier, plan.computations[k].inputs, row).Err?;
      assert IsCallOf(plan.computations[k], projections);
      var i :| 0 <= i < |projections|
        && projections[i].value == AiCall(plan.computations[k].identifier, plan.computations[k].inputs);
      if Project(p, f, n, projections, row).Ok? {
        ProjectValuesCalls(p, f, n, projections, row, i);
      } else {
        OnlyError(Project(p, f, n, projections, row).error);
      }
    }
  }

  lemma OnlyError(e: SqlError)
    ensures e == SqlError
  {
  }

  lemma RewrittenWhole(n: Rendering, plan: Plan, projections: seq<Projection>)
    requires AllRewritten(n, plan, projections)
    ensures plan.rewritten[..|projections|] == plan.rewritten
  {
  }
}

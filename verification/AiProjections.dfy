/** Planning of SQL AI projections and their batched execution (ai_function_execution.py). */
module AiProjections {
  import opened Wrappers
  import opened Decimals
  import opened SqlExpressions

  datatype Projection = Plain(value: Expr) | Aliased(value: Expr, alias: string)

  /** SQL text, the name of an unaliased expression, and which expressions only Ray Data can evaluate. */
  datatype Rendering = Rendering(
    sql: Expr -> string, nameOf: Expr -> string, text: Projection -> string, native: Expr -> bool)

  /** Different calls have different SQL texts, and no text is empty. */
  ghost predicate Lawful(n: Rendering) {
    (forall a, b :: n.sql(a) == n.sql(b) ==> a == b) && forall q :: n.text(q) != ""
  }

  /** `projection.alias_or_name or projection.sql()`. */
  function OutputName(n: Rendering, q: Projection): string {
    if q.Aliased? && q.alias != "" then q.alias
    else if n.nameOf(q.value) != "" then n.nameOf(q.value)
    else n.text(q)
  }

  // ---- the plan ------------------------------------------------------------

  datatype Computation = Computation(field: string, identifier: string, inputs: seq<Expr>)

  datatype PlanError = NativeArguments(identifier: string) | Unregistered(identifier: string)

  datatype Plan = Plan(
    computations: seq<Computation>, fields: map<(string, string), string>, rewritten: seq<Projection>)

  function Field(k: nat): string {
    "_klein_ai_result_" + Decimal(k)
  }

  predicate AnyNative(n: Rendering, es: seq<Expr>) {
    exists i :: 0 <= i < |es| && n.native(es[i])
  }

  /** One round of the planning loop. */
  function PlanNext(n: Rendering, registered: set<string>, plan: Plan, q: Projection): Result<Plan, PlanError> {
    if !q.value.AiCall? then
      Ok(plan.(rewritten := plan.rewritten + [q]))
    else if AnyNative(n, q.value.inputs) then
      Err(NativeArguments(q.value.identifier))
    else
      var key := (q.value.identifier, n.sql(q.value));
      if key in plan.fields then
        Ok(plan.(rewritten := plan.rewritten + [Aliased(Column("", plan.fields[key]), OutputName(n, q))]))
      else if q.value.identifier !in registered then
        Err(Unregistered(q.value.identifier))
      else
        var field := Field(|plan.computations|);
        Ok(Plan(
          plan.computations + [Computation(field, q.value.identifier, q.value.inputs)],
          plan.fields[key := field],
          plan.rewritten + [Aliased(Column("", field), OutputName(n, q))]))
  }

  function PlanOf(n: Rendering, registered: set<string>, projections: seq<Projection>): Result<Plan, PlanError> {
    if projections == [] then
      Ok(Plan([], map[], []))
    else
      var last := |projections| - 1;
      match PlanOf(n, registered, projections[..last])
      case Err(e) => Err(e)
      case Ok(plan) => PlanNext(n, registered, plan, projections[last])
  }

  lemma {:induction false} PlanStops(n: Rendering, registered: set<string>, projections: seq<Projection>, i: nat)
    requires i <= |projections| && PlanOf(n, registered, projections[..i]).Err?
    ensures PlanOf(n, registered, projections) == PlanOf(n, registered, projections[..i])
  {
    if i == |projections| {
      assert projections[..i] == projections;
    } else {
      var init := projections[..|projections| - 1];
      assert init[..i] == projections[..i];
      PlanStops(n, registered, init, i);
    }
  }

  /** `_ai_projection_plan`. */
  method AiProjectionPlan(n: Rendering, registered: set<string>, projections: seq<Projection>)
    returns (r: Result<(seq<Computation>, seq<Projection>), PlanError>)
    ensures r ==
      match PlanOf(n, registered, projections)
      case Err(e) => Err(e)
      case Ok(plan) => Ok((plan.computations, plan.rewritten))
  {
    var computations: seq<Computation> := [];
    var fieldsByCall: map<(string, string), string> := map[];
    var rewritten: seq<Projection> := [];
    var i := 0;
    while i < |projections|
      invariant 0 <= i <= |projections|
      invariant PlanOf(n, registered, projections[..i]) == Ok(Plan(computations, fieldsByCall, rewritten))
    {
      assert projections[..i + 1][..i] == projections[..i];
      var q := projections[i];
      i := i + 1;
      if !q.value.AiCall? {
        rewritten := rewritten + [q];
        continue;
      }
      var identifier := q.value.identifier;
      if AnyNative(n, q.value.inputs) {
        PlanStops(n, registered, projections, i);
        return Err(NativeArguments(identifier));
      }
      var key := (identifier, n.sql(q.value));
      if key !in fieldsByCall {
        if identifier !in registered {
          PlanStops(n, registered, projections, i);
          return Err(Unregistered(identifier));
        }
        var field := Field(|computations|);
        fieldsByCall := fieldsByCall[key := field];
        computations := computations + [Computation(field, identifier, q.value.inputs)];
      }
      rewritten := rewritten + [Aliased(Column("", fieldsByCall[key]), OutputName(n, q))];
    }
    assert projections[..i] == projections;
    r := Ok((computations, rewritten));
  }

  // ---- meaning -------------------------------------------------------------

  /** A backend's answer to one call. */
  type Backend = (string, seq<Value>) -> Answer

  /** A NULL-strict AI call on one row. */
  function AiValue(p: Platform, f: Backend, identifier: string, inputs: seq<Expr>, row: Row): Answer {
    match EvalAll(p, inputs, row)
    case Err(e) => Err(e)
    case Ok(vs) => if Null in vs then Ok(Null) else f(identifier, vs)
  }

  function ValueOf(p: Platform, f: Backend, e: Expr, row: Row): Answer {
    if e.AiCall? then AiValue(p, f, e.identifier, e.inputs, row) else Eval(p, e, row)
  }

  function AfterDot(name: string): string {
    if name == [] then name
    else if name[0] == '.' then name[1..]
    else
      var rest := AfterDot(name[1..]);
      if '.' in name then rest else name
  }

  predicate StartsWith(s: string, prefix: string) {
    |prefix| <= |s| && s[..|prefix|] == prefix
  }

  function CopyEntry(result: Row, entry: (string, Value), row: Row, table: string): Row {
    var (source, value) := entry;
    if StartsWith(source, "_klein_") then result
    else if table != "" && !StartsWith(source, table + ".") then result
    else if table == "" && '.' in source && Has(row, AfterDot(source)) then result
    else Extend(result, if Has(result, AfterDot(source)) then source else AfterDot(source), value)
  }

  /** `_copy_star`: the first `k` entries of the row. */
  function CopyStar(result: Row, row: Row, table: string, k: nat): Row
    requires k <= |row|
  {
    if k == 0 then result else CopyEntry(CopyStar(result, row, table, k - 1), row[k - 1], row, table)
  }

  /** `_ProjectRow`: the output row, an error for a value that cannot be computed or a repeated name. */
  function Project(p: Platform, f: Backend, n: Rendering, projections: seq<Projection>, row: Row)
    : Result<Row, SqlError>
  {
    if projections == [] then
      Ok([])
    else
      var last := |projections| - 1;
      match Project(p, f, n, projections[..last], row)
      case Err(e) => Err(e)
      case Ok(result) =>
        var q := projections[last];
        if q.value.Star? then
          Ok(CopyStar(result, row, q.value.starTable, |row|))
        else if Has(result, OutputName(n, q)) then
          Err(SqlError)
        else
          match ValueOf(p, f, q.value, row)
          case Err(e) => Err(e)
          case Ok(v) => Ok(result + [(OutputName(n, q), v)])
  }

  /** One planned computation on one row. */
  function StageRow(p: Platform, f: Backend, c: Computation, row: Row): Result<Row, SqlError> {
    match AiValue(p, f, c.identifier, c.inputs, row)
    case Err(_) => Err(SqlError)
    case Ok(v) => Ok(Extend(row, c.field, v))
  }

  function RunRow(p: Platform, f: Backend, computations: seq<Computation>, row: Row): Result<Row, SqlError> {
    if computations == [] then
      Ok(row)
    else
      var last := |computations| - 1;
      match RunRow(p, f, computations[..last], row)
      case Err(_) => Err(SqlError)
      case Ok(before) => StageRow(p, f, computations[last], before)
  }

  // ---- batches -------------------------------------------------------------

  /** Columns by name, all of one length. */
  type Batch = seq<(string, seq<Value>)>

  function RowCount(b: Batch): nat {
    if b == [] then 0 else |b[0].1|
  }

  ghost predicate Rectangular(b: Batch) {
    forall j :: 0 <= j < |b| ==> |b[j].1| == RowCount(b)
  }

  function RowAt(b: Batch, i: nat): (row: Row)
    requires Rectangular(b) && i < RowCount(b)
  {
    seq(|b|, j requires 0 <= j < |b| => (b[j].0, b[j].1[i]))
  }

  datatype BackendAnswer = Failed | NotASequence | Returned(values: seq<Value>)

  predicate AllAnswered(f: Backend, identifier: string, calls: seq<seq<Value>>) {
    forall i :: 0 <= i < |calls| ==> f(identifier, calls[i]).Ok?
  }

  function Answers(f: Backend, identifier: string, calls: seq<seq<Value>>): seq<Value>
    requires AllAnswered(f, identifier, calls)
  {
    seq(|calls|, i requires 0 <= i < |calls| => f(identifier, calls[i]).value)
  }

  /** A deterministic backend that answers each call of a batch by itself, or fails if one of them fails. */
  ghost predicate Pointwise(backend: (string, seq<seq<Value>>) -> BackendAnswer, f: Backend) {
    forall identifier, calls :: calls != [] ==>
      backend(identifier, calls)
        == if AllAnswered(f, identifier, calls) then Returned(Answers(f, identifier, calls)) else Failed
  }

  /** `_result_sequence`. */
  method ResultSequence(answer: BackendAnswer, expected: nat) returns (r: Result<seq<Value>, SqlError>)
    ensures r.Ok? <==> answer.Returned? && |answer.values| == expected
    ensures r.Ok? ==> r.value == answer.values
  {
    if !answer.Returned? || |answer.values| != expected {
      return Err(SqlError);
    }
    r := Ok(answer.values);
  }

  predicate Ascending(indices: seq<nat>, bound: nat) {
    && (forall j :: 0 <= j < |indices| ==> indices[j] < bound)
    && (forall j, k :: 0 <= j < k < |indices| ==> indices[j] < indices[k])
  }

  ghost predicate Skipped(p: Platform, inputs: seq<Expr>, row: Row) {
    EvalAll(p, inputs, row).Ok? && Null in EvalAll(p, inputs, row).value
  }

  /** The calls are the arguments of the rows at `indices`; all other rows up to `n` are skipped. */
  ghost predicate Prepared(
      p: Platform, c: Computation, b: Batch, n: nat, calls: seq<seq<Value>>, indices: seq<nat>)
    requires Rectangular(b) && n <= RowCount(b)
  {
    && |calls| == |indices| && Ascending(indices, n)
    && (forall j :: 0 <= j < |indices| ==>
          EvalAll(p, c.inputs, RowAt(b, indices[j])) == Ok(calls[j]) && Null !in calls[j])
    && (forall i :: 0 <= i < n && i !in indices ==> Skipped(p, c.inputs, RowAt(b, i)))
  }

  /** `_prepare`; an argument that cannot be evaluated fails the whole batch. */
  method Prepare(p: Platform, c: Computation, b: Batch) returns (r: Result<(seq<seq<Value>>, seq<nat>), SqlError>)
    requires Rectangular(b)
    ensures r.Err? ==> exists i :: 0 <= i < RowCount(b) && EvalAll(p, c.inputs, RowAt(b, i)).Err?
    ensures r.Ok? ==> Prepared(p, c, b, RowCount(b), r.value.0, r.value.1)
  {
    var calls: seq<seq<Value>> := [];
    var indices: seq<nat> := [];
    var i := 0;
    while i < RowCount(b)
      invariant 0 <= i <= RowCount(b)
      invariant Prepared(p, c, b, i, calls, indices)
    {
      var row := RowAt(b, i);
      var arguments := EvalAll(p, c.inputs, row);
      if arguments.Err? {
        return Err(SqlError);
      }
      if Null !in arguments.value {
        calls := calls + [arguments.value];
        indices := indices + [i];
        assert forall k :: 0 <= k < i && k !in indices ==> k !in indices[..|indices| - 1];
      }
      i := i + 1;
    }
    r := Ok((calls, indices));
  }

  /** The scattered results: values at the called rows, NULL elsewhere. */
  ghost predicate Scattered(results: seq<Value>, indices: seq<nat>, values: seq<Value>) {
    && |indices| == |values| && Ascending(indices, |results|)
    && (forall j :: 0 <= j < |indices| ==> results[indices[j]] == values[j])
    && (forall i :: 0 <= i < |results| && i !in indices ==> results[i] == Null)
  }

  /** `_finish`: the answers go back to the rows they belong to. */
  method Scatter(rowCount: nat, indices: seq<nat>, values: seq<Value>) returns (results: seq<Value>)
    requires |indices| == |values| && Ascending(indices, rowCount)
    ensures |results| == rowCount && Scattered(results, indices, values)
  {
    results := seq(rowCount, _ => Null);
    var j := 0;
    while j < |indices|
      invariant 0 <= j <= |indices| && |results| == rowCount
      invariant Scattered(results, indices[..j], values[..j])
    {
      results := results[indices[j] := values[j]];
      assert indices[..j + 1] == indices[..j] + [indices[j]];
      j := j + 1;
    }
    assert indices[..j] == indices && values[..j] == values;
  }

  ghost predicate AllValued(p: Platform, f: Backend, c: Computation, b: Batch)
    requires Rectangular(b)
  {
    forall i :: 0 <= i < RowCount(b) ==> AiValue(p, f, c.identifier, c.inputs, RowAt(b, i)).Ok?
  }

  ghost predicate ValuesOf(p: Platform, f: Backend, c: Computation, b: Batch, results: seq<Value>)
    requires Rectangular(b)
  {
    && |results| == RowCount(b)
    && forall i :: 0 <= i < |results| ==> AiValue(p, f, c.identifier, c.inputs, RowAt(b, i)) == Ok(results[i])
  }

  lemma ArgumentFails(p: Platform, f: Backend, c: Computation, b: Batch)
    requires Rectangular(b) && exists i :: 0 <= i < RowCount(b) && EvalAll(p, c.inputs, RowAt(b, i)).Err?
    ensures !AllValued(p, f, c, b)
  {
    hide EvalAll;
    var i :| 0 <= i < RowCount(b) && EvalAll(p, c.inputs, RowAt(b, i)).Err?;
    assert AiValue(p, f, c.identifier, c.inputs, RowAt(b, i)).Err?;
  }

  lemma CallsDecide(p: Platform, f: Backend, c: Computation, b: Batch, calls: seq<seq<Value>>, indices: seq<nat>)
    requires Rectangular(b) && Prepared(p, c, b, RowCount(b), calls, indices)
    ensures AllAnswered(f, c.identifier, calls) <==> AllValued(p, f, c, b)
  {
    hide EvalAll;
    if AllAnswered(f, c.identifier, calls) {
      forall i | 0 <= i < RowCount(b) ensures AiValue(p, f, c.identifier, c.inputs, RowAt(b, i)).Ok? {
        if i in indices {
          var j :| 0 <= j < |indices| && indices[j] == i;
          assert f(c.identifier, calls[j]).Ok?;
        } else {
          assert Skipped(p, c.inputs, RowAt(b, i));
        }
      }
    }
    if AllValued(p, f, c, b) {
      forall j | 0 <= j < |calls| ensures f(c.identifier, calls[j]).Ok? {
        assert AiValue(p, f, c.identifier, c.inputs, RowAt(b, indices[j])).Ok?;
      }
    }
  }

  lemma ScatteredAreValues(
      p: Platform, f: Backend, c: Computation, b: Batch, calls: seq<seq<Value>>, indices: seq<nat>, results: seq<Value>)
    requires Rectangular(b) && Prepared(p, c, b, RowCount(b), calls, indices)
    requires AllAnswered(f, c.identifier, calls) && |results| == RowCount(b)
    requires Scattered(results, indices, Answers(f, c.identifier, calls))
    ensures ValuesOf(p, f, c, b, results)
  {
    hide EvalAll;
    forall i | 0 <= i < |results| ensures AiValue(p, f, c.identifier, c.inputs, RowAt(b, i)) == Ok(results[i]) {
      if i in indices {
        var j :| 0 <= j < |indices| && indices[j] == i;
        assert results[indices[j]] == Answers(f, c.identifier, calls)[j];
      } else {
        assert Skipped(p, c.inputs, RowAt(b, i));
      }
    }
  }

  /** The column that a computation adds to a batch. */
  ghost function NewColumn(p: Platform, f: Backend, c: Computation, b: Batch): (results: seq<Value>)
    requires Rectangular(b) && AllValued(p, f, c, b)
    ensures ValuesOf(p, f, c, b, results)
  {
    seq(RowCount(b), i requires 0 <= i < RowCount(b) => AiValue(p, f, c.identifier, c.inputs, RowAt(b, i)).value)
  }

  /** What a computation makes of a batch: it fails if the call fails on some row. */
  ghost function BatchResult(p: Platform, f: Backend, c: Computation, b: Batch): Result<Batch, SqlError>
    requires Rectangular(b)
  {
    if AllValued(p, f, c, b) then Ok(Extend(b, c.field, NewColumn(p, f, c, b))) else Err(SqlError)
  }

  lemma ValuesUnique(p: Platform, f: Backend, c: Computation, b: Batch, results: seq<Value>)
    requires Rectangular(b) && AllValued(p, f, c, b) && ValuesOf(p, f, c, b, results)
    ensures results == NewColumn(p, f, c, b)
  {
    hide EvalAll, AiValue;
    var column := NewColumn(p, f, c, b);
    forall i | 0 <= i < |results| ensures results[i] == column[i] {
      assert AiValue(p, f, c.identifier, c.inputs, RowAt(b, i)) == Ok(column[i]);
    }
  }

  /**
    `_ApplyAIFunctionBatch.__call__`: fails exactly when the call fails on some row;
    otherwise every row gets the NULL-strict value of the call in the new column.
   */
  method ApplyBatch(
      p: Platform, backend: (string, seq<seq<Value>>) -> BackendAnswer, ghost f: Backend, c: Computation, b: Batch)
    returns (r: Result<Batch, SqlError>)
    requires Rectangular(b) && Pointwise(backend, f)
    ensures r == BatchResult(p, f, c, b)
  {
    hide EvalAll, Extend, AiValue;
    var prepared := Prepare(p, c, b);
    if prepared.Err? {
      ArgumentFails(p, f, c, b);
      return Err(SqlError);
    }
    var (calls, indices) := prepared.value;
    CallsDecide(p, f, c, b, calls, indices);
    var results := seq(RowCount(b), _ => Null);
    if calls == [] {
      assert Scattered(results, indices, Answers(f, c.identifier, calls));
      ScatteredAreValues(p, f, c, b, calls, indices, results);
      ValuesUnique(p, f, c, b, results);
      return Ok(Extend(b, c.field, results));
    }
    var values := ResultSequence(backend(c.identifier, calls), |indices|);
    if values.Err? {
      return Err(SqlError);
    }
    results := Scatter(RowCount(b), indices, values.value);
    ScatteredAreValues(p, f, c, b, calls, indices, results);
    ValuesUnique(p, f, c, b, results);
    r := Ok(Extend(b, c.field, results));
  }

  /** Row by row, the new column is the planned computation. */
  lemma BatchIsRowwise(p: Platform, f: Backend, c: Computation, b: Batch, results: seq<Value>, i: nat)
    requires Rectangular(b) && b != [] && ValuesOf(p, f, c, b, results) && i < RowCount(b)
    ensures Rectangular(Extend(b, c.field, results)) && RowCount(Extend(b, c.field, results)) == RowCount(b)
    ensures StageRow(p, f, c, RowAt(b, i)) == Ok(RowAt(Extend(b, c.field, results), i))
  {
    hide EvalAll;
    var next, k, row := Extend(b, c.field, results), IndexOf(b, c.field), RowAt(b, i);
    assert AiValue(p, f, c.identifier, c.inputs, row) == Ok(results[i]);
    assert forall j :: 0 <= j < |b| ==> row[j].0 == b[j].0;
    SameIndex(b, row, c.field);
    assert RowAt(next, i) == Extend(row, c.field, results[i]);
  }

  lemma SameIndex<S, T>(a: seq<(string, S)>, b: seq<(string, T)>, name: string)
    requires |a| == |b| && forall j :: 0 <= j < |a| ==> a[j].0 == b[j].0
    ensures IndexOf(a, name) == IndexOf(b, name)
  {
    var i, j := IndexOf(a, name), IndexOf(b, name);
    assert i < |a| ==> b[i].0 == name;
    assert j < |b| ==> a[j].0 == name;
  }
}

/** The AI projection rewrite over whole datasets, which Ray hands to the computations in batches. */
module AiBatches {
  import opened Wrappers
  import opened SqlExpressions
  import opened AiProjections
  import opened AiRewrite

  // ---- row by row ----------------------------------------------------------

  /** Applying one step to every row; an error in any row fails all. */
  function Each(step: Row -> Result<Row, SqlError>, rows: seq<Row>): Result<seq<Row>, SqlError> {
    if rows == [] then
      Ok([])
    else
      var last := |rows| - 1;
      match (Each(step, rows[..last]), step(rows[last]))
      case (Ok(before), Ok(row)) => Ok(before + [row])
      case _ => Err(SqlError)
  }

  function Stage(p: Platform, f: Backend, c: Computation): Row -> Result<Row, SqlError> {
    row => StageRow(p, f, c, row)
  }

  function Runner(p: Platform, f: Backend, computations: seq<Computation>): Row -> Result<Row, SqlError> {
    row => RunRow(p, f, computations, row)
  }

  function Projector(p: Platform, f: Backend, n: Rendering, projections: seq<Projection>)
    : Row -> Result<Row, SqlError>
  {
    row => Project(p, f, n, projections, row)
  }

  function Planner(p: Platform, f: Backend, n: Rendering, plan: Plan): Row -> Result<Row, SqlError> {
    row => Planned(p, f, n, plan, row)
  }

  /** The computations one after another, each over the whole dataset. */
  function Stages(p: Platform, f: Backend, computations: seq<Computation>, rows: seq<Row>): Result<seq<Row>, SqlError> {
    if computations == [] then
      Ok(rows)
    else
      var last := |computations| - 1;
      match Stages(p, f, computations[..last], rows)
      case Err(_) => Err(SqlError)
      case Ok(before) => Each(Stage(p, f, computations[last]), before)
  }

  lemma {:induction false} EachCompose(
      a: Row -> Result<Row, SqlError>, b: Row -> Result<Row, SqlError>, c: Row -> Result<Row, SqlError>, rows: seq<Row>)
    requires forall row :: c(row) == match a(row) case Err(_) => Err(SqlError) case Ok(mid) => b(mid)
    ensures Each(c, rows) == match Each(a, rows) case Err(_) => Err(SqlError) case Ok(mid) => Each(b, mid)
    ensures Each(a, rows).Ok? ==> |Each(a, rows).value| == |rows|
  {
    if rows != [] {
      var last := |rows| - 1;
      EachCompose(a, b, c, rows[..last]);
      if Each(a, rows).Ok? {
        var mid := Each(a, rows).value;
        assert mid[..|mid| - 1] == Each(a, rows[..last]).value;
      }
    }
  }

  lemma {:induction false} EachIdentity(a: Row -> Result<Row, SqlError>, rows: seq<Row>)
    requires forall row :: a(row) == Ok(row)
    ensures Each(a, rows) == Ok(rows)
  {
    if rows != [] {
      EachIdentity(a, rows[..|rows| - 1]);
      assert rows == rows[..|rows| - 1] + [rows[|rows| - 1]];
    }
  }

  /** Stage after stage over all rows is all stages row by row. */
  lemma {:induction false} StagesAreRowwise(p: Platform, f: Backend, computations: seq<Computation>, rows: seq<Row>)
    ensures Stages(p, f, computations, rows) == Each(Runner(p, f, computations), rows)
  {
    hide StageRow, Each;
    if computations == [] {
      EachIdentity(Runner(p, f, computations), rows);
    } else {
      var last := |computations| - 1;
      StagesAreRowwise(p, f, computations[..last], rows);
      EachCompose(
        Runner(p, f, computations[..last]), Stage(p, f, computations[last]), Runner(p, f, computations), rows);
    }
  }

  lemma {:induction false} EachSame(a: Row -> Result<Row, SqlError>, b: Row -> Result<Row, SqlError>, rows: seq<Row>)
    requires forall i :: 0 <= i < |rows| ==> a(rows[i]) == b(rows[i])
    ensures Each(a, rows) == Each(b, rows)
  {
    if rows != [] {
      EachSame(a, b, rows[..|rows| - 1]);
    }
  }

  lemma {:induction false} EachAppend(step: Row -> Result<Row, SqlError>, a: seq<Row>, b: seq<Row>)
    ensures Each(step, a + b) ==
      match (Each(step, a), Each(step, b)) case (Ok(x), Ok(y)) => Ok(x + y) case _ => Err(SqlError)
  {
    if b == [] {
      assert a + b == a;
      if Each(step, a).Ok? {
        assert Each(step, a).value + [] == Each(step, a).value;
      }
    } else {
      assert (a + b)[..|a + b| - 1] == a + b[..|b| - 1];
      EachAppend(step, a, b[..|b| - 1]);
      if Each(step, a).Ok? && Each(step, b).Ok? {
        var x, y := Each(step, a).value, Each(step, b[..|b| - 1]).value;
        var r := step(b[|b| - 1]).value;
        assert x + (y + [r]) == (x + y) + [r];
      }
    }
  }

  // ---- batch by batch ------------------------------------------------------

  function RowsOf(b: Batch): (rows: seq<Row>)
    requires Rectangular(b)
    ensures |rows| == RowCount(b)
  {
    seq(RowCount(b), i requires 0 <= i < RowCount(b) => RowAt(b, i))
  }

  /** A batch with at least one column, so that it knows its number of rows. */
  ghost predicate Proper(b: Batch) {
    Rectangular(b) && b != []
  }

  ghost predicate AllProper(batches: seq<Batch>) {
    forall i :: 0 <= i < |batches| ==> Proper(batches[i])
  }

  function RowsOfAll(batches: seq<Batch>): seq<Row>
    requires AllProper(batches)
  {
    if batches == [] then
      []
    else
      var last := |batches| - 1;
      RowsOfAll(batches[..last]) + RowsOf(batches[last])
  }

  /** A computation applied to every batch; an error in any batch fails all. */
  ghost function EachBatch(p: Platform, f: Backend, c: Computation, batches: seq<Batch>)
    : (r: Result<seq<Batch>, SqlError>)
    requires AllProper(batches)
    ensures r.Ok? ==> AllProper(r.value)
  {
    if batches == [] then
      Ok([])
    else
      var last := |batches| - 1;
      BatchStaysProper(p, f, c, batches[last]);
      match (EachBatch(p, f, c, batches[..last]), BatchResult(p, f, c, batches[last]))
      case (Ok(before), Ok(b)) => Ok(before + [b])
      case _ => Err(SqlError)
  }

  lemma BatchStaysProper(p: Platform, f: Backend, c: Computation, b: Batch)
    requires Proper(b)
    ensures BatchResult(p, f, c, b).Ok? ==> Proper(BatchResult(p, f, c, b).value)
  {
    hide AiValue;
  }

  lemma {:induction false} EachOk(step: Row -> Result<Row, SqlError>, rows: seq<Row>, out: seq<Row>)
    requires |out| == |rows| && forall i :: 0 <= i < |rows| ==> step(rows[i]) == Ok(out[i])
    ensures Each(step, rows) == Ok(out)
  {
    if rows != [] {
      var last := |rows| - 1;
      EachOk(step, rows[..last], out[..last]);
      assert out == out[..last] + [out[last]];
    }
  }

  lemma {:induction false} EachFails(step: Row -> Result<Row, SqlError>, rows: seq<Row>, i: nat)
    requires i < |rows| && step(rows[i]).Err?
    ensures Each(step, rows) == Err(SqlError)
  {
    var last := |rows| - 1;
    if i < last {
      EachFails(step, rows[..last], i);
    }
  }

  /** One batch through `ApplyBatch` is its rows through the single-row step. */
  lemma BatchIsEach(p: Platform, f: Backend, c: Computation, b: Batch)
    requires Proper(b)
    ensures match BatchResult(p, f, c, b)
      case Err(_) => Each(Stage(p, f, c), RowsOf(b)) == Err(SqlError)
      case Ok(next) => Proper(next) && Each(Stage(p, f, c), RowsOf(b)) == Ok(RowsOf(next))
  {
    hide AiValue, Each, Extend;
    BatchStaysProper(p, f, c, b);
    if AllValued(p, f, c, b) {
      var results := NewColumn(p, f, c, b);
      var next := Extend(b, c.field, results);
      ExtendedCount(b, c.field, results);
      forall i | 0 <= i < RowCount(b) ensures StageRow(p, f, c, RowAt(b, i)) == Ok(RowAt(next, i)) {
        BatchIsRowwise(p, f, c, b, results, i);
      }
      EachOk(Stage(p, f, c), RowsOf(b), RowsOf(next));
    } else {
      var i :| 0 <= i < RowCount(b) && AiValue(p, f, c.identifier, c.inputs, RowAt(b, i)).Err?;
      EachFails(Stage(p, f, c), RowsOf(b), i);
    }
  }

  lemma ExtendedCount(b: Batch, field: string, results: seq<Value>)
    requires Proper(b) && |results| == RowCount(b)
    ensures Proper(Extend(b, field, results)) && RowCount(Extend(b, field, results)) == RowCount(b)
  {
  }

  /** However the rows were split, all batches through `ApplyBatch` are all rows through the single-row step. */
  lemma {:induction false} BatchesAreRowwise(p: Platform, f: Backend, c: Computation, batches: seq<Batch>)
    requires AllProper(batches)
    ensures match EachBatch(p, f, c, batches)
      case Err(_) => Each(Stage(p, f, c), RowsOfAll(batches)) == Err(SqlError)
      case Ok(next) => Each(Stage(p, f, c), RowsOfAll(batches)) == Ok(RowsOfAll(next))
  {
    hide BatchResult, RowsOf, Each, Rectangular, Stage;
    if batches == [] {
      EachOk(Stage(p, f, c), [], []);
    } else {
      var last := |batches| - 1;
      BatchesAreRowwise(p, f, c, batches[..last]);
      BatchIsEach(p, f, c, batches[last]);
      EachAppend(Stage(p, f, c), RowsOfAll(batches[..last]), RowsOf(batches[last]));
      EachBatchStep(p, f, c, batches);
    }
  }

  lemma EachBatchStep(p: Platform, f: Backend, c: Computation, batches: seq<Batch>)
    requires AllProper(batches) && batches != []
    ensures var last := |batches| - 1;
      match (EachBatch(p, f, c, batches[..last]), BatchResult(p, f, c, batches[last]))
      case (Ok(before), Ok(b)) =>
        && Proper(b) && EachBatch(p, f, c, batches) == Ok(before + [b])
        && RowsOfAll(before + [b]) == RowsOfAll(before) + RowsOf(b)
      case _ => EachBatch(p, f, c, batches) == Err(SqlError)
  {
    hide BatchResult, RowsOf, Rectangular;
    var last := |batches| - 1;
    BatchStaysProper(p, f, c, batches[last]);
    if EachBatch(p, f, c, batches[..last]).Ok? && BatchResult(p, f, c, batches[last]).Ok? {
      var before, b := EachBatch(p, f, c, batches[..last]).value, BatchResult(p, f, c, batches[last]).value;
      assert (before + [b])[..|before|] == before;
    }
  }

  // ---- splitting rows into batches -----------------------------------------

  predicate SameNames(a: Row, b: Row) {
    |a| == |b| && forall j :: 0 <= j < |a| ==> a[j].0 == b[j].0
  }

  /** The rows of a table: all have the same columns, and at least one. */
  predicate Uniform(rows: seq<Row>) {
    && (forall i, j :: 0 <= i < |rows| && 0 <= j < |rows| ==> SameNames(rows[i], rows[j]))
    && (forall i :: 0 <= i < |rows| ==> rows[i] != [])
  }

  type Splitter = seq<Row> -> seq<Batch>

  /** The batches hold the rows of a table, in order. */
  ghost predicate Splits(split: Splitter) {
    forall rows :: Uniform(rows) ==> Divides(split(rows), rows)
  }

  ghost predicate Divides(batches: seq<Batch>, rows: seq<Row>) {
    AllProper(batches) && RowsOfAll(batches) == rows
  }

  /** A computation adds the same column to all rows of a table. */
  lemma UniformStays(p: Platform, f: Backend, c: Computation, rows: seq<Row>)
    requires Uniform(rows) && Each(Stage(p, f, c), rows).Ok?
    ensures Uniform(Each(Stage(p, f, c), rows).value)
  {
    hide AiValue, Extend, StageRow, Each, SameNames;
    var out := Each(Stage(p, f, c), rows).value;
    EachAt(Stage(p, f, c), rows);
    forall i, j | 0 <= i < |out| && 0 <= j < |out| ensures SameNames(out[i], out[j]) && out[i] != [] {
      StagedNames(p, f, c, rows[i], rows[j]);
    }
  }

  lemma {:induction false} EachAt(step: Row -> Result<Row, SqlError>, rows: seq<Row>)
    requires Each(step, rows).Ok?
    ensures |Each(step, rows).value| == |rows|
    ensures forall i :: 0 <= i < |rows| ==> step(rows[i]) == Ok(Each(step, rows).value[i])
  {
    if rows != [] {
      EachAt(step, rows[..|rows| - 1]);
    }
  }

  lemma StagedNames(p: Platform, f: Backend, c: Computation, a: Row, b: Row)
    requires SameNames(a, b) && StageRow(p, f, c, a).Ok? && StageRow(p, f, c, b).Ok?
    ensures SameNames(StageRow(p, f, c, a).value, StageRow(p, f, c, b).value)
    ensures StageRow(p, f, c, a).value != []
  {
    hide AiValue;
    SameIndex(a, b, c.field);
  }

  /** A computation over a table that is split into batches; the resulting batches make up a table again. */
  ghost function BatchedStage(p: Platform, f: Backend, c: Computation, split: Splitter, rows: seq<Row>)
    : Result<seq<Row>, SqlError>
    requires Splits(split) && Uniform(rows)
  {
    assert Divides(split(rows), rows);
    match EachBatch(p, f, c, split(rows))
    case Err(_) => Err(SqlError)
    case Ok(next) => Ok(RowsOfAll(next))
  }

  lemma BatchedStageIs(p: Platform, f: Backend, c: Computation, split: Splitter, rows: seq<Row>)
    requires Splits(split) && Uniform(rows)
    ensures BatchedStage(p, f, c, split, rows) == Each(Stage(p, f, c), rows)
    ensures BatchedStage(p, f, c, split, rows).Ok? ==> Uniform(BatchedStage(p, f, c, split, rows).value)
  {
    hide EachBatch, Each, RowsOfAll, AllProper, Uniform;
    assert Divides(split(rows), rows);
    BatchesAreRowwise(p, f, c, split(rows));
    if Each(Stage(p, f, c), rows).Ok? {
      UniformStays(p, f, c, rows);
    }
  }

  ghost predicate AllSplit(splits: seq<Splitter>) {
    forall k :: 0 <= k < |splits| ==> Splits(splits[k])
  }

  /** The computations one after another; before each, the rows are split anew. */
  ghost function BatchedStages(
      p: Platform, f: Backend, computations: seq<Computation>, splits: seq<Splitter>, rows: seq<Row>)
    : (r: Result<seq<Row>, SqlError>)
    requires |splits| == |computations| && AllSplit(splits) && Uniform(rows)
    ensures r.Ok? ==> Uniform(r.value)
  {
    if computations == [] then
      Ok(rows)
    else
      var last := |computations| - 1;
      match BatchedStages(p, f, computations[..last], splits[..last], rows)
      case Err(_) => Err(SqlError)
      case Ok(before) =>
        BatchedStageIs(p, f, computations[last], splits[last], before);
        BatchedStage(p, f, computations[last], splits[last], before)
  }

  /** However the rows are split before each computation, the batched run is the run row by row. */
  lemma {:induction false} BatchingIrrelevant(
      p: Platform, f: Backend, computations: seq<Computation>, splits: seq<Splitter>, rows: seq<Row>)
    requires |splits| == |computations| && AllSplit(splits) && Uniform(rows)
    ensures BatchedStages(p, f, computations, splits, rows) == Each(Runner(p, f, computations), rows)
  {
    hide Each, BatchedStage, Uniform, Splits;
    StagesAreRowwise(p, f, computations, rows);
    if computations != [] {
      var last := |computations| - 1;
      BatchingIrrelevant(p, f, computations[..last], splits[..last], rows);
      StagesAreRowwise(p, f, computations[..last], rows);
      var before := BatchedStages(p, f, computations[..last], splits[..last], rows);
      if before.Ok? {
        BatchedStageIs(p, f, computations[last], splits[last], before.value);
      } else {
        OnlyError(before.error);
      }
    }
  }

  // ---- batches of a given size ---------------------------------------------

  /** The columns of some rows of a table. */
  function Columns(rows: seq<Row>): Batch
    requires Uniform(rows) && rows != []
  {
    seq(|rows[0]|, j requires 0 <= j < |rows[0]| =>
      (rows[0][j].0, seq(|rows|, i requires 0 <= i < |rows| => assert SameNames(rows[0], rows[i]); rows[i][j].1)))
  }

  lemma ColumnsHoldRows(rows: seq<Row>)
    requires Uniform(rows) && rows != []
    ensures Proper(Columns(rows)) && RowsOf(Columns(rows)) == rows
  {
    var b := Columns(rows);
    forall i | 0 <= i < |rows| ensures RowAt(b, i) == rows[i] {
      assert SameNames(rows[0], rows[i]);
    }
  }

  /** How many rows the last batch has. */
  function LastSize(size: nat, n: nat): (rest: nat)
    requires size >= 1 && n >= 1
    ensures 0 < rest <= n
  {
    if n % size == 0 then size else n % size
  }

  /** Batches of `size` rows, the last of which may be smaller. */
  function Sized(size: nat, rows: seq<Row>): seq<Batch>
    requires size >= 1
  {
    if rows == [] || !Uniform(rows) then
      []
    else
      var rest := LastSize(size, |rows|);
      Sized(size, rows[..|rows| - rest]) + [Columns(rows[|rows| - rest..])]
  }

  function BySize(size: nat): Splitter
    requires size >= 1
  {
    rows => Sized(size, rows)
  }

  /** Splitting by `batch_size` is one of the ways to split. */
  lemma BySizeSplits(size: nat)
    requires size >= 1
    ensures Splits(BySize(size))
  {
    forall rows | Uniform(rows) ensures Divides(BySize(size)(rows), rows) {
      SizedDivides(size, rows);
    }
  }

  lemma {:induction false} SizedDivides(size: nat, rows: seq<Row>)
    requires size >= 1 && Uniform(rows)
    ensures Divides(Sized(size, rows), rows)
  {
    if rows != [] {
      hide Columns, RowsOf, Rectangular, SameNames, LastSize, AllProper;
      var rest := LastSize(size, |rows|);
      var init, tail := rows[..|rows| - rest], rows[|rows| - rest..];
      SizedDivides(size, init);
      ColumnsHoldRows(tail);
      OneMoreBatch(Sized(size, init), init, Columns(tail), tail);
      assert rows == init + tail;
    }
  }

  lemma OneMoreBatch(batches: seq<Batch>, rows: seq<Row>, b: Batch, tail: seq<Row>)
    requires Divides(batches, rows) && Proper(b) && RowsOf(b) == tail
    ensures Divides(batches + [b], rows + tail)
  {
    hide RowsOf, Rectangular;
    assert (batches + [b])[..|batches|] == batches;
  }

  // ---- the theorem ---------------------------------------------------------

  /** All computations over the dataset, in batches, then the rewritten projections row by row. */
  ghost function PlannedQuery(
      p: Platform, f: Backend, n: Rendering, plan: Plan, splits: seq<Splitter>, rows: seq<Row>)
    : Result<seq<Row>, SqlError>
    requires |splits| == |plan.computations| && AllSplit(splits) && Uniform(rows)
  {
    match BatchedStages(p, f, plan.computations, splits, rows)
    case Err(_) => Err(SqlError)
    case Ok(mid) => Each(Projector(p, f, n, plan.rewritten), mid)
  }

  /** The rewrite preserves the query's result on every table, however each stage splits it into batches. */
  lemma RewritePreservesQuery(
      p: Platform, f: Backend, n: Rendering, registered: set<string>, projections: seq<Projection>,
      splits: seq<Splitter>, rows: seq<Row>)
    requires Lawful(n) && PlanOf(n, registered, projections).Ok? && AllUnreserved(projections)
    requires |splits| == |PlanOf(n, registered, projections).value.computations| && AllSplit(splits)
    requires Uniform(rows) && forall i :: 0 <= i < |rows| ==> NoDottedReserved(rows[i])
    ensures var plan := PlanOf(n, registered, projections).value;
      PlannedQuery(p, f, n, plan, splits, rows) == Each(Projector(p, f, n, projections), rows)
  {
    hide Each, PlanOf, RunRow, Project, NoDottedReserved, AllUnreserved, Lawful, BatchedStages, AllSplit, Uniform;
    var plan := PlanOf(n, registered, projections).value;
    BatchingIrrelevant(p, f, plan.computations, splits, rows);
    EachCompose(
      Runner(p, f, plan.computations), Projector(p, f, n, plan.rewritten), Planner(p, f, n, plan), rows);
    forall i | 0 <= i < |rows| ensures Planned(p, f, n, plan, rows[i]) == Project(p, f, n, projections, rows[i]) {
      RewritePreservesRow(p, f, n, registered, projections, rows[i]);
    }
    EachSame(Planner(p, f, n, plan), Projector(p, f, n, projections), rows);
  }
}

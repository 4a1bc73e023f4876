/** Row-level evaluation of SQL expressions (expression.py), with what a row means to them. */
module SqlExpressions {
  import opened Wrappers

  datatype Value = Null | Bool(b: bool) | Datum(d: int)

  /** A row: a dictionary in insertion order. */
  type Row = seq<(string, Value)>

  datatype SqlError = SqlError

  type Answer = Result<Value, SqlError>

  /** `Star` stands for `*` and `t.*`; `AiCall` for AI_GENERATE and AI_EMBED. */
  datatype Expr =
    | Column(table: string, name: string)
    | Star(starTable: string)
    | Constant(v: Value)
    | Paren(inner: Expr)
    | Not(operand: Expr)
    | And(left: Expr, right: Expr)
    | Or(left: Expr, right: Expr)
    | IsNull(tested: Expr)
    | In(needle: Expr, choices: seq<Expr>)
    | Coalesce(candidates: seq<Expr>)
    | Case(base: Option<Expr>, branches: seq<Branch>, default: Option<Expr>)
    | Strict(op: string, operands: seq<Expr>)
    | Scalar(callee: string, arguments: seq<Expr>)
    | AiCall(identifier: string, inputs: seq<Expr>)

  datatype Branch = When(condition: Expr, outcome: Expr)

  /** What evaluation takes from Python: truth and equality of values, operators on values, user functions. */
  datatype Platform = Platform(
    truthy: Value -> bool,
    equal: (Value, Value) -> bool,
    apply: (string, seq<Value>) -> Answer,
    call: (string, seq<Value>) -> Answer)

  // ---- rows ----------------------------------------------------------------

  function IndexOf<T>(row: seq<(string, T)>, name: string): (i: nat)
    ensures i <= |row|
    ensures i < |row| ==> row[i].0 == name
    ensures forall j :: 0 <= j < i ==> row[j].0 != name
  {
    if row == [] || row[0].0 == name then 0 else
      var rest := IndexOf(row[1..], name);
      assert forall j :: 0 < j < 1 + rest ==> row[j] == row[1..][j - 1];
      1 + rest
  }

  predicate Has<T>(row: seq<(string, T)>, name: string) {
    IndexOf(row, name) < |row|
  }

  /** `row[name] = value`, for a dictionary in insertion order. */
  function Extend<T>(row: seq<(string, T)>, name: string, value: T): seq<(string, T)> {
    var i := IndexOf(row, name);
    if i < |row| then row[i := (name, value)] else row + [(name, value)]
  }

  predicate EndsWith(s: string, suffix: string) {
    |suffix| <= |s| && s[|s| - |suffix|..] == suffix
  }

  /** The values whose keys end with `.name`. */
  function Matches(row: Row, name: string): seq<Value> {
    if row == [] then []
    else
      var rest := Matches(row[1..], name);
      if EndsWith(row[0].0, "." + name) then [row[0].1] + rest else rest
  }

  // ---- evaluation ----------------------------------------------------------

  function EvalColumn(row: Row, table: string, name: string): Answer {
    var qualified := table + "." + name;
    if table != "" && Has(row, qualified) then Ok(row[IndexOf(row, qualified)].1)
    else if Has(row, name) then Ok(row[IndexOf(row, name)].1)
    else
      var matches := Matches(row, name);
      if |matches| == 1 then Ok(matches[0]) else Err(SqlError)
  }

  function Eval(p: Platform, e: Expr, row: Row): Answer
    decreases e, 0
  {
    match e
    case Column(table, name) => EvalColumn(row, table, name)
    case Star(_) => Err(SqlError)
    case Constant(v) => Ok(v)
    case Paren(inner) => Eval(p, inner, row)
    case Not(inner) => (
      match Eval(p, inner, row)
      case Err(x) => Err(x)
      case Ok(Null) => Ok(Null)
      case Ok(v) => Ok(Bool(!p.truthy(v)))
    )
    case And(l, r) => (
      match (Eval(p, l, row), Eval(p, r, row))
      case (Ok(a), Ok(b)) =>
        if a == Bool(false) || b == Bool(false) then Ok(Bool(false))
        else if a == Null || b == Null then Ok(Null)
        else Ok(Bool(p.truthy(a) && p.truthy(b)))
      case _ => Err(SqlError)
    )
    case Or(l, r) => (
      match (Eval(p, l, row), Eval(p, r, row))
      case (Ok(a), Ok(b)) =>
        if a == Bool(true) || b == Bool(true) then Ok(Bool(true))
        else if a == Null || b == Null then Ok(Null)
        else Ok(Bool(p.truthy(a) || p.truthy(b)))
      case _ => Err(SqlError)
    )
    case IsNull(inner) => (
      match Eval(p, inner, row)
      case Err(x) => Err(x)
      case Ok(v) => Ok(Bool(v == Null))
    )
    case In(needle, choices) => (
      match Eval(p, needle, row)
      case Err(x) => Err(x)
      case Ok(Null) => Ok(Null)
      case Ok(v) =>
        match EvalAll(p, choices, row)
        case Err(x) => Err(x)
        case Ok(vs) =>
          if exists i :: 0 <= i < |vs| && p.equal(v, vs[i]) then Ok(Bool(true))
          else if Null in vs then Ok(Null)
          else Ok(Bool(false))
    )
    case Coalesce(candidates) => EvalFirst(p, candidates, row)
    case Case(base, branches, default) => (
      match if base.None? then Ok(Null) else Eval(p, base.value, row)
      case Err(x) => Err(x)
      case Ok(v) =>
        match EvalBranches(p, if base.None? then None else Some(v), branches, row)
        case Err(x) => Err(x)
        case Ok(Some(result)) => Ok(result)
        case Ok(None) => if default.None? then Ok(Null) else Eval(p, default.value, row)
    )
    case Strict(op, operands) => (
      match EvalAll(p, operands, row)
      case Err(x) => Err(x)
      case Ok(vs) => if Null in vs then Ok(Null) else p.apply(op, vs)
    )
    case Scalar(callee, arguments) => (
      match EvalAll(p, arguments, row)
      case Err(x) => Err(x)
      case Ok(vs) => p.call(callee, vs)
    )
    case AiCall(_, _) => Err(SqlError)
  }

  function EvalAll(p: Platform, es: seq<Expr>, row: Row): (r: Result<seq<Value>, SqlError>)
    ensures r.Ok? ==> |r.value| == |es|
    decreases es, 0
  {
    if es == [] then Ok([])
    else
      match Eval(p, es[0], row)
      case Err(x) => Err(x)
      case Ok(v) =>
        match EvalAll(p, es[1..], row)
        case Err(x) => Err(x)
        case Ok(vs) => Ok([v] + vs)
  }

  function EvalFirst(p: Platform, es: seq<Expr>, row: Row): Answer
    decreases es, 0
  {
    if es == [] then Ok(Null)
    else
      var first := Eval(p, es[0], row);
      if first == Ok(Null) then EvalFirst(p, es[1..], row) else first
  }

  /** `matched is True` in a searched CASE, and equality with a non-NULL base otherwise. */
  predicate Chosen(p: Platform, base: Option<Value>, matched: Value) {
    if base.None? then matched == Bool(true) else base.value != Null && p.equal(matched, base.value)
  }

  /** The outcome of one WHEN; `None` when it is not chosen. */
  function EvalBranch(p: Platform, base: Option<Value>, branch: Branch, row: Row): Result<Option<Value>, SqlError>
    decreases branch, 0
  {
    match Eval(p, branch.condition, row)
    case Err(x) => Err(x)
    case Ok(matched) =>
      if !Chosen(p, base, matched) then Ok(None)
      else
        match Eval(p, branch.outcome, row)
        case Err(x) => Err(x)
        case Ok(v) => Ok(Some(v))
  }

  function EvalBranches(p: Platform, base: Option<Value>, branches: seq<Branch>, row: Row)
    : Result<Option<Value>, SqlError>
    decreases branches, 0
  {
    if branches == [] then
      Ok(None)
    else
      var first := EvalBranch(p, base, branches[0], row);
      if first == Ok(None) then EvalBranches(p, base, branches[1..], row) else first
  }

  // ---- columns that an expression does not name ----------------------------

  predicate Names(e: Expr, field: string)
    decreases e, 0
  {
    match e
    case Column(_, name) => name == field
    case Star(_) => false
    case Constant(_) => false
    case Paren(inner) => Names(inner, field)
    case Not(inner) => Names(inner, field)
    case And(l, r) => Names(l, field) || Names(r, field)
    case Or(l, r) => Names(l, field) || Names(r, field)
    case IsNull(inner) => Names(inner, field)
    case In(needle, choices) => Names(needle, field) || SomeNames(choices, field)
    case Coalesce(candidates) => SomeNames(candidates, field)
    case Case(base, branches, default) =>
      (base.Some? && Names(base.value, field)) || BranchesName(branches, field)
      || (default.Some? && Names(default.value, field))
    case Strict(_, operands) => SomeNames(operands, field)
    case Scalar(_, arguments) => SomeNames(arguments, field)
    case AiCall(_, inputs) => SomeNames(inputs, field)
  }

  predicate SomeNames(es: seq<Expr>, field: string)
    decreases es, 0
  {
    es != [] && (Names(es[0], field) || SomeNames(es[1..], field))
  }

  predicate BranchesName(branches: seq<Branch>, field: string)
    decreases branches, 0
  {
    branches != [] && (BranchNames(branches[0], field) || BranchesName(branches[1..], field))
  }

  predicate BranchNames(branch: Branch, field: string)
    decreases branch, 0
  {
    Names(branch.condition, field) || Names(branch.outcome, field)
  }

  /** A key without a dot, so that it is nobody's qualified name. */
  predicate Undotted(field: string) {
    '.' !in field
  }

  lemma ExtendLookup(row: Row, field: string, value: Value, name: string)
    ensures Has(Extend(row, field, value), field)
    ensures Extend(row, field, value)[IndexOf(Extend(row, field, value), field)].1 == value
    ensures name != field ==> (Has(Extend(row, field, value), name) <==> Has(row, name))
    ensures name != field && Has(row, name) ==>
      Extend(row, field, value)[IndexOf(Extend(row, field, value), name)] == row[IndexOf(row, name)]
  {
    var next := Extend(row, field, value);
    var i, j := IndexOf(row, name), IndexOf(next, name);
    var k := IndexOf(row, field);
    assert next[k] == (field, value) && forall l :: 0 <= l < k ==> next[l] == row[l];
    if name != field {
      assert forall k :: 0 <= k < |row| ==> next[k].0 == row[k].0;
      if i < |row| {
        assert next[i].0 == name;
      }
      if j < |next| {
        assert j < |row|;
      }
    }
  }

  lemma NoSuffix(field: string, name: string)
    requires Undotted(field)
    ensures !EndsWith(field, "." + name)
  {
    var suffix := "." + name;
    if |suffix| <= |field| {
      assert field[|field| - |suffix|..][0] in field;
      assert suffix[0] == '.';
    }
  }

  lemma ExtendTail(row: Row, field: string, value: Value)
    ensures var next := Extend(row, field, value);
      && next != []
      && (row == [] ==> next == [(field, value)])
      && (row != [] && row[0].0 == field ==> next[0].0 == field && next[1..] == row[1..])
      && (row != [] && row[0].0 != field ==> next[0] == row[0] && next[1..] == Extend(row[1..], field, value))
  {
  }

  lemma {:induction false} ExtendMatches(row: Row, field: string, value: Value, name: string)
    requires Undotted(field)
    ensures Matches(Extend(row, field, value), name) == Matches(row, name)
  {
    hide Extend, EndsWith, Undotted;
    NoSuffix(field, name);
    ExtendTail(row, field, value);
    if row != [] && row[0].0 != field {
      ExtendMatches(row[1..], field, value, name);
    }
  }

  lemma ColumnUnaffected(row: Row, field: string, value: Value, table: string, name: string)
    requires Undotted(field) && name != field
    ensures EvalColumn(Extend(row, field, value), table, name) == EvalColumn(row, table, name)
  {
    hide Extend, IndexOf, Matches;
    var qualified := table + "." + name;
    assert qualified[|table|] == '.';
    ExtendLookup(row, field, value, qualified);
    ExtendLookup(row, field, value, name);
    ExtendMatches(row, field, value, name);
  }

  /** An expression that does not name a column does not see it being added or replaced. */
  lemma {:induction false} Unaffected(p: Platform, e: Expr, row: Row, field: string, value: Value)
    requires Undotted(field) && !Names(e, field)
    ensures Eval(p, e, Extend(row, field, value)) == Eval(p, e, row)
    decreases e, 0
  {
    hide EvalColumn, Extend;
    match e
    case Column(table, name) => ColumnUnaffected(row, field, value, table, name);
    case Star(_) =>
    case Constant(_) =>
    case Paren(inner) => Unaffected(p, inner, row, field, value);
    case Not(inner) => Unaffected(p, inner, row, field, value);
    case And(l, r) =>
      Unaffected(p, l, row, field, value);
      Unaffected(p, r, row, field, value);
    case Or(l, r) =>
      Unaffected(p, l, row, field, value);
      Unaffected(p, r, row, field, value);
    case IsNull(inner) => Unaffected(p, inner, row, field, value);
    case In(needle, choices) =>
      Unaffected(p, needle, row, field, value);
      AllUnaffected(p, choices, row, field, value);
    case Coalesce(candidates) => FirstUnaffected(p, candidates, row, field, value);
    case Case(base, branches, default) =>
      if base.Some? {
        Unaffected(p, base.value, row, field, value);
      }
      var v := if base.None? then Ok(Null) else Eval(p, base.value, row);
      if v.Ok? {
        BranchesUnaffected(p, if base.None? then None else Some(v.value), branches, row, field, value);
      }
      if default.Some? {
        Unaffected(p, default.value, row, field, value);
      }
    case Strict(_, operands) => AllUnaffected(p, operands, row, field, value);
    case Scalar(_, arguments) => AllUnaffected(p, arguments, row, field, value);
    case AiCall(_, _) =>
  }

  lemma {:induction false} AllUnaffected(p: Platform, es: seq<Expr>, row: Row, field: string, value: Value)
    requires Undotted(field) && !SomeNames(es, field)
    ensures EvalAll(p, es, Extend(row, field, value)) == EvalAll(p, es, row)
    decreases es, 0
  {
    hide Extend, Eval;
    if es != [] {
      Unaffected(p, es[0], row, field, value);
      AllUnaffected(p, es[1..], row, field, value);
    }
  }

  lemma {:induction false} FirstUnaffected(p: Platform, es: seq<Expr>, row: Row, field: string, value: Value)
    requires Undotted(field) && !SomeNames(es, field)
    ensures EvalFirst(p, es, Extend(row, field, value)) == EvalFirst(p, es, row)
    decreases es, 0
  {
    hide Extend, Eval;
    if es != [] {
      Unaffected(p, es[0], row, field, value);
      FirstUnaffected(p, es[1..], row, field, value);
    }
  }

  lemma {:induction false} BranchUnaffected(
      p: Platform, base: Option<Value>, branch: Branch, row: Row, field: string, value: Value)
    requires Undotted(field) && !BranchNames(branch, field)
    ensures EvalBranch(p, base, branch, Extend(row, field, value)) == EvalBranch(p, base, branch, row)
    decreases branch, 0
  {
    hide Extend, Eval;
    Unaffected(p, branch.condition, row, field, value);
    Unaffected(p, branch.outcome, row, field, value);
  }

  lemma {:induction false} BranchesUnaffected(
      p: Platform, base: Option<Value>, branches: seq<Branch>, row: Row, field: string, value: Value)
    requires Undotted(field) && !BranchesName(branches, field)
    ensures EvalBranches(p, base, branches, Extend(row, field, value)) == EvalBranches(p, base, branches, row)
    decreases branches, 0
  {
    hide Extend, EvalBranch;
    if branches != [] {
      BranchUnaffected(p, base, branches[0], row, field, value);
      BranchesUnaffected(p, base, branches[1..], row, field, value);
    }
  }
}

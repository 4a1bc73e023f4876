/** Which projection lists can be planned, how often a call is computed, and what a projected row holds. */
module ProjectionLaws {
  import opened Wrappers
  import opened SqlExpressions
  import opened SqlMeaning
  import opened AiProjections

  // ---- acceptance of the plan ----------------------------------------------

  ghost predicate SomeNative(n: Rendering, es: seq<Expr>) {
    exists e :: e in es && n.native(e)
  }

  /** An AI call is registered and has no argument that only Ray Data can evaluate. */
  ghost predicate Plannable(n: Rendering, registered: set<string>, q: Projection) {
    q.value.AiCall? ==> !SomeNative(n, q.value.inputs) && q.value.identifier in registered
  }

  ghost predicate AllPlannable(n: Rendering, registered: set<string>, projections: seq<Projection>) {
    forall i :: 0 <= i < |projections| ==> Plannable(n, registered, projections[i])
  }

  ghost predicate KeysRegistered(registered: set<string>, plan: Plan) {
    forall key :: key in plan.fields ==> key.0 in registered
  }

  lemma NativeIff(n: Rendering, es: seq<Expr>)
    ensures AnyNative(n, es) <==> SomeNative(n, es)
  {
    if AnyNative(n, es) {
      var i :| 0 <= i < |es| && n.native(es[i]);
      assert es[i] in es;
    }
  }

  lemma NextAccepts(n: Rendering, registered: set<string>, plan: Plan, q: Projection)
    requires KeysRegistered(registered, plan)
    ensures PlanNext(n, registered, plan, q).Ok? <==> Plannable(n, registered, q)
    ensures PlanNext(n, registered, plan, q).Ok? ==> KeysRegistered(registered, PlanNext(n, registered, plan, q).value)
    ensures PlanNext(n, registered, plan, q).Err? ==> PlanNext(n, registered, plan, q) == Err(
      if SomeNative(n, q.value.inputs) then NativeArguments(q.value.identifier) else Unregistered(q.value.identifier))
  {
    hide AnyNative, SomeNative, OutputName, Field;
    if q.value.AiCall? {
      NativeIff(n, q.value.inputs);
    }
  }

  /** A list can be planned exactly when every AI call in it is registered and has no native argument. */
  lemma {:induction false} PlanSucceedsIff(n: Rendering, registered: set<string>, projections: seq<Projection>)
    ensures PlanOf(n, registered, projections).Ok? <==> AllPlannable(n, registered, projections)
    ensures PlanOf(n, registered, projections).Ok? ==>
      KeysRegistered(registered, PlanOf(n, registered, projections).value)
  {
    hide PlanNext, Plannable, KeysRegistered;
    if projections == [] {
      NoKeys(registered);
    } else {
      var last := |projections| - 1;
      PlanSucceedsIff(n, registered, projections[..last]);
      if PlanOf(n, registered, projections[..last]).Ok? {
        NextAccepts(n, registered, PlanOf(n, registered, projections[..last]).value, projections[last]);
      }
    }
  }

  lemma NoKeys(registered: set<string>)
    ensures KeysRegistered(registered, Plan([], map[], []))
  {
  }

  /** The first call that cannot be planned decides the error: native arguments before a missing registration. */
  lemma PlanErrorIs(n: Rendering, registered: set<string>, projections: seq<Projection>, i: nat)
    requires i < |projections| && !Plannable(n, registered, projections[i])
    requires forall j :: 0 <= j < i ==> Plannable(n, registered, projections[j])
    ensures var call := projections[i].value;
      PlanOf(n, registered, projections) == Err(
        if SomeNative(n, call.inputs) then NativeArguments(call.identifier) else Unregistered(call.identifier))
  {
    hide PlanNext, Plannable, SomeNative, KeysRegistered;
    var before := projections[..i];
    PlanSucceedsIff(n, registered, before);
    NextAccepts(n, registered, PlanOf(n, registered, before).value, projections[i]);
    assert projections[..i + 1][..i] == before;
    PlanStops(n, registered, projections, i + 1);
  }

  // ---- each call once ------------------------------------------------------

  ghost predicate KeyOfEach(n: Rendering, plan: Plan) {
    forall k :: 0 <= k < |plan.computations| ==>
      var c := plan.computations[k]; (c.identifier, n.sql(AiCall(c.identifier, c.inputs))) in plan.fields
  }

  ghost predicate CallsDistinct(plan: Plan) {
    forall j, k :: 0 <= j < k < |plan.computations| ==> !SameCall(plan.computations[j], plan.computations[k])
  }

  predicate SameCall(c: Computation, d: Computation) {
    c.identifier == d.identifier && c.inputs == d.inputs
  }

  /** No call is computed twice, however often the list has it. */
  lemma {:induction false} ComputedOnce(n: Rendering, registered: set<string>, projections: seq<Projection>)
    requires PlanOf(n, registered, projections).Ok?
    ensures CallsDistinct(PlanOf(n, registered, projections).value)
    ensures KeyOfEach(n, PlanOf(n, registered, projections).value)
  {
    hide PlanNext, CallsDistinct, KeyOfEach;
    if projections == [] {
      NothingComputed(n);
    } else {
      var last := |projections| - 1;
      ComputedOnce(n, registered, projections[..last]);
      NextOnce(n, registered, PlanOf(n, registered, projections[..last]).value, projections[last]);
    }
  }

  lemma NothingComputed(n: Rendering)
    ensures CallsDistinct(Plan([], map[], [])) && KeyOfEach(n, Plan([], map[], []))
  {
  }

  lemma NextOnce(n: Rendering, registered: set<string>, plan: Plan, q: Projection)
    requires CallsDistinct(plan) && KeyOfEach(n, plan) && PlanNext(n, registered, plan, q).Ok?
    ensures CallsDistinct(PlanNext(n, registered, plan, q).value)
    ensures KeyOfEach(n, PlanNext(n, registered, plan, q).value)
  {
    hide AnyNative, OutputName, Field;
    var next := PlanNext(n, registered, plan, q).value;
    forall j, k | 0 <= j < k < |next.computations| ensures !SameCall(next.computations[j], next.computations[k]) {
      if k < |plan.computations| {
        assert !SameCall(plan.computations[j], plan.computations[k]);
      } else {
        var c := plan.computations[j];
        assert (c.identifier, n.sql(AiCall(c.identifier, c.inputs))) in plan.fields;
      }
    }
  }

  // ---- names ---------------------------------------------------------------

  /** The output is named by the alias, without one by the expression's own name, and else by its text. */
  lemma OutputNameTable(n: Rendering, e: Expr, alias: string)
    ensures alias != "" ==> OutputName(n, Aliased(e, alias)) == alias
    ensures n.nameOf(e) != "" ==> OutputName(n, Plain(e)) == n.nameOf(e) == OutputName(n, Aliased(e, ""))
    ensures n.nameOf(e) == "" ==> OutputName(n, Plain(e)) == n.text(Plain(e))
    ensures Lawful(n) ==> OutputName(n, Plain(e)) != "" && OutputName(n, Aliased(e, alias)) != ""
  {
  }

  // ---- a projected row -----------------------------------------------------

  ghost predicate NoStars(projections: seq<Projection>) {
    forall i :: 0 <= i < |projections| ==> !projections[i].value.Star?
  }

  ghost predicate NamesDiffer(n: Rendering, projections: seq<Projection>) {
    forall i, j :: 0 <= i < j < |projections| ==> OutputName(n, projections[i]) != OutputName(n, projections[j])
  }

  ghost predicate AllComputed(p: Platform, f: Backend, projections: seq<Projection>, row: Row) {
    forall i :: 0 <= i < |projections| ==> ValueOf(p, f, projections[i].value, row).Ok?
  }

  ghost predicate HoldsValues(
      p: Platform, f: Backend, n: Rendering, projections: seq<Projection>, row: Row, result: Row)
  {
    && |result| == |projections|
    && forall i :: 0 <= i < |projections| ==>
         result[i].0 == OutputName(n, projections[i]) && Ok(result[i].1) == ValueOf(p, f, projections[i].value, row)
  }

  /**
    Without stars a row is projected exactly when all output names differ and all values can be computed;
    it then has each value under its name, in the order of the list.
   */
  lemma {:induction false} ProjectIff(
      p: Platform, f: Backend, n: Rendering, projections: seq<Projection>, row: Row)
    requires NoStars(projections)
    ensures Project(p, f, n, projections, row).Ok? <==>
      NamesDiffer(n, projections) && AllComputed(p, f, projections, row)
    ensures Project(p, f, n, projections, row).Ok? ==>
      HoldsValues(p, f, n, projections, row, Project(p, f, n, projections, row).value)
  {
    hide OutputName, ValueOf, Has, CopyStar;
    if projections != [] {
      var last := |projections| - 1;
      var init := projections[..last];
      assert NoStars(init);
      ProjectIff(p, f, n, init, row);
      assert projections == init + [projections[last]];
      if NamesDiffer(n, projections) && AllComputed(p, f, projections, row) {
        assert NamesDiffer(n, init);
        forall i | 0 <= i < |init| ensures ValueOf(p, f, init[i].value, row).Ok? {
          assert init[i] == projections[i];
        }
      }
      if Project(p, f, n, init, row).Ok? {
        var result := Project(p, f, n, init, row).value;
        TakenIff(p, f, n, init, row, result, OutputName(n, projections[last]));
        ExtendNames(n, init, projections);
      }
    }
  }

  lemma TakenIff(
      p: Platform, f: Backend, n: Rendering, projections: seq<Projection>, row: Row, result: Row, name: string)
    requires HoldsValues(p, f, n, projections, row, result)
    ensures Has(result, name) <==> exists i :: 0 <= i < |projections| && OutputName(n, projections[i]) == name
  {
    hide OutputName, ValueOf, IndexOf;
    HasIff(result, name);
    if KeyIn(result, name) {
      var i :| 0 <= i < |result| && result[i].0 == name;
      assert OutputName(n, projections[i]) == name;
    }
    if exists i :: 0 <= i < |projections| && OutputName(n, projections[i]) == name {
      var i :| 0 <= i < |projections| && OutputName(n, projections[i]) == name;
      assert result[i].0 == name;
    }
  }

  lemma ExtendNames(n: Rendering, init: seq<Projection>, projections: seq<Projection>)
    requires projections != [] && init == projections[..|projections| - 1]
    ensures var name := OutputName(n, projections[|projections| - 1]);
      NamesDiffer(n, projections) <==>
        NamesDiffer(n, init) && !(exists i :: 0 <= i < |init| && OutputName(n, init[i]) == name)
  {
    hide OutputName;
    var last := |projections| - 1;
    if NamesDiffer(n, projections) {
      forall i | 0 <= i < last ensures OutputName(n, init[i]) != OutputName(n, projections[last]) {
        assert init[i] == projections[i];
      }
      forall i, j | 0 <= i < j < last ensures OutputName(n, init[i]) != OutputName(n, init[j]) {
        assert init[i] == projections[i] && init[j] == projections[j];
      }
    }
    var name := OutputName(n, projections[last]);
    if NamesDiffer(n, init) && !(exists i :: 0 <= i < |init| && OutputName(n, init[i]) == name) {
      forall i, j | 0 <= i < j < |projections| ensures OutputName(n, projections[i]) != OutputName(n, projections[j]) {
        assert init[i] == projections[i];
        if j < last {
          assert init[j] == projections[j];
        }
      }
    }
  }

  /** An AI call on a row: any failing argument fails it, else any NULL makes it NULL, else the backend answers. */
  lemma AiValueTable(p: Platform, f: Backend, identifier: string, es: seq<Expr>, row: Row)
    ensures var r := ValueOf(p, f, AiCall(identifier, es), row);
      && (!AllAnswer(p, es, row) ==> r.Err?)
      && (AllAnswer(p, es, row) && SomeAnswers(p, es, row, Null) ==> r == Ok(Null))
      && (AllAnswer(p, es, row) && !SomeAnswers(p, es, row, Null) ==>
            r == f(identifier, seq(|es|, i requires 0 <= i < |es| && AllAnswer(p, es, row) =>
              Eval(p, es[i], row).value)))
  {
    hide EvalAll;
    AllTable(p, es, row);
    if AllAnswer(p, es, row) {
      NullAmong(p, es, row);
      AnsweredValues(p, es, row);
    }
  }

  // ---- stars ---------------------------------------------------------------

  /** A name without dots stays; any other loses what stands before its first dot, and the dot. */
  lemma {:induction false} AfterFirstDot(before: string, rest: string)
    requires Undotted(before)
    ensures AfterDot(before) == before
    ensures AfterDot(before + "." + rest) == rest
  {
    var s := before + "." + rest;
    if before == "" {
      assert s[1..] == rest;
    } else {
      assert before[0] in before && s[0] == before[0] && s[1..] == before[1..] + "." + rest;
      assert Undotted(before[1..]);
      AfterFirstDot(before[1..], rest);
      assert before == [before[0]] + before[1..];
      assert s[|before|] == '.';
    }
  }

  /** What a star does with an entry whose key has no dot. */
  lemma PlainEntry(result: Row, name: string, value: Value, row: Row, table: string)
    requires Undotted(name) && !StartsWith(name, "_klein_")
    ensures CopyEntry(result, (name, value), row, "") == Extend(result, name, value)
    ensures table != "" ==> CopyEntry(result, (name, value), row, table) == result
  {
    AfterFirstDot(name, "");
    if StartsWith(name, table + ".") {
      QualifierHasDot(name, table);
    }
  }

  lemma QualifierHasDot(name: string, table: string)
    requires StartsWith(name, table + ".")
    ensures '.' in name
  {
    assert name[|table|] == (table + ".")[|table|] == '.';
  }

  /**
    What a star does with an entry of a joined table: its key loses the qualifier unless the short name is
    taken; `*` leaves it out when the row has the short name itself, and `t.*` when the qualifier is another.
   */
  lemma QualifiedEntry(result: Row, table: string, name: string, value: Value, row: Row, asked: string)
    requires table != "" && Undotted(table) && Undotted(asked) && !StartsWith(table + "." + name, "_klein_")
    ensures var entry, kept := (table + "." + name, value), CopyEntry(result, (table + "." + name, value), row, asked);
      && (asked == "" && KeyIn(row, name) ==> kept == result)
      && (asked != "" && asked != table ==> kept == result)
      && (asked == table || (asked == "" && !KeyIn(row, name)) ==>
            kept == Extend(result, if KeyIn(result, name) then table + "." + name else name, value))
  {
    hide Has, Extend;
    AfterFirstDot(table, name);
    HasIff(row, name);
    HasIff(result, name);
    var source := table + "." + name;
    assert source[|table|] == '.' && source[|table|] in source;
    if asked != "" {
      SameQualifier(table, name, asked);
    }
  }

  lemma SameQualifier(table: string, name: string, asked: string)
    requires Undotted(table) && Undotted(asked)
    ensures StartsWith(table + "." + name, asked + ".") <==> asked == table
  {
    var source := table + "." + name;
    if StartsWith(source, asked + ".") {
      assert source[..|asked| + 1] == asked + ".";
      assert source[|asked|] == '.' && source[|table|] == '.';
      assert forall i :: 0 <= i < |table| ==> source[i] == table[i] && table[i] in table;
      assert forall i :: 0 <= i < |asked| ==> source[i] == (asked + ".")[i] == asked[i] && asked[i] in asked;
      assert |asked| == |table|;
      assert source[..|table|] == table;
      assert (asked + ".")[..|asked|] == asked;
    }
    if asked == table {
      assert source[..|table| + 1] == table + ".";
    }
  }

  /** No star shows a reserved column. */
  lemma ReservedEntry(result: Row, source: string, value: Value, row: Row, table: string)
    requires StartsWith(source, "_klein_")
    ensures CopyEntry(result, (source, value), row, table) == result
  {
  }

  ghost predicate PlainRow(row: Row) {
    && (forall i :: 0 <= i < |row| ==> Undotted(row[i].0) && !StartsWith(row[i].0, "_klein_"))
    && (forall i, j :: 0 <= i < j < |row| ==> row[i].0 != row[j].0)
  }

  lemma {:induction false} StarPrefix(row: Row, k: nat)
    requires PlainRow(row) && k <= |row|
    ensures CopyStar([], row, "", k) == row[..k]
  {
    hide CopyEntry, Undotted, StartsWith, Extend, IndexOf;
    if k > 0 {
      StarPrefix(row, k - 1);
      PlainEntry(row[..k - 1], row[k - 1].0, row[k - 1].1, row, "");
      Appended(row, k - 1);
    }
  }

  lemma Appended(row: Row, k: nat)
    requires PlainRow(row) && k < |row|
    ensures Extend(row[..k], row[k].0, row[k].1) == row[..k + 1]
  {
    hide Undotted, StartsWith;
    assert forall j :: 0 <= j < k ==> row[..k][j].0 != row[k].0;
    assert row[..k] + [(row[k].0, row[k].1)] == row[..k + 1];
  }

  /** On a row of a single table, `*` is the row. */
  lemma StarIsRow(row: Row)
    requires PlainRow(row)
    ensures CopyStar([], row, "", |row|) == row
  {
    StarPrefix(row, |row|);
    assert row[..|row|] == row;
  }

  /** A star in the list adds its entries to what stands before it. */
  lemma ProjectStar(
      p: Platform, f: Backend, n: Rendering, before: seq<Projection>, star: Projection, row: Row)
    requires star.value.Star?
    ensures var all := Project(p, f, n, before + [star], row);
      && (all.Ok? <==> Project(p, f, n, before, row).Ok?)
      && (all.Ok? ==>
            all.value == CopyStar(Project(p, f, n, before, row).value, row, star.value.starTable, |row|))
  {
    assert (before + [star])[..|before|] == before;
  }

  /** `SELECT *` from a single table is the row. */
  lemma SelectStar(p: Platform, f: Backend, n: Rendering, row: Row)
    requires PlainRow(row)
    ensures Project(p, f, n, [Plain(Star(""))], row) == Ok(row)
  {
    ProjectStar(p, f, n, [], Plain(Star("")), row);
    assert [] + [Plain(Star(""))] == [Plain(Star(""))];
    StarIsRow(row);
  }

  /** A batch without columns has no rows: the new column is empty. */
  lemma EmptyBatch(p: Platform, f: Backend, c: Computation)
    ensures BatchResult(p, f, c, []) == Ok([(c.field, [])])
  {
    var b: Batch := [];
    assert RowCount(b) == 0 && AllValued(p, f, c, b);
    assert NewColumn(p, f, c, b) == [];
    assert Extend<seq<Value>>([], c.field, []) == [(c.field, [])];
  }
}

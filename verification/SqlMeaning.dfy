/** What each kind of expression answers, told by the row's keys and the answers of its operands. */
module SqlMeaning {
  import opened Wrappers
  import opened SqlExpressions

  // ---- columns -------------------------------------------------------------

  /** Position `i` is the first with this key; in a dictionary it is the only one. */
  ghost predicate FirstAt(row: Row, key: string, i: nat) {
    i < |row| && row[i].0 == key && forall j :: 0 <= j < i ==> row[j].0 != key
  }

  ghost predicate KeyIn(row: Row, key: string) {
    exists i :: 0 <= i < |row| && row[i].0 == key
  }

  /** The key is the name under some qualifier, which may itself be dotted or empty. */
  ghost predicate IsQualified(key: string, name: string) {
    exists qualifier: string :: IsUnder(key, qualifier, name)
  }

  predicate IsUnder(key: string, qualifier: string, name: string) {
    key == qualifier + "." + name
  }

  lemma QualifiedIff(key: string, name: string)
    ensures IsQualified(key, name) <==> EndsWith(key, "." + name)
  {
    hide EndsWith;
    if EndsWith(key, "." + name) {
      SuffixSplits(key, "." + name);
      var qualifier := key[..|key| - |"." + name|];
      Joined(qualifier, name);
      assert IsUnder(key, qualifier, name);
    }
    if IsQualified(key, name) {
      var qualifier: string :| IsUnder(key, qualifier, name);
      Joined(qualifier, name);
      JoinedEnds(qualifier, "." + name);
    }
  }

  lemma Joined(qualifier: string, name: string)
    ensures qualifier + "." + name == qualifier + ("." + name)
  {
  }

  lemma SuffixSplits(key: string, suffix: string)
    requires EndsWith(key, suffix)
    ensures |suffix| <= |key| && key == key[..|key| - |suffix|] + suffix
  {
  }

  lemma JoinedEnds(qualifier: string, suffix: string)
    ensures EndsWith(qualifier + suffix, suffix)
  {
  }

  ghost predicate NoneQualified(row: Row, name: string) {
    forall i :: 0 <= i < |row| ==> !IsQualified(row[i].0, name)
  }

  ghost predicate OnlyQualified(row: Row, name: string, i: nat) {
    && i < |row| && IsQualified(row[i].0, name)
    && forall j :: 0 <= j < |row| && j != i ==> !IsQualified(row[j].0, name)
  }

  lemma TailKeys(row: Row, name: string)
    requires row != []
    ensures forall j :: 0 < j < |row| ==> row[j] == row[1..][j - 1]
  {
  }

  lemma {:induction false} MatchesNone(row: Row, name: string)
    requires NoneQualified(row, name)
    ensures Matches(row, name) == []
  {
    hide EndsWith, IsQualified;
    if row != [] {
      TailKeys(row, name);
      QualifiedIff(row[0].0, name);
      MatchesNone(row[1..], name);
    }
  }

  lemma {:induction false} MatchesOne(row: Row, name: string, i: nat)
    requires OnlyQualified(row, name, i)
    ensures Matches(row, name) == [row[i].1]
  {
    hide EndsWith, IsQualified;
    TailKeys(row, name);
    QualifiedIff(row[0].0, name);
    if i == 0 {
      MatchesNone(row[1..], name);
    } else {
      MatchesOne(row[1..], name, i - 1);
    }
  }

  lemma {:induction false} MatchesMany(row: Row, name: string, i: nat, j: nat)
    requires i < j < |row| && IsQualified(row[i].0, name) && IsQualified(row[j].0, name)
    ensures |Matches(row, name)| >= 2
  {
    hide EndsWith, IsQualified;
    TailKeys(row, name);
    QualifiedIff(row[0].0, name);
    if i == 0 {
      MatchesSome(row[1..], name, j - 1);
    } else {
      MatchesMany(row[1..], name, i - 1, j - 1);
    }
  }

  lemma {:induction false} MatchesSome(row: Row, name: string, i: nat)
    requires i < |row| && IsQualified(row[i].0, name)
    ensures |Matches(row, name)| >= 1
  {
    hide EndsWith, IsQualified;
    TailKeys(row, name);
    QualifiedIff(row[0].0, name);
    if i > 0 {
      MatchesSome(row[1..], name, i - 1);
    }
  }

  lemma HasIff(row: Row, key: string)
    ensures Has(row, key) <==> KeyIn(row, key)
    ensures forall i: nat :: FirstAt(row, key, i) ==> IndexOf(row, key) == i
  {
  }

  /** A qualified column that is a key of the row has the value of that key, whatever other columns there are. */
  lemma QualifiedColumn(p: Platform, row: Row, table: string, name: string, i: nat)
    requires table != "" && FirstAt(row, table + "." + name, i)
    ensures Eval(p, Column(table, name), row) == Ok(row[i].1)
  {
    hide IndexOf, Matches;
    HasIff(row, table + "." + name);
  }

  /** Otherwise, or without a qualifier, the plain name decides. */
  lemma PlainColumn(p: Platform, row: Row, table: string, name: string, i: nat)
    requires table == "" || !KeyIn(row, table + "." + name)
    requires FirstAt(row, name, i)
    ensures Eval(p, Column(table, name), row) == Ok(row[i].1)
  {
    hide IndexOf, Matches;
    HasIff(row, table + "." + name);
    HasIff(row, name);
  }

  /**
    With neither key, a single key that qualifies the name decides, under whatever qualifier;
    with none the column is unknown, and with several ambiguous.
   */
  lemma SuffixColumn(p: Platform, row: Row, table: string, name: string)
    requires table == "" || !KeyIn(row, table + "." + name)
    requires !KeyIn(row, name)
    ensures forall i: nat :: OnlyQualified(row, name, i) ==> Eval(p, Column(table, name), row) == Ok(row[i].1)
    ensures (forall i: nat :: !OnlyQualified(row, name, i)) ==> Eval(p, Column(table, name), row) == Err(SqlError)
  {
    hide IndexOf, Matches, IsQualified;
    HasIff(row, table + "." + name);
    HasIff(row, name);
    forall i: nat | OnlyQualified(row, name, i) ensures Eval(p, Column(table, name), row) == Ok(row[i].1) {
      MatchesOne(row, name, i);
    }
    if forall i: nat :: !OnlyQualified(row, name, i) {
      NotOne(row, name);
    }
  }

  lemma NotOne(row: Row, name: string)
    requires forall i: nat :: !OnlyQualified(row, name, i)
    ensures |Matches(row, name)| != 1
  {
    hide Matches, IsQualified;
    if NoneQualified(row, name) {
      MatchesNone(row, name);
    } else {
      var i: nat :| i < |row| && IsQualified(row[i].0, name);
      assert !OnlyQualified(row, name, i);
      var j: nat :| j < |row| && j != i && IsQualified(row[j].0, name);
      if i < j {
        MatchesMany(row, name, i, j);
      } else {
        MatchesMany(row, name, j, i);
      }
    }
  }

  // ---- logic ---------------------------------------------------------------

  /** Exactly when a negation fails, is NULL, true or false. */
  lemma NotTable(p: Platform, e: Expr, row: Row)
    ensures var a, r := Eval(p, e, row), Eval(p, Not(e), row);
      && (r.Err? <==> a.Err?)
      && (r == Ok(Null) <==> a == Ok(Null))
      && (r == Ok(Bool(true)) <==> a.Ok? && a.value != Null && !p.truthy(a.value))
      && (r == Ok(Bool(false)) <==> a.Ok? && a.value != Null && p.truthy(a.value))
  {
  }

  /** Exactly when a conjunction fails, is false, NULL or true: false wins over NULL, but not over an error. */
  lemma AndTable(p: Platform, l: Expr, r: Expr, row: Row)
    ensures var a, b, result := Eval(p, l, row), Eval(p, r, row), Eval(p, And(l, r), row);
      && (result.Err? <==> a.Err? || b.Err?)
      && (a.Ok? && b.Ok? ==>
            && (result == Ok(Null) <==>
                  a.value != Bool(false) && b.value != Bool(false) && (a.value == Null || b.value == Null))
            && (result == Ok(Bool(true)) <==>
                  a.value != Bool(false) && b.value != Bool(false) && a.value != Null && b.value != Null
                  && p.truthy(a.value) && p.truthy(b.value))
            && (result == Ok(Null) || result == Ok(Bool(true)) || result == Ok(Bool(false))))
  {
  }

  /** The same for a disjunction, where true wins over NULL. */
  lemma OrTable(p: Platform, l: Expr, r: Expr, row: Row)
    ensures var a, b, result := Eval(p, l, row), Eval(p, r, row), Eval(p, Or(l, r), row);
      && (result.Err? <==> a.Err? || b.Err?)
      && (a.Ok? && b.Ok? ==>
            && (result == Ok(Null) <==>
                  a.value != Bool(true) && b.value != Bool(true) && (a.value == Null || b.value == Null))
            && (result == Ok(Bool(false)) <==>
                  a.value != Bool(true) && b.value != Bool(true) && a.value != Null && b.value != Null
                  && !p.truthy(a.value) && !p.truthy(b.value))
            && (result == Ok(Null) || result == Ok(Bool(true)) || result == Ok(Bool(false))))
  {
  }

  /** Truth of the two booleans is the boolean itself. */
  ghost predicate TruthfulBooleans(p: Platform) {
    forall b: bool :: p.truthy(Bool(b)) == b
  }

  predicate IsLogical(a: Answer) {
    a.Ok? && (a.value == Null || a.value.Bool?)
  }

  /** False, unknown and true as numbers: conjunction is the lesser, disjunction the greater, negation the mirror. */
  function Level(v: Value): int {
    if v == Bool(true) then 2 else if v == Bool(false) then 0 else 1
  }

  /** On booleans and NULL the three operators are Kleene's three-valued logic. */
  lemma KleeneLogic(p: Platform, l: Expr, r: Expr, row: Row)
    requires TruthfulBooleans(p) && IsLogical(Eval(p, l, row)) && IsLogical(Eval(p, r, row))
    ensures var a, b := Level(Eval(p, l, row).value), Level(Eval(p, r, row).value);
      && IsLogical(Eval(p, Not(l), row)) && Level(Eval(p, Not(l), row).value) == 2 - a
      && IsLogical(Eval(p, And(l, r), row)) && Level(Eval(p, And(l, r), row).value) == (if a < b then a else b)
      && IsLogical(Eval(p, Or(l, r), row)) && Level(Eval(p, Or(l, r), row).value) == (if a < b then b else a)
  {
    NotTable(p, l, row);
    AndTable(p, l, r, row);
    OrTable(p, l, r, row);
  }

  lemma SameLevel(a: Answer, b: Answer)
    requires IsLogical(a) && IsLogical(b) && Level(a.value) == Level(b.value)
    ensures a == b
  {
  }

  /** De Morgan's laws, and double negation, also with NULLs. */
  lemma DeMorgan(p: Platform, l: Expr, r: Expr, row: Row)
    requires TruthfulBooleans(p) && IsLogical(Eval(p, l, row)) && IsLogical(Eval(p, r, row))
    ensures Eval(p, Not(And(l, r)), row) == Eval(p, Or(Not(l), Not(r)), row)
    ensures Eval(p, Not(Or(l, r)), row) == Eval(p, And(Not(l), Not(r)), row)
    ensures Eval(p, Not(Not(l)), row) == Eval(p, l, row)
  {
    hide Eval, Level, IsLogical;
    KleeneLogic(p, l, r, row);
    KleeneLogic(p, r, l, row);
    KleeneLogic(p, And(l, r), Or(l, r), row);
    KleeneLogic(p, Or(l, r), l, row);
    KleeneLogic(p, Not(l), Not(r), row);
    SameLevel(Eval(p, Not(And(l, r)), row), Eval(p, Or(Not(l), Not(r)), row));
    SameLevel(Eval(p, Not(Or(l, r)), row), Eval(p, And(Not(l), Not(r)), row));
    SameLevel(Eval(p, Not(Not(l)), row), Eval(p, l, row));
  }

  /** `IS NULL` is never NULL itself. */
  lemma IsNullTable(p: Platform, e: Expr, row: Row)
    ensures var a, r := Eval(p, e, row), Eval(p, IsNull(e), row);
      && (r.Err? <==> a.Err?)
      && (r == Ok(Bool(true)) <==> a == Ok(Null))
      && (r == Ok(Bool(false)) <==> a.Ok? && a != Ok(Null))
  {
  }

  // ---- several operands ----------------------------------------------------

  ghost predicate AllAnswer(p: Platform, es: seq<Expr>, row: Row) {
    forall i :: 0 <= i < |es| ==> Eval(p, es[i], row).Ok?
  }

  ghost predicate SomeAnswers(p: Platform, es: seq<Expr>, row: Row, v: Value) {
    exists i :: 0 <= i < |es| && Eval(p, es[i], row) == Ok(v)
  }

  /** Several operands are evaluated when each of them is, to the values that each has by itself. */
  lemma {:induction false} AllTable(p: Platform, es: seq<Expr>, row: Row)
    ensures EvalAll(p, es, row).Ok? <==> AllAnswer(p, es, row)
    ensures EvalAll(p, es, row).Ok? ==>
      |EvalAll(p, es, row).value| == |es|
      && forall i :: 0 <= i < |es| ==> Eval(p, es[i], row) == Ok(EvalAll(p, es, row).value[i])
  {
    hide Eval;
    if es != [] {
      AllTable(p, es[1..], row);
      assert forall i :: 0 < i < |es| ==> es[i] == es[1..][i - 1];
      if AllAnswer(p, es, row) {
        assert Eval(p, es[0], row).Ok?;
      }
      if AllAnswer(p, es[1..], row) && Eval(p, es[0], row).Ok? {
        forall i | 0 <= i < |es| ensures Eval(p, es[i], row).Ok? {
          assert i > 0 ==> Eval(p, es[1..][i - 1], row).Ok?;
        }
      }
      if AllAnswer(p, es, row) {
        forall i | 0 <= i < |es| - 1 ensures Eval(p, es[1..][i], row).Ok? {
          assert Eval(p, es[i + 1], row).Ok?;
        }
      }
    }
  }

  lemma NullAmong(p: Platform, es: seq<Expr>, row: Row)
    requires EvalAll(p, es, row).Ok?
    ensures Null in EvalAll(p, es, row).value <==> SomeAnswers(p, es, row, Null)
  {
    hide Eval, EvalAll;
    AllTable(p, es, row);
    var vs := EvalAll(p, es, row).value;
    if SomeAnswers(p, es, row, Null) {
      var i :| 0 <= i < |es| && Eval(p, es[i], row) == Ok(Null);
      assert vs[i] == Null;
    }
    if Null in vs {
      var i :| 0 <= i < |vs| && vs[i] == Null;
      assert Eval(p, es[i], row) == Ok(Null);
    }
  }

  /** An operator that is strict in NULL: any failing operand fails it, else any NULL makes it NULL. */
  lemma StrictTable(p: Platform, op: string, es: seq<Expr>, row: Row)
    ensures var r := Eval(p, Strict(op, es), row);
      && (!AllAnswer(p, es, row) ==> r.Err?)
      && (AllAnswer(p, es, row) && SomeAnswers(p, es, row, Null) ==> r == Ok(Null))
      && (AllAnswer(p, es, row) && !SomeAnswers(p, es, row, Null) ==>
            r == p.apply(op, seq(|es|, i requires 0 <= i < |es| && AllAnswer(p, es, row) => Eval(p, es[i], row).value)))
  {
    hide EvalAll;
    AllTable(p, es, row);
    if AllAnswer(p, es, row) {
      NullAmong(p, es, row);
      AnsweredValues(p, es, row);
    }
  }

  lemma AnsweredValues(p: Platform, es: seq<Expr>, row: Row)
    requires AllAnswer(p, es, row)
    ensures EvalAll(p, es, row) == Ok(seq(|es|, i requires 0 <= i < |es| && AllAnswer(p, es, row) =>
      Eval(p, es[i], row).value))
  {
    hide EvalAll, Eval;
    AllTable(p, es, row);
    var vs := seq(|es|, i requires 0 <= i < |es| && AllAnswer(p, es, row) => Eval(p, es[i], row).value);
    assert EvalAll(p, es, row).value == vs;
  }

  /** A user function sees NULLs: it is called whenever its arguments answer. */
  lemma ScalarTable(p: Platform, callee: string, es: seq<Expr>, row: Row)
    ensures var r := Eval(p, Scalar(callee, es), row);
      && (!AllAnswer(p, es, row) ==> r.Err?)
      && (AllAnswer(p, es, row) ==>
            r == p.call(callee, seq(|es|, i requires 0 <= i < |es| && AllAnswer(p, es, row) =>
              Eval(p, es[i], row).value)))
  {
    hide EvalAll;
    AllTable(p, es, row);
    if AllAnswer(p, es, row) {
      AnsweredValues(p, es, row);
    }
  }

  /** Some choice has a value equal to `v`. */
  ghost predicate ChoiceEquals(p: Platform, v: Value, es: seq<Expr>, row: Row) {
    exists i :: 0 <= i < |es| && Eval(p, es[i], row).Ok? && p.equal(v, Eval(p, es[i], row).value)
  }

  /**
    `IN`: NULL for a NULL needle, whatever the choices, even failing ones; else an error when a choice
    fails, true when one is equal, NULL when none is but one is NULL, and false otherwise.
   */
  lemma InTable(p: Platform, e: Expr, es: seq<Expr>, row: Row)
    ensures var a, r := Eval(p, e, row), Eval(p, In(e, es), row);
      && (a.Err? ==> r.Err?)
      && (a == Ok(Null) ==> r == Ok(Null))
      && (a.Ok? && a.value != Null ==>
            && (r.Err? <==> !AllAnswer(p, es, row))
            && (r == Ok(Bool(true)) <==> AllAnswer(p, es, row) && ChoiceEquals(p, a.value, es, row))
            && (r == Ok(Null) <==>
                  AllAnswer(p, es, row) && !ChoiceEquals(p, a.value, es, row) && SomeAnswers(p, es, row, Null))
            && (r == Ok(Bool(false)) <==>
                  AllAnswer(p, es, row) && !ChoiceEquals(p, a.value, es, row) && !SomeAnswers(p, es, row, Null)))
  {
    hide EvalAll, ChoiceEquals, SomeAnswers, AllAnswer;
    AllTable(p, es, row);
    var a := Eval(p, e, row);
    if EvalAll(p, es, row).Ok? && a.Ok? {
      NullAmong(p, es, row);
      EqualAmong(p, a.value, es, row);
    }
  }

  lemma EqualAmong(p: Platform, v: Value, es: seq<Expr>, row: Row)
    requires EvalAll(p, es, row).Ok?
    ensures var vs := EvalAll(p, es, row).value;
      (exists i :: 0 <= i < |vs| && p.equal(v, vs[i])) <==> ChoiceEquals(p, v, es, row)
  {
    hide Eval, EvalAll;
    AllTable(p, es, row);
    var vs := EvalAll(p, es, row).value;
    if ChoiceEquals(p, v, es, row) {
      var i :| 0 <= i < |es| && Eval(p, es[i], row).Ok? && p.equal(v, Eval(p, es[i], row).value);
      assert p.equal(v, vs[i]);
    }
    if exists i :: 0 <= i < |vs| && p.equal(v, vs[i]) {
      var i :| 0 <= i < |vs| && p.equal(v, vs[i]);
      assert Eval(p, es[i], row) == Ok(vs[i]);
    }
  }

  ghost predicate NullUpTo(p: Platform, es: seq<Expr>, row: Row, n: nat)
    requires n <= |es|
  {
    forall j :: 0 <= j < n ==> Eval(p, es[j], row) == Ok(Null)
  }

  /** `COALESCE`: the answer of the first candidate that is not NULL, be it an error; what follows is not evaluated. */
  lemma {:induction false} CoalesceTable(p: Platform, es: seq<Expr>, row: Row)
    ensures forall i :: 0 <= i < |es| && NullUpTo(p, es, row, i) && Eval(p, es[i], row) != Ok(Null) ==>
      Eval(p, Coalesce(es), row) == Eval(p, es[i], row)
    ensures NullUpTo(p, es, row, |es|) ==> Eval(p, Coalesce(es), row) == Ok(Null)
  {
    FirstTable(p, es, row);
  }

  lemma {:induction false} FirstTable(p: Platform, es: seq<Expr>, row: Row)
    ensures forall i :: 0 <= i < |es| && NullUpTo(p, es, row, i) && Eval(p, es[i], row) != Ok(Null) ==>
      EvalFirst(p, es, row) == Eval(p, es[i], row)
    ensures NullUpTo(p, es, row, |es|) ==> EvalFirst(p, es, row) == Ok(Null)
  {
    hide Eval;
    if es != [] {
      FirstTable(p, es[1..], row);
      assert forall j :: 0 < j < |es| ==> es[j] == es[1..][j - 1];
      forall i | 0 <= i < |es| && NullUpTo(p, es, row, i) && Eval(p, es[i], row) != Ok(Null)
        ensures EvalFirst(p, es, row) == Eval(p, es[i], row)
      {
        if i > 0 {
          NullTail(p, es, row, i);
        }
      }
      if NullUpTo(p, es, row, |es|) {
        NullTail(p, es, row, |es|);
      }
    }
  }

  lemma NullTail(p: Platform, es: seq<Expr>, row: Row, n: nat)
    requires 0 < n <= |es| && NullUpTo(p, es, row, n)
    ensures Eval(p, es[0], row) == Ok(Null) && NullUpTo(p, es[1..], row, n - 1)
  {
    hide Eval;
    forall j | 0 <= j < n - 1 ensures Eval(p, es[1..][j], row) == Ok(Null) {
      assert Eval(p, es[j + 1], row) == Ok(Null);
    }
  }

  // ---- CASE ----------------------------------------------------------------

  /** Without a base, a branch is taken when its condition is true; with one, when the two are equal and not NULL. */
  ghost predicate Takes(p: Platform, base: Option<Expr>, branch: Branch, row: Row) {
    var m := Eval(p, branch.condition, row);
    if base.None? then m == Ok(Bool(true))
    else
      var b := Eval(p, base.value, row);
      m.Ok? && b.Ok? && b.value != Null && p.equal(m.value, b.value)
  }

  ghost predicate PassedBefore(p: Platform, base: Option<Expr>, branches: seq<Branch>, row: Row, n: nat)
    requires n <= |branches|
  {
    forall j :: 0 <= j < n ==>
      Eval(p, branches[j].condition, row).Ok? && !Takes(p, base, branches[j], row)
  }

  /**
    `CASE`: the outcome of the first branch that is taken, an error when a condition before it fails, and
    the default, or NULL, when none is taken.
   */
  lemma CaseTable(p: Platform, base: Option<Expr>, branches: seq<Branch>, default: Option<Expr>, row: Row)
    ensures var r := Eval(p, Case(base, branches, default), row);
      && (base.Some? && Eval(p, base.value, row).Err? ==> r.Err?)
      && (base.None? || Eval(p, base.value, row).Ok? ==>
            && (forall i :: 0 <= i < |branches| && PassedBefore(p, base, branches, row, i) ==>
                  && (Takes(p, base, branches[i], row) ==> r == Eval(p, branches[i].outcome, row))
                  && (Eval(p, branches[i].condition, row).Err? ==> r.Err?))
            && (PassedBefore(p, base, branches, row, |branches|) ==>
                  r == if default.None? then Ok(Null) else Eval(p, default.value, row)))
  {
    hide PassedBefore, Takes, EvalBranches, EvalFirst, EvalAll;
    if base.None? || Eval(p, base.value, row).Ok? {
      BranchesTable(p, base, branches, row);
    }
  }

  ghost function BaseValue(p: Platform, base: Option<Expr>, row: Row): Option<Value>
    requires base.None? || Eval(p, base.value, row).Ok?
  {
    if base.None? then None else Some(Eval(p, base.value, row).value)
  }

  lemma {:induction false} BranchesTable(p: Platform, base: Option<Expr>, branches: seq<Branch>, row: Row)
    requires base.None? || Eval(p, base.value, row).Ok?
    ensures var r := EvalBranches(p, BaseValue(p, base, row), branches, row);
      && (forall i :: 0 <= i < |branches| && PassedBefore(p, base, branches, row, i) ==>
            && (Takes(p, base, branches[i], row) ==> r == Outcome(p, branches[i], row))
            && (Eval(p, branches[i].condition, row).Err? ==> r.Err?))
      && (PassedBefore(p, base, branches, row, |branches|) ==> r == Ok(None))
  {
    hide Eval, Takes, PassedBefore, EvalBranch;
    if branches != [] {
      BranchesTable(p, base, branches[1..], row);
      BranchTable(p, base, branches[0], row);
      forall i | 0 < i <= |branches| && PassedBefore(p, base, branches, row, i)
        ensures PassedBefore(p, base, branches[1..], row, i - 1)
        ensures EvalBranch(p, BaseValue(p, base, row), branches[0], row) == Ok(None)
      {
        PassedTail(p, base, branches, row, i);
      }
      assert forall i :: 0 < i < |branches| ==> branches[i] == branches[1..][i - 1];
    }
  }

  /** The answer of an outcome, as what `CASE` has found. */
  ghost function Outcome(p: Platform, branch: Branch, row: Row): Result<Option<Value>, SqlError> {
    match Eval(p, branch.outcome, row)
    case Err(x) => Err(x)
    case Ok(v) => Ok(Some(v))
  }

  lemma BranchTable(p: Platform, base: Option<Expr>, branch: Branch, row: Row)
    requires base.None? || Eval(p, base.value, row).Ok?
    ensures var r := EvalBranch(p, BaseValue(p, base, row), branch, row);
      && (Takes(p, base, branch, row) ==> r == Outcome(p, branch, row))
      && (Eval(p, branch.condition, row).Err? ==> r.Err?)
      && (Eval(p, branch.condition, row).Ok? && !Takes(p, base, branch, row) ==> r == Ok(None))
  {
    hide Eval;
  }

  lemma PassedTail(p: Platform, base: Option<Expr>, branches: seq<Branch>, row: Row, n: nat)
    requires 0 < n <= |branches| && PassedBefore(p, base, branches, row, n)
    requires base.None? || Eval(p, base.value, row).Ok?
    ensures PassedBefore(p, base, branches[1..], row, n - 1)
    ensures EvalBranch(p, BaseValue(p, base, row), branches[0], row) == Ok(None)
  {
    hide Eval, Takes, EvalBranch;
    BranchTable(p, base, branches[0], row);
    forall j | 0 <= j < n - 1
      ensures Eval(p, branches[1..][j].condition, row).Ok? && !Takes(p, base, branches[1..][j], row)
    {
      assert branches[1..][j] == branches[j + 1];
    }
  }

  /** Constants answer themselves and parentheses their content; a star or an AI call has no value in a row. */
  lemma AtomTable(p: Platform, v: Value, e: Expr, table: string, callee: string, es: seq<Expr>, row: Row)
    ensures Eval(p, Constant(v), row) == Ok(v)
    ensures Eval(p, Paren(e), row) == Eval(p, e, row)
    ensures Eval(p, Star(table), row).Err? && Eval(p, AiCall(callee, es), row).Err?
  {
  }

  // ---- the columns of an expression ----------------------------------------

  /** The column names that stand anywhere in an expression. */
  function ColumnsIn(e: Expr): set<string>
    decreases e, 0
  {
    match e
    case Column(_, name) => {name}
    case Star(_) => {}
    case Constant(_) => {}
    case Paren(inner) => ColumnsIn(inner)
    case Not(inner) => ColumnsIn(inner)
    case And(l, r) => ColumnsIn(l) + ColumnsIn(r)
    case Or(l, r) => ColumnsIn(l) + ColumnsIn(r)
    case IsNull(inner) => ColumnsIn(inner)
    case In(needle, choices) => ColumnsIn(needle) + ColumnsInAll(choices)
    case Coalesce(candidates) => ColumnsInAll(candidates)
    case Case(base, branches, default) =>
      (if base.None? then {} else ColumnsIn(base.value)) + ColumnsInBranches(branches)
      + (if default.None? then {} else ColumnsIn(default.value))
    case Strict(_, operands) => ColumnsInAll(operands)
    case Scalar(_, arguments) => ColumnsInAll(arguments)
    case AiCall(_, inputs) => ColumnsInAll(inputs)
  }

  function ColumnsInAll(es: seq<Expr>): set<string>
    decreases es, 0
  {
    if es == [] then {} else ColumnsIn(es[0]) + ColumnsInAll(es[1..])
  }

  function ColumnsInBranches(branches: seq<Branch>): set<string>
    decreases branches, 0
  {
    if branches == [] then {} else ColumnsInBranch(branches[0]) + ColumnsInBranches(branches[1..])
  }

  function ColumnsInBranch(branch: Branch): set<string>
    decreases branch, 0
  {
    ColumnsIn(branch.condition) + ColumnsIn(branch.outcome)
  }

  /** An expression names exactly the columns that stand in it. */
  lemma {:induction false} NamesIff(e: Expr, field: string)
    ensures Names(e, field) <==> field in ColumnsIn(e)
    decreases e, 0
  {
    match e
    case Column(_, _) =>
    case Star(_) =>
    case Constant(_) =>
    case Paren(inner) => NamesIff(inner, field);
    case Not(inner) => NamesIff(inner, field);
    case And(l, r) =>
      NamesIff(l, field);
      NamesIff(r, field);
    case Or(l, r) =>
      NamesIff(l, field);
      NamesIff(r, field);
    case IsNull(inner) => NamesIff(inner, field);
    case In(needle, choices) =>
      NamesIff(needle, field);
      SomeNamesIff(choices, field);
    case Coalesce(candidates) => SomeNamesIff(candidates, field);
    case Case(base, branches, default) =>
      if base.Some? {
        NamesIff(base.value, field);
      }
      BranchesNameIff(branches, field);
      if default.Some? {
        NamesIff(default.value, field);
      }
    case Strict(_, operands) => SomeNamesIff(operands, field);
    case Scalar(_, arguments) => SomeNamesIff(arguments, field);
    case AiCall(_, inputs) => SomeNamesIff(inputs, field);
  }

  lemma {:induction false} SomeNamesIff(es: seq<Expr>, field: string)
    ensures SomeNames(es, field) <==> field in ColumnsInAll(es)
    decreases es, 0
  {
    if es != [] {
      NamesIff(es[0], field);
      SomeNamesIff(es[1..], field);
    }
  }

  lemma {:induction false} BranchesNameIff(branches: seq<Branch>, field: string)
    ensures BranchesName(branches, field) <==> field in ColumnsInBranches(branches)
    decreases branches, 0
  {
    if branches != [] {
      BranchNamesIff(branches[0], field);
      BranchesNameIff(branches[1..], field);
    }
  }

  lemma {:induction false} BranchNamesIff(branch: Branch, field: string)
    ensures BranchNames(branch, field) <==> field in ColumnsInBranch(branch)
    decreases branch, 0
  {
    NamesIff(branch.condition, field);
    NamesIff(branch.outcome, field);
  }
}

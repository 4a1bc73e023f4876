/**
  Submitting terminal operations (`KleinContext.execute`): the lock is held while
  sinks are selected and while the outcome is recorded, and free in between. Each
  locked section is one atomic step here; threads interleave between steps.
 */
module Submission {
  import opened Wrappers
  import opened Sorting

  /** The identity of an object offered as a terminal operation. */
  type Sink = nat

  datatype Kind = NotATerminal | Foreign | Take | Effect

  datatype SubmitError =
    | NotSinks        // TypeError
    | OtherPipeline
    | SelectedTwice
    | NotPending
    | SeveralTakes
    | TakeCombined
    | AlreadySubmitting

  // ---- the locked sections -------------------------------------------------

  function Without(sinks: seq<Sink>, gone: set<Sink>): (r: seq<Sink>)
    ensures forall s :: s in r <==> s in sinks && s !in gone
  {
    if sinks == [] then
      []
    else
      var last := |sinks| - 1;
      var before := Without(sinks[..last], gone);
      assert sinks == sinks[..last] + [sinks[last]];
      if sinks[last] in gone then before else before + [sinks[last]]
  }

  predicate Repeats(sinks: seq<Sink>) {
    exists i, j :: 0 <= i < j < |sinks| && sinks[i] == sinks[j]
  }

  predicate Several(kind: Sink -> Kind, sinks: seq<Sink>) {
    exists i, j :: 0 <= i < j < |sinks| && kind(sinks[i]) == Take && kind(sinks[j]) == Take
  }

  predicate Includes(kind: Sink -> Kind, sinks: seq<Sink>, k: Kind) {
    exists i :: 0 <= i < |sinks| && kind(sinks[i]) == k
  }

  predicate Within(sinks: seq<Sink>, pending: seq<Sink>) {
    forall s :: s in sinks ==> s in pending
  }

  /** `_select_sinks`; without an explicit selection, everything pending is selected. */
  function SelectSinks(kind: Sink -> Kind, pending: seq<Sink>, sinks: Option<seq<Sink>>)
    : Result<seq<Sink>, SubmitError>
  {
    var selected := if sinks.None? then pending else sinks.value;
    if Includes(kind, selected, NotATerminal) then Err(NotSinks)
    else if Includes(kind, selected, Foreign) then Err(OtherPipeline)
    else if sinks.Some? && Repeats(selected) then Err(SelectedTwice)
    else if sinks.Some? && !Within(selected, pending) then Err(NotPending)
    else if Several(kind, selected) then Err(SeveralTakes)
    else if |selected| > 1 && Includes(kind, selected, Take) then Err(TakeCombined)
    else Ok(selected)
  }

  /** What the first locked section of `execute` answers. */
  function BeginResult(kind: Sink -> Kind, pending: seq<Sink>, inflight: set<Sink>, sinks: Option<seq<Sink>>)
    : Result<seq<Sink>, SubmitError>
  {
    match SelectSinks(kind, pending, sinks)
    case Err(e) => Err(e)
    case Ok(selected) => if Elements(selected) !! inflight then Ok(selected) else Err(AlreadySubmitting)
  }

  class KleinContext {
    const kind: Sink -> Kind
    var sinks: seq<Sink>
    var inflight: set<Sink>

    constructor (kind: Sink -> Kind)
      ensures this.kind == kind && sinks == [] && inflight == {}
    {
      this.kind, sinks, inflight := kind, [], {};
    }

    method AddSink(s: Sink)
      modifies this`sinks
      ensures sinks == old(sinks) + [s]
    {
      sinks := sinks + [s];
    }

    method Remove(gone: set<Sink>)
      modifies this`sinks
      ensures sinks == Without(old(sinks), gone)
    {
      var kept: seq<Sink> := [];
      var i := 0;
      while i < |sinks|
        invariant 0 <= i <= |sinks| && unchanged(this)
        invariant kept == Without(sinks[..i], gone)
      {
        assert sinks[..i + 1][..i] == sinks[..i];
        if sinks[i] !in gone {
          kept := kept + [sinks[i]];
        }
        i := i + 1;
      }
      assert sinks[..i] == sinks;
      sinks := kept;
    }

    method DiscardSink(s: Sink)
      modifies this`sinks
      ensures sinks == Without(old(sinks), {s})
    {
      Remove({s});
    }

    /** The first locked section of `execute`. */
    method Begin(selection: Option<seq<Sink>>) returns (r: Result<seq<Sink>, SubmitError>)
      modifies this`inflight
      ensures r == BeginResult(kind, sinks, old(inflight), selection)
      ensures inflight == old(inflight) + if r.Ok? then Elements(r.value) else {}
    {
      r := SelectSinks(kind, sinks, selection);
      if r.Err? {
        return;
      }
      var ids := Elements(r.value);
      if !(ids !! inflight) {
        return Err(AlreadySubmitting);
      }
      inflight := inflight + ids;
    }

    /** The locked section after the client failed. */
    method Abandon(selected: seq<Sink>)
      modifies this`inflight
      ensures inflight == old(inflight) - Elements(selected)
    {
      inflight := inflight - Elements(selected);
    }

    /** The locked section after the client succeeded. */
    method Finish(selected: seq<Sink>)
      modifies this
      ensures sinks == Without(old(sinks), Elements(selected)) && inflight == old(inflight) - Elements(selected)
    {
      Remove(Elements(selected));
      inflight := inflight - Elements(selected);
    }

    /** `execute` as one thread runs it when no other interferes; `accepted` is the client's outcome. */
    method Execute(selection: Option<seq<Sink>>, accepted: bool) returns (r: Result<bool, SubmitError>)
      modifies this
      ensures BeginResult(kind, old(sinks), old(inflight), selection).Err? ==>
        unchanged(this) && r == Err(BeginResult(kind, old(sinks), old(inflight), selection).error)
      ensures BeginResult(kind, old(sinks), old(inflight), selection).Ok? ==>
        && r == Ok(accepted) && inflight == old(inflight)
        && sinks == if accepted then
             Without(old(sinks), Elements(BeginResult(kind, old(sinks), old(inflight), selection).value))
           else old(sinks)
    {
      var selected := Begin(selection);
      if selected.Err? {
        assert inflight == old(inflight);
        return Err(selected.error);
      }
      if accepted {
        Finish(selected.value);
      } else {
        Abandon(selected.value);
      }
      r := Ok(accepted);
    }
  }

  // ---- every interleaving --------------------------------------------------

  /**
    `flights` are the submissions between their two locked sections, by caller;
    `done` the successful ones. `created` and `discarded` record what happened.
   */
  datatype State = State(
    pending: seq<Sink>, inflight: set<Sink>,
    flights: map<int, seq<Sink>>, done: seq<seq<Sink>>, created: set<Sink>, discarded: set<Sink>)

  const INITIAL := State([], {}, map[], [], {}, {})

  datatype Step =
    | Create(created: Sink)
    | Discard(discarded: Sink)
    | Begin(caller: int, selection: Option<seq<Sink>>)
    | Succeed(winner: int)
    | Fail(loser: int)

  predicate IsTerminal(kind: Sink -> Kind, s: Sink) {
    kind(s) == Take || kind(s) == Effect
  }

  function Next(kind: Sink -> Kind, st: State, step: Step): State {
    match step
    case Create(s) =>
      if s in st.created || !IsTerminal(kind, s) then st
      else st.(pending := st.pending + [s], created := st.created + {s})
    case Discard(s) =>
      if s !in st.pending then st
      else st.(pending := Without(st.pending, {s}), discarded := st.discarded + {s})
    case Begin(caller, selection) => (
      match BeginResult(kind, st.pending, st.inflight, selection)
      case Err(_) => st
      case Ok(selected) =>
        if caller in st.flights then st
        else st.(inflight := st.inflight + Elements(selected), flights := st.flights[caller := selected])
    )
    case Succeed(caller) =>
      if caller !in st.flights then st
      else
        var selected := st.flights[caller];
        st.(pending := Without(st.pending, Elements(selected)), inflight := st.inflight - Elements(selected),
            flights := st.flights - {caller}, done := st.done + [selected])
    case Fail(caller) =>
      if caller !in st.flights then st
      else st.(inflight := st.inflight - Elements(st.flights[caller]), flights := st.flights - {caller})
  }

  function Run(kind: Sink -> Kind, st: State, steps: seq<Step>): State {
    if steps == [] then
      st
    else
      var last := |steps| - 1;
      Next(kind, Run(kind, st, steps[..last]), steps[last])
  }

  ghost predicate FlightsApart(flights: map<int, seq<Sink>>) {
    forall a, b, s :: a in flights && b in flights && s in flights[a] && s in flights[b] ==> a == b
  }

  ghost predicate InFlight(flights: map<int, seq<Sink>>, s: Sink) {
    exists c :: c in flights && s in flights[c]
  }

  ghost predicate DoneApart(done: seq<seq<Sink>>) {
    forall i, j, s :: 0 <= i < |done| && 0 <= j < |done| && s in done[i] && s in done[j] ==> i == j
  }

  ghost predicate Submitted(done: seq<seq<Sink>>, s: Sink) {
    exists i :: 0 <= i < |done| && s in done[i]
  }

  /** The ids in flight are the union of the pairwise disjoint flights. */
  ghost predicate FlightsExact(st: State) {
    FlightsApart(st.flights) && forall s :: s in st.inflight <==> InFlight(st.flights, s)
  }

  /** Each submitted sink went with one successful submission and is neither pending nor in flight. */
  ghost predicate DoneExact(st: State) {
    DoneApart(st.done) && forall s :: Submitted(st.done, s) ==> s !in st.pending && s !in st.inflight
  }

  /** Nothing created is lost: it is pending, discarded or submitted; in flight are only pending or discarded sinks. */
  ghost predicate Conserved(st: State) {
    && (forall s :: s in st.created <==> s in st.pending || s in st.discarded || Submitted(st.done, s))
    && (forall s :: s in st.pending ==> s !in st.discarded)
    && (forall s :: s in st.inflight ==> s in st.pending || s in st.discarded)
  }

  ghost predicate PendingDistinct(st: State) {
    NoDuplicates(st.pending)
    && forall c :: c in st.flights ==> NoDuplicates(st.flights[c])
  }

  ghost predicate AllTerminals(kind: Sink -> Kind, st: State) {
    (forall s :: s in st.pending ==> IsTerminal(kind, s))
    && forall c, s :: c in st.flights && s in st.flights[c] ==> IsTerminal(kind, s)
  }

  /** A collecting terminal is submitted alone. */
  ghost predicate Legal(kind: Sink -> Kind, selected: seq<Sink>) {
    !Several(kind, selected) && (|selected| > 1 ==> !Includes(kind, selected, Take))
  }

  ghost predicate Inv(kind: Sink -> Kind, st: State) {
    && FlightsExact(st) && DoneExact(st) && Conserved(st) && PendingDistinct(st) && AllTerminals(kind, st)
    && forall c :: c in st.flights ==> Legal(kind, st.flights[c])
  }

  lemma {:induction false} WithoutDistinct(sinks: seq<Sink>, gone: set<Sink>)
    requires NoDuplicates(sinks)
    ensures NoDuplicates(Without(sinks, gone))
  {
    if sinks != [] {
      WithoutDistinct(sinks[..|sinks| - 1], gone);
    }
  }

  lemma SelectedPending(kind: Sink -> Kind, pending: seq<Sink>, sinks: Option<seq<Sink>>)
    requires SelectSinks(kind, pending, sinks).Ok?
    ensures var selected := SelectSinks(kind, pending, sinks).value;
      && Within(selected, pending) && Legal(kind, selected)
      && (NoDuplicates(pending) ==> NoDuplicates(selected))
  {
    var selected := SelectSinks(kind, pending, sinks).value;
    if sinks.Some? {
      assert !Repeats(selected);
      forall i, j | 0 <= i < j < |selected| ensures selected[i] != selected[j] {}
    }
  }

  lemma BeginKeepsInv(kind: Sink -> Kind, st: State, caller: int, selected: seq<Sink>)
    requires Inv(kind, st) && caller !in st.flights && NoDuplicates(selected) && Elements(selected) !! st.inflight
    requires Within(selected, st.pending) && Legal(kind, selected)
    ensures Inv(kind, st.(inflight := st.inflight + Elements(selected), flights := st.flights[caller := selected]))
  {
    hide Legal, NoDuplicates, DoneApart, IsTerminal, Submitted;
    var next := st.(inflight := st.inflight + Elements(selected), flights := st.flights[caller := selected]);
    forall s ensures s in next.inflight <==> InFlight(next.flights, s) {
      if s in selected {
        assert s in next.flights[caller];
      } else if InFlight(st.flights, s) {
        var c :| c in st.flights && s in st.flights[c];
        assert c in next.flights && s in next.flights[c];
      }
    }
    forall a, b, s | a in next.flights && b in next.flights && s in next.flights[a] && s in next.flights[b]
      ensures a == b
    {
      assert a in st.flights && s in st.flights[a] ==> InFlight(st.flights, s);
      assert b in st.flights && s in st.flights[b] ==> InFlight(st.flights, s);
    }
  }

  /** Leaving the air: the rest of the flights are exactly the rest of the ids. */
  lemma LandingKeepsFlights(st: State, caller: int)
    requires FlightsExact(st) && caller in st.flights
    ensures FlightsApart(st.flights - {caller})
    ensures forall s :: s in st.inflight - Elements(st.flights[caller]) <==> InFlight(st.flights - {caller}, s)
  {
    var rest := st.flights - {caller};
    forall s ensures s in st.inflight - Elements(st.flights[caller]) <==> InFlight(rest, s) {
      if s in st.inflight && s !in st.flights[caller] {
        var c :| c in st.flights && s in st.flights[c];
        assert c in rest && s in rest[c];
      }
      if InFlight(rest, s) {
        var c :| c in rest && s in rest[c];
        assert c in st.flights && s in st.flights[c];
      }
    }
  }

  lemma SucceedKeepsInv(kind: Sink -> Kind, st: State, caller: int)
    requires Inv(kind, st) && caller in st.flights
    ensures Inv(kind, Next(kind, st, Succeed(caller)))
  {
    hide Legal, NoDuplicates, IsTerminal, FlightsApart, InFlight;
    var selected, next := st.flights[caller], Next(kind, st, Succeed(caller));
    LandingKeepsFlights(st, caller);
    WithoutDistinct(st.pending, Elements(selected));
    forall s | s in selected ensures s in st.inflight {
      ShowInFlight(st.flights, caller, s);
    }
    forall s ensures Submitted(next.done, s) <==> Submitted(st.done, s) || s in selected {
      if Submitted(st.done, s) {
        var i :| 0 <= i < |st.done| && s in st.done[i];
        assert s in next.done[i];
      }
      if s in selected {
        assert s in next.done[|st.done|];
      }
    }
    DoneGrows(st.done, selected);
  }

  lemma ShowInFlight(flights: map<int, seq<Sink>>, caller: int, s: Sink)
    requires caller in flights && s in flights[caller]
    ensures InFlight(flights, s)
  {
  }

  lemma DoneGrows(done: seq<seq<Sink>>, selected: seq<Sink>)
    requires DoneApart(done) && forall s :: s in selected ==> !Submitted(done, s)
    ensures DoneApart(done + [selected])
  {
    var all := done + [selected];
    forall i, j, s | 0 <= i < |all| && 0 <= j < |all| && s in all[i] && s in all[j] ensures i == j {
      assert i < |done| ==> Submitted(done, s);
      assert j < |done| ==> Submitted(done, s);
    }
  }

  lemma FailKeepsInv(kind: Sink -> Kind, st: State, caller: int)
    requires Inv(kind, st) && caller in st.flights
    ensures Inv(kind, Next(kind, st, Fail(caller)))
  {
    hide Legal, NoDuplicates, IsTerminal, FlightsApart, InFlight, Submitted, DoneApart;
    LandingKeepsFlights(st, caller);
  }

  lemma CreateKeepsInv(kind: Sink -> Kind, st: State, s: Sink)
    requires Inv(kind, st)
    ensures Inv(kind, Next(kind, st, Create(s)))
  {
    hide FlightsApart, InFlight, Submitted, DoneApart;
  }

  lemma DiscardKeepsInv(kind: Sink -> Kind, st: State, s: Sink)
    requires Inv(kind, st)
    ensures Inv(kind, Next(kind, st, Discard(s)))
  {
    hide FlightsApart, InFlight, Submitted, DoneApart;
    WithoutDistinct(st.pending, {s});
  }

  lemma StepKeepsInv(kind: Sink -> Kind, st: State, step: Step)
    requires Inv(kind, st)
    ensures Inv(kind, Next(kind, st, step))
  {
    hide Inv, SelectSinks;
    match step
    case Create(s) => CreateKeepsInv(kind, st, s);
    case Discard(s) => DiscardKeepsInv(kind, st, s);
    case Begin(caller, selection) =>
      if BeginResult(kind, st.pending, st.inflight, selection).Ok? && caller !in st.flights {
        SelectedPending(kind, st.pending, selection);
        InvDistinct(kind, st);
        BeginKeepsInv(kind, st, caller, BeginResult(kind, st.pending, st.inflight, selection).value);
      }
    case Succeed(caller) =>
      if caller in st.flights {
        SucceedKeepsInv(kind, st, caller);
      }
    case Fail(caller) =>
      if caller in st.flights {
        FailKeepsInv(kind, st, caller);
      }
  }

  lemma InvDistinct(kind: Sink -> Kind, st: State)
    requires Inv(kind, st)
    ensures NoDuplicates(st.pending)
  {
  }

  /**
    Over every interleaving: submissions in flight have disjoint sinks whose union
    is the in-flight set, each sink goes with at most one successful submission and
    is not pending afterwards, and no sink is ever lost.
   */
  lemma {:induction false} SubmissionSafety(kind: Sink -> Kind, steps: seq<Step>)
    ensures Inv(kind, Run(kind, INITIAL, steps))
  {
    hide Next;
    if steps != [] {
      SubmissionSafety(kind, steps[..|steps| - 1]);
      StepKeepsInv(kind, Run(kind, INITIAL, steps[..|steps| - 1]), steps[|steps| - 1]);
    }
  }

  /**
    After a failed submission its sinks can be selected and submitted again at once
    exactly when none of them was discarded while it was in flight.
   */
  lemma FailedIsSelectableIff(kind: Sink -> Kind, st: State, caller: int)
    requires Inv(kind, st) && caller in st.flights
    ensures var flight := st.flights[caller]; var next := Next(kind, st, Fail(caller));
      BeginResult(kind, next.pending, next.inflight, Some(flight)).Ok? <==> Elements(flight) !! st.discarded
  {
    hide FlightsApart, DoneApart, Submitted;
    var flight, next := st.flights[caller], Next(kind, st, Fail(caller));
    forall s | s in flight ensures s in st.inflight { assert InFlight(st.flights, s); }
    assert NoDuplicates(flight);
    assert !Repeats(flight);
    assert Elements(flight) !! next.inflight;
    forall i | 0 <= i < |flight| ensures IsTerminal(kind, flight[i]) { assert flight[i] in flight; }
    assert !Includes(kind, flight, NotATerminal) && !Includes(kind, flight, Foreign);
    assert Within(flight, next.pending) <==> Elements(flight) !! st.discarded by {
      forall s | s in flight ensures s in next.pending <==> s !in st.discarded {}
    }
  }

  /** A sink is discarded while its submission is in flight; the submission fails, and selecting the sink is refused. */
  lemma DiscardedInFlight(kind: Sink -> Kind, a: Sink)
    requires kind(a) == Effect
    ensures var end := Run(kind, INITIAL, [Create(a), Begin(1, Some([a])), Discard(a), Fail(1)]);
      && end.pending == [] && end.inflight == {} && a in end.discarded
      && BeginResult(kind, end.pending, end.inflight, Some([a])) == Err(NotPending)
  {
    var steps := [Create(a), Begin(1, Some([a])), Discard(a), Fail(1)];
    assert Run(kind, INITIAL, steps[..0]) == INITIAL;
    RunTo(kind, steps, 0, State([a], {}, map[], [], {a}, {}));
    SelectsOne(kind, a);
    hide Run, BeginResult;
    RunTo(kind, steps, 1, State([a], {a}, map[1 := [a]], [], {a}, {}));
    assert Without([a], {a}) == [];
    hide Without;
    RunTo(kind, steps, 2, State([], {a}, map[1 := [a]], [], {a}, {a}));
    assert map[1 := [a]] - {1} == map[] && Elements([a]) == {a};
    RunTo(kind, steps, 3, State([], {}, map[], [], {a}, {a}));
    assert steps[..4] == steps;
  }

  lemma RunTo(kind: Sink -> Kind, steps: seq<Step>, k: nat, next: State)
    requires k < |steps| && Next(kind, Run(kind, INITIAL, steps[..k]), steps[k]) == next
    ensures Run(kind, INITIAL, steps[..k + 1]) == next
  {
    assert steps[..k + 1][..k] == steps[..k];
  }

  lemma SelectsOne(kind: Sink -> Kind, a: Sink)
    requires kind(a) == Effect
    ensures BeginResult(kind, [a], {}, Some([a])) == Ok([a])
    ensures BeginResult(kind, [], {}, Some([a])) == Err(NotPending)
  {
    assert [a][0] == a && a in [a];
    assert !Repeats([a]) && Within([a], [a]) && !Within([a], []);
  }

  /** While a flight lasts, its pending sinks leave `pending` only by being discarded, whatever other callers do. */
  lemma {:induction false} FlightStaysPending(kind: Sink -> Kind, st: State, steps: seq<Step>, caller: int, s: Sink)
    requires Inv(kind, st) && caller in st.flights && s in st.flights[caller] && s in st.pending
    requires forall i :: 0 <= i < |steps| ==> steps[i] != Succeed(caller) && steps[i] != Fail(caller)
    ensures var end := Run(kind, st, steps);
      && Inv(kind, end) && caller in end.flights && end.flights[caller] == st.flights[caller]
      && (s in end.pending || s in end.discarded)
  {
    hide Inv, BeginResult;
    if steps != [] {
      var last := |steps| - 1;
      var before := Run(kind, st, steps[..last]);
      FlightStaysPending(kind, st, steps[..last], caller, s);
      StepKeepsInv(kind, before, steps[last]);
      StillFlying(kind, before, steps[last], caller);
      InFlightConserved(kind, Run(kind, st, steps), caller, s);
    } else {
      InFlightConserved(kind, st, caller, s);
    }
  }

  lemma StillFlying(kind: Sink -> Kind, st: State, step: Step, caller: int)
    requires caller in st.flights && step != Succeed(caller) && step != Fail(caller)
    ensures caller in Next(kind, st, step).flights && Next(kind, st, step).flights[caller] == st.flights[caller]
  {
    hide BeginResult;
  }

  lemma InFlightConserved(kind: Sink -> Kind, st: State, caller: int, s: Sink)
    requires Inv(kind, st) && caller in st.flights && s in st.flights[caller]
    ensures s in st.pending || s in st.discarded
  {
    hide NoDuplicates, DoneApart, Submitted, FlightsApart;
    assert InFlight(st.flights, s);
  }
}

/** Left alone between its steps, an operation of the interleavings does what the method of the class does. */
module StatementSteps {
  import opened Wrappers
  import opened Sorting
  import opened Submission
  import opened Statements
  import opened StatementThreads

  /** The caller is in no call, and the set is open. */
  predicate Free(m: Machine, caller: int, token: Token) {
    caller !in m.calls && token in m.lists
  }

  lemma CallEnds(calls: map<int, Phase>, caller: int, phase: Phase)
    requires caller !in calls
    ensures calls[caller := phase] - {caller} == calls
  {
  }

  lemma SeenSame(m: Machine, token: Token)
    requires token in m.lists
    ensures Seen(m, token, ViewIn(m, token)) == m
  {
    assert m.lists[token := m.lists[token]] == m.lists;
  }

  /** The checks of a registration and then its writes are `StatementSet.Register`. */
  lemma RegisterSteps(kind: Sink -> Kind, m: Machine, caller: int, token: Token, s: Sink)
    requires Free(m, caller, token)
    ensures After(kind, After(kind, m, RegisterCheck(caller, token, s)), RegisterWrite(caller))
         == Seen(m, token, Registered(kind, token, ViewIn(m, token), s))
  {
    hide RegisterError;
    SeenSame(m, token);
    CallEnds(m.calls, caller, Registering(token, s));
  }

  /** Building a new terminal under capture, and registering or discarding it, is `BuildTerminal`. */
  lemma BuildSteps(kind: Sink -> Kind, m: Machine, caller: int, token: Token, s: Sink)
    requires Free(m, caller, token) && IsNew(kind, m, s)
    ensures var captured := After(kind, After(kind, m, Build(caller, s)), Capture(caller, token));
      After(kind, After(kind, captured, RegisterWrite(caller)), Drop(caller))
      == Seen(m, token, TerminalBuilt(kind, token, ViewIn(m, token), s)).(created := m.created + {s})
  {
    hide RegisterError, Without;
    var made := Made(m, s);
    var built := made.(calls := m.calls[caller := Building(s)]);
    var phase := Captures(kind, built, token, s);
    var captured := After(kind, After(kind, m, Build(caller, s)), Capture(caller, token));
    assert m.calls[caller := Building(s)][caller := phase] == m.calls[caller := phase];
    assert captured == made.(calls := m.calls[caller := phase]);
    CallEnds(m.calls, caller, phase);
    assert m.lists[token := m.lists[token]] == m.lists;
    assert ViewIn(built, token) == ViewIn(m, token).(pending := m.pending + [s]);
  }

  lemma TakeOffAndLand(inflight: set<Sink>, ids: set<Sink>)
    requires ids !! inflight
    ensures inflight + ids - ids == inflight
  {
  }

  /** Check, begin, and the outcome of plain execution are `Pipeline.Execute`. */
  lemma PlainSteps(
      kind: Sink -> Kind, m: Machine, caller: int, selection: Option<seq<Sink>>, accepted: bool)
    requires caller !in m.calls
    ensures var r := PlainResult(kind, m.pending, m.owner, m.inflight, selection, accepted);
      var begun := After(kind, After(kind, m, PlainCheck(caller, selection)), Event.Begin(caller));
      After(kind, begun, if accepted then Event.Succeed(caller) else Event.Fail(caller))
      == m.(pending := if r.Ok? then Without(m.pending, Elements(r.value)) else m.pending)
  {
    hide SelectSinks, Without, SelectsOwned;
    CallEnds(m.calls, caller, Checked(selection));
    if !SelectsOwned(m.pending, m.owner, selection) {
      var result := BeginResult(kind, m.pending, m.inflight, selection);
      if result.Ok? {
        BeginsIdle(kind, m.pending, m.inflight, selection);
        var selected := result.value;
        TakeOffAndLand(m.inflight, Elements(selected));
        assert m.calls[caller := Checked(selection)][caller := Flying(selected)] == m.calls[caller := Flying(selected)];
        CallEnds(m.calls, caller, Flying(selected));
      }
    }
  }

  lemma BeginsIdle(kind: Sink -> Kind, pending: seq<Sink>, inflight: set<Sink>, selection: Option<seq<Sink>>)
    requires BeginResult(kind, pending, inflight, selection).Ok?
    ensures Elements(BeginResult(kind, pending, inflight, selection).value) !! inflight
  {
    hide SelectSinks;
  }

  /** What the check and the first locked section of a set's execution leave when both pass. */
  function TakenOff(m: Machine, caller: int, token: Token): Machine
    requires token in m.lists
  {
    var listed := m.lists[token];
    m.(inflight := m.inflight + Elements(listed), calls := m.calls[caller := SetFlying(token, listed)])
  }

  predicate Passes(kind: Sink -> Kind, m: Machine, token: Token) {
    MayExecute(m, token) && BeginResult(kind, m.pending, m.inflight, Some(m.lists[token])).Ok?
  }

  lemma SetBegins(kind: Sink -> Kind, m: Machine, caller: int, token: Token)
    requires Free(m, caller, token)
    ensures After(kind, After(kind, m, SetCheck(caller, token)), Event.Begin(caller))
         == if Passes(kind, m, token) then TakenOff(m, caller, token) else m
  {
    hide BeginResult, MayExecute;
    var listed := m.lists[token];
    CallEnds(m.calls, caller, SetChecked(token, listed));
    assert m.calls[caller := SetChecked(token, listed)][caller := SetFlying(token, listed)]
        == m.calls[caller := SetFlying(token, listed)];
  }

  /** Success and clearing, from the air. */
  lemma SetLands(kind: Sink -> Kind, m: Machine, caller: int, token: Token)
    requires Free(m, caller, token) && Elements(m.lists[token]) !! m.inflight
    ensures var flying := TakenOff(m, caller, token);
      After(kind, After(kind, flying, Event.Succeed(caller)), Clear(caller))
      == Seen(m, token,
           Cleared(View(m.lists[token], Without(m.pending, Elements(m.lists[token])), m.owner), m.lists[token]))
  {
    hide Without;
    var listed := m.lists[token];
    TakeOffAndLand(m.inflight, Elements(listed));
    assert m.calls[caller := SetFlying(token, listed)][caller := SetDone(token, listed)]
        == m.calls[caller := SetDone(token, listed)];
    CallEnds(m.calls, caller, SetDone(token, listed));
  }

  /** Failure, from the air; there is nothing to clear then. */
  lemma SetFallsBack(kind: Sink -> Kind, m: Machine, caller: int, token: Token)
    requires Free(m, caller, token) && Elements(m.lists[token]) !! m.inflight
    ensures After(kind, After(kind, TakenOff(m, caller, token), Event.Fail(caller)), Clear(caller)) == m
  {
    TakeOffAndLand(m.inflight, Elements(m.lists[token]));
    CallEnds(m.calls, caller, SetFlying(token, m.lists[token]));
  }

  /** Check, begin, outcome and clearing of a set's execution are `StatementSet.Execute`. */
  lemma SetSteps(kind: Sink -> Kind, m: Machine, caller: int, token: Token, accepted: bool)
    requires Free(m, caller, token)
    ensures var begun := After(kind, After(kind, m, SetCheck(caller, token)), Event.Begin(caller));
      var ended := After(kind, begun, if accepted then Event.Succeed(caller) else Event.Fail(caller));
      After(kind, ended, Clear(caller))
      == Seen(m, token, Executed(kind, token, ViewIn(m, token), m.inflight, false, accepted))
  {
    hide BeginResult, Without, After, TakenOff, Seen, Cleared;
    SeenSame(m, token);
    SetBegins(kind, m, caller, token);
    if Passes(kind, m, token) {
      SelectionIs(kind, m.pending, m.lists[token], m.inflight);
      BeginsIdle(kind, m.pending, m.inflight, Some(m.lists[token]));
      SetLands(kind, m, caller, token);
      SetFallsBack(kind, m, caller, token);
    } else {
      NoCall(kind, m, caller, accepted);
    }
  }

  lemma NoCall(kind: Sink -> Kind, m: Machine, caller: int, accepted: bool)
    requires caller !in m.calls
    ensures After(kind, m, if accepted then Event.Succeed(caller) else Event.Fail(caller)) == m
    ensures After(kind, m, Clear(caller)) == m
  {
  }

  /** A rollback step is `Rollback`, and opening a set that is open changes nothing. */
  lemma RollbackStep(kind: Sink -> Kind, m: Machine, token: Token, start: nat)
    requires token in m.lists
    ensures ViewIn(After(kind, m, Event.Rollback(token, start)), token) == RolledBack(ViewIn(m, token), start)
    ensures After(kind, m, Open(token)) == m
  {
    hide RolledBack;
  }
}

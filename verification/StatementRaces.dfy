/**
  What other threads can break: the owner check of plain execution, the clearing of a
  submitted set, the registration of a sink and the discarding of one that was built
  happen outside the pipeline's lock. Each goes wrong exactly when another thread gets
  in between.
 */
module StatementRaces {
  import opened Wrappers
  import opened Sorting
  import opened Submission
  import opened Statements
  import opened StatementRuns
  import opened StatementThreads

  // ---- where interference comes from ---------------------------------------

  /** What a thread relies on between its check and its last step: a sink's token, its list, or that it is pending. */
  datatype Fact = Owned(sink: Sink) | Listed(token: Token, sink: Sink) | Absent(sink: Sink)

  predicate Holds(m: Machine, f: Fact) {
    match f
    case Owned(s) => s in m.owner
    case Listed(t, s) => t in m.lists && s in m.lists[t]
    case Absent(s) => s !in m.pending
  }

  /** The step writes the sink's token and puts it on the list of the token's set. */
  predicate Registers(m: Machine, e: Event, f: Fact) {
    && e.RegisterWrite? && e.caller in m.calls && m.calls[e.caller].Registering?
    && m.calls[e.caller].token in m.lists && m.calls[e.caller].sink == f.sink
    && (f.Listed? ==> m.calls[e.caller].token == f.token)
  }

  /** The step submits or discards the sink. */
  predicate Removes(m: Machine, e: Event, s: Sink) {
    match e
    case Succeed(caller) => caller in m.calls && s in Airborne(m.calls[caller])
    case Drop(caller) => caller in m.calls && m.calls[caller] == Dropping(s)
    case Rollback(token, start) => token in m.lists && s in Captured(ViewIn(m, token), start)
    case _ => false
  }

  predicate Gains(m: Machine, e: Event, f: Fact) {
    if f.Absent? then Removes(m, e, f.sink) else Registers(m, e, f)
  }

  /** The step is a rollback or a clearing that takes the sink back; or the sink is created. */
  predicate Loses(kind: Sink -> Kind, m: Machine, e: Event, f: Fact) {
    match e
    case Rollback(token, start) =>
      && token in m.lists
      && if f.Owned? then f.sink in Captured(ViewIn(m, token), start)
         else f.Listed? && f.token == token && f.sink !in RolledBack(ViewIn(m, token), start).sinks
    case Clear(caller) =>
      && caller in m.calls && m.calls[caller].SetDone? && m.calls[caller].token in m.lists
      && if f.Owned? then f.sink in m.calls[caller].listed else f.Listed? && f.token == m.calls[caller].token
    case Create(s) => f == Absent(s) && IsNew(kind, m, s)
    case Build(caller, s) => f == Absent(s) && IsNew(kind, m, s) && caller !in m.calls
    case _ => false
  }

  lemma FactStep(kind: Sink -> Kind, m: Machine, e: Event, f: Fact)
    ensures Holds(After(kind, m, e), f) <==> Gains(m, e, f) || (Holds(m, f) && !Loses(kind, m, e, f))
  {
    hide Holds, Gains, Loses, After;
    match f
    case Owned(_) => OwnedStep(kind, m, e, f);
    case Listed(_, _) => ListedStep(kind, m, e, f);
    case Absent(_) => AbsentStep(kind, m, e, f);
  }

  lemma OwnedStep(kind: Sink -> Kind, m: Machine, e: Event, f: Fact)
    requires f.Owned?
    ensures Holds(After(kind, m, e), f) <==> Gains(m, e, f) || (Holds(m, f) && !Loses(kind, m, e, f))
  {
    hide BeginResult, RegisterError, Captured, Without, Removes;
  }

  lemma ListedStep(kind: Sink -> Kind, m: Machine, e: Event, f: Fact)
    requires f.Listed?
    ensures Holds(After(kind, m, e), f) <==> Gains(m, e, f) || (Holds(m, f) && !Loses(kind, m, e, f))
  {
    hide BeginResult, RegisterError, Captured, Without, Removes;
    if e.Rollback? && e.token in m.lists {
      RollbackShortens(ViewIn(m, e.token), e.start);
    }
  }

  lemma AbsentStep(kind: Sink -> Kind, m: Machine, e: Event, f: Fact)
    requires f.Absent?
    ensures Holds(After(kind, m, e), f) <==> Gains(m, e, f) || (Holds(m, f) && !Loses(kind, m, e, f))
  {
    hide BeginResult, RegisterError, Captured, Without, Registers;
  }

  lemma RollbackShortens(v: View, start: nat)
    ensures forall s :: s in RolledBack(v, start).sinks ==> s in v.sinks
  {
  }

  predicate GainsAt(kind: Sink -> Kind, m: Machine, events: seq<Event>, k: nat, f: Fact)
    requires k < |events|
  {
    Gains(Reached(kind, m, events[..k]), events[k], f)
  }

  predicate LosesAt(kind: Sink -> Kind, m: Machine, events: seq<Event>, k: nat, f: Fact)
    requires k < |events|
  {
    Loses(kind, Reached(kind, m, events[..k]), events[k], f)
  }

  /** Some step of the run brings the fact about, and no later one undoes it. */
  ghost predicate GainedIn(kind: Sink -> Kind, m: Machine, events: seq<Event>, f: Fact) {
    exists k: nat :: KeptFrom(kind, m, events, k, f)
  }

  ghost predicate KeptFrom(kind: Sink -> Kind, m: Machine, events: seq<Event>, k: nat, f: Fact) {
    && k < |events| && GainsAt(kind, m, events, k, f)
    && forall j :: k < j < |events| ==> !LosesAt(kind, m, events, j, f)
  }

  /** A fact that does not hold at first holds in the end exactly when a step of the run brought it about. */
  lemma {:induction false} HoldsIffGained(kind: Sink -> Kind, m: Machine, events: seq<Event>, f: Fact)
    requires !Holds(m, f)
    ensures Holds(Reached(kind, m, events), f) <==> GainedIn(kind, m, events, f)
  {
    hide Holds, Gains, Loses, After;
    if events != [] {
      var last := |events| - 1;
      var init := events[..last];
      HoldsIffGained(kind, m, init, f);
      FactStep(kind, Reached(kind, m, init), events[last], f);
      KeptStep(kind, m, events, f);
    }
  }

  lemma KeptStep(kind: Sink -> Kind, m: Machine, events: seq<Event>, f: Fact)
    requires events != []
    ensures var last := |events| - 1;
      GainedIn(kind, m, events, f) <==>
      GainsAt(kind, m, events, last, f)
      || (GainedIn(kind, m, events[..last], f) && !LosesAt(kind, m, events, last, f))
  {
    hide Gains, Loses, Reached;
    var last := |events| - 1;
    var init := events[..last];
    forall k | 0 <= k < last
      ensures GainsAt(kind, m, init, k, f) <==> GainsAt(kind, m, events, k, f)
      ensures LosesAt(kind, m, init, k, f) <==> LosesAt(kind, m, events, k, f)
    {
      assert init[..k] == events[..k];
    }
    if GainedIn(kind, m, events, f) {
      var k: nat :| KeptFrom(kind, m, events, k, f);
      if k < last {
        assert KeptFrom(kind, m, init, k, f);
      }
    }
    if GainsAt(kind, m, events, last, f) {
      assert KeptFrom(kind, m, events, last, f);
    }
    if GainedIn(kind, m, init, f) && !LosesAt(kind, m, events, last, f) {
      var k: nat :| KeptFrom(kind, m, init, k, f);
      assert KeptFrom(kind, m, events, k, f);
    }
  }

  // ---- the three windows ---------------------------------------------------

  /** The caller begins another call, or ends this one. */
  predicate OtherCall(e: Event, caller: int) {
    match e
    case Build(c, _) => c == caller
    case PlainCheck(c, _) => c == caller
    case SetCheck(c, _) => c == caller
    case RegisterCheck(c, _, _) => c == caller
    case RegisterWrite(c) => c == caller
    case Drop(c) => c == caller
    case Fail(c) => c == caller
    case Clear(c) => c == caller
    case _ => false
  }

  predicate SameCall(events: seq<Event>, caller: int) {
    forall i :: 0 <= i < |events| ==> !OtherCall(events[i], caller)
  }

  /** None of the sinks was owned at the start. */
  ghost predicate Unclaimed(start: Machine, sinks: seq<Sink>) {
    forall s :: s in sinks ==> s !in start.owner
  }

  /** The call is the plain execution with this selection, unless it has ended. */
  ghost predicate StillPlain(start: Machine, m: Machine, caller: int, selection: Option<seq<Sink>>) {
    && (caller in m.calls ==>
          m.calls[caller] == Checked(selection)
          || (m.calls[caller].Flying? && Unclaimed(start, m.calls[caller].selected)))
    && (forall s :: s in start.created ==> s in m.created)
    && (forall s :: s in m.pending ==> s in start.pending || s !in start.created)
  }

  lemma BegunUnclaimed(kind: Sink -> Kind, start: Machine, m: Machine, selection: Option<seq<Sink>>)
    requires Base(kind, start) && !SelectsOwned(start.pending, start.owner, selection)
    requires forall s :: s in m.pending ==> s in start.pending || s !in start.created
    requires BeginResult(kind, m.pending, m.inflight, selection).Ok?
    ensures Unclaimed(start, BeginResult(kind, m.pending, m.inflight, selection).value)
  {
    hide NoDuplicates;
  }

  lemma StepStillPlain(
      kind: Sink -> Kind, start: Machine, m: Machine, caller: int, selection: Option<seq<Sink>>, e: Event)
    requires Base(kind, start) && !SelectsOwned(start.pending, start.owner, selection)
    requires StillPlain(start, m, caller, selection) && !OtherCall(e, caller)
    ensures StillPlain(start, After(kind, m, e), caller, selection)
  {
    hide BeginResult, Base, Unclaimed, SelectsOwned, RegisterError;
    if e == Event.Begin(caller) && caller in m.calls && m.calls[caller].Checked?
       && BeginResult(kind, m.pending, m.inflight, selection).Ok?
    {
      BegunUnclaimed(kind, start, m, selection);
    }
  }

  lemma {:induction false} PlainThroughout(
      kind: Sink -> Kind, start: Machine, caller: int, selection: Option<seq<Sink>>, events: seq<Event>)
    requires Base(kind, start) && !SelectsOwned(start.pending, start.owner, selection)
    requires caller in start.calls && start.calls[caller] == Checked(selection) && SameCall(events, caller)
    ensures StillPlain(start, Reached(kind, start, events), caller, selection)
  {
    if events != [] {
      hide StillPlain, Base, SelectsOwned, OtherCall, After;
      PlainThroughout(kind, start, caller, selection, events[..|events| - 1]);
      StepStillPlain(
        kind, start, Reached(kind, start, events[..|events| - 1]), caller, selection, events[|events| - 1]);
    }
  }

  /**
    Plain execution checks owners first, selects under the lock later and submits
    after that. Whatever other threads do meanwhile, and whether it selects explicitly
    or by default, it has an owned sink in flight exactly when one of its sinks was
    registered with a set since the check and not taken back.
   */
  lemma PlainSubmitsOwnedIff(
      kind: Sink -> Kind, m: Machine, caller: int, selection: Option<seq<Sink>>, events: seq<Event>)
    requires Base(kind, m) && caller !in m.calls && SameCall(events, caller)
    requires !SelectsOwned(m.pending, m.owner, selection)
    ensures var start := After(kind, m, PlainCheck(caller, selection)); var end := Reached(kind, start, events);
      caller in end.calls && end.calls[caller].Flying? ==>
      (SubmitsOwned(end, caller) <==>
        exists s :: s in end.calls[caller].selected && GainedIn(kind, start, events, Owned(s)))
  {
    hide Base, SelectsOwned, GainedIn;
    var start := After(kind, m, PlainCheck(caller, selection));
    var end := Reached(kind, start, events);
    StepKeepsBase(kind, m, PlainCheck(caller, selection));
    PlainThroughout(kind, start, caller, selection, events);
    if caller in end.calls && end.calls[caller].Flying? {
      forall s | s in end.calls[caller].selected
        ensures s in end.owner <==> GainedIn(kind, start, events, Owned(s))
      {
        HoldsIffGained(kind, start, events, Owned(s));
      }
    }
  }

  /** The call is the set's execution with this snapshot, unless it has ended. */
  ghost predicate StillSet(m: Machine, caller: int, token: Token, listed: seq<Sink>) {
    caller in m.calls ==>
      m.calls[caller] in {SetChecked(token, listed), SetFlying(token, listed), SetDone(token, listed)}
  }

  /** Steps of others leave a call alone; its own remaining steps are those of its phase. */
  lemma PhaseStep(kind: Sink -> Kind, m: Machine, e: Event, caller: int)
    requires caller in m.calls && !OtherCall(e, caller)
    ensures e != Event.Begin(caller) && e != Event.Succeed(caller) && !(e.Capture? && e.caller == caller) ==>
      caller in After(kind, m, e).calls && After(kind, m, e).calls[caller] == m.calls[caller]
  {
    hide BeginResult, RegisterError, Captured, Without;
  }

  lemma NoCallStep(kind: Sink -> Kind, m: Machine, e: Event, caller: int)
    requires caller !in m.calls && !OtherCall(e, caller)
    ensures caller !in After(kind, m, e).calls
  {
    hide BeginResult, RegisterError, Captured, Without;
  }

  lemma StepStillSet(kind: Sink -> Kind, m: Machine, e: Event, caller: int, token: Token, listed: seq<Sink>)
    requires StillSet(m, caller, token, listed) && !OtherCall(e, caller)
    ensures StillSet(After(kind, m, e), caller, token, listed)
  {
    hide BeginResult;
    if caller !in m.calls {
      NoCallStep(kind, m, e, caller);
    } else if e == Event.Begin(caller) || e == Event.Succeed(caller) || (e.Capture? && e.caller == caller) {
      assert m.calls[caller].SetChecked? || m.calls[caller].SetFlying? || m.calls[caller].SetDone?;
    } else {
      PhaseStep(kind, m, e, caller);
    }
  }

  lemma {:induction false} SetThroughout(
      kind: Sink -> Kind, start: Machine, caller: int, token: Token, listed: seq<Sink>, events: seq<Event>)
    requires caller in start.calls && start.calls[caller] == SetChecked(token, listed) && SameCall(events, caller)
    ensures StillSet(Reached(kind, start, events), caller, token, listed)
  {
    assert StillSet(start, caller, token, listed);
    if events != [] {
      hide StillSet, OtherCall, After;
      SetThroughout(kind, start, caller, token, listed, events[..|events| - 1]);
      StepStillSet(
        kind, Reached(kind, start, events[..|events| - 1]), events[|events| - 1], caller, token, listed);
    }
  }

  /**
    A set clears its whole list after its submission, but frees only the sinks it
    submitted: that orphans a sink exactly when one that is not in the snapshot was
    registered with the set since, and not taken back.
   */
  lemma ClearingOrphansIff(kind: Sink -> Kind, m: Machine, caller: int, token: Token, events: seq<Event>)
    requires Base(kind, m) && caller !in m.calls && SameCall(events, caller) && MayExecute(m, token)
    ensures var start := After(kind, m, SetCheck(caller, token)); var end := Reached(kind, start, events);
      caller in end.calls && end.calls[caller].SetDone? ==>
      (Interferes(kind, end, Clear(caller)) <==>
        exists s :: s !in m.lists[token] && GainedIn(kind, start, events, Listed(token, s)))
  {
    hide Base, GainedIn;
    var start := After(kind, m, SetCheck(caller, token));
    var end := Reached(kind, start, events);
    StepKeepsBase(kind, m, SetCheck(caller, token));
    SetThroughout(kind, start, caller, token, m.lists[token], events);
    if caller in end.calls && end.calls[caller].SetDone? {
      assert end.calls[caller] == SetDone(token, m.lists[token]);
      BaseOverRuns(kind, start, events);
      DoneKnown(kind, end, caller);
      forall s | s !in m.lists[token]
        ensures s in end.lists[token] <==> GainedIn(kind, start, events, Listed(token, s))
      {
        HoldsIffGained(kind, start, events, Listed(token, s));
      }
    }
  }

  /** The call is about registering this sink, and has at most decided to discard it. */
  ghost predicate StillBuilt(m: Machine, caller: int, s: Sink) {
    caller in m.calls ==>
      m.calls[caller] == Building(s) || m.calls[caller] == Dropping(s)
      || (m.calls[caller].Registering? && m.calls[caller].sink == s)
  }

  lemma StepStillBuilt(kind: Sink -> Kind, m: Machine, e: Event, caller: int, s: Sink)
    requires StillBuilt(m, caller, s) && !OtherCall(e, caller)
    ensures StillBuilt(After(kind, m, e), caller, s)
  {
    hide BeginResult, RegisterError, Captured, Without;
    if caller !in m.calls {
      NoCallStep(kind, m, e, caller);
    } else if e == Event.Begin(caller) || e == Event.Succeed(caller) || (e.Capture? && e.caller == caller) {
      assert m.calls[caller].Building? || m.calls[caller].Dropping? || m.calls[caller].Registering?;
    } else {
      PhaseStep(kind, m, e, caller);
    }
  }

  lemma {:induction false} BuiltThroughout(
      kind: Sink -> Kind, start: Machine, caller: int, s: Sink, events: seq<Event>)
    requires StillBuilt(start, caller, s) && SameCall(events, caller)
    ensures StillBuilt(Reached(kind, start, events), caller, s)
  {
    if events != [] {
      hide StillBuilt, OtherCall, After;
      BuiltThroughout(kind, start, caller, s, events[..|events| - 1]);
      StepStillBuilt(kind, Reached(kind, start, events[..|events| - 1]), events[|events| - 1], caller, s);
    }
  }

  /**
    A terminal built in a capture scope is pending before it is registered: if it may
    no longer be registered it is discarded, and that takes an owned sink out of the
    pending ones exactly when another thread registered it since it was created and
    neither took it back nor submitted it.
   */
  lemma CaptureDiscardsOwnedIff(
      kind: Sink -> Kind, m: Machine, caller: int, s: Sink, events: seq<Event>)
    requires Base(kind, m) && caller !in m.calls && IsNew(kind, m, s) && SameCall(events, caller)
    ensures var start := After(kind, m, Build(caller, s)); var end := Reached(kind, start, events);
      caller in end.calls && end.calls[caller].Dropping? ==>
      (Interferes(kind, end, Drop(caller)) <==>
        GainedIn(kind, start, events, Owned(s)) && !GainedIn(kind, start, events, Absent(s)))
  {
    hide GainedIn;
    var start := After(kind, m, Build(caller, s));
    BuiltThroughout(kind, start, caller, s, events);
    assert s !in m.owner;
    HoldsIffGained(kind, start, events, Owned(s));
    HoldsIffGained(kind, start, events, Absent(s));
  }

  lemma {:induction false} StillRegistering(
      kind: Sink -> Kind, start: Machine, caller: int, token: Token, s: Sink, events: seq<Event>)
    requires caller in start.calls && start.calls[caller] == Registering(token, s) && SameCall(events, caller)
    ensures var end := Reached(kind, start, events);
      caller in end.calls && end.calls[caller] == Registering(token, s)
    ensures start.lists.Keys <= Reached(kind, start, events).lists.Keys
  {
    if events != [] {
      hide After;
      var init, e := events[..|events| - 1], events[|events| - 1];
      StillRegistering(kind, start, caller, token, s, init);
      RegisteringStep(kind, Reached(kind, start, init), e, caller, token, s);
    }
  }

  lemma RegisteringStep(kind: Sink -> Kind, m: Machine, e: Event, caller: int, token: Token, s: Sink)
    requires caller in m.calls && m.calls[caller] == Registering(token, s) && !OtherCall(e, caller)
    ensures caller in After(kind, m, e).calls && After(kind, m, e).calls[caller] == Registering(token, s)
    ensures m.lists.Keys <= After(kind, m, e).lists.Keys
  {
    hide BeginResult, RegisterError, Captured, Without;
    if !(e == Event.Begin(caller) || e == Event.Succeed(caller) || (e.Capture? && e.caller == caller)) {
      PhaseStep(kind, m, e, caller);
    }
  }

  /**
    Registering a sink checks first and writes later, without a lock. From the moment
    its checks pass, for a sink offered to a set or built under capture alike: the
    writes break the agreement exactly when another thread registered the sink in
    between and did not take it back, or submitted or discarded it (and the set is
    not about to clear it anyway).
   */
  lemma StaleRegistrationIff(
      kind: Sink -> Kind, start: Machine, caller: int, token: Token, s: Sink, events: seq<Event>)
    requires caller in start.calls && start.calls[caller] == Registering(token, s)
    requires MayRegister(kind, start, token, s) && SameCall(events, caller)
    ensures var end := Reached(kind, start, events);
      Interferes(kind, end, RegisterWrite(caller)) <==>
        GainedIn(kind, start, events, Owned(s))
        || (GainedIn(kind, start, events, Absent(s)) && !Uncleared(end, token, s))
  {
    hide GainedIn, Uncleared;
    StillRegistering(kind, start, caller, token, s, events);
    HoldsIffGained(kind, start, events, Owned(s));
    HoldsIffGained(kind, start, events, Absent(s));
  }

  // ---- orphans -------------------------------------------------------------

  /** An orphan carries a token, but no set lists it. */
  ghost predicate Orphan(m: Machine, s: Sink) {
    s in m.owner && s in m.pending && forall t :: t in m.lists ==> s !in m.lists[t]
  }

  predicate MayTouch(phase: Phase, s: Sink) {
    match phase
    case Building(x) => x == s
    case Registering(_, x) => x == s
    case Dropping(x) => x == s
    case Checked(selection) => selection.None? || s in selection.value
    case Flying(selected) => s in selected
    case _ => s in phase.listed
  }

  /** No call in progress, past its check, has to do with the sink. */
  ghost predicate Untouched(m: Machine, s: Sink) {
    forall c :: c in m.calls ==> !MayTouch(m.calls[c], s)
  }

  lemma OrphanStep(kind: Sink -> Kind, m: Machine, e: Event, s: Sink)
    requires Base(kind, m) && Orphan(m, s) && Untouched(m, s)
    ensures Orphan(After(kind, m, e), s) && Untouched(After(kind, m, e), s)
  {
    if e.Begin? {
      OrphanSurvivesBegin(kind, m, e.caller, s);
    } else {
      hide BeginResult, RegisterError, NoDuplicates, FlightsSound, PhaseSound;
    }
  }

  lemma OrphanSurvivesBegin(kind: Sink -> Kind, m: Machine, caller: int, s: Sink)
    requires Orphan(m, s) && Untouched(m, s)
    ensures Orphan(After(kind, m, Event.Begin(caller)), s) && Untouched(After(kind, m, Event.Begin(caller)), s)
  {
    hide BeginResult;
    if caller in m.calls && m.calls[caller].Checked? {
      assert !MayTouch(m.calls[caller], s);
      SelectsOnly(kind, m, m.calls[caller].selection.value);
    }
  }

  lemma SelectsOnly(kind: Sink -> Kind, m: Machine, selection: seq<Sink>)
    ensures BeginResult(kind, m.pending, m.inflight, Some(selection)).Ok? ==>
      BeginResult(kind, m.pending, m.inflight, Some(selection)).value == selection
  {
  }

  /**
    No thread can do anything about an orphan: whatever happens, it stays pending,
    owned and unlisted. It cannot be registered with a set or selected for plain
    execution, and the default execution of the whole pipeline is refused.
   */
  lemma {:induction false} OrphanForever(kind: Sink -> Kind, m: Machine, s: Sink, events: seq<Event>)
    requires Base(kind, m) && Orphan(m, s) && Untouched(m, s)
    ensures var end := Reached(kind, m, events);
      && Orphan(end, s) && Untouched(end, s)
      && (forall caller, token :: After(kind, end, RegisterCheck(caller, token, s)) == end)
      && (forall caller, selection: Option<seq<Sink>> :: selection.None? || s in selection.value ==>
            After(kind, end, PlainCheck(caller, selection)) == end)
  {
    if events == [] {
      RefusesOrphan(kind, m, s);
    } else {
      hide Base, Orphan, Untouched, After;
      OrphanForever(kind, m, s, events[..|events| - 1]);
      BaseOverRuns(kind, m, events[..|events| - 1]);
      OrphanStep(kind, Reached(kind, m, events[..|events| - 1]), events[|events| - 1], s);
      RefusesOrphan(kind, Reached(kind, m, events), s);
    }
  }

  lemma RefusesOrphan(kind: Sink -> Kind, m: Machine, s: Sink)
    requires Orphan(m, s)
    ensures forall caller, token :: After(kind, m, RegisterCheck(caller, token, s)) == m
    ensures forall caller, selection: Option<seq<Sink>> :: selection.None? || s in selection.value ==>
      After(kind, m, PlainCheck(caller, selection)) == m
  {
  }

  // ---- interference at work ------------------------------------------------

  lemma Append(kind: Sink -> Kind, m: Machine, events: seq<Event>, e: Event)
    ensures Reached(kind, m, events + [e]) == After(kind, Reached(kind, m, events), e)
  {
    assert (events + [e])[..|events|] == events;
  }

  lemma {:induction false} RunsCompose(kind: Sink -> Kind, m: Machine, first: seq<Event>, rest: seq<Event>)
    ensures Reached(kind, m, first + rest) == Reached(kind, Reached(kind, m, first), rest)
  {
    hide After;
    if rest == [] {
      assert first + rest == first;
    } else {
      var init := rest[..|rest| - 1];
      RunsCompose(kind, m, first, init);
      assert first + rest == (first + init) + [rest[|init|]];
      Append(kind, m, first + init, rest[|init|]);
    }
  }

  lemma Prefix(kind: Sink -> Kind, m: Machine, events: seq<Event>, k: nat, next: Machine)
    requires k < |events| && After(kind, Reached(kind, m, events[..k]), events[k]) == next
    ensures Reached(kind, m, events[..k + 1]) == next
  {
    Append(kind, m, events[..k], events[k]);
    assert events[..k + 1] == events[..k] + [events[k]];
  }

  /** Two steps at a time. */
  lemma PrefixTwo(kind: Sink -> Kind, m: Machine, events: seq<Event>, k: nat, mid: Machine, next: Machine)
    requires k + 1 < |events| && After(kind, Reached(kind, m, events[..k]), events[k]) == mid
    requires After(kind, mid, events[k + 1]) == next
    ensures Reached(kind, m, events[..k + 2]) == next
  {
    Prefix(kind, m, events, k, mid);
    Prefix(kind, m, events, k + 1, next);
  }

  /** The machine of one set with token 0. */
  function Little(
      pending: seq<Sink>, inflight: set<Sink>, owner: map<Sink, Token>, listed: seq<Sink>, created: set<Sink>,
      calls: map<int, Phase>): Machine
  {
    Machine(pending, inflight, owner, map[0 := listed], created, calls)
  }

  /** Opening the set, from nothing. */
  lemma LittleOpens(kind: Sink -> Kind, events: seq<Event>)
    requires events != [] && events[0] == Event.Open(0)
    ensures Reached(kind, START, events[..1]) == Little([], {}, map[], [], {}, map[])
  {
    assert Reached(kind, START, events[..0]) == START;
    Prefix(kind, START, events, 0, Little([], {}, map[], [], {}, map[]));
  }

  lemma LittleCreates(
      kind: Sink -> Kind, before: Machine, after: Machine, p: seq<Sink>, c: set<Sink>, calls: map<int, Phase>, s: Sink)
    requires kind(s) == Effect && s !in c
    requires before == Little(p, {}, map[], [], c, calls) && after == Little(p + [s], {}, map[], [], c + {s}, calls)
    ensures After(kind, before, Event.Create(s)) == after
  {
  }

  /** Caller 2 registers the sink, undisturbed between its checks and its writes. */
  lemma LittleRegisters(
      kind: Sink -> Kind, before: Machine, after: Machine,
      p: seq<Sink>, o: map<Sink, Token>, l: seq<Sink>, c: set<Sink>, calls: map<int, Phase>, s: Sink)
    returns (mid: Machine)
    requires kind(s) == Effect && s in p && s !in o && s !in l && 2 !in calls
    requires before == Little(p, {}, o, l, c, calls) && after == Little(p, {}, o[s := 0], l + [s], c, calls)
    ensures After(kind, before, RegisterCheck(2, 0, s)) == mid && After(kind, mid, RegisterWrite(2)) == after
  {
    mid := Little(p, {}, o, l, c, calls[2 := Registering(0, s)]);
    assert calls[2 := Registering(0, s)] - {2} == calls;
  }

  lemma SubmitsPair(kind: Sink -> Kind, a: Sink, rest: seq<Sink>)
    requires kind(a) == Effect && a !in rest
    ensures BeginResult(kind, [a] + rest, {}, Some([a])) == Ok([a])
    ensures Without([a] + rest, {a}) == rest
  {
    WithoutConcat([a], rest, {a});
    WithoutDisjoint(rest, {a});
    WithoutAll([a], {a});
    assert [a][0] == a && Elements([a]) == {a};
    assert !Repeats([a]) && Within([a], [a] + rest);
    assert [] + rest == rest;
  }

  // ---- an orphan -----------------------------------------------------------

  /** A set that is given `b` while its submission of `a` is being recorded. */
  function OrphaningRun(a: Sink, b: Sink): seq<Event> {
    [Event.Open(0), Event.Create(a), Event.Create(b), RegisterCheck(2, 0, a), RegisterWrite(2), SetCheck(1, 0),
     Event.Begin(1), Event.Succeed(1), RegisterCheck(2, 0, b), RegisterWrite(2), Clear(1)]
  }

  lemma SetPasses(kind: Sink -> Kind, a: Sink, b: Sink)
    ensures After(kind, Little([a, b], {}, map[a := 0], [a], {a, b}, map[]), SetCheck(1, 0))
         == Little([a, b], {}, map[a := 0], [a], {a, b}, map[1 := SetChecked(0, [a])])
  {
  }

  lemma SetBegins(kind: Sink -> Kind, a: Sink, b: Sink)
    requires a != b && kind(a) == Effect && kind(b) == Effect
    ensures After(kind, Little([a, b], {}, map[a := 0], [a], {a, b}, map[1 := SetChecked(0, [a])]), Event.Begin(1))
         == Little([a, b], {a}, map[a := 0], [a], {a, b}, map[1 := SetFlying(0, [a])])
  {
    hide BeginResult, Without;
    SubmitsPair(kind, a, [b]);
    assert [a] + [b] == [a, b] && Elements([a]) == {a};
    assert map[1 := SetChecked(0, [a])][1 := SetFlying(0, [a])] == map[1 := SetFlying(0, [a])];
  }

  lemma SetSucceeds(kind: Sink -> Kind, a: Sink, b: Sink)
    requires a != b && kind(a) == Effect
    ensures After(kind, Little([a, b], {a}, map[a := 0], [a], {a, b}, map[1 := SetFlying(0, [a])]), Event.Succeed(1))
         == Little([b], {}, map[a := 0], [a], {a, b}, map[1 := SetDone(0, [a])])
  {
    hide BeginResult, Without;
    SubmitsPair(kind, a, [b]);
    assert [a] + [b] == [a, b] && Elements([a]) == {a};
    assert map[1 := SetFlying(0, [a])][1 := SetDone(0, [a])] == map[1 := SetDone(0, [a])];
  }

  lemma SetClears(kind: Sink -> Kind, a: Sink, b: Sink)
    requires a != b
    ensures After(kind, Little([b], {}, map[a := 0, b := 0], [a, b], {a, b}, map[1 := SetDone(0, [a])]), Clear(1))
         == Little([b], {}, map[b := 0], [], {a, b}, map[])
  {
  }

  lemma OrphaningStart(kind: Sink -> Kind, a: Sink, b: Sink)
    requires a != b && kind(a) == Effect && kind(b) == Effect
    ensures Reached(kind, START, OrphaningRun(a, b)[..5]) == Little([a, b], {}, map[a := 0], [a], {a, b}, map[])
  {
    hide After, Reached;
    var r := OrphaningRun(a, b);
    var m0, m1 := Little([], {}, map[], [], {}, map[]), Little([a], {}, map[], [], {a}, map[]);
    var m2, m3 := Little([a, b], {}, map[], [], {a, b}, map[]), Little([a, b], {}, map[a := 0], [a], {a, b}, map[]);
    LittleOpens(kind, r);
    LittleCreates(kind, m0, m1, [], {}, map[], a);
    Prefix(kind, START, r, 1, m1);
    LittleCreates(kind, m1, m2, [a], {a}, map[], b);
    Prefix(kind, START, r, 2, m2);
    var mid := LittleRegisters(kind, m2, m3, [a, b], map[], [], {a, b}, map[], a);
    PrefixTwo(kind, START, r, 3, mid, m3);
  }

  lemma OrphaningSteps(kind: Sink -> Kind, a: Sink, b: Sink)
    requires a != b && kind(a) == Effect && kind(b) == Effect
    ensures Reached(kind, START, OrphaningRun(a, b)) == Little([b], {}, map[b := 0], [], {a, b}, map[])
  {
    hide After, Reached;
    var r, done := OrphaningRun(a, b), map[1 := SetDone(0, [a])];
    var m6 := Little([b], {}, map[a := 0], [a], {a, b}, done);
    var m7 := Little([b], {}, map[a := 0, b := 0], [a, b], {a, b}, done);
    OrphaningStart(kind, a, b);
    SetPasses(kind, a, b);
    SetBegins(kind, a, b);
    SetSucceeds(kind, a, b);
    Prefix(kind, START, r, 5, Little([a, b], {}, map[a := 0], [a], {a, b}, map[1 := SetChecked(0, [a])]));
    Prefix(kind, START, r, 6, Little([a, b], {a}, map[a := 0], [a], {a, b}, map[1 := SetFlying(0, [a])]));
    Prefix(kind, START, r, 7, m6);
    assert map[a := 0][b := 0] == map[a := 0, b := 0] && [a] + [b] == [a, b];
    var mid := LittleRegisters(kind, m6, m7, [b], map[a := 0], [a], {a, b}, done, b);
    PrefixTwo(kind, START, r, 8, mid, m7);
    SetClears(kind, a, b);
    Prefix(kind, START, r, 10, Little([b], {}, map[b := 0], [], {a, b}, map[]));
    assert r[..11] == r;
  }

  /**
    From the empty pipeline to an orphan: a sink is added to a set while the set's
    submission is being recorded, the set clears its list, and from then on the sink
    is out of reach in every continuation.
   */
  lemma OrphanArises(kind: Sink -> Kind, a: Sink, b: Sink, events: seq<Event>)
    requires a != b && kind(a) == Effect && kind(b) == Effect
    ensures Orphan(Reached(kind, START, OrphaningRun(a, b)), b)
    ensures Orphan(Reached(kind, START, OrphaningRun(a, b) + events), b)
  {
    var m := Reached(kind, START, OrphaningRun(a, b));
    OrphaningSteps(kind, a, b);
    StartAgrees(kind);
    BaseOverRuns(kind, START, OrphaningRun(a, b));
    assert Orphan(m, b) && Untouched(m, b);
    RunsCompose(kind, START, OrphaningRun(a, b), events);
    OrphanForever(kind, m, b, events);
  }

  // ---- a stolen sink -------------------------------------------------------

  /** A plain default execution whose selection gains `a` after the check, while a set registers it. */
  function StealingRun(a: Sink): seq<Event> {
    [Event.Open(0), PlainCheck(1, None), Event.Create(a), RegisterCheck(2, 0, a), RegisterWrite(2), Event.Begin(1),
     Event.Succeed(1)]
  }

  lemma PlainSubmits(kind: Sink -> Kind, a: Sink)
    requires kind(a) == Effect
    ensures After(kind, Little([], {}, map[], [], {}, map[]), PlainCheck(1, None))
         == Little([], {}, map[], [], {}, map[1 := Checked(None)])
    ensures After(kind, Little([a], {}, map[a := 0], [a], {a}, map[1 := Checked(None)]), Event.Begin(1))
         == Little([a], {a}, map[a := 0], [a], {a}, map[1 := Flying([a])])
    ensures After(kind, Little([a], {a}, map[a := 0], [a], {a}, map[1 := Flying([a])]), Event.Succeed(1))
         == Little([], {}, map[a := 0], [a], {a}, map[])
  {
    hide Without;
    SubmitsPair(kind, a, []);
    assert [a] + [] == [a];
    assert BeginResult(kind, [a], {}, None) == Ok([a]) by { assert [a][0] == a && Elements([a]) == {a}; }
    hide BeginResult;
    assert map[1 := Checked(None)][1 := Flying([a])] == map[1 := Flying([a])];
    assert Elements([a]) == {a} && map[1 := Flying([a])] - {1} == map[];
  }

  lemma StealingSteps(kind: Sink -> Kind, a: Sink)
    requires kind(a) == Effect
    ensures Reached(kind, START, StealingRun(a)[..6]) == Little([a], {a}, map[a := 0], [a], {a}, map[1 := Flying([a])])
    ensures Reached(kind, START, StealingRun(a)) == Little([], {}, map[a := 0], [a], {a}, map[])
  {
    hide After, Reached;
    var r, checked := StealingRun(a), map[1 := Checked(None)];
    var m1, m2 := Little([], {}, map[], [], {}, checked), Little([a], {}, map[], [], {a}, checked);
    var m3 := Little([a], {}, map[a := 0], [a], {a}, checked);
    LittleOpens(kind, r);
    PlainSubmits(kind, a);
    Prefix(kind, START, r, 1, m1);
    LittleCreates(kind, m1, m2, [], {}, checked, a);
    Prefix(kind, START, r, 2, m2);
    var mid := LittleRegisters(kind, m2, m3, [a], map[], [], {a}, checked, a);
    PrefixTwo(kind, START, r, 3, mid, m3);
    Prefix(kind, START, r, 5, Little([a], {a}, map[a := 0], [a], {a}, map[1 := Flying([a])]));
    Prefix(kind, START, r, 6, Little([], {}, map[a := 0], [a], {a}, map[]));
    assert r[..7] == r;
  }

  /** A set that lists a sink which is not pending breaks the agreement, and its execution is rejected. */
  lemma SetRejected(kind: Sink -> Kind, a: Sink)
    ensures var end := Little([], {}, map[a := 0], [a], {a}, map[]);
      !Agrees(kind, end) && After(kind, After(kind, end, SetCheck(2, 0)), Event.Begin(2)) == end
  {
    var end := Little([], {}, map[a := 0], [a], {a}, map[]);
    assert a in end.lists[0] && a !in end.pending && !Uncleared(end, 0, a);
    assert a in [a] && !Within([a], []);
    assert BeginResult(kind, [], {}, Some([a])).Err?;
    hide BeginResult, Agrees;
    assert map[2 := SetChecked(0, [a])] - {2} == map[];
  }

  /**
    A sink that does not even exist when plain execution checks the owners is
    registered with a set and submitted without it: the set keeps listing a sink that
    is no longer pending, and its own execution passes the check and is rejected.
   */
  lemma OwnedSinkSubmitted(kind: Sink -> Kind, a: Sink)
    requires kind(a) == Effect
    ensures var before := Reached(kind, START, StealingRun(a)[..6]); var end := Reached(kind, START, StealingRun(a));
      && SubmitsOwned(before, 1)
      && 0 in end.lists && a in end.lists[0] && a in end.owner && a !in end.pending
      && !Agrees(kind, end)
      && After(kind, After(kind, end, SetCheck(2, 0)), Event.Begin(2)) == end
  {
    hide Reached, After, Agrees;
    StealingSteps(kind, a);
    SetRejected(kind, a);
    assert a in [a];
  }

  // ---- a discarded sink ----------------------------------------------------

  /** A terminal built in a capture scope is added to the set by another thread before its own registration. */
  function DiscardingRun(a: Sink): seq<Event> {
    [Event.Open(0), Build(1, a), RegisterCheck(2, 0, a), RegisterWrite(2), Capture(1, 0), Drop(1)]
  }

  lemma BuildsLittle(kind: Sink -> Kind, a: Sink)
    requires kind(a) == Effect
    ensures After(kind, Little([], {}, map[], [], {}, map[]), Build(1, a))
         == Little([a], {}, map[], [], {a}, map[1 := Building(a)])
  {
    assert [] + [a] == [a];
  }

  lemma CaptureRefuses(kind: Sink -> Kind, a: Sink)
    ensures After(kind, Little([a], {}, map[a := 0], [a], {a}, map[1 := Building(a)]), Capture(1, 0))
         == Little([a], {}, map[a := 0], [a], {a}, map[1 := Dropping(a)])
  {
    var m := Little([a], {}, map[a := 0], [a], {a}, map[1 := Building(a)]);
    assert a in m.lists[0] && !MayRegister(kind, m, 0, a);
    hide MayRegister;
    assert map[1 := Building(a)][1 := Dropping(a)] == map[1 := Dropping(a)];
  }

  lemma DropsLittle(kind: Sink -> Kind, a: Sink)
    ensures After(kind, Little([a], {}, map[a := 0], [a], {a}, map[1 := Dropping(a)]), Drop(1))
         == Little([], {}, map[a := 0], [a], {a}, map[])
  {
    WithoutAll([a], {a});
    hide Without;
    assert map[1 := Dropping(a)] - {1} == map[];
  }

  /** The scope's own registration finds the sink owned, and discards it although the set lists it. */
  lemma OwnedSinkDiscarded(kind: Sink -> Kind, a: Sink)
    requires kind(a) == Effect
    ensures var r := DiscardingRun(a); var before, end := Reached(kind, START, r[..5]), Reached(kind, START, r);
      && DropsOwned(before, 1)
      && 0 in end.lists && a in end.lists[0] && a in end.owner && a !in end.pending
      && !Agrees(kind, end)
      && After(kind, After(kind, end, SetCheck(2, 0)), Event.Begin(2)) == end
  {
    hide Reached, After, Agrees;
    var r, building := DiscardingRun(a), map[1 := Building(a)];
    var m1, m2 := Little([a], {}, map[], [], {a}, building), Little([a], {}, map[a := 0], [a], {a}, building);
    LittleOpens(kind, r);
    BuildsLittle(kind, a);
    Prefix(kind, START, r, 1, m1);
    assert [] + [a] == [a] && map[][a := 0] == map[a := 0];
    var mid := LittleRegisters(kind, m1, m2, [a], map[], [], {a}, building, a);
    PrefixTwo(kind, START, r, 2, mid, m2);
    CaptureRefuses(kind, a);
    Prefix(kind, START, r, 4, Little([a], {}, map[a := 0], [a], {a}, map[1 := Dropping(a)]));
    DropsLittle(kind, a);
    Prefix(kind, START, r, 5, Little([], {}, map[a := 0], [a], {a}, map[]));
    assert r[..6] == r;
    SetRejected(kind, a);
    assert a in [a];
  }

  // ---- a sink in two sets --------------------------------------------------

  /** Two threads add one sink to two sets, and both pass the checks before either writes. */
  function DoubleRun(a: Sink): seq<Event> {
    [Event.Open(0), Event.Open(1), Event.Create(a), RegisterCheck(1, 0, a), RegisterCheck(2, 1, a), RegisterWrite(1),
     RegisterWrite(2)]
  }

  lemma BothCheck(kind: Sink -> Kind, a: Sink)
    requires kind(a) == Effect
    ensures var r := DoubleRun(a); var two := map[1 := Registering(0, a), 2 := Registering(1, a)];
      Reached(kind, START, r[..5]) == Machine([a], {}, map[], map[0 := [], 1 := []], {a}, two)
  {
    var r := DoubleRun(a);
    assert Reached(kind, START, r[..0]) == START;
    Prefix(kind, START, r, 0, Machine([], {}, map[], map[0 := []], {}, map[]));
    Prefix(kind, START, r, 1, Machine([], {}, map[], map[0 := [], 1 := []], {}, map[]));
    var created := Machine([a], {}, map[], map[0 := [], 1 := []], {a}, map[]);
    assert After(kind, Machine([], {}, map[], map[0 := [], 1 := []], {}, map[]), Event.Create(a)) == created;
    Prefix(kind, START, r, 2, created);
    hide Reached;
    assert MayRegister(kind, created, 0, a);
    var one := created.(calls := map[1 := Registering(0, a)]);
    assert After(kind, created, RegisterCheck(1, 0, a)) == one;
    Prefix(kind, START, r, 3, one);
    assert MayRegister(kind, one, 1, a);
    Prefix(kind, START, r, 4, one.(calls := map[1 := Registering(0, a), 2 := Registering(1, a)]));
  }

  lemma BothWrite(kind: Sink -> Kind, a: Sink)
    ensures var two := map[1 := Registering(0, a), 2 := Registering(1, a)]; var one := map[2 := Registering(1, a)];
      && After(kind, Machine([a], {}, map[], map[0 := [], 1 := []], {a}, two), RegisterWrite(1))
         == Machine([a], {}, map[a := 0], map[0 := [a], 1 := []], {a}, one)
      && After(kind, Machine([a], {}, map[a := 0], map[0 := [a], 1 := []], {a}, one), RegisterWrite(2))
         == Machine([a], {}, map[a := 1], map[0 := [a], 1 := [a]], {a}, map[])
  {
    var two, one := map[1 := Registering(0, a), 2 := Registering(1, a)], map[2 := Registering(1, a)];
    assert two - {1} == one && one - {2} == map[];
    assert [] + [a] == [a] && map[][a := 0] == map[a := 0] && map[a := 0][a := 1] == map[a := 1];
    assert map[0 := [], 1 := []][0 := [a]] == map[0 := [a], 1 := []];
    assert map[0 := [a], 1 := []][1 := [a]] == map[0 := [a], 1 := [a]];
  }

  lemma SetMixed(kind: Sink -> Kind, a: Sink)
    ensures var end := Machine([a], {}, map[a := 1], map[0 := [a], 1 := [a]], {a}, map[]);
      !Agrees(kind, end) && forall caller :: After(kind, end, SetCheck(caller, 0)) == end
  {
    var end := Machine([a], {}, map[a := 1], map[0 := [a], 1 := [a]], {a}, map[]);
    assert a in end.lists[0] && !MayExecute(end, 0) && !OwnsList(0, ViewIn(end, 0));
  }

  /** Both sets then list the sink, with the token of one; the other can no longer be executed. */
  lemma SinkInTwoSets(kind: Sink -> Kind, a: Sink)
    requires kind(a) == Effect
    ensures var before := Reached(kind, START, DoubleRun(a)[..6]); var end := Reached(kind, START, DoubleRun(a));
      && WritesStale(before, 2)
      && 0 in end.lists && a in end.lists[0] && 1 in end.lists && a in end.lists[1]
      && a in end.owner && end.owner[a] == 1 && !Agrees(kind, end)
      && forall caller :: After(kind, end, SetCheck(caller, 0)) == end
  {
    BothCheck(kind, a);
    BothWrite(kind, a);
    hide Reached, After;
    var r, two := DoubleRun(a), map[2 := Registering(1, a)];
    var half := Machine([a], {}, map[a := 0], map[0 := [a], 1 := []], {a}, two);
    var end := Machine([a], {}, map[a := 1], map[0 := [a], 1 := [a]], {a}, map[]);
    Prefix(kind, START, r, 5, half);
    Prefix(kind, START, r, 6, end);
    assert r[..7] == r;
    SetMixed(kind, a);
  }
}

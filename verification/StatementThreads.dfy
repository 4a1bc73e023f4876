/**
  Statement sets and plain execution from several threads. The pipeline's lock covers
  the selection of sinks and the recording of an outcome, but neither the owner check
  before them nor the clearing of a set after them, and registering a sink with a set
  holds no lock between its checks and its writes. Those are steps of their own, and
  threads interleave between all steps.
 */
module StatementThreads {
  import opened Wrappers
  import opened Sorting
  import opened Submission
  import opened Statements
  import opened StatementRuns

  /** How far a thread's call has got. */
  datatype Phase =
    | Building(sink: Sink)                         // created inside a capture scope, not yet registered
    | Registering(token: Token, sink: Sink)        // past the checks of registration, nothing written yet
    | Dropping(sink: Sink)                         // refused by registration, not yet discarded
    | Checked(selection: Option<seq<Sink>>)        // plain execution, after the owner check
    | Flying(selected: seq<Sink>)                  // plain execution, with the client
    | SetChecked(token: Token, listed: seq<Sink>)  // a set's execution, after snapshot and owner check
    | SetFlying(token: Token, listed: seq<Sink>)
    | SetDone(token: Token, listed: seq<Sink>)     // submitted, not yet cleared

  datatype Machine = Machine(
    pending: seq<Sink>, inflight: set<Sink>, owner: map<Sink, Token>, lists: map<Token, seq<Sink>>,
    created: set<Sink>, calls: map<int, Phase>)

  const START := Machine([], {}, map[], map[], {}, map[])

  datatype Event =
    | Open(token: Token)
    | Create(sink: Sink)
    | Build(caller: int, sink: Sink)
    | Capture(caller: int, token: Token)
    | RegisterCheck(caller: int, token: Token, sink: Sink)
    | RegisterWrite(caller: int)
    | Drop(caller: int)
    | Rollback(token: Token, start: nat)
    | PlainCheck(caller: int, selection: Option<seq<Sink>>)
    | SetCheck(caller: int, token: Token)
    | Begin(caller: int)
    | Succeed(caller: int)
    | Fail(caller: int)
    | Clear(caller: int)

  function ViewIn(m: Machine, token: Token): View
    requires token in m.lists
  {
    View(m.lists[token], m.pending, m.owner)
  }

  function Seen(m: Machine, token: Token, v: View): Machine {
    m.(pending := v.pending, owner := v.owner, lists := m.lists[token := v.sinks])
  }

  predicate IsNew(kind: Sink -> Kind, m: Machine, s: Sink) {
    s !in m.created && IsTerminal(kind, s)
  }

  function Made(m: Machine, s: Sink): Machine {
    m.(pending := m.pending + [s], created := m.created + {s})
  }

  /** A set may be executed: it lists sinks, and all of them carry its token. */
  predicate MayExecute(m: Machine, token: Token) {
    && token in m.lists && m.lists[token] != []
    && forall s :: s in m.lists[token] ==> s in m.owner && m.owner[s] == token
  }

  function Gone(m: Machine, caller: int): Machine {
    m.(calls := m.calls - {caller})
  }

  /** One step; a step that does not apply, or whose check fails, changes nothing but the caller's phase. */
  function After(kind: Sink -> Kind, m: Machine, e: Event): Machine {
    match e
    case Open(token) => if token in m.lists then m else m.(lists := m.lists[token := []])
    case Create(s) => if IsNew(kind, m, s) then Made(m, s) else m
    case Build(caller, s) =>
      if caller in m.calls || !IsNew(kind, m, s) then m else Made(m, s).(calls := m.calls[caller := Building(s)])
    case Capture(caller, token) =>
      if !(caller in m.calls && m.calls[caller].Building? && token in m.lists) then m
      else m.(calls := m.calls[caller := Captures(kind, m, token, m.calls[caller].sink)])
    case RegisterCheck(caller, token, s) =>
      if caller in m.calls || !MayRegister(kind, m, token, s) then m
      else m.(calls := m.calls[caller := Registering(token, s)])
    case RegisterWrite(caller) => if caller in m.calls then Written(m, caller, m.calls[caller]) else m
    case Drop(caller) => if caller in m.calls then Dropped(m, caller, m.calls[caller]) else m
    case Rollback(token, start) =>
      if token in m.lists then Seen(m, token, RolledBack(ViewIn(m, token), start)) else m
    case PlainCheck(caller, selection) =>
      if caller in m.calls || SelectsOwned(m.pending, m.owner, selection) then m
      else m.(calls := m.calls[caller := Checked(selection)])
    case SetCheck(caller, token) =>
      if caller in m.calls || !MayExecute(m, token) then m
      else m.(calls := m.calls[caller := SetChecked(token, m.lists[token])])
    case Begin(caller) => if caller in m.calls then Begun(kind, m, caller, m.calls[caller]) else m
    case Succeed(caller) => if caller in m.calls then Succeeded(m, caller, m.calls[caller]) else m
    case Fail(caller) => if caller in m.calls then Failed(m, caller, m.calls[caller]) else m
    case Clear(caller) => if caller in m.calls then ClearedBy(m, caller, m.calls[caller]) else m
  }

  /** The checks of registration. */
  predicate MayRegister(kind: Sink -> Kind, m: Machine, token: Token, s: Sink) {
    token in m.lists && RegisterError(kind, ViewIn(m, token), s).None?
  }

  /** A sink built under capture goes on to be registered, or to be discarded if it may not be. */
  function Captures(kind: Sink -> Kind, m: Machine, token: Token, s: Sink): Phase {
    if MayRegister(kind, m, token, s) then Registering(token, s) else Dropping(s)
  }

  /** The token and the list entry are written, whatever has happened since the checks. */
  function Written(m: Machine, caller: int, phase: Phase): Machine {
    if phase.Registering? && phase.token in m.lists then
      Gone(
        m.(owner := m.owner[phase.sink := phase.token],
           lists := m.lists[phase.token := m.lists[phase.token] + [phase.sink]]),
        caller)
    else
      m
  }

  function Dropped(m: Machine, caller: int, phase: Phase): Machine {
    if phase.Dropping? then Gone(m.(pending := Without(m.pending, {phase.sink})), caller) else m
  }

  function Begun(kind: Sink -> Kind, m: Machine, caller: int, phase: Phase): Machine {
    match phase
    case Checked(selection) => (
      match BeginResult(kind, m.pending, m.inflight, selection)
      case Err(_) => Gone(m, caller)
      case Ok(selected) =>
        m.(inflight := m.inflight + Elements(selected), calls := m.calls[caller := Flying(selected)])
    )
    case SetChecked(token, listed) => (
      match BeginResult(kind, m.pending, m.inflight, Some(listed))
      case Err(_) => Gone(m, caller)
      case Ok(_) =>
        m.(inflight := m.inflight + Elements(listed), calls := m.calls[caller := SetFlying(token, listed)])
    )
    case _ => m
  }

  function Landed(m: Machine, selected: seq<Sink>): Machine {
    m.(pending := Without(m.pending, Elements(selected)), inflight := m.inflight - Elements(selected))
  }

  function Succeeded(m: Machine, caller: int, phase: Phase): Machine {
    match phase
    case Flying(selected) => Gone(Landed(m, selected), caller)
    case SetFlying(token, listed) => Landed(m, listed).(calls := m.calls[caller := SetDone(token, listed)])
    case _ => m
  }

  function Failed(m: Machine, caller: int, phase: Phase): Machine {
    if phase.Flying? || phase.SetFlying? then
      Gone(m.(inflight := m.inflight - Elements(Airborne(phase))), caller)
    else
      m
  }

  /** The submitted sinks lose their tokens, and the set's whole list is cleared. */
  function ClearedBy(m: Machine, caller: int, phase: Phase): Machine {
    if phase.SetDone? && phase.token in m.lists then
      Gone(Seen(m, phase.token, Cleared(ViewIn(m, phase.token), phase.listed)), caller)
    else
      m
  }

  function Airborne(phase: Phase): seq<Sink> {
    if phase.Flying? then phase.selected else if phase.SetFlying? then phase.listed else []
  }

  function Reached(kind: Sink -> Kind, m: Machine, events: seq<Event>): Machine {
    if events == [] then
      m
    else
      var last := |events| - 1;
      After(kind, Reached(kind, m, events[..last]), events[last])
  }

  // ---- what always holds ---------------------------------------------------

  ghost predicate SinksKnown(m: Machine) {
    && NoDuplicates(m.pending)
    && (forall s :: s in m.pending ==> s in m.created)
    && (forall s :: s in m.owner ==> s in m.created)
  }

  ghost predicate FlightsSound(m: Machine) {
    && (forall c, s :: c in m.calls && s in Airborne(m.calls[c]) ==> s in m.inflight)
    && (forall c, d, s :: c in m.calls && d in m.calls && s in Airborne(m.calls[c]) && s in Airborne(m.calls[d]) ==>
          c == d)
  }

  predicate OfSet(phase: Phase) {
    phase.SetChecked? || phase.SetFlying? || phase.SetDone?
  }

  /** What a call is about exists; what a set has submitted is neither pending nor in flight. */
  ghost predicate PhaseSound(kind: Sink -> Kind, m: Machine, phase: Phase) {
    && (phase.Building? ==> phase.sink in m.created)
    && (phase.Registering? ==> phase.sink in m.created && kind(phase.sink) == Effect && phase.token in m.lists)
    && (OfSet(phase) ==> phase.token in m.lists && forall s :: s in phase.listed ==> s in m.created)
    && (phase.SetDone? ==> forall s :: s in phase.listed ==> s !in m.pending && s !in m.inflight)
  }

  ghost predicate CallsSound(kind: Sink -> Kind, m: Machine) {
    forall c :: c in m.calls ==> PhaseSound(kind, m, m.calls[c])
  }

  ghost predicate Base(kind: Sink -> Kind, m: Machine) {
    SinksKnown(m) && FlightsSound(m) && CallsSound(kind, m)
  }

  /** Steps that only take away from what is pending and in flight, and move no call into the air. */
  lemma ShrinkKeepsBase(kind: Sink -> Kind, m: Machine, w: Machine)
    requires Base(kind, m) && NoDuplicates(w.pending)
    requires forall s :: s in w.pending ==> s in m.pending
    requires forall s :: s in w.owner ==> s in m.created
    requires w.created == m.created && m.lists.Keys <= w.lists.Keys && w.inflight == m.inflight
    requires forall c :: c in w.calls ==> Inherited(kind, m, w, c)
    ensures Base(kind, w)
  {
    hide NoDuplicates;
    forall c | c in w.calls ensures PhaseSound(kind, w, w.calls[c]) {
      assert c in m.calls ==> PhaseSound(kind, m, m.calls[c]);
    }
  }

  /** The call is as before, or has just begun on the ground. */
  ghost predicate Inherited(kind: Sink -> Kind, m: Machine, w: Machine, c: int)
    requires c in w.calls
  {
    || (c in m.calls && w.calls[c] == m.calls[c])
    || (Airborne(w.calls[c]) == [] && !w.calls[c].SetDone? && PhaseSound(kind, w, w.calls[c]))
  }

  lemma BeginKeepsBase(kind: Sink -> Kind, m: Machine, caller: int)
    requires Base(kind, m) && caller in m.calls
    ensures Base(kind, Begun(kind, m, caller, m.calls[caller]))
  {
    hide SelectSinks, Base;
    var phase := m.calls[caller];
    GoneKeepsBase(kind, m, caller);
    if phase.Checked? && BeginResult(kind, m.pending, m.inflight, phase.selection).Ok? {
      SelectedPending(kind, m.pending, phase.selection);
      var selected := BeginResult(kind, m.pending, m.inflight, phase.selection).value;
      TakeOffKeepsBase(kind, m, caller, Flying(selected));
    } else if phase.SetChecked? && BeginResult(kind, m.pending, m.inflight, Some(phase.listed)).Ok? {
      SelectedPending(kind, m.pending, Some(phase.listed));
      SelectsGiven(kind, m.pending, phase.listed);
      TakeOffKeepsBase(kind, m, caller, SetFlying(phase.token, phase.listed));
    }
  }

  lemma TakeOffKeepsBase(kind: Sink -> Kind, m: Machine, caller: int, phase: Phase)
    requires Base(kind, m) && caller in m.calls && (phase.Flying? || phase.SetFlying?)
    requires phase.SetFlying? ==> m.calls[caller] == SetChecked(phase.token, phase.listed)
    requires Within(Airborne(phase), m.pending) && Elements(Airborne(phase)) !! m.inflight
    ensures Base(kind, m.(inflight := m.inflight + Elements(Airborne(phase)), calls := m.calls[caller := phase]))
  {
    hide NoDuplicates;
    var w := m.(inflight := m.inflight + Elements(Airborne(phase)), calls := m.calls[caller := phase]);
    assert forall s :: s in Airborne(phase) ==> s !in m.inflight;
    assert FlightsSound(w);
    assert SinksKnown(w);
    forall c | c in w.calls ensures PhaseSound(kind, w, w.calls[c]) {
      assert PhaseSound(kind, m, m.calls[c]);
    }
  }

  lemma SelectsGiven(kind: Sink -> Kind, pending: seq<Sink>, sinks: seq<Sink>)
    requires SelectSinks(kind, pending, Some(sinks)).Ok?
    ensures SelectSinks(kind, pending, Some(sinks)).value == sinks
  {
  }

  lemma SucceedKeepsBase(kind: Sink -> Kind, m: Machine, caller: int)
    requires Base(kind, m) && caller in m.calls
    ensures Base(kind, Succeeded(m, caller, m.calls[caller]))
  {
    hide NoDuplicates;
    WithoutDistinct(m.pending, Elements(Airborne(m.calls[caller])));
    var w := Succeeded(m, caller, m.calls[caller]);
    assert PhaseSound(kind, m, m.calls[caller]);
    forall c | c in w.calls ensures PhaseSound(kind, w, w.calls[c]) {
      assert PhaseSound(kind, m, m.calls[c]);
    }
  }

  lemma FailKeepsBase(kind: Sink -> Kind, m: Machine, caller: int)
    requires Base(kind, m) && caller in m.calls
    ensures Base(kind, Failed(m, caller, m.calls[caller]))
  {
    hide NoDuplicates;
    var w := Failed(m, caller, m.calls[caller]);
    forall c | c in w.calls ensures PhaseSound(kind, w, w.calls[c]) {
      assert PhaseSound(kind, m, m.calls[c]);
    }
  }

  lemma GoneKeepsBase(kind: Sink -> Kind, m: Machine, caller: int)
    requires Base(kind, m)
    ensures Base(kind, Gone(m, caller))
  {
    ShrinkKeepsBase(kind, m, Gone(m, caller));
  }

  lemma MadeKeepsBase(kind: Sink -> Kind, m: Machine, s: Sink)
    requires Base(kind, m) && s !in m.created
    ensures Base(kind, Made(m, s))
  {
    assert NoDuplicates(m.pending + [s]);
    hide NoDuplicates;
    var w := Made(m, s);
    forall c | c in w.calls ensures PhaseSound(kind, w, w.calls[c]) {
      assert PhaseSound(kind, m, m.calls[c]);
    }
  }

  /** The steps that begin a call on the ground, or write and take away without the lock. */
  lemma GroundKeepsBase(kind: Sink -> Kind, m: Machine, e: Event)
    requires Base(kind, m)
    requires !e.Create? && !e.Build? && !e.Begin? && !e.Succeed? && !e.Fail?
    ensures Base(kind, After(kind, m, e))
  {
    hide NoDuplicates, FlightsSound, Captured;
    var w := After(kind, m, e);
    match e {
      case Rollback(token, start) =>
        if token in m.lists { WithoutDistinct(m.pending, Captured(ViewIn(m, token), start)); }
      case Drop(caller) =>
        if caller in m.calls && m.calls[caller].Dropping? { WithoutDistinct(m.pending, {m.calls[caller].sink}); }
      case RegisterWrite(caller) => assert caller in m.calls ==> PhaseSound(kind, m, m.calls[caller]);
      case Capture(caller, _) => assert caller in m.calls ==> PhaseSound(kind, m, m.calls[caller]);
      case _ =>
    }
    ShrinkKeepsBase(kind, m, w);
  }

  lemma StepKeepsBase(kind: Sink -> Kind, m: Machine, e: Event)
    requires Base(kind, m)
    ensures Base(kind, After(kind, m, e))
  {
    hide Base, Begun, Succeeded, Failed, RegisterError;
    match e
    case Create(s) =>
      if IsNew(kind, m, s) { MadeKeepsBase(kind, m, s); }
    case Build(caller, s) =>
      if caller !in m.calls && IsNew(kind, m, s) {
        MadeKeepsBase(kind, m, s);
        BuildingKeepsBase(kind, Made(m, s), caller, s);
      }
    case Begin(caller) =>
      if caller in m.calls { BeginKeepsBase(kind, m, caller); }
    case Succeed(caller) =>
      if caller in m.calls { SucceedKeepsBase(kind, m, caller); }
    case Fail(caller) =>
      if caller in m.calls { FailKeepsBase(kind, m, caller); }
    case _ => GroundKeepsBase(kind, m, e);
  }

  lemma BuildingKeepsBase(kind: Sink -> Kind, m: Machine, caller: int, s: Sink)
    requires Base(kind, m) && s in m.created && caller !in m.calls
    ensures Base(kind, m.(calls := m.calls[caller := Building(s)]))
  {
    ShrinkKeepsBase(kind, m, m.(calls := m.calls[caller := Building(s)]));
  }

  /** Over every interleaving: flights are disjoint and in the in-flight set, and nothing submitted is pending again. */
  lemma {:induction false} BaseOverRuns(kind: Sink -> Kind, m: Machine, events: seq<Event>)
    requires Base(kind, m)
    ensures Base(kind, Reached(kind, m, events))
  {
    hide Base, After;
    if events != [] {
      BaseOverRuns(kind, m, events[..|events| - 1]);
      StepKeepsBase(kind, Reached(kind, m, events[..|events| - 1]), events[|events| - 1]);
    }
  }

  // ---- tokens and lists ----------------------------------------------------

  /** A submitted sink whose set has not been cleared yet. */
  ghost predicate Uncleared(m: Machine, token: Token, s: Sink) {
    exists c :: c in m.calls && m.calls[c].SetDone? && m.calls[c].token == token && s in m.calls[c].listed
  }

  ghost predicate TokensMatch(m: Machine) {
    && (forall t :: t in m.lists ==> OwnsList(t, ViewIn(m, t)) && NoDuplicates(m.lists[t]))
    && (forall s :: s in m.owner ==> m.owner[s] in m.lists)
  }

  ghost predicate ListsPending(kind: Sink -> Kind, m: Machine) {
    forall t, s :: t in m.lists && s in m.lists[t] ==> kind(s) == Effect && (s in m.pending || Uncleared(m, t, s))
  }

  /** What a set is submitting belongs to no other set, nor to another submission of another set. */
  ghost predicate SnapshotsHold(m: Machine) {
    && (forall c, s :: c in m.calls && OfSet(m.calls[c]) && s in m.calls[c].listed ==>
          if s in m.owner then m.owner[s] == m.calls[c].token else s !in m.pending)
    && (forall c, d :: c in m.calls && d in m.calls && OfSet(m.calls[c]) && OfSet(m.calls[d]) ==>
          forall s :: s in m.calls[c].listed && s in m.calls[d].listed ==> m.calls[c].token == m.calls[d].token)
  }

  ghost predicate ListsAgree(kind: Sink -> Kind, m: Machine) {
    TokensMatch(m) && ListsPending(kind, m)
  }

  /**
    A sink carries a set's token exactly when it is in that set's list, once, so that
    sets are disjoint; sets list only sinks that are pending, or that they have just
    submitted and are about to clear; and what a set is submitting stays its own.
   */
  ghost predicate Agrees(kind: Sink -> Kind, m: Machine) {
    ListsAgree(kind, m) && SnapshotsHold(m)
  }

  /** A plain execution has a sink in flight that a set owns. */
  predicate SubmitsOwned(m: Machine, caller: int) {
    caller in m.calls && m.calls[caller].Flying? && exists s :: s in m.calls[caller].selected && s in m.owner
  }

  /** Clearing would take sinks off the list that were not submitted, and keep their tokens. */
  predicate ClearsMore(m: Machine, caller: int) {
    && caller in m.calls && m.calls[caller].SetDone? && m.calls[caller].token in m.lists
    && exists s :: s in m.lists[m.calls[caller].token] && s !in m.calls[caller].listed
  }

  /** A sink about to be discarded is pending and owned. */
  predicate DropsOwned(m: Machine, caller: int) {
    && caller in m.calls && m.calls[caller].Dropping?
    && m.calls[caller].sink in m.owner && m.calls[caller].sink in m.pending
  }

  /** The checks of a registration no longer hold at its writes. */
  ghost predicate WritesStale(m: Machine, caller: int) {
    && caller in m.calls && m.calls[caller].Registering? && m.calls[caller].token in m.lists
    && var phase := m.calls[caller];
       phase.sink in m.owner || (phase.sink !in m.pending && !Uncleared(m, phase.token, phase.sink))
  }

  /** The steps that break the agreement. */
  ghost predicate Interferes(kind: Sink -> Kind, m: Machine, e: Event) {
    match e
    case Succeed(caller) => SubmitsOwned(m, caller)
    case Clear(caller) => ClearsMore(m, caller)
    case Drop(caller) => DropsOwned(m, caller)
    case RegisterWrite(caller) => WritesStale(m, caller)
    case _ => false
  }

  lemma UnclearedStays(m: Machine, w: Machine)
    requires forall c :: c in m.calls && m.calls[c].SetDone? ==> c in w.calls && w.calls[c] == m.calls[c]
    ensures forall t, s :: Uncleared(m, t, s) ==> Uncleared(w, t, s)
  {
    forall t, s | Uncleared(m, t, s) ensures Uncleared(w, t, s) {
      var c :| c in m.calls && m.calls[c].SetDone? && m.calls[c].token == t && s in m.calls[c].listed;
      assert c in w.calls && w.calls[c] == m.calls[c];
    }
  }

  lemma PhaseGone(m: Machine, w: Machine, caller: int)
    requires caller in m.calls && !m.calls[caller].SetDone? && w.calls == m.calls - {caller}
    ensures forall t, s :: Uncleared(m, t, s) <==> Uncleared(w, t, s)
  {
    UnclearedStays(m, w);
    UnclearedStays(w, m);
  }

  /** Lists keep agreeing while owners, lists and uncleared sets stay and nothing pending goes. */
  lemma UnchangedAgrees(kind: Sink -> Kind, m: Machine, w: Machine)
    requires ListsAgree(kind, m) && w.lists == m.lists && w.owner == m.owner
    requires forall s :: s in m.pending ==> s in w.pending
    requires forall t, s :: Uncleared(m, t, s) ==> Uncleared(w, t, s)
    ensures ListsAgree(kind, w)
  {
    hide Uncleared, NoDuplicates;
    forall t | t in w.lists ensures OwnsList(t, ViewIn(w, t)) && NoDuplicates(w.lists[t]) {
      assert OwnsList(t, ViewIn(m, t));
    }
  }

  lemma WriteAgreesIff(kind: Sink -> Kind, m: Machine, caller: int)
    requires Base(kind, m) && ListsAgree(kind, m) && caller in m.calls && m.calls[caller].Registering?
    ensures ListsAgree(kind, After(kind, m, RegisterWrite(caller))) <==> !WritesStale(m, caller)
  {
    var token, s, w := m.calls[caller].token, m.calls[caller].sink, After(kind, m, RegisterWrite(caller));
    assert PhaseSound(kind, m, m.calls[caller]);
    PhaseGone(m, w, caller);
    hide Uncleared, Base;
    if s in m.owner {
      ListedOwner(kind, m, s);
      if m.owner[s] == token {
        var l := m.lists[token];
        var i :| 0 <= i < |l| && l[i] == s;
        assert w.lists[token][i] == w.lists[token][|l|];
        assert !NoDuplicates(w.lists[token]);
      } else {
        assert !OwnsList(m.owner[s], ViewIn(w, m.owner[s]));
      }
    } else {
      UnlistedUnowned(kind, m, s);
      NewlyListed(m, w, token, s);
      if ListsPending(kind, w) {
        assert s in w.lists[token];
      }
    }
  }

  lemma NewlyListed(m: Machine, w: Machine, token: Token, s: Sink)
    requires TokensMatch(m) && token in m.lists && s !in m.owner && s !in m.lists[token]
    requires w.owner == m.owner[s := token] && w.lists == m.lists[token := m.lists[token] + [s]]
    ensures TokensMatch(w)
  {
    assert NoDuplicates(m.lists[token] + [s]);
    hide NoDuplicates;
    forall t | t in w.lists ensures OwnsList(t, ViewIn(w, t)) && NoDuplicates(w.lists[t]) {
      assert OwnsList(t, ViewIn(m, t)) && OwnsList(token, ViewIn(m, token));
    }
  }

  lemma RollbackAgrees(kind: Sink -> Kind, m: Machine, token: Token, start: nat)
    requires ListsAgree(kind, m) && token in m.lists
    ensures ListsAgree(kind, Seen(m, token, RolledBack(ViewIn(m, token), start)))
  {
    hide Uncleared, Without;
    var v := ViewIn(m, token);
    var w := Seen(m, token, RolledBack(v, start));
    UnclearedStays(m, w);
    forall s ensures s in w.lists[token] <==> s in v.sinks && s !in Captured(v, start) {
      PrefixOrCaptured(v, start, s);
    }
    forall s | s in Captured(v, start) ensures s in v.sinks {}
    assert NoDuplicates(w.lists[token]);
    hide Captured, NoDuplicates;
    forall t | t in w.lists ensures OwnsList(t, ViewIn(w, t)) && NoDuplicates(w.lists[t]) {
      assert OwnsList(t, ViewIn(m, t)) && OwnsList(token, ViewIn(m, token));
    }
  }

  /** Taking sinks out of the pending ones is harmless exactly when no list depends on them. */
  lemma DroppedAgreesIff(kind: Sink -> Kind, m: Machine, w: Machine, gone: set<Sink>)
    requires ListsAgree(kind, m) && w.lists == m.lists && w.owner == m.owner && w.pending == Without(m.pending, gone)
    requires forall t, s :: t in m.lists && s in m.lists[t] ==> (Uncleared(m, t, s) <==> Uncleared(w, t, s))
    ensures ListsAgree(kind, w) <==> forall t, s :: t in m.lists && s in m.lists[t] && s in gone ==> Uncleared(m, t, s)
  {
    hide Uncleared, Without, NoDuplicates;
    forall t | t in w.lists ensures OwnsList(t, ViewIn(w, t)) && NoDuplicates(w.lists[t]) {
      assert OwnsList(t, ViewIn(m, t));
    }
    assert forall s :: s in w.pending <==> s in m.pending && s !in gone;
    if ListsPending(kind, w) {
      forall t, s | t in m.lists && s in m.lists[t] && s in gone ensures Uncleared(m, t, s) {
        assert s in w.pending || Uncleared(w, t, s);
      }
    }
  }

  lemma ListedOwner(kind: Sink -> Kind, m: Machine, s: Sink)
    requires ListsAgree(kind, m) && s in m.owner
    ensures m.owner[s] in m.lists && s in m.lists[m.owner[s]]
    ensures forall t :: t in m.lists && s in m.lists[t] ==> t == m.owner[s]
  {
    hide NoDuplicates;
    forall t | t in m.lists && s in m.lists[t] ensures t == m.owner[s] {
      assert OwnsList(t, ViewIn(m, t));
    }
    assert OwnsList(m.owner[s], ViewIn(m, m.owner[s]));
  }

  lemma UnlistedUnowned(kind: Sink -> Kind, m: Machine, s: Sink)
    requires ListsAgree(kind, m) && s !in m.owner
    ensures forall t :: t in m.lists ==> s !in m.lists[t]
  {
    hide NoDuplicates;
    forall t | t in m.lists ensures s !in m.lists[t] {
      assert OwnsList(t, ViewIn(m, t));
    }
  }

  /** What is in flight has not been submitted by a set. */
  lemma InFlightNotDone(kind: Sink -> Kind, m: Machine, caller: int, t: Token, s: Sink)
    requires Base(kind, m) && caller in m.calls && s in Airborne(m.calls[caller])
    ensures !Uncleared(m, t, s)
  {
    hide NoDuplicates;
    assert s in m.inflight;
    forall c | c in m.calls && m.calls[c].SetDone? ensures s !in m.calls[c].listed {
      assert PhaseSound(kind, m, m.calls[c]);
    }
  }

  lemma PendingNotDone(kind: Sink -> Kind, m: Machine, t: Token, s: Sink)
    requires Base(kind, m) && s in m.pending
    ensures !Uncleared(m, t, s)
  {
    hide NoDuplicates;
    forall c | c in m.calls && m.calls[c].SetDone? ensures s !in m.calls[c].listed {
      assert PhaseSound(kind, m, m.calls[c]);
    }
  }

  lemma PlainSuccessAgreesIff(kind: Sink -> Kind, m: Machine, caller: int)
    requires Base(kind, m) && ListsAgree(kind, m) && caller in m.calls && m.calls[caller].Flying?
    ensures ListsAgree(kind, After(kind, m, Event.Succeed(caller))) <==> !SubmitsOwned(m, caller)
  {
    hide Uncleared, Base, ListsAgree;
    var flight, w := m.calls[caller].selected, After(kind, m, Event.Succeed(caller));
    PhaseGone(m, w, caller);
    forall t, s | s in flight ensures !Uncleared(m, t, s) {
      InFlightNotDone(kind, m, caller, t, s);
    }
    DroppedAgreesIff(kind, m, w, Elements(flight));
    if s :| s in flight && s in m.owner {
      ListedOwner(kind, m, s);
    } else {
      forall s | s in flight ensures forall t :: t in m.lists ==> s !in m.lists[t] {
        UnlistedUnowned(kind, m, s);
      }
    }
  }

  /** A set that succeeds takes its own sinks out of the pending ones, and is about to clear them. */
  lemma SetSuccessAgrees(kind: Sink -> Kind, m: Machine, caller: int)
    requires Agrees(kind, m) && caller in m.calls && m.calls[caller].SetFlying?
    ensures ListsAgree(kind, After(kind, m, Event.Succeed(caller)))
  {
    var phase, w := m.calls[caller], After(kind, m, Event.Succeed(caller));
    UnclearedStays(m, w);
    forall s | s in phase.listed ensures Uncleared(w, phase.token, s) {
      assert caller in w.calls && w.calls[caller] == SetDone(phase.token, phase.listed);
    }
    hide Uncleared, NoDuplicates;
    forall t | t in w.lists ensures OwnsList(t, ViewIn(w, t)) && NoDuplicates(w.lists[t]) {
      assert OwnsList(t, ViewIn(m, t));
    }
    forall t, s | t in w.lists && s in w.lists[t] ensures kind(s) == Effect && (s in w.pending || Uncleared(w, t, s)) {
      assert OwnsList(t, ViewIn(m, t));
      assert s in phase.listed ==> t == phase.token;
    }
  }

  lemma ClearAgreesIff(kind: Sink -> Kind, m: Machine, caller: int)
    requires Base(kind, m) && Agrees(kind, m) && caller in m.calls && m.calls[caller].SetDone?
    ensures ListsAgree(kind, After(kind, m, Clear(caller))) <==> !ClearsMore(m, caller)
  {
    var phase, w := m.calls[caller], After(kind, m, Clear(caller));
    var t0 := phase.token;
    assert PhaseSound(kind, m, phase);
    assert OwnsList(t0, ViewIn(m, t0));
    assert NoDuplicates<Sink>([]);
    forall t, s | t != t0 && Uncleared(m, t, s) ensures Uncleared(w, t, s) {
      var c :| c in m.calls && m.calls[c].SetDone? && m.calls[c].token == t && s in m.calls[c].listed;
      assert c in w.calls && w.calls[c] == m.calls[c];
    }
    hide Uncleared, Base, NoDuplicates;
    if s :| s in m.lists[t0] && s !in phase.listed {
      assert s in w.owner && w.owner[s] == t0 && s !in ViewIn(w, t0).sinks;
      assert !OwnsList(t0, ViewIn(w, t0));
    } else {
      forall t | t in w.lists ensures OwnsList(t, ViewIn(w, t)) && NoDuplicates(w.lists[t]) {
        assert OwnsList(t, ViewIn(m, t));
      }
      assert ListsPending(kind, w);
    }
  }

  lemma DropAgreesIff(kind: Sink -> Kind, m: Machine, caller: int)
    requires Base(kind, m) && ListsAgree(kind, m) && caller in m.calls && m.calls[caller].Dropping?
    ensures ListsAgree(kind, After(kind, m, Drop(caller))) <==> !DropsOwned(m, caller)
  {
    hide Uncleared, Base, ListsAgree;
    var s, w := m.calls[caller].sink, After(kind, m, Drop(caller));
    PhaseGone(m, w, caller);
    DroppedAgreesIff(kind, m, w, {s});
    if s in m.owner && s in m.pending {
      ListedOwner(kind, m, s);
      PendingNotDone(kind, m, m.owner[s], s);
    } else if s in m.owner {
      ListedOwner(kind, m, s);
      ListedUncleared(kind, m, s);
    } else {
      UnlistedUnowned(kind, m, s);
    }
  }

  lemma ListedUncleared(kind: Sink -> Kind, m: Machine, s: Sink)
    requires ListsAgree(kind, m) && s in m.owner && s !in m.pending
    ensures forall t :: t in m.lists && s in m.lists[t] ==> Uncleared(m, t, s)
  {
    hide NoDuplicates, OwnsList;
  }

  /** The lists agree after a step exactly when it does not interfere. */
  lemma StepListsAgreeIff(kind: Sink -> Kind, m: Machine, e: Event)
    requires Base(kind, m) && Agrees(kind, m)
    ensures ListsAgree(kind, After(kind, m, e)) <==> !Interferes(kind, m, e)
  {
    hide Uncleared, Base, ListsAgree, SnapshotsHold, RolledBack, BeginResult, RegisterError;
    match e
    case RegisterWrite(caller) =>
      if caller in m.calls && m.calls[caller].Registering? { WriteAgreesIff(kind, m, caller); }
    case Rollback(token, start) =>
      if token in m.lists { RollbackAgrees(kind, m, token, start); }
    case Drop(caller) =>
      if caller in m.calls && m.calls[caller].Dropping? { DropAgreesIff(kind, m, caller); }
    case Succeed(caller) =>
      if caller in m.calls && m.calls[caller].Flying? { PlainSuccessAgreesIff(kind, m, caller); }
      if caller in m.calls && m.calls[caller].SetFlying? { SetSuccessAgrees(kind, m, caller); }
    case Clear(caller) =>
      if caller in m.calls && m.calls[caller].SetDone? {
        DoneKnown(kind, m, caller);
        ClearAgreesIff(kind, m, caller);
      }
    case Open(token) => OpenAgrees(kind, m, token);
    case _ => OthersAgree(kind, m, e);
  }

  lemma DoneKnown(kind: Sink -> Kind, m: Machine, caller: int)
    requires Base(kind, m) && caller in m.calls && m.calls[caller].SetDone?
    ensures m.calls[caller].token in m.lists
  {
    assert PhaseSound(kind, m, m.calls[caller]);
  }

  lemma OpenAgrees(kind: Sink -> Kind, m: Machine, token: Token)
    requires ListsAgree(kind, m)
    ensures ListsAgree(kind, After(kind, m, Event.Open(token)))
  {
    var w := After(kind, m, Event.Open(token));
    UnclearedStays(m, w);
    assert NoDuplicates<Sink>([]);
    hide Uncleared, NoDuplicates;
    forall t | t in w.lists ensures OwnsList(t, ViewIn(w, t)) && NoDuplicates(w.lists[t]) {
      if t in m.lists {
        assert OwnsList(t, ViewIn(m, t));
      }
    }
  }

  /** The steps that only create sinks, check, select or fail. */
  lemma OthersAgree(kind: Sink -> Kind, m: Machine, e: Event)
    requires ListsAgree(kind, m)
    requires e.Create? || e.Build? || e.Begin? || e.Fail?
          || e.Capture? || e.RegisterCheck? || e.PlainCheck? || e.SetCheck?
    ensures ListsAgree(kind, After(kind, m, e))
  {
    hide ListsAgree, Uncleared, BeginResult, RegisterError;
    var w := After(kind, m, e);
    UnclearedStays(m, w);
    UnchangedAgrees(kind, m, w);
  }

  // ---- snapshots -----------------------------------------------------------

  /** What sets are submitting stays theirs while no sink that existed gains an owner or becomes pending. */
  lemma SnapshotsStay(kind: Sink -> Kind, m: Machine, w: Machine)
    requires Base(kind, m) && SnapshotsHold(m)
    requires forall s :: s in m.created && s in w.owner ==> s in m.owner && w.owner[s] == m.owner[s]
    requires forall s :: s in m.created && s !in w.owner && s in w.pending ==> s !in m.owner && s in m.pending
    requires forall c :: c in w.calls && OfSet(w.calls[c]) ==> SameSnapshot(m, w, c)
    ensures SnapshotsHold(w)
  {
    hide NoDuplicates, FlightsSound;
    forall c | c in m.calls && OfSet(m.calls[c]) ensures forall s :: s in m.calls[c].listed ==> s in m.created {
      assert PhaseSound(kind, m, m.calls[c]);
    }
  }

  ghost predicate SameSnapshot(m: Machine, w: Machine, c: int)
    requires c in w.calls && OfSet(w.calls[c])
  {
    c in m.calls && OfSet(m.calls[c]) && m.calls[c].token == w.calls[c].token && m.calls[c].listed == w.calls[c].listed
  }

  lemma SetCheckKeepsSnapshots(kind: Sink -> Kind, m: Machine, caller: int, token: Token)
    requires SnapshotsHold(m)
    ensures SnapshotsHold(After(kind, m, SetCheck(caller, token)))
  {
  }

  lemma WriteKeepsSnapshots(kind: Sink -> Kind, m: Machine, caller: int)
    requires SnapshotsHold(m) && caller in m.calls && m.calls[caller].Registering? && !WritesStale(m, caller)
    ensures SnapshotsHold(After(kind, m, RegisterWrite(caller)))
  {
    var token, s, w := m.calls[caller].token, m.calls[caller].sink, After(kind, m, RegisterWrite(caller));
    if token in m.lists {
      forall c | c in m.calls && OfSet(m.calls[c]) && s in m.calls[c].listed ensures m.calls[c].token == token {
        if s !in m.pending {
          var d :| d in m.calls && m.calls[d].SetDone? && m.calls[d].token == token && s in m.calls[d].listed;
        }
      }
    }
  }

  lemma ClearKeepsSnapshots(kind: Sink -> Kind, m: Machine, caller: int)
    requires Base(kind, m) && SnapshotsHold(m)
    ensures SnapshotsHold(After(kind, m, Clear(caller)))
  {
    hide NoDuplicates, FlightsSound;
    if caller in m.calls && m.calls[caller].SetDone? {
      assert PhaseSound(kind, m, m.calls[caller]);
    }
    SnapshotsStay(kind, m, After(kind, m, Clear(caller)));
  }

  lemma RollbackKeepsSnapshots(kind: Sink -> Kind, m: Machine, token: Token, start: nat)
    requires Base(kind, m) && SnapshotsHold(m)
    ensures SnapshotsHold(After(kind, m, Rollback(token, start)))
  {
    hide NoDuplicates, Captured, Base, SnapshotsHold;
    SnapshotsStay(kind, m, After(kind, m, Rollback(token, start)));
  }

  lemma StepKeepsSnapshots(kind: Sink -> Kind, m: Machine, e: Event)
    requires Base(kind, m) && SnapshotsHold(m) && !Interferes(kind, m, e)
    ensures SnapshotsHold(After(kind, m, e))
  {
    hide Base, SnapshotsHold, BeginResult, RegisterError, RolledBack, Uncleared;
    match e
    case SetCheck(caller, token) => SetCheckKeepsSnapshots(kind, m, caller, token);
    case Clear(caller) => ClearKeepsSnapshots(kind, m, caller);
    case Rollback(token, start) => RollbackKeepsSnapshots(kind, m, token, start);
    case RegisterWrite(caller) =>
      if caller in m.calls && m.calls[caller].Registering? { WriteKeepsSnapshots(kind, m, caller); }
    case Begin(caller) => LockedKeepsSnapshots(kind, m, e);
    case Succeed(caller) => LockedKeepsSnapshots(kind, m, e);
    case Fail(caller) => LockedKeepsSnapshots(kind, m, e);
    case _ => SnapshotsStay(kind, m, After(kind, m, e));
  }

  lemma LockedKeepsSnapshots(kind: Sink -> Kind, m: Machine, e: Event)
    requires Base(kind, m) && SnapshotsHold(m) && (e.Begin? || e.Succeed? || e.Fail?)
    ensures SnapshotsHold(After(kind, m, e))
  {
    hide Base, SnapshotsHold, BeginResult;
    SnapshotsStay(kind, m, After(kind, m, e));
  }

  /** The agreement is kept at a step exactly when the step does not interfere. */
  lemma StepAgreesIff(kind: Sink -> Kind, m: Machine, e: Event)
    requires Base(kind, m) && Agrees(kind, m)
    ensures Agrees(kind, After(kind, m, e)) <==> !Interferes(kind, m, e)
  {
    hide Base, ListsAgree, SnapshotsHold, Interferes, After;
    StepListsAgreeIff(kind, m, e);
    if !Interferes(kind, m, e) {
      StepKeepsSnapshots(kind, m, e);
    }
  }

  ghost predicate AgreesThroughout(kind: Sink -> Kind, m: Machine, events: seq<Event>) {
    forall k :: 0 <= k <= |events| ==> Agrees(kind, Reached(kind, m, events[..k]))
  }

  ghost predicate InterferesAt(kind: Sink -> Kind, m: Machine, events: seq<Event>, k: nat)
    requires k < |events|
  {
    Interferes(kind, Reached(kind, m, events[..k]), events[k])
  }

  /** In every run, tokens and lists agree at each moment exactly when no step interferes. */
  lemma {:induction false} AgreesOverRunsIff(kind: Sink -> Kind, m: Machine, events: seq<Event>)
    requires Base(kind, m) && Agrees(kind, m)
    ensures AgreesThroughout(kind, m, events) <==> forall k :: 0 <= k < |events| ==> !InterferesAt(kind, m, events, k)
  {
    hide Base, Agrees, Interferes, After;
    if events == [] {
      assert events[..0] == events;
    } else {
      var last := |events| - 1;
      var init := events[..last];
      AgreesOverRunsIff(kind, m, init);
      BaseOverRuns(kind, m, init);
      forall k | 0 <= k <= last ensures init[..k] == events[..k] {}
      forall k | 0 <= k < last ensures InterferesAt(kind, m, init, k) <==> InterferesAt(kind, m, events, k) {}
      assert events[..|events|] == events;
      assert init[..last] == init;
      assert InterferesAt(kind, m, events, last) <==> Interferes(kind, Reached(kind, m, init), events[last]);
      if Agrees(kind, Reached(kind, m, init)) {
        StepAgreesIff(kind, Reached(kind, m, init), events[last]);
      }
      assert AgreesThroughout(kind, m, events) <==>
        AgreesThroughout(kind, m, init) && Agrees(kind, Reached(kind, m, events));
    }
  }

  /** A pipeline without sinks agrees, so the result covers every run from the beginning. */
  lemma StartAgrees(kind: Sink -> Kind)
    ensures Base(kind, START) && Agrees(kind, START)
  {
  }
}

/** Which selections of sinks are accepted, why the others are refused, and what default execution leaves. */
module SelectionLaws {
  import opened Wrappers
  import opened Sorting
  import opened Submission
  import opened Statements

  // ---- what a selection must be --------------------------------------------

  ghost predicate OwnTerminals(kind: Sink -> Kind, selected: seq<Sink>) {
    forall s :: s in selected ==> kind(s) != NotATerminal && kind(s) != Foreign
  }

  /** A collecting terminal is alone. */
  ghost predicate TakesAlone(kind: Sink -> Kind, selected: seq<Sink>) {
    forall s :: s in selected && kind(s) == Take ==> selected == [s]
  }

  ghost predicate Idle(selected: seq<Sink>, inflight: set<Sink>) {
    forall s :: s in selected ==> s !in inflight
  }

  ghost predicate OffersKind(kind: Sink -> Kind, selected: seq<Sink>, k: Kind) {
    exists s :: s in selected && kind(s) == k
  }

  /** Positions of two collecting terminals, which may be one sink listed twice. */
  ghost predicate TwoTakes(kind: Sink -> Kind, selected: seq<Sink>) {
    exists i, j :: 0 <= i < j < |selected| && kind(selected[i]) == Take && kind(selected[j]) == Take
  }

  lemma IncludesIff(kind: Sink -> Kind, selected: seq<Sink>, k: Kind)
    ensures Includes(kind, selected, k) <==> OffersKind(kind, selected, k)
  {
    if Includes(kind, selected, k) {
      var i :| 0 <= i < |selected| && kind(selected[i]) == k;
      assert selected[i] in selected;
    }
  }

  lemma RepeatsIff(selected: seq<Sink>)
    ensures Repeats(selected) <==> !NoDuplicates(selected)
  {
  }

  lemma AloneIff(kind: Sink -> Kind, selected: seq<Sink>)
    ensures TakesAlone(kind, selected)
       <==> !Several(kind, selected) && (|selected| <= 1 || !OffersKind(kind, selected, Take))
  {
    if |selected| == 1 {
      assert selected == [selected[0]];
    }
    if Several(kind, selected) {
      var i, j :| 0 <= i < j < |selected| && kind(selected[i]) == Take && kind(selected[j]) == Take;
      NotAlone(kind, selected, i);
    }
  }

  lemma NotAlone(kind: Sink -> Kind, selected: seq<Sink>, i: nat)
    requires i < |selected| && |selected| > 1 && kind(selected[i]) == Take
    ensures !TakesAlone(kind, selected)
  {
    assert selected[i] in selected;
    assert |selected| != |[selected[i]]|;
  }

  lemma IdleIff(selected: seq<Sink>, inflight: set<Sink>)
    ensures Idle(selected, inflight) <==> Elements(selected) !! inflight
  {
    assert forall s :: s in Elements(selected) <==> s in selected;
  }

  // ---- acceptance ----------------------------------------------------------

  /**
    Without a selection everything pending is submitted, exactly when all of it is this
    pipeline's terminals, none of them in flight, and a collecting one is alone.
   */
  lemma DefaultBeginIff(kind: Sink -> Kind, pending: seq<Sink>, inflight: set<Sink>)
    ensures BeginResult(kind, pending, inflight, None) == Ok(pending) <==>
      OwnTerminals(kind, pending) && TakesAlone(kind, pending) && Idle(pending, inflight)
    ensures BeginResult(kind, pending, inflight, None).Ok? ==> BeginResult(kind, pending, inflight, None) == Ok(pending)
  {
    hide Includes, Several, TakesAlone, Idle, Elements;
    IncludesIff(kind, pending, NotATerminal);
    IncludesIff(kind, pending, Foreign);
    IncludesIff(kind, pending, Take);
    AloneIff(kind, pending);
    IdleIff(pending, inflight);
  }

  /** A selection is submitted as it is, exactly when besides it names pending sinks only, each once. */
  lemma ExplicitBeginIff(kind: Sink -> Kind, pending: seq<Sink>, inflight: set<Sink>, selected: seq<Sink>)
    ensures BeginResult(kind, pending, inflight, Some(selected)) == Ok(selected) <==>
      && OwnTerminals(kind, selected) && TakesAlone(kind, selected) && Idle(selected, inflight)
      && NoDuplicates(selected) && (forall s :: s in selected ==> s in pending)
    ensures BeginResult(kind, pending, inflight, Some(selected)).Ok? ==>
      BeginResult(kind, pending, inflight, Some(selected)) == Ok(selected)
  {
    hide Includes, Several, TakesAlone, Idle, Elements, Repeats, NoDuplicates;
    IncludesIff(kind, selected, NotATerminal);
    IncludesIff(kind, selected, Foreign);
    IncludesIff(kind, selected, Take);
    RepeatsIff(selected);
    AloneIff(kind, selected);
    IdleIff(selected, inflight);
  }

  /** The first requirement that a selection misses decides the error. */
  lemma BeginErrors(kind: Sink -> Kind, pending: seq<Sink>, inflight: set<Sink>, selection: Option<seq<Sink>>)
    ensures var selected := if selection.None? then pending else selection.value;
      var r := BeginResult(kind, pending, inflight, selection);
      var own := OwnTerminals(kind, selected);
      var once := selection.None? || NoDuplicates(selected);
      var known := selection.None? || forall s :: s in selected ==> s in pending;
      && (r == Err(NotSinks) <==> OffersKind(kind, selected, NotATerminal))
      && (r == Err(OtherPipeline) <==>
            OffersKind(kind, selected, Foreign) && !OffersKind(kind, selected, NotATerminal))
      && (r == Err(SelectedTwice) <==> own && !once)
      && (r == Err(NotPending) <==> own && once && !known)
      && (r == Err(SeveralTakes) <==> own && once && known && TwoTakes(kind, selected))
      && (r == Err(TakeCombined) <==>
            own && once && known && !TwoTakes(kind, selected) && !TakesAlone(kind, selected))
      && (r == Err(AlreadySubmitting) <==>
            own && once && known && TakesAlone(kind, selected) && !Idle(selected, inflight))
  {
    hide Includes, TakesAlone, Idle, Elements, Repeats, NoDuplicates;
    var selected := if selection.None? then pending else selection.value;
    IncludesIff(kind, selected, NotATerminal);
    IncludesIff(kind, selected, Foreign);
    IncludesIff(kind, selected, Take);
    RepeatsIff(selected);
    AloneIff(kind, selected);
    IdleIff(selected, inflight);
  }

  // ---- what stays pending --------------------------------------------------

  /** Removing sinks keeps the order and the multiplicity of the others. */
  lemma {:induction false} RemovalIsFiltering(a: seq<Sink>, b: seq<Sink>, gone: set<Sink>)
    ensures Without(a + b, gone) == Without(a, gone) + Without(b, gone)
  {
    if b == [] {
      assert a + b == a;
    } else {
      var last := |b| - 1;
      assert (a + b)[..|a + b| - 1] == a + b[..last];
      RemovalIsFiltering(a, b[..last], gone);
      LastRemoved(a + b, gone);
      LastRemoved(b, gone);
      hide Without;
      assert Without(a, gone) + (Without(b[..last], gone) + [b[last]])
          == Without(a, gone) + Without(b[..last], gone) + [b[last]];
    }
  }

  lemma LastRemoved(s: seq<Sink>, gone: set<Sink>)
    requires s != []
    ensures Without(s, gone) ==
      if s[|s| - 1] in gone then Without(s[..|s| - 1], gone) else Without(s[..|s| - 1], gone) + [s[|s| - 1]]
  {
  }

  /** A sink is kept exactly when it is not among the removed ones. */
  lemma OneRemoved(s: Sink, gone: set<Sink>)
    ensures Without([s], gone) == if s in gone then [] else [s]
  {
    assert [s][..0] == [] && Without([], gone) == [];
  }

  lemma {:induction false} NothingLeft(sinks: seq<Sink>, gone: set<Sink>)
    requires forall s :: s in sinks ==> s in gone
    ensures Without(sinks, gone) == []
  {
    if sinks != [] {
      NothingLeft(sinks[..|sinks| - 1], gone);
    }
  }

  /**
    In every reachable state in which no collecting terminal is pending and nothing is in
    flight, default execution submits all that is pending: accepted, nothing is pending any more;
    failed, everything is as before.
   */
  lemma DefaultExecutionEmpties(kind: Sink -> Kind, st: State, caller: int)
    requires Inv(kind, st) && st.inflight == {} && caller !in st.flights
    requires forall s :: s in st.pending ==> kind(s) != Take
    ensures var begun := Next(kind, st, Begin(caller, None));
      && caller in begun.flights && begun.flights[caller] == st.pending
      && Next(kind, begun, Succeed(caller))
         == st.(pending := [], done := st.done + [st.pending])
      && Next(kind, begun, Fail(caller)) == st
  {
    hide Without, FlightsExact, DoneExact, Conserved, PendingDistinct, BeginResult;
    DefaultBeginIff(kind, st.pending, st.inflight);
    NothingLeft(st.pending, Elements(st.pending));
    var all := Elements(st.pending);
    assert st.inflight + all - all == st.inflight;
    assert st.flights[caller := st.pending] - {caller} == st.flights;
  }

  /** A context that holds only side-effect sinks submits them all by default. */
  method ExecuteEverything(kind: Sink -> Kind, sinks: seq<Sink>, accepted: bool)
    returns (r: Result<bool, SubmitError>, left: seq<Sink>)
    requires forall s :: s in sinks ==> kind(s) == Effect
    ensures r == Ok(accepted) && left == if accepted then [] else sinks
  {
    hide BeginResult, Without;
    var context := new KleinContext(kind);
    for i := 0 to |sinks|
      invariant context.kind == kind && context.inflight == {} && context.sinks == sinks[..i]
    {
      context.AddSink(sinks[i]);
    }
    assert sinks[..|sinks|] == sinks;
    DefaultBeginIff(kind, sinks, {});
    NothingLeft(sinks, Elements(sinks));
    r := context.Execute(None, accepted);
    left := context.sinks;
  }

  /** Each step of the interleavings is a call or one locked section of a call on the context. */
  method PerformStep(c: KleinContext, st: State, step: Step)
    requires c.sinks == st.pending && c.inflight == st.inflight
    modifies c
    ensures c.sinks == Next(c.kind, st, step).pending && c.inflight == Next(c.kind, st, step).inflight
  {
    hide BeginResult, Without;
    match step
    case Create(s) =>
      if s !in st.created && IsTerminal(c.kind, s) {
        c.AddSink(s);
      }
    case Discard(s) =>
      if s in st.pending {
        c.DiscardSink(s);
      }
    case Begin(caller, selection) =>
      if caller !in st.flights {
        var r := c.Begin(selection);
        assert r.Err? ==> st.inflight + {} == st.inflight;
      }
    case Succeed(caller) =>
      if caller in st.flights {
        c.Finish(st.flights[caller]);
      }
    case Fail(caller) =>
      if caller in st.flights {
        c.Abandon(st.flights[caller]);
      }
  }

  // ---- statement sets and plain execution ----------------------------------

  /** A sink is registered exactly when it is a pending, unowned side effect of this pipeline that is not listed yet. */
  lemma RegistersIff(kind: Sink -> Kind, v: View, s: Sink)
    ensures RegisterError(kind, v, s).None? <==>
      kind(s) == Effect && s in v.pending && s !in v.owner && s !in v.sinks
    ensures RegisterError(kind, v, s) == Some(NotASink) <==> kind(s) == NotATerminal
    ensures RegisterError(kind, v, s) == Some(ForeignSink) <==> kind(s) == Foreign
    ensures RegisterError(kind, v, s) == Some(CollectingTerminal) <==> kind(s) == Take
    ensures RegisterError(kind, v, s) == Some(AlreadyInSet) <==> kind(s) == Effect && s in v.sinks
    ensures RegisterError(kind, v, s) == Some(AlreadyOwned) <==> kind(s) == Effect && s !in v.sinks && s in v.owner
    ensures RegisterError(kind, v, s) == Some(NoLongerPending) <==>
      kind(s) == Effect && s !in v.sinks && s !in v.owner && s !in v.pending
  {
  }

  /**
    Undisturbed plain execution of everything pending: refused exactly when a set owns one of the
    pending sinks or the selection is refused; otherwise the client decides.
   */
  lemma PlainDefaultIff(
      kind: Sink -> Kind, pending: seq<Sink>, owner: map<Sink, Token>, inflight: set<Sink>, accepted: bool)
    ensures var r := PlainResult(kind, pending, owner, inflight, None, accepted);
      var submittable := OwnTerminals(kind, pending) && TakesAlone(kind, pending) && Idle(pending, inflight);
      var free := forall s :: s in pending ==> s !in owner;
      && (r == Ok(pending) <==> accepted && free && submittable)
      && (r == Err(ClientFailed) <==> !accepted && free && submittable)
      && (r == Err(OwnedBySet) <==> !free)
      && (r.Err? && r.error.Rejected? <==> free && !submittable)
  {
    hide BeginResult, TakesAlone, Idle;
    DefaultBeginIff(kind, pending, inflight);
  }

  /** The same for an explicit selection, which must be of pending sinks, each once. */
  lemma PlainExplicitIff(
      kind: Sink -> Kind, pending: seq<Sink>, owner: map<Sink, Token>, inflight: set<Sink>, selected: seq<Sink>,
      accepted: bool)
    ensures var r := PlainResult(kind, pending, owner, inflight, Some(selected), accepted);
      var submittable :=
        && OwnTerminals(kind, selected) && TakesAlone(kind, selected) && Idle(selected, inflight)
        && NoDuplicates(selected) && (forall s :: s in selected ==> s in pending);
      var free := forall s :: s in selected ==> s !in owner;
      && (r == Ok(selected) <==> accepted && free && submittable)
      && (r == Err(ClientFailed) <==> !accepted && free && submittable)
      && (r == Err(OwnedBySet) <==> !free)
      && (r.Err? && r.error.Rejected? <==> free && !submittable)
  {
    hide BeginResult, TakesAlone, Idle, NoDuplicates;
    ExplicitBeginIff(kind, pending, inflight, selected);
  }

  /** A pipeline whose pending sinks are unowned side effects submits them all by default and is left with none. */
  method ExecutePipeline(p: Pipeline, accepted: bool) returns (r: Result<seq<Sink>, StatementError>)
    requires p.inflight == {} && forall s :: s in p.pending ==> p.kind(s) == Effect && s !in p.owner
    modifies p`pending, p`inflight
    ensures r == if accepted then Ok(old(p.pending)) else Err(ClientFailed)
    ensures p.pending == if accepted then [] else old(p.pending)
  {
    hide PlainResult, Without;
    PlainDefaultIff(p.kind, p.pending, p.owner, p.inflight, accepted);
    NothingLeft(p.pending, Elements(p.pending));
    r := p.Execute(None, accepted);
  }
}

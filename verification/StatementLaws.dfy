/** Why building and executing a statement set fails, and what each leaves behind. */
module StatementLaws {
  import opened Wrappers
  import opened Sorting
  import opened Submission
  import opened Statements
  import opened StatementRuns
  import opened SelectionLaws

  // ---- executing a set -----------------------------------------------------

  ghost predicate OwnsAll(token: Token, v: View) {
    forall s :: s in v.sinks ==> s in v.owner && v.owner[s] == token
  }

  ghost predicate Submittable(kind: Sink -> Kind, v: View, inflight: set<Sink>) {
    && OwnTerminals(kind, v.sinks) && TakesAlone(kind, v.sinks) && Idle(v.sinks, inflight)
    && NoDuplicates(v.sinks) && (forall s :: s in v.sinks ==> s in v.pending)
  }

  /** A set is executed exactly when its scope is left, it is not empty, owns its list, and the list is accepted. */
  lemma SetExecutesIff(
      kind: Sink -> Kind, token: Token, v: View, inflight: set<Sink>, capturing: bool, accepted: bool)
    ensures var r := ExecuteResult(kind, token, v, inflight, capturing, accepted);
      var ready := !capturing && v.sinks != [] && OwnsAll(token, v);
      && (r == Err(StillCapturing) <==> capturing)
      && (r == Err(NothingToExecute) <==> !capturing && v.sinks == [])
      && (r == Err(NotOwnedBySet) <==> !capturing && v.sinks != [] && !OwnsAll(token, v))
      && (r.Err? && r.error.Rejected? <==> ready && !Submittable(kind, v, inflight))
      && (r == Err(ClientFailed) <==> ready && Submittable(kind, v, inflight) && !accepted)
      && (r.Ok? <==> ready && Submittable(kind, v, inflight) && accepted)
  {
    hide BeginResult, TakesAlone, Idle, NoDuplicates, OwnTerminals;
    ExplicitBeginIff(kind, v.pending, inflight, v.sinks);
  }

  /** An executed set is empty and its sinks are neither pending nor owned; after any failure all is as before. */
  lemma SetExecutionLeaves(
      kind: Sink -> Kind, token: Token, v: View, inflight: set<Sink>, capturing: bool, accepted: bool)
    ensures var r, w := ExecuteResult(kind, token, v, inflight, capturing, accepted),
        Executed(kind, token, v, inflight, capturing, accepted);
      && (r.Err? ==> w == v)
      && (r.Ok? ==>
            && w.sinks == []
            && (forall s :: s in w.pending <==> s in v.pending && s !in v.sinks)
            && (forall s :: s in w.owner <==> s in v.owner && s !in v.sinks)
            && (forall s :: s in w.owner ==> w.owner[s] == v.owner[s]))
  {
    hide ExecuteResult;
  }

  // ---- building ------------------------------------------------------------

  ghost predicate EffectsOnly(kind: Sink -> Kind, builds: seq<Sink>) {
    forall s :: s in builds ==> kind(s) == Effect
  }

  /**
    `add` raises what the builder raised, on its own or because a terminal was refused; else it
    reports how many sinks were built, when that is not one.
   */
  lemma AddFails(kind: Sink -> Kind, token: Token, v: View, b: Builder)
    requires Local(kind, token, v) && FreshBuilds(v, b.builds)
    ensures var r := AddResult(kind, token, v, b);
      && (r == Err(Raised) <==> b.raises || !EffectsOnly(kind, b.builds))
      && (!b.raises && EffectsOnly(kind, b.builds) && |b.builds| != 1 ==> r == Err(NotOneSink(|b.builds|)))
  {
    hide Local, FreshBuilds, LeavesOthers, Built;
    var n := BuiltIs(kind, token, v, b.builds);
    EffectsIff(kind, b.builds);
    assert b.builds[..|b.builds|] == b.builds;
  }

  lemma EffectsIff(kind: Sink -> Kind, builds: seq<Sink>)
    ensures EffectsOnly(kind, builds) <==> AllEffects(kind, builds)
  {
    if EffectsOnly(kind, builds) {
      forall i | 0 <= i < |builds| ensures kind(builds[i]) == Effect {
        assert builds[i] in builds;
      }
    }
  }

  /** Only the set that is being built, or any set when none is, may capture. */
  lemma CapturesIff(token: Token, other: Token)
    ensures CaptureAllowed(None, token) && CaptureAllowed(Some(token), token)
    ensures other != token ==> !CaptureAllowed(Some(other), token)
  {
  }

  /** A rollback takes exactly what was added since the start out of the list, the pending sinks and the owners. */
  lemma RollbackLeaves(v: View, start: nat)
    ensures var w := RolledBack(v, start);
      && (start > |v.sinks| ==> w == v)
      && (start <= |v.sinks| ==>
            && w.sinks == v.sinks[..start]
            && (forall s :: s in w.pending <==> s in v.pending && s !in v.sinks[start..])
            && (forall s :: s in w.owner <==> s in v.owner && s !in v.sinks[start..])
            && (forall s :: s in w.owner ==> w.owner[s] == v.owner[s]))
  {
    WithoutNothing(v.pending);
    assert v.owner - {} == v.owner;
  }
}

/** Statement sets: collecting several terminals and submitting them as one job (statement_set.py, pipeline.py). */
module Statements {
  import opened Wrappers
  import opened Sorting
  import opened Submission

  /** The owner token of a statement set. */
  type Token = nat

  datatype StatementError =
    | NotASink
    | ForeignSink
    | CollectingTerminal
    | AlreadyInSet
    | AlreadyOwned
    | NoLongerPending
    | Raised              // whatever the terminal builder raised
    | NotOneSink(added: int)
    | AlreadyActive
    | AnotherSetActive
    | NotActive
    | StillCapturing
    | NothingToExecute
    | NotOwnedBySet
    | Rejected(error: SubmitError)
    | ClientFailed
    | OwnedBySet          // plain execution of a captured sink

  /** What the operations of one set act on: its list, and the pipeline's pending sinks and owner tokens. */
  datatype View = View(sinks: seq<Sink>, pending: seq<Sink>, owner: map<Sink, Token>)

  // ---- registration and rollback -------------------------------------------

  function RegisterError(kind: Sink -> Kind, v: View, s: Sink): Option<StatementError> {
    if kind(s) == NotATerminal then Some(NotASink)
    else if kind(s) == Foreign then Some(ForeignSink)
    else if kind(s) == Take then Some(CollectingTerminal)
    else if s in v.sinks then Some(AlreadyInSet)
    else if s in v.owner then Some(AlreadyOwned)
    else if s !in v.pending then Some(NoLongerPending)
    else None
  }

  function Registered(kind: Sink -> Kind, token: Token, v: View, s: Sink): View {
    if RegisterError(kind, v, s).Some? then v else View(v.sinks + [s], v.pending, v.owner[s := token])
  }

  function Captured(v: View, start: nat): set<Sink> {
    if start <= |v.sinks| then Elements(v.sinks[start..]) else {}
  }

  /** `_rollback`: what was added since `start` leaves the list, its owner and the pipeline. */
  function RolledBack(v: View, start: nat): View {
    View(
      if start <= |v.sinks| then v.sinks[..start] else v.sinks,
      Without(v.pending, Captured(v, start)),
      v.owner - Captured(v, start))
  }

  /** A terminal is built while the set is being captured: created, then registered or discarded. */
  function TerminalBuilt(kind: Sink -> Kind, token: Token, v: View, s: Sink): View {
    if !IsTerminal(kind, s) then v
    else
      var created := v.(pending := v.pending + [s]);
      if RegisterError(kind, created, s).Some? then created.(pending := Without(created.pending, {s}))
      else Registered(kind, token, created, s)
  }

  predicate BuildFails(kind: Sink -> Kind, v: View, s: Sink) {
    !IsTerminal(kind, s) || RegisterError(kind, v.(pending := v.pending + [s]), s).Some?
  }

  /** A terminal builder: the sinks it builds one after another, and whether it raises in the end. */
  datatype Builder = Builder(builds: seq<Sink>, raises: bool)

  /** The view after building, and whether every build succeeded; building stops at the first failure. */
  function Built(kind: Sink -> Kind, token: Token, v: View, builds: seq<Sink>): (View, bool) {
    if builds == [] then
      (v, true)
    else
      var last := |builds| - 1;
      var (before, ok) := Built(kind, token, v, builds[..last]);
      if !ok then (before, false)
      else (TerminalBuilt(kind, token, before, builds[last]), !BuildFails(kind, before, builds[last]))
  }

  function AddResult(kind: Sink -> Kind, token: Token, v: View, b: Builder): Result<(), StatementError> {
    var (built, ok) := Built(kind, token, v, b.builds);
    if !ok || b.raises then Err(Raised)
    else if |built.sinks| - |v.sinks| != 1 then Err(NotOneSink(|built.sinks| - |v.sinks|))
    else Ok(())
  }

  function Added(kind: Sink -> Kind, token: Token, v: View, b: Builder): View {
    var built := Built(kind, token, v, b.builds).0;
    if AddResult(kind, token, v, b).Ok? then built else RolledBack(built, |v.sinks|)
  }

  // ---- submission ----------------------------------------------------------

  /** After its submission succeeded: the submitted sinks lose their tokens, and the list is cleared. */
  function Cleared(v: View, submitted: seq<Sink>): View {
    View([], v.pending, v.owner - Elements(submitted))
  }

  function ExecuteResult(
      kind: Sink -> Kind, token: Token, v: View, inflight: set<Sink>, capturing: bool, accepted: bool)
    : Result<(), StatementError>
  {
    if capturing then Err(StillCapturing)
    else if v.sinks == [] then Err(NothingToExecute)
    else if exists s :: s in v.sinks && !(s in v.owner && v.owner[s] == token) then Err(NotOwnedBySet)
    else
      match BeginResult(kind, v.pending, inflight, Some(v.sinks))
      case Err(e) => Err(Rejected(e))
      case Ok(_) => if accepted then Ok(()) else Err(ClientFailed)
  }

  function Executed(
      kind: Sink -> Kind, token: Token, v: View, inflight: set<Sink>, capturing: bool, accepted: bool): View
  {
    if ExecuteResult(kind, token, v, inflight, capturing, accepted).Ok? then
      Cleared(v.(pending := Without(v.pending, Elements(v.sinks))), v.sinks)
    else
      v
  }

  /** The unlocked check of plain `Pipeline.execute`. */
  predicate SelectsOwned(pending: seq<Sink>, owner: map<Sink, Token>, selection: Option<seq<Sink>>) {
    var selected := if selection.None? then pending else selection.value;
    exists s :: s in selected && s in owner
  }

  function PlainResult(
      kind: Sink -> Kind, pending: seq<Sink>, owner: map<Sink, Token>, inflight: set<Sink>,
      selection: Option<seq<Sink>>, accepted: bool)
    : Result<seq<Sink>, StatementError>
  {
    if SelectsOwned(pending, owner, selection) then Err(OwnedBySet)
    else
      match BeginResult(kind, pending, inflight, selection)
      case Err(e) => Err(Rejected(e))
      case Ok(selected) => if accepted then Ok(selected) else Err(ClientFailed)
  }

  // ---- the classes ---------------------------------------------------------

  /** `active` is the statement set being built in this execution context. */
  class Pipeline {
    const kind: Sink -> Kind
    var pending: seq<Sink>
    var inflight: set<Sink>
    var owner: map<Sink, Token>
    var active: Option<Token>

    constructor (kind: Sink -> Kind)
      ensures this.kind == kind && pending == [] && inflight == {} && owner == map[] && active == None
    {
      this.kind, pending, inflight, owner, active := kind, [], {}, map[], None;
    }

    method Discard(s: Sink)
      modifies this`pending
      ensures pending == Without(old(pending), {s})
    {
      pending := Without(pending, {s});
    }

    /** Plain `execute`, run without interference; `accepted` is the client's outcome. */
    method Execute(selection: Option<seq<Sink>>, accepted: bool) returns (r: Result<seq<Sink>, StatementError>)
      modifies this`pending, this`inflight
      ensures r == PlainResult(kind, old(pending), owner, old(inflight), selection, accepted)
      ensures inflight == old(inflight)
      ensures pending == if r.Ok? then Without(old(pending), Elements(r.value)) else old(pending)
    {
      if SelectsOwned(pending, owner, selection) {
        return Err(OwnedBySet);
      }
      r := Submit(selection, accepted);
    }

    /** `KleinContext.execute`. */
    method Submit(selection: Option<seq<Sink>>, accepted: bool) returns (r: Result<seq<Sink>, StatementError>)
      modifies this`pending, this`inflight
      ensures r ==
        match BeginResult(kind, old(pending), old(inflight), selection)
        case Err(e) => Err(Rejected(e))
        case Ok(selected) => if accepted then Ok(selected) else Err(ClientFailed)
      ensures inflight == old(inflight)
      ensures pending == if r.Ok? then Without(old(pending), Elements(r.value)) else old(pending)
    {
      var begun := BeginResult(kind, pending, inflight, selection);
      if begun.Err? {
        return Err(Rejected(begun.error));
      }
      var ids := Elements(begun.value);
      inflight := inflight + ids;
      if accepted {
        pending := Without(pending, ids);
      }
      inflight := inflight - ids;
      r := if accepted then Ok(begun.value) else Err(ClientFailed);
    }
  }

  class StatementSet {
    const pipeline: Pipeline
    const token: Token
    var sinks: seq<Sink>
    var capturing: bool
    var entrySize: nat
    var resetTo: Option<Token>

    ghost function V(): View
      reads this, pipeline
    {
      View(sinks, pipeline.pending, pipeline.owner)
    }

    constructor (pipeline: Pipeline, token: Token)
      ensures this.pipeline == pipeline && this.token == token && sinks == [] && !capturing
    {
      this.pipeline, this.token, sinks, capturing, entrySize, resetTo := pipeline, token, [], false, 0, None;
    }

    method Register(s: Sink) returns (r: Result<(), StatementError>)
      modifies this`sinks, pipeline`owner
      ensures V() == Registered(pipeline.kind, token, old(V()), s)
      ensures r.Ok? <==> RegisterError(pipeline.kind, old(V()), s).None?
      ensures r.Err? ==> Some(r.error) == RegisterError(pipeline.kind, old(V()), s)
    {
      var problem := RegisterError(pipeline.kind, View(sinks, pipeline.pending, pipeline.owner), s);
      if problem.Some? {
        return Err(problem.value);
      }
      pipeline.owner := pipeline.owner[s := token];
      sinks := sinks + [s];
      r := Ok(());
    }

    method Rollback(start: nat)
      modifies this`sinks, pipeline`owner, pipeline`pending
      ensures V() == RolledBack(old(V()), start)
    {
      if start > |sinks| {
        assert forall p: seq<Sink> :: Without(p, {}) == p by {
          forall p: seq<Sink> ensures Without(p, {}) == p { WithoutNothing(p); }
        }
        assert pipeline.owner - {} == pipeline.owner;
        return;
      }
      var added := sinks[start..];
      sinks := sinks[..start];
      var i := 0;
      WithoutNothing(pipeline.pending);
      assert Elements(added[..0]) == {};
      while i < |added|
        invariant 0 <= i <= |added| && sinks == old(sinks)[..start]
        invariant pipeline.owner == old(pipeline.owner) - Elements(added[..i])
        invariant pipeline.pending == Without(old(pipeline.pending), Elements(added[..i]))
      {
        assert added[..i + 1] == added[..i] + [added[i]];
        assert Elements(added[..i + 1]) == Elements(added[..i]) + {added[i]};
        pipeline.owner := pipeline.owner - {added[i]};
        WithoutTwice(old(pipeline.pending), Elements(added[..i]), {added[i]});
        pipeline.Discard(added[i]);
        i := i + 1;
      }
      assert added[..i] == added;
    }

    /** A terminal is created by the pipeline and finalized while this set is active. */
    method BuildTerminal(s: Sink) returns (ok: bool)
      modifies this`sinks, pipeline`owner, pipeline`pending
      ensures V() == TerminalBuilt(pipeline.kind, token, old(V()), s)
      ensures ok == !BuildFails(pipeline.kind, old(V()), s)
    {
      if !IsTerminal(pipeline.kind, s) {
        return false;
      }
      pipeline.pending := pipeline.pending + [s];
      var r := Register(s);
      if r.Err? {
        pipeline.Discard(s);
      }
      ok := r.Ok?;
    }

    method Add(b: Builder) returns (r: Result<(), StatementError>)
      modifies this`sinks, pipeline
      ensures pipeline.active == old(pipeline.active) && pipeline.inflight == old(pipeline.inflight)
      ensures CaptureAllowed(old(pipeline.active), token) ==>
        r == AddResult(pipeline.kind, token, old(V()), b) && V() == Added(pipeline.kind, token, old(V()), b)
      ensures !CaptureAllowed(old(pipeline.active), token) ==> r == Err(AnotherSetActive) && V() == old(V())
    {
      var start := |sinks|;
      var before := pipeline.active;
      if !CaptureAllowed(before, token) {
        RollbackNothing(V());
        Rollback(start);
        return Err(AnotherSetActive);
      }
      pipeline.active := Some(token);
      var ok := true;
      var i := 0;
      while i < |b.builds| && ok
        invariant 0 <= i <= |b.builds| && start == |old(sinks)|
        invariant pipeline.active == Some(token) && pipeline.inflight == old(pipeline.inflight)
        invariant (V(), ok) == Built(pipeline.kind, token, old(V()), b.builds[..i])
      {
        assert b.builds[..i + 1][..i] == b.builds[..i];
        ok := BuildTerminal(b.builds[i]);
        i := i + 1;
      }
      BuiltStops(pipeline.kind, token, old(V()), b.builds, i);
      pipeline.active := before;
      if !ok || b.raises {
        Rollback(start);
        return Err(Raised);
      }
      var added := |sinks| - start;
      if added != 1 {
        Rollback(start);
        return Err(NotOneSink(added));
      }
      r := Ok(());
    }

    method AddSink(s: Sink) returns (r: Result<(), StatementError>)
      modifies this`sinks, pipeline`owner
      ensures V() == Registered(pipeline.kind, token, old(V()), s)
      ensures r.Ok? <==> RegisterError(pipeline.kind, old(V()), s).None?
    {
      r := Register(s);
    }

    method Enter() returns (r: Result<(), StatementError>)
      modifies this`capturing, this`entrySize, this`resetTo, pipeline`active
      ensures old(capturing) ==> r == Err(AlreadyActive) && unchanged(this) && unchanged(pipeline)
      ensures !old(capturing) ==> entrySize == |sinks| && capturing == r.Ok?
      ensures !old(capturing) ==> (r.Ok? <==> CaptureAllowed(old(pipeline.active), token))
      ensures !old(capturing) ==> pipeline.active == if r.Ok? then Some(token) else old(pipeline.active)
      ensures r.Ok? ==> resetTo == old(pipeline.active)
    {
      if capturing {
        return Err(AlreadyActive);
      }
      entrySize := |sinks|;
      if !CaptureAllowed(pipeline.active, token) {
        return Err(AnotherSetActive);
      }
      resetTo := pipeline.active;
      pipeline.active := Some(token);
      capturing := true;
      r := Ok(());
    }

    /** Leaving the scope; on a failure, everything captured in it is rolled back. */
    method Exit(failed: bool) returns (r: Result<(), StatementError>)
      modifies this`capturing, this`sinks, pipeline`owner, pipeline`pending, pipeline`active
      ensures !capturing
      ensures !old(capturing) ==> r == Err(NotActive) && V() == old(V()) && pipeline.active == old(pipeline.active)
      ensures old(capturing) ==>
        && r == Ok(()) && pipeline.active == resetTo
        && V() == if failed then RolledBack(old(V()), entrySize) else old(V())
    {
      if !capturing {
        return Err(NotActive);
      }
      capturing := false;
      if failed {
        Rollback(entrySize);
      }
      pipeline.active := resetTo;
      r := Ok(());
    }

    /** `execute`, run without interference; `accepted` is the client's outcome. */
    method Execute(accepted: bool) returns (r: Result<(), StatementError>)
      modifies this`sinks, pipeline`pending, pipeline`inflight, pipeline`owner
      ensures r == ExecuteResult(pipeline.kind, token, old(V()), old(pipeline.inflight), capturing, accepted)
      ensures V() == Executed(pipeline.kind, token, old(V()), old(pipeline.inflight), capturing, accepted)
      ensures pipeline.inflight == old(pipeline.inflight)
    {
      if capturing {
        return Err(StillCapturing);
      }
      if sinks == [] {
        return Err(NothingToExecute);
      }
      var submitted := sinks;
      if exists s :: s in submitted && !(s in pipeline.owner && pipeline.owner[s] == token) {
        return Err(NotOwnedBySet);
      }
      var handle := pipeline.Submit(Some(submitted), accepted);
      if handle.Err? {
        return Err(handle.error);
      }
      SelectionIs(pipeline.kind, old(pipeline.pending), submitted, old(pipeline.inflight));
      pipeline.owner := pipeline.owner - Elements(submitted);
      sinks := [];
      r := Ok(());
    }
  }

  /** Only the set being built already, or a new one when none is, may capture. */
  predicate CaptureAllowed(active: Option<Token>, token: Token) {
    active == None || active == Some(token)
  }

  lemma SelectionIs(kind: Sink -> Kind, pending: seq<Sink>, sinks: seq<Sink>, inflight: set<Sink>)
    ensures BeginResult(kind, pending, inflight, Some(sinks)).Ok? ==>
      BeginResult(kind, pending, inflight, Some(sinks)) == Ok(sinks)
  {
  }

  lemma {:induction false} WithoutNothing(p: seq<Sink>)
    ensures Without(p, {}) == p
  {
    if p != [] {
      WithoutNothing(p[..|p| - 1]);
    }
  }

  lemma {:induction false} WithoutTwice(p: seq<Sink>, a: set<Sink>, b: set<Sink>)
    ensures Without(Without(p, a), b) == Without(p, a + b)
  {
    if p != [] {
      var last := |p| - 1;
      WithoutTwice(p[..last], a, b);
      if p[last] !in a {
        assert (Without(p[..last], a) + [p[last]])[..|Without(p[..last], a)|] == Without(p[..last], a);
      }
    }
  }

  lemma RollbackNothing(v: View)
    ensures RolledBack(v, |v.sinks|) == v
  {
    WithoutNothing(v.pending);
    assert v.sinks[|v.sinks|..] == [];
    assert Captured(v, |v.sinks|) == {};
  }

  /** After a failed build nothing more is built. */
  lemma {:induction false} BuiltStops(kind: Sink -> Kind, token: Token, v: View, builds: seq<Sink>, i: nat)
    requires i <= |builds|
    requires !Built(kind, token, v, builds[..i]).1 || i == |builds|
    ensures Built(kind, token, v, builds) == Built(kind, token, v, builds[..i])
  {
    hide TerminalBuilt, BuildFails;
    if i == |builds| {
      assert builds[..i] == builds;
    } else {
      var init := builds[..|builds| - 1];
      assert init[..i] == builds[..i];
      BuiltStops(kind, token, v, init, i);
    }
  }
}

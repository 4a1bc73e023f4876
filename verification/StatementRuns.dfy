/** Ownership of sinks by statement sets: failing operations, and runs of one thread. */
module StatementRuns {
  import opened Wrappers
  import opened Sorting
  import opened Submission
  import opened Statements

  // ---- the invariant of one set --------------------------------------------

  /** A sink carries the set's token exactly when it is in the set's list. */
  ghost predicate OwnsList(token: Token, v: View) {
    forall s :: s in v.sinks <==> s in v.owner && v.owner[s] == token
  }

  ghost predicate ListPending(kind: Sink -> Kind, v: View) {
    && NoDuplicates(v.sinks) && NoDuplicates(v.pending)
    && forall s :: s in v.sinks ==> s in v.pending && kind(s) == Effect
  }

  ghost predicate Local(kind: Sink -> Kind, token: Token, v: View) {
    OwnsList(token, v) && ListPending(kind, v)
  }

  /** Sinks of other sets keep their owner and stay pending. */
  ghost predicate LeavesOthers(token: Token, v: View, w: View) {
    && (forall s :: s in v.owner && v.owner[s] != token ==> s in w.owner && w.owner[s] == v.owner[s])
    && (forall s :: s in w.owner && w.owner[s] != token ==> s in v.owner && v.owner[s] == w.owner[s])
    && (forall s :: s in v.owner && v.owner[s] != token && s in v.pending ==> s in w.pending)
  }

  lemma RegisterKeepsLocal(kind: Sink -> Kind, token: Token, v: View, s: Sink)
    requires Local(kind, token, v)
    ensures Local(kind, token, Registered(kind, token, v, s))
    ensures LeavesOthers(token, v, Registered(kind, token, v, s))
  {
  }

  lemma RollbackKeepsLocal(kind: Sink -> Kind, token: Token, v: View, start: nat)
    requires Local(kind, token, v)
    ensures Local(kind, token, RolledBack(v, start)) && LeavesOthers(token, v, RolledBack(v, start))
  {
    var w, gone := RolledBack(v, start), Captured(v, start);
    WithoutDistinct(v.pending, gone);
    forall s ensures s in w.sinks <==> s in v.sinks && s !in gone {
      PrefixOrCaptured(v, start, s);
    }
  }

  /** Every listed sink is either before the start or among the captured ones. */
  lemma PrefixOrCaptured(v: View, start: nat, s: Sink)
    requires NoDuplicates(v.sinks)
    ensures s in RolledBack(v, start).sinks <==> s in v.sinks && s !in Captured(v, start)
  {
    if start <= |v.sinks| {
      assert v.sinks == v.sinks[..start] + v.sinks[start..];
      forall i, j | 0 <= i < start && 0 <= j < |v.sinks| - start ensures v.sinks[..start][i] != v.sinks[start..][j] {}
    }
  }

  ghost predicate FreshFor(v: View, s: Sink) {
    s !in v.pending && s !in v.owner
  }

  lemma BuildKeepsLocal(kind: Sink -> Kind, token: Token, v: View, s: Sink)
    requires Local(kind, token, v) && FreshFor(v, s)
    ensures var w := TerminalBuilt(kind, token, v, s); Local(kind, token, w) && LeavesOthers(token, v, w)
    ensures BuildFails(kind, v, s) ==> TerminalBuilt(kind, token, v, s) == v
    ensures BuildFails(kind, v, s) <==> kind(s) != Effect
    ensures !BuildFails(kind, v, s) ==>
      TerminalBuilt(kind, token, v, s) == View(v.sinks + [s], v.pending + [s], v.owner[s := token])
  {
    var created := v.(pending := v.pending + [s]);
    assert Local(kind, token, created);
    RegisterKeepsLocal(kind, token, created, s);
    if kind(s) == Take {
      assert (v.pending + [s])[..|v.pending|] == v.pending;
      WithoutOthers(v.pending, s);
    }
  }

  lemma {:induction false} WithoutOthers(p: seq<Sink>, s: Sink)
    requires s !in p
    ensures Without(p, {s}) == p
  {
    if p != [] {
      WithoutOthers(p[..|p| - 1], s);
    }
  }

  /** Sinks that a builder makes are new objects, and different ones. */
  ghost predicate FreshBuilds(v: View, builds: seq<Sink>) {
    NoDuplicates(builds) && forall s :: s in builds ==> FreshFor(v, s)
  }

  predicate AllEffects(kind: Sink -> Kind, builds: seq<Sink>) {
    forall i :: 0 <= i < |builds| ==> kind(builds[i]) == Effect
  }

  /** How far building got: the sinks registered before the first failure. */
  ghost predicate BuiltPart(token: Token, v: View, done: seq<Sink>, w: View) {
    && w.sinks == v.sinks + done && w.pending == v.pending + done
    && (forall s :: s in w.owner <==> s in v.owner || s in done)
    && (forall s :: s in v.owner && s !in done ==> w.owner[s] == v.owner[s])
    && (forall s :: s in done ==> w.owner[s] == token)
  }

  lemma OneMoreBuilt(token: Token, v: View, done: seq<Sink>, w: View, s: Sink)
    requires BuiltPart(token, v, done, w)
    ensures BuiltPart(token, v, done + [s], View(w.sinks + [s], w.pending + [s], w.owner[s := token]))
  {
  }

  lemma StillFresh(token: Token, v: View, builds: seq<Sink>, w: View)
    requires builds != [] && FreshBuilds(v, builds) && BuiltPart(token, v, builds[..|builds| - 1], w)
    ensures FreshFor(w, builds[|builds| - 1])
  {
    var last := |builds| - 1;
    forall i | 0 <= i < last ensures builds[i] != builds[last] {}
    assert builds[last] in builds;
  }

  lemma FreshPrefix(v: View, builds: seq<Sink>)
    requires builds != [] && FreshBuilds(v, builds)
    ensures FreshBuilds(v, builds[..|builds| - 1])
  {
  }

  lemma EffectsStep(kind: Sink -> Kind, builds: seq<Sink>)
    requires builds != []
    ensures AllEffects(kind, builds) <==>
      AllEffects(kind, builds[..|builds| - 1]) && kind(builds[|builds| - 1]) == Effect
  {
  }

  lemma LeavesSelf(token: Token, v: View)
    ensures LeavesOthers(token, v, v)
  {
  }

  lemma {:induction false} BuiltIs(kind: Sink -> Kind, token: Token, v: View, builds: seq<Sink>) returns (n: nat)
    requires Local(kind, token, v) && FreshBuilds(v, builds)
    ensures n <= |builds| && BuiltPart(token, v, builds[..n], Built(kind, token, v, builds).0)
    ensures Local(kind, token, Built(kind, token, v, builds).0)
    ensures LeavesOthers(token, v, Built(kind, token, v, builds).0)
    ensures Built(kind, token, v, builds).1 <==> AllEffects(kind, builds)
    ensures AllEffects(kind, builds) ==> n == |builds|
  {
    if builds == [] {
      n := 0;
      assert v.sinks + [] == v.sinks && v.pending + [] == v.pending;
      LeavesSelf(token, v);
    } else {
      hide Local, LeavesOthers, FreshBuilds, AllEffects, BuiltPart, TerminalBuilt, BuildFails, FreshFor;
      var last := |builds| - 1;
      var init := builds[..last];
      FreshPrefix(v, builds);
      n := BuiltIs(kind, token, v, init);
      assert init[..n] == builds[..n];
      EffectsStep(kind, builds);
      if AllEffects(kind, init) {
        var before, s := Built(kind, token, v, init).0, builds[last];
        assert builds[..n] == init;
        StillFresh(token, v, builds, before);
        BuildKeepsLocal(kind, token, before, s);
        LeavesTransitive(token, v, before, TerminalBuilt(kind, token, before, s));
        if kind(s) == Effect {
          OneMoreBuilt(token, v, init, before, s);
          assert builds[..n + 1] == init + [s];
          n := n + 1;
        }
      }
    }
  }

  lemma LeavesTransitive(token: Token, u: View, v: View, w: View)
    requires LeavesOthers(token, u, v) && LeavesOthers(token, v, w)
    ensures LeavesOthers(token, u, w)
  {
  }

  // ---- a failing add -------------------------------------------------------

  /** `add` succeeds exactly for a builder that makes one side-effect sink and does not raise. */
  lemma AddSucceedsIff(kind: Sink -> Kind, token: Token, v: View, b: Builder)
    requires Local(kind, token, v) && FreshBuilds(v, b.builds)
    ensures AddResult(kind, token, v, b).Ok? <==> !b.raises && |b.builds| == 1 && kind(b.builds[0]) == Effect
    ensures AddResult(kind, token, v, b).Ok? ==>
      Added(kind, token, v, b) == View(v.sinks + b.builds, v.pending + b.builds, v.owner[b.builds[0] := token])
  {
    var n := BuiltIs(kind, token, v, b.builds);
    assert b.builds[..|b.builds|] == b.builds;
  }

  /** A failing `add` leaves the set, the pending sinks and every owner as they were. */
  lemma FailedAddRestores(kind: Sink -> Kind, token: Token, v: View, b: Builder)
    requires Local(kind, token, v) && FreshBuilds(v, b.builds) && AddResult(kind, token, v, b).Err?
    ensures Added(kind, token, v, b) == v
  {
    hide Local, LeavesOthers, AllEffects, Without;
    var n := BuiltIs(kind, token, v, b.builds);
    var w, done := Built(kind, token, v, b.builds).0, b.builds[..n];
    FreshPart(v, b.builds, n);
    UndoBuilt(token, v, done, w);
  }

  lemma FreshPart(v: View, builds: seq<Sink>, n: nat)
    requires FreshBuilds(v, builds) && n <= |builds|
    ensures forall s :: s in builds[..n] ==> FreshFor(v, s)
  {
  }

  /** Rolling back what was built undoes the building. */
  lemma UndoBuilt(token: Token, v: View, done: seq<Sink>, w: View)
    requires BuiltPart(token, v, done, w) && forall s :: s in done ==> FreshFor(v, s)
    ensures RolledBack(w, |v.sinks|) == v
  {
    hide Without;
    assert w.sinks[|v.sinks|..] == done && w.sinks[..|v.sinks|] == v.sinks;
    WithoutAppended(v.pending, done);
    assert v.owner == w.owner - Elements(done);
  }

  lemma {:induction false} WithoutAppended(p: seq<Sink>, done: seq<Sink>)
    requires forall s :: s in p ==> s !in done
    ensures Without(p + done, Elements(done)) == p
  {
    WithoutConcat(p, done, Elements(done));
    WithoutDisjoint(p, Elements(done));
    WithoutAll(done, Elements(done));
  }

  lemma {:induction false} WithoutConcat(p: seq<Sink>, q: seq<Sink>, gone: set<Sink>)
    ensures Without(p + q, gone) == Without(p, gone) + Without(q, gone)
  {
    if q == [] {
      assert p + q == p;
    } else {
      assert (p + q)[..|p + q| - 1] == p + q[..|q| - 1];
      WithoutConcat(p, q[..|q| - 1], gone);
    }
  }

  lemma {:induction false} WithoutDisjoint(p: seq<Sink>, gone: set<Sink>)
    requires forall s :: s in p ==> s !in gone
    ensures Without(p, gone) == p
  {
    if p != [] {
      WithoutDisjoint(p[..|p| - 1], gone);
    }
  }

  lemma {:induction false} WithoutAll(p: seq<Sink>, gone: set<Sink>)
    requires forall s :: s in p ==> s in gone
    ensures Without(p, gone) == []
  {
    if p != [] {
      WithoutAll(p[..|p| - 1], gone);
    }
  }

  // ---- a failing scope -----------------------------------------------------

  /** What may happen to a set inside its `with` scope. */
  datatype ScopeOp = Write(terminal: Sink) | Add(builder: Builder) | AddExisting(existing: Sink)

  function InScope(kind: Sink -> Kind, token: Token, v: View, op: ScopeOp): View {
    match op
    case Write(s) => TerminalBuilt(kind, token, v, s)
    case Add(b) => Added(kind, token, v, b)
    case AddExisting(s) => Registered(kind, token, v, s)
  }

  function AfterOps(kind: Sink -> Kind, token: Token, v: View, ops: seq<ScopeOp>): View {
    if ops == [] then
      v
    else
      InScope(kind, token, AfterOps(kind, token, v, ops[..|ops| - 1]), ops[|ops| - 1])
  }

  lemma {:induction false} BuiltExtends(kind: Sink -> Kind, token: Token, v: View, builds: seq<Sink>)
    ensures v.sinks <= Built(kind, token, v, builds).0.sinks
  {
    if builds != [] {
      BuiltExtends(kind, token, v, builds[..|builds| - 1]);
    }
  }

  /** Operations inside the scope never touch what the list held on entry. */
  lemma {:induction false} ScopeExtends(kind: Sink -> Kind, token: Token, v: View, ops: seq<ScopeOp>)
    ensures v.sinks <= AfterOps(kind, token, v, ops).sinks
  {
    hide Built;
    if ops != [] {
      var before := AfterOps(kind, token, v, ops[..|ops| - 1]);
      ScopeExtends(kind, token, v, ops[..|ops| - 1]);
      match ops[|ops| - 1]
      case Write(s) =>
      case AddExisting(s) =>
      case Add(b) => BuiltExtends(kind, token, before, b.builds);
    }
  }

  /**
    A failing scope restores the list it was entered with, whatever happened inside;
    nothing captured in it is pending or owned, and all other sinks stay as they are.
   */
  lemma FailedScopeRestores(kind: Sink -> Kind, token: Token, v: View, ops: seq<ScopeOp>)
    ensures var inside := AfterOps(kind, token, v, ops); var after := RolledBack(inside, |v.sinks|);
      && after.sinks == v.sinks
      && (forall s :: s in Captured(inside, |v.sinks|) ==> s !in after.pending && s !in after.owner)
      && (forall s :: s !in Captured(inside, |v.sinks|) ==>
            (s in after.pending <==> s in inside.pending)
            && (s in after.owner <==> s in inside.owner) && (s in after.owner ==> after.owner[s] == inside.owner[s]))
  {
    hide InScope;
    ScopeExtends(kind, token, v, ops);
  }

  // ---- runs of one thread --------------------------------------------------

  /** A pipeline with its statement sets; `scope` is the active set and its list's size on entry. */
  datatype Scene = Scene(
    pending: seq<Sink>, owner: map<Sink, Token>, lists: map<Token, seq<Sink>>,
    scope: Option<(Token, nat)>, created: set<Sink>)

  const NOTHING := Scene([], map[], map[], None, {})

  datatype Step =
    | Open(token: Token)
    | Stage(staged: Sink)
    | WriteNow(written: Sink, written_accepted: bool)
    | AddTo(adder: Token, builder: Builder)
    | AddSinkTo(registrar: Token, existing: Sink)
    | Enter(entered: Token)
    | Exit(failed: bool)
    | Execute(executed: Token, accepted: bool)
    | ExecutePlain(selection: Option<seq<Sink>>, plain_accepted: bool)

  function ViewOf(c: Scene, token: Token): View
    requires token in c.lists
  {
    View(c.lists[token], c.pending, c.owner)
  }

  function WithView(c: Scene, token: Token, v: View): Scene {
    c.(pending := v.pending, owner := v.owner, lists := c.lists[token := v.sinks])
  }

  function Capturing(c: Scene, token: Token): bool {
    c.scope.Some? && c.scope.value.0 == token
  }

  function MayCapture(c: Scene, token: Token): bool {
    CaptureAllowed(if c.scope.Some? then Some(c.scope.value.0) else None, token)
  }

  /** A new sink of this pipeline: created once, as a terminal. */
  predicate New(kind: Sink -> Kind, c: Scene, s: Sink) {
    s !in c.created && IsTerminal(kind, s)
  }

  predicate ScopeKnown(c: Scene) {
    c.scope.Some? ==> c.scope.value.0 in c.lists
  }

  ghost predicate Enabled(kind: Sink -> Kind, c: Scene, step: Step) {
    match step
    case Open(token) => token !in c.lists
    case Stage(s) => New(kind, c, s)
    case WriteNow(s, _) => New(kind, c, s) && ScopeKnown(c)
    case AddTo(token, b) => token in c.lists && NoDuplicates(b.builds) && forall s :: s in b.builds ==> s !in c.created
    case AddSinkTo(token, _) => token in c.lists
    case Enter(token) => token in c.lists
    case Exit(_) => c.scope.Some? && ScopeKnown(c)
    case Execute(token, _) => token in c.lists
    case ExecutePlain(_, _) => true
  }

  ghost function Next(kind: Sink -> Kind, c: Scene, step: Step): Scene {
    if !Enabled(kind, c, step) then c
    else
      match step
      case Open(token) => c.(lists := c.lists[token := []])
      case Stage(s) => c.(pending := c.pending + [s], created := c.created + {s})
      case WriteNow(s, accepted) =>
        var d := c.(created := c.created + {s});
        if c.scope.Some? then
          WithView(d, c.scope.value.0, TerminalBuilt(kind, c.scope.value.0, ViewOf(c, c.scope.value.0), s))
        else
          Submitting(kind, d.(pending := c.pending + [s]), Some([s]), accepted)
      case AddTo(token, b) =>
        if !MayCapture(c, token) then c
        else WithView(c.(created := c.created + Elements(b.builds)), token, Added(kind, token, ViewOf(c, token), b))
      case AddSinkTo(token, s) => WithView(c, token, Registered(kind, token, ViewOf(c, token), s))
      case Enter(token) => if c.scope.Some? then c else c.(scope := Some((token, |c.lists[token]|)))
      case Exit(failed) =>
        var (token, entry) := c.scope.value;
        var d := c.(scope := None);
        if failed then WithView(d, token, RolledBack(ViewOf(c, token), entry)) else d
      case Execute(token, accepted) =>
        WithView(c, token, Executed(kind, token, ViewOf(c, token), {}, Capturing(c, token), accepted))
      case ExecutePlain(selection, accepted) => Submitting(kind, c, selection, accepted)
  }

  function Submitting(kind: Sink -> Kind, c: Scene, selection: Option<seq<Sink>>, accepted: bool): Scene {
    match PlainResult(kind, c.pending, c.owner, {}, selection, accepted)
    case Err(_) => c
    case Ok(selected) => c.(pending := Without(c.pending, Elements(selected)))
  }

  /** Tokens and lists agree for every set, listed sinks are pending, and the active set exists. */
  ghost predicate Inv(kind: Sink -> Kind, c: Scene) {
    && (forall token :: token in c.lists ==> Local(kind, token, ViewOf(c, token)))
    && (forall s :: s in c.owner ==> c.owner[s] in c.lists)
    && NoDuplicates(c.pending) && (forall s :: s in c.pending ==> s in c.created)
    && ScopeKnown(c)
  }

  lemma WithViewKeepsInv(kind: Sink -> Kind, c: Scene, token: Token, v: View, w: View)
    requires Inv(kind, c) && token in c.lists && v == ViewOf(c, token)
    requires Local(kind, token, w) && LeavesOthers(token, v, w)
    requires forall s :: s in w.pending ==> s in c.created
    ensures Inv(kind, WithView(c, token, w))
  {
    hide NoDuplicates, Local, LeavesOthers;
    var d := WithView(c, token, w);
    forall other | other in d.lists ensures Local(kind, other, ViewOf(d, other)) {
      if other != token {
        LocalPending(kind, token, w);
        OtherStaysLocal(kind, token, other, ViewOf(c, other), v, w);
      }
    }
    LocalPending(kind, token, w);
    OwnersKnown(c, token, v, w);
  }

  lemma OtherStaysLocal(kind: Sink -> Kind, token: Token, other: Token, u: View, v: View, w: View)
    requires other != token && Local(kind, other, u) && LeavesOthers(token, v, w)
    requires u.pending == v.pending && u.owner == v.owner && NoDuplicates(w.pending)
    ensures Local(kind, other, View(u.sinks, w.pending, w.owner))
  {
    hide NoDuplicates;
  }

  lemma LocalPending(kind: Sink -> Kind, token: Token, v: View)
    requires Local(kind, token, v)
    ensures NoDuplicates(v.pending)
  {
  }

  lemma OwnersKnown(c: Scene, token: Token, v: View, w: View)
    requires token in c.lists && v == ViewOf(c, token) && LeavesOthers(token, v, w)
    requires forall s :: s in c.owner ==> c.owner[s] in c.lists
    ensures forall s :: s in w.owner ==> w.owner[s] in c.lists
  {
  }

  lemma OwnedArePending(kind: Sink -> Kind, c: Scene, s: Sink)
    requires Inv(kind, c) && s in c.owner
    ensures s in c.pending && kind(s) == Effect && s in c.created
  {
    assert Local(kind, c.owner[s], ViewOf(c, c.owner[s]));
  }

  /** Plain execution submits no owned sink. */
  lemma PlainSparesOwned(
      kind: Sink -> Kind, pending: seq<Sink>, owner: map<Sink, Token>, inflight: set<Sink>,
      selection: Option<seq<Sink>>, accepted: bool)
    requires PlainResult(kind, pending, owner, inflight, selection, accepted).Ok?
    ensures forall s :: s in PlainResult(kind, pending, owner, inflight, selection, accepted).value ==> s !in owner
  {
  }

  lemma SubmittingKeepsInv(kind: Sink -> Kind, c: Scene, selection: Option<seq<Sink>>, accepted: bool)
    requires Inv(kind, c)
    ensures Inv(kind, Submitting(kind, c, selection, accepted))
  {
    hide PlainResult, NoDuplicates;
    var result := PlainResult(kind, c.pending, c.owner, {}, selection, accepted);
    if result.Ok? {
      PlainSparesOwned(kind, c.pending, c.owner, {}, selection, accepted);
      WithoutDistinct(c.pending, Elements(result.value));
      var d := Submitting(kind, c, selection, accepted);
      forall token | token in d.lists ensures Local(kind, token, ViewOf(d, token)) {
        assert Local(kind, token, ViewOf(c, token));
      }
    }
  }

  lemma AddKeepsLocal(kind: Sink -> Kind, token: Token, v: View, b: Builder)
    requires Local(kind, token, v) && FreshBuilds(v, b.builds)
    ensures Local(kind, token, Added(kind, token, v, b)) && LeavesOthers(token, v, Added(kind, token, v, b))
    ensures forall s :: s in Added(kind, token, v, b).pending ==> s in v.pending || s in b.builds
  {
    if AddResult(kind, token, v, b).Ok? {
      var n := BuiltIs(kind, token, v, b.builds);
      AddSucceedsIff(kind, token, v, b);
    } else {
      FailedAddRestores(kind, token, v, b);
    }
  }

  lemma ExecuteKeepsLocal(
      kind: Sink -> Kind, token: Token, v: View, inflight: set<Sink>, capturing: bool, accepted: bool)
    requires Local(kind, token, v)
    ensures var w := Executed(kind, token, v, inflight, capturing, accepted);
      Local(kind, token, w) && LeavesOthers(token, v, w) && forall s :: s in w.pending ==> s in v.pending
  {
    hide ExecuteResult, IsTerminal;
    WithoutDistinct(v.pending, Elements(v.sinks));
  }

  lemma StepKeepsInv(kind: Sink -> Kind, c: Scene, step: Step)
    requires Inv(kind, c)
    ensures Inv(kind, Next(kind, c, step))
  {
    hide Local, LeavesOthers, TerminalBuilt, Added, Registered, RolledBack, Executed, Submitting, NoDuplicates;
    if Enabled(kind, c, step) {
      match step
      case Open(token) => OpenKeepsInv(kind, c, token);
      case Stage(s) => StageKeepsInv(kind, c, s);
      case WriteNow(s, accepted) =>
        if c.scope.Some? {
          ScopedWriteKeepsInv(kind, c, c.scope.value.0, s);
        } else {
          StageKeepsInv(kind, c, s);
          SubmittingKeepsInv(kind, c.(pending := c.pending + [s], created := c.created + {s}), Some([s]), accepted);
        }
      case AddTo(token, b) =>
        forall s | s in b.builds ensures FreshFor(ViewOf(c, token), s) { NewIsFresh(kind, c, s); }
        AddKeepsLocal(kind, token, ViewOf(c, token), b);
        GrownInv(kind, c, Elements(b.builds));
        WithViewKeepsInv(kind, c.(created := c.created + Elements(b.builds)), token, ViewOf(c, token),
          Added(kind, token, ViewOf(c, token), b));
      case AddSinkTo(token, s) =>
        RegisterKeepsLocal(kind, token, ViewOf(c, token), s);
        RegisterKeepsPending(kind, token, ViewOf(c, token), s);
        WithViewKeepsInv(kind, c, token, ViewOf(c, token), Registered(kind, token, ViewOf(c, token), s));
      case Enter(token) => ScopeIrrelevant(kind, c, if c.scope.Some? then c.scope else Some((token, |c.lists[token]|)));
      case Exit(failed) =>
        var (token, entry) := c.scope.value;
        RollbackKeepsLocal(kind, token, ViewOf(c, token), entry);
        RollbackOnlyRemoves(ViewOf(c, token), entry);
        ScopeIrrelevant(kind, c, None);
        WithViewKeepsInv(kind, c.(scope := None), token, ViewOf(c, token), RolledBack(ViewOf(c, token), entry));
      case Execute(token, accepted) =>
        ExecuteKeepsLocal(kind, token, ViewOf(c, token), {}, Capturing(c, token), accepted);
        WithViewKeepsInv(kind, c, token, ViewOf(c, token),
          Executed(kind, token, ViewOf(c, token), {}, Capturing(c, token), accepted));
      case ExecutePlain(selection, accepted) => SubmittingKeepsInv(kind, c, selection, accepted);
    }
  }

  lemma NewIsFresh(kind: Sink -> Kind, c: Scene, s: Sink)
    requires Inv(kind, c) && s !in c.created
    ensures s !in c.pending && s !in c.owner
  {
    if s in c.owner {
      OwnedArePending(kind, c, s);
    }
  }

  lemma OpenKeepsInv(kind: Sink -> Kind, c: Scene, token: Token)
    requires Inv(kind, c) && token !in c.lists
    ensures Inv(kind, c.(lists := c.lists[token := []]))
  {
    var d := c.(lists := c.lists[token := []]);
    forall other | other in d.lists ensures Local(kind, other, ViewOf(d, other)) {
      if other != token {
        assert Local(kind, other, ViewOf(c, other));
      }
    }
  }

  lemma StageKeepsInv(kind: Sink -> Kind, c: Scene, s: Sink)
    requires Inv(kind, c) && s !in c.created
    ensures Inv(kind, c.(pending := c.pending + [s], created := c.created + {s}))
  {
    var d := c.(pending := c.pending + [s], created := c.created + {s});
    forall token | token in d.lists ensures Local(kind, token, ViewOf(d, token)) {
      assert Local(kind, token, ViewOf(c, token));
    }
  }

  lemma GrownInv(kind: Sink -> Kind, c: Scene, more: set<Sink>)
    requires Inv(kind, c)
    ensures Inv(kind, c.(created := c.created + more))
  {
    hide Local, NoDuplicates;
    var d := c.(created := c.created + more);
    forall token | token in d.lists ensures Local(kind, token, ViewOf(d, token)) {
      assert ViewOf(d, token) == ViewOf(c, token);
    }
  }

  lemma ScopeIrrelevant(kind: Sink -> Kind, c: Scene, scope: Option<(Token, nat)>)
    requires Inv(kind, c) && (scope.Some? ==> scope.value.0 in c.lists)
    ensures Inv(kind, c.(scope := scope))
  {
    hide Local, NoDuplicates;
    var d := c.(scope := scope);
    forall token | token in d.lists ensures Local(kind, token, ViewOf(d, token)) {
      assert ViewOf(d, token) == ViewOf(c, token);
    }
  }

  lemma RegisterKeepsPending(kind: Sink -> Kind, token: Token, v: View, s: Sink)
    ensures Registered(kind, token, v, s).pending == v.pending
  {
  }

  lemma RollbackOnlyRemoves(v: View, start: nat)
    ensures forall s :: s in RolledBack(v, start).pending ==> s in v.pending
  {
  }

  lemma ScopedWriteKeepsInv(kind: Sink -> Kind, c: Scene, token: Token, s: Sink)
    requires Inv(kind, c) && token in c.lists && s !in c.created
    ensures Inv(kind, WithView(c.(created := c.created + {s}), token, TerminalBuilt(kind, token, ViewOf(c, token), s)))
  {
    hide Local, LeavesOthers, NoDuplicates, TerminalBuilt, BuildFails;
    NewIsFresh(kind, c, s);
    assert Local(kind, token, ViewOf(c, token));
    BuildKeepsLocal(kind, token, ViewOf(c, token), s);
    GrownInv(kind, c, {s});
    WithViewKeepsInv(kind, c.(created := c.created + {s}), token, ViewOf(c, token),
      TerminalBuilt(kind, token, ViewOf(c, token), s));
  }

  ghost function Run(kind: Sink -> Kind, steps: seq<Step>): Scene {
    if steps == [] then
      NOTHING
    else
      Next(kind, Run(kind, steps[..|steps| - 1]), steps[|steps| - 1])
  }

  /**
    In every run of one thread, a sink carries a set's token exactly when it is in
    that set's list, so that sets are disjoint, and sets hold only pending sinks.
   */
  lemma {:induction false} OwnershipOverRuns(kind: Sink -> Kind, steps: seq<Step>)
    ensures Inv(kind, Run(kind, steps))
  {
    hide Next;
    if steps != [] {
      OwnershipOverRuns(kind, steps[..|steps| - 1]);
      StepKeepsInv(kind, Run(kind, steps[..|steps| - 1]), steps[|steps| - 1]);
    }
  }

  /**
    Left alone by other threads, a set is submitted exactly when its scope is left, it
    is non-empty and the client accepts.
   */
  lemma ExecuteSucceedsIff(kind: Sink -> Kind, token: Token, v: View, capturing: bool, accepted: bool)
    requires Local(kind, token, v)
    ensures ExecuteResult(kind, token, v, {}, capturing, accepted).Ok? <==> !capturing && v.sinks != [] && accepted
    ensures ExecuteResult(kind, token, v, {}, capturing, accepted).Ok? ==>
      forall s :: s in v.sinks ==>
        var w := Executed(kind, token, v, {}, capturing, accepted); s !in w.pending && s !in w.owner
  {
    forall i | 0 <= i < |v.sinks| ensures kind(v.sinks[i]) == Effect { assert v.sinks[i] in v.sinks; }
    assert !Repeats(v.sinks) && Within(v.sinks, v.pending);
    assert BeginResult(kind, v.pending, {}, Some(v.sinks)) == Ok(v.sinks);
  }
}

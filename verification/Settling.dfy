/** What a completed switch leaves behind: every later reconcile of it is quiet, except when its lookups fail. */
module Settling {
  import opened Prelude
  import opened Transition
  import opened TransitionSafety
  import opened Exclusion
  import opened ExclusionExact
  import W = Workload

  /** The model's Deployment exists and its template matches the model. */
  predicate Deployed(cat: Catalogue, w: World, model: string) {
    var b := BackendOf(cat, model);
    && b.Some? && b.value.deployment in w.cluster
    && cat.writers.matches(w.cluster[b.value.deployment].d, b.value.container, cat.models[model].runtime) == Some(true)
  }

  /** The requested model is the reported one and its Deployment's template matches. */
  predicate Settled(cat: Catalogue, w: World) {
    && Deployed(cat, w, w.active.spec)
    && w.active.status.modelName == w.active.spec
    && w.active.status.backendType == cat.models[w.active.spec].backendType
  }

  // ------------------------------------------------------------------ one reconcile

  /**
   * A reconcile of a settled Stable object writes nothing if and only if its lookups are answered; otherwise it
   * writes Failed.
   */
  lemma ReconcileAfterStableIsQuiet(cat: Catalogue, w: World, o: Oracle, o': Oracle)
    requires Settled(cat, w) && w.active.status.phase == Stable && !Running(w) && (o'.ok || o'.landed)
    ensures var w' := Apply(cat, Apply(cat, Apply(cat, w, Begin), Step(o)), Step(o'));
            && !Running(w') && w'.cluster == w.cluster
            && (w'.active == w.active <==> o.lookup == ANSWERED)
            && (o.lookup != ANSWERED ==>
                  w'.active.status == w.active.status.(phase := Failed, observedGeneration := w.active.generation))
  {
    var v := Apply(cat, Apply(cat, w, Begin), Step(o));
    assert v.attempt.value.pc == if o.lookup == ANSWERED then Done else Refuse;
  }

  /** The fast path never looks at replicas: it reports Stable for the current generation with nothing running. */
  lemma FastPathIgnoresReplicas(cat: Catalogue, w: World)
    requires Settled(cat, w) && w.active.status.phase != Stable && !Running(w)
    requires Scaled(w, Goal(cat, w).value, 0)
    ensures var w' := Apply(cat, Apply(cat, Apply(cat, w, Begin), Step(Smooth())), Step(Smooth()));
            && w'.active.status.phase == Stable && w'.active.status.observedGeneration == w'.active.generation
            && Scaled(w', Goal(cat, w').value, 0)
  {
    var v := Apply(cat, Apply(cat, w, Begin), Step(Smooth()));
    assert v.attempt.value.pc == Confirm;
  }

  // ------------------------------------------------------------------ the patched Deployment stays matched

  /**
   * Whatever workload backend writes a Deployment of the catalogue does so with a well-formed template for the same
   * container.
   */
  ghost predicate Coherent(cat: Catalogue) {
    forall n, k :: n in cat.backends && k in cat.backends && cat.backends[n].workload.Some?
                   && cat.backends[n].deployment == cat.backends[k].deployment ==>
      W.WellFormedBackend(cat.backends[n].workload.value)
          && cat.backends[n].workload.value.container == cat.backends[k].container
  }

  lemma BackendIsCatalogued(cat: Catalogue, model: string)
    requires BackendOf(cat, model).Some?
    ensures exists k :: k in cat.backends && cat.backends[k] == BackendOf(cat, model).value
  {
    var m := cat.models[model];
    var k := if m.backendRef.Some? then m.backendRef.value else cat.defaults[m.backendType];
    assert k in cat.backends;
  }

  /** Backend reconciles keep what is deployed. */
  lemma BackendKeepsDeployed(cat: Catalogue, w: World, name: string, model: string)
    requires Dependable(cat.writers) && Coherent(cat) && Deployed(cat, w, model)
    ensures Deployed(cat, StepReconcileBackend(cat, w, name), model)
  {
    BackendIsCatalogued(cat, model);
    var b := BackendOf(cat, model).value;
    var k :| k in cat.backends && cat.backends[k] == b;
    if name in cat.backends && cat.backends[name].workload.Some? && cat.backends[name].deployment == b.deployment {
      var d := cat.writers.reconcile(w.cluster[b.deployment].d, cat.backends[name].workload.value);
      assert cat.writers.matches(d, b.container, cat.models[model].runtime) == Some(true);
    }
  }

  /** Past its patch, an attempt's target is deployed. */
  ghost predicate Standing(cat: Catalogue, w: World) {
    w.attempt.Some? ==>
      var a := w.attempt.value;
      && (a.pc.Check? && Rank(a.pc.next) >= 6 ==> Deployed(cat, w, a.obj.spec))
      && (a.pc.At? && Rank(a.pc.stage) >= 6 ==> Deployed(cat, w, a.obj.spec))
  }

  lemma PatchStands(cat: Catalogue, w: World, a: Attempt, o: Oracle)
    requires Dependable(cat.writers) && a.pc == At(Patch) && BackendOf(cat, a.obj.spec).Some?
    ensures Standing(cat, StepPatch(cat, w, a, cat.models[a.obj.spec], BackendOf(cat, a.obj.spec).value, o))
  {
  }

  lemma StageStands(cat: Catalogue, w: World, a: Attempt, s: Stage, o: Oracle)
    requires Dependable(cat.writers) && Standing(cat, w) && w.attempt == Some(a) && a.pc == At(s) && Witnesses(cat, w)
    ensures Standing(cat, StepAttempt(cat, w, a, o))
  {
    var m, b := cat.models[a.obj.spec], BackendOf(cat, a.obj.spec).value;
    assert EvidenceAt(cat, a, b, Rank(s));
    match s
    case Patch => PatchStands(cat, w, a, o);
    case MarkStable =>
    case ScaleDown =>
    case _ => QuietGoesOn(cat, w, a, s, m, b, o);
  }

  lemma StepStands(cat: Catalogue, w: World, a: Attempt, o: Oracle)
    requires Dependable(cat.writers) && Standing(cat, w) && w.attempt == Some(a) && Witnesses(cat, w)
    ensures Standing(cat, StepAttempt(cat, w, a, o))
  {
    match a.pc
    case Lookup => LookupGoesOn(cat, w, a, o);
    case Check(next) => CheckGoesOn(w, a, next, o);
    case At(s) => StageStands(cat, w, a, s, o);
    case _ =>
  }

  lemma ApplyStands(cat: Catalogue, w: World, action: Action)
    requires Dependable(cat.writers) && Coherent(cat) && Standing(cat, w) && Witnesses(cat, w)
    ensures Standing(cat, Apply(cat, w, action))
  {
    match action
    case Step(o) => if w.attempt.Some? { StepStands(cat, w, w.attempt.value, o); }
    case ReconcileBackend(name) =>
      assert StepReconcileBackend(cat, w, name).attempt == w.attempt;
      if w.attempt.Some? && Deployed(cat, w, w.attempt.value.obj.spec) {
        BackendKeepsDeployed(cat, w, name, w.attempt.value.obj.spec);
      }
    case _ =>
  }

  lemma {:induction false} RunStands(cat: Catalogue, w: World, actions: seq<Action>)
    requires Dependable(cat.writers) && Coherent(cat) && Standing(cat, w) && Witnesses(cat, w)
    ensures Standing(cat, Run(cat, w, actions))
    decreases |actions|
  {
    if actions != [] {
      ApplyKeepsEvidence(cat, w, actions[0]);
      ApplyStands(cat, w, actions[0]);
      RunStands(cat, Apply(cat, w, actions[0]), actions[1..]);
    }
  }

  // ------------------------------------------------------------------ quiet for as long as the lookups are answered

  /** The spec is not edited, and reconciles get their lookups answered; everything else is free. */
  predicate Calm(w: World, action: Action) {
    match action
    case EditSpec(_) => false
    case Step(o) => w.attempt.Some? && w.attempt.value.pc.Lookup? ==> o.lookup == ANSWERED
    case _ => true
  }

  predicate CalmRun(cat: Catalogue, w: World, actions: seq<Action>)
    decreases |actions|
  {
    actions == [] || (Calm(w, actions[0]) && CalmRun(cat, Apply(cat, w, actions[0]), actions[1..]))
  }

  /** Settled and Stable, with at most a reconcile that has not looked anything up yet. */
  ghost predicate Resting(cat: Catalogue, w: World) {
    && Settled(cat, w) && w.active.status.phase == Stable
    && (Running(w) ==> w.attempt.value.pc.Lookup? && w.attempt.value.obj.spec == w.active.spec
                       && w.attempt.value.obj.status == w.active.status)
  }

  /** An action of the active-model controller. */
  predicate Controllers(action: Action) { action.Begin? || action.Step? || action.Crash? }

  lemma CalmKeepsResting(cat: Catalogue, w: World, action: Action)
    requires Dependable(cat.writers) && Coherent(cat) && Resting(cat, w) && Calm(w, action)
    ensures Resting(cat, Apply(cat, w, action))
    ensures Controllers(action) ==>
              Apply(cat, w, action).active == w.active && Apply(cat, w, action).cluster == w.cluster
  {
    match action
    case ReconcileBackend(name) => BackendKeepsDeployed(cat, w, name, w.active.spec);
    case _ =>
  }

  /** The run without the controller's own actions. */
  function Without(actions: seq<Action>): seq<Action> { Filter((action: Action) => !Controllers(action), actions) }

  /** What the environment does does not depend on the attempt. */
  lemma EnvIgnoresAttempt(cat: Catalogue, w: World, v: World, action: Action)
    requires w.active == v.active && w.cluster == v.cluster && !Controllers(action)
    ensures Apply(cat, w, action).active == Apply(cat, v, action).active
    ensures Apply(cat, w, action).cluster == Apply(cat, v, action).cluster
  {
  }

  /** From a resting world the controller might as well not run: the object and every Deployment are as without it. */
  lemma {:induction false} RestingRunIsQuiet(cat: Catalogue, w: World, v: World, actions: seq<Action>)
    requires Dependable(cat.writers) && Coherent(cat) && Resting(cat, w) && CalmRun(cat, w, actions)
    requires w.active == v.active && w.cluster == v.cluster
    ensures Resting(cat, Run(cat, w, actions))
    ensures Run(cat, w, actions).active == Run(cat, v, Without(actions)).active
    ensures Run(cat, w, actions).cluster == Run(cat, v, Without(actions)).cluster
    decreases |actions|
  {
    if actions != [] {
      CalmKeepsResting(cat, w, actions[0]);
      if Controllers(actions[0]) {
        assert Without(actions) == Without(actions[1..]);
        RestingRunIsQuiet(cat, Apply(cat, w, actions[0]), v, actions[1..]);
      } else {
        assert Without(actions) == [actions[0]] + Without(actions[1..]);
        EnvIgnoresAttempt(cat, w, v, actions[0]);
        RestingRunIsQuiet(cat, Apply(cat, w, actions[0]), Apply(cat, v, actions[0]), actions[1..]);
      }
    }
  }

  /** A landed Stable write of executeTransition leaves a resting world. */
  lemma StableWriteRests(cat: Catalogue, start: World, actions: seq<Action>, o: Oracle)
    requires Inv(cat, start) && start.attempt.None? && Dependable(cat.writers) && Coherent(cat)
    ensures var w := Run(cat, start, actions);
            w.attempt.Some? && w.attempt.value.pc == At(MarkStable) && Apply(cat, w, Step(o)).active != w.active ==>
              Resting(cat, Apply(cat, w, Step(o)))
  {
    RunKeepsInv(cat, start, actions);
    RunKeepsEvidence(cat, start, actions);
    RunStands(cat, start, actions);
    var w := Run(cat, start, actions);
    if w.attempt.Some? && w.attempt.value.pc == At(MarkStable) && Apply(cat, w, Step(o)).active != w.active {
      LandedRests(cat, w, o);
    }
  }

  lemma LandedRests(cat: Catalogue, w: World, o: Oracle)
    requires Inv(cat, w) && Standing(cat, w) && w.attempt.Some? && w.attempt.value.pc == At(MarkStable)
    requires Apply(cat, w, Step(o)).active != w.active
    ensures Resting(cat, Apply(cat, w, Step(o)))
  {
    var a := w.attempt.value;
    assert Deployed(cat, w, a.obj.spec) && a.obj == w.active;
  }

  /**
   * A reconcile after a completed transition with unchanged inputs writes nothing: in every run, once an
   * attempt's Stable write has landed, for as long as the spec is not edited and lookups are answered, the
   * active-model object and every Deployment evolve as if the controller did not run, through any number of
   * reconciles, crashes, failed reads, backend reconciles and status reports.
   */
  lemma CompletedTransitionIsQuiet(cat: Catalogue, start: World, actions: seq<Action>, o: Oracle, later: seq<Action>)
    requires Inv(cat, start) && start.attempt.None? && Dependable(cat.writers) && Coherent(cat)
    ensures var w := Run(cat, start, actions);
            var done := Apply(cat, w, Step(o));
            w.attempt.Some? && w.attempt.value.pc == At(MarkStable) && done.active != w.active
                && CalmRun(cat, done, later) ==>
              var end, alone := Run(cat, done, later), Run(cat, done, Without(later));
              && end.active == alone.active && end.cluster == alone.cluster
              && Settled(cat, end) && end.active.status.phase == Stable
  {
    StableWriteRests(cat, start, actions, o);
    var w := Run(cat, start, actions);
    var done := Apply(cat, w, Step(o));
    if w.attempt.Some? && w.attempt.value.pc == At(MarkStable) && done.active != w.active && CalmRun(cat, done, later) {
      RestingRunIsQuiet(cat, done, done, later);
    }
  }
}

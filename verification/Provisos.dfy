/**
 * The other two provisos of the exclusion theorem: exactly which lost lookups and which backend reconciles
 * break exclusion.
 */
module Provisos {
  import opened Prelude
  import opened Transition
  import opened TransitionSafety
  import opened Exclusion
  import opened ExclusionExact
  import opened Aftermath
  import W = Workload

  // ------------------------------------------------------------------ lost lookups

  /** The attempt will start its target: the Deployment can be activated, and the one to scale down, if any, exists. */
  predicate Proceeds(cat: Catalogue, w: World, obj: Active, previous: Option<string>) {
    var b := BackendOf(cat, obj.spec);
    && b.Some? && b.value.deployment in w.cluster && (previous.Some? ==> previous.value in w.cluster)
    && Activatable(cat, cat.models[obj.spec], b.value, w.cluster[b.value.deployment].d)
  }

  /**
   * The lookups are dangerous: the active model's Deployment is up beside the goal's, and a current attempt
   * that was given these answers will go on to start the goal.
   */
  predicate Careless(cat: Catalogue, w: World, o: Oracle)
    requires w.attempt.Some?
  {
    var p := PreviousOf(cat, w.attempt.value.obj, o.lookup);
    && !Stale(w) && o.valid && p.Success? && Proceeds(cat, w, w.attempt.value.obj, p.value)
    && Owner(cat, w).Some? && Owner(cat, w) != Goal(cat, w) && Up(w, Owner(cat, w).value)
  }

  lemma LostLookupReachesTwo(cat: Catalogue, w: World, o: Oracle) returns (bad: World)
    requires WellFormed(cat) && Safe(cat, w) && w.attempt.Some? && w.attempt.value.pc == At(Validate)
    requires !Answered(cat, w.attempt.value.obj, o) && Careless(cat, w, o)
    ensures Reaches(cat, Apply(cat, w, Step(o)), bad) && !AtMostOneUp(bad)
  {
    var t := Owner(cat, w).value;
    var v0 := Apply(cat, w, Step(o));
    ReachHere(cat, v0);
    var v := v0;
    if v0.attempt.value.previous.Some? {
      assert Driving(cat, v0, t, Check(ScaleDown));
      v := DriveScaleDown(cat, v0, t, v0);
      v := DriveAwaitDown(cat, v0, t, v);
    }
    assert Driving(cat, v, t, Check(Cache));
    v := DriveToPatch(cat, v0, t, v);
    bad := PatchMakesTwo(cat, v0, t, v);
  }

  /** Only the goal is up, and a running attempt is the goal's. */
  ghost predicate OnlyGoal(cat: Catalogue, w: World) {
    && Inv(cat, w) && (forall d :: Up(w, d) ==> Some(d) == Goal(cat, w))
    && (Running(w) ==> !Stale(w))
  }

  lemma OnlyGoalKept(cat: Catalogue, w: World, action: Action)
    requires WellFormed(cat) && OnlyGoal(cat, w) && Alone(cat, w, action)
    ensures OnlyGoal(cat, Apply(cat, w, action))
  {
    ApplyKeepsInv(cat, w, action);
    var w' := Apply(cat, w, action);
    if action.Step? && Running(w) {
      OnlyGoalStep(cat, w, action.o);
    }
  }

  lemma OnlyGoalStep(cat: Catalogue, w: World, o: Oracle)
    requires WellFormed(cat) && OnlyGoal(cat, w) && Running(w)
    ensures var w' := Apply(cat, w, Step(o));
            && (forall d :: Up(w', d) ==> Some(d) == Goal(cat, w')) && (Running(w') ==> !Stale(w'))
  {
    var a := w.attempt.value;
    SameSpec(cat, w, o);
    if a.pc == At(Patch) && BackendOf(cat, a.obj.spec).Some? {
      PatchRaisesTarget(cat, w, a, cat.models[a.obj.spec], BackendOf(cat, a.obj.spec).value, o);
    } else if a.pc == At(ScaleDown) && BackendOf(cat, a.obj.spec).Some? && a.previous.Some? {
      ScaleDownLowers(w, a, a.previous.value, o);
    } else if a.pc != At(Patch) && a.pc != At(ScaleDown) {
      ClusterQuiet(cat, w, a, o);
    }
  }

  /** A step leaves the requested model, the generation and the attempt's own generation as they are. */
  lemma SameSpec(cat: Catalogue, w: World, o: Oracle)
    requires w.attempt.Some?
    ensures var w' := Apply(cat, w, Step(o));
            && w'.active.spec == w.active.spec && w'.active.generation == w.active.generation && w'.attempt.Some?
            && w'.attempt.value.obj.generation == w.attempt.value.obj.generation
  {
    var a := w.attempt.value;
    match a.pc
    case Lookup => LookupGoesOn(cat, w, a, o);
    case Check(next) => CheckGoesOn(w, a, next, o);
    case At(s) =>
      if BackendOf(cat, a.obj.spec).Some? && !s.MarkStable? {
        StageFollows(cat, w, a, s, cat.models[a.obj.spec], BackendOf(cat, a.obj.spec).value, o);
      }
    case _ =>
  }

  /** An attempt before its patch that cannot get there, or cannot carry it out. */
  predicate Hopeless(cat: Catalogue, w: World, a: Attempt, r: nat) {
    r <= 5 && BackendOf(cat, a.obj.spec).Some? &&
    var m, b := cat.models[a.obj.spec], BackendOf(cat, a.obj.spec).value;
    || (a.pc.Check? && a.obj.generation != w.active.generation)
    || b.deployment !in w.cluster
    || cat.writers.activate(w.cluster[b.deployment].d, b.container, m.runtime, "").Failure?
    || (r <= 3 && !(cat.cacheManager && m.cached) && cat.writers.offline(w.cluster[b.deployment].d, b.container))
    || (r <= 1 && a.previous.Some? && a.previous.value !in w.cluster)
  }

  /** Safe but for the Deployment the attempt believes it must scale down, and the attempt is hopeless. */
  ghost predicate Astray(cat: Catalogue, w: World) {
    && Inv(cat, w) && Witnesses(cat, w) && ClusterInv(cat, w.active, w)
    && Running(w) && w.active.status.transitionGeneration <= w.attempt.value.obj.generation
    && var a := w.attempt.value;
       && (a.pc.Check? || (a.pc.At? && !Stale(w)))
       && var r := Rank(if a.pc.Check? then a.pc.next else a.pc.stage);
          r >= 1 && Hopeless(cat, w, a, r)
  }

  /** A failed or finished attempt makes no claim on the cluster. */
  lemma SafeAgain(cat: Catalogue, w: World, w': World)
    requires Inv(cat, w') && Witnesses(cat, w') && ClusterInv(cat, w.active, w)
    requires w'.active == w.active && (forall d :: Up(w', d) ==> Up(w, d))
    requires w'.attempt.Some? && (w'.attempt.value.pc.Fail? || w'.attempt.value.pc.Done?)
    requires w'.active.status.transitionGeneration <= w'.attempt.value.obj.generation
    ensures Safe(cat, w')
  {
  }

  lemma AstrayCheck(cat: Catalogue, w: World, o: Oracle)
    requires WellFormed(cat) && Astray(cat, w) && w.attempt.value.pc.Check?
    ensures var w' := Apply(cat, w, Step(o)); Safe(cat, w') || Astray(cat, w')
  {
    var a := w.attempt.value;
    ApplyKeepsInv(cat, w, Step(o));
    ApplyKeepsEvidence(cat, w, Step(o));
    CheckGoesOn(w, a, a.pc.next, o);
    var w' := Apply(cat, w, Step(o));
    assert forall d :: Up(w', d) <==> Up(w, d);
    if !w'.attempt.value.pc.At? {
      SafeAgain(cat, w, w');
    }
  }

  lemma AstrayScaleDown(cat: Catalogue, w: World, o: Oracle)
    requires WellFormed(cat) && Astray(cat, w) && w.attempt.value.pc == At(ScaleDown)
    ensures var w' := Apply(cat, w, Step(o)); Safe(cat, w') || Astray(cat, w')
  {
    var a := w.attempt.value;
    ApplyKeepsInv(cat, w, Step(o));
    ApplyKeepsEvidence(cat, w, Step(o));
    var b := BackendOf(cat, a.obj.spec).value;
    assert EvidenceAt(cat, a, b, 1);
    ScaleDownLowers(w, a, a.previous.value, o);
    var w' := Apply(cat, w, Step(o));
    if w'.attempt.value.pc.Check? {
      if b.deployment in w.cluster {
        HopelessScaled(cat, w.cluster[b.deployment].d, w'.cluster[b.deployment].d, cat.models[a.obj.spec], b);
      }
      assert Hopeless(cat, w', w'.attempt.value, 2);
    } else {
      SafeAgain(cat, w, w');
    }
  }

  /** Replicas do not make a Deployment activatable. */
  lemma HopelessScaled(cat: Catalogue, d: W.Deployment, d': W.Deployment, m: Model, b: Backend)
    requires Dependable(cat.writers) && SameTemplate(d', d)
    ensures cat.writers.activate(d', b.container, m.runtime, "").Failure? <==>
              cat.writers.activate(d, b.container, m.runtime, "").Failure?
    ensures cat.writers.offline(d', b.container) <==> cat.writers.offline(d, b.container)
  {
    assert SameButScaled(cat.writers, d, d'.replicas, b.container, m.runtime, "", "");
  }

  lemma AstrayStage(cat: Catalogue, w: World, s: Stage, o: Oracle)
    requires WellFormed(cat) && Astray(cat, w) && w.attempt.value.pc == At(s) && !s.ScaleDown?
    ensures var w' := Apply(cat, w, Step(o)); Safe(cat, w') || Astray(cat, w')
  {
    var a := w.attempt.value;
    ApplyKeepsInv(cat, w, Step(o));
    ApplyKeepsEvidence(cat, w, Step(o));
    var m, b := cat.models[a.obj.spec], BackendOf(cat, a.obj.spec).value;
    assert EvidenceAt(cat, a, b, Rank(s));
    AstrayGoesOn(cat, w, a, s, m, b, o);
    var w' := Apply(cat, w, Step(o));
    assert forall d :: Up(w', d) <==> Up(w, d);
    if !w'.attempt.value.pc.Check? {
      SafeAgain(cat, w, w');
    }
  }

  lemma AstrayGoesOn(cat: Catalogue, w: World, a: Attempt, s: Stage, m: Model, b: Backend, o: Oracle)
    requires Dependable(cat.writers) && Hopeless(cat, w, a, Rank(s)) && a.pc == At(s) && Rank(s) >= 2
    requires m == cat.models[a.obj.spec] && BackendOf(cat, a.obj.spec) == Some(b) && (s.AwaitDown? ==> a.previous.Some?)
    ensures var w' := StepStage(cat, w, a, s, m, b, o);
            && w'.active == w.active && w'.cluster == w.cluster && w'.attempt.Some?
            && var a' := w'.attempt.value;
               && a'.obj == a.obj && (a'.pc.Fail? || a'.pc.Done? || a'.pc.Check?)
               && (a'.pc.Check? ==> Rank(a'.pc.next) >= 1 && Hopeless(cat, w', a', Rank(a'.pc.next)))
  {
    if s.Patch? && b.deployment in w.cluster {
      assert SameButScaled(cat.writers, w.cluster[b.deployment].d, w.cluster[b.deployment].d.replicas, b.container,
          m.runtime, "", o.stamp);
    }
  }

  lemma AstrayKept(cat: Catalogue, w: World, action: Action)
    requires WellFormed(cat) && Astray(cat, w) && Alone(cat, w, action)
    ensures var w' := Apply(cat, w, action); Safe(cat, w') || Astray(cat, w')
  {
    match action
    case Step(o) =>
      var a := w.attempt.value;
      if a.pc.Check? {
        AstrayCheck(cat, w, o);
      } else if a.pc == At(ScaleDown) {
        AstrayScaleDown(cat, w, o);
      } else {
        AstrayStage(cat, w, a.pc.stage, o);
      }
    case EditSpec(_) =>
    case ReconcileBackend(_) =>
    case _ =>
      ApplyKeepsInv(cat, w, action);
      var w' := Apply(cat, w, action);
      assert forall d :: Up(w', d) <==> Up(w, d);
  }

  /** What a controller that was given harmless answers keeps. */
  ghost predicate Harmless(cat: Catalogue, w: World) { Safe(cat, w) || Astray(cat, w) || OnlyGoal(cat, w) }

  lemma {:induction false} HarmlessThroughout(cat: Catalogue, w: World, actions: seq<Action>)
    requires WellFormed(cat) && Harmless(cat, w) && AloneRun(cat, w, actions)
    ensures Harmless(cat, Run(cat, w, actions))
    decreases |actions|
  {
    if actions != [] {
      if Safe(cat, w) {
        ApplyKeepsSafe(cat, w, actions[0]);
      } else if Astray(cat, w) {
        AstrayKept(cat, w, actions[0]);
      } else {
        OnlyGoalKept(cat, w, actions[0]);
      }
      HarmlessThroughout(cat, Apply(cat, w, actions[0]), actions[1..]);
    }
  }

  lemma HarmlessStart(cat: Catalogue, w: World, o: Oracle)
    requires WellFormed(cat) && Safe(cat, w) && w.attempt.Some? && w.attempt.value.pc == At(Validate)
    requires !Answered(cat, w.attempt.value.obj, o) && !Careless(cat, w, o)
    ensures Harmless(cat, Apply(cat, w, Step(o)))
  {
    var a := w.attempt.value;
    ApplyKeepsInv(cat, w, Step(o));
    ApplyKeepsEvidence(cat, w, Step(o));
    var w' := Apply(cat, w, Step(o));
    assert forall d :: Up(w', d) <==> Up(w, d);
    if !o.valid {
      SafeAgain(cat, w, w');
    } else if Stale(w) || !Proceeds(cat, w, a.obj, w'.attempt.value.previous) {
      assert Astray(cat, w');
    } else {
      assert OnlyGoal(cat, w');
    }
  }

  /**
   * executeTransition goes on when listing the models or finding the previous backend fails.  Exactly which
   * of these answers break exclusion: after them the controller alone can reach two Deployments up if and
   * only if they are careless.
   */
  lemma LostLookupBreaksExclusionIff(cat: Catalogue, w: World, o: Oracle)
    requires WellFormed(cat) && Safe(cat, w) && w.attempt.Some? && w.attempt.value.pc == At(Validate)
    requires !Answered(cat, w.attempt.value.obj, o)
    ensures (exists bad :: Reaches(cat, Apply(cat, w, Step(o)), bad) && !AtMostOneUp(bad)) <==> Careless(cat, w, o)
  {
    var v := Apply(cat, w, Step(o));
    if Careless(cat, w, o) {
      var bad := LostLookupReachesTwo(cat, w, o);
    } else if bad :| Reaches(cat, v, bad) && !AtMostOneUp(bad) {
      HarmlessStart(cat, w, o);
      var actions :| AloneRun(cat, v, actions) && Run(cat, v, actions) == bad;
      HarmlessThroughout(cat, v, actions);
    }
  }

  // ------------------------------------------------------------------ baselines

  /**
   * A backend reconcile breaks exclusion if and only if it creates its Deployment with replicas beside one that is
   * up.
   */
  lemma BaselineBreaksExclusionIff(cat: Catalogue, w: World, name: string)
    requires Dependable(cat.writers) && AtMostOneUp(w)
    ensures !AtMostOneUp(Apply(cat, w, ReconcileBackend(name))) <==> BringsUp(cat, w, name) && exists d :: Up(w, d)
  {
    BackendKeepsReplicas(cat, w, name);
    var w' := Apply(cat, w, ReconcileBackend(name));
    if BringsUp(cat, w, name) && exists d :: Up(w, d) {
      var d :| Up(w, d);
      assert Up(w', d) && Up(w', cat.backends[name].deployment) && d != cat.backends[name].deployment;
    }
  }
}

/** How the controller alone gets from an overtaken world to two Deployments up. */
module ExclusionExact {
  import opened Prelude
  import opened Transition
  import opened TransitionSafety
  import opened Exclusion
  import W = Workload

  // ------------------------------------------------------------------ the controller alone

  /** No edits and no backend reconciles: reconciles with answered lookups, crashes, status reports, metadata. */
  predicate Alone(cat: Catalogue, w: World, action: Action) {
    match action
    case EditSpec(_) => false
    case ReconcileBackend(_) => false
    case _ => Orderly(cat, w, action)
  }

  predicate AloneRun(cat: Catalogue, w: World, actions: seq<Action>)
    decreases |actions|
  {
    actions == [] || (Alone(cat, w, actions[0]) && AloneRun(cat, Apply(cat, w, actions[0]), actions[1..]))
  }

  ghost predicate Reaches(cat: Catalogue, w: World, w': World) {
    exists actions :: AloneRun(cat, w, actions) && Run(cat, w, actions) == w'
  }

  lemma {:induction false} RunOn(cat: Catalogue, w: World, actions: seq<Action>, action: Action)
    requires AloneRun(cat, w, actions) && Alone(cat, Run(cat, w, actions), action)
    ensures AloneRun(cat, w, actions + [action])
    ensures Run(cat, w, actions + [action]) == Apply(cat, Run(cat, w, actions), action)
    decreases |actions|
  {
    if actions == [] {
      assert actions + [action] == [action] && [action][1..] == [];
    } else {
      assert (actions + [action])[1..] == actions[1..] + [action];
      RunOn(cat, Apply(cat, w, actions[0]), actions[1..], action);
    }
  }

  lemma ReachHere(cat: Catalogue, w: World)
    ensures Reaches(cat, w, w)
  {
    assert AloneRun(cat, w, []) && Run(cat, w, []) == w;
  }

  lemma ReachOn(cat: Catalogue, w: World, v: World, action: Action)
    requires Reaches(cat, w, v) && Alone(cat, v, action)
    ensures Reaches(cat, w, Apply(cat, v, action))
  {
    var actions :| AloneRun(cat, w, actions) && Run(cat, w, actions) == v;
    RunOn(cat, w, actions, action);
  }

  // ------------------------------------------------------------------ when a restart reaches its patch

  /** Every call succeeds, every probe is healthy, the cache is hot. */
  function Smooth(): Oracle { Oracle(true, true, false, true, ANSWERED, true, Some(Hot), 0, "") }

  /** The Deployment a fresh attempt will scale down first, once it has written its token. */
  function Predecessor(cat: Catalogue, x: Active): Result<Option<string>> {
    PreviousOf(cat, x.(status := x.status.(transitionFrom := x.status.modelName)), ANSWERED)
  }

  /** The live Deployment can be activated for the model, and the cache step can be passed. */
  predicate Activatable(cat: Catalogue, m: Model, b: Backend, d: W.Deployment) {
    && cat.writers.activate(d, b.container, m.runtime, "").Success?
    && ((cat.cacheManager && m.cached) || !cat.writers.offline(d, b.container))
  }

  /** The fast path is not taken: another model is reported, or the live Deployment has the container and differs. */
  predicate Differs(cat: Catalogue, x: Active, m: Model, b: Backend, d: W.Deployment) {
    x.status.modelName == x.spec && x.status.backendType == m.backendType ==>
      cat.writers.matches(d, b.container, m.runtime) == Some(false)
  }

  /** The requested model can be started from here: everything on the way to the patch can be passed. */
  predicate Restartable(cat: Catalogue, w: World) {
    && Servable(cat, w.active.spec)
    && var m, b := cat.models[w.active.spec], BackendOf(cat, w.active.spec).value;
       && b.deployment in w.cluster && Activatable(cat, m, b, w.cluster[b.deployment].d)
       && Differs(cat, w.active, m, b, w.cluster[b.deployment].d)
       && var p := Predecessor(cat, w.active); p.Success? && (p.value.Some? ==> p.value.value in w.cluster)
  }

  /** A spec edit has landed on a world with Deployment `t` up, and the new model can be started beside it. */
  ghost predicate Overtaken(cat: Catalogue, w: World, t: string) {
    && w.attempt.None? && Up(w, t) && StatusInv(cat, w.active) && !HasToken(w.active)
    && Restartable(cat, w) && Goal(cat, w) != Some(t) && Predecessor(cat, w.active) != Success(Some(t))
  }

  /** The attempt at a program counter, current, with `t` still up and the goal still startable. */
  ghost predicate Driving(cat: Catalogue, w: World, t: string, pc: PC) {
    && w.attempt.Some? && w.attempt.value.pc == pc && w.attempt.value.obj.spec == w.active.spec && !Stale(w)
    && Up(w, t) && Servable(cat, w.active.spec) && Goal(cat, w) != Some(t)
    && var m, b := cat.models[w.active.spec], BackendOf(cat, w.active.spec).value;
       && b.deployment in w.cluster && Activatable(cat, m, b, w.cluster[b.deployment].d)
       && (PastToken(pc) ==> HasToken(w.active))
       && (w.attempt.value.previous.Some? ==>
             var p := w.attempt.value.previous.value; p in w.cluster && p != t && p != b.deployment)
  }

  lemma DriveToToken(cat: Catalogue, w: World, t: string, v0: World) returns (v: World)
    requires Reaches(cat, w, v0) && Overtaken(cat, v0, t)
    ensures Reaches(cat, w, v) && v.active == v0.active && v.cluster == v0.cluster
    ensures v.attempt.Some? && v.attempt.value.pc == Token && v.attempt.value.obj == v.active
    ensures v.attempt.value.previous.None?
  {
    ReachOn(cat, w, v0, Begin);
    v := Apply(cat, v0, Begin);
    ReachOn(cat, w, v, Step(Smooth()));
    v := Apply(cat, v, Step(Smooth()));
  }

  lemma DriveToValidate(cat: Catalogue, w: World, t: string, v0: World) returns (v: World)
    requires Reaches(cat, w, v0) && Overtaken(cat, v0, t)
    ensures Reaches(cat, w, v) && Driving(cat, v, t, At(Validate)) && v.cluster == v0.cluster
    ensures PreviousOf(cat, v.attempt.value.obj, ANSWERED) == Predecessor(cat, v0.active)
  {
    v := DriveToToken(cat, w, t, v0);
    ReachOn(cat, w, v, Step(Smooth()));
    v := Apply(cat, v, Step(Smooth()));
    assert v.attempt.value.pc == Check(Validate) && HasToken(v.active) && v.cluster == v0.cluster;
    ReachOn(cat, w, v, Step(Smooth()));
    v := Apply(cat, v, Step(Smooth()));
  }

  lemma DriveDown(cat: Catalogue, w: World, t: string, v0: World) returns (v: World)
    requires Dependable(cat.writers) && Reaches(cat, w, v0) && Driving(cat, v0, t, At(Validate))
    requires var p := PreviousOf(cat, v0.attempt.value.obj, ANSWERED);
             p.Success? && (p.value.Some? ==> p.value.value in v0.cluster && p.value.value != t)
    ensures Reaches(cat, w, v) && Driving(cat, v, t, Check(Cache))
  {
    ReachOn(cat, w, v0, Step(Smooth()));
    v := Apply(cat, v0, Step(Smooth()));
    if v.attempt.value.previous.Some? {
      v := DriveScaleDown(cat, w, t, v);
      v := DriveAwaitDown(cat, w, t, v);
    }
  }

  lemma DriveScaleDown(cat: Catalogue, w: World, t: string, v0: World) returns (v: World)
    requires Reaches(cat, w, v0) && Driving(cat, v0, t, Check(ScaleDown)) && v0.attempt.value.previous.Some?
    ensures Reaches(cat, w, v) && Driving(cat, v, t, At(AwaitDown))
    ensures v.attempt.value.previous.Some?
  {
    ReachOn(cat, w, v0, Step(Smooth()));
    v := Apply(cat, v0, Step(Smooth()));
    assert Driving(cat, v, t, At(ScaleDown));
    ReachOn(cat, w, v, Step(Smooth()));
    v := Apply(cat, v, Step(Smooth()));
    assert Driving(cat, v, t, Check(AwaitDown));
    ReachOn(cat, w, v, Step(Smooth()));
    v := Apply(cat, v, Step(Smooth()));
  }

  lemma DriveAwaitDown(cat: Catalogue, w: World, t: string, v0: World) returns (v: World)
    requires Reaches(cat, w, v0) && Driving(cat, v0, t, At(AwaitDown)) && v0.attempt.value.previous.Some?
    ensures Reaches(cat, w, v) && Driving(cat, v, t, Check(Cache))
  {
    var report := Report(v0.attempt.value.previous.value, Observed(0, 0, 0, 0));
    ReachOn(cat, w, v0, report);
    v := Apply(cat, v0, report);
    assert Driving(cat, v, t, At(AwaitDown));
    ReachOn(cat, w, v, Step(Smooth()));
    v := Apply(cat, v, Step(Smooth()));
  }

  lemma DriveToPatch(cat: Catalogue, w: World, t: string, v0: World) returns (v: World)
    requires Reaches(cat, w, v0) && Driving(cat, v0, t, Check(Cache))
    ensures Reaches(cat, w, v) && Driving(cat, v, t, At(Patch))
  {
    ReachOn(cat, w, v0, Step(Smooth()));
    v := Apply(cat, v0, Step(Smooth()));
    assert Driving(cat, v, t, At(Cache));
    ReachOn(cat, w, v, Step(Smooth()));
    v := Apply(cat, v, Step(Smooth()));
    if v.attempt.value.pc == Check(RecordCache) {
      assert Driving(cat, v, t, Check(RecordCache));
      ReachOn(cat, w, v, Step(Smooth()));
      v := Apply(cat, v, Step(Smooth()));
      assert Driving(cat, v, t, At(RecordCache));
      ReachOn(cat, w, v, Step(Smooth()));
      v := Apply(cat, v, Step(Smooth()));
    }
    assert Driving(cat, v, t, Check(Patch));
    ReachOn(cat, w, v, Step(Smooth()));
    v := Apply(cat, v, Step(Smooth()));
  }

  lemma PatchMakesTwo(cat: Catalogue, w: World, t: string, v: World) returns (bad: World)
    requires Dependable(cat.writers) && Reaches(cat, w, v) && Driving(cat, v, t, At(Patch))
    ensures Reaches(cat, w, bad) && !AtMostOneUp(bad)
  {
    ReachOn(cat, w, v, Step(Smooth()));
    bad := Apply(cat, v, Step(Smooth()));
    var g := Goal(cat, v).value;
    assert Up(bad, t) && Up(bad, g) && t != g;
  }

  /** From an overtaken world the controller alone reaches two Deployments up. */
  lemma OvertakenReachesTwo(cat: Catalogue, w: World, t: string, v0: World) returns (bad: World)
    requires Dependable(cat.writers) && Reaches(cat, w, v0) && Overtaken(cat, v0, t)
    ensures Reaches(cat, w, bad) && !AtMostOneUp(bad)
  {
    var v := DriveToValidate(cat, w, t, v0);
    v := DriveDown(cat, w, t, v);
    v := DriveToPatch(cat, w, t, v);
    bad := PatchMakesTwo(cat, w, t, v);
  }
}

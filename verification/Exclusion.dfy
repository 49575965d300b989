/**
 * Mutual exclusion of backends: at most one managed Deployment is asked to run at any moment,
 * provided no new generation lands while a target other than the active model's Deployment is up
 * or about to be patched, no lookup loses the previous Deployment, and no backend creates its
 * Deployment with replicas.
 */
module Exclusion {
  import opened Prelude
  import opened Transition
  import opened TransitionSafety
  import W = Workload

  /** Asked to run at least one replica; an absent count defaults to one. */
  predicate Up(w: World, d: string) {
    d in w.cluster && w.cluster[d].d.replicas != Some(0)
  }

  ghost predicate AtMostOneUp(w: World) {
    forall d, e :: Up(w, d) && Up(w, e) ==> d == e
  }

  /** The Deployment of the model that status reports as active. */
  function Owner(cat: Catalogue, w: World): Option<string> { DeploymentOf(cat, w.active.status.modelName) }

  /** The Deployment of the requested model. */
  function Goal(cat: Catalogue, w: World): Option<string> { DeploymentOf(cat, w.active.spec) }

  /** The current generation has its token and has not been declared Stable. */
  predicate Pending(x: Active) { HasToken(x) && x.status.phase != Stable }

  /** Model names are not empty, and the controllers' writers do what the protocol needs. */
  ghost predicate WellFormed(cat: Catalogue) { "" !in cat.models && Dependable(cat.writers) }

  /** A target other than the owner is up, or an attempt has passed its last check before patching one. */
  predicate WindowOpen(cat: Catalogue, w: World) {
    || (Goal(cat, w).Some? && Goal(cat, w) != Owner(cat, w) && Up(w, Goal(cat, w).value))
    || (w.attempt.Some? && w.attempt.value.pc == At(Patch)
        && DeploymentOf(cat, w.attempt.value.obj.spec) != Owner(cat, w))
  }

  /** The lookups end the attempt, or name the Deployment that answered lookups would name. */
  predicate Answered(cat: Catalogue, obj: Active, o: Oracle) {
    var p := PreviousOf(cat, obj, o.lookup);
    p.Failure? || p == PreviousOf(cat, obj, ANSWERED)
  }

  /** The backend's Deployment is absent and would be created with replicas. */
  predicate BringsUp(cat: Catalogue, w: World, name: string) {
    && name in cat.backends && cat.backends[name].workload.Some?
    && cat.backends[name].deployment !in w.cluster && cat.backends[name].baseline != 0
  }

  /**
   * No spec edit inside the window, no lookup that loses the previous Deployment, and no Deployment
   * created with replicas.
   */
  predicate Orderly(cat: Catalogue, w: World, action: Action) {
    match action
    case EditSpec(n) => n == w.active.spec || !WindowOpen(cat, w)
    case Step(o) => w.attempt.Some? && w.attempt.value.pc == At(Validate) ==> Answered(cat, w.attempt.value.obj, o)
    case ReconcileBackend(b) => !BringsUp(cat, w, b)
    case _ => true
  }

  predicate OrderlyRun(cat: Catalogue, w: World, actions: seq<Action>)
    decreases |actions|
  {
    actions == [] || (Orderly(cat, w, actions[0]) && OrderlyRun(cat, Apply(cat, w, actions[0]), actions[1..]))
  }

  ghost predicate ClusterInv(cat: Catalogue, x: Active, w: World) {
    && (forall d :: Up(w, d) ==>
          Some(d) == DeploymentOf(cat, x.status.modelName) || (Some(d) == DeploymentOf(cat, x.spec) && Pending(x)))
    && !(DeploymentOf(cat, x.status.modelName).Some? && DeploymentOf(cat, x.spec).Some?
         && DeploymentOf(cat, x.status.modelName) != DeploymentOf(cat, x.spec)
         && Up(w, DeploymentOf(cat, x.status.modelName).value) && Up(w, DeploymentOf(cat, x.spec).value))
  }

  predicate Scaled(w: World, d: string, n: int) {
    d in w.cluster && w.cluster[d].d.replicas == Some(n)
  }

  /** What an attempt at the stage of rank `r` has done to the cluster. */
  ghost predicate Progress(cat: Catalogue, w: World, a: Attempt, r: nat) {
    && (r >= 1 ==> PreviousOf(cat, a.obj, ANSWERED) == Success(a.previous))
    && (r >= 2 && a.previous.Some? ==> Scaled(w, a.previous.value, 0))
    && (r >= 6 ==> DeploymentOf(cat, a.obj.spec).Some? && Scaled(w, DeploymentOf(cat, a.obj.spec).value, 1))
  }

  ghost predicate ProgressInv(cat: Catalogue, w: World) {
    Running(w) ==>
      var a := w.attempt.value;
      && w.active.status.transitionGeneration <= a.obj.generation
      && (a.pc.Check? ==> Progress(cat, w, a, Rank(a.pc.next)))
      && (a.pc.At? ==> Progress(cat, w, a, Rank(a.pc.stage)))
      && (a.pc == At(Patch) && Stale(w) ==> DeploymentOf(cat, a.obj.spec) == Owner(cat, w))
  }

  ghost predicate Safe(cat: Catalogue, w: World) {
    && Inv(cat, w) && Witnesses(cat, w)
    && ClusterInv(cat, w.active, w) && ProgressInv(cat, w)
  }

  lemma SafeMeansExclusive(cat: Catalogue, w: World)
    requires ClusterInv(cat, w.active, w)
    ensures AtMostOneUp(w)
  {
  }

  // ------------------------------------------------------------------ environment steps

  lemma EditKeepsCluster(cat: Catalogue, w: World, n: string)
    requires Safe(cat, w) && Orderly(cat, w, EditSpec(n))
    ensures var w' := Apply(cat, w, EditSpec(n)); ClusterInv(cat, w'.active, w') && ProgressInv(cat, w')
  {
  }

  /**
   * A backend reconcile keeps every replica count, and brings something up exactly when it creates it with
   * replicas.
   */
  lemma BackendKeepsReplicas(cat: Catalogue, w: World, name: string)
    requires Dependable(cat.writers)
    ensures var w' := StepReconcileBackend(cat, w, name);
            && w'.active == w.active && w'.attempt == w.attempt
            && (forall d :: d in w.cluster ==> d in w'.cluster && w'.cluster[d].d.replicas == w.cluster[d].d.replicas)
            && (forall d :: Up(w', d) <==> Up(w, d) || (BringsUp(cat, w, name) && d == cat.backends[name].deployment))
            && ((exists d :: Up(w', d) && !Up(w, d)) <==> BringsUp(cat, w, name))
  {
    var w' := StepReconcileBackend(cat, w, name);
    if BringsUp(cat, w, name) {
      assert Up(w', cat.backends[name].deployment) && !Up(w, cat.backends[name].deployment);
    }
  }

  /** Same object, same attempt, same replica counts: the cluster invariants carry over. */
  lemma SameReplicas(cat: Catalogue, w: World, w': World)
    requires ClusterInv(cat, w.active, w) && ProgressInv(cat, w)
    requires w'.active == w.active && w'.attempt == w.attempt
    requires forall d :: d in w.cluster ==> d in w'.cluster && w'.cluster[d].d.replicas == w.cluster[d].d.replicas
    requires forall d :: Up(w', d) <==> Up(w, d)
    ensures ClusterInv(cat, w'.active, w') && ProgressInv(cat, w')
  {
    if Running(w) {
      var a := w.attempt.value;
      if a.pc.Check? { assert Progress(cat, w', a, Rank(a.pc.next)); }
      if a.pc.At? { assert Progress(cat, w', a, Rank(a.pc.stage)); }
    }
  }

  // ------------------------------------------------------------------ controller steps

  /** Past the wait for scale-down, a current attempt's owner is down unless it is the target itself. */
  lemma OwnerIsDown(cat: Catalogue, w: World, a: Attempt, r: nat)
    requires WellFormed(cat) && Inv(cat, w) && w.attempt == Some(a) && PastToken(a.pc) && !Stale(w)
    requires r >= 3 && Progress(cat, w, a, r)
    ensures Owner(cat, w) == Goal(cat, w) || Owner(cat, w).None? || !Up(w, Owner(cat, w).value)
  {
    assert a.obj.status == w.active.status && a.obj.spec == w.active.spec;
  }

  lemma PatchKeepsCluster(cat: Catalogue, w: World, a: Attempt, m: Model, b: Backend, o: Oracle)
    requires WellFormed(cat) && Safe(cat, w) && w.attempt == Some(a) && a.pc == At(Patch)
    requires BackendOf(cat, a.obj.spec) == Some(b) && m == cat.models[a.obj.spec]
    ensures var w' := StepPatch(cat, w, a, m, b, o); ClusterInv(cat, w'.active, w') && ProgressInv(cat, w')
  {
    var w' := StepPatch(cat, w, a, m, b, o);
    assert EvidenceAt(cat, a, b, 5) && Progress(cat, w, a, 5);
    PatchRaisesTarget(cat, w, a, m, b, o);
    if !Stale(w) {
      OwnerIsDown(cat, w, a, 5);
    }
    PatchedCluster(cat, w, w', a, b.deployment);
  }

  /** Raising the target of an attempt whose owner is down, or that serves the owner, and nothing else. */
  lemma PatchedCluster(cat: Catalogue, w: World, w': World, a: Attempt, t: string)
    requires Safe(cat, w) && w.attempt == Some(a) && a.pc == At(Patch) && DeploymentOf(cat, a.obj.spec) == Some(t)
    requires !Stale(w) ==> Owner(cat, w) == Goal(cat, w) || Owner(cat, w).None? || !Up(w, Owner(cat, w).value)
    requires Progress(cat, w, a, 5)
    requires w'.active == w.active && w'.attempt.Some? && w'.attempt.value.obj == a.obj
    requires forall d :: d != t ==>
               (d in w'.cluster <==> d in w.cluster) && (d in w.cluster ==> w'.cluster[d] == w.cluster[d])
    requires w'.cluster == w.cluster || Scaled(w', t, 1)
    requires w'.attempt.value.pc.Fail? || (w'.attempt.value.pc == Check(BeginRollout) && Scaled(w', t, 1)
                                           && w'.attempt.value.previous == a.previous)
    ensures ClusterInv(cat, w'.active, w') && ProgressInv(cat, w')
  {
    assert forall d :: Up(w', d) ==> Up(w, d) || d == t;
    assert ClusterInv(cat, w.active, w');
    if a.previous.Some? {
      assert a.previous.value != t;
    }
  }

  /** The patch touches the target only, and leaves it at one replica when it reports success. */
  lemma PatchRaisesTarget(cat: Catalogue, w: World, a: Attempt, m: Model, b: Backend, o: Oracle)
    requires Dependable(cat.writers)
    ensures var w', t := StepPatch(cat, w, a, m, b, o), b.deployment;
            && w'.active == w.active && w'.attempt.Some? && w'.attempt.value.obj == a.obj
            && (forall d :: d != t ==>
                  (d in w'.cluster <==> d in w.cluster) && (d in w.cluster ==> w'.cluster[d] == w.cluster[d]))
            && (w'.cluster == w.cluster || Scaled(w', t, 1))
            && (w'.attempt.value.pc.Fail? || (w'.attempt.value.pc == Check(BeginRollout) && Scaled(w', t, 1)
                                              && w'.attempt.value.previous == a.previous))
  {
  }

  lemma ScaleDownKeepsCluster(cat: Catalogue, w: World, a: Attempt, p: string, o: Oracle)
    requires Safe(cat, w) && w.attempt == Some(a) && a.pc == At(ScaleDown) && a.previous == Some(p)
    ensures var w' := StepScaleDown(w, a, p, o); ClusterInv(cat, w'.active, w') && ProgressInv(cat, w')
  {
    var w' := StepScaleDown(w, a, p, o);
    assert forall d :: Up(w', d) ==> Up(w, d);
    assert Progress(cat, w, a, 1);
  }

  /** A stage that writes nothing to the cluster or to the active-model object. */
  lemma QuietKeepsCluster(cat: Catalogue, w: World, a: Attempt, s: Stage, m: Model, b: Backend, o: Oracle)
    requires Safe(cat, w) && w.attempt == Some(a) && a.pc == At(s)
    requires BackendOf(cat, a.obj.spec) == Some(b)
    requires !s.Patch? && !s.ScaleDown? && !s.MarkStable?
    requires s.Validate? ==> Answered(cat, a.obj, o)
    ensures var w' := StepStage(cat, w, a, s, m, b, o); ClusterInv(cat, w'.active, w') && ProgressInv(cat, w')
  {
    var w' := StepStage(cat, w, a, s, m, b, o);
    assert Progress(cat, w, a, Rank(s));
    assert s.AwaitDown? ==> a.previous.Some? by { assert EvidenceAt(cat, a, b, Rank(s)); }
    QuietGoesOn(cat, w, a, s, m, b, o);
    assert ClusterInv(cat, w.active, w');
    if w'.attempt.value.pc.Check? {
      assert Progress(cat, w', w'.attempt.value, Rank(w'.attempt.value.pc.next));
    }
  }

  /** Such a stage moves on by at most one kind of work, or ends the attempt. */
  lemma QuietGoesOn(cat: Catalogue, w: World, a: Attempt, s: Stage, m: Model, b: Backend, o: Oracle)
    requires !s.Patch? && !s.ScaleDown? && !s.MarkStable? && (s.AwaitDown? ==> a.previous.Some?)
    ensures var w' := StepStage(cat, w, a, s, m, b, o);
            && w'.active == w.active && w'.cluster == w.cluster && w'.attempt.Some?
            && var a' := w'.attempt.value;
               && a'.obj == a.obj
               && (s.Validate? || a'.previous == a.previous)
               && (s.Validate? && a'.pc.Check? ==> PreviousOf(cat, a.obj, o.lookup) == Success(a'.previous))
               && (a'.pc.Fail? || a'.pc.Done? || a'.pc.Check?)
               && (a'.pc.Check? ==>
                     var r, r' := Rank(s), Rank(a'.pc.next);
                     && (r' >= 6 ==> r >= 6) && (r' >= 1 && r < 1 ==> s.Validate?)
                     && (r' >= 2 && r < 2 ==> s.Validate? && (r' == 3 && a'.previous.None?)))
  {
  }

  /** Declaring Stable hands ownership to the target, which is up while the old owner is down. */
  lemma StableKeepsCluster(cat: Catalogue, w: World, a: Attempt, m: Model, b: Backend, o: Oracle)
    requires WellFormed(cat) && Safe(cat, w) && w.attempt == Some(a) && a.pc == At(MarkStable)
    requires BackendOf(cat, a.obj.spec) == Some(b)
    ensures var w' := StepMarkStable(w, a, m, o); ClusterInv(cat, w'.active, w') && ProgressInv(cat, w')
  {
    assert EvidenceAt(cat, a, b, 13) && Progress(cat, w, a, 13);
    if a.obj.version == w.active.version {
      OwnerIsDown(cat, w, a, 13);
    }
  }

  /** The status writes outside MarkStable leave the reported model and the token where they were. */
  lemma UpdateKeepsCluster(cat: Catalogue, w: World, a: Attempt, s: Status, o: Oracle, next: PC)
    requires Safe(cat, w) && w.attempt == Some(a) && !a.pc.Done?
    requires s.modelName == a.obj.status.modelName
    requires next.Done? || next == Check(Validate)
    requires s.transitionGeneration <= a.obj.generation
    requires Pending(a.obj) ==>
               (s.phase != Stable && s.transitionGeneration == a.obj.generation) || a.obj.status.modelName == a.obj.spec
    ensures var w' := Update(w, a, s, o, next); ClusterInv(cat, w'.active, w') && ProgressInv(cat, w')
  {
    var w' := Update(w, a, s, o, next);
    assert w'.cluster == w.cluster;
    if a.obj.version == w.active.version {
      assert a.obj == w.active;
    }
    if next.Check? { assert Rank(next.next) == 0; }
  }

  lemma StageKeepsCluster(cat: Catalogue, w: World, a: Attempt, s: Stage, o: Oracle)
    requires WellFormed(cat) && Safe(cat, w) && w.attempt == Some(a) && a.pc == At(s) && Orderly(cat, w, Step(o))
    ensures var w' := StepAttempt(cat, w, a, o); ClusterInv(cat, w'.active, w') && ProgressInv(cat, w')
  {
    var m, b := cat.models[a.obj.spec], BackendOf(cat, a.obj.spec).value;
    assert StepAttempt(cat, w, a, o) == StepStage(cat, w, a, s, m, b, o);
    match s
    case Patch => PatchKeepsCluster(cat, w, a, m, b, o);
    case ScaleDown => ScaleDownKeepsCluster(cat, w, a, a.previous.value, o);
    case MarkStable => StableKeepsCluster(cat, w, a, m, b, o);
    case _ => QuietKeepsCluster(cat, w, a, s, m, b, o);
  }

  lemma CheckKeepsCluster(cat: Catalogue, w: World, a: Attempt, next: Stage, o: Oracle)
    requires Safe(cat, w) && w.attempt == Some(a) && a.pc == Check(next)
    ensures var w' := StepCheck(w, a, next, o); ClusterInv(cat, w'.active, w') && ProgressInv(cat, w')
  {
    CheckGoesOn(w, a, next, o);
    var w' := StepCheck(w, a, next, o);
    assert ClusterInv(cat, w'.active, w');
    if Running(w') && w'.attempt.value.pc.At? {
      assert Progress(cat, w', w'.attempt.value, Rank(next));
    }
  }

  lemma StepKeepsCluster(cat: Catalogue, w: World, a: Attempt, o: Oracle)
    requires WellFormed(cat) && Safe(cat, w) && w.attempt == Some(a) && Orderly(cat, w, Step(o))
    ensures var w' := StepAttempt(cat, w, a, o); ClusterInv(cat, w'.active, w') && ProgressInv(cat, w')
  {
    match a.pc
    case Lookup => LookupGoesOn(cat, w, a, o);
    case Refuse => UpdateKeepsCluster(cat, w, a, a.obj.status.(phase := Failed), o, Done);
    case Confirm => UpdateKeepsCluster(cat, w, a, a.obj.status.(phase := Stable), o, Done);
    case Token =>
      if NeedsToken(a.obj) {
        UpdateKeepsCluster(cat, w, a, a.obj.status.(phase := Transitioning, transitionFrom := a.obj.status.modelName,
                                                    started := Some(o.now), transitionGeneration := a.obj.generation),
                           o, Check(Validate));
      }
    case Check(next) => CheckKeepsCluster(cat, w, a, next, o);
    case At(s) => StageKeepsCluster(cat, w, a, s, o);
    case Fail => UpdateKeepsCluster(cat, w, a, a.obj.status.(phase := Failed), o, Done);
    case Done =>
  }

  lemma ApplyKeepsSafe(cat: Catalogue, w: World, action: Action)
    requires WellFormed(cat) && Safe(cat, w) && Orderly(cat, w, action)
    ensures Safe(cat, Apply(cat, w, action))
  {
    ApplyKeepsInv(cat, w, action);
    ApplyKeepsEvidence(cat, w, action);
    var w' := Apply(cat, w, action);
    match action
    case Step(o) => if w.attempt.Some? { StepKeepsCluster(cat, w, w.attempt.value, o); }
    case ReconcileBackend(b) => BackendKeepsReplicas(cat, w, b); SameReplicas(cat, w, w');
    case Report(d, observed) => SameReplicas(cat, w, w');
    case EditSpec(n) => EditKeepsCluster(cat, w, n);
    case EditMetadata => assert ClusterInv(cat, w'.active, w');
    case Crash => assert ClusterInv(cat, w'.active, w');
    case Begin => assert ClusterInv(cat, w'.active, w');
  }

  /** A quiet start: no attempt running, only the active model's Deployment up. */
  ghost predicate QuietStart(cat: Catalogue, w: World) {
    && Inv(cat, w) && w.attempt.None?
    && forall d :: Up(w, d) ==> Some(d) == Owner(cat, w)
  }

  lemma {:induction false} SafeThroughout(cat: Catalogue, w: World, actions: seq<Action>)
    requires WellFormed(cat) && Safe(cat, w) && OrderlyRun(cat, w, actions)
    ensures Safe(cat, Run(cat, w, actions))
    decreases |actions|
  {
    if actions != [] {
      ApplyKeepsSafe(cat, w, actions[0]);
      SafeThroughout(cat, Apply(cat, w, actions[0]), actions[1..]);
    }
  }

  lemma {:induction false} OrderlyPrefix(cat: Catalogue, w: World, actions: seq<Action>, k: nat)
    requires OrderlyRun(cat, w, actions) && k <= |actions|
    ensures OrderlyRun(cat, w, actions[..k])
    decreases k
  {
    if k > 0 {
      assert actions[..k][1..] == actions[1..][..k - 1];
      OrderlyPrefix(cat, Apply(cat, w, actions[0]), actions[1..], k - 1);
    }
  }

  /**
   * Mutual exclusion over whole runs: failures, timeouts, lost replies, crashes, retries of one
   * generation, backend reconciles and spec edits outside the window leave at most one Deployment up
   * at every point.
   */
  lemma AtMostOneDeploymentUp(cat: Catalogue, w: World, actions: seq<Action>)
    requires WellFormed(cat) && QuietStart(cat, w) && OrderlyRun(cat, w, actions)
    ensures forall k :: 0 <= k <= |actions| ==> AtMostOneUp(Run(cat, w, actions[..k]))
  {
    forall k | 0 <= k <= |actions| ensures AtMostOneUp(Run(cat, w, actions[..k])) {
      OrderlyPrefix(cat, w, actions, k);
      SafeThroughout(cat, w, actions[..k]);
      SafeMeansExclusive(cat, Run(cat, w, actions[..k]));
    }
  }

  /** When an attempt of an orderly run declares Stable, its target is up and nothing else is. */
  lemma StableTargetAlone(cat: Catalogue, start: World, actions: seq<Action>)
    requires WellFormed(cat) && QuietStart(cat, start) && OrderlyRun(cat, start, actions)
    ensures var w := Run(cat, start, actions);
            w.attempt.Some? && w.attempt.value.pc == At(MarkStable) && !Stale(w) ==>
              && Goal(cat, w).Some? && Scaled(w, Goal(cat, w).value, 1)
              && forall d :: Up(w, d) ==> Some(d) == Goal(cat, w)
  {
    SafeThroughout(cat, start, actions);
    var w := Run(cat, start, actions);
    if w.attempt.Some? && w.attempt.value.pc == At(MarkStable) && !Stale(w) {
      assert Progress(cat, w, w.attempt.value, 13);
      SafeMeansExclusive(cat, w);
    }
  }
}

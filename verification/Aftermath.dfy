/**
 * The aftermath of a spec edit inside the window: what every run of the controller alone keeps after it,
 * and so exactly which edits let two Deployments come up.
 */
module Aftermath {
  import opened Prelude
  import opened Transition
  import opened TransitionSafety
  import opened Exclusion
  import opened ExclusionExact
  import W = Workload

  // ------------------------------------------------------------------ which edits are dangerous

  /** The overtaken attempt stands at its patch, and the patch can land. */
  predicate CanRaise(cat: Catalogue, w: World, t: string) {
    && w.attempt.Some? && w.attempt.value.pc == At(Patch) && t in w.cluster
    && var b := BackendOf(cat, w.attempt.value.obj.spec);
       && b.Some? && b.value.deployment == t
       && var m := cat.models[w.attempt.value.obj.spec];
          cat.writers.activate(w.cluster[t].d, b.value.container, m.runtime, "").Success?
  }

  /** The old target is up, or will be. */
  predicate Risen(cat: Catalogue, w: World, t: string) { Up(w, t) || CanRaise(cat, w, t) }

  /**
   * The edit is dangerous: the old target is up or about to be, the new model is served by another
   * Deployment, can be started from here, and its attempts will not scale the old target down first.
   */
  predicate Dangerous(cat: Catalogue, w: World, n: string) {
    var e, t := Apply(cat, w, EditSpec(n)), Goal(cat, w);
    && t.Some? && Risen(cat, e, t.value)
    && Goal(cat, e) != t && Predecessor(cat, e.active) != Success(t) && Restartable(cat, e)
  }

  // ------------------------------------------------------------------ what the controller alone keeps

  /** An attempt of an earlier generation is still running. */
  predicate Behind(w: World) { Running(w) && Stale(w) }

  /** The new model is served by the old target itself, or it could be started when the edit landed. */
  predicate Open(cat: Catalogue, e: World, t: string) { Goal(cat, e) == Some(t) || Restartable(cat, e) }

  /** Attempts of the new generation scale the old target down before they start theirs. */
  predicate Relieved(cat: Catalogue, e: World, t: string) {
    Goal(cat, e) != Some(t) && Predecessor(cat, e.active) == Success(Some(t))
  }

  predicate SameTemplate(a: W.Deployment, b: W.Deployment) { a == b.(replicas := a.replicas) }

  /** The new goal's Deployment has not been touched, except for its replicas, unless it could be started. */
  predicate Framed(cat: Catalogue, e: World, t: string, w: World) {
    && w.active.spec == e.active.spec && w.active.generation == e.active.generation && w.cluster.Keys == e.cluster.Keys
    && (!Open(cat, e, t) && Goal(cat, e).Some? && Goal(cat, e).value in e.cluster ==>
          SameTemplate(w.cluster[Goal(cat, e).value].d, e.cluster[Goal(cat, e).value].d))
  }

  ghost predicate Ups(cat: Catalogue, e: World, t: string, w: World) {
    && (forall d :: Up(w, d) ==> d == t || (Some(d) == Goal(cat, e) && Open(cat, e, t) && !Behind(w)))
    && (Up(w, t) && Goal(cat, e) != Some(t) ==> Risen(cat, e, t))
    && (Relieved(cat, e, t) && Up(w, t) ==> forall d :: Up(w, d) ==> d == t)
  }

  /** The status of the edit still stands, or the new model has been declared Stable since. */
  predicate Settles(cat: Catalogue, e: World, t: string, w: World) {
    var s, s0 := w.active.status, e.active.status;
    || (s.modelName == s0.modelName && s.backendType == s0.backendType
        && (HasToken(w.active) ==> s.transitionFrom == s0.modelName))
    || (Open(cat, e, t) && !Behind(w) && (Relieved(cat, e, t) ==> !Up(w, t)))
  }

  /** An overtaken attempt serves the old target, and acts at most once more. */
  ghost predicate Overrun(cat: Catalogue, e: World, t: string, w: World) {
    Behind(w) ==>
      && DeploymentOf(cat, w.attempt.value.obj.spec) == Some(t) && !HasToken(w.active)
      && (w.attempt.value.pc.At? ==>
            && w.attempt == e.attempt
            && forall d :: d in w.cluster ==> d in e.cluster && w.cluster[d].d == e.cluster[d].d)
  }

  /** The fast path was not taken when the edit landed. */
  predicate Passed(cat: Catalogue, e: World) {
    && Servable(cat, e.active.spec)
    && var m, b := cat.models[e.active.spec], BackendOf(cat, e.active.spec).value;
       b.deployment in e.cluster ==> Differs(cat, e.active, m, b, e.cluster[b.deployment].d)
  }

  /** What an attempt of the new generation has found out before the stage of rank `r`. */
  ghost predicate Found(cat: Catalogue, e: World, t: string, w: World, a: Attempt, r: nat) {
    && (r >= 1 ==> PreviousOf(cat, a.obj, ANSWERED) == Success(a.previous))
    && (r >= 2 && a.previous.Some? ==> Scaled(w, a.previous.value, 0))
    && (r >= 4 && !Open(cat, e, t) ==>
          && BackendOf(cat, a.obj.spec).Some?
          && var m, b := cat.models[a.obj.spec], BackendOf(cat, a.obj.spec).value;
             && b.deployment in w.cluster
             && ((cat.cacheManager && m.cached) || !cat.writers.offline(w.cluster[b.deployment].d, b.container)))
    && (r >= 6 ==> Open(cat, e, t))
  }

  ghost predicate Ahead(cat: Catalogue, e: World, t: string, w: World) {
    Running(w) && !Stale(w) ==>
      var a := w.attempt.value;
      && ((a.pc.Token? || PastToken(a.pc)) && !Open(cat, e, t) ==> Passed(cat, e))
      && (a.pc.Check? ==> Found(cat, e, t, w, a, Rank(a.pc.next)))
      && (a.pc.At? ==> Found(cat, e, t, w, a, Rank(a.pc.stage)))
  }

  ghost predicate After(cat: Catalogue, e: World, t: string, w: World) {
    && Inv(cat, w) && Framed(cat, e, t, w) && Ups(cat, e, t, w)
    && Settles(cat, e, t, w) && Overrun(cat, e, t, w) && Ahead(cat, e, t, w)
  }

  /** Two Deployments up in the aftermath: then the edit was dangerous. */
  lemma TwoUpMeansDanger(cat: Catalogue, e: World, t: string, w: World)
    requires Ups(cat, e, t, w) && !AtMostOneUp(w)
    ensures Risen(cat, e, t) && Goal(cat, e) != Some(t) && Restartable(cat, e)
    ensures Predecessor(cat, e.active) != Success(Some(t))
  {
    var d, d' :| Up(w, d) && Up(w, d') && d != d';
  }

  // ------------------------------------------------------------------ the environment

  lemma EnvKeeps(cat: Catalogue, e: World, t: string, w: World, action: Action)
    requires After(cat, e, t, w) && (action.Report? || action.EditMetadata? || action.Crash? || action.Begin?)
    ensures After(cat, e, t, Apply(cat, w, action))
  {
    ApplyKeepsInv(cat, w, action);
    SameDeployments(cat, e, t, w, Apply(cat, w, action));
  }

  /** Templates, replicas and status unchanged, and the attempt as it was, gone, or new: all that is kept. */
  lemma SameDeployments(cat: Catalogue, e: World, t: string, w: World, w': World)
    requires After(cat, e, t, w) && Inv(cat, w') && w'.cluster.Keys == w.cluster.Keys
    requires w'.active.(version := w.active.version) == w.active
    requires forall d :: d in w.cluster ==> w'.cluster[d].d == w.cluster[d].d
    requires w'.attempt == w.attempt || !Running(w') || (w'.attempt.value.pc == Lookup && !Stale(w'))
    ensures After(cat, e, t, w')
  {
    assert Behind(w') ==> Behind(w) && w'.attempt == w.attempt;
    SameReplicas(cat, e, t, w, w');
    if Running(w') && !Stale(w') && w'.attempt == w.attempt {
      FoundOn(cat, e, t, w, w');
    }
  }

  lemma SameReplicas(cat: Catalogue, e: World, t: string, w: World, w': World)
    requires Framed(cat, e, t, w) && Ups(cat, e, t, w) && Settles(cat, e, t, w) && (Behind(w') ==> Behind(w))
    requires w'.active.(version := w.active.version) == w.active && w'.cluster.Keys == w.cluster.Keys
    requires forall d :: d in w.cluster ==> w'.cluster[d].d == w.cluster[d].d
    ensures Framed(cat, e, t, w') && Ups(cat, e, t, w') && Settles(cat, e, t, w')
  {
    assert forall d :: Up(w', d) <==> Up(w, d);
  }

  /** Replicas and templates unchanged: what has been found out still holds. */
  lemma FoundOn(cat: Catalogue, e: World, t: string, w: World, w': World)
    requires Ahead(cat, e, t, w) && Running(w) && !Stale(w) && w'.attempt == w.attempt && !Stale(w')
    requires w'.cluster.Keys == w.cluster.Keys && forall d :: d in w.cluster ==> w'.cluster[d].d == w.cluster[d].d
    ensures Ahead(cat, e, t, w')
  {
    var a := w.attempt.value;
    if a.pc.Check? {
      assert Found(cat, e, t, w', a, Rank(a.pc.next));
    }
    if a.pc.At? {
      assert Found(cat, e, t, w', a, Rank(a.pc.stage));
    }
  }

  // ------------------------------------------------------------------ steps of an overtaken attempt

  /** Only the scale-down and the patch write to the cluster. */
  lemma ClusterQuiet(cat: Catalogue, w: World, a: Attempt, o: Oracle)
    requires a.pc != At(Patch) && a.pc != At(ScaleDown)
    ensures StepAttempt(cat, w, a, o).cluster == w.cluster
  {
  }

  /** An overtaken attempt keeps its copy and enters no further stage. */
  lemma OvertakenEnds(cat: Catalogue, w: World, o: Oracle)
    requires Inv(cat, w) && Behind(w)
    ensures var w' := Apply(cat, w, Step(o));
            && w'.active == w.active && w'.attempt.Some?
            && w'.attempt.value.obj == w.attempt.value.obj && !w'.attempt.value.pc.At?
  {
    StaleAttemptNeverWrites(cat, w, o);
    var a := w.attempt.value;
    match a.pc
    case Lookup => LookupGoesOn(cat, w, a, o);
    case Check(next) => CheckGoesOn(w, a, next, o);
    case At(s) =>
      if !s.MarkStable? {
        StageFollows(cat, w, a, s, cat.models[a.obj.spec], BackendOf(cat, a.obj.spec).value, o);
      }
    case _ =>
  }

  /** The scale-down lowers one Deployment and touches no template. */
  lemma ScaleDownLowers(w: World, a: Attempt, p: string, o: Oracle)
    ensures var w' := StepScaleDown(w, a, p, o);
            && w'.active == w.active && w'.cluster.Keys == w.cluster.Keys
            && (forall d :: d in w.cluster ==> SameTemplate(w'.cluster[d].d, w.cluster[d].d))
            && (forall d :: Up(w', d) ==> Up(w, d))
            && (forall d, n :: d != p && Scaled(w, d, n) ==> Scaled(w', d, n))
            && w'.attempt.Some?
            && (w'.attempt.value.pc.Fail? || (w'.attempt.value.pc == Check(AwaitDown) && Scaled(w', p, 0)))
            && w'.attempt.value.obj == a.obj && w'.attempt.value.previous == a.previous
  {
  }

  lemma OverrunScaleDown(cat: Catalogue, e: World, t: string, w: World, o: Oracle)
    requires WellFormed(cat) && After(cat, e, t, w) && Behind(w) && w.attempt.value.pc == At(ScaleDown)
    ensures After(cat, e, t, Apply(cat, w, Step(o)))
  {
    var a := w.attempt.value;
    var w' := Apply(cat, w, Step(o));
    ApplyKeepsInv(cat, w, Step(o));
    OvertakenEnds(cat, w, o);
    if a.previous.Some? && BackendOf(cat, a.obj.spec).Some? {
      ScaleDownLowers(w, a, a.previous.value, o);
    }
    forall d | Up(w', d) ensures d == t {
      assert Up(w, d);
    }
  }

  /** A patch that lands could land when the edit did: the stamp makes no difference. */
  lemma CanRaiseIt(cat: Catalogue, w: World, e: World, t: string, m: Model, b: Backend, o: Oracle)
    requires WellFormed(cat) && w.attempt.Some? && e.attempt == w.attempt && w.attempt.value.pc == At(Patch)
    requires w.attempt.value.obj.spec in cat.models && m == cat.models[w.attempt.value.obj.spec]
    requires BackendOf(cat, w.attempt.value.obj.spec) == Some(b) && b.deployment == t
    requires t in w.cluster && t in e.cluster && w.cluster[t].d == e.cluster[t].d
    requires cat.writers.activate(w.cluster[t].d, b.container, m.runtime, o.stamp).Success?
    ensures CanRaise(cat, e, t)
  {
    var d := w.cluster[t].d;
    assert SameButScaled(cat.writers, d, d.replicas, b.container, m.runtime, o.stamp, "");
    assert d.(replicas := d.replicas) == d;
  }

  lemma OverrunPatch(cat: Catalogue, e: World, t: string, w: World, o: Oracle)
    requires WellFormed(cat) && After(cat, e, t, w) && Behind(w) && w.attempt.value.pc == At(Patch)
    ensures After(cat, e, t, Apply(cat, w, Step(o)))
  {
    var a := w.attempt.value;
    var m, b := cat.models[a.obj.spec], BackendOf(cat, a.obj.spec).value;
    var w' := Apply(cat, w, Step(o));
    ApplyKeepsInv(cat, w, Step(o));
    OvertakenEnds(cat, w, o);
    PatchRaisesTarget(cat, w, a, m, b, o);
    assert b.deployment == t && w'.cluster.Keys == w.cluster.Keys;
    if w'.cluster != w.cluster {
      CanRaiseIt(cat, w, e, t, m, b, o);
    }
    forall d | Up(w', d) ensures d == t {
      assert d == t || Up(w, d);
    }
  }

  lemma OverrunKeeps(cat: Catalogue, e: World, t: string, w: World, o: Oracle)
    requires WellFormed(cat) && After(cat, e, t, w) && Behind(w)
    ensures After(cat, e, t, Apply(cat, w, Step(o)))
  {
    var a := w.attempt.value;
    if a.pc == At(ScaleDown) {
      OverrunScaleDown(cat, e, t, w, o);
    } else if a.pc == At(Patch) {
      OverrunPatch(cat, e, t, w, o);
    } else {
      ApplyKeepsInv(cat, w, Step(o));
      OvertakenEnds(cat, w, o);
      ClusterQuiet(cat, w, a, o);
      assert forall d :: Up(Apply(cat, w, Step(o)), d) <==> Up(w, d);
    }
  }

  // ------------------------------------------------------------------ steps of an attempt of the new generation

  ghost predicate Current(cat: Catalogue, e: World, t: string, w: World, pc: PC) {
    After(cat, e, t, w) && Running(w) && !Stale(w) && w.attempt.value.pc == pc
  }

  /** The cluster and the attempt's copy are unchanged, and so is what is known about them. */
  lemma SameCluster(cat: Catalogue, e: World, t: string, w: World, w': World)
    requires After(cat, e, t, w) && !Behind(w) && Inv(cat, w') && w'.active == w.active && w'.cluster == w.cluster
    requires !Behind(w')
    requires Ahead(cat, e, t, w')
    ensures After(cat, e, t, w')
  {
    assert forall d :: Up(w', d) <==> Up(w, d);
  }

  /** The lookup leaves the fast path only if it could be left when the edit landed. */
  lemma LookupPasses(cat: Catalogue, e: World, t: string, w: World, o: Oracle)
    requires WellFormed(cat) && Current(cat, e, t, w, Lookup) && !Open(cat, e, t)
    requires StepLookup(cat, w, w.attempt.value, o).attempt.value.pc == Token
    ensures Passed(cat, e)
  {
    var a := w.attempt.value;
    var m, b := cat.models[a.obj.spec], BackendOf(cat, a.obj.spec).value;
    if b.deployment in e.cluster {
      var d := e.cluster[b.deployment].d;
      assert SameButScaled(cat.writers, d, w.cluster[b.deployment].d.replicas, b.container, m.runtime, "", "");
    }
  }

  lemma LookupKeeps(cat: Catalogue, e: World, t: string, w: World, o: Oracle)
    requires WellFormed(cat) && Current(cat, e, t, w, Lookup)
    ensures After(cat, e, t, Apply(cat, w, Step(o)))
  {
    ApplyKeepsInv(cat, w, Step(o));
    LookupGoesOn(cat, w, w.attempt.value, o);
    var w' := Apply(cat, w, Step(o));
    if w'.attempt.value.pc == Token && !Open(cat, e, t) {
      LookupPasses(cat, e, t, w, o);
    }
    SameCluster(cat, e, t, w, w');
  }

  lemma CheckKeeps(cat: Catalogue, e: World, t: string, w: World, next: Stage, o: Oracle)
    requires WellFormed(cat) && Current(cat, e, t, w, Check(next))
    ensures After(cat, e, t, Apply(cat, w, Step(o)))
  {
    ApplyKeepsInv(cat, w, Step(o));
    CheckGoesOn(w, w.attempt.value, next, o);
    var w' := Apply(cat, w, Step(o));
    if w'.attempt.value.pc.At? {
      assert Found(cat, e, t, w', w'.attempt.value, Rank(next));
    }
    SameCluster(cat, e, t, w, w');
  }

  /** The status writes outside the Stable write keep the reported model; the token records it. */
  lemma UpdateKeeps(cat: Catalogue, e: World, t: string, w: World, s: Status, o: Oracle, next: PC)
    requires After(cat, e, t, w) && Running(w) && !Stale(w)
    requires Inv(cat, Update(w, w.attempt.value, s, o, next)) && (next.Done? || next == Check(Validate))
    requires s.modelName == w.attempt.value.obj.status.modelName
    requires s.backendType == w.attempt.value.obj.status.backendType
    requires || s.transitionFrom == s.modelName
             || (&& s.transitionFrom == w.attempt.value.obj.status.transitionFrom
                 && s.transitionGeneration == w.attempt.value.obj.status.transitionGeneration)
    requires next.Check? ==> Passed(cat, e) || Open(cat, e, t)
    ensures After(cat, e, t, Update(w, w.attempt.value, s, o, next))
  {
    var w' := Update(w, w.attempt.value, s, o, next);
    assert forall d :: Up(w', d) <==> Up(w, d);
    if Running(w') {
      assert Found(cat, e, t, w', w'.attempt.value, 0);
    }
  }

  lemma TokenKeeps(cat: Catalogue, e: World, t: string, w: World, o: Oracle)
    requires WellFormed(cat) && Current(cat, e, t, w, Token)
    ensures After(cat, e, t, Apply(cat, w, Step(o)))
  {
    ApplyKeepsInv(cat, w, Step(o));
    var a := w.attempt.value;
    if NeedsToken(a.obj) {
      UpdateKeeps(cat, e, t, w, a.obj.status.(phase := Transitioning, transitionFrom := a.obj.status.modelName,
                                              started := Some(o.now), transitionGeneration := a.obj.generation),
                  o, Check(Validate));
    } else {
      var w' := Apply(cat, w, Step(o));
      assert Found(cat, e, t, w', w'.attempt.value, 0);
      SameCluster(cat, e, t, w, w');
    }
  }

  /** Stages without effects on the cluster or on the active-model object. */
  lemma QuietKeeps(cat: Catalogue, e: World, t: string, w: World, s: Stage, o: Oracle)
    requires WellFormed(cat) && Current(cat, e, t, w, At(s)) && !s.Patch? && !s.ScaleDown? && !s.MarkStable?
    requires !s.Cache?
    requires s.Validate? ==> Answered(cat, w.attempt.value.obj, o)
    ensures After(cat, e, t, Apply(cat, w, Step(o)))
  {
    ApplyKeepsInv(cat, w, Step(o));
    var a := w.attempt.value;
    var m, b := cat.models[a.obj.spec], BackendOf(cat, a.obj.spec).value;
    var w' := Apply(cat, w, Step(o));
    StageFollows(cat, w, a, s, m, b, o);
    ClusterQuiet(cat, w, a, o);
    QuietFinds(cat, e, t, w, s, o);
    SameCluster(cat, e, t, w, w');
  }

  lemma QuietFinds(cat: Catalogue, e: World, t: string, w: World, s: Stage, o: Oracle)
    requires WellFormed(cat) && Current(cat, e, t, w, At(s)) && !s.Patch? && !s.ScaleDown? && !s.MarkStable?
    requires !s.Cache?
    requires s.Validate? ==> Answered(cat, w.attempt.value.obj, o)
    ensures Ahead(cat, e, t, Apply(cat, w, Step(o)))
  {
    if Rank(s) < 6 {
      EarlyFinds(cat, e, t, w, s, o);
    } else {
      LateFinds(cat, e, t, w, s, o);
    }
  }

  lemma EarlyFinds(cat: Catalogue, e: World, t: string, w: World, s: Stage, o: Oracle)
    requires WellFormed(cat) && Current(cat, e, t, w, At(s)) && (s.Validate? || s.AwaitDown? || s.RecordCache?)
    requires s.Validate? ==> Answered(cat, w.attempt.value.obj, o)
    ensures Ahead(cat, e, t, Apply(cat, w, Step(o)))
  {
    var w' := Apply(cat, w, Step(o));
    assert Found(cat, e, t, w, w.attempt.value, Rank(s));
    if w'.attempt.value.pc.Check? {
      assert Found(cat, e, t, w', w'.attempt.value, Rank(w'.attempt.value.pc.next));
    }
  }

  lemma LateFinds(cat: Catalogue, e: World, t: string, w: World, s: Stage, o: Oracle)
    requires WellFormed(cat) && Current(cat, e, t, w, At(s)) && 6 <= Rank(s) < 13
    ensures Ahead(cat, e, t, Apply(cat, w, Step(o)))
  {
    var w' := Apply(cat, w, Step(o));
    assert Found(cat, e, t, w, w.attempt.value, Rank(s));
    assert Open(cat, e, t);
    if w'.attempt.value.pc.Check? {
      assert Found(cat, e, t, w', w'.attempt.value, Rank(w'.attempt.value.pc.next));
    }
  }

  lemma CacheKeeps(cat: Catalogue, e: World, t: string, w: World, o: Oracle)
    requires WellFormed(cat) && Current(cat, e, t, w, At(Cache))
    ensures After(cat, e, t, Apply(cat, w, Step(o)))
  {
    ApplyKeepsInv(cat, w, Step(o));
    var a := w.attempt.value;
    StageFollows(cat, w, a, Cache, cat.models[a.obj.spec], BackendOf(cat, a.obj.spec).value, o);
    ClusterQuiet(cat, w, a, o);
    CacheFinds(cat, e, t, w, o);
    SameCluster(cat, e, t, w, Apply(cat, w, Step(o)));
  }

  /** The cache stage goes on only with a cached model or a Deployment that need not be offline. */
  lemma CacheFinds(cat: Catalogue, e: World, t: string, w: World, o: Oracle)
    requires WellFormed(cat) && Current(cat, e, t, w, At(Cache))
    ensures Ahead(cat, e, t, Apply(cat, w, Step(o)))
  {
    var a := w.attempt.value;
    var w' := Apply(cat, w, Step(o));
    assert Found(cat, e, t, w, a, 3);
    if w'.attempt.value.pc.Check? {
      assert Found(cat, e, t, w', w'.attempt.value, Rank(w'.attempt.value.pc.next));
    }
  }

  /** Lowering replicas without touching a template frees what was up and frames what was framed. */
  lemma Lowered(cat: Catalogue, e: World, t: string, w: World, w': World)
    requires Framed(cat, e, t, w) && Ups(cat, e, t, w) && Settles(cat, e, t, w) && !Behind(w) && !Behind(w')
    requires w'.active == w.active && w'.cluster.Keys == w.cluster.Keys
    requires forall d :: d in w.cluster ==> SameTemplate(w'.cluster[d].d, w.cluster[d].d)
    requires forall d :: Up(w', d) ==> Up(w, d)
    ensures Framed(cat, e, t, w') && Ups(cat, e, t, w') && Settles(cat, e, t, w')
  {
  }

  lemma ScaleDownKeeps(cat: Catalogue, e: World, t: string, w: World, o: Oracle)
    requires WellFormed(cat) && Current(cat, e, t, w, At(ScaleDown))
    ensures After(cat, e, t, Apply(cat, w, Step(o)))
  {
    ApplyKeepsInv(cat, w, Step(o));
    var a := w.attempt.value;
    var w' := Apply(cat, w, Step(o));
    assert Found(cat, e, t, w, a, 1);
    if a.previous.Some? {
      ScaleDownLowers(w, a, a.previous.value, o);
      Lowered(cat, e, t, w, w');
      if w'.attempt.value.pc.Check? {
        assert Found(cat, e, t, w', w'.attempt.value, 2);
      }
    } else {
      assert Found(cat, e, t, w', w'.attempt.value, 3);
      SameCluster(cat, e, t, w, w');
    }
  }

  /** What an attempt past its token takes for its predecessor is what the edit left it. */
  lemma SamePredecessor(cat: Catalogue, e: World, t: string, w: World)
    requires After(cat, e, t, w) && Running(w) && !Stale(w) && PastToken(w.attempt.value.pc)
    requires w.active.status.modelName == e.active.status.modelName
    requires w.active.status.backendType == e.active.status.backendType
    requires w.active.status.transitionFrom == e.active.status.modelName
    ensures PreviousOf(cat, w.attempt.value.obj, ANSWERED) == Predecessor(cat, e.active)
  {
  }

  /** When attempts relieve the old target, it is down by the time they patch theirs. */
  lemma RelievedAtPatch(cat: Catalogue, e: World, t: string, w: World, r: nat)
    requires After(cat, e, t, w) && Running(w) && !Stale(w) && PastToken(w.attempt.value.pc) && Relieved(cat, e, t)
    requires r >= 2 && Found(cat, e, t, w, w.attempt.value, r)
    ensures !Up(w, t)
  {
    if Up(w, t) {
      SamePredecessor(cat, e, t, w);
    }
  }

  lemma PatchKeeps(cat: Catalogue, e: World, t: string, w: World, o: Oracle)
    requires WellFormed(cat) && Current(cat, e, t, w, At(Patch))
    ensures After(cat, e, t, Apply(cat, w, Step(o)))
  {
    ApplyKeepsInv(cat, w, Step(o));
    var a := w.attempt.value;
    var m, b := cat.models[a.obj.spec], BackendOf(cat, a.obj.spec).value;
    var w' := Apply(cat, w, Step(o));
    PatchRaisesTarget(cat, w, a, m, b, o);
    assert Found(cat, e, t, w, a, 5);
    if w'.cluster == w.cluster && !w'.attempt.value.pc.Check? {
      SameCluster(cat, e, t, w, w');
    } else {
      PatchLands(cat, e, t, w, o);
    }
  }

  lemma PatchLands(cat: Catalogue, e: World, t: string, w: World, o: Oracle)
    requires WellFormed(cat) && Current(cat, e, t, w, At(Patch)) && Inv(cat, Apply(cat, w, Step(o)))
    requires var w' := Apply(cat, w, Step(o)); w'.cluster != w.cluster || w'.attempt.value.pc.Check?
    ensures After(cat, e, t, Apply(cat, w, Step(o)))
  {
    var a := w.attempt.value;
    var m, b := cat.models[a.obj.spec], BackendOf(cat, a.obj.spec).value;
    var w' := Apply(cat, w, Step(o));
    PatchRaisesTarget(cat, w, a, m, b, o);
    PatchLandsOpens(cat, e, t, w, o);
    assert Found(cat, e, t, w, a, 5);
    UpsAfterPatch(cat, e, t, w, w', b.deployment);
    if w'.attempt.value.pc.Check? {
      assert Found(cat, e, t, w', w'.attempt.value, 6);
    }
  }

  /** Raising the goal, and nothing else, where that is open. */
  lemma UpsAfterPatch(cat: Catalogue, e: World, t: string, w: World, w': World, g: string)
    requires Current(cat, e, t, w, At(Patch)) && Open(cat, e, t) && !Behind(w')
    requires Goal(cat, e) == Some(g) && forall d :: Up(w', d) ==> Up(w, d) || d == g
    ensures Ups(cat, e, t, w') && (Relieved(cat, e, t) ==> !Up(w', t))
  {
    assert Found(cat, e, t, w, w.attempt.value, 5);
    if Relieved(cat, e, t) {
      RelievedAtPatch(cat, e, t, w, 5);
    }
  }

  /** A patch of the new generation lands only if the edit left the model startable, or served by the old target. */
  lemma PatchLandsOpens(cat: Catalogue, e: World, t: string, w: World, o: Oracle)
    requires WellFormed(cat) && Current(cat, e, t, w, At(Patch))
    requires var w' := Apply(cat, w, Step(o)); w'.cluster != w.cluster || w'.attempt.value.pc.Check?
    ensures Open(cat, e, t)
  {
    var a := w.attempt.value;
    assert Found(cat, e, t, w, a, 5);
    if !Open(cat, e, t) {
      var m, b := cat.models[a.obj.spec], BackendOf(cat, a.obj.spec).value;
      var d := e.cluster[b.deployment].d;
      SamePredecessor(cat, e, t, w);
      assert SameButScaled(cat.writers, d, w.cluster[b.deployment].d.replicas, b.container, m.runtime, "", o.stamp);
      assert Restartable(cat, e);
    }
  }

  lemma StableKeeps(cat: Catalogue, e: World, t: string, w: World, o: Oracle)
    requires WellFormed(cat) && Current(cat, e, t, w, At(MarkStable))
    ensures After(cat, e, t, Apply(cat, w, Step(o)))
  {
    ApplyKeepsInv(cat, w, Step(o));
    var w' := Apply(cat, w, Step(o));
    assert Found(cat, e, t, w, w.attempt.value, 13);
    assert forall d :: Up(w', d) <==> Up(w, d);
    if Relieved(cat, e, t) {
      RelievedAtPatch(cat, e, t, w, 13);
    }
  }

  // ------------------------------------------------------------------ all together

  lemma StageKeeps(cat: Catalogue, e: World, t: string, w: World, s: Stage, o: Oracle)
    requires WellFormed(cat) && Current(cat, e, t, w, At(s)) && Orderly(cat, w, Step(o))
    ensures After(cat, e, t, Apply(cat, w, Step(o)))
  {
    match s
    case Cache => CacheKeeps(cat, e, t, w, o);
    case ScaleDown => ScaleDownKeeps(cat, e, t, w, o);
    case Patch => PatchKeeps(cat, e, t, w, o);
    case MarkStable => StableKeeps(cat, e, t, w, o);
    case _ => QuietKeeps(cat, e, t, w, s, o);
  }

  lemma CurrentKeeps(cat: Catalogue, e: World, t: string, w: World, o: Oracle)
    requires WellFormed(cat) && After(cat, e, t, w) && Running(w) && !Stale(w) && Orderly(cat, w, Step(o))
    ensures After(cat, e, t, Apply(cat, w, Step(o)))
  {
    var a := w.attempt.value;
    match a.pc
    case Lookup => LookupKeeps(cat, e, t, w, o);
    case Refuse => ApplyKeepsInv(cat, w, Step(o)); UpdateKeeps(cat, e, t, w, a.obj.status.(phase := Failed), o, Done);
    case Confirm => ApplyKeepsInv(cat, w, Step(o)); UpdateKeeps(cat, e, t, w, a.obj.status.(phase := Stable), o, Done);
    case Token => TokenKeeps(cat, e, t, w, o);
    case Check(next) => CheckKeeps(cat, e, t, w, next, o);
    case At(s) => StageKeeps(cat, e, t, w, s, o);
    case Fail => ApplyKeepsInv(cat, w, Step(o)); UpdateKeeps(cat, e, t, w, a.obj.status.(phase := Failed), o, Done);
  }

  lemma AloneKeeps(cat: Catalogue, e: World, t: string, w: World, action: Action)
    requires WellFormed(cat) && After(cat, e, t, w) && Alone(cat, w, action)
    ensures After(cat, e, t, Apply(cat, w, action))
  {
    match action
    case Step(o) =>
      if Behind(w) {
        OverrunKeeps(cat, e, t, w, o);
      } else if Running(w) {
        CurrentKeeps(cat, e, t, w, o);
      }
    case _ => EnvKeeps(cat, e, t, w, action);
  }

  /** Every run of the controller alone keeps the aftermath invariant. */
  lemma {:induction false} AloneRunKeeps(cat: Catalogue, e: World, t: string, w: World, actions: seq<Action>)
    requires WellFormed(cat) && After(cat, e, t, w) && AloneRun(cat, w, actions)
    ensures After(cat, e, t, Run(cat, w, actions))
    decreases |actions|
  {
    if actions != [] {
      AloneKeeps(cat, e, t, w, actions[0]);
      AloneRunKeeps(cat, e, t, Apply(cat, w, actions[0]), actions[1..]);
    }
  }

  /** In the window nothing but the goal's Deployment is up, and a running attempt is the goal's. */
  lemma WindowIsClear(cat: Catalogue, w: World)
    requires WellFormed(cat) && Safe(cat, w) && WindowOpen(cat, w)
    ensures Goal(cat, w).Some? && Goal(cat, w) != Owner(cat, w)
    ensures forall d :: Up(w, d) ==> Some(d) == Goal(cat, w)
    ensures Running(w) ==> !Stale(w)
  {
    if !(Goal(cat, w).Some? && Goal(cat, w) != Owner(cat, w) && Up(w, Goal(cat, w).value)) {
      var a := w.attempt.value;
      assert Progress(cat, w, a, 5);
      OwnerIsDown(cat, w, a, 5);
    }
  }

  lemma AfterEdit(cat: Catalogue, w: World, n: string)
    requires WellFormed(cat) && Safe(cat, w) && WindowOpen(cat, w) && n != w.active.spec
    ensures Goal(cat, w).Some?
    ensures var e := Apply(cat, w, EditSpec(n)); After(cat, e, Goal(cat, w).value, e)
  {
    WindowIsClear(cat, w);
    ApplyKeepsInv(cat, w, EditSpec(n));
    var e := Apply(cat, w, EditSpec(n));
    assert forall d :: Up(e, d) <==> Up(w, d);
  }

  /** A dangerous edit: the controller alone goes on to two Deployments up. */
  lemma DangerReachesTwo(cat: Catalogue, w: World, n: string) returns (bad: World)
    requires WellFormed(cat) && Safe(cat, w) && WindowOpen(cat, w) && n != w.active.spec && Dangerous(cat, w, n)
    ensures Reaches(cat, Apply(cat, w, EditSpec(n)), bad) && !AtMostOneUp(bad)
  {
    var e, t := Apply(cat, w, EditSpec(n)), Goal(cat, w).value;
    AfterEdit(cat, w, n);
    ReachHere(cat, e);
    var v := e;
    if !Up(e, t) {
      ReachOn(cat, e, e, Step(Smooth()));
      v := Apply(cat, e, Step(Smooth()));
      RaisesOld(cat, e, t);
    }
    ReachOn(cat, e, v, Crash);
    v := Apply(cat, v, Crash);
    bad := OvertakenReachesTwo(cat, e, t, v);
  }

  /** The overtaken patch lands, and leaves the rest as it is. */
  lemma RaisesOld(cat: Catalogue, e: World, t: string)
    requires WellFormed(cat) && CanRaise(cat, e, t)
    ensures var v := Apply(cat, e, Step(Smooth()));
            && Up(v, t) && v.active == e.active && v.cluster.Keys == e.cluster.Keys
            && forall d :: d in e.cluster && d != t ==> v.cluster[d] == e.cluster[d]
  {
    var a := e.attempt.value;
    PatchRaisesTarget(cat, e, a, cat.models[a.obj.spec], BackendOf(cat, a.obj.spec).value, Smooth());
  }

  /**
   * Exactly which spec edits inside the window break exclusion: after the edit the controller alone can
   * reach a state with two Deployments up if and only if the edit is dangerous.
   */
  lemma EditInWindowBreaksExclusionIff(cat: Catalogue, w: World, n: string)
    requires WellFormed(cat) && Safe(cat, w) && WindowOpen(cat, w) && n != w.active.spec
    ensures (exists bad :: Reaches(cat, Apply(cat, w, EditSpec(n)), bad) && !AtMostOneUp(bad)) <==> Dangerous(cat, w, n)
  {
    var e := Apply(cat, w, EditSpec(n));
    if Dangerous(cat, w, n) {
      var bad := DangerReachesTwo(cat, w, n);
    }
    if bad :| Reaches(cat, e, bad) && !AtMostOneUp(bad) {
      var t := Goal(cat, w).value;
      AfterEdit(cat, w, n);
      var actions :| AloneRun(cat, e, actions) && Run(cat, e, actions) == bad;
      AloneRunKeeps(cat, e, t, e, actions);
      TwoUpMeansDanger(cat, e, t, bad);
    }
  }
}

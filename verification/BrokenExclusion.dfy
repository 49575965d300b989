/**
 * Concrete runs of the controllers' own writers, from quiet starts, that end with two Deployments up:
 * one without each of the three provisos of the exclusion theorem.
 */
module BrokenExclusion {
  import opened Prelude
  import opened Transition
  import opened TransitionSafety
  import opened Exclusion
  import opened ExclusionExact
  import opened Aftermath
  import opened Provisos
  import S = StandardWriters
  import W = Workload

  const MAIN := W.Container("main", [], [], [], "")
  const POD := W.PodTemplate(map[], map[], [MAIN], [], "")

  function Asked(replicas: int): Live {
    Live(W.Deployment(map[], Some(replicas), map[], "Recreate", POD), 1, Observed(1, 0, 0, 0))
  }

  function Plain(name: string, backend: string): Model {
    Model(W.Runtime(name, [], None), "vllm", Some(backend), false)
  }

  /** Two models of one driver on two backends; the second backend creates its Deployment at the given baseline. */
  function Two(baseline: int): Catalogue {
    Catalogue(map["coder" := Plain("coder", "left"), "writer" := Plain("writer", "right")],
              map["left" := Backend("left", "main", 0, None),
                  "right" := Backend("right", "main", baseline, Some(W.Backend("main", POD, "Recreate", map[])))],
              map[], {}, false, STANDARD)
  }

  lemma TwoWellFormed(baseline: int)
    ensures WellFormed(Two(baseline))
    ensures forall n :: n in {"coder", "writer"} ==> Servable(Two(baseline), n)
    ensures BackendOf(Two(baseline), "coder") == Some(Two(baseline).backends["left"])
    ensures BackendOf(Two(baseline), "writer") == Some(Two(baseline).backends["right"])
  {
    S.StandardDependable();
  }

  /** The runtime container is there and no hub setting is, so the Deployment can be started for any model. */
  lemma Starts(cat: Catalogue, m: Model, b: Backend, replicas: int)
    requires cat.writers == STANDARD && b.container == "main"
    ensures Activatable(cat, m, b, Asked(replicas).d)
  {
    assert W.Find([MAIN], "main") == 0;
  }

  function FreshStart(): World {
    World(Active("coder", 1, 1, Status("", "", Unset, "", None, 0, 0)), map["left" := Asked(0), "right" := Asked(0)],
        None)
  }

  /** Both Deployments down, the first model requested for the first time: the controller gets to its patch. */
  lemma ToFirstPatch(cat: Catalogue) returns (w: World)
    requires cat == Two(0)
    ensures Reaches(cat, FreshStart(), w)
    ensures w.cluster == FreshStart().cluster && w.active.spec == "coder" && w.active.status.modelName == ""
    ensures w.active.status.backendType == ""
    ensures w.attempt.Some? && w.attempt.value.pc == At(Patch) && w.attempt.value.obj.spec == "coder"
  {
    TwoWellFormed(0);
    w := ToCache(cat, FreshStart());
    Starts(cat, cat.models["coder"], cat.backends["left"], 0);
    w := PastCache(cat, FreshStart(), w);
  }

  /** A current attempt for an uncached model passes the cache step. */
  lemma PastCache(cat: Catalogue, start: World, v: World) returns (w: World)
    requires Reaches(cat, start, v) && v.attempt.Some? && v.attempt.value.pc == Check(Cache)
    requires v.attempt.value.obj == v.active
    requires HasToken(v.active) && !cat.cacheManager && BackendOf(cat, v.active.spec).Some?
    requires var b := BackendOf(cat, v.active.spec).value;
             b.deployment in v.cluster && Activatable(cat, cat.models[v.active.spec], b, v.cluster[b.deployment].d)
    ensures Reaches(cat, start, w) && w.cluster == v.cluster && w.active == v.active
    ensures w.attempt.Some? && w.attempt.value.pc == At(Patch) && w.attempt.value.obj == v.active
  {
    ReachOn(cat, start, v, Step(Smooth()));
    w := Apply(cat, v, Step(Smooth()));
    assert w.attempt.value.pc == At(Cache);
    ReachOn(cat, start, w, Step(Smooth()));
    w := Apply(cat, w, Step(Smooth()));
    assert w.attempt.value.pc == Check(Patch);
    ReachOn(cat, start, w, Step(Smooth()));
    w := Apply(cat, w, Step(Smooth()));
  }

  lemma ToCache(cat: Catalogue, start: World) returns (w: World)
    requires cat == Two(0) && start == FreshStart()
    ensures Reaches(cat, start, w)
    ensures w.cluster == start.cluster && w.active.spec == "coder" && w.active.status.modelName == ""
    ensures w.active.status.backendType == ""
    ensures HasToken(w.active) && w.attempt.Some? && w.attempt.value.pc == Check(Cache)
    ensures w.attempt.value.obj == w.active
  {
    w := ToValidate(cat, start);
    ReachOn(cat, start, w, Step(Smooth()));
    w := Apply(cat, w, Step(Smooth()));
  }

  /** A model that is not the active one is requested; nothing else has happened yet. */
  ghost predicate JustRequested(cat: Catalogue, start: World) {
    && start.attempt.None? && Servable(cat, start.active.spec)
    && start.active.status.modelName != start.active.spec
    && start.active.status.transitionGeneration < start.active.generation
  }

  lemma ToValidate(cat: Catalogue, start: World) returns (w: World)
    requires JustRequested(cat, start)
    ensures Reaches(cat, start, w)
    ensures w.cluster == start.cluster && w.active.spec == start.active.spec
    ensures w.active.generation == start.active.generation
    ensures w.active.status.modelName == start.active.status.modelName
    ensures w.active.status.backendType == start.active.status.backendType
    ensures w.active.status.transitionFrom == start.active.status.modelName && HasToken(w.active)
    ensures w.attempt.Some? && w.attempt.value.pc == At(Validate) && w.attempt.value.obj == w.active
  {
    ReachHere(cat, start);
    ReachOn(cat, start, start, Begin);
    w := Apply(cat, start, Begin);
    ReachOn(cat, start, w, Step(Smooth()));
    w := Apply(cat, w, Step(Smooth()));
    assert w.attempt.value.pc == Token;
    ReachOn(cat, start, w, Step(Smooth()));
    w := Apply(cat, w, Step(Smooth()));
    assert w.attempt.value.pc == Check(Validate);
    ReachOn(cat, start, w, Step(Smooth()));
    w := Apply(cat, w, Step(Smooth()));
  }

  lemma {:induction false} AloneIsOrderly(cat: Catalogue, w: World, actions: seq<Action>)
    requires AloneRun(cat, w, actions)
    ensures OrderlyRun(cat, w, actions)
    decreases |actions|
  {
    if actions != [] {
      AloneIsOrderly(cat, Apply(cat, w, actions[0]), actions[1..]);
    }
  }

  lemma ReachedSafely(cat: Catalogue, start: World, w: World) returns (actions: seq<Action>)
    requires WellFormed(cat) && QuietStart(cat, start) && Reaches(cat, start, w)
    ensures OrderlyRun(cat, start, actions) && Run(cat, start, actions) == w && Safe(cat, w)
  {
    actions :| AloneRun(cat, start, actions) && Run(cat, start, actions) == w;
    AloneIsOrderly(cat, start, actions);
    SafeThroughout(cat, start, actions);
  }

  /** At the first patch, asking for the other model is dangerous. */
  lemma OtherIsDangerous(cat: Catalogue, w: World)
    requires cat == Two(0) && w.cluster == FreshStart().cluster
    requires w.active.spec == "coder" && w.active.status.modelName == "" && w.active.status.backendType == ""
    requires w.attempt.Some? && w.attempt.value.pc == At(Patch) && w.attempt.value.obj.spec == "coder"
    ensures WindowOpen(cat, w) && Dangerous(cat, w, "writer")
  {
    TwoWellFormed(0);
    Starts(cat, cat.models["coder"], cat.backends["left"], 0);
    Starts(cat, cat.models["writer"], cat.backends["right"], 0);
    var e := Apply(cat, w, EditSpec("writer"));
    assert Restartable(cat, e);
  }

  /** An orderly run, then one spec edit inside the window, then the controller alone: two Deployments up. */
  lemma EditInWindowHappens() returns (cat: Catalogue, start: World, actions: seq<Action>, n: string, bad: World)
    ensures cat.writers == STANDARD && WellFormed(cat) && QuietStart(cat, start) && OrderlyRun(cat, start, actions)
    ensures Reaches(cat, Apply(cat, Run(cat, start, actions), EditSpec(n)), bad) && !AtMostOneUp(bad)
  {
    cat, start, n := Two(0), FreshStart(), "writer";
    TwoWellFormed(0);
    var w := ToFirstPatch(cat);
    actions := ReachedSafely(cat, start, w);
    OtherIsDangerous(cat, w);
    bad := DangerReachesTwo(cat, w, n);
  }

  function ServingStart(): World {
    World(Active("writer", 2, 5, Status("coder", "vllm", Stable, "", Some(0), 1, 1)),
        map["left" := Asked(1), "right" := Asked(0)], None)
  }

  lemma UnlistedIsCareless(cat: Catalogue, w: World, lost: Oracle)
    requires cat == Two(0) && w.cluster == ServingStart().cluster && lost == Smooth().(lookup := Lookups(false, true))
    requires w.active.spec == "writer" && w.active.status.modelName == "coder" && w.active.status.backendType == "vllm"
    requires w.attempt.Some? && w.attempt.value.obj == w.active && w.active.status.transitionFrom == "coder"
    ensures !Answered(cat, w.attempt.value.obj, lost) && Careless(cat, w, lost)
  {
    TwoWellFormed(0);
    Starts(cat, cat.models["writer"], cat.backends["right"], 0);
  }

  /**
   * An orderly run, then one lookup of the previous model that fails, then the controller alone: two Deployments
   * up.
   */
  lemma LostLookupHappens() returns (cat: Catalogue, start: World, actions: seq<Action>, lost: Oracle, bad: World)
    ensures cat.writers == STANDARD && WellFormed(cat) && QuietStart(cat, start) && OrderlyRun(cat, start, actions)
    ensures Reaches(cat, Apply(cat, Run(cat, start, actions), Step(lost)), bad) && !AtMostOneUp(bad)
  {
    cat, start, lost := Two(0), ServingStart(), Smooth().(lookup := Lookups(false, true));
    TwoWellFormed(0);
    var w := ToValidate(cat, start);
    actions := ReachedSafely(cat, start, w);
    UnlistedIsCareless(cat, w, lost);
    bad := LostLookupReachesTwo(cat, w, lost);
  }

  /** One backend reconcile with a nonzero baseline beside a serving model: two Deployments up. */
  lemma BaselineHappens() returns (cat: Catalogue, start: World, backend: string)
    ensures cat.writers == STANDARD && WellFormed(cat) && QuietStart(cat, start)
    ensures !AtMostOneUp(Apply(cat, start, ReconcileBackend(backend)))
  {
    cat, start, backend := Two(1), ServingStart().(cluster := map["left" := Asked(1)]), "right";
    TwoWellFormed(1);
    assert Up(start, "left");
    BaselineBreaksExclusionIff(cat, start, backend);
  }
}

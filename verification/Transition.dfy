/**
 * The model-switch protocol as a state machine over the API server.
 *
 * One controller attempt runs at a time (MaxConcurrentReconciles is 1 and transitionMu is held);
 * every API call of the attempt is one step, and between any two steps the environment may edit
 * the spec, touch metadata, reconcile or create backend Deployments, report Deployment status or
 * crash the controller.  Reads are linearizable.  A status update is a compare-and-set on the
 * resource version; an update or patch that reports an error may still have landed.
 */
module Transition {
  import opened Prelude
  import W = Workload

  // ------------------------------------------------------------------ the API objects

  datatype Phase = Unset | Stable | Transitioning | Failed

  datatype Status = Status(modelName: string, backendType: string, phase: Phase, transitionFrom: string,
                           started: Option<int>, transitionGeneration: int, observedGeneration: int)

  /** LLMActiveModel: the requested model, the generation of the spec, the resource version, the status. */
  datatype Active = Active(spec: string, generation: int, version: nat, status: Status)

  datatype Observed = Observed(generation: int, replicas: int, updated: int, available: int)

  /** A Deployment with its own generation and what the Deployment controller last reported. */
  datatype Live = Live(d: W.Deployment, generation: int, observed: Observed)

  datatype Model = Model(runtime: W.Runtime, backendType: string, backendRef: Option<string>, cached: bool)

  datatype Backend = Backend(deployment: string, container: string, baseline: int, workload: Option<W.Backend>)

  /**
   * What the controllers read from and write to a Deployment.  The protocol is stated over any such
   * set of operations; STANDARD is the one the controllers use.
   */
  datatype Writers = Writers(
    activate: (W.Deployment, string, W.Runtime, string) -> Result<W.Deployment>,
    reconcile: (W.Deployment, W.Backend) -> W.Deployment,
    matches: (W.Deployment, string, W.Runtime) -> Option<bool>,
    offline: (W.Deployment, string) -> bool)

  const STANDARD := Writers(
    (d, container, m, stamp) => W.Activate(d, container, m, stamp),
    (d, b) => W.Reconcile(d, b),
    (d: W.Deployment, container: string, m: W.Runtime) =>
      if W.Has(d.template.containers, container) then Some(W.Matches(d, container, m)) else None,
    (d, container) => OfflineMode(d, container))

  /** The models and backends of the namespace, and the controller's own settings. */
  datatype Catalogue = Catalogue(
    models: map<string, Model>, backends: map<string, Backend>, defaults: map<string, string>,
    allowed: set<string>, cacheManager: bool, writers: Writers)

  /** findBackend for an explicit reference or for the first backend of a type. */
  function FindBackend(cat: Catalogue, backendType: string, ref: Option<string>): Option<Backend> {
    var name :=
      if ref.Some? then ref
      else if backendType in cat.defaults then Some(cat.defaults[backendType]) else None;
    if name.Some? && name.value in cat.backends then Some(cat.backends[name.value]) else None
  }

  function BackendOf(cat: Catalogue, model: string): Option<Backend> {
    if model in cat.models then FindBackend(cat, cat.models[model].backendType, cat.models[model].backendRef) else None
  }

  function BackendTypeOf(cat: Catalogue, model: string): Option<string> {
    if model in cat.models then Some(cat.models[model].backendType) else None
  }

  function DeploymentOf(cat: Catalogue, model: string): Option<string> {
    var b := BackendOf(cat, model);
    if b.Some? then Some(b.value.deployment) else None
  }

  /** The model exists, has a backend and passes the canary allowlist. */
  predicate Servable(cat: Catalogue, model: string) {
    && model in cat.models && BackendOf(cat, model).Some?
    && (cat.allowed == {} || model in cat.allowed)
  }

  // ------------------------------------------------------------------ the controller

  datatype CacheResult = Hot | Cold | External

  /** The work between two currency checks of executeTransition, in program order. */
  datatype Stage =
    | Validate | ScaleDown | AwaitDown | Cache | RecordCache | Patch | BeginRollout | AwaitRollout
    | BeginHealth | AwaitHealth | Collect | MarkActive | MarkPrevious | MarkStable

  datatype PC = Lookup | Refuse | Confirm | Token | Check(next: Stage) | At(stage: Stage) | Fail | Done

  datatype Event =
    | SawZero(deployment: string)
    | Ensured(result: CacheResult)
    | Patched(deployment: string, d: W.Deployment)
    | SawRollout(deployment: string)
    | SawHealthy

  /** Events in the order they happened, the latest outermost. */
  datatype Log = Nothing | Then(before: Log, last: Event)

  /**
   * One reconcile.  `obj` is the object as last read from or written to the API server; `lookup` says
   * which lookups of the previous model and of its backend were answered; `late`
   * counts the external effects performed after the live spec moved on to another generation.
   */
  datatype Attempt = Attempt(pc: PC, obj: Active, lookup: Lookups, previous: Option<string>, offline: bool,
                             ensured: Option<CacheResult>, patched: Option<W.Deployment>, log: Log, late: nat)

  datatype World = World(active: Active, cluster: map<string, Live>, attempt: Option<Attempt>)

  /** Whether listing the models, and then finding a backend, was answered. */
  datatype Lookups = Lookups(listed: bool, found: bool)

  const ANSWERED := Lookups(true, true)

  /** What the outside world answers to one step of the attempt. */
  datatype Oracle = Oracle(ok: bool, landed: bool, expired: bool, valid: bool, lookup: Lookups, healthy: bool,
                           ensured: Option<CacheResult>, now: int, stamp: string)

  datatype Action =
    | EditSpec(model: string)
    | EditMetadata
    | ReconcileBackend(backend: string)
    | Report(deployment: string, observed: Observed)
    | Crash
    | Begin
    | Step(o: Oracle)

  predicate Running(w: World) {
    w.attempt.Some? && !w.attempt.value.pc.Done?
  }

  /** The attempt's generation is no longer the live one. */
  predicate Stale(w: World)
    requires w.attempt.Some?
  {
    w.attempt.value.obj.generation != w.active.generation
  }

  function WithAttempt(w: World, a: Attempt): World { w.(attempt := Some(a)) }

  function Goto(w: World, a: Attempt, pc: PC): World { WithAttempt(w, a.(pc := pc)) }

  /** Goto after an external effect. */
  function GotoLate(w: World, a: Attempt, pc: PC): World {
    WithAttempt(w, a.(pc := pc, late := if a.obj.generation != w.active.generation then a.late + 1 else a.late))
  }

  /** A status update: lands only on the version the attempt holds; the reply may be lost. */
  function Update(w: World, a: Attempt, status: Status, o: Oracle, then': PC): World {
    var s := status.(observedGeneration := a.obj.generation);
    if a.obj.version == w.active.version && (o.ok || o.landed) then
      var next := if s == w.active.status then w.active else w.active.(status := s, version := w.active.version + 1);
      var a' := if o.ok then a.(obj := a.obj.(status := s, version := next.version), pc := then') else a.(pc := Done);
      World(next, w.cluster, Some(a'))
    else Goto(w, a, Done)
  }

  function Store(live: Live, d: W.Deployment): Live {
    if live.d == d then live else live.(d := d, generation := live.generation + 1)
  }

  predicate NeedsToken(obj: Active) {
    var s := obj.status;
    && !(s.phase == Failed && s.transitionGeneration == obj.generation)
    && (s.phase != Transitioning || s.transitionGeneration != obj.generation || s.started.None?)
  }

  function StepLookup(cat: Catalogue, w: World, a: Attempt, o: Oracle): World {
    var n, s := a.obj.spec, a.obj.status;
    if n !in cat.models || BackendOf(cat, n).None? || o.lookup != ANSWERED then Goto(w, a, Refuse)
    else
      var m, b := cat.models[n], BackendOf(cat, n).value;
      var refused := !Servable(cat, n);
      if s.modelName == n && s.backendType == m.backendType then
        if !o.ok || b.deployment !in w.cluster then Goto(w, a, Done)
        else
          var matches := cat.writers.matches(w.cluster[b.deployment].d, b.container, m.runtime);
          if matches.None? then Goto(w, a, Done)
          else if matches.value then Goto(w, a, if s.phase == Stable then Done else Confirm)
          else Goto(w, a, if refused then Refuse else Token)
      else Goto(w, a, if refused then Refuse else Token)
  }

  function StepToken(w: World, a: Attempt, o: Oracle): World {
    if NeedsToken(a.obj) then
      Update(w, a, a.obj.status.(phase := Transitioning, transitionFrom := a.obj.status.modelName,
                                 started := Some(o.now), transitionGeneration := a.obj.generation), o, Check(Validate))
    else Goto(w, a, Check(Validate))
  }

  /** ensureTransitionCurrent, and what each call site does with its error. */
  function StepCheck(w: World, a: Attempt, next: Stage, o: Oracle): World {
    var changed :=
      || w.active.generation != a.obj.generation
      || w.active.spec != a.obj.spec
      || w.active.status.transitionGeneration != a.obj.generation;
    if (next.AwaitDown? || next.AwaitRollout?) && o.expired then Goto(w, a, Fail)
    else if !o.ok then Goto(w, a, if next.AwaitDown? || next.AwaitRollout? || next.AwaitHealth? then Fail else Done)
    else if changed then Goto(w, a, if next.AwaitHealth? then Fail else Done)
    else Goto(w, a, At(next))
  }

  /** The Deployment to scale down before the target starts; None when the lookups name none or the target's own. */
  function PreviousOf(cat: Catalogue, obj: Active, lookup: Lookups): Result<Option<string>> {
    var s, target := obj.status, DeploymentOf(cat, obj.spec);
    var known := s.transitionFrom != "" && s.transitionFrom in cat.models && lookup.listed;
    if known && (!lookup.found || BackendOf(cat, s.transitionFrom).None?) then Failure("previous backend not found")
    else
      var b :=
        if known then BackendOf(cat, s.transitionFrom)
        else if s.backendType != "" && Some(s.backendType) != BackendTypeOf(cat, obj.spec) && lookup.found
        then FindBackend(cat, s.backendType, None)
        else None;
      Success(if b.Some? && Some(b.value.deployment) != target then Some(b.value.deployment) else None)
  }

  function StepValidate(cat: Catalogue, w: World, a: Attempt, o: Oracle): World {
    var p := PreviousOf(cat, a.obj, o.lookup);
    if !o.valid || p.Failure? then Goto(w, a, Fail)
    else Goto(w, a.(lookup := o.lookup, previous := p.value), Check(if p.value.Some? then ScaleDown else Cache))
  }

  function StepScaleDown(w: World, a: Attempt, p: string, o: Oracle): World {
    if p !in w.cluster || !(o.ok || o.landed) then GotoLate(w, a, Fail)
    else
      var live := w.cluster[p];
      var w' := w.(cluster := w.cluster[p := Store(live, live.d.(replicas := Some(0)))]);
      GotoLate(w', a, if o.ok then Check(AwaitDown) else Fail)
  }

  function StepAwaitDown(w: World, a: Attempt, p: string, o: Oracle): World {
    if !o.ok || p !in w.cluster then Goto(w, a, Fail)
    else if w.cluster[p].observed.replicas == 0 && w.cluster[p].observed.available == 0
    then Goto(w, a.(log := Then(a.log, SawZero(p))), Check(Cache))
    else Goto(w, a, Check(AwaitDown))
  }

  function Lower(v: string): string {
    seq(|v|, i requires 0 <= i < |v| => if 'A' <= v[i] <= 'Z' then v[i] - 'A' + 'a' else v[i])
  }

  function TrimSpace(v: string): string {
    if v != "" && v[0] in " \t\n\r" then TrimSpace(v[1..])
    else if v != "" && v[|v| - 1] in " \t\n\r" then TrimSpace(v[..|v| - 1])
    else v
  }

  predicate Truthy(v: string) {
    v == "1" || Lower(TrimSpace(v)) in {"true", "yes", "on"}
  }

  /** backendOfflineMode: the first HF_HUB_OFFLINE of the runtime container decides. */
  predicate OfflineMode(d: W.Deployment, container: string) {
    var cs := d.template.containers;
    W.Has(cs, container) &&
    var offline := Filter((e: W.EnvVar) => e.name == "HF_HUB_OFFLINE", cs[W.Find(cs, container)].env);
    offline != [] && Truthy(offline[0].value)
  }

  function StepCache(cat: Catalogue, w: World, a: Attempt, m: Model, b: Backend, o: Oracle): World {
    if !o.valid || !o.ok || b.deployment !in w.cluster then Goto(w, a, Fail)
    else
      var a' := a.(offline := cat.writers.offline(w.cluster[b.deployment].d, b.container));
      if m.cached && cat.cacheManager then
        if o.ensured.None? || (a'.offline && o.ensured != Some(Hot)) then GotoLate(w, a', Fail)
        else GotoLate(w, a'.(ensured := o.ensured, log := Then(a.log, Ensured(o.ensured.value))), Check(RecordCache))
      else Goto(w, a', if a'.offline then Fail else Check(Patch))
  }

  function StepPatch(cat: Catalogue, w: World, a: Attempt, m: Model, b: Backend, o: Oracle): World {
    if b.deployment !in w.cluster || !(o.ok || o.landed) then GotoLate(w, a, Fail)
    else
      var live := w.cluster[b.deployment];
      var r := cat.writers.activate(live.d, b.container, m.runtime, o.stamp);
      if r.Failure? then GotoLate(w, a, Fail)
      else
        var w' := w.(cluster := w.cluster[b.deployment := Store(live, r.value)]);
        if o.ok then
          var a' := a.(patched := Some(r.value), log := Then(a.log, Patched(b.deployment, r.value)));
          GotoLate(w', a', Check(BeginRollout))
        else GotoLate(w', a, Fail)
  }

  function StepAwaitRollout(w: World, a: Attempt, t: string, o: Oracle): World {
    if !o.ok || t !in w.cluster then Goto(w, a, Fail)
    else
      var live := w.cluster[t];
      if live.observed.generation >= live.generation && live.observed.updated == 1 && live.observed.available == 1
      then Goto(w, a.(log := Then(a.log, SawRollout(t))), Check(BeginHealth))
      else Goto(w, a, Check(AwaitRollout))
  }

  function StepAwaitHealth(w: World, a: Attempt, o: Oracle): World {
    if o.healthy then Goto(w, a.(log := Then(a.log, SawHealthy)), Check(Collect))
    else Goto(w, a, if o.expired then Fail else Check(AwaitHealth))
  }

  function StepMarkPrevious(cat: Catalogue, w: World, a: Attempt, o: Oracle): World {
    var from := a.obj.status.transitionFrom;
    if from != "" && from != a.obj.spec && from in cat.models && o.lookup.listed
    then GotoLate(w, a, if o.ok then Check(MarkStable) else Done)
    else Goto(w, a, Check(MarkStable))
  }

  function StepMarkStable(w: World, a: Attempt, m: Model, o: Oracle): World {
    Update(w, a, a.obj.status.(modelName := a.obj.spec, backendType := m.backendType, phase := Stable), o, Done)
  }

  /** A stage of an attempt whose target and previous Deployment were looked up earlier. */
  function StepStage(cat: Catalogue, w: World, a: Attempt, s: Stage, m: Model, b: Backend, o: Oracle): World {
    match s
    case Validate => StepValidate(cat, w, a, o)
    case ScaleDown => if a.previous.Some? then StepScaleDown(w, a, a.previous.value, o) else Goto(w, a, Check(Cache))
    case AwaitDown => if a.previous.Some? then StepAwaitDown(w, a, a.previous.value, o) else Goto(w, a, Check(Cache))
    case Cache => StepCache(cat, w, a, m, b, o)
    case RecordCache => GotoLate(w, a, if o.ok then Check(Patch) else Done)
    case Patch => StepPatch(cat, w, a, m, b, o)
    case BeginRollout => Goto(w, a, Check(AwaitRollout))
    case AwaitRollout => StepAwaitRollout(w, a, b.deployment, o)
    case BeginHealth => Goto(w, a, Check(AwaitHealth))
    case AwaitHealth => StepAwaitHealth(w, a, o)
    case Collect => Goto(w, a, Check(MarkActive))
    case MarkActive => GotoLate(w, a, if o.ok then Check(MarkPrevious) else Done)
    case MarkPrevious => StepMarkPrevious(cat, w, a, o)
    case MarkStable => StepMarkStable(w, a, m, o)
  }

  function StepAttempt(cat: Catalogue, w: World, a: Attempt, o: Oracle): World {
    match a.pc
    case Lookup => StepLookup(cat, w, a, o)
    case Refuse => Update(w, a, a.obj.status.(phase := Failed), o, Done)
    case Confirm => Update(w, a, a.obj.status.(phase := Stable), o, Done)
    case Token => StepToken(w, a, o)
    case Check(next) => StepCheck(w, a, next, o)
    case At(s) =>
      var b := BackendOf(cat, a.obj.spec);
      if b.Some? then StepStage(cat, w, a, s, cat.models[a.obj.spec], b.value, o) else Goto(w, a, Done)
    case Fail => Update(w, a, a.obj.status.(phase := Failed), o, Done)
    case Done => w
  }

  // ------------------------------------------------------------------ the environment

  function StepReconcileBackend(cat: Catalogue, w: World, name: string): World {
    if name !in cat.backends || cat.backends[name].workload.None? then w
    else
      var b := cat.backends[name];
      if b.deployment in w.cluster then
        var live := w.cluster[b.deployment];
        w.(cluster := w.cluster[b.deployment := Store(live, cat.writers.reconcile(live.d, b.workload.value))])
      else
        var spec := b.workload.value;
        var pod := spec.template.(labels := W.MergeLabels(spec.template.labels, spec.labels));
        w.(cluster := w.cluster[b.deployment :=
             Live(W.Deployment(spec.labels, Some(b.baseline), spec.labels, spec.strategy, pod), 1,
                 Observed(0, 0, 0, 0))])
  }

  function Apply(cat: Catalogue, w: World, action: Action): World {
    match action
    case EditSpec(n) =>
      if n == w.active.spec then w
      else w.(active := w.active.(spec := n, generation := w.active.generation + 1, version := w.active.version + 1))
    case EditMetadata => w.(active := w.active.(version := w.active.version + 1))
    case ReconcileBackend(b) => StepReconcileBackend(cat, w, b)
    case Report(d, observed) =>
      if d in w.cluster then w.(cluster := w.cluster[d := w.cluster[d].(observed := observed)]) else w
    case Crash => w.(attempt := None)
    case Begin =>
      if Running(w) then w
      else WithAttempt(w, Attempt(Lookup, w.active, ANSWERED, None, false, None, None, Nothing, 0))
    case Step(o) =>
      if w.attempt.Some? then StepAttempt(cat, w, w.attempt.value, o) else w
  }

  /** The world after a run. */
  function Run(cat: Catalogue, w: World, actions: seq<Action>): World
    decreases |actions|
  {
    if actions == [] then w else Run(cat, Apply(cat, w, actions[0]), actions[1..])
  }
}

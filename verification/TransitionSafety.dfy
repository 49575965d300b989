/** What every step of the switch protocol keeps, and what follows for whole runs. */
module TransitionSafety {
  import opened Prelude
  import opened Transition
  import W = Workload

  // ------------------------------------------------------------------ the status

  /** The token of the current generation has been written. */
  predicate HasToken(obj: Active) {
    obj.status.transitionGeneration == obj.generation
  }

  predicate PastToken(pc: PC) {
    pc.Check? || pc.At? || pc.Fail?
  }

  ghost predicate StatusInv(cat: Catalogue, x: Active) {
    && x.generation >= 1
    && x.status.transitionGeneration <= x.generation && x.status.observedGeneration <= x.generation
    && (x.status.phase == Stable && x.status.observedGeneration == x.generation ==> x.status.modelName == x.spec)
    && (x.status.transitionGeneration >= 1 ==> x.status.started.Some?)
    && (HasToken(x) ==> Servable(cat, x.spec))
    && (HasToken(x) && x.status.phase != Stable ==>
          x.status.transitionFrom == x.status.modelName || x.status.modelName == x.spec)
    && (HasToken(x) && x.status.phase == Stable ==> x.status.modelName == x.spec)
  }

  /** The attempt's copy agrees with the live object for as long as the generation stands. */
  ghost predicate AttemptInv(cat: Catalogue, x: Active, a: Attempt) {
    !a.pc.Done? ==>
      && StatusInv(cat, a.obj)
      && a.obj.generation <= x.generation && a.obj.version <= x.version
      && (a.obj.generation == x.generation ==> a.obj.spec == x.spec && a.obj.status == x.status)
      && (a.obj.version == x.version ==> a.obj == x)
      && (a.pc.Token? || PastToken(a.pc) ==> Servable(cat, a.obj.spec))
      && (a.pc.Confirm? ==> a.obj.status.modelName == a.obj.spec)
      && (PastToken(a.pc) ==> HasToken(a.obj) && a.obj.status.phase in {Transitioning, Failed})
  }

  ghost predicate Inv(cat: Catalogue, w: World) {
    && StatusInv(cat, w.active)
    && (w.attempt.Some? ==> AttemptInv(cat, w.active, w.attempt.value))
  }

  lemma UpdateKeepsInv(cat: Catalogue, w: World, a: Attempt, s: Status, o: Oracle, next: PC)
    requires StatusInv(cat, w.active) && AttemptInv(cat, w.active, a) && !a.pc.Done?
    requires var s' := s.(observedGeneration := a.obj.generation); StatusInv(cat, a.obj.(status := s'))
    requires next.Done? || (next == Check(Validate) && Servable(cat, a.obj.spec) && s.phase == Transitioning
                            && s.started.Some? && s.transitionGeneration == a.obj.generation
                            && s.transitionFrom == s.modelName)
    ensures Inv(cat, Update(w, a, s, o, next))
  {
  }

  /** A stage other than the last leaves the active-model object, and the attempt's copy of it, alone. */
  lemma StageFollows(cat: Catalogue, w: World, a: Attempt, s: Stage, m: Model, b: Backend, o: Oracle)
    requires !s.MarkStable?
    ensures var w' := StepStage(cat, w, a, s, m, b, o);
            && w'.active == w.active && w'.attempt.Some? && w'.attempt.value.obj == a.obj
            && (w'.attempt.value.pc.Done? || w'.attempt.value.pc.Fail? || w'.attempt.value.pc.Check?)
  {
  }

  lemma StageKeepsInv(cat: Catalogue, w: World, a: Attempt, s: Stage, m: Model, b: Backend, o: Oracle)
    requires Inv(cat, w) && w.attempt == Some(a) && a.pc == At(s)
    ensures Inv(cat, StepStage(cat, w, a, s, m, b, o))
  {
    if s.MarkStable? {
      UpdateKeepsInv(cat, w, a, a.obj.status.(modelName := a.obj.spec, backendType := m.backendType, phase := Stable),
          o, Done);
    } else {
      StageFollows(cat, w, a, s, m, b, o);
    }
  }

  lemma TokenKeepsInv(cat: Catalogue, w: World, a: Attempt, o: Oracle)
    requires Inv(cat, w) && w.attempt == Some(a) && a.pc.Token?
    ensures Inv(cat, StepToken(w, a, o))
  {
    if NeedsToken(a.obj) {
      UpdateKeepsInv(cat, w, a, a.obj.status.(phase := Transitioning, transitionFrom := a.obj.status.modelName,
                                              started := Some(o.now), transitionGeneration := a.obj.generation),
                     o, Check(Validate));
    }
  }

  /**
   * A check that is answered reads only, and goes on to its stage exactly when generation, model and token are the
   * attempt's.
   */
  lemma CheckGoesOn(w: World, a: Attempt, next: Stage, o: Oracle)
    ensures var w' := StepCheck(w, a, next, o);
            && w' == w.(attempt := w'.attempt) && w'.attempt.Some?
            && var a' := w'.attempt.value;
               && a' == a.(pc := a'.pc)
               && (a'.pc == At(next) || a'.pc.Fail? || a'.pc.Done?)
               && (a'.pc == At(next) <==>
                     && o.ok && !((next.AwaitDown? || next.AwaitRollout?) && o.expired)
                     && w.active.generation == a.obj.generation && w.active.spec == a.obj.spec
                     && w.active.status.transitionGeneration == a.obj.generation)
  {
  }

  lemma StepKeepsInv(cat: Catalogue, w: World, a: Attempt, o: Oracle)
    requires Inv(cat, w) && w.attempt == Some(a)
    ensures Inv(cat, StepAttempt(cat, w, a, o))
  {
    match a.pc
    case Lookup =>
      LookupGoesOn(cat, w, a, o);
    case Refuse =>
      UpdateKeepsInv(cat, w, a, a.obj.status.(phase := Failed), o, Done);
    case Confirm =>
      UpdateKeepsInv(cat, w, a, a.obj.status.(phase := Stable), o, Done);
    case Token =>
      TokenKeepsInv(cat, w, a, o);
    case Check(next) =>
      CheckGoesOn(w, a, next, o);
    case At(s) =>
      StageKeepsInv(cat, w, a, s, cat.models[a.obj.spec], BackendOf(cat, a.obj.spec).value, o);
    case Fail =>
      UpdateKeepsInv(cat, w, a, a.obj.status.(phase := Failed), o, Done);
    case Done =>
  }

  lemma LookupGoesOn(cat: Catalogue, w: World, a: Attempt, o: Oracle)
    ensures var w' := StepLookup(cat, w, a, o);
            && w'.active == w.active && w'.cluster == w.cluster && w'.attempt.Some?
            && var a' := w'.attempt.value;
               && a' == a.(pc := a'.pc)
               && (a'.pc.Refuse? || a'.pc.Done? || a'.pc.Confirm? || a'.pc.Token?)
               && (a'.pc.Token? ==> Servable(cat, a.obj.spec))
               && (a'.pc.Confirm? ==> a.obj.status.modelName == a.obj.spec && BackendOf(cat, a.obj.spec).Some?)
  {
  }

  /** Every action of every party keeps the status invariant. */
  lemma ApplyKeepsInv(cat: Catalogue, w: World, action: Action)
    requires Inv(cat, w)
    ensures Inv(cat, Apply(cat, w, action))
  {
    match action
    case Step(o) => if w.attempt.Some? { StepKeepsInv(cat, w, w.attempt.value, o); }
    case ReconcileBackend(b) =>
      var w' := StepReconcileBackend(cat, w, b);
      assert w'.attempt == w.attempt && w'.active == w.active;
    case _ =>
  }

  lemma {:induction false} RunKeepsInv(cat: Catalogue, w: World, actions: seq<Action>)
    requires Inv(cat, w)
    ensures Inv(cat, Run(cat, w, actions))
    decreases |actions|
  {
    if actions != [] {
      ApplyKeepsInv(cat, w, actions[0]);
      RunKeepsInv(cat, Apply(cat, w, actions[0]), actions[1..]);
    }
  }

  /** A freshly created LLMActiveModel, before any controller has touched it. */
  predicate Fresh(w: World) {
    && w.attempt.None? && w.active.generation >= 1
    && w.active.status == Status("", "", Unset, "", None, 0, 0)
  }

  lemma FreshInv(cat: Catalogue, w: World)
    requires Fresh(w)
    ensures Inv(cat, w)
  {
  }

  /**
   * In every run from a fresh object: Stable for the current generation names the requested model,
   * and a recorded generation token comes with its start time.
   */
  lemma StatusTruthful(cat: Catalogue, w: World, actions: seq<Action>)
    requires Fresh(w)
    ensures var x := Run(cat, w, actions).active;
            && (x.status.phase == Stable && x.status.observedGeneration == x.generation ==>
                  x.status.modelName == x.spec)
            && (x.status.transitionGeneration >= 1 ==> x.status.started.Some?)
  {
    FreshInv(cat, w);
    RunKeepsInv(cat, w, actions);
  }

  /** The start time read when the transition is declared Stable is always set. */
  lemma StartedSetAtStable(cat: Catalogue, w: World, actions: seq<Action>)
    requires Inv(cat, w)
    ensures var r := Run(cat, w, actions);
            r.attempt.Some? && r.attempt.value.pc == At(MarkStable) ==> r.attempt.value.obj.status.started.Some?
  {
    RunKeepsInv(cat, w, actions);
  }

  /** A failure of the current generation is never hidden behind Transitioning again. */
  lemma FailedStaysVisible(cat: Catalogue, w: World, action: Action)
    requires Inv(cat, w)
    requires w.active.status.phase == Failed && HasToken(w.active)
    ensures Apply(cat, w, action).active.status.phase != Transitioning
  {
    match action
    case Step(o) =>
      if w.attempt.Some? {
        var a := w.attempt.value;
        match a.pc
        case Lookup => LookupGoesOn(cat, w, a, o);
        case At(s) =>
          if !s.MarkStable? {
            StageFollows(cat, w, a, s, cat.models[a.obj.spec], BackendOf(cat, a.obj.spec).value, o);
          }
        case _ =>
      }
    case ReconcileBackend(b) => assert StepReconcileBackend(cat, w, b).active == w.active;
    case _ =>
  }

  // ------------------------------------------------------------------ overtaken attempts

  /** An attempt whose generation has passed changes nothing on the active-model object. */
  lemma StaleAttemptNeverWrites(cat: Catalogue, w: World, o: Oracle)
    requires Inv(cat, w) && Running(w) && Stale(w)
    ensures Apply(cat, w, Step(o)).active == w.active
  {
    var a := w.attempt.value;
    match a.pc
    case Lookup => LookupGoesOn(cat, w, a, o);
    case At(s) =>
      if !s.MarkStable? {
        StageFollows(cat, w, a, s, cat.models[a.obj.spec], BackendOf(cat, a.obj.spec).value, o);
      }
    case _ =>
  }

  /** At most one effect after the spec moved on, and then no stage is entered again. */
  ghost predicate LateInv(w: World) {
    w.attempt.Some? ==>
      var a := w.attempt.value;
      && a.late <= 1
      && (a.late == 1 ==> Stale(w) && (a.pc.Check? || a.pc.Fail? || a.pc.Done?))
      && (a.late == 1 ==> a.obj.generation < w.active.generation)
  }

  lemma StageKeepsLate(cat: Catalogue, w: World, a: Attempt, s: Stage, m: Model, b: Backend, o: Oracle)
    requires Inv(cat, w) && w.attempt == Some(a) && a.pc == At(s) && a.late == 0
    ensures LateInv(StepStage(cat, w, a, s, m, b, o))
  {
    if !s.MarkStable? {
      StageFollows(cat, w, a, s, m, b, o);
    }
  }

  lemma StepKeepsLate(cat: Catalogue, w: World, a: Attempt, o: Oracle)
    requires Inv(cat, w) && LateInv(w) && w.attempt == Some(a)
    ensures LateInv(StepAttempt(cat, w, a, o))
  {
    match a.pc
    case Lookup => LookupGoesOn(cat, w, a, o);
    case At(s) => StageKeepsLate(cat, w, a, s, cat.models[a.obj.spec], BackendOf(cat, a.obj.spec).value, o);
    case Check(next) => CheckGoesOn(w, a, next, o);
    case _ =>
  }

  lemma ApplyKeepsLate(cat: Catalogue, w: World, action: Action)
    requires Inv(cat, w) && LateInv(w)
    ensures LateInv(Apply(cat, w, action))
  {
    match action
    case Step(o) => if w.attempt.Some? { StepKeepsLate(cat, w, w.attempt.value, o); }
    case ReconcileBackend(b) =>
      var w' := StepReconcileBackend(cat, w, b);
      assert w'.attempt == w.attempt && w'.active == w.active;
    case _ =>
  }

  /** In every run, no attempt performs more than one external effect after its generation has passed. */
  lemma {:induction false} AtMostOneLateEffect(cat: Catalogue, w: World, actions: seq<Action>)
    requires Inv(cat, w) && LateInv(w)
    ensures var r := Run(cat, w, actions); r.attempt.Some? ==> r.attempt.value.late <= 1
    decreases |actions|
  {
    if actions != [] {
      ApplyKeepsInv(cat, w, actions[0]);
      ApplyKeepsLate(cat, w, actions[0]);
      AtMostOneLateEffect(cat, Apply(cat, w, actions[0]), actions[1..]);
    }
  }

  // ------------------------------------------------------------------ what a Stable write rests on

  function Rank(s: Stage): nat {
    match s
    case Validate => 0  case ScaleDown => 1  case AwaitDown => 2  case Cache => 3  case RecordCache => 4
    case Patch => 5  case BeginRollout => 6  case AwaitRollout => 7  case BeginHealth => 8  case AwaitHealth => 9
    case Collect => 10  case MarkActive => 11  case MarkPrevious => 12  case MarkStable => 13
  }

  /** The evidence gathered before the stage of rank `r`, in the order it is gathered. */
  function Evidence(
      target: string, previous: Option<string>, ensured: Option<CacheResult>, patched: Option<W.Deployment>,
      r: nat): Log
    requires r >= 6 ==> patched.Some?
  {
    var down := if r >= 3 && previous.Some? then Then(Nothing, SawZero(previous.value)) else Nothing;
    var cached := if r >= 4 && ensured.Some? then Then(down, Ensured(ensured.value)) else down;
    var started := if r >= 6 then Then(cached, Patched(target, patched.value)) else cached;
    var rolled := if r >= 8 then Then(started, SawRollout(target)) else started;
    if r >= 10 then Then(rolled, SawHealthy) else rolled
  }

  /** What an attempt at the stage of rank `r` knows. */
  ghost predicate EvidenceAt(cat: Catalogue, a: Attempt, b: Backend, r: nat) {
    && (r >= 1 ==> PreviousOf(cat, a.obj, a.lookup) == Success(a.previous))
    && (r == 1 || r == 2 ==> a.previous.Some?)
    && (r < 4 ==> a.ensured.None?)
    && (r >= 4 && a.offline ==> a.ensured == Some(Hot))
    && (if r < 6 then a.patched.None? else a.patched.Some? && Serves(cat, a.obj.spec, b, a.patched.value))
    && a.log == Evidence(b.deployment, a.previous, a.ensured, a.patched, r)
  }

  /** The Deployment runs the model: it matches, at one replica. */
  ghost predicate Serves(cat: Catalogue, model: string, b: Backend, d: W.Deployment) {
    && model in cat.models && d.replicas == Some(1)
    && cat.writers.matches(d, b.container, cat.models[model].runtime) == Some(true)
  }

  ghost predicate EvidenceInv(cat: Catalogue, a: Attempt) {
    && (a.pc.Lookup? || a.pc.Refuse? || a.pc.Confirm? || a.pc.Token? ==>
          a.log == Nothing && a.ensured.None? && a.patched.None?)
    && (a.pc.Token? || a.pc.Check? || a.pc.At? ==> BackendOf(cat, a.obj.spec).Some?)
    && (a.pc.Check? ==> EvidenceAt(cat, a, BackendOf(cat, a.obj.spec).value, Rank(a.pc.next)))
    && (a.pc.At? ==> EvidenceAt(cat, a, BackendOf(cat, a.obj.spec).value, Rank(a.pc.stage)))
  }

  /** What the protocol needs of the two Deployment writers. */
  ghost predicate Dependable(ws: Writers) {
    && (forall d, container, m, stamp :: ws.activate(d, container, m, stamp).Success? ==>
          && ws.activate(d, container, m, stamp).value.replicas == Some(1)
          && ws.matches(ws.activate(d, container, m, stamp).value, container, m) == Some(true))
    && (forall d, b :: ws.reconcile(d, b).replicas == d.replicas)
    && (forall d, b, m :: W.WellFormedBackend(b) && ws.matches(d, b.container, m) == Some(true) ==>
          ws.matches(ws.reconcile(d, b), b.container, m) == Some(true))
    && (forall d, replicas, container, m, stamp, stamp' :: SameButScaled(ws, d, replicas, container, m, stamp, stamp'))
  }

  /** Neither the replica count nor the clock decides whether a model can be activated, matches or is offline. */
  predicate SameButScaled(
      ws: Writers, d: W.Deployment, replicas: Option<int>, container: string, m: W.Runtime, stamp: string,
      stamp': string)
  {
    var d' := d.(replicas := replicas);
    && (ws.activate(d', container, m, stamp').Success? <==> ws.activate(d, container, m, stamp).Success?)
    && ws.matches(d', container, m) == ws.matches(d, container, m)
    && (ws.offline(d', container) <==> ws.offline(d, container))
  }

  ghost predicate Witnesses(cat: Catalogue, w: World) {
    w.attempt.Some? ==> EvidenceInv(cat, w.attempt.value)
  }

  lemma DownEvidence(cat: Catalogue, w: World, a: Attempt, p: string, o: Oracle)
    requires EvidenceInv(cat, a) && a.previous == Some(p)
    ensures a.pc == At(ScaleDown) ==> Witnesses(cat, StepScaleDown(w, a, p, o))
    ensures a.pc == At(AwaitDown) ==> Witnesses(cat, StepAwaitDown(w, a, p, o))
  {
  }

  lemma CacheEvidence(cat: Catalogue, w: World, a: Attempt, m: Model, b: Backend, o: Oracle)
    requires a.pc == At(Cache) && EvidenceInv(cat, a) && BackendOf(cat, a.obj.spec) == Some(b)
    ensures Witnesses(cat, StepCache(cat, w, a, m, b, o))
  {
  }

  lemma PatchEvidence(cat: Catalogue, w: World, a: Attempt, m: Model, b: Backend, o: Oracle)
    requires a.pc == At(Patch) && EvidenceInv(cat, a) && Dependable(cat.writers)
    requires BackendOf(cat, a.obj.spec) == Some(b) && m == cat.models[a.obj.spec]
    ensures Witnesses(cat, StepPatch(cat, w, a, m, b, o))
  {
  }

  lemma RolloutEvidence(cat: Catalogue, w: World, a: Attempt, b: Backend, o: Oracle)
    requires a.pc == At(AwaitRollout) && EvidenceInv(cat, a) && BackendOf(cat, a.obj.spec) == Some(b)
    ensures Witnesses(cat, StepAwaitRollout(w, a, b.deployment, o))
  {
  }

  lemma HealthEvidence(cat: Catalogue, w: World, a: Attempt, o: Oracle)
    requires a.pc == At(AwaitHealth) && EvidenceInv(cat, a)
    ensures Witnesses(cat, StepAwaitHealth(w, a, o))
  {
  }

  /** A stage that gathers no evidence hands on what it has. */
  lemma QuietEvidence(cat: Catalogue, a: Attempt, b: Backend, r: nat, next: Stage, late: nat)
    requires a.pc.At? && Rank(a.pc.stage) == r && EvidenceInv(cat, a) && BackendOf(cat, a.obj.spec) == Some(b)
    requires (r == 4 && next.Patch?) || (r == 6 && next.AwaitRollout?) || (r == 8 && next.AwaitHealth?)
          || (r == 10 && next.MarkActive?) || (r == 11 && next.MarkPrevious?) || (r == 12 && next.MarkStable?)
    ensures EvidenceInv(cat, a.(pc := Check(next), late := late))
  {
    assert EvidenceAt(cat, a, b, r);
    assert Evidence(b.deployment, a.previous, a.ensured, a.patched, r) ==
        Evidence(b.deployment, a.previous, a.ensured, a.patched, Rank(next));
    assert EvidenceAt(cat, a.(pc := Check(next), late := late), b, Rank(next));
  }

  lemma EarlyEvidence(cat: Catalogue, w: World, a: Attempt, s: Stage, m: Model, b: Backend, o: Oracle)
    requires a.pc == At(s) && EvidenceInv(cat, a) && Dependable(cat.writers) && Rank(s) <= 5
    requires BackendOf(cat, a.obj.spec) == Some(b) && m == cat.models[a.obj.spec]
    ensures Witnesses(cat, StepStage(cat, w, a, s, m, b, o))
  {
    match s
    case ScaleDown => DownEvidence(cat, w, a, a.previous.value, o);
    case AwaitDown => DownEvidence(cat, w, a, a.previous.value, o);
    case Cache => CacheEvidence(cat, w, a, m, b, o);
    case RecordCache =>
      QuietEvidence(cat, a, b, 4, Patch, if a.obj.generation != w.active.generation then a.late + 1 else a.late);
    case Patch => PatchEvidence(cat, w, a, m, b, o);
    case _ =>
  }

  lemma LateEvidence(cat: Catalogue, w: World, a: Attempt, s: Stage, m: Model, b: Backend, o: Oracle)
    requires a.pc == At(s) && EvidenceInv(cat, a) && Rank(s) >= 6
    requires BackendOf(cat, a.obj.spec) == Some(b)
    ensures Witnesses(cat, StepStage(cat, w, a, s, m, b, o))
  {
    var late := if a.obj.generation != w.active.generation then a.late + 1 else a.late;
    match s
    case BeginRollout => QuietEvidence(cat, a, b, 6, AwaitRollout, a.late);
    case AwaitRollout => RolloutEvidence(cat, w, a, b, o);
    case BeginHealth => QuietEvidence(cat, a, b, 8, AwaitHealth, a.late);
    case AwaitHealth => HealthEvidence(cat, w, a, o);
    case Collect => QuietEvidence(cat, a, b, 10, MarkActive, a.late);
    case MarkActive => QuietEvidence(cat, a, b, 11, MarkPrevious, late);
    case MarkPrevious =>
      QuietEvidence(cat, a, b, 12, MarkStable, late);
      QuietEvidence(cat, a, b, 12, MarkStable, a.late);
    case MarkStable =>
  }

  lemma CheckEvidence(cat: Catalogue, w: World, a: Attempt, next: Stage, o: Oracle)
    requires a.pc == Check(next) && EvidenceInv(cat, a)
    ensures Witnesses(cat, StepCheck(w, a, next, o))
  {
    CheckGoesOn(w, a, next, o);
  }

  lemma StepKeepsEvidence(cat: Catalogue, w: World, a: Attempt, o: Oracle)
    requires Dependable(cat.writers) && w.attempt == Some(a) && EvidenceInv(cat, a)
    ensures Witnesses(cat, StepAttempt(cat, w, a, o))
  {
    match a.pc
    case Lookup => LookupGoesOn(cat, w, a, o);
    case Token => TokenEvidence(cat, w, a, o);
    case Check(next) => CheckEvidence(cat, w, a, next, o);
    case At(s) =>
      var m, b := cat.models[a.obj.spec], BackendOf(cat, a.obj.spec).value;
      if Rank(s) <= 5 { EarlyEvidence(cat, w, a, s, m, b, o); } else { LateEvidence(cat, w, a, s, m, b, o); }
    case _ =>
  }

  lemma ApplyKeepsEvidence(cat: Catalogue, w: World, action: Action)
    requires Dependable(cat.writers) && Witnesses(cat, w)
    ensures Witnesses(cat, Apply(cat, w, action))
  {
    match action
    case Step(o) => if w.attempt.Some? { StepKeepsEvidence(cat, w, w.attempt.value, o); }
    case ReconcileBackend(b) => assert StepReconcileBackend(cat, w, b).attempt == w.attempt;
    case _ =>
  }

  lemma TokenEvidence(cat: Catalogue, w: World, a: Attempt, o: Oracle)
    requires EvidenceInv(cat, a) && a.pc.Token? && BackendOf(cat, a.obj.spec).Some?
    ensures Witnesses(cat, StepToken(w, a, o))
  {
  }

  lemma {:induction false} RunKeepsEvidence(cat: Catalogue, w: World, actions: seq<Action>)
    requires Dependable(cat.writers) && Witnesses(cat, w)
    ensures Witnesses(cat, Run(cat, w, actions))
    decreases |actions|
  {
    if actions != [] {
      ApplyKeepsEvidence(cat, w, actions[0]);
      RunKeepsEvidence(cat, Apply(cat, w, actions[0]), actions[1..]);
    }
  }

  /**
   * Whenever executeTransition's Stable write lands, the same attempt has seen, in this order, the
   * previous Deployment at zero, a cache answer if one was asked for, the target matching the model at
   * one replica, its rollout and a healthy probe; and the live spec names that model at the write.
   */
  lemma StableWriteJustified(cat: Catalogue, start: World, actions: seq<Action>, o: Oracle)
    requires Inv(cat, start) && start.attempt.None? && Dependable(cat.writers)
    ensures var w := Run(cat, start, actions);
            && (w.attempt.Some? && w.attempt.value.pc == At(MarkStable) && Apply(cat, w, Step(o)).active != w.active ==>
                  var a := w.attempt.value;
                  && BackendOf(cat, a.obj.spec).Some?
                  && var b := BackendOf(cat, a.obj.spec).value;
                     && w.active.spec == a.obj.spec && w.active.generation == a.obj.generation
                     && Apply(cat, w, Step(o)).active.status.modelName == w.active.spec
                     && PreviousOf(cat, a.obj, a.lookup) == Success(a.previous)
                     && a.patched.Some? && a.patched.value.replicas == Some(1)
                     && cat.writers.matches(a.patched.value, b.container, cat.models[a.obj.spec].runtime) == Some(true)
                     && (a.offline ==> a.ensured == Some(Hot))
                     && var down := if a.previous.Some? then Then(Nothing, SawZero(a.previous.value)) else Nothing;
                        var cached := if a.ensured.Some? then Then(down, Ensured(a.ensured.value)) else down;
                        var patched := Then(cached, Patched(b.deployment, a.patched.value));
                        a.log == Then(Then(patched, SawRollout(b.deployment)), SawHealthy))
  {
    RunKeepsInv(cat, start, actions);
    RunKeepsEvidence(cat, start, actions);
    var w := Run(cat, start, actions);
    if w.attempt.Some? && w.attempt.value.pc == At(MarkStable) && Apply(cat, w, Step(o)).active != w.active {
      StableWriteLands(cat, w, o);
    }
  }

  /** The Stable write lands only on the object that the attempt read. */
  lemma StableWriteLands(cat: Catalogue, w: World, o: Oracle)
    requires Inv(cat, w) && w.attempt.Some? && w.attempt.value.pc == At(MarkStable)
    requires Apply(cat, w, Step(o)).active != w.active
    ensures w.active.spec == w.attempt.value.obj.spec && w.active.generation == w.attempt.value.obj.generation
    ensures Apply(cat, w, Step(o)).active.status.modelName == w.active.spec
  {
  }

  /** An attempt that found its target offline reaches the patch only with a hot cache answer. */
  lemma OfflinePatchOnlyHot(cat: Catalogue, start: World, actions: seq<Action>)
    requires Inv(cat, start) && start.attempt.None? && Dependable(cat.writers)
    ensures var w := Run(cat, start, actions);
            w.attempt.Some? && w.attempt.value.pc == At(Patch) && w.attempt.value.offline ==>
              w.attempt.value.ensured == Some(Hot) && w.attempt.value.log.Then?
                  && w.attempt.value.log.last == Ensured(Hot)
  {
    RunKeepsInv(cat, start, actions);
    RunKeepsEvidence(cat, start, actions);
  }
}

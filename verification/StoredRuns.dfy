/**
 * The two writers over whole runs of the protocol: no run leaves a Deployment in a state on which the order of
 * an activation and a backend reconcile would matter.
 */
module StoredRuns {
  import opened Prelude
  import opened Transition
  import A = Aftermath
  import C = Confluence
  import W = Workload

  // ------------------------------------------------------------------ a template property over runs

  function Created(b: W.Backend): W.PodTemplate { b.template.(labels := W.MergeLabels(b.template.labels, b.labels)) }

  /** Activations and reconciles keep a property of pod templates, and created Deployments start with it. */
  ghost predicate Keeps(cat: Catalogue, good: W.PodTemplate -> bool) {
    && (forall n, d: W.Deployment, container, stamp ::
          n in cat.models && good(d.template)
              && cat.writers.activate(d, container, cat.models[n].runtime, stamp).Success? ==>
            good(cat.writers.activate(d, container, cat.models[n].runtime, stamp).value.template))
    && (forall n, d: W.Deployment :: n in cat.backends && cat.backends[n].workload.Some? && good(d.template) ==>
          good(cat.writers.reconcile(d, cat.backends[n].workload.value).template))
    && (forall n :: n in cat.backends && cat.backends[n].workload.Some? ==>
          good(Created(cat.backends[n].workload.value)))
  }

  ghost predicate All(w: World, good: W.PodTemplate -> bool) {
    forall d :: d in w.cluster ==> good(w.cluster[d].d.template)
  }

  lemma PatchKeepsAll(
      cat: Catalogue, w: World, a: Attempt, model: string, b: Backend, o: Oracle, good: W.PodTemplate -> bool)
    requires Keeps(cat, good) && All(w, good) && model in cat.models
    ensures All(StepPatch(cat, w, a, cat.models[model], b, o), good)
  {
  }

  lemma StepKeepsAll(cat: Catalogue, w: World, o: Oracle, good: W.PodTemplate -> bool)
    requires Keeps(cat, good) && All(w, good)
    ensures All(Apply(cat, w, Step(o)), good)
  {
    if w.attempt.Some? {
      var a := w.attempt.value;
      if a.pc == At(Patch) && BackendOf(cat, a.obj.spec).Some? {
        PatchKeepsAll(cat, w, a, a.obj.spec, BackendOf(cat, a.obj.spec).value, o, good);
      } else if a.pc == At(ScaleDown) && BackendOf(cat, a.obj.spec).Some? && a.previous.Some? {
        A.ScaleDownLowers(w, a, a.previous.value, o);
      } else if a.pc != At(Patch) && a.pc != At(ScaleDown) {
        A.ClusterQuiet(cat, w, a, o);
      }
    }
  }

  lemma ApplyKeepsAll(cat: Catalogue, w: World, action: Action, good: W.PodTemplate -> bool)
    requires Keeps(cat, good) && All(w, good)
    ensures All(Apply(cat, w, action), good)
  {
    match action
    case ReconcileBackend(name) =>
      if name in cat.backends && cat.backends[name].workload.Some? {
        assert good(Created(cat.backends[name].workload.value));
      }
    case Step(o) => StepKeepsAll(cat, w, o, good);
    case _ =>
  }

  lemma {:induction false} RunKeepsAll(cat: Catalogue, w: World, actions: seq<Action>, good: W.PodTemplate -> bool)
    requires Keeps(cat, good) && All(w, good)
    ensures All(Run(cat, w, actions), good)
    decreases |actions|
  {
    if actions != [] {
      ApplyKeepsAll(cat, w, actions[0], good);
      RunKeepsAll(cat, Apply(cat, w, actions[0]), actions[1..], good);
    }
  }

  // ------------------------------------------------------------------ stored Deployments

  /** The controllers' own writers, over admitted models and well-formed workload backends. */
  ghost predicate Admissible(cat: Catalogue) {
    && cat.writers == STANDARD
    && (forall n :: n in cat.models ==> W.Admitted(cat.models[n].runtime))
    && (forall n :: n in cat.backends && cat.backends[n].workload.Some? ==>
          W.WellFormedBackend(cat.backends[n].workload.value))
  }

  lemma StoredIsKept(cat: Catalogue)
    requires Admissible(cat)
    ensures Keeps(cat, C.Stored)
  {
    forall n, d: W.Deployment, container, stamp
      | n in cat.models && C.Stored(d.template)
          && cat.writers.activate(d, container, cat.models[n].runtime, stamp).Success?
      ensures C.Stored(cat.writers.activate(d, container, cat.models[n].runtime, stamp).value.template)
    {
      C.ActivateKeepsStored(d, container, cat.models[n].runtime, stamp);
    }
    forall n, d: W.Deployment | n in cat.backends && cat.backends[n].workload.Some?
      ensures C.Stored(d.template) ==> C.Stored(cat.writers.reconcile(d, cat.backends[n].workload.value).template)
    {
      C.ReconcileKeepsStored(d, cat.backends[n].workload.value);
    }
    forall n | n in cat.backends && cat.backends[n].workload.Some?
      ensures C.Stored(Created(cat.backends[n].workload.value))
    {
      var b := cat.backends[n].workload.value;
      C.ReconcileKeepsStored(W.Deployment(map[], None, map[], "", b.template), b);
    }
  }

  /**
   * At every point of every run that starts from stored Deployments, the next activation of any Deployment that
   * has its runtime container and the next reconcile of it can happen in either order.
   */
  lemma WritersMeetThroughout(
      cat: Catalogue, w: World, actions: seq<Action>, d: string, b: W.Backend, m: W.Runtime, now: string, later: string)
    requires Admissible(cat) && All(w, C.Stored) && W.WellFormedBackend(b) && W.Admitted(m)
    ensures var v := Run(cat, w, actions);
            d in v.cluster && W.Has(v.cluster[d].d.template.containers, b.container) ==>
              var first, second := W.Activate(v.cluster[d].d, b.container, m, now),
                                   W.Activate(W.Reconcile(v.cluster[d].d, b), b.container, m, later);
              first.Success? && second.Success? && C.SameUpToSwitchTime(W.Reconcile(first.value, b), second.value)
  {
    StoredIsKept(cat);
    RunKeepsAll(cat, w, actions, C.Stored);
    var v := Run(cat, w, actions);
    if d in v.cluster && W.Has(v.cluster[d].d.template.containers, b.container) {
      C.StoredWritersCommute(v.cluster[d].d, b, m, now, later);
    }
  }
}

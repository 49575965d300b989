/** The controllers' own Deployment writers have the properties the protocol proofs ask of them. */
module StandardWriters {
  import opened Prelude
  import opened Transition
  import opened TransitionSafety
  import W = Workload
  import C = Confluence

  lemma StandardDependable()
    ensures Dependable(STANDARD)
  {
    forall d, container, m, stamp | STANDARD.activate(d, container, m, stamp).Success?
      ensures STANDARD.activate(d, container, m, stamp).value.replicas == Some(1)
      ensures STANDARD.matches(STANDARD.activate(d, container, m, stamp).value, container, m) == Some(true)
    {
      W.ActivateMatches(d, container, m, stamp);
    }
    forall d, b, m | W.WellFormedBackend(b) && STANDARD.matches(d, b.container, m) == Some(true)
      ensures STANDARD.matches(STANDARD.reconcile(d, b), b.container, m) == Some(true)
    {
      C.ReconcileKeepsMatch(d, b, m);
    }
    forall d, replicas, container, m, stamp, stamp'
      ensures SameButScaled(STANDARD, d, replicas, container, m, stamp, stamp')
    {
      W.ActivateMatches(d, container, m, stamp);
      W.ActivateMatches(d.(replicas := replicas), container, m, stamp');
    }
  }
}

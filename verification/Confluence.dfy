/**
 * Confluence of the two Deployment writers.  Each write is one atomic step; the theorem says
 * exactly when the two orders of an activation and a backend reconcile meet.
 */
module Confluence {
  import opened Prelude
  import opened Workload

  /** Equal in every field except the time of the last switch. */
  predicate SameUpToSwitchTime(d: Deployment, e: Deployment) {
    Timeless(d) == Timeless(e)
  }

  function Timeless(d: Deployment): Deployment {
    d.(template := d.template.(annotations := d.template.annotations - {SWITCHED_AT}))
  }

  function Reserved(p: PodTemplate, container: string): (r: (seq<Volume>, seq<VolumeMount>))
    requires Has(p.containers, container)
  {
    (Filter(ReservedVolume, p.volumes), Filter(ReservedMount, p.containers[Find(p.containers, container)].mounts))
  }

  /** Two reserved volumes, the first of them good: one order drops the second, the other rebuilds. */
  predicate DuplicateVolumeHazard(p: PodTemplate, container: string, t: ChatTemplate)
    requires Has(p.containers, container)
  {
    var (rv, rm) := Reserved(p, container);
    && |rv| > 1 && VolumeFits(rv[0], t)
    && rm != [] && MountFits(rm[0])
    && (rv[0] != FreshVolume(t) || rm[0] != FreshMount())
  }

  /**
   * Half of a reserved pair left behind on an otherwise matching Deployment whose digest annotation
   * is present but empty: one order deletes the empty annotation, the other keeps it.
   */
  predicate EmptyDigestHazard(p: PodTemplate, container: string, m: Runtime)
    requires Has(p.containers, container)
  {
    var (rv, rm) := Reserved(p, container);
    && (rv == []) != (rm == [])
    && p.containers[Find(p.containers, container)].args == m.args
    && Get(p.annotations, ACTIVE_MODEL) == m.name
    && TEMPLATE_DIGEST in p.annotations && p.annotations[TEMPLATE_DIGEST] == ""
  }

  predicate Hazard(p: PodTemplate, container: string, m: Runtime)
    requires Has(p.containers, container)
  {
    if m.template.Some? then DuplicateVolumeHazard(p, container, m.template.value)
    else EmptyDigestHazard(p, container, m)
  }

  /** At most one reserved volume, and no empty digest annotation: what both writers keep. */
  predicate Stored(p: PodTemplate) {
    && |Filter(ReservedVolume, p.volumes)| <= 1
    && (TEMPLATE_DIGEST in p.annotations ==> p.annotations[TEMPLATE_DIGEST] != "")
  }

  // ------------------------------------------------------------------ both results in one form

  /** The user's template with given arguments, volumes, mounts and annotations put into it. */
  function Filled(b: Backend, args: seq<string>, volumes: seq<Volume>, mounts: seq<VolumeMount>,
                  annotations: map<string, string>): PodTemplate
    requires Has(b.template.containers, b.container)
  {
    var i := Find(b.template.containers, b.container);
    PodTemplate(MergeLabels(b.template.labels, b.labels), annotations,
                b.template.containers[i := b.template.containers[i].(args := args, mounts := mounts)], volumes,
                    b.template.rest)
  }

  function UserMounts(b: Backend): seq<VolumeMount>
    requires Has(b.template.containers, b.container)
  {
    b.template.containers[Find(b.template.containers, b.container)].mounts
  }

  function Carried(a: map<string, string>): map<string, string> {
    map k | k in RUNTIME_KEYS && k in a :: a[k]
  }

  /** The reserved pair a backend reconcile carries over: both halves or neither. */
  function KeptVolumes(p: PodTemplate, container: string): seq<Volume>
    requires Has(p.containers, container)
  {
    var (rv, rm) := Reserved(p, container);
    if rv == [] || rm == [] then [] else [rv[0]]
  }

  function KeptMounts(p: PodTemplate, container: string): seq<VolumeMount>
    requires Has(p.containers, container)
  {
    var (rv, rm) := Reserved(p, container);
    if rv == [] || rm == [] then [] else [rm[0]]
  }

  lemma ReconcileForm(d: Deployment, b: Backend)
    requires WellFormedBackend(b) && Has(d.template.containers, b.container)
    ensures Reconcile(d, b) ==
            Deployment(MergeLabels(d.labels, b.labels), d.replicas, b.labels, b.strategy,
                       Filled(b, d.template.containers[Find(d.template.containers, b.container)].args,
                              b.template.volumes + KeptVolumes(d.template, b.container),
                              UserMounts(b) + KeptMounts(d.template, b.container),
                              b.template.annotations + Carried(d.template.annotations)))
  {
    NoReserved(b.template.volumes, UserMounts(b));
    assert b.template.volumes + [] == b.template.volumes;
    assert UserMounts(b) + [] == UserMounts(b);
  }

  /** The pair that is in place after an activation and then a reconcile. */
  function PairActivatedFirst(
      p: PodTemplate, container: string, t: Option<ChatTemplate>): (seq<Volume>, seq<VolumeMount>)
    requires Has(p.containers, container)
  {
    var (rv, rm) := Reserved(p, container);
    if t.None? then ([], [])
    else if |rv| == 1 && VolumeFits(rv[0], t.value) && rm != [] && MountFits(rm[0]) then ([rv[0]], [rm[0]])
    else ([FreshVolume(t.value)], [FreshMount()])
  }

  /** The pair that is in place after a reconcile and then an activation. */
  function PairReconciledFirst(
      p: PodTemplate, container: string, t: Option<ChatTemplate>): (seq<Volume>, seq<VolumeMount>)
    requires Has(p.containers, container)
  {
    var (rv, rm) := Reserved(p, container);
    if t.None? then ([], [])
    else if rv != [] && VolumeFits(rv[0], t.value) && rm != [] && MountFits(rm[0]) then ([rv[0]], [rm[0]])
    else ([FreshVolume(t.value)], [FreshMount()])
  }

  lemma ActivatedPair(d: Deployment, container: string, m: Runtime, now: string)
    requires Has(d.template.containers, container)
    ensures Activate(d, container, m, now).Success?
    ensures var p' := Activate(d, container, m, now).value.template;
            && Has(p'.containers, container)
            && (KeptVolumes(p', container), KeptMounts(p', container)) ==
                PairActivatedFirst(d.template, container, m.template)
  {
    var p := d.template;
    var i := Find(p.containers, container);
    var p' := ActivatedTemplate(p, i, m, now);
    FindUpdated(p.containers, container, p'.containers[i]);
    ApplyMounts(p.volumes, p.containers[i].mounts, m.template);
    if m.template.Some? && !Mounted(p.volumes, p.containers[i].mounts, m.template) {
      OneReservedVolume(Filter(OtherVolume, p.volumes), FreshVolume(m.template.value));
      OneReservedMount(Filter(OtherMount, p.containers[i].mounts), FreshMount());
    }
  }

  lemma ActivateThenReconcile(d: Deployment, b: Backend, m: Runtime, now: string)
    requires WellFormedBackend(b) && Has(d.template.containers, b.container)
    ensures Activate(d, b.container, m, now).Success?
    ensures var p := d.template;
            var (vs, ms) := PairActivatedFirst(p, b.container, m.template);
            Reconcile(Activate(d, b.container, m, now).value, b) ==
            Deployment(MergeLabels(d.labels, b.labels), Some(1), b.labels, b.strategy,
                       Filled(b, m.args, b.template.volumes + vs, UserMounts(b) + ms,
                              b.template.annotations + Carried(
                                if Changed(p, Find(p.containers, b.container), m)
                                then StampedAnnotations(p.annotations, m, now) else p.annotations)))
  {
    var d' := Activate(d, b.container, m, now).value;
    ActivateMatches(d, b.container, m, now);
    ActivatedPair(d, b.container, m, now);
    ReconcileForm(d', b);
  }

  /** The reserved part of a reconciled template is the pair that was kept, and the rest is the user's. */
  lemma KeptIsReserved(d: Deployment, b: Backend)
    requires WellFormedBackend(b) && Has(d.template.containers, b.container)
    ensures var kv, km := KeptVolumes(d.template, b.container), KeptMounts(d.template, b.container);
            var vs, ms := b.template.volumes + kv, UserMounts(b) + km;
            && Filter(ReservedVolume, vs) == kv && Filter(OtherVolume, vs) == b.template.volumes
            && Filter(ReservedMount, ms) == km && Filter(OtherMount, ms) == UserMounts(b)
  {
    var kv, km := KeptVolumes(d.template, b.container), KeptMounts(d.template, b.container);
    NoReserved(b.template.volumes, UserMounts(b));
    if kv != [] {
      OneReservedVolume(b.template.volumes, kv[0]);
      OneReservedMount(UserMounts(b), km[0]);
    } else {
      assert b.template.volumes + kv == b.template.volumes && UserMounts(b) + km == UserMounts(b);
    }
  }

  lemma AppliedToReconciled(d: Deployment, b: Backend, t: Option<ChatTemplate>)
    requires WellFormedBackend(b) && Has(d.template.containers, b.container)
    ensures var vs := b.template.volumes + KeptVolumes(d.template, b.container);
            var ms := UserMounts(b) + KeptMounts(d.template, b.container);
            var (pv, pm) := PairReconciledFirst(d.template, b.container, t);
            && AppliedVolumes(vs, ms, t) == b.template.volumes + pv
            && AppliedMounts(vs, ms, t) == UserMounts(b) + pm
  {
    KeptIsReserved(d, b);
    AppliedToKept(b.template.volumes, UserMounts(b), KeptVolumes(d.template, b.container),
                  KeptMounts(d.template, b.container), t);
  }

  /** applyChatTemplate on the user's lists with at most one reserved pair behind them. */
  lemma AppliedToKept(
      uv: seq<Volume>, um: seq<VolumeMount>, kv: seq<Volume>, km: seq<VolumeMount>, t: Option<ChatTemplate>)
    requires Filter(ReservedVolume, uv + kv) == kv && Filter(OtherVolume, uv + kv) == uv
    requires Filter(ReservedMount, um + km) == km && Filter(OtherMount, um + km) == um
    requires |kv| <= 1 && |km| <= 1 && (kv == [] <==> km == [])
    ensures var good := t.Some? && kv != [] && VolumeFits(kv[0], t.value) && MountFits(km[0]);
            && AppliedVolumes(uv + kv, um + km, t) ==
               uv + (if good then kv else if t.Some? then [FreshVolume(t.value)] else [])
            && AppliedMounts(uv + kv, um + km, t) ==
               um + (if good then km else if t.Some? then [FreshMount()] else [])
  {
  }

  lemma ReconcileThenActivate(d: Deployment, b: Backend, m: Runtime, now: string)
    requires WellFormedBackend(b) && Has(d.template.containers, b.container)
    ensures var r := Reconcile(d, b);
            && Has(r.template.containers, b.container)
            && Activate(r, b.container, m, now).Success?
            && var (vs, ms) := PairReconciledFirst(d.template, b.container, m.template);
               Activate(r, b.container, m, now).value ==
               Deployment(MergeLabels(d.labels, b.labels), Some(1), b.labels, b.strategy,
                          Filled(b, m.args, b.template.volumes + vs, UserMounts(b) + ms,
                                 if Changed(r.template, Find(r.template.containers, b.container), m)
                                 then StampedAnnotations(r.template.annotations, m, now) else r.template.annotations))
  {
    var r := Reconcile(d, b);
    ReconcileForm(d, b);
    var i := Find(b.template.containers, b.container);
    FindUpdated(b.template.containers, b.container, r.template.containers[i]);
    AppliedToReconciled(d, b, m.template);
    ActivatedFilled(r, b, i, m, now);
  }

  /** Activating a template of the filled form fills in the new arguments, volumes, mounts and annotations. */
  lemma ActivatedFilled(r: Deployment, b: Backend, i: nat, m: Runtime, now: string)
    requires Has(b.template.containers, b.container) && i == Find(b.template.containers, b.container)
    requires Find(r.template.containers, b.container) == i && |r.template.containers| == |b.template.containers|
    requires r.template ==
             Filled(b, r.template.containers[i].args, r.template.volumes, r.template.containers[i].mounts,
                 r.template.annotations)
    ensures Activate(r, b.container, m, now).Success?
    ensures Activate(r, b.container, m, now).value ==
            r.(replicas := Some(1),
               template := Filled(b, m.args,
                   AppliedVolumes(r.template.volumes, r.template.containers[i].mounts, m.template),
                                  AppliedMounts(r.template.volumes, r.template.containers[i].mounts, m.template),
                                  if Changed(r.template, i, m) then StampedAnnotations(r.template.annotations, m, now)
                                  else r.template.annotations))
  {
    var r' := Activate(r, b.container, m, now).value;
    assert r'.template.containers ==
        Filled(b, m.args, r'.template.volumes, r'.template.containers[i].mounts, map[]).containers;
  }

  /** Whether the second write of the reconcile-first order is a rollout, told from the original template. */
  lemma ChangedAfterReconcile(d: Deployment, b: Backend, m: Runtime)
    requires WellFormedBackend(b) && Has(d.template.containers, b.container)
    ensures var r, i := Reconcile(d, b), Find(d.template.containers, b.container);
            var (rv, rm) := Reserved(d.template, b.container);
            && Has(r.template.containers, b.container)
            && (Changed(r.template, Find(r.template.containers, b.container), m) <==>
                || d.template.containers[i].args != m.args
                || Get(d.template.annotations, ACTIVE_MODEL) != m.name
                || Get(d.template.annotations, TEMPLATE_DIGEST) != Digest(m.template)
                || (if m.template.None? then rv != [] && rm != []
                    else !(rv != [] && VolumeFits(rv[0], m.template.value) && rm != [] && MountFits(rm[0]))))
  {
    var r := Reconcile(d, b);
    ReconcileForm(d, b);
    var i := Find(b.template.containers, b.container);
    FindUpdated(b.template.containers, b.container, r.template.containers[i]);
    var c := r.template.containers[i];
    ApplyChangesIffUnmounted(r.template.volumes, c.mounts, m.template);
    var kv, km := KeptVolumes(d.template, b.container), KeptMounts(d.template, b.container);
    NoReserved(b.template.volumes, UserMounts(b));
    if kv != [] {
      OneReservedVolume(b.template.volumes, kv[0]);
      OneReservedMount(UserMounts(b), km[0]);
    } else {
      assert b.template.volumes + kv == b.template.volumes && UserMounts(b) + km == UserMounts(b);
    }
    assert Get(r.template.annotations, ACTIVE_MODEL) == Get(d.template.annotations, ACTIVE_MODEL);
    assert Get(r.template.annotations, TEMPLATE_DIGEST) == Get(d.template.annotations, TEMPLATE_DIGEST);
  }

  lemma ChangedBefore(d: Deployment, b: Backend, m: Runtime)
    requires Has(d.template.containers, b.container)
    ensures var i := Find(d.template.containers, b.container);
            var (rv, rm) := Reserved(d.template, b.container);
            && (Changed(d.template, i, m) <==>
                || d.template.containers[i].args != m.args
                || Get(d.template.annotations, ACTIVE_MODEL) != m.name
                || Get(d.template.annotations, TEMPLATE_DIGEST) != Digest(m.template)
                || (if m.template.None? then rv != [] || rm != []
                    else !(|rv| == 1 && VolumeFits(rv[0], m.template.value) && rm != [] && MountFits(rm[0]))))
  {
    var i := Find(d.template.containers, b.container);
    ApplyChangesIffUnmounted(d.template.volumes, d.template.containers[i].mounts, m.template);
  }

  /** Stamping, with the annotation keys as parameters. */
  function Stamp(a: map<string, string>, active: string, switched: string, digest: string,
                 name: string, now: string, value: string): map<string, string>
  {
    var s := a[active := name][switched := now];
    if value == "" then s - {digest} else s[digest := value]
  }

  function Carry(a: map<string, string>, keys: set<string>): map<string, string> {
    map k | k in keys && k in a :: a[k]
  }

  /** The annotations left by activation first, and by reconciliation first. */
  function ActivatedFirst(
      a: map<string, string>, w: map<string, string>, active: string, switched: string, digest: string,
                          name: string, now: string, value: string, first: bool): map<string, string>
  {
    w + Carry(if first then Stamp(a, active, switched, digest, name, now, value) else a, {active, switched, digest})
  }

  function ReconciledFirst(
      a: map<string, string>, w: map<string, string>, active: string, switched: string, digest: string,
                           name: string, later: string, value: string, second: bool): map<string, string>
  {
    var carried := w + Carry(a, {active, switched, digest});
    if second then Stamp(carried, active, switched, digest, name, later, value) else carried
  }

  /** One key at a time, the timestamp aside: only the digest key can differ. */
  lemma StampsAgreeAt(a: map<string, string>, w: map<string, string>, active: string, switched: string, digest: string,
                      name: string, now: string, later: string, value: string, first: bool, second: bool, k: string)
    requires active != switched && active != digest && switched != digest && k != switched
    requires name != "" && w.Keys !! {active, switched, digest}
    requires !first || !second ==> Get(a, active) == name && Get(a, digest) == value
    ensures var one := ActivatedFirst(a, w, active, switched, digest, name, now, value, first);
            var two := ReconciledFirst(a, w, active, switched, digest, name, later, value, second);
            (k in one <==> k in two) && (k in one ==> one[k] == two[k]) <==>
            !(k == digest && first != second && value == "" && digest in a)
  {
    var one := ActivatedFirst(a, w, active, switched, digest, name, now, value, first);
    var two := ReconciledFirst(a, w, active, switched, digest, name, later, value, second);
    if k == active {
      assert k in one && one[k] == name;
      assert k in two && two[k] == name;
    }
  }

  /** The annotations of the two orders agree, the timestamp aside, unless an empty digest is in the way. */
  lemma StampsAgree(a: map<string, string>, w: map<string, string>, active: string, switched: string, digest: string,
                    name: string, now: string, later: string, value: string, first: bool, second: bool)
    requires active != switched && active != digest && switched != digest
    requires name != "" && w.Keys !! {active, switched, digest}
    requires !first || !second ==> Get(a, active) == name && Get(a, digest) == value
    ensures var one := ActivatedFirst(a, w, active, switched, digest, name, now, value, first);
            var two := ReconciledFirst(a, w, active, switched, digest, name, later, value, second);
            one - {switched} == two - {switched} <==> !(first != second && value == "" && digest in a)
  {
    var one := ActivatedFirst(a, w, active, switched, digest, name, now, value, first);
    var two := ReconciledFirst(a, w, active, switched, digest, name, later, value, second);
    forall k | k != switched
      ensures (k in one <==> k in two) && (k in one ==> one[k] == two[k]) <==>
              !(k == digest && first != second && value == "" && digest in a)
    {
      StampsAgreeAt(a, w, active, switched, digest, name, now, later, value, first, second, k);
    }
    AgreeExcept(one, two, switched, digest, first != second && value == "" && digest in a);
  }

  /** Maps that differ, one key aside, at most at one other key. */
  lemma AgreeExcept(one: map<string, string>, two: map<string, string>, aside: string, at: string, differ: bool)
    requires at != aside
    requires forall k :: k != aside ==>
               ((k in one <==> k in two) && (k in one ==> one[k] == two[k]) <==> !(k == at && differ))
    ensures one - {aside} == two - {aside} <==> !differ
  {
    var x, y := one - {aside}, two - {aside};
    if differ {
      assert (at in x <==> at in one) && (at in y <==> at in two);
    } else {
      assert forall k :: k in x <==> k in y;
    }
  }

  lemma KeysDistinct()
    ensures ACTIVE_MODEL != SWITCHED_AT && ACTIVE_MODEL != TEMPLATE_DIGEST && SWITCHED_AT != TEMPLATE_DIGEST
  {
    assert ACTIVE_MODEL[15] != SWITCHED_AT[15];
    assert ACTIVE_MODEL[15] != TEMPLATE_DIGEST[15];
    assert SWITCHED_AT[15] != TEMPLATE_DIGEST[15];
  }

  lemma AnnotationsAgree(
      a: map<string, string>, w: map<string, string>, m: Runtime, now: string, later: string, first: bool, second: bool)
    requires Admitted(m) && w.Keys !! RUNTIME_KEYS
    requires !first || !second ==> Get(a, ACTIVE_MODEL) == m.name && Get(a, TEMPLATE_DIGEST) == Digest(m.template)
    ensures var one := w + Carried(if first then StampedAnnotations(a, m, now) else a);
            var two := if second then StampedAnnotations(w + Carried(a), m, later) else w + Carried(a);
            one - {SWITCHED_AT} == two - {SWITCHED_AT} <==>
            !(first != second && Digest(m.template) == "" && TEMPLATE_DIGEST in a)
  {
    KeysDistinct();
    var keys := {ACTIVE_MODEL, SWITCHED_AT, TEMPLATE_DIGEST};
    assert keys == RUNTIME_KEYS;
    StampsAgree(a, w, ACTIVE_MODEL, SWITCHED_AT, TEMPLATE_DIGEST, m.name, now, later, Digest(m.template), first,
        second);
    var b := if first then StampedAnnotations(a, m, now) else a;
    assert Carried(b) == Carry(b, keys) && Carried(a) == Carry(a, keys);
    assert StampedAnnotations(a, m, now) ==
        Stamp(a, ACTIVE_MODEL, SWITCHED_AT, TEMPLATE_DIGEST, m.name, now, Digest(m.template));
    var c := w + Carried(a);
    assert StampedAnnotations(c, m, later) ==
        Stamp(c, ACTIVE_MODEL, SWITCHED_AT, TEMPLATE_DIGEST, m.name, later, Digest(m.template));
  }

  lemma AppendInjective<T>(s: seq<T>, a: seq<T>, b: seq<T>)
    ensures s + a == s + b <==> a == b
  {
    if s + a == s + b {
      assert a == (s + a)[|s|..] && b == (s + b)[|s|..];
    }
  }

  /** Two fillings of one template are equal exactly when what is filled in is equal. */
  lemma FilledInjective(b: Backend, args: seq<string>, v1: seq<Volume>, v2: seq<Volume>,
                        m1: seq<VolumeMount>, m2: seq<VolumeMount>, n1: map<string, string>, n2: map<string, string>)
    requires Has(b.template.containers, b.container)
    ensures Filled(b, args, v1, m1, n1) == Filled(b, args, v2, m2, n2) <==> v1 == v2 && m1 == m2 && n1 == n2
  {
    var i := Find(b.template.containers, b.container);
    assert Filled(b, args, v1, m1, n1).containers[i].mounts == m1;
    assert Filled(b, args, v2, m2, n2).containers[i].mounts == m2;
  }

  /**
   * The two writers commute up to the switch timestamp exactly when no hazard is present: same
   * arguments, volumes, mounts, annotations, replicas, labels, selector and strategy.
   */
  lemma WritersCommute(d: Deployment, b: Backend, m: Runtime, now: string, later: string)
    requires WellFormedBackend(b) && Admitted(m) && Has(d.template.containers, b.container)
    ensures Activate(d, b.container, m, now).Success? && Activate(Reconcile(d, b), b.container, m, later).Success?
    ensures SameUpToSwitchTime(Reconcile(Activate(d, b.container, m, now).value, b),
                               Activate(Reconcile(d, b), b.container, m, later).value)
            <==> !Hazard(d.template, b.container, m)
  {
    var p, i := d.template, Find(d.template.containers, b.container);
    var r := Reconcile(d, b);
    var (v1, m1) := PairActivatedFirst(p, b.container, m.template);
    var (v2, m2) := PairReconciledFirst(p, b.container, m.template);
    var first := Changed(p, i, m);
    ActivateThenReconcile(d, b, m, now);
    ReconcileThenActivate(d, b, m, later);
    var second := Changed(r.template, Find(r.template.containers, b.container), m);
    var n1 := b.template.annotations + Carried(if first then StampedAnnotations(p.annotations, m, now)
                                               else p.annotations);
    var n2 := if second then StampedAnnotations(b.template.annotations + Carried(p.annotations), m, later)
              else b.template.annotations + Carried(p.annotations);
    assert r.template.annotations == b.template.annotations + Carried(p.annotations) by { ReconcileForm(d, b); }
    FilledInjective(b, m.args, b.template.volumes + v1, b.template.volumes + v2, UserMounts(b) + m1, UserMounts(b) + m2,
                    n1 - {SWITCHED_AT}, n2 - {SWITCHED_AT});
    AppendInjective(b.template.volumes, v1, v2);
    AppendInjective(UserMounts(b), m1, m2);
    HazardExplained(d, b, m, now, later, first, second);
  }

  lemma HazardExplained(d: Deployment, b: Backend, m: Runtime, now: string, later: string, first: bool, second: bool)
    requires WellFormedBackend(b) && Admitted(m) && Has(d.template.containers, b.container)
    requires first == Changed(d.template, Find(d.template.containers, b.container), m)
    requires Has(Reconcile(d, b).template.containers, b.container)
    requires second == Changed(Reconcile(d, b).template, Find(Reconcile(d, b).template.containers, b.container), m)
    ensures var a, w := d.template.annotations, b.template.annotations;
            var n1 := w + Carried(if first then StampedAnnotations(a, m, now) else a);
            var n2 := if second then StampedAnnotations(w + Carried(a), m, later) else w + Carried(a);
            && PairActivatedFirst(d.template, b.container, m.template) ==
                PairReconciledFirst(d.template, b.container, m.template)
            && n1 - {SWITCHED_AT} == n2 - {SWITCHED_AT}
            <==> !Hazard(d.template, b.container, m)
  {
    ChangedAfterReconcile(d, b, m);
    ChangedBefore(d, b, m);
    AnnotationsAgree(d.template.annotations, b.template.annotations, m, now, later, first, second);
  }

  // ------------------------------------------------------------------ the hazards, and who causes them

  const USER := Backend("main", PodTemplate(map[], map[], [Container("main", [], [], [], "")], [], ""), "Recreate",
      map[])

  function Written(
      args: seq<string>, mounts: seq<VolumeMount>, volumes: seq<Volume>, annotations: map<string, string>): Deployment
  {
    Deployment(map[], Some(1), map[], "Recreate",
               PodTemplate(map[], annotations, [Container("main", args, mounts, [], "")], volumes, ""))
  }

  /**
   * A second reserved volume behind a good one whose file mode has been defaulted: the two orders end apart.
   * Volume names are unique in every stored Deployment, so that this one can be written down but not stored.
   */
  lemma DuplicateVolumeHappens(now: string, later: string) returns (d: Deployment, m: Runtime)
    ensures WellFormedBackend(USER) && Admitted(m) && m.template.Some?
    ensures Has(d.template.containers, "main") && DuplicateVolumeHazard(d.template, "main", m.template.value)
    ensures Activate(d, "main", m, now).Success? && Activate(Reconcile(d, USER), "main", m, later).Success?
    ensures !SameUpToSwitchTime(Reconcile(Activate(d, "main", m, now).value, USER),
        Activate(Reconcile(d, USER), "main", m, later).value)
  {
    d, m := DuplicateVolume();
    WritersCommute(d, USER, m, now, later);
  }

  lemma DuplicateVolume() returns (d: Deployment, m: Runtime)
    ensures WellFormedBackend(USER) && Admitted(m) && m.template.Some?
    ensures Has(d.template.containers, "main") && DuplicateVolumeHazard(d.template, "main", m.template.value)
  {
    var t := ChatTemplate("templates", "coder.jinja", "5e88");
    var v := FreshVolume(t).(configMap := Some(FreshVolume(t).configMap.value.(defaultMode := Some(420))));
    m, d := Runtime("coder", [], Some(t)), Written([], [FreshMount()], [v, v], map[]);
    assert Find(USER.template.containers, "main") == 0 && Find(d.template.containers, "main") == 0;
    FilterAll(ReservedVolume, [v, v]);
    FilterAll(ReservedMount, [FreshMount()]);
  }

  /** A reserved volume that nothing mounts beside an empty digest annotation: the two orders end apart. */
  lemma EmptyDigestHappens(now: string, later: string) returns (d: Deployment, m: Runtime)
    ensures WellFormedBackend(USER) && Admitted(m) && Has(d.template.containers, "main")
    ensures EmptyDigestHazard(d.template, "main", m)
    ensures |d.template.volumes| == 1 && forall c :: c in d.template.containers ==> c.mounts == []
    ensures Activate(d, "main", m, now).Success? && Activate(Reconcile(d, USER), "main", m, later).Success?
    ensures !SameUpToSwitchTime(Reconcile(Activate(d, "main", m, now).value, USER),
        Activate(Reconcile(d, USER), "main", m, later).value)
  {
    m := Runtime("coder", [], None);
    var v := FreshVolume(ChatTemplate("templates", "coder.jinja", "5e88"));
    d := Written([], [], [v], map[ACTIVE_MODEL := "coder", TEMPLATE_DIGEST := ""]);
    KeysDistinct();
    assert Find(USER.template.containers, "main") == 0 && Find(d.template.containers, "main") == 0;
    FilterAll(ReservedVolume, [v]);
    WritersCommute(d, USER, m, now, later);
  }

  /** Activation leaves at most one reserved volume, whatever it finds, and writes no empty digest. */
  lemma ActivateKeepsStored(d: Deployment, container: string, m: Runtime, now: string)
    requires Admitted(m) && Has(d.template.containers, container)
    ensures Activate(d, container, m, now).Success?
    ensures var p := Activate(d, container, m, now).value.template;
            && |Filter(ReservedVolume, p.volumes)| <= 1
            && (Stored(d.template) ==> Stored(p))
  {
    ActivateMatches(d, container, m, now);
  }

  /** So does a backend reconcile; and a Deployment created from the user's template starts that way. */
  lemma ReconcileKeepsStored(d: Deployment, b: Backend)
    requires WellFormedBackend(b)
    ensures |Filter(ReservedVolume, Reconcile(d, b).template.volumes)| <= 1
    ensures Stored(d.template) ==> Stored(Reconcile(d, b).template)
    ensures Stored(b.template)
  {
    NoReserved(b.template.volumes, UserMounts(b));
    if Has(d.template.containers, b.container) {
      ReconcileForm(d, b);
      var kv := KeptVolumes(d.template, b.container);
      if kv != [] {
        OneReservedVolume(b.template.volumes, kv[0]);
      } else {
        assert b.template.volumes + kv == b.template.volumes;
      }
    }
  }

  /**
   * Volume names are unique in a stored Deployment.  On such a one the two orders meet if and only if the model
   * has a template or the empty digest hazard is absent.
   */
  lemma UniqueVolumesCommute(d: Deployment, b: Backend, m: Runtime, now: string, later: string)
    requires WellFormedBackend(b) && Admitted(m) && Has(d.template.containers, b.container)
    requires |Filter(ReservedVolume, d.template.volumes)| <= 1
    ensures Activate(d, b.container, m, now).Success? && Activate(Reconcile(d, b), b.container, m, later).Success?
    ensures SameUpToSwitchTime(Reconcile(Activate(d, b.container, m, now).value, b),
                               Activate(Reconcile(d, b), b.container, m, later).value)
            <==> m.template.Some? || !EmptyDigestHazard(d.template, b.container, m)
  {
    WritersCommute(d, b, m, now, later);
  }

  /** On every stored Deployment that has the runtime container the two orders meet. */
  lemma StoredWritersCommute(d: Deployment, b: Backend, m: Runtime, now: string, later: string)
    requires WellFormedBackend(b) && Admitted(m) && Has(d.template.containers, b.container) && Stored(d.template)
    ensures Activate(d, b.container, m, now).Success? && Activate(Reconcile(d, b), b.container, m, later).Success?
    ensures SameUpToSwitchTime(Reconcile(Activate(d, b.container, m, now).value, b),
                               Activate(Reconcile(d, b), b.container, m, later).value)
  {
    WritersCommute(d, b, m, now, later);
  }

  /** Without the runtime container activation fails, and only the reconcile can put it back. */
  lemma MissingContainerDoesNotCommute(d: Deployment, b: Backend, m: Runtime, now: string)
    requires WellFormedBackend(b) && !Has(d.template.containers, b.container)
    ensures Activate(d, b.container, m, now).Failure?
    ensures Activate(Reconcile(d, b), b.container, m, now).Success?
  {
    var i := Find(b.template.containers, b.container);
    assert Reconcile(d, b).template.containers[i].name == b.container;
    assert Has(Reconcile(d, b).template.containers, b.container);
  }

  /** A backend reconcile never turns a matching Deployment into one that needs a rollout. */
  lemma ReconcileKeepsMatch(d: Deployment, b: Backend, m: Runtime)
    requires WellFormedBackend(b) && Has(d.template.containers, b.container)
    requires Matches(d, b.container, m)
    ensures Has(Reconcile(d, b).template.containers, b.container)
    ensures Matches(Reconcile(d, b), b.container, m)
    ensures Reconcile(d, b).replicas == d.replicas
  {
    ChangedAfterReconcile(d, b, m);
    ChangedIffNotMatching(Reconcile(d, b), b.container, m);
  }

  /** A second backend reconcile finds nothing to write. */
  lemma ReconcileIdempotent(d: Deployment, b: Backend)
    requires WellFormedBackend(b) && Has(d.template.containers, b.container)
    ensures Reconcile(Reconcile(d, b), b) == Reconcile(d, b)
  {
    var r := Reconcile(d, b);
    ReconcileForm(d, b);
    var i := Find(b.template.containers, b.container);
    FindUpdated(b.template.containers, b.container, r.template.containers[i]);
    ReconcileForm(r, b);
    KeptStays(d, b);
    assert b.template.annotations + Carried(r.template.annotations) == r.template.annotations by {
      CarryTwice(b.template.annotations, d.template.annotations);
    }
    assert MergeLabels(r.labels, b.labels) == r.labels;
  }

  lemma CarryTwice(w: map<string, string>, a: map<string, string>)
    requires w.Keys !! RUNTIME_KEYS
    ensures w + Carried(w + Carried(a)) == w + Carried(a)
  {
  }

  /** A reconcile carries the pair over unchanged the second time. */
  lemma KeptStays(d: Deployment, b: Backend)
    requires WellFormedBackend(b) && Has(d.template.containers, b.container)
    ensures var r := Reconcile(d, b);
            && Has(r.template.containers, b.container)
            && KeptVolumes(r.template, b.container) == KeptVolumes(d.template, b.container)
            && KeptMounts(r.template, b.container) == KeptMounts(d.template, b.container)
  {
    var r := Reconcile(d, b);
    ReconcileForm(d, b);
    var i := Find(b.template.containers, b.container);
    FindUpdated(b.template.containers, b.container, r.template.containers[i]);
    var kv, km := KeptVolumes(d.template, b.container), KeptMounts(d.template, b.container);
    NoReserved(b.template.volumes, UserMounts(b));
    if kv != [] {
      OneReservedVolume(b.template.volumes, kv[0]);
      OneReservedMount(UserMounts(b), km[0]);
    } else {
      assert b.template.volumes + kv == b.template.volumes && UserMounts(b) + km == UserMounts(b);
    }
  }

  /** Once each writer has run after the other, neither writes again. */
  lemma WritersQuiesce(d: Deployment, b: Backend, m: Runtime, now: string, later: string)
    requires WellFormedBackend(b) && Has(d.template.containers, b.container)
    ensures Activate(d, b.container, m, now).Success?
    ensures var settled := Reconcile(Activate(d, b.container, m, now).value, b);
            && Activate(settled, b.container, m, later) == Success(settled)
            && Reconcile(settled, b) == settled
  {
    ActivateMatches(d, b.container, m, now);
    var a := Activate(d, b.container, m, now).value;
    ReconcileKeepsMatch(a, b, m);
    ReconcileIdempotent(a, b);
    ActivateFixpoint(Reconcile(a, b), b.container, m, later);
  }
}

/**
 * The two controllers that write one backend Deployment.
 *
 * `Activate` is what the active-model controller does to the target Deployment
 * (internal/controller/llmactivemodel_controller.go, activateDeployment); `Reconcile` is what the
 * backend controller does to a Deployment that already exists
 * (internal/controller/backend_workload.go, ensureBackendWorkload).  Fields that neither
 * controller inspects are carried in the opaque `rest` fields.
 */
module Workload {
  import opened Prelude

  const ACTIVE_MODEL := "llm.cogito.dev/active-model"
  const SWITCHED_AT := "llm.cogito.dev/switched-at"
  const TEMPLATE_DIGEST := "llm.cogito.dev/chat-template-sha256"
  const RESERVED_VOLUME := "llm-chat-template"
  const MOUNT_DIR := "/etc/llm-templates"
  const MOUNT_FILE := "chat-template.jinja"

  const RUNTIME_KEYS: set<string> := {ACTIVE_MODEL, SWITCHED_AT, TEMPLATE_DIGEST}

  datatype KeyToPath = KeyToPath(key: string, path: string, mode: Option<int>)
  datatype ConfigMapSource = ConfigMapSource(name: string, items: seq<KeyToPath>, defaultMode: Option<int>)
  datatype Volume = Volume(name: string, configMap: Option<ConfigMapSource>, rest: string)
  datatype VolumeMount = VolumeMount(name: string, mountPath: string, readOnly: bool, rest: string)
  datatype EnvVar = EnvVar(name: string, value: string)
  datatype Container = Container(name: string, args: seq<string>, mounts: seq<VolumeMount>, env: seq<EnvVar>,
      rest: string)
  datatype PodTemplate = PodTemplate(labels: map<string, string>, annotations: map<string, string>,
                                     containers: seq<Container>, volumes: seq<Volume>, rest: string)
  datatype Deployment = Deployment(labels: map<string, string>, replicas: Option<int>,
                                   selector: map<string, string>, strategy: string, template: PodTemplate)

  datatype ChatTemplate = ChatTemplate(configMap: string, key: string, sha256: string)

  /** What a model asks of the runtime container: its name, its effective arguments and its template. */
  datatype Runtime = Runtime(name: string, args: seq<string>, template: Option<ChatTemplate>)

  /** A workload-mode backend: the user's pod template and the names the controller adds. */
  datatype Backend = Backend(container: string, template: PodTemplate, strategy: string, labels: map<string, string>)

  function Get(m: map<string, string>, k: string): string {
    if k in m then m[k] else ""
  }

  /** The digest annotation a model asks for; a model without a template asks for none. */
  function Digest(t: Option<ChatTemplate>): string {
    if t.Some? then t.value.sha256 else ""
  }

  /** Index of the first container called `name`, or the length when there is none. */
  function Find(cs: seq<Container>, name: string): (i: nat)
    ensures i <= |cs|
    ensures i < |cs| ==> cs[i].name == name
    ensures forall j :: 0 <= j < i ==> cs[j].name != name
  {
    if cs == [] then 0
    else if cs[0].name == name then 0
    else 1 + Find(cs[1..], name)
  }

  predicate Has(cs: seq<Container>, name: string) {
    Find(cs, name) < |cs|
  }

  predicate ReservedVolume(v: Volume) { v.name == RESERVED_VOLUME }
  predicate OtherVolume(v: Volume) { v.name != RESERVED_VOLUME }
  predicate ReservedMount(m: VolumeMount) { m.name == RESERVED_VOLUME }
  predicate OtherMount(m: VolumeMount) { m.name != RESERVED_VOLUME }

  function FreshVolume(t: ChatTemplate): Volume {
    Volume(RESERVED_VOLUME, Some(ConfigMapSource(t.configMap, [KeyToPath(t.key, MOUNT_FILE, None)], None)), "")
  }

  function FreshMount(): VolumeMount {
    VolumeMount(RESERVED_VOLUME, MOUNT_DIR, true, "")
  }

  /** The controller-owned part of the reserved volume; file modes may have been defaulted since. */
  predicate VolumeFits(v: Volume, t: ChatTemplate) {
    && v.configMap.Some?
    && v.configMap.value.name == t.configMap
    && |v.configMap.value.items| == 1
    && v.configMap.value.items[0].key == t.key
    && v.configMap.value.items[0].path == MOUNT_FILE
  }

  predicate MountFits(m: VolumeMount) {
    m.mountPath == MOUNT_DIR && m.readOnly
  }

  /** What chatTemplateMounted decides, said of the reserved volumes and mounts alone. */
  predicate Mounted(volumes: seq<Volume>, mounts: seq<VolumeMount>, t: Option<ChatTemplate>) {
    var rv, rm := Filter(ReservedVolume, volumes), Filter(ReservedMount, mounts);
    if t.None? then rv == [] && rm == []
    else |rv| == 1 && VolumeFits(rv[0], t.value) && rm != [] && MountFits(rm[0])
  }

  function AppliedVolumes(volumes: seq<Volume>, mounts: seq<VolumeMount>, t: Option<ChatTemplate>): seq<Volume> {
    if t.Some? && Mounted(volumes, mounts, t) then volumes
    else Filter(OtherVolume, volumes) + (if t.Some? then [FreshVolume(t.value)] else [])
  }

  function AppliedMounts(volumes: seq<Volume>, mounts: seq<VolumeMount>, t: Option<ChatTemplate>): seq<VolumeMount> {
    if t.Some? && Mounted(volumes, mounts, t) then mounts
    else Filter(OtherMount, mounts) + (if t.Some? then [FreshMount()] else [])
  }

  predicate TemplateChanged(p: PodTemplate, i: nat, t: Option<ChatTemplate>)
    requires i < |p.containers|
  {
    var c := p.containers[i];
    AppliedVolumes(p.volumes, c.mounts, t) != p.volumes || AppliedMounts(p.volumes, c.mounts, t) != c.mounts
  }

  /** Whether activation rewrites arguments and annotations, and so starts a rollout. */
  predicate Changed(p: PodTemplate, i: nat, m: Runtime)
    requires i < |p.containers|
  {
    || p.containers[i].args != m.args
    || Get(p.annotations, ACTIVE_MODEL) != m.name
    || TemplateChanged(p, i, m.template)
    || Get(p.annotations, TEMPLATE_DIGEST) != Digest(m.template)
  }

  function StampedAnnotations(a: map<string, string>, m: Runtime, now: string): map<string, string> {
    var b := a[ACTIVE_MODEL := m.name][SWITCHED_AT := now];
    if Digest(m.template) == "" then b - {TEMPLATE_DIGEST} else b[TEMPLATE_DIGEST := Digest(m.template)]
  }

  function ActivatedTemplate(p: PodTemplate, i: nat, m: Runtime, now: string): PodTemplate
    requires i < |p.containers|
  {
    var c := p.containers[i];
    var c' := c.(args := m.args, mounts := AppliedMounts(p.volumes, c.mounts, m.template));
    p.(containers := p.containers[i := c'],
       volumes := AppliedVolumes(p.volumes, c.mounts, m.template),
       annotations := if Changed(p, i, m) then StampedAnnotations(p.annotations, m, now) else p.annotations)
  }

  function Activate(d: Deployment, container: string, m: Runtime, now: string): Result<Deployment> {
    var i := Find(d.template.containers, container);
    if i == |d.template.containers| then Failure("container not found")
    else Success(d.(replicas := Some(1), template := ActivatedTemplate(d.template, i, m, now)))
  }

  /** deploymentMatchesModel, where the Deployment has the runtime container. */
  predicate Matches(d: Deployment, container: string, m: Runtime)
    requires Has(d.template.containers, container)
  {
    var p := d.template;
    var c := p.containers[Find(p.containers, container)];
    && c.args == m.args
    && Get(p.annotations, ACTIVE_MODEL) == m.name
    && Mounted(p.volumes, c.mounts, m.template)
    && Get(p.annotations, TEMPLATE_DIGEST) == Digest(m.template)
  }

  /** What the custom resource schema guarantees: model names and pinned digests are not empty. */
  predicate Admitted(m: Runtime) {
    m.name != "" && (m.template.Some? ==> m.template.value.sha256 != "")
  }

  // ------------------------------------------------------------------ the backend controller

  function MergeLabels(existing: map<string, string>, required: map<string, string>): map<string, string> {
    existing + required
  }

  /** preserveTransitionRuntime: carry the runtime state of `current` into the user's template. */
  function Preserve(current: PodTemplate, desired: PodTemplate, container: string): PodTemplate {
    var i, j := Find(desired.containers, container), Find(current.containers, container);
    var p :=
      if i == |desired.containers| || j == |current.containers| then desired
      else
        var cj := current.containers[j];
        var withArgs := desired.containers[i].(args := cj.args);
        var rv, rm := Filter(ReservedVolume, current.volumes), Filter(ReservedMount, cj.mounts);
        if rv == [] || rm == [] then desired.(containers := desired.containers[i := withArgs])
        else desired.(
          volumes := Filter(OtherVolume, desired.volumes) + [rv[0]],
          containers := desired.containers[i := withArgs.(mounts := Filter(OtherMount, withArgs.mounts) + [rm[0]])]);
    p.(annotations := desired.annotations + map k | k in RUNTIME_KEYS
        && k in current.annotations :: current.annotations[k])
  }

  /** The backend reconcile of an existing Deployment: replicas and runtime state survive. */
  function Reconcile(d: Deployment, b: Backend): Deployment {
    var desired := b.template.(labels := MergeLabels(b.template.labels, b.labels));
    Deployment(MergeLabels(d.labels, b.labels), d.replicas, b.labels, b.strategy,
        Preserve(d.template, desired, b.container))
  }

  /** The user's template contains the runtime container and stays off the reserved names. */
  predicate WellFormedBackend(b: Backend) {
    && Has(b.template.containers, b.container)
    && (forall v :: v in b.template.volumes ==> OtherVolume(v))
    && (forall m :: m in b.template.containers[Find(b.template.containers, b.container)].mounts ==> OtherMount(m))
    && b.template.annotations.Keys !! RUNTIME_KEYS
  }

  // ------------------------------------------------------------------ facts about the template pair

  lemma SplitVolumes(vs: seq<Volume>)
    ensures Filter(ReservedVolume, Filter(OtherVolume, vs)) == []
    ensures Filter(OtherVolume, Filter(OtherVolume, vs)) == Filter(OtherVolume, vs)
  {
    FilterExclusive(OtherVolume, ReservedVolume, vs);
    FilterAll(OtherVolume, Filter(OtherVolume, vs));
  }

  lemma SplitMounts(ms: seq<VolumeMount>)
    ensures Filter(ReservedMount, Filter(OtherMount, ms)) == []
    ensures Filter(OtherMount, Filter(OtherMount, ms)) == Filter(OtherMount, ms)
  {
    FilterExclusive(OtherMount, ReservedMount, ms);
    FilterAll(OtherMount, Filter(OtherMount, ms));
  }

  /** A reserved-free list followed by one reserved element. */
  lemma OneReservedVolume(vs: seq<Volume>, v: Volume)
    requires forall x :: x in vs ==> OtherVolume(x)
    requires ReservedVolume(v)
    ensures Filter(ReservedVolume, vs + [v]) == [v]
    ensures Filter(OtherVolume, vs + [v]) == vs
  {
    FilterConcat(ReservedVolume, vs, [v]);
    FilterConcat(OtherVolume, vs, [v]);
    FilterNone(ReservedVolume, vs);
    FilterAll(OtherVolume, vs);
  }

  lemma OneReservedMount(ms: seq<VolumeMount>, m: VolumeMount)
    requires forall x :: x in ms ==> OtherMount(x)
    requires ReservedMount(m)
    ensures Filter(ReservedMount, ms + [m]) == [m]
    ensures Filter(OtherMount, ms + [m]) == ms
  {
    FilterConcat(ReservedMount, ms, [m]);
    FilterConcat(OtherMount, ms, [m]);
    FilterNone(ReservedMount, ms);
    FilterAll(OtherMount, ms);
  }

  lemma NoReserved(vs: seq<Volume>, ms: seq<VolumeMount>)
    requires forall x :: x in vs ==> OtherVolume(x)
    requires forall x :: x in ms ==> OtherMount(x)
    ensures Filter(ReservedVolume, vs) == [] && Filter(OtherVolume, vs) == vs
    ensures Filter(ReservedMount, ms) == [] && Filter(OtherMount, ms) == ms
  {
    FilterNone(ReservedVolume, vs);
    FilterAll(OtherVolume, vs);
    FilterNone(ReservedMount, ms);
    FilterAll(OtherMount, ms);
  }

  /** applyChatTemplate establishes chatTemplateMounted and leaves all other volumes and mounts in place. */
  lemma ApplyMounts(vs: seq<Volume>, ms: seq<VolumeMount>, t: Option<ChatTemplate>)
    ensures Mounted(AppliedVolumes(vs, ms, t), AppliedMounts(vs, ms, t), t)
    ensures Filter(OtherVolume, AppliedVolumes(vs, ms, t)) == Filter(OtherVolume, vs)
    ensures Filter(OtherMount, AppliedMounts(vs, ms, t)) == Filter(OtherMount, ms)
  {
    if !(t.Some? && Mounted(vs, ms, t)) {
      SplitVolumes(vs);
      SplitMounts(ms);
      if t.Some? {
        OneReservedVolume(Filter(OtherVolume, vs), FreshVolume(t.value));
        OneReservedMount(Filter(OtherMount, ms), FreshMount());
      } else {
        assert Filter(OtherVolume, vs) + [] == Filter(OtherVolume, vs);
        assert Filter(OtherMount, ms) + [] == Filter(OtherMount, ms);
      }
    }
  }

  /** applyChatTemplate reports a change exactly when the template was not mounted. */
  lemma ApplyChangesIffUnmounted(vs: seq<Volume>, ms: seq<VolumeMount>, t: Option<ChatTemplate>)
    ensures (AppliedVolumes(vs, ms, t) == vs && AppliedMounts(vs, ms, t) == ms) <==> Mounted(vs, ms, t)
  {
    ApplyMounts(vs, ms, t);
    if t.None? && Mounted(vs, ms, t) {
      forall x | x in vs ensures OtherVolume(x) { assert ReservedVolume(x) ==> x in Filter(ReservedVolume, vs); }
      forall x | x in ms ensures OtherMount(x) { assert ReservedMount(x) ==> x in Filter(ReservedMount, ms); }
      NoReserved(vs, ms);
      assert vs + [] == vs && ms + [] == ms;
    }
  }

  lemma FindUpdated(cs: seq<Container>, name: string, c: Container)
    requires Has(cs, name) && c.name == name
    ensures Find(cs[Find(cs, name) := c], name) == Find(cs, name)
  {
    var i := Find(cs, name);
    var cs' := cs[i := c];
    assert forall j :: 0 <= j < i ==> cs'[j].name != name;
    assert cs'[i].name == name;
  }

  // ------------------------------------------------------------------ activation

  /** After a successful activation the Deployment matches the model at one replica. */
  lemma ActivateMatches(d: Deployment, container: string, m: Runtime, now: string)
    ensures Activate(d, container, m, now).Success? <==> Has(d.template.containers, container)
    ensures Activate(d, container, m, now).Success? ==>
              var d' := Activate(d, container, m, now).value;
              && d'.replicas == Some(1)
              && Has(d'.template.containers, container)
              && Matches(d', container, m)
  {
    if Has(d.template.containers, container) {
      var p := d.template;
      var i := Find(p.containers, container);
      var p' := ActivatedTemplate(p, i, m, now);
      FindUpdated(p.containers, container, p'.containers[i]);
      ApplyMounts(p.volumes, p.containers[i].mounts, m.template);
    }
  }

  /** Activation writes a rollout exactly when the Deployment did not match the model. */
  lemma ChangedIffNotMatching(d: Deployment, container: string, m: Runtime)
    requires Has(d.template.containers, container)
    ensures Changed(d.template, Find(d.template.containers, container), m) <==> !Matches(d, container, m)
  {
    var p := d.template;
    var c := p.containers[Find(p.containers, container)];
    ApplyChangesIffUnmounted(p.volumes, c.mounts, m.template);
  }

  /** A Deployment that already matches at one replica is left alone, its timestamp included. */
  lemma ActivateFixpoint(d: Deployment, container: string, m: Runtime, now: string)
    requires Has(d.template.containers, container)
    ensures Activate(d, container, m, now) == Success(d) <==> Matches(d, container, m) && d.replicas == Some(1)
  {
    var p := d.template;
    var i := Find(p.containers, container);
    ChangedIffNotMatching(d, container, m);
    ApplyChangesIffUnmounted(p.volumes, p.containers[i].mounts, m.template);
    ActivateMatches(d, container, m, now);
    if Matches(d, container, m) && d.replicas == Some(1) {
      assert p.containers[i := p.containers[i]] == p.containers;
    }
  }

  /** Activating twice is activating once, whatever the clock says the second time. */
  lemma ActivateIdempotent(d: Deployment, container: string, m: Runtime, now: string, later: string)
    requires Has(d.template.containers, container)
    ensures Activate(d, container, m, now).Success?
    ensures var once := Activate(d, container, m, now); Activate(once.value, container, m, later) == once
  {
    ActivateMatches(d, container, m, now);
    ActivateFixpoint(Activate(d, container, m, now).value, container, m, later);
  }

  /** Everything activation does not own keeps its value and its order. */
  lemma ActivateFrame(d: Deployment, container: string, m: Runtime, now: string)
    requires Has(d.template.containers, container)
    ensures var i, d' := Find(d.template.containers, container), Activate(d, container, m, now).value;
            var p, p' := d.template, d'.template;
            && d' == d.(replicas := d'.replicas, template := p')
            && p' == p.(containers := p'.containers, volumes := p'.volumes, annotations := p'.annotations)
            && |p'.containers| == |p.containers|
            && (forall j :: 0 <= j < |p.containers| && j != i ==> p'.containers[j] == p.containers[j])
            && p'.containers[i] == p.containers[i].(args := p'.containers[i].args, mounts := p'.containers[i].mounts)
            && Filter(OtherMount, p'.containers[i].mounts) == Filter(OtherMount, p.containers[i].mounts)
            && Filter(OtherVolume, p'.volumes) == Filter(OtherVolume, p.volumes)
            && p'.annotations - RUNTIME_KEYS == p.annotations - RUNTIME_KEYS
  {
    var p := d.template;
    ApplyMounts(p.volumes, p.containers[Find(p.containers, container)].mounts, m.template);
  }
}

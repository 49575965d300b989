/**
 * The stored Deployment as an object that both controllers update field by field.  Every method
 * is tied to the function of module Workload that says what it computes.
 */
module LiveDeployments {
  import opened Prelude
  import opened Workload

  class LiveDeployment {
    var labels: map<string, string>
    var replicas: Option<int>
    var selector: map<string, string>
    var strategy: string
    var podLabels: map<string, string>
    var annotations: map<string, string>
    var containers: seq<Container>
    var volumes: seq<Volume>
    var rest: string
    /** Number of patches sent to the API server. */
    var patches: nat

    function Pod(): PodTemplate
      reads this
    {
      PodTemplate(podLabels, annotations, containers, volumes, rest)
    }

    function Value(): Deployment
      reads this
    {
      Deployment(labels, replicas, selector, strategy, Pod())
    }

    constructor (d: Deployment)
      ensures Value() == d && patches == 0
    {
      labels, replicas, selector, strategy := d.labels, d.replicas, d.selector, d.strategy;
      podLabels, annotations, containers := d.template.labels, d.template.annotations, d.template.containers;
      volumes, rest, patches := d.template.volumes, d.template.rest, 0;
    }

    /** The scans of chatTemplateMounted when no template is wanted. */
    method NothingReserved(i: nat) returns (none: bool)
      requires i < |containers|
      ensures none == Mounted(volumes, containers[i].mounts, None)
    {
      var mounts := containers[i].mounts;
      for k := 0 to |volumes|
        invariant forall j :: 0 <= j < k ==> !ReservedVolume(volumes[j])
      {
        if volumes[k].name == RESERVED_VOLUME {
          assert volumes[k] in Filter(ReservedVolume, volumes);
          return false;
        }
      }
      FilterNone(ReservedVolume, volumes);
      for k := 0 to |mounts|
        invariant forall j :: 0 <= j < k ==> !ReservedMount(mounts[j])
      {
        if mounts[k].name == RESERVED_VOLUME {
          assert mounts[k] in Filter(ReservedMount, mounts);
          return false;
        }
      }
      FilterNone(ReservedMount, mounts);
      none := true;
    }

    /** The scan of chatTemplateMounted over the volumes: exactly one is reserved, and it fits. */
    method OneVolumeFits(t: ChatTemplate) returns (fits: bool)
      ensures var rv := Filter(ReservedVolume, volumes); fits == (|rv| == 1 && VolumeFits(rv[0], t))
    {
      var all := volumes;
      var found: Option<Volume> := None;
      for k := 0 to |all|
        invariant Filter(ReservedVolume, all[..k]) == AsSeq(found)
      {
        SnocVolume(all, k);
        if all[k].name == RESERVED_VOLUME {
          if found.Some? {
            ReservedSoFar(all, k + 1);
            return false;
          }
          found := Some(all[k]);
        }
      }
      assert all[..|all|] == all;
      return found.Some? && VolumeFits(found.value, t);
    }

    /** The two scans of chatTemplateMounted. */
    method ChatTemplateMounted(i: nat, t: Option<ChatTemplate>) returns (mounted: bool)
      requires i < |containers|
      ensures mounted == Mounted(volumes, containers[i].mounts, t)
    {
      var mounts := containers[i].mounts;
      if t.None? {
        mounted := NothingReserved(i);
        return;
      }
      var fits := OneVolumeFits(t.value);
      if !fits {
        return false;
      }
      for k := 0 to |mounts|
        invariant Filter(ReservedMount, mounts[..k]) == []
      {
        SnocMount(mounts, k);
        if mounts[k].name == RESERVED_VOLUME {
          SplitAt(mounts, k + 1);
          FilterConcat(ReservedMount, mounts[..k + 1], mounts[k + 1..]);
          return mounts[k].mountPath == MOUNT_DIR && mounts[k].readOnly;
        }
      }
      assert mounts[..|mounts|] == mounts;
      return false;
    }

    /** applyChatTemplate: filter the reserved pair out of both lists and append the fresh one. */
    method ApplyChatTemplate(i: nat, t: Option<ChatTemplate>) returns (changed: bool)
      requires i < |containers|
      modifies this`volumes, this`containers
      ensures volumes == AppliedVolumes(old(volumes), old(containers[i].mounts), t)
      ensures containers ==
              old(containers)[i :=
                  old(containers)[i].(mounts := AppliedMounts(old(volumes), old(containers[i].mounts), t))]
      ensures changed <==> !Mounted(old(volumes), old(containers[i].mounts), t)
    {
      ApplyChangesIffUnmounted(volumes, containers[i].mounts, t);
      var here := ChatTemplateMounted(i, t);
      if t.Some? && here {
        assert containers == containers[i := containers[i].(mounts := containers[i].mounts)];
        return false;
      }
      var beforeVolumes, beforeMounts := volumes, containers[i].mounts;
      var kept := UnreservedVolumes(beforeVolumes);
      var mounts := UnreservedMounts(beforeMounts);
      if t.Some? {
        kept := kept + [FreshVolume(t.value)];
        mounts := mounts + [FreshMount()];
      }
      assert kept == AppliedVolumes(beforeVolumes, beforeMounts, t);
      assert mounts == AppliedMounts(beforeVolumes, beforeMounts, t);
      volumes := kept;
      containers := containers[i := containers[i].(mounts := mounts)];
      changed := beforeVolumes != volumes || beforeMounts != mounts;
    }

    /** activateDeployment: at most one patch, and none when nothing differs. */
    method ActivateDeployment(container: string, m: Runtime, now: string) returns (ok: bool)
      modifies this
      ensures ok == Activate(old(Value()), container, m, now).Success?
      ensures Value() == if ok then Activate(old(Value()), container, m, now).value else old(Value())
      ensures patches == old(patches) + if Value() != old(Value()) then 1 else 0
    {
      var base := Value();
      var i := FirstContainer(containers, container);
      if i == |containers| {
        return false;
      }
      UpdateRuntime(i, m, now);
      replicas := Some(1);
      if Value() != base {
        patches := patches + 1;
      }
      return true;
    }

    /** The body of activateDeployment's loop, on the runtime container. */
    method UpdateRuntime(i: nat, m: Runtime, now: string)
      requires i < |containers|
      modifies this`annotations, this`containers, this`volumes
      ensures Pod() == ActivatedTemplate(old(Pod()), i, m, now)
    {
      ghost var p := Pod();
      var argsChanged := containers[i].args != m.args;
      var activeChanged := Get(annotations, ACTIVE_MODEL) != m.name;
      ApplyChangesIffUnmounted(volumes, containers[i].mounts, m.template);
      var templateChanged := ApplyChatTemplate(i, m.template);
      var digestChanged := Get(annotations, TEMPLATE_DIGEST) != Digest(m.template);
      if argsChanged || activeChanged || templateChanged || digestChanged {
        annotations := StampedAnnotations(annotations, m, now);
        containers := containers[i := containers[i].(args := m.args)];
      }
      assert containers == ActivatedTemplate(p, i, m, now).containers;
    }

    /** The Deployment half of ensureBackendWorkload, for a Deployment that exists. */
    method ReconcileBackend(b: Backend)
      modifies this
      ensures Value() == Reconcile(old(Value()), b)
      ensures patches == old(patches) + if Value() != old(Value()) then 1 else 0
    {
      var before := Value();
      var template := PreserveTransitionRuntime(b.template.(labels := MergeLabels(b.template.labels, b.labels)),
          b.container);
      var after := Deployment(MergeLabels(labels, b.labels), replicas, b.labels, b.strategy, template);
      if before != after {
        Patch(after);
      }
    }

    /** One patch of the whole Deployment. */
    method Patch(d: Deployment)
      modifies this
      ensures Value() == d && patches == old(patches) + 1
    {
      labels, replicas, selector, strategy := d.labels, d.replicas, d.selector, d.strategy;
      podLabels, annotations, containers := d.template.labels, d.template.annotations, d.template.containers;
      volumes, rest, patches := d.template.volumes, d.template.rest, patches + 1;
    }

    /** preserveTransitionRuntime on a copy of the user's template. */
    method PreserveTransitionRuntime(template: PodTemplate, container: string) returns (desired: PodTemplate)
      ensures desired == Preserve(Pod(), template, container)
    {
      desired := template;
      var i := FirstContainer(desired.containers, container);
      var j := FirstContainer(containers, container);
      if i < |desired.containers| && j < |containers| {
        var withArgs := desired.containers[i].(args := containers[j].args);
        desired := PreserveChatTemplateMount(desired, i, withArgs, j);
      }
      var carried := CarryRuntimeAnnotations(template.annotations);
      desired := desired.(annotations := carried);
    }

    /** preserveChatTemplateMount: the reserved pair of the live template, if complete, replaces the user's. */
    method PreserveChatTemplateMount(
        template: PodTemplate, i: nat, runtime: Container, j: nat) returns (desired: PodTemplate)
      requires i < |template.containers| && j < |containers|
      ensures var rv, rm := Filter(ReservedVolume, volumes), Filter(ReservedMount, containers[j].mounts);
              desired ==
              if rv == [] || rm == [] then template.(containers := template.containers[i := runtime])
              else template.(
                volumes := Filter(OtherVolume, template.volumes) + [rv[0]],
                containers := template.containers[i :=
                    runtime.(mounts := Filter(OtherMount, runtime.mounts) + [rm[0]])])
    {
      var volume := FirstReservedVolume();
      var mount := FirstReservedMount(containers[j].mounts);
      if volume.None? || mount.None? {
        desired := template.(containers := template.containers[i := runtime]);
        return;
      }
      var kept := UnreservedVolumes(template.volumes);
      var mounts := UnreservedMounts(runtime.mounts);
      desired := template.(
        volumes := kept + [volume.value],
        containers := template.containers[i := runtime.(mounts := mounts + [mount.value])]);
    }

    /** The three annotations the active-model controller owns. */
    method CarryRuntimeAnnotations(base: map<string, string>) returns (carried: map<string, string>)
      ensures carried == base + map k | k in RUNTIME_KEYS && k in annotations :: annotations[k]
    {
      carried := CarryAnnotations(base, [ACTIVE_MODEL, SWITCHED_AT, TEMPLATE_DIGEST]);
      KeysAsList(annotations, ACTIVE_MODEL, SWITCHED_AT, TEMPLATE_DIGEST);
    }

    /** The transition annotations `keys`, where present, copied over the user's own. */
    method CarryAnnotations(base: map<string, string>, keys: seq<string>) returns (carried: map<string, string>)
      ensures carried == base + map k | k in keys && k in annotations :: annotations[k]
    {
      carried := base;
      for k := 0 to |keys|
        invariant carried == base + map x | x in keys[..k] && x in annotations :: annotations[x]
      {
        assert keys[..k + 1] == keys[..k] + [keys[k]];
        if keys[k] in annotations {
          carried := carried[keys[k] := annotations[keys[k]]];
        }
      }
      assert keys[..|keys|] == keys;
    }

    /** The reserved volumes filtered out within the backing array. */
    static method UnreservedVolumes(vs: seq<Volume>) returns (kept: seq<Volume>)
      ensures kept == Filter(OtherVolume, vs)
    {
      var a := new Volume[|vs|](i requires 0 <= i < |vs| => vs[i]);
      assert a[..] == vs;
      var n := CompactInPlace(a, OtherVolume);
      kept := a[..n];
    }

    static method UnreservedMounts(ms: seq<VolumeMount>) returns (kept: seq<VolumeMount>)
      ensures kept == Filter(OtherMount, ms)
    {
      var a := new VolumeMount[|ms|](i requires 0 <= i < |ms| => ms[i]);
      assert a[..] == ms;
      var n := CompactInPlace(a, OtherMount);
      kept := a[..n];
    }

    method FirstReservedVolume() returns (v: Option<Volume>)
      ensures var rv := Filter(ReservedVolume, volumes); v == if rv == [] then None else Some(rv[0])
    {
      for k := 0 to |volumes|
        invariant Filter(ReservedVolume, volumes[..k]) == []
      {
        SnocVolume(volumes, k);
        if volumes[k].name == RESERVED_VOLUME {
          SplitAt(volumes, k + 1);
          FilterConcat(ReservedVolume, volumes[..k + 1], volumes[k + 1..]);
          return Some(volumes[k]);
        }
      }
      assert volumes[..|volumes|] == volumes;
      return None;
    }

    static method FirstReservedMount(mounts: seq<VolumeMount>) returns (m: Option<VolumeMount>)
      ensures var rm := Filter(ReservedMount, mounts); m == if rm == [] then None else Some(rm[0])
    {
      for k := 0 to |mounts|
        invariant Filter(ReservedMount, mounts[..k]) == []
      {
        SnocMount(mounts, k);
        if mounts[k].name == RESERVED_VOLUME {
          SplitAt(mounts, k + 1);
          FilterConcat(ReservedMount, mounts[..k + 1], mounts[k + 1..]);
          return Some(mounts[k]);
        }
      }
      assert mounts[..|mounts|] == mounts;
      return None;
    }

    static method FirstContainer(cs: seq<Container>, name: string) returns (i: nat)
      ensures i == Find(cs, name)
    {
      i := 0;
      while i < |cs| && cs[i].name != name
        invariant i <= Find(cs, name)
      {
        i := i + 1;
      }
    }
  }

  lemma KeysAsList(m: map<string, string>, a: string, b: string, c: string)
    ensures (map k | k in [a, b, c] && k in m :: m[k]) == (map k | k in {a, b, c} && k in m :: m[k])
  {
    assert forall x :: x in [a, b, c] <==> x in {a, b, c};
  }

  lemma SplitAt<T>(s: seq<T>, k: nat)
    requires k <= |s|
    ensures s == s[..k] + s[k..]
  {
  }

  function AsSeq<T>(o: Option<T>): seq<T> { if o.Some? then [o.value] else [] }

  lemma ReservedSoFar(volumes: seq<Volume>, k: nat)
    requires k <= |volumes|
    ensures |Filter(ReservedVolume, volumes[..k])| <= |Filter(ReservedVolume, volumes)|
  {
    SplitAt(volumes, k);
    FilterConcat(ReservedVolume, volumes[..k], volumes[k..]);
  }

  lemma SnocVolume(vs: seq<Volume>, k: nat)
    requires k < |vs|
    ensures Filter(OtherVolume, vs[..k + 1]) ==
            Filter(OtherVolume, vs[..k]) + (if OtherVolume(vs[k]) then [vs[k]] else [])
    ensures Filter(ReservedVolume, vs[..k + 1]) ==
            Filter(ReservedVolume, vs[..k]) + (if ReservedVolume(vs[k]) then [vs[k]] else [])
  {
    assert vs[..k + 1] == vs[..k] + [vs[k]];
    FilterConcat(OtherVolume, vs[..k], [vs[k]]);
    FilterConcat(ReservedVolume, vs[..k], [vs[k]]);
  }

  lemma SnocMount(ms: seq<VolumeMount>, k: nat)
    requires k < |ms|
    ensures Filter(OtherMount, ms[..k + 1]) == Filter(OtherMount, ms[..k]) + (if OtherMount(ms[k]) then [ms[k]] else [])
    ensures Filter(ReservedMount, ms[..k + 1]) ==
            Filter(ReservedMount, ms[..k]) + (if ReservedMount(ms[k]) then [ms[k]] else [])
  {
    assert ms[..k + 1] == ms[..k] + [ms[k]];
    FilterConcat(OtherMount, ms[..k], [ms[k]]);
    FilterConcat(ReservedMount, ms[..k], [ms[k]]);
  }
}

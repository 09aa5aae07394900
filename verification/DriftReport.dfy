/** When a merge reports: exactly when something the cluster already has differs from what the
    source asks for. Appending what it lacks is no reason. */
module DriftReport {
  import opened Options
  import opened DriftHeap
  import opened DriftMerge
  import opened DriftReach

  predicate ContainersDiffer(st: Store, cs: seq<Container>, ss: seq<Container>) {
    exists i, j :: 0 <= i < |cs| && 0 <= j < |ss| && cs[i].name == ss[j].name
                   && (cs[i].managed != ss[j].managed
                       || EnvValue(st, cs[i].env) != EnvDefaulted(EnvValue(st, ss[j].env)))
  }

  predicate VolumeDiffers(st: Store, cs: seq<Volume>, s: Volume) {
    Named(cs, s.name) >= 0
    && SourceValue(st, cs[Named(cs, s.name)].source) != Defaulted(SourceValue(st, s.source))
  }

  predicate VolumesDiffer(st: Store, cs: seq<Volume>, ss: seq<Volume>) {
    exists j :: 0 <= j < |ss| && VolumeDiffers(st, cs, ss[j])
  }

  predicate DistinctVolumes(ss: seq<Volume>) {
    forall j, k :: 0 <= j < k < |ss| ==> ss[j].name != ss[k].name
  }

  /** The defaults, in so many words: mode 420 for secrets, config maps and downward volumes,
      "v1" for field references without an API version, nothing else. */
  lemma DefaultsInWords(v: VolumeValue, f: Option<FieldCell>)
    ensures var d := Defaulted(v);
            && (v.secret.Some? ==>
                  d.secret == Some(ModeCell(
                    Some(if v.secret.value.mode == None then 420 else v.secret.value.mode.value),
                    v.secret.value.body)))
            && (v.configMap.Some? ==>
                  d.configMap == Some(ModeCell(
                    Some(if v.configMap.value.mode == None then 420 else v.configMap.value.mode.value),
                    v.configMap.value.body)))
            && (v.downward.Some? ==>
                  && d.downward.Some? && |d.downward.value.items| == |v.downward.value.items|
                  && d.downward.value.mode
                     == Some(if v.downward.value.mode == None then 420 else v.downward.value.mode.value)
                  && forall i :: 0 <= i < |v.downward.value.items| ==>
                       d.downward.value.items[i]
                       == (v.downward.value.items[i].0, FieldDefaulted(v.downward.value.items[i].1)))
            && (v.secret == None ==> d.secret == None) && (v.configMap == None ==> d.configMap == None)
            && (v.downward == None ==> d.downward == None) && d.rest == v.rest
    ensures FieldDefaulted(f) == if f == None then None
                                 else Some(FieldCell(if f.value.apiVersion == "" then "v1" else f.value.apiVersion,
                                                     f.value.fieldPath))
  {
  }

  // ------------------------------------------------------------- a cluster object apart

  predicate EnvApart(env: seq<EnvVar>, R: Reach) {
    forall i :: 0 <= i < |env| && env[i].fieldRef.Some? ==> env[i].fieldRef.value !in R.fields
  }

  predicate ContainersApart(cs: seq<Container>, R: Reach) {
    forall i :: 0 <= i < |cs| ==> EnvApart(cs[i].env, R)
  }

  /** The cluster's Deployment, as read from the server, shares no memory with `R`. */
  predicate ClusterApart(st: Store, c: Deployment, R: Reach) {
    && ContainersApart(c.initContainers, R) && ContainersApart(c.containers, R)
    && forall i :: 0 <= i < |c.volumes| ==> SourceApart(st, c.volumes[i].source, R)
  }

  lemma EnvUntouched(a: Store, b: Store, env: seq<EnvVar>, R: Reach)
    requires SameOutside(a, b, R) && EnvApart(env, R)
    ensures EnvValue(b, env) == EnvValue(a, env)
  {
    assert forall i :: 0 <= i < |env| ==> FieldValue(b, env[i].fieldRef) == FieldValue(a, env[i].fieldRef);
  }

  lemma SourceUntouched(a: Store, b: Store, v: VolumeSource, R: Reach)
    requires SameOutside(a, b, R) && SourceApart(a, v, R)
    ensures SourceValue(b, v) == SourceValue(a, v)
  {
    if v.downward.Some? {
      var items := a.Downward(v.downward.value).items;
      assert ItemValues(b, items) == ItemValues(a, items);
    }
  }

  // ------------------------------------------------------------------------- containers

  lemma AgreementUntouched(a: Store, b: Store, c: Container, s: Container, R: Reach)
    requires Fills(a, b) && SameOutside(a, b, R) && EnvApart(c.env, R)
    ensures WouldAgree(b, c, s) <==> WouldAgree(a, c, s)
  {
    EnvUntouched(a, b, c.env, R);
    EnvDefaultedStable(a, b, s.env);
  }

  lemma AgreementsUntouched(a: Store, b: Store, cs: seq<Container>, ss: seq<Container>, R: Reach)
    requires Fills(a, b) && SameOutside(a, b, R) && ContainersApart(cs, R)
    ensures AllWouldAgree(b, cs, ss) <==> AllWouldAgree(a, cs, ss)
  {
    forall i, j | 0 <= i < |cs| && 0 <= j < |ss| ensures WouldAgree(b, cs[i], ss[j]) <==> WouldAgree(a, cs[i], ss[j]) {
      AgreementUntouched(a, b, cs[i], ss[j], R);
    }
  }

  lemma DifferIff(st: Store, cs: seq<Container>, ss: seq<Container>)
    ensures ContainersDiffer(st, cs, ss) <==> !AllWouldAgree(st, cs, ss)
  {
  }

  lemma ContainersReportIff(st: Store, cs: seq<Container>, ss: seq<Container>, R: Reach)
    requires ContainersApart(cs, R) && forall j :: 0 <= j < |ss| ==> EnvIn(ss[j].env, R)
    ensures MergeContainers(st, cs, ss).modified <==> ContainersDiffer(st, cs, ss)
  {
    var r := MergeContainers(st, cs, ss);
    DifferIff(st, cs, ss);
    if AllWouldAgree(st, cs, ss) {
      MergeContainersSettled(st, cs, ss);
    } else if !r.modified {
      UnreportedAgrees(st, cs, ss);
      MergeContainersFrame(st, cs, ss);
      MergeContainersOutside(st, cs, ss, R);
      AgreeingWouldAgree(r.store, cs, ss);
      AgreementsUntouched(st, r.store, cs, ss, R);
    }
  }

  lemma AgreeingWouldAgree(st: Store, cs: seq<Container>, ss: seq<Container>)
    requires AllAgree(st, cs, ss)
    ensures AllWouldAgree(st, cs, ss)
  {
    forall i, j | 0 <= i < |cs| && 0 <= j < |ss| && cs[i].name == ss[j].name ensures WouldAgree(st, cs[i], ss[j]) {
      assert ContainerAgrees(st, cs[i], ss[j]);
    }
  }

  // ---------------------------------------------------------------------------- volumes

  /** If those it names are equal, the rest is appended unreported. */
  lemma {:induction false} EqualVolumesAreQuiet(st: Store, cs: seq<Volume>, ss: seq<Volume>)
    requires DistinctVolumes(ss) && !VolumesDiffer(st, cs, ss)
    ensures !MergeVolumes(st, cs, ss).modified
    decreases |ss|
  {
    if ss != [] {
      var s, tail := ss[0], ss[1..];
      var first := MergeVolume(st, cs, s);
      assert forall j :: 0 <= j < |tail| ==> tail[j] == ss[j + 1];
      assert !VolumeDiffers(st, cs, s);
      if Named(cs, s.name) >= 0 {
        MergeVolumeQuiet(st, cs, s);
        FillSourceEffect(st, s.source);
      }
      assert Fills(st, first.store);
      forall j | 0 <= j < |tail| ensures !VolumeDiffers(first.store, first.volumes, tail[j]) {
        assert !VolumeDiffers(st, cs, ss[j + 1]);
        StillEqual(st, cs, first.store, first.volumes, s, ss[j + 1]);
      }
      EqualVolumesAreQuiet(first.store, first.volumes, tail);
    }
  }

  lemma StillEqual(a: Store, cs: seq<Volume>, b: Store, ds: seq<Volume>, s: Volume, t: Volume)
    requires Fills(a, b) && s.name != t.name && !VolumeDiffers(a, cs, t)
    requires ds == cs || ds == cs + [s]
    ensures !VolumeDiffers(b, ds, t)
  {
    NamedAppend(cs, [s], t.name);
    if Named(cs, t.name) >= 0 {
      VolumeEqualStable(a, b, cs[Named(cs, t.name)].source, t.source);
    }
  }

  lemma VolumesReportIff(st: Store, cs: seq<Volume>, ss: seq<Volume>, R: Reach)
    requires DistinctVolumes(ss) && forall j :: 0 <= j < |ss| ==> SourceIn(st, ss[j].source, R)
    requires forall i :: 0 <= i < |cs| ==> SourceApart(st, cs[i].source, R)
    ensures MergeVolumes(st, cs, ss).modified <==> VolumesDiffer(st, cs, ss)
  {
    var r := MergeVolumes(st, cs, ss);
    if !VolumesDiffer(st, cs, ss) {
      EqualVolumesAreQuiet(st, cs, ss);
    } else if !r.modified {
      MergeVolumesFills(st, cs, ss);
      MergeVolumesOutside(st, cs, ss, R);
      var j :| 0 <= j < |ss| && VolumeDiffers(st, cs, ss[j]);
      UnreportedEqual(st, cs, ss, j);
      SourceUntouched(st, r.store, cs[Named(cs, ss[j].name)].source, R);
      DefaultedStable(st, r.store, ss[j].source);
    }
  }

  // ----------------------------------------------------------------------- the Deployment

  predicate HeadDiffers(c: Deployment, s: Deployment) {
    || c.labels != s.labels || c.selector != s.selector || c.replicas != s.replicas
    || c.templateName != s.templateName || c.templateLabels != s.templateLabels
    || c.serviceAccount != s.serviceAccount
  }

  lemma VolumesUntouched(a: Store, b: Store, cs: seq<Volume>, ss: seq<Volume>, R: Reach)
    requires Fills(a, b) && SameOutside(a, b, R) && forall i :: 0 <= i < |cs| ==> SourceApart(a, cs[i].source, R)
    ensures VolumesDiffer(b, cs, ss) <==> VolumesDiffer(a, cs, ss)
    ensures forall i :: 0 <= i < |cs| ==> SourceApart(b, cs[i].source, R)
  {
    forall j | 0 <= j < |ss| ensures VolumeDiffers(b, cs, ss[j]) <==> VolumeDiffers(a, cs, ss[j]) {
      DefaultedStable(a, b, ss[j].source);
      if Named(cs, ss[j].name) >= 0 {
        SourceUntouched(a, b, cs[Named(cs, ss[j].name)].source, R);
      }
    }
  }

  /** A merge of a source into what the server returned reports exactly when a field copied
      whole differs, or a container that both name, or a volume that both name; a container or
      volume only one of them names is no reason. */
  lemma MergeReportsIff(st: Store, c: Deployment, s: Deployment, R: Reach)
    requires Covers(st, s, R) && ClusterApart(st, c, R) && DistinctVolumes(s.volumes)
    ensures Merge(st, c, s).modified <==>
              || HeadDiffers(c, s)
              || ContainersDiffer(st, c.initContainers, s.initContainers)
              || ContainersDiffer(st, c.containers, s.containers)
              || VolumesDiffer(st, c.volumes, s.volumes)
  {
    var inits := MergeContainers(st, c.initContainers, s.initContainers);
    var mains := MergeContainers(inits.store, c.containers, s.containers);
    MergeContainersFrame(st, c.initContainers, s.initContainers);
    MergeContainersOutside(st, c.initContainers, s.initContainers, R);
    ContainersReportIff(st, c.initContainers, s.initContainers, R);
    ContainersReportIff(inits.store, c.containers, s.containers, R);
    AgreementsUntouched(st, inits.store, c.containers, s.containers, R);
    DifferIff(st, c.containers, s.containers);
    DifferIff(inits.store, c.containers, s.containers);
    MergeContainersFrame(inits.store, c.containers, s.containers);
    MergeContainersOutside(inits.store, c.containers, s.containers, R);
    FillsTransitive(st, inits.store, mains.store);
    VolumesUntouched(st, mains.store, c.volumes, s.volumes, R);
    forall j | 0 <= j < |s.volumes| ensures SourceIn(mains.store, s.volumes[j].source, R) {
      SourceInAcross(st, mains.store, s.volumes[j].source, R);
    }
    VolumesReportIff(mains.store, c.volumes, s.volumes, R);
  }

  /** In particular a merge that finds nothing but volumes lacking changes the Deployment and
      says it did not. */
  lemma LackingVolumesGoUnreported(st: Store, c: Deployment, s: Deployment, R: Reach, j: nat)
    requires Covers(st, s, R) && ClusterApart(st, c, R) && DistinctVolumes(s.volumes)
    requires !HeadDiffers(c, s) && !VolumesDiffer(st, c.volumes, s.volumes)
    requires !ContainersDiffer(st, c.initContainers, s.initContainers)
    requires !ContainersDiffer(st, c.containers, s.containers)
    requires j < |s.volumes| && Named(c.volumes, s.volumes[j].name) == -1
    ensures var r := Merge(st, c, s); !r.modified && |r.cluster.volumes| > |c.volumes|
  {
    MergeReportsIff(st, c, s, R);
    var inits := MergeContainers(st, c.initContainers, s.initContainers);
    var mains := MergeContainers(inits.store, c.containers, s.containers);
    UnreportedAppends(mains.store, c.volumes, s.volumes);
    MissingNothingIff(c.volumes, s.volumes);
  }
}

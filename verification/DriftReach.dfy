/** Which memory a merge can write: nothing beyond what the source's own pointers reach, so
    what only the cluster's Deployment points to keeps its value. */
module DriftReach {
  import opened Options
  import opened DriftHeap
  import opened DriftMerge

  /** A set of addresses. */
  datatype Reach = Reach(modes: set<nat>, downwards: set<nat>, fields: set<nat>)

  predicate RefIn(f: Option<nat>, R: set<nat>) {
    f.Some? ==> f.value in R
  }

  predicate EnvIn(env: seq<EnvVar>, R: Reach) {
    forall i :: 0 <= i < |env| ==> RefIn(env[i].fieldRef, R.fields)
  }

  predicate SourceIn(st: Store, v: VolumeSource, R: Reach) {
    && RefIn(v.secret, R.modes) && RefIn(v.configMap, R.modes) && RefIn(v.downward, R.downwards)
    && (v.downward.Some? ==>
          forall i :: 0 <= i < |st.Downward(v.downward.value).items| ==>
            RefIn(st.Downward(v.downward.value).items[i].fieldRef, R.fields))
  }

  ghost predicate SameOutside(a: Store, b: Store, R: Reach) {
    && (forall r: nat :: r !in R.modes ==> a.Mode(r) == b.Mode(r))
    && (forall r: nat :: r !in R.downwards ==> a.Downward(r) == b.Downward(r))
    && (forall r: nat :: r !in R.fields ==> a.Field(r) == b.Field(r))
  }

  lemma FillEnvOutside(st: Store, env: seq<EnvVar>, R: Reach)
    requires EnvIn(env, R)
    ensures SameOutside(st, FillEnv(st, env), R)
  {
    FillFieldsEffect(st, EnvRefs(env));
  }

  lemma FillModeOutside(st: Store, m: Option<nat>, R: Reach)
    requires RefIn(m, R.modes)
    ensures var st1 := FillMode(st, m); SameOutside(st, st1, R) && st1.downwards == st.downwards
  {
  }

  lemma FillDownwardOutside(st: Store, v: VolumeSource, R: Reach)
    requires SourceIn(st, v, R)
    ensures SameOutside(st, FillDownward(st, v.downward), R)
  {
    if v.downward.Some? {
      var d := v.downward.value;
      var st1 := if st.Downward(d).mode == None then
                   st.(downwards := st.downwards[d := st.Downward(d).(mode := Some(DEFAULT_MODE))])
                 else st;
      var items := st.Downward(d).items;
      assert st1.Downward(d).items == items;
      FillFieldsEffect(st1, ItemRefs(items));
      forall r: nat | Some(r) in ItemRefs(items) ensures r in R.fields {
        var i :| 0 <= i < |items| && ItemRefs(items)[i] == Some(r);
        assert RefIn(items[i].fieldRef, R.fields);
      }
    }
  }

  lemma FillSourceOutside(st: Store, v: VolumeSource, R: Reach)
    requires SourceIn(st, v, R)
    ensures SameOutside(st, FillSource(st, v), R)
  {
    FillModeOutside(st, v.secret, R);
    FillModeOutside(FillMode(st, v.secret), v.configMap, R);
    var st2 := FillMode(FillMode(st, v.secret), v.configMap);
    assert forall r: nat :: st2.Downward(r) == st.Downward(r);
    FillDownwardOutside(st2, v, R);
  }

  lemma {:induction false} MergeOneOutside(st: Store, cs: seq<Container>, s: Container, R: Reach)
    requires EnvIn(s.env, R)
    ensures SameOutside(st, MergeOne(st, cs, s).store, R)
    decreases |cs|
  {
    if cs != [] {
      FillEnvOutside(st, s.env, R);
      MergeOneOutside(MergeContainer(st, cs[0], s).store, cs[1..], s, R);
    }
  }

  lemma {:induction false} MergeContainersOutside(st: Store, cs: seq<Container>, ss: seq<Container>, R: Reach)
    requires forall j :: 0 <= j < |ss| ==> EnvIn(ss[j].env, R)
    ensures SameOutside(st, MergeContainers(st, cs, ss).store, R)
    decreases |ss|
  {
    if ss != [] {
      var first := MergeOne(st, cs, ss[0]);
      MergeOneOutside(st, cs, ss[0], R);
      MergeContainersOutside(first.store, first.containers, ss[1..], R);
    }
  }

  lemma SourceInAcross(a: Store, b: Store, v: VolumeSource, R: Reach)
    requires Fills(a, b) && SourceIn(a, v, R)
    ensures SourceIn(b, v, R)
  {
  }

  lemma {:induction false} MergeVolumesOutside(st: Store, cs: seq<Volume>, ss: seq<Volume>, R: Reach)
    requires forall j :: 0 <= j < |ss| ==> SourceIn(st, ss[j].source, R)
    ensures SameOutside(st, MergeVolumes(st, cs, ss).store, R)
    decreases |ss|
  {
    if ss != [] {
      var first := MergeVolume(st, cs, ss[0]);
      FillSourceOutside(st, ss[0].source, R);
      MergeVolumeEffect(st, cs, ss[0]);
      forall j | 0 <= j < |ss[1..]| ensures SourceIn(first.store, ss[1..][j].source, R) {
        assert ss[1..][j] == ss[j + 1];
        SourceInAcross(st, first.store, ss[j + 1].source, R);
      }
      MergeVolumesOutside(first.store, first.volumes, ss[1..], R);
    }
  }

  /** Everything the source Deployment points to lies within `R`. */
  predicate Covers(st: Store, s: Deployment, R: Reach) {
    && (forall j :: 0 <= j < |s.initContainers| ==> EnvIn(s.initContainers[j].env, R))
    && (forall j :: 0 <= j < |s.containers| ==> EnvIn(s.containers[j].env, R))
    && (forall j :: 0 <= j < |s.volumes| ==> SourceIn(st, s.volumes[j].source, R))
  }

  /** A merge writes missing defaults into what the source reaches, and nothing else. */
  lemma MergeWritesOnlyTheSource(st: Store, c: Deployment, s: Deployment, R: Reach)
    requires Covers(st, s, R)
    ensures SameOutside(st, Merge(st, c, s).store, R)
  {
    var inits := MergeContainers(st, c.initContainers, s.initContainers);
    var mains := MergeContainers(inits.store, c.containers, s.containers);
    MergeContainersOutside(st, c.initContainers, s.initContainers, R);
    MergeContainersOutside(inits.store, c.containers, s.containers, R);
    MergeContainersFrame(st, c.initContainers, s.initContainers);
    MergeContainersFrame(inits.store, c.containers, s.containers);
    FillsTransitive(st, inits.store, mains.store);
    forall j | 0 <= j < |s.volumes| ensures SourceIn(mains.store, s.volumes[j].source, R) {
      SourceInAcross(st, mains.store, s.volumes[j].source, R);
    }
    MergeVolumesOutside(mains.store, c.volumes, s.volumes, R);
  }

  /** A volume source that shares no pointer with `R`. */
  predicate SourceApart(st: Store, v: VolumeSource, R: Reach) {
    && (v.secret.Some? ==> v.secret.value !in R.modes)
    && (v.configMap.Some? ==> v.configMap.value !in R.modes)
    && (v.downward.Some? ==>
          && v.downward.value !in R.downwards
          && forall i :: 0 <= i < |st.Downward(v.downward.value).items| ==>
               (st.Downward(v.downward.value).items[i].fieldRef.Some? ==>
                  st.Downward(v.downward.value).items[i].fieldRef.value !in R.fields))
  }

  /** A cluster-only volume that shares no memory with the source keeps its whole value. */
  lemma ClusterOnlyVolumeKeepsItsValue(st: Store, c: Deployment, s: Deployment, R: Reach, i: nat)
    requires Covers(st, s, R) && i < |c.volumes| && SourceApart(st, c.volumes[i].source, R)
    requires forall j :: 0 <= j < |s.volumes| ==> s.volumes[j].name != c.volumes[i].name
    ensures var r := Merge(st, c, s);
            i < |r.cluster.volumes| && r.cluster.volumes[i].name == c.volumes[i].name
            && SourceValue(r.store, r.cluster.volumes[i].source) == SourceValue(st, c.volumes[i].source)
  {
    var r := Merge(st, c, s);
    var inits := MergeContainers(st, c.initContainers, s.initContainers);
    var mains := MergeContainers(inits.store, c.containers, s.containers);
    var v := c.volumes[i].source;
    MergeWritesOnlyTheSource(st, c, s, R);
    MergeVolumesUntouched(mains.store, c.volumes, s.volumes, i);
    if v.downward.Some? {
      var items := st.Downward(v.downward.value).items;
      assert ItemValues(r.store, items) == ItemValues(st, items);
    }
  }
}

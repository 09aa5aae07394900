/** Drift correction: what the source Deployment manages is copied into the cluster's, the
    source is given the server's defaults through its own pointers on the way, and a flag
    tells whether anything differed. */
module DriftMerge {
  import opened Options
  import opened DriftHeap

  /** `managed` stands for image, pull policy, ports, resources, mounts and probes, compared
      and copied one by one; `unmanaged` for everything the merge never looks at. */
  datatype Managed = Managed(
    image: string, pullPolicy: string, ports: string, resources: string,
    volumeMounts: string, readiness: string, liveness: string)

  datatype Container = Container(name: string, managed: Managed, env: seq<EnvVar>, unmanaged: string)

  datatype Deployment = Deployment(
    labels: map<string, string>, selector: string, replicas: Option<int>,
    templateName: string, templateLabels: map<string, string>, serviceAccount: string,
    initContainers: seq<Container>, containers: seq<Container>, volumes: seq<Volume>, unmanaged: string)

  // ------------------------------------------------------------------- the merge

  datatype ContainerResult = ContainerResult(store: Store, container: Container, modified: bool)

  /** One name-matched pair: managed fields, then defaults for the source's environment, then
      the environment itself. */
  function MergeContainer(st: Store, c: Container, s: Container): ContainerResult {
    if c.name != s.name then ContainerResult(st, c, false)
    else
      var st1 := FillEnv(st, s.env);
      var sameEnv := EnvValue(st1, c.env) == EnvValue(st1, s.env);
      ContainerResult(st1, c.(managed := s.managed, env := if sameEnv then c.env else s.env),
                      c.managed != s.managed || !sameEnv)
  }

  datatype ContainersResult = ContainersResult(store: Store, containers: seq<Container>, modified: bool)

  /** One source container against every cluster container, in order. */
  function MergeOne(st: Store, cs: seq<Container>, s: Container): (r: ContainersResult)
    ensures |r.containers| == |cs|
    decreases |cs|
  {
    if cs == [] then ContainersResult(st, [], false)
    else
      var first := MergeContainer(st, cs[0], s);
      var rest := MergeOne(first.store, cs[1..], s);
      ContainersResult(rest.store, [first.container] + rest.containers, first.modified || rest.modified)
  }

  function MergeContainers(st: Store, cs: seq<Container>, ss: seq<Container>): (r: ContainersResult)
    ensures |r.containers| == |cs|
    decreases |ss|
  {
    if ss == [] then ContainersResult(st, cs, false)
    else
      var first := MergeOne(st, cs, ss[0]);
      var rest := MergeContainers(first.store, first.containers, ss[1..]);
      ContainersResult(rest.store, rest.containers, first.modified || rest.modified)
  }

  function Named(vs: seq<Volume>, name: string): (r: int)
    ensures -1 <= r < |vs|
    ensures r >= 0 ==> vs[r].name == name
    ensures forall i :: 0 <= i < (if r == -1 then |vs| else r) ==> vs[i].name != name
  {
    if vs == [] then -1
    else if vs[0].name == name then 0
    else
      var r := Named(vs[1..], name);
      if r == -1 then -1 else r + 1
  }

  datatype VolumesResult = VolumesResult(store: Store, volumes: seq<Volume>, modified: bool)

  /** One source volume: if the cluster has a volume of that name, the first such is brought
      into line; otherwise the source's own volume is appended, pointers and all, and the
      flag is left alone. */
  function MergeVolume(st: Store, cs: seq<Volume>, s: Volume): VolumesResult {
    var i := Named(cs, s.name);
    if i == -1 then VolumesResult(st, cs + [s], false)
    else
      var st1 := FillSource(st, s.source);
      if SourceValue(st1, cs[i].source) == SourceValue(st1, s.source) then VolumesResult(st1, cs, false)
      else VolumesResult(st1, cs[i := cs[i].(source := s.source)], true)
  }

  function MergeVolumes(st: Store, cs: seq<Volume>, ss: seq<Volume>): VolumesResult
    decreases |ss|
  {
    if ss == [] then VolumesResult(st, cs, false)
    else
      var first := MergeVolume(st, cs, ss[0]);
      var rest := MergeVolumes(first.store, first.volumes, ss[1..]);
      VolumesResult(rest.store, rest.volumes, first.modified || rest.modified)
  }

  datatype Result = Result(store: Store, cluster: Deployment, modified: bool)

  /** The fields compared and copied whole. */
  function MergeHead(c: Deployment, s: Deployment): Deployment {
    c.(labels := s.labels, selector := s.selector, replicas := s.replicas,
       templateName := s.templateName, templateLabels := s.templateLabels, serviceAccount := s.serviceAccount)
  }

  function Merge(st: Store, c: Deployment, s: Deployment): Result {
    var inits := MergeContainers(st, c.initContainers, s.initContainers);
    var mains := MergeContainers(inits.store, c.containers, s.containers);
    var vols := MergeVolumes(mains.store, c.volumes, s.volumes);
    Result(vols.store,
           MergeHead(c, s).(
             initContainers := inits.containers, containers := mains.containers, volumes := vols.volumes),
           MergeHead(c, s) != c || inits.modified || mains.modified || vols.modified)
  }

  // -------------------------------------------------------------- agreement of a pair

  /** Nothing in this environment is left to default. */
  predicate EnvFull(st: Store, env: seq<EnvVar>) {
    EnvDefaulted(EnvValue(st, env)) == EnvValue(st, env)
  }

  predicate VolumeFull(st: Store, v: VolumeSource) {
    Defaulted(SourceValue(st, v)) == SourceValue(st, v)
  }

  /** All managed fields deeply equal, the source's environment being fully defaulted. */
  predicate ContainerAgrees(st: Store, c: Container, s: Container) {
    c.managed == s.managed && EnvValue(st, c.env) == EnvValue(st, s.env) && EnvFull(st, s.env)
  }

  /** The cluster's volume is worth what the source's is once every default is filled in. */
  predicate VolumeEqual(st: Store, c: VolumeSource, s: VolumeSource) {
    SourceValue(st, c) == Defaulted(SourceValue(st, s))
  }

  /** So, or the source's own pointers, appended without any default. */
  predicate VolumeAgrees(st: Store, c: VolumeSource, s: VolumeSource) {
    c == s || VolumeEqual(st, c, s)
  }

  lemma EnvFullKept(a: Store, b: Store, env: seq<EnvVar>)
    requires Fills(a, b) && EnvFull(a, env)
    ensures EnvFull(b, env) && EnvValue(b, env) == EnvValue(a, env)
  {
    EnvFullStable(a, b, env);
  }

  lemma ContainerAgreesStable(a: Store, b: Store, c: Container, s: Container)
    requires Fills(a, b) && ContainerAgrees(a, c, s)
    ensures ContainerAgrees(b, c, s)
  {
    EnvFullKept(a, b, s.env);
    EnvFullKept(a, b, c.env);
  }

  lemma VolumeEqualStable(a: Store, b: Store, c: VolumeSource, s: VolumeSource)
    requires Fills(a, b) && VolumeEqual(a, c, s)
    ensures VolumeEqual(b, c, s)
  {
    DefaultedTwice(SourceValue(a, s));
    FullStable(a, b, c);
    DefaultedStable(a, b, s);
  }

  // ----------------------------------------------------------------------- containers

  lemma MergeContainerEffect(st: Store, c: Container, s: Container)
    ensures var r := MergeContainer(st, c, s);
            && Fills(st, r.store)
            && r.container.name == c.name && r.container.unmanaged == c.unmanaged
            && (c.name != s.name ==> r == ContainerResult(st, c, false))
            && (c.name == s.name ==> ContainerAgrees(r.store, r.container, s))
            && (!r.modified ==> r.container == c)
            && (c.name == s.name && ContainerAgrees(st, c, s) ==> r == ContainerResult(st, c, false))
  {
    if c.name == s.name {
      FillEnvEffect(st, s.env);
      EnvDefaultedTwice(EnvValue(st, s.env));
      if EnvFull(st, s.env) {
        FillEnvIdle(st, s.env);
      }
    }
  }

  lemma {:induction false} MergeOneEffect(st: Store, cs: seq<Container>, s: Container)
    ensures var r := MergeOne(st, cs, s);
            && Fills(st, r.store)
            && (forall i :: 0 <= i < |cs| ==>
              r.containers[i].name == cs[i].name && r.containers[i].unmanaged == cs[i].unmanaged)
            && (forall i :: 0 <= i < |cs| && cs[i].name != s.name ==> r.containers[i] == cs[i])
            && (forall i :: 0 <= i < |cs| && cs[i].name == s.name ==> ContainerAgrees(r.store, r.containers[i], s))
            && (!r.modified ==> r.containers == cs)
    decreases |cs|
  {
    if cs != [] {
      MergeContainerEffect(st, cs[0], s);
      var first := MergeContainer(st, cs[0], s);
      MergeOneEffect(first.store, cs[1..], s);
      var rest := MergeOne(first.store, cs[1..], s);
      FillsTransitive(st, first.store, rest.store);
      if cs[0].name == s.name {
        ContainerAgreesStable(first.store, rest.store, first.container, s);
      }
      assert forall i :: 0 < i < |cs| ==> cs[i] == cs[1..][i - 1];
    }
  }

  lemma {:induction false} MergeOneQuiet(st: Store, cs: seq<Container>, s: Container)
    requires forall i :: 0 <= i < |cs| && cs[i].name == s.name ==> ContainerAgrees(st, cs[i], s)
    ensures MergeOne(st, cs, s) == ContainersResult(st, cs, false)
    decreases |cs|
  {
    if cs != [] {
      MergeContainerEffect(st, cs[0], s);
      assert forall i :: 0 <= i < |cs[1..]| ==> cs[1..][i] == cs[i + 1];
      MergeOneQuiet(st, cs[1..], s);
    }
  }

  /** Every cluster container agrees with every source container of its name. */
  predicate AllAgree(st: Store, cs: seq<Container>, ss: seq<Container>) {
    forall i, j :: 0 <= i < |cs| && 0 <= j < |ss| && cs[i].name == ss[j].name ==> ContainerAgrees(st, cs[i], ss[j])
  }

  lemma AllAgreeStable(a: Store, b: Store, cs: seq<Container>, ss: seq<Container>)
    requires Fills(a, b) && AllAgree(a, cs, ss)
    ensures AllAgree(b, cs, ss)
  {
    forall i, j | 0 <= i < |cs| && 0 <= j < |ss| && cs[i].name == ss[j].name
      ensures ContainerAgrees(b, cs[i], ss[j])
    {
      ContainerAgreesStable(a, b, cs[i], ss[j]);
    }
  }

  /** Two source containers that ask for the same thing. */
  predicate SameDemand(st: Store, a: Container, b: Container) {
    a.managed == b.managed && EnvDefaulted(EnvValue(st, a.env)) == EnvDefaulted(EnvValue(st, b.env))
  }

  /** Source containers that share a name with each other and with a cluster container ask
      for the same thing. Distinct source names are the usual case. */
  predicate Unambiguous(st: Store, cs: seq<Container>, ss: seq<Container>) {
    forall i, j, k :: 0 <= i < |cs| && 0 <= j < k < |ss| && cs[i].name == ss[j].name == ss[k].name ==>
      SameDemand(st, ss[j], ss[k])
  }

  lemma UnambiguousAcross(a: Store, b: Store, cs: seq<Container>, cs': seq<Container>, ss: seq<Container>)
    requires Fills(a, b) && |cs| == |cs'| && forall i :: 0 <= i < |cs| ==> cs'[i].name == cs[i].name
    ensures Unambiguous(a, cs, ss) <==> Unambiguous(b, cs', ss)
  {
    forall j | 0 <= j < |ss|
      ensures EnvDefaulted(EnvValue(b, ss[j].env)) == EnvDefaulted(EnvValue(a, ss[j].env))
    {
      EnvDefaultedStable(a, b, ss[j].env);
    }
    forall j, k | 0 <= j < k < |ss| ensures SameDemand(a, ss[j], ss[k]) <==> SameDemand(b, ss[j], ss[k]) {
    }
  }

  lemma UnambiguousTail(st: Store, cs: seq<Container>, ss: seq<Container>)
    requires ss != [] && Unambiguous(st, cs, ss)
    ensures Unambiguous(st, cs, ss[1..])
  {
  }

  /** Whatever the source, names and unmanaged fields stay and containers of no source name
      are untouched. */
  lemma {:induction false} MergeContainersFrame(st: Store, cs: seq<Container>, ss: seq<Container>)
    ensures var r := MergeContainers(st, cs, ss);
            && Fills(st, r.store)
            && (forall i :: 0 <= i < |cs| ==>
              r.containers[i].name == cs[i].name && r.containers[i].unmanaged == cs[i].unmanaged)
            && (forall i :: 0 <= i < |cs| && (forall j :: 0 <= j < |ss| ==> ss[j].name != cs[i].name) ==>
              r.containers[i] == cs[i])
            && (!r.modified ==> r.containers == cs)
    decreases |ss|
  {
    if ss != [] {
      MergeOneEffect(st, cs, ss[0]);
      var first := MergeOne(st, cs, ss[0]);
      MergeContainersFrame(first.store, first.containers, ss[1..]);
      FillsTransitive(st, first.store, MergeContainers(st, cs, ss).store);
      forall i | 0 <= i < |cs| && (forall j :: 0 <= j < |ss| ==> ss[j].name != cs[i].name)
        ensures MergeContainers(st, cs, ss).containers[i] == cs[i]
      {
        assert first.containers[i] == cs[i];
        assert forall j :: 0 <= j < |ss[1..]| ==> ss[1..][j] == ss[j + 1];
      }
    }
  }

  lemma AgreeWithTheOther(st: Store, c: Container, t: Container, s: Container)
    requires ContainerAgrees(st, c, t) && SameDemand(st, s, t) && EnvFull(st, s.env)
    ensures ContainerAgrees(st, c, s)
  {
  }

  /** From an unambiguous source every matched container ends in agreement. */
  lemma {:induction false} MergeContainersAgree(st: Store, cs: seq<Container>, ss: seq<Container>)
    requires Unambiguous(st, cs, ss)
    ensures var r := MergeContainers(st, cs, ss); AllAgree(r.store, r.containers, ss)
    decreases |ss|
  {
    if ss != [] {
      var s, tail := ss[0], ss[1..];
      assert forall j :: 0 <= j < |tail| ==> tail[j] == ss[j + 1];
      MergeOneEffect(st, cs, s);
      var first := MergeOne(st, cs, s);
      UnambiguousTail(st, cs, ss);
      UnambiguousAcross(st, first.store, cs, first.containers, tail);
      MergeContainersAgree(first.store, first.containers, tail);
      MergeContainersFrame(first.store, first.containers, tail);
      var r := MergeContainers(st, cs, ss);
      forall i, j | 0 <= i < |cs| && 0 <= j < |ss| && r.containers[i].name == ss[j].name
        ensures ContainerAgrees(r.store, r.containers[i], ss[j])
      {
        if j == 0 {
          ContainerAgreesStable(first.store, r.store, first.containers[i], s);
          if k :| 0 <= k < |tail| && tail[k].name == s.name {
            assert SameDemand(st, ss[0], ss[k + 1]);
            FillsTransitive(st, first.store, r.store);
            EnvDefaultedStable(st, r.store, s.env);
            EnvDefaultedStable(st, r.store, tail[k].env);
            AgreeWithTheOther(r.store, r.containers[i], tail[k], s);
          }
        } else {
          assert tail[j - 1] == ss[j];
        }
      }
    }
  }

  /** Containers already in agreement are left exactly as they are, unreported. */
  lemma {:induction false} MergeContainersQuiet(st: Store, cs: seq<Container>, ss: seq<Container>)
    requires AllAgree(st, cs, ss)
    ensures MergeContainers(st, cs, ss) == ContainersResult(st, cs, false)
    decreases |ss|
  {
    if ss != [] {
      MergeOneQuiet(st, cs, ss[0]);
      assert forall j :: 0 <= j < |ss[1..]| ==> ss[1..][j] == ss[j + 1];
      MergeContainersQuiet(st, cs, ss[1..]);
    }
  }

  /** Worth what the source asks for once its defaults are filled in, whether or not they are. */
  predicate WouldAgree(st: Store, c: Container, s: Container) {
    c.managed == s.managed && EnvValue(st, c.env) == EnvDefaulted(EnvValue(st, s.env))
  }

  predicate AllWouldAgree(st: Store, cs: seq<Container>, ss: seq<Container>) {
    forall i, j :: 0 <= i < |cs| && 0 <= j < |ss| && cs[i].name == ss[j].name ==> WouldAgree(st, cs[i], ss[j])
  }

  lemma WouldAgreeStable(a: Store, b: Store, c: Container, s: Container)
    requires Fills(a, b) && WouldAgree(a, c, s)
    ensures WouldAgree(b, c, s)
  {
    EnvDefaultedTwice(EnvValue(a, s.env));
    EnvFullStable(a, b, c.env);
    EnvDefaultedStable(a, b, s.env);
  }

  lemma {:induction false} MergeOneSettled(st: Store, cs: seq<Container>, s: Container)
    requires forall i :: 0 <= i < |cs| && cs[i].name == s.name ==> WouldAgree(st, cs[i], s)
    ensures var r := MergeOne(st, cs, s); r.containers == cs && !r.modified
    decreases |cs|
  {
    if cs != [] {
      var first := MergeContainer(st, cs[0], s);
      MergeContainerEffect(st, cs[0], s);
      if cs[0].name == s.name {
        WouldAgreeStable(st, first.store, cs[0], s);
        FillEnvEffect(st, s.env);
      }
      forall i | 0 <= i < |cs[1..]| && cs[1..][i].name == s.name ensures WouldAgree(first.store, cs[1..][i], s) {
        assert cs[1..][i] == cs[i + 1];
        WouldAgreeStable(st, first.store, cs[i + 1], s);
      }
      MergeOneSettled(first.store, cs[1..], s);
    }
  }

  /** Containers worth what is asked for are left as they are, unreported. */
  lemma {:induction false} MergeContainersSettled(st: Store, cs: seq<Container>, ss: seq<Container>)
    requires AllWouldAgree(st, cs, ss)
    ensures var r := MergeContainers(st, cs, ss); r.containers == cs && !r.modified
    decreases |ss|
  {
    if ss != [] {
      var first := MergeOne(st, cs, ss[0]);
      MergeOneEffect(st, cs, ss[0]);
      MergeOneSettled(st, cs, ss[0]);
      forall i, j | 0 <= i < |cs| && 0 <= j < |ss[1..]| && cs[i].name == ss[1..][j].name
        ensures WouldAgree(first.store, cs[i], ss[1..][j])
      {
        assert ss[1..][j] == ss[j + 1];
        WouldAgreeStable(st, first.store, cs[i], ss[j + 1]);
      }
      MergeContainersSettled(first.store, cs, ss[1..]);
    }
  }

  /** If nothing was reported, everything agrees. */
  lemma {:induction false} UnreportedAgrees(st: Store, cs: seq<Container>, ss: seq<Container>)
    requires !MergeContainers(st, cs, ss).modified
    ensures AllAgree(MergeContainers(st, cs, ss).store, cs, ss)
    decreases |ss|
  {
    if ss != [] {
      MergeOneEffect(st, cs, ss[0]);
      var first := MergeOne(st, cs, ss[0]);
      var r := MergeContainers(st, cs, ss);
      UnreportedAgrees(first.store, cs, ss[1..]);
      MergeContainersFrame(first.store, cs, ss[1..]);
      forall i, j | 0 <= i < |cs| && 0 <= j < |ss| && cs[i].name == ss[j].name
        ensures ContainerAgrees(r.store, cs[i], ss[j])
      {
        if j == 0 {
          ContainerAgreesStable(first.store, r.store, cs[i], ss[0]);
        } else {
          assert ss[1..][j - 1] == ss[j];
        }
      }
    }
  }

  lemma AgreeingIsUnambiguous(st: Store, cs: seq<Container>, ss: seq<Container>)
    requires AllAgree(st, cs, ss)
    ensures Unambiguous(st, cs, ss)
  {
  }

  // ------------------------------------------------------------------------- volumes

  /** The first cluster volume of this name is there and agrees. */
  predicate Present(st: Store, cs: seq<Volume>, s: Volume) {
    Named(cs, s.name) >= 0 && VolumeAgrees(st, cs[Named(cs, s.name)].source, s.source)
  }

  predicate PresentEqual(st: Store, cs: seq<Volume>, s: Volume) {
    Named(cs, s.name) >= 0 && VolumeEqual(st, cs[Named(cs, s.name)].source, s.source)
  }

  predicate AllPresent(st: Store, cs: seq<Volume>, ss: seq<Volume>) {
    forall j :: 0 <= j < |ss| ==> Present(st, cs, ss[j])
  }

  /** Source volumes that share a name are worth the same once defaulted. */
  predicate UnambiguousVolumes(st: Store, ss: seq<Volume>) {
    forall j, k :: 0 <= j < k < |ss| && ss[j].name == ss[k].name ==>
      Defaulted(SourceValue(st, ss[j].source)) == Defaulted(SourceValue(st, ss[k].source))
  }

  lemma UnambiguousVolumesAcross(a: Store, b: Store, ss: seq<Volume>)
    requires Fills(a, b)
    ensures UnambiguousVolumes(a, ss) <==> UnambiguousVolumes(b, ss)
  {
    forall j | 0 <= j < |ss|
      ensures Defaulted(SourceValue(b, ss[j].source)) == Defaulted(SourceValue(a, ss[j].source))
    {
      DefaultedStable(a, b, ss[j].source);
    }
  }

  lemma {:induction false} NamedAppend(cs: seq<Volume>, more: seq<Volume>, name: string)
    ensures Named(cs, name) >= 0 ==> Named(cs + more, name) == Named(cs, name)
    ensures Named(cs, name) == -1 ==>
              Named(cs + more, name) == if Named(more, name) == -1 then -1 else |cs| + Named(more, name)
  {
    if cs == [] {
      assert cs + more == more;
    } else {
      assert (cs + more)[1..] == cs[1..] + more;
      NamedAppend(cs[1..], more, name);
    }
  }

  lemma {:induction false} NamedUpdate(cs: seq<Volume>, i: nat, source: VolumeSource, name: string)
    requires i < |cs|
    ensures Named(cs[i := cs[i].(source := source)], name) == Named(cs, name)
  {
    var cs' := cs[i := cs[i].(source := source)];
    if i > 0 {
      assert cs'[1..] == cs[1..][i - 1 := cs[i].(source := source)];
      NamedUpdate(cs[1..], i - 1, source, name);
    } else {
      assert cs'[1..] == cs[1..];
    }
  }

  lemma MergeVolumeEffect(st: Store, cs: seq<Volume>, s: Volume)
    ensures var r := MergeVolume(st, cs, s);
            && Fills(st, r.store)
            && Present(r.store, r.volumes, s)
            && (Named(cs, s.name) >= 0 ==> PresentEqual(r.store, r.volumes, s) && |r.volumes| == |cs|)
            && (Named(cs, s.name) == -1 ==> r.volumes == cs + [s])
            && (forall i :: 0 <= i < |cs| ==> r.volumes[i].name == cs[i].name)
            && (forall i :: 0 <= i < |cs| && cs[i].name != s.name ==> r.volumes[i] == cs[i])
            && (!r.modified ==> r.volumes[..|cs|] == cs)
  {
    var i := Named(cs, s.name);
    if i == -1 {
      NamedAppend(cs, [s], s.name);
      assert Named([s], s.name) == 0;
    } else {
      FillSourceEffect(st, s.source);
      DefaultedStable(st, FillSource(st, s.source), s.source);
      NamedUpdate(cs, i, s.source, s.name);
    }
  }

  /** A volume already present is left as it is, unreported; only its defaults are written. */
  lemma MergeVolumeQuiet(st: Store, cs: seq<Volume>, s: Volume)
    requires Present(st, cs, s)
    ensures MergeVolume(st, cs, s) == VolumesResult(FillSource(st, s.source), cs, false)
  {
    var c := cs[Named(cs, s.name)].source;
    if c != s.source {
      FillSourceEffect(st, s.source);
      DefaultedTwice(SourceValue(st, s.source));
      FullStable(st, FillSource(st, s.source), c);
    }
  }

  /** Volumes of another name keep their place and their pointers. */
  lemma MergeVolumeSkips(st: Store, cs: seq<Volume>, s: Volume, name: string)
    requires name != s.name && Named(cs, name) >= 0
    ensures var r := MergeVolume(st, cs, s);
            Named(r.volumes, name) == Named(cs, name) && r.volumes[Named(cs, name)] == cs[Named(cs, name)]
  {
  }

  lemma {:induction false} MergeVolumesFills(st: Store, cs: seq<Volume>, ss: seq<Volume>)
    ensures Fills(st, MergeVolumes(st, cs, ss).store)
    decreases |ss|
  {
    if ss != [] {
      MergeVolumeEffect(st, cs, ss[0]);
      var first := MergeVolume(st, cs, ss[0]);
      MergeVolumesFills(first.store, first.volumes, ss[1..]);
      FillsTransitive(st, first.store, MergeVolumes(st, cs, ss).store);
    }
  }

  lemma {:induction false} MergeVolumesSkip(st: Store, cs: seq<Volume>, ss: seq<Volume>, name: string)
    requires Named(cs, name) >= 0 && forall j :: 0 <= j < |ss| ==> ss[j].name != name
    ensures var r := MergeVolumes(st, cs, ss);
            Named(r.volumes, name) == Named(cs, name) && r.volumes[Named(cs, name)] == cs[Named(cs, name)]
    decreases |ss|
  {
    if ss != [] {
      var first := MergeVolume(st, cs, ss[0]);
      MergeVolumeSkips(st, cs, ss[0], name);
      MergeVolumesSkip(first.store, first.volumes, ss[1..], name);
    }
  }

  /** Source volumes whose name the cluster already has end up deeply equal. */
  lemma {:induction false} MergeVolumesEqual(st: Store, cs: seq<Volume>, ss: seq<Volume>, j: nat)
    requires UnambiguousVolumes(st, ss) && j < |ss| && Named(cs, ss[j].name) >= 0
    ensures var r := MergeVolumes(st, cs, ss); PresentEqual(r.store, r.volumes, ss[j])
    decreases |ss|
  {
    if j > 0 {
      var first := MergeVolume(st, cs, ss[0]);
      MergeVolumeEffect(st, cs, ss[0]);
      assert first.volumes[Named(cs, ss[j].name)].name == ss[j].name;
      UnambiguousTailVolumes(st, first.store, ss);
      MergeVolumesEqual(first.store, first.volumes, ss[1..], j - 1);
    } else if k :| 0 < k < |ss| && ss[k].name == ss[0].name {
      var first := MergeVolume(st, cs, ss[0]);
      MergeVolumeEffect(st, cs, ss[0]);
      UnambiguousTailVolumes(st, first.store, ss);
      MergeVolumesEqual(first.store, first.volumes, ss[1..], k - 1);
      FirstEqualsAnother(st, cs, ss, k);
    } else {
      FirstStaysEqual(st, cs, ss);
    }
  }

  lemma FirstEqualsAnother(st: Store, cs: seq<Volume>, ss: seq<Volume>, k: nat)
    requires 0 < k < |ss| && ss[k].name == ss[0].name && UnambiguousVolumes(st, ss)
    requires var r := MergeVolumes(st, cs, ss); PresentEqual(r.store, r.volumes, ss[k])
    ensures var r := MergeVolumes(st, cs, ss); PresentEqual(r.store, r.volumes, ss[0])
  {
    var r := MergeVolumes(st, cs, ss);
    MergeVolumesFills(st, cs, ss);
    DefaultedStable(st, r.store, ss[0].source);
    DefaultedStable(st, r.store, ss[k].source);
  }

  lemma FirstStaysEqual(st: Store, cs: seq<Volume>, ss: seq<Volume>)
    requires ss != [] && Named(cs, ss[0].name) >= 0 && forall k :: 0 < k < |ss| ==> ss[k].name != ss[0].name
    ensures var r := MergeVolumes(st, cs, ss); PresentEqual(r.store, r.volumes, ss[0])
  {
    var s, tail := ss[0], ss[1..];
    var first := MergeVolume(st, cs, s);
    MergeVolumeEffect(st, cs, s);
    assert forall k :: 0 <= k < |tail| ==> tail[k] == ss[k + 1];
    MergeVolumesFills(first.store, first.volumes, tail);
    MergeVolumesSkip(first.store, first.volumes, tail, s.name);
    VolumeEqualStable(first.store, MergeVolumes(st, cs, ss).store,
        first.volumes[Named(first.volumes, s.name)].source, s.source);
  }

  lemma UnambiguousTailVolumes(a: Store, b: Store, ss: seq<Volume>)
    requires ss != [] && Fills(a, b) && UnambiguousVolumes(a, ss)
    ensures UnambiguousVolumes(b, ss[1..])
  {
    assert forall k :: 0 <= k < |ss[1..]| ==> ss[1..][k] == ss[k + 1];
    UnambiguousVolumesAcross(a, b, ss[1..]);
  }

  /** The first source volume ends up present. */
  lemma FirstPresent(st: Store, cs: seq<Volume>, ss: seq<Volume>)
    requires ss != [] && UnambiguousVolumes(st, ss)
    ensures var r := MergeVolumes(st, cs, ss); Present(r.store, r.volumes, ss[0])
  {
    var s, tail := ss[0], ss[1..];
    if Named(cs, s.name) >= 0 {
      MergeVolumesEqual(st, cs, ss, 0);
    } else {
      var first := MergeVolume(st, cs, s);
      MergeVolumeEffect(st, cs, s);
      if k :| 0 < k < |ss| && ss[k].name == s.name {
        UnambiguousTailVolumes(st, first.store, ss);
        MergeVolumesEqual(first.store, first.volumes, tail, k - 1);
        FirstEqualsAnother(st, cs, ss, k);
      } else {
        assert forall k :: 0 <= k < |tail| ==> tail[k] == ss[k + 1];
        MergeVolumesSkip(first.store, first.volumes, tail, s.name);
      }
    }
  }

  /** From an unambiguous source every source volume ends up present. */
  lemma {:induction false} MergeVolumesPresent(st: Store, cs: seq<Volume>, ss: seq<Volume>, j: nat)
    requires UnambiguousVolumes(st, ss) && j < |ss|
    ensures var r := MergeVolumes(st, cs, ss); Present(r.store, r.volumes, ss[j])
    decreases |ss|
  {
    if j == 0 {
      FirstPresent(st, cs, ss);
    } else {
      var first := MergeVolume(st, cs, ss[0]);
      MergeVolumeEffect(st, cs, ss[0]);
      UnambiguousTailVolumes(st, first.store, ss);
      MergeVolumesPresent(first.store, first.volumes, ss[1..], j - 1);
    }
  }

  /** What the merge adds behind the cluster's own volumes: the source's, by name, as they come. */
  function Missing(cs: seq<Volume>, ss: seq<Volume>): seq<Volume>
    decreases |ss|
  {
    if ss == [] then []
    else if Named(cs, ss[0].name) == -1 then [ss[0]] + Missing(cs + [ss[0]], ss[1..])
    else Missing(cs, ss[1..])
  }

  lemma {:induction false} MissingByNames(cs: seq<Volume>, cs': seq<Volume>, ss: seq<Volume>)
    requires |cs'| == |cs| && forall i :: 0 <= i < |cs| ==> cs'[i].name == cs[i].name
    ensures Missing(cs', ss) == Missing(cs, ss)
    decreases |ss|
  {
    if ss != [] {
      if Named(cs, ss[0].name) == -1 {
        MissingByNames(cs + [ss[0]], cs' + [ss[0]], ss[1..]);
      } else {
        assert cs'[Named(cs, ss[0].name)].name == ss[0].name;
        MissingByNames(cs, cs', ss[1..]);
      }
    }
  }

  lemma {:induction false} MissingNothingIff(cs: seq<Volume>, ss: seq<Volume>)
    ensures Missing(cs, ss) == [] <==> forall j :: 0 <= j < |ss| ==> Named(cs, ss[j].name) >= 0
    decreases |ss|
  {
    if ss != [] {
      MissingNothingIff(cs, ss[1..]);
      assert forall j :: 0 < j < |ss| ==> ss[j] == ss[1..][j - 1];
    }
  }

  function Names(vs: seq<Volume>): seq<string> {
    seq(|vs|, i requires 0 <= i < |vs| => vs[i].name)
  }

  lemma MergeVolumeNames(st: Store, cs: seq<Volume>, s: Volume)
    ensures Names(MergeVolume(st, cs, s).volumes) == Names(cs) + if Named(cs, s.name) == -1 then [s.name] else []
  {
  }

  lemma {:induction false} MergeVolumesNames(st: Store, cs: seq<Volume>, ss: seq<Volume>)
    ensures Names(MergeVolumes(st, cs, ss).volumes) == Names(cs) + Names(Missing(cs, ss))
    decreases |ss|
  {
    if ss != [] {
      var first := MergeVolume(st, cs, ss[0]);
      MergeVolumeNames(st, cs, ss[0]);
      MergeVolumesNames(first.store, first.volumes, ss[1..]);
      if Named(cs, ss[0].name) == -1 {
        NamesCons(ss[0], Missing(cs + [ss[0]], ss[1..]));
      } else {
        SameNamesSameMissing(cs, first.volumes, ss[1..]);
      }
    }
  }

  lemma NamesCons(s: Volume, more: seq<Volume>)
    ensures Names([s] + more) == [s.name] + Names(more)
  {
  }

  lemma SameNamesSameMissing(cs: seq<Volume>, cs': seq<Volume>, ss: seq<Volume>)
    requires Names(cs') == Names(cs)
    ensures Missing(cs', ss) == Missing(cs, ss)
  {
    assert |Names(cs')| == |cs'| && |Names(cs)| == |cs|;
    forall i | 0 <= i < |cs| ensures cs'[i].name == cs[i].name {
      assert Names(cs')[i] == Names(cs)[i];
    }
    MissingByNames(cs, cs', ss);
  }

  /** Whatever the source, each of its names ends up among the cluster's. */
  lemma {:induction false} MergeVolumesNamed(st: Store, cs: seq<Volume>, ss: seq<Volume>, name: string)
    requires Named(cs, name) >= 0 || exists j :: 0 <= j < |ss| && ss[j].name == name
    ensures Named(MergeVolumes(st, cs, ss).volumes, name) >= 0
    decreases |ss|
  {
    if ss != [] {
      var first := MergeVolume(st, cs, ss[0]);
      MergeVolumeEffect(st, cs, ss[0]);
      if Named(cs, name) >= 0 {
        assert first.volumes[Named(cs, name)].name == name;
      } else if ss[0].name != name {
        var j :| 0 <= j < |ss| && ss[j].name == name;
        assert ss[1..][j - 1] == ss[j];
      }
      MergeVolumesNamed(first.store, first.volumes, ss[1..], name);
    }
  }

  /** If nothing was reported, the missing volumes were appended and nothing else. */
  lemma {:induction false} UnreportedAppends(st: Store, cs: seq<Volume>, ss: seq<Volume>)
    requires !MergeVolumes(st, cs, ss).modified
    ensures MergeVolumes(st, cs, ss).volumes == cs + Missing(cs, ss)
    decreases |ss|
  {
    if ss != [] {
      var first := MergeVolume(st, cs, ss[0]);
      var more := Missing(first.volumes, ss[1..]);
      UnreportedAppends(first.store, first.volumes, ss[1..]);
      assert MergeVolumes(st, cs, ss).volumes == first.volumes + more;
      if Named(cs, ss[0].name) == -1 {
        assert first.volumes == cs + [ss[0]];
        assert Missing(cs, ss) == [ss[0]] + more;
        AppendThenMore(cs, ss[0], more);
      }
    }
  }

  lemma AppendThenMore(cs: seq<Volume>, s: Volume, more: seq<Volume>)
    ensures cs + [s] + more == cs + ([s] + more)
  {
  }

  /** A cluster volume of no source name is left alone. */
  lemma {:induction false} MergeVolumesUntouched(st: Store, cs: seq<Volume>, ss: seq<Volume>, i: nat)
    requires i < |cs| && forall j :: 0 <= j < |ss| ==> ss[j].name != cs[i].name
    ensures var r := MergeVolumes(st, cs, ss); i < |r.volumes| && r.volumes[i] == cs[i]
    decreases |ss|
  {
    if ss != [] {
      var first := MergeVolume(st, cs, ss[0]);
      MergeVolumeEffect(st, cs, ss[0]);
      assert forall j :: 0 <= j < |ss[1..]| ==> ss[1..][j] == ss[j + 1];
      MergeVolumesUntouched(first.store, first.volumes, ss[1..], i);
    }
  }

  /** Every source volume's defaults written, in order. */
  function FillAll(st: Store, ss: seq<Volume>): Store
    decreases |ss|
  {
    if ss == [] then st else FillAll(FillSource(st, ss[0].source), ss[1..])
  }

  /** With every source volume present, only defaults are written, and nothing is reported. */
  lemma {:induction false} MergeVolumesQuiet(st: Store, cs: seq<Volume>, ss: seq<Volume>)
    requires AllPresent(st, cs, ss)
    ensures MergeVolumes(st, cs, ss) == VolumesResult(FillAll(st, ss), cs, false)
    decreases |ss|
  {
    if ss != [] {
      var st1 := FillSource(st, ss[0].source);
      MergeVolumeQuiet(st, cs, ss[0]);
      FillSourceEffect(st, ss[0].source);
      forall j | 0 <= j < |ss[1..]| ensures Present(st1, cs, ss[1..][j]) {
        assert ss[1..][j] == ss[j + 1] && Present(st, cs, ss[j + 1]);
        PresentStable(st, st1, cs, ss[j + 1]);
      }
      MergeVolumesQuiet(st1, cs, ss[1..]);
    }
  }

  lemma PresentStable(a: Store, b: Store, cs: seq<Volume>, s: Volume)
    requires Fills(a, b) && Present(a, cs, s)
    ensures Present(b, cs, s)
  {
    var c := cs[Named(cs, s.name)].source;
    if c != s.source {
      VolumeEqualStable(a, b, c, s.source);
    }
  }

  /** Filling all changes something exactly when some source volume still lacks a default. */
  lemma {:induction false} FillAllIdleIff(st: Store, ss: seq<Volume>)
    ensures FillAll(st, ss) == st <==> forall j :: 0 <= j < |ss| ==> VolumeFull(st, ss[j].source)
    ensures Fills(st, FillAll(st, ss))
    ensures forall j :: 0 <= j < |ss| ==> VolumeFull(FillAll(st, ss), ss[j].source)
    decreases |ss|
  {
    if ss != [] {
      var st1, st2 := FillSource(st, ss[0].source), FillAll(st, ss);
      FillSourceEffect(st, ss[0].source);
      DefaultedTwice(SourceValue(st, ss[0].source));
      FillAllIdleIff(st1, ss[1..]);
      FillsTransitive(st, st1, st2);
      FullStable(st1, st2, ss[0].source);
      if VolumeFull(st, ss[0].source) {
        FillSourceIdle(st, ss[0].source);
      }
      assert forall j :: 0 < j < |ss| ==> ss[j] == ss[1..][j - 1];
    }
  }

  /** If nothing was reported, every source volume the cluster already named was equal. */
  lemma {:induction false} UnreportedEqual(st: Store, cs: seq<Volume>, ss: seq<Volume>, j: nat)
    requires !MergeVolumes(st, cs, ss).modified && j < |ss| && Named(cs, ss[j].name) >= 0
    ensures PresentEqual(MergeVolumes(st, cs, ss).store, cs, ss[j])
    decreases |ss|
  {
    var first, tail := MergeVolume(st, cs, ss[0]), ss[1..];
    var last := MergeVolumes(st, cs, ss).store;
    MergeVolumeEffect(st, cs, ss[0]);
    MergeVolumesFills(first.store, first.volumes, tail);
    if j > 0 {
      assert first.volumes == cs || first.volumes == cs + [ss[0]];
      NamedAppend(cs, [ss[0]], ss[j].name);
      UnreportedEqual(first.store, first.volumes, tail, j - 1);
    } else {
      assert first.volumes == cs;
      VolumeEqualStable(first.store, last, cs[Named(cs, ss[0].name)].source, ss[0].source);
    }
  }
}

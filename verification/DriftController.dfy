/** The merge as it runs: containers rewritten in place in their slices, volumes in a slice
    that grows, the source defaulted through its pointers, and a flag set on the way. */
module DriftController {
  import opened Options
  import opened DriftHeap
  import opened DriftMerge

  /** The memory behind both Deployments' pointers. */
  class Memory {
    var cells: Store

    constructor (st: Store)
      ensures cells == st
    {
      cells := st;
    }

    /** Write the API version through one field reference, if it has none. */
    method DefaultFieldRef(f: Option<nat>)
      modifies this
      ensures cells == FillField(old(cells), f)
    {
      if f.Some? {
        if cells.Field(f.value).apiVersion == "" {
          cells := cells.(fields := cells.fields[f.value := cells.Field(f.value).(apiVersion := DEFAULT_API_VERSION)]);
        }
      }
    }

    method DefaultEnv(env: seq<EnvVar>)
      modifies this
      ensures cells == FillEnv(old(cells), env)
    {
      ghost var refs := EnvRefs(env);
      for index := 0 to |env|
        invariant FillFields(cells, refs[index..]) == FillFields(old(cells), refs)
      {
        assert refs[index..][0] == env[index].fieldRef && refs[index..][1..] == refs[index + 1..];
        DefaultFieldRef(env[index].fieldRef);
      }
    }

    method DefaultMode(m: Option<nat>)
      modifies this
      ensures cells == FillMode(old(cells), m)
    {
      if m.Some? {
        if cells.Mode(m.value).mode == None {
          cells := cells.(modes := cells.modes[m.value := cells.Mode(m.value).(mode := Some(DEFAULT_MODE))]);
        }
      }
    }

    method DefaultDownward(d: Option<nat>)
      modifies this
      ensures cells == FillDownward(old(cells), d)
    {
      if d.Some? {
        if cells.Downward(d.value).mode == None {
          var filled := cells.Downward(d.value).(mode := Some(DEFAULT_MODE));
          cells := cells.(downwards := cells.downwards[d.value := filled]);
        }
        var items := cells.Downward(d.value).items;
        ghost var refs := ItemRefs(items);
        ghost var start := cells;
        for index := 0 to |items|
          invariant FillFields(cells, refs[index..]) == FillFields(start, refs)
        {
          assert refs[index..][0] == items[index].fieldRef && refs[index..][1..] == refs[index + 1..];
          DefaultFieldRef(items[index].fieldRef);
        }
      }
    }

    method DefaultSource(v: VolumeSource)
      modifies this
      ensures cells == FillSource(old(cells), v)
    {
      DefaultMode(v.secret);
      DefaultMode(v.configMap);
      DefaultDownward(v.downward);
    }
  }

  /** Field by field, the managed part of one container. */
  method MisMatchManaged(c: Container, s: Container) returns (d: Container, modified: bool)
    ensures d == c.(managed := s.managed)
    ensures modified <==> c.managed != s.managed
  {
    d, modified := c, false;
    if c.managed.image != s.managed.image {
      modified := true;
      d := d.(managed := d.managed.(image := s.managed.image));
    }
    if c.managed.pullPolicy != s.managed.pullPolicy {
      modified := true;
      d := d.(managed := d.managed.(pullPolicy := s.managed.pullPolicy));
    }
    if c.managed.ports != s.managed.ports {
      modified := true;
      d := d.(managed := d.managed.(ports := s.managed.ports));
    }
    if c.managed.resources != s.managed.resources {
      modified := true;
      d := d.(managed := d.managed.(resources := s.managed.resources));
    }
    if c.managed.volumeMounts != s.managed.volumeMounts {
      modified := true;
      d := d.(managed := d.managed.(volumeMounts := s.managed.volumeMounts));
    }
    if c.managed.readiness != s.managed.readiness {
      modified := true;
      d := d.(managed := d.managed.(readiness := s.managed.readiness));
    }
    if c.managed.liveness != s.managed.liveness {
      modified := true;
      d := d.(managed := d.managed.(liveness := s.managed.liveness));
    }
  }

  method MisMatchContainer(memory: Memory, c: Container, s: Container) returns (d: Container, modified: bool)
    modifies memory
    ensures ContainerResult(memory.cells, d, modified) == MergeContainer(old(memory.cells), c, s)
  {
    d, modified := c, false;
    if c.name == s.name {
      d, modified := MisMatchManaged(c, s);
      memory.DefaultEnv(s.env);
      if EnvValue(memory.cells, c.env) != EnvValue(memory.cells, s.env) {
        modified := true;
        d := d.(env := s.env);
      }
    }
  }

  /** One source container against the whole slice. */
  method MisMatchOne(memory: Memory, cluster: array<Container>, s: Container) returns (modified: bool)
    modifies memory, cluster
    ensures ContainersResult(memory.cells, cluster[..], modified) == MergeOne(old(memory.cells), old(cluster[..]), s)
  {
    modified := false;
    ghost var start, before := memory.cells, cluster[..];
    assert before[0..] == before;
    for clusterIndex := 0 to cluster.Length
      invariant cluster[clusterIndex..] == before[clusterIndex..]
      invariant MergeOne(start, before, s)
                == OneDone(cluster[..clusterIndex], modified, MergeOne(memory.cells, before[clusterIndex..], s))
    {
      ghost var done, was, rest := cluster[..clusterIndex], modified, before[clusterIndex..];
      ghost var mid := memory.cells;
      assert rest[0] == cluster[clusterIndex] && rest[1..] == before[clusterIndex + 1..];
      var d, changed := MisMatchContainer(memory, cluster[clusterIndex], s);
      cluster[clusterIndex] := d;
      modified := modified || changed;
      assert cluster[..clusterIndex + 1] == done + [d];
      OneStep(done, was, mid, rest, s);
    }
    assert before[cluster.Length..] == [] && cluster[..cluster.Length] == cluster[..];
  }

  ghost function OneDone(done: seq<Container>, modified: bool, rest: ContainersResult): ContainersResult {
    ContainersResult(rest.store, done + rest.containers, modified || rest.modified)
  }

  lemma OneStep(done: seq<Container>, modified: bool, st: Store, rest: seq<Container>, s: Container)
    requires rest != []
    ensures var first := MergeContainer(st, rest[0], s);
            OneDone(done, modified, MergeOne(st, rest, s))
            == OneDone(done + [first.container], modified || first.modified, MergeOne(first.store, rest[1..], s))
  {
    var first := MergeContainer(st, rest[0], s);
    var r := MergeOne(first.store, rest[1..], s);
    assert done + ([first.container] + r.containers) == done + [first.container] + r.containers;
  }

  method MisMatchContainers(memory: Memory, cluster: array<Container>, source: seq<Container>) returns (modified: bool)
    modifies memory, cluster
    ensures ContainersResult(memory.cells, cluster[..], modified)
         == MergeContainers(old(memory.cells), old(cluster[..]), source)
  {
    modified := false;
    ghost var whole := MergeContainers(memory.cells, cluster[..], source);
    for sourceIndex := 0 to |source|
      invariant var rest := MergeContainers(memory.cells, cluster[..], source[sourceIndex..]);
                whole == ContainersResult(rest.store, rest.containers, modified || rest.modified)
    {
      assert source[sourceIndex..][0] == source[sourceIndex] && source[sourceIndex..][1..] == source[sourceIndex + 1..];
      var changed := MisMatchOne(memory, cluster, source[sourceIndex]);
      modified := modified || changed;
    }
  }

  /** The cluster's Deployment as the merge holds it. */
  class ClusterDeployment {
    var labels: map<string, string>
    var selector: string
    var replicas: Option<int>
    var templateName: string
    var templateLabels: map<string, string>
    var serviceAccount: string
    const initContainers: array<Container>
    const containers: array<Container>
    var volumes: seq<Volume>
    const unmanaged: string

    ghost function Value(): Deployment
      reads this, initContainers, containers
    {
      Deployment(labels, selector, replicas, templateName, templateLabels, serviceAccount,
                 initContainers[..], containers[..], volumes, unmanaged)
    }

    constructor (d: Deployment, inits: array<Container>, mains: array<Container>)
      requires inits[..] == d.initContainers && mains[..] == d.containers
      ensures Value() == d && initContainers == inits && containers == mains
    {
      labels, selector, replicas := d.labels, d.selector, d.replicas;
      templateName, templateLabels, serviceAccount := d.templateName, d.templateLabels, d.serviceAccount;
      initContainers, containers, volumes, unmanaged := inits, mains, d.volumes, d.unmanaged;
    }

    method MisMatchSelectorAndReplicas(source: Deployment) returns (modified: bool)
      modifies this`selector, this`replicas
      ensures selector == source.selector && replicas == source.replicas
      ensures modified <==> old(selector) != source.selector || old(replicas) != source.replicas
    {
      modified := false;
      if selector != source.selector {
        modified := true;
        selector := source.selector;
      }
      if replicas != source.replicas {
        modified := true;
        replicas := source.replicas;
      }
    }

    method MisMatchTemplateObjectMeta(source: Deployment) returns (modified: bool)
      modifies this`templateName, this`templateLabels
      ensures templateName == source.templateName && templateLabels == source.templateLabels
      ensures modified <==> old(templateName) != source.templateName || old(templateLabels) != source.templateLabels
    {
      modified := false;
      if templateName != source.templateName {
        modified := true;
        templateName := source.templateName;
      }
      if templateLabels != source.templateLabels {
        modified := true;
        templateLabels := source.templateLabels;
      }
    }

    /** The fields compared and copied whole. */
    method MisMatchHead(source: Deployment) returns (modified: bool)
      modifies this
      ensures Value() == MergeHead(old(Value()), source)
      ensures modified <==> Value() != old(Value())
    {
      modified := labels != source.labels;
      if modified {
        labels := source.labels;
      }
      var spec := MisMatchSelectorAndReplicas(source);
      var meta := MisMatchTemplateObjectMeta(source);
      var account := serviceAccount != source.serviceAccount;
      if account {
        serviceAccount := source.serviceAccount;
      }
      modified := modified || spec || meta || account;
    }

    /** One source volume against the cluster's, up to the first of its name. */
    method MisMatchVolume(memory: Memory, s: Volume) returns (modified: bool)
      modifies memory, this`volumes
      ensures VolumesResult(memory.cells, volumes, modified) == MergeVolume(old(memory.cells), old(volumes), s)
    {
      modified := false;
      var found := false;
      ghost var before := volumes;
      for clusterIndex := 0 to |volumes|
        invariant volumes == before && memory.cells == old(memory.cells) && !modified && !found
        invariant forall i :: 0 <= i < clusterIndex ==> volumes[i].name != s.name
      {
        if volumes[clusterIndex].name == s.name {
          found := true;
          assert Named(before, s.name) == clusterIndex;
          memory.DefaultSource(s.source);
          if SourceValue(memory.cells, volumes[clusterIndex].source) != SourceValue(memory.cells, s.source) {
            modified := true;
            volumes := volumes[clusterIndex := volumes[clusterIndex].(source := s.source)];
          }
          break;
        }
      }
      if !found {
        assert Named(before, s.name) == -1;
        volumes := volumes + [s];
      }
    }

    method MisMatchVolumes(memory: Memory, source: seq<Volume>) returns (modified: bool)
      modifies memory, this`volumes
      ensures VolumesResult(memory.cells, volumes, modified) == MergeVolumes(old(memory.cells), old(volumes), source)
    {
      modified := false;
      ghost var whole := MergeVolumes(memory.cells, volumes, source);
      for sourceIndex := 0 to |source|
        invariant var rest := MergeVolumes(memory.cells, volumes, source[sourceIndex..]);
                  whole == VolumesResult(rest.store, rest.volumes, modified || rest.modified)
      {
        assert source[sourceIndex..][0] == source[sourceIndex]
          && source[sourceIndex..][1..] == source[sourceIndex + 1..];
        var changed := MisMatchVolume(memory, source[sourceIndex]);
        modified := modified || changed;
      }
    }

    /** The whole merge: what it reports, and what it leaves in the cluster's Deployment and
        behind the pointers. */
    method MisMatchResourceDeployment(memory: Memory, source: Deployment) returns (modified: bool)
      requires initContainers != containers
      modifies memory, this, initContainers, containers
      ensures Result(memory.cells, Value(), modified) == Merge(old(memory.cells), old(Value()), source)
    {
      modified := MisMatchHead(source);
      var inits := MisMatchContainers(memory, initContainers, source.initContainers);
      var mains := MisMatchContainers(memory, containers, source.containers);
      var vols := MisMatchVolumes(memory, source.volumes);
      modified := modified || inits || mains || vols;
    }
  }
}

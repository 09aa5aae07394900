/** What the drift-correction merge promises: it repairs, it keeps everything else, a second
    call finds nothing to do, and a server that fills in defaults cannot keep it busy. */
module DriftCorrection {
  import opened DriftHeap
  import opened DriftMerge

  predicate UnambiguousSource(st: Store, c: Deployment, s: Deployment) {
    && Unambiguous(st, c.initContainers, s.initContainers)
    && Unambiguous(st, c.containers, s.containers)
    && UnambiguousVolumes(st, s.volumes)
  }

  /** Every field that is copied whole is the source's. */
  predicate HeadAgrees(c: Deployment, s: Deployment) {
    && c.labels == s.labels && c.selector == s.selector && c.replicas == s.replicas
    && c.templateName == s.templateName && c.templateLabels == s.templateLabels
    && c.serviceAccount == s.serviceAccount
  }

  predicate Repaired(st: Store, c: Deployment, s: Deployment) {
    && HeadAgrees(c, s)
    && AllAgree(st, c.initContainers, s.initContainers)
    && AllAgree(st, c.containers, s.containers)
    && AllPresent(st, c.volumes, s.volumes)
  }

  lemma DistinctNamesAreUnambiguous(st: Store, c: Deployment, s: Deployment)
    requires forall j, k :: 0 <= j < k < |s.initContainers| ==> s.initContainers[j].name != s.initContainers[k].name
    requires forall j, k :: 0 <= j < k < |s.containers| ==> s.containers[j].name != s.containers[k].name
    requires forall j, k :: 0 <= j < k < |s.volumes| ==> s.volumes[j].name != s.volumes[k].name
    ensures UnambiguousSource(st, c, s)
  {
  }

  lemma MergeFills(st: Store, c: Deployment, s: Deployment)
    ensures var inits := MergeContainers(st, c.initContainers, s.initContainers);
            var mains := MergeContainers(inits.store, c.containers, s.containers);
            Fills(st, inits.store) && Fills(inits.store, mains.store) && Fills(st, mains.store)
            && Fills(mains.store, Merge(st, c, s).store) && Fills(st, Merge(st, c, s).store)
  {
    var inits := MergeContainers(st, c.initContainers, s.initContainers);
    var mains := MergeContainers(inits.store, c.containers, s.containers);
    MergeContainersFrame(st, c.initContainers, s.initContainers);
    MergeContainersFrame(inits.store, c.containers, s.containers);
    MergeVolumesFills(mains.store, c.volumes, s.volumes);
    FillsTransitive(st, inits.store, mains.store);
    FillsTransitive(st, mains.store, Merge(st, c, s).store);
  }

  lemma UnambiguousSourceAcross(a: Store, b: Store, c: Deployment, s: Deployment)
    requires Fills(a, b)
    ensures UnambiguousSource(a, c, s) <==> UnambiguousSource(b, c, s)
  {
    UnambiguousAcross(a, b, c.initContainers, c.initContainers, s.initContainers);
    UnambiguousAcross(a, b, c.containers, c.containers, s.containers);
    UnambiguousVolumesAcross(a, b, s.volumes);
  }

  /** After one call from an unambiguous source everything it manages is in line. */
  lemma MergeRepairs(st: Store, c: Deployment, s: Deployment)
    requires UnambiguousSource(st, c, s)
    ensures var r := Merge(st, c, s); Repaired(r.store, r.cluster, s)
  {
    var inits := MergeContainers(st, c.initContainers, s.initContainers);
    var mains := MergeContainers(inits.store, c.containers, s.containers);
    var r := Merge(st, c, s);
    MergeFills(st, c, s);
    MergeContainersAgree(st, c.initContainers, s.initContainers);
    FillsTransitive(inits.store, mains.store, r.store);
    AllAgreeStable(inits.store, r.store, inits.containers, s.initContainers);
    UnambiguousSourceAcross(st, inits.store, c, s);
    MergeContainersAgree(inits.store, c.containers, s.containers);
    AllAgreeStable(mains.store, r.store, mains.containers, s.containers);
    UnambiguousSourceAcross(st, mains.store, c, s);
    forall j | 0 <= j < |s.volumes| ensures Present(r.store, r.cluster.volumes, s.volumes[j]) {
      MergeVolumesPresent(mains.store, c.volumes, s.volumes, j);
    }
  }

  lemma RepairedIsQuiet(st: Store, c: Deployment, s: Deployment)
    requires Repaired(st, c, s)
    ensures Merge(st, c, s) == Result(FillAll(st, s.volumes), c, false)
  {
    MergeContainersQuiet(st, c.initContainers, s.initContainers);
    MergeContainersQuiet(st, c.containers, s.containers);
    MergeVolumesQuiet(st, c.volumes, s.volumes);
  }

  /** If nothing is reported and no volume is missing, the source is unambiguous. */
  lemma UnreportedIsUnambiguous(st: Store, c: Deployment, s: Deployment)
    requires !Merge(st, c, s).modified
    requires forall j :: 0 <= j < |s.volumes| ==> Named(c.volumes, s.volumes[j].name) >= 0
    ensures UnambiguousSource(st, c, s)
  {
    var inits := MergeContainers(st, c.initContainers, s.initContainers);
    var mains := MergeContainers(inits.store, c.containers, s.containers);
    var r := Merge(st, c, s);
    MergeFills(st, c, s);
    UnreportedAgrees(st, c.initContainers, s.initContainers);
    AgreeingIsUnambiguous(inits.store, c.initContainers, s.initContainers);
    UnambiguousAcross(st, inits.store, c.initContainers, c.initContainers, s.initContainers);
    UnreportedAgrees(inits.store, c.containers, s.containers);
    AgreeingIsUnambiguous(mains.store, c.containers, s.containers);
    UnambiguousAcross(st, mains.store, c.containers, c.containers, s.containers);
    forall j | 0 <= j < |s.volumes| ensures PresentEqual(r.store, c.volumes, s.volumes[j]) {
      UnreportedEqual(mains.store, c.volumes, s.volumes, j);
    }
    UnambiguousVolumesAcross(st, r.store, s.volumes);
  }

  lemma MergeNamesAll(st: Store, c: Deployment, s: Deployment)
    ensures forall j :: 0 <= j < |s.volumes| ==> Named(Merge(st, c, s).cluster.volumes, s.volumes[j].name) >= 0
  {
    var inits := MergeContainers(st, c.initContainers, s.initContainers);
    var mains := MergeContainers(inits.store, c.containers, s.containers);
    forall j | 0 <= j < |s.volumes| ensures Named(Merge(st, c, s).cluster.volumes, s.volumes[j].name) >= 0 {
      MergeVolumesNamed(mains.store, c.volumes, s.volumes, s.volumes[j].name);
    }
  }

  lemma UnambiguousAfter(st: Store, c: Deployment, s: Deployment)
    ensures var r := Merge(st, c, s); UnambiguousSource(st, c, s) <==> UnambiguousSource(r.store, r.cluster, s)
  {
    var inits := MergeContainers(st, c.initContainers, s.initContainers);
    var r := Merge(st, c, s);
    MergeFills(st, c, s);
    MergeContainersFrame(st, c.initContainers, s.initContainers);
    MergeContainersFrame(inits.store, c.containers, s.containers);
    UnambiguousAcross(st, r.store, c.initContainers, r.cluster.initContainers, s.initContainers);
    UnambiguousAcross(st, r.store, c.containers, r.cluster.containers, s.containers);
    UnambiguousVolumesAcross(st, r.store, s.volumes);
  }

  /** A second call with the same source reports nothing and changes nothing in the cluster's
      Deployment exactly when the source is unambiguous, distinct names being the usual case. */
  lemma SecondCallQuietIff(st: Store, c: Deployment, s: Deployment)
    ensures var first := Merge(st, c, s);
            var second := Merge(first.store, first.cluster, s);
            && (UnambiguousSource(st, c, s) <==> !second.modified)
            && (!second.modified ==> second.cluster == first.cluster)
  {
    var first := Merge(st, c, s);
    var second := Merge(first.store, first.cluster, s);
    UnambiguousAfter(st, c, s);
    if UnambiguousSource(st, c, s) {
      MergeRepairs(st, c, s);
      RepairedIsQuiet(first.store, first.cluster, s);
    }
    if !second.modified {
      MergeNamesAll(st, c, s);
      UnreportedIsUnambiguous(first.store, first.cluster, s);
      MergeRepairs(st, c, s);
      RepairedIsQuiet(first.store, first.cluster, s);
    }
  }

  /** The second call still writes defaults into the source exactly when some source volume,
      appended by the first call, has not got them yet; a third call never does. */
  lemma SecondCallFillsIff(st: Store, c: Deployment, s: Deployment)
    requires UnambiguousSource(st, c, s)
    ensures var first := Merge(st, c, s);
            var second := Merge(first.store, first.cluster, s);
            && (second.store == first.store
                <==> forall j :: 0 <= j < |s.volumes| ==> VolumeFull(first.store, s.volumes[j].source))
            && Merge(second.store, second.cluster, s) == second
  {
    var first := Merge(st, c, s);
    var second := Merge(first.store, first.cluster, s);
    MergeRepairs(st, c, s);
    RepairedIsQuiet(first.store, first.cluster, s);
    FillAllIdleIff(first.store, s.volumes);
    UnambiguousSourceAcross(first.store, second.store, first.cluster, s);
    UnambiguousAfter(st, c, s);
    MergeRepairs(first.store, first.cluster, s);
    RepairedIsQuiet(second.store, second.cluster, s);
    FillAllIdleIff(second.store, s.volumes);
  }

  /** Whatever the source: containers keep their places, names and unmanaged fields, those of
      no source name are untouched, cluster volumes keep their places and those of no source
      name are untouched, the missing volumes follow, and unmanaged fields stay. */
  lemma MergeKeepsTheRest(st: Store, c: Deployment, s: Deployment)
    ensures var d := Merge(st, c, s).cluster;
            && d.unmanaged == c.unmanaged
            && Kept(c.initContainers, d.initContainers, s.initContainers)
            && Kept(c.containers, d.containers, s.containers)
            && Names(d.volumes) == Names(c.volumes) + Names(Missing(c.volumes, s.volumes))
            && forall i :: 0 <= i < |c.volumes|
                           && (forall j :: 0 <= j < |s.volumes| ==> s.volumes[j].name != c.volumes[i].name) ==>
                 i < |d.volumes| && d.volumes[i] == c.volumes[i]
  {
    var inits := MergeContainers(st, c.initContainers, s.initContainers);
    var mains := MergeContainers(inits.store, c.containers, s.containers);
    var d := Merge(st, c, s).cluster;
    MergeContainersFrame(st, c.initContainers, s.initContainers);
    MergeContainersFrame(inits.store, c.containers, s.containers);
    MergeVolumesNames(mains.store, c.volumes, s.volumes);
    forall i | 0 <= i < |c.volumes| && (forall j :: 0 <= j < |s.volumes| ==> s.volumes[j].name != c.volumes[i].name)
      ensures i < |d.volumes| && d.volumes[i] == c.volumes[i]
    {
      MergeVolumesUntouched(mains.store, c.volumes, s.volumes, i);
    }
  }

  predicate Kept(before: seq<Container>, after: seq<Container>, ss: seq<Container>) {
    && |after| == |before|
    && (forall i :: 0 <= i < |before| ==> after[i].name == before[i].name && after[i].unmanaged == before[i].unmanaged)
    && (forall i :: 0 <= i < |before| && (forall j :: 0 <= j < |ss| ==> ss[j].name != before[i].name) ==>
      after[i] == before[i])
  }

  // ------------------------------------------------------------- the report is incomplete

  /** A call that reports nothing has only appended the missing volumes, so "nothing reported"
      means "nothing changed" exactly when the cluster already names every source volume. */
  lemma UnreportedChangeIff(st: Store, c: Deployment, s: Deployment)
    requires !Merge(st, c, s).modified
    ensures Merge(st, c, s).cluster == c.(volumes := c.volumes + Missing(c.volumes, s.volumes))
    ensures Merge(st, c, s).cluster == c
            <==> forall j :: 0 <= j < |s.volumes| ==> Named(c.volumes, s.volumes[j].name) >= 0
  {
    var inits := MergeContainers(st, c.initContainers, s.initContainers);
    var mains := MergeContainers(inits.store, c.containers, s.containers);
    MergeContainersFrame(st, c.initContainers, s.initContainers);
    MergeContainersFrame(inits.store, c.containers, s.containers);
    UnreportedAppends(mains.store, c.volumes, s.volumes);
    MissingNothingIff(c.volumes, s.volumes);
    assert |c.volumes + Missing(c.volumes, s.volumes)| == |c.volumes| + |Missing(c.volumes, s.volumes)|;
    if Missing(c.volumes, s.volumes) == [] {
      assert c.volumes + Missing(c.volumes, s.volumes) == c.volumes;
    }
  }

  // --------------------------------------------------------------------- no hot loop

  /** The same source, in the same memory or rendered anew: equal fields, and equal values
      once defaulted. */
  predicate SameSource(a: Store, s: Deployment, b: Store, t: Deployment) {
    && t.(initContainers := s.initContainers, containers := s.containers, volumes := s.volumes) == s
    && SameContainers(a, s.initContainers, b, t.initContainers)
    && SameContainers(a, s.containers, b, t.containers)
    && |t.volumes| == |s.volumes|
    && forall j :: 0 <= j < |s.volumes| ==>
         && t.volumes[j].name == s.volumes[j].name
         && Defaulted(SourceValue(b, t.volumes[j].source)) == Defaulted(SourceValue(a, s.volumes[j].source))
  }

  predicate SameContainers(a: Store, ss: seq<Container>, b: Store, ts: seq<Container>) {
    |ts| == |ss| && forall j :: 0 <= j < |ss| ==>
      && ts[j].name == ss[j].name && ts[j].managed == ss[j].managed
      && EnvDefaulted(EnvValue(b, ts[j].env)) == EnvDefaulted(EnvValue(a, ss[j].env))
  }

  /** What the server hands back for a Deployment it was sent: a copy, elsewhere in memory,
      with the defaults filled in, and its own unmanaged fields. */
  predicate ServerCopy(a: Store, c: Deployment, b: Store, d: Deployment) {
    && HeadAgrees(d, c)
    && ServerContainers(a, c.initContainers, b, d.initContainers)
    && ServerContainers(a, c.containers, b, d.containers)
    && |d.volumes| == |c.volumes|
    && forall i :: 0 <= i < |c.volumes| ==>
         && d.volumes[i].name == c.volumes[i].name
         && SourceValue(b, d.volumes[i].source) == Defaulted(SourceValue(a, c.volumes[i].source))
  }

  predicate ServerContainers(a: Store, cs: seq<Container>, b: Store, ds: seq<Container>) {
    |ds| == |cs| && forall i :: 0 <= i < |cs| ==>
      && ds[i].name == cs[i].name && ds[i].managed == cs[i].managed
      && EnvValue(b, ds[i].env) == EnvDefaulted(EnvValue(a, cs[i].env))
  }

  lemma ServedContainersAgree(
      a: Store, cs: seq<Container>, ss: seq<Container>, b: Store, ds: seq<Container>, ts: seq<Container>)
    requires AllAgree(a, cs, ss) && ServerContainers(a, cs, b, ds) && SameContainers(a, ss, b, ts)
    ensures AllWouldAgree(b, ds, ts)
  {
  }

  lemma {:induction false} NamedByNames(cs: seq<Volume>, ds: seq<Volume>, name: string)
    requires Names(cs) == Names(ds)
    ensures Named(cs, name) == Named(ds, name)
  {
    assert |cs| == |Names(cs)| && |ds| == |Names(ds)|;
    if cs != [] {
      assert Names(cs)[0] == cs[0].name && Names(ds)[0] == ds[0].name;
      assert Names(cs[1..]) == Names(cs)[1..] && Names(ds[1..]) == Names(ds)[1..];
      NamedByNames(cs[1..], ds[1..], name);
    }
  }

  lemma ServedVolumePresent(a: Store, c: Deployment, s: Deployment, b: Store, d: Deployment, t: Deployment, j: nat)
    requires AllPresent(a, c.volumes, s.volumes) && ServerCopy(a, c, b, d) && SameSource(a, s, b, t)
    requires j < |t.volumes|
    ensures PresentEqual(b, d.volumes, t.volumes[j])
  {
    assert Present(a, c.volumes, s.volumes[j]);
    assert Names(c.volumes) == Names(d.volumes);
    NamedByNames(c.volumes, d.volumes, s.volumes[j].name);
    DefaultedTwice(SourceValue(a, s.volumes[j].source));
  }

  lemma AllWouldAgreeStable(a: Store, b: Store, cs: seq<Container>, ss: seq<Container>)
    requires Fills(a, b) && AllWouldAgree(a, cs, ss)
    ensures AllWouldAgree(b, cs, ss)
  {
    forall i, j | 0 <= i < |cs| && 0 <= j < |ss| && cs[i].name == ss[j].name ensures WouldAgree(b, cs[i], ss[j]) {
      WouldAgreeStable(a, b, cs[i], ss[j]);
    }
  }

  lemma ServedVolumesQuiet(
      a: Store, c: Deployment, s: Deployment, b: Store, d: Deployment, t: Deployment, st: Store)
    requires AllPresent(a, c.volumes, s.volumes) && ServerCopy(a, c, b, d) && SameSource(a, s, b, t)
    requires Fills(b, st)
    ensures var r := MergeVolumes(st, d.volumes, t.volumes); r.volumes == d.volumes && !r.modified
  {
    forall j | 0 <= j < |t.volumes| ensures Present(st, d.volumes, t.volumes[j]) {
      ServedVolumePresent(a, c, s, b, d, t, j);
      PresentStable(b, st, d.volumes, t.volumes[j]);
    }
    MergeVolumesQuiet(st, d.volumes, t.volumes);
  }

  lemma ServedIsSettled(a: Store, c: Deployment, s: Deployment, b: Store, d: Deployment, t: Deployment)
    requires Repaired(a, c, s) && ServerCopy(a, c, b, d) && SameSource(a, s, b, t)
    ensures Merge(b, d, t).cluster == d && !Merge(b, d, t).modified
  {
    var inits := MergeContainers(b, d.initContainers, t.initContainers);
    var mains := MergeContainers(inits.store, d.containers, t.containers);
    MergeFills(b, d, t);
    ServedContainersAgree(a, c.initContainers, s.initContainers, b, d.initContainers, t.initContainers);
    MergeContainersSettled(b, d.initContainers, t.initContainers);
    ServedContainersAgree(a, c.containers, s.containers, b, d.containers, t.containers);
    AllWouldAgreeStable(b, inits.store, d.containers, t.containers);
    MergeContainersSettled(inits.store, d.containers, t.containers);
    ServedVolumesQuiet(a, c, s, b, d, t, mains.store);
  }

  lemma SameSourceUnambiguous(a: Store, c: Deployment, s: Deployment, b: Store, d: Deployment, t: Deployment)
    requires ServerCopy(a, c, b, d) && SameSource(a, s, b, t) && UnambiguousSource(b, d, t)
    ensures UnambiguousSource(a, c, s)
  {
  }

  lemma ServedNamesAll(st: Store, c: Deployment, s: Deployment, b: Store, d: Deployment, t: Deployment)
    requires var first := Merge(st, c, s);
             ServerCopy(first.store, first.cluster, b, d) && SameSource(first.store, s, b, t)
    ensures forall j :: 0 <= j < |t.volumes| ==> Named(d.volumes, t.volumes[j].name) >= 0
  {
    var first := Merge(st, c, s);
    MergeNamesAll(st, c, s);
    assert Names(first.cluster.volumes) == Names(d.volumes);
    forall j | 0 <= j < |t.volumes| ensures Named(d.volumes, t.volumes[j].name) >= 0 {
      NamedByNames(first.cluster.volumes, d.volumes, s.volumes[j].name);
    }
  }

  /** Merge, send, let the server fill in its defaults, read back, merge again: the second
      merge finds nothing to do, for appended volumes too, exactly when the source is
      unambiguous. */
  lemma NoHotLoopIff(st: Store, c: Deployment, s: Deployment, b: Store, d: Deployment, t: Deployment)
    requires var first := Merge(st, c, s);
             ServerCopy(first.store, first.cluster, b, d) && SameSource(first.store, s, b, t)
    ensures UnambiguousSource(st, c, s) <==> !Merge(b, d, t).modified
    ensures !Merge(b, d, t).modified ==> Merge(b, d, t).cluster == d
  {
    var first := Merge(st, c, s);
    UnambiguousAfter(st, c, s);
    if !Merge(b, d, t).modified {
      ServedNamesAll(st, c, s, b, d, t);
      UnreportedIsUnambiguous(b, d, t);
      SameSourceUnambiguous(first.store, first.cluster, s, b, d, t);
    }
    if UnambiguousSource(st, c, s) {
      MergeRepairs(st, c, s);
      ServedIsSettled(first.store, first.cluster, s, b, d, t);
    }
  }
}

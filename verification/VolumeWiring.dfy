/** Which claim, if any, each volume of a Deployment refers to after the global storages
    and then the component's own have been applied to it. */
module VolumeWiring {
  import opened Options
  import opened StorageTypes

  datatype Source = Untouched | EmptyDir(size: string) | ClaimRef(claim: Claim)

  datatype Volume = Volume(name: string, source: Source)

  datatype Group = AlamedaGroup | OtherGroup

  const LOG_SUFFIX := "-log-storage"
  const DATA_SUFFIX := "-data-storage"

  predicate HasSuffix(s: string, suffix: string) {
    |suffix| <= |s| && s[|s| - |suffix|..] == suffix
  }

  function Suffix(u: Usage): string {
    if u == Log then LOG_SUFFIX else DATA_SUFFIX
  }

  /** The first volume whose name ends so, or -1. */
  function IndexFor(vols: seq<Volume>, u: Usage): (r: int)
    ensures -1 <= r < |vols|
    ensures r == -1 ==> forall i :: 0 <= i < |vols| ==> !HasSuffix(vols[i].name, Suffix(u))
    ensures r >= 0 ==> HasSuffix(vols[r].name, Suffix(u))
    ensures forall i :: 0 <= i < r ==> !HasSuffix(vols[i].name, Suffix(u))
  {
    if vols == [] then -1
    else if HasSuffix(vols[0].name, Suffix(u)) then 0
    else
      var r := IndexFor(vols[1..], u);
      if r == -1 then -1 else r + 1
  }

  function SetSource(vols: seq<Volume>, i: int, source: Source): seq<Volume>
    requires -1 <= i < |vols|
  {
    if i == -1 then vols else vols[i := vols[i].(source := source)]
  }

  function SetFor(vols: seq<Volume>, u: Usage, source: Source): seq<Volume> {
    SetSource(vols, IndexFor(vols, u), source)
  }

  /** What an entry makes of the volume for a usage: the claim, an empty directory, or
      nothing. An ephemeral entry without a usage makes nothing of either volume. */
  function Effect(e: Storage, u: Usage, c: Component, g: Group): Option<Source> {
    if !e.IsEmpty() && (e.usage == u || (e.usage == EmptyUsage && (g == AlamedaGroup || u == Data))) then
      Some(ClaimRef(Claim(c, u)))
    else if e.kind == Ephemeral && e.usage == u then Some(EmptyDir(e.size))
    else None
  }

  function SetEffect(vols: seq<Volume>, u: Usage, effect: Option<Source>): seq<Volume> {
    if effect == None then vols else SetFor(vols, u, effect.value)
  }

  /** One storage entry applied to the volumes. */
  function WireEntry(vols: seq<Volume>, e: Storage, c: Component, g: Group): seq<Volume> {
    SetEffect(SetEffect(vols, Log, Effect(e, Log, c, g)), Data, Effect(e, Data, c, g))
  }

  function Wire(vols: seq<Volume>, storages: seq<Storage>, c: Component, g: Group): seq<Volume>
    decreases |storages|
  {
    if storages == [] then vols
    else Wire(WireEntry(vols, storages[0], c, g), storages[1..], c, g)
  }

  /** Global settings first, then the component's section. */
  function Wired(vols: seq<Volume>, p: Parameters, c: Component, g: Group): seq<Volume> {
    Wire(Wire(vols, p.storages, c, g), p.Section(c), c, g)
  }

  // --------------------------------------------------------- the Deployment in place

  method GetVolumeIndex(dep: array<Volume>, u: Usage) returns (index: int)
    ensures index == IndexFor(dep[..], u)
  {
    for i := 0 to dep.Length
      invariant forall j :: 0 <= j < i ==> !HasSuffix(dep[j].name, Suffix(u))
    {
      if HasSuffix(dep[i].name, Suffix(u)) {
        assert dep[..][i] == dep[i];
        return i;
      }
    }
    return -1;
  }

  /** Points the volume for a usage at a source, if the Deployment has such a volume. */
  method SetVolumeSource(dep: array<Volume>, u: Usage, source: Source)
    modifies dep
    ensures dep[..] == SetFor(old(dep[..]), u, source)
  {
    var index := GetVolumeIndex(dep, u);
    if index != -1 {
      dep[index] := dep[index].(source := source);
    }
  }

  method SetStorageToVolumeSource(dep: array<Volume>, storages: seq<Storage>, c: Component, g: Group)
    modifies dep
    ensures dep[..] == Wire(old(dep[..]), storages, c, g)
  {
    for i := 0 to |storages|
      invariant Wire(dep[..], storages[i..], c, g) == Wire(old(dep[..]), storages, c, g)
    {
      assert storages[i..][1..] == storages[i + 1..];
      ApplyEntry(dep, storages[i], c, g);
    }
  }

  method ApplyEntry(dep: array<Volume>, v: Storage, c: Component, g: Group)
    modifies dep
    ensures dep[..] == WireEntry(old(dep[..]), v, c, g)
  {
    if !v.IsEmpty() {
      ApplyPvc(dep, v, c, g);
    }
    if v.kind == Ephemeral {
      if v.usage == Log {
        SetVolumeSource(dep, Log, EmptyDir(v.size));
      }
      if v.usage == Data {
        SetVolumeSource(dep, Data, EmptyDir(v.size));
      }
    }
  }

  /** The entry refers to claims. */
  method ApplyPvc(dep: array<Volume>, v: Storage, c: Component, g: Group)
    requires !v.IsEmpty()
    modifies dep
    ensures dep[..] == WireEntry(old(dep[..]), v, c, g)
  {
    if v.usage == Log {
      SetVolumeSource(dep, Log, ClaimRef(Claim(c, Log)));
    }
    if v.usage == Data {
      SetVolumeSource(dep, Data, ClaimRef(Claim(c, Data)));
    }
    if v.usage == EmptyUsage && g == AlamedaGroup {
      SetVolumeSource(dep, Log, ClaimRef(Claim(c, Log)));
      SetVolumeSource(dep, Data, ClaimRef(Claim(c, Data)));
    } else if v.usage == EmptyUsage && g != AlamedaGroup {
      SetVolumeSource(dep, Data, ClaimRef(Claim(c, Data)));
    }
  }

  /** The global storages and then the component's own. */
  method ParamterToDeployment(dep: array<Volume>, p: Parameters, c: Component, g: Group)
    modifies dep
    ensures dep[..] == Wired(old(dep[..]), p, c, g)
  {
    SetStorageToVolumeSource(dep, p.storages, c, g);
    SetStorageToVolumeSource(dep, p.Section(c), c, g);
  }

  // ------------------------------------------------------------- what the wiring means

  lemma LogSuffixLetter(name: string)
    requires HasSuffix(name, LOG_SUFFIX)
    ensures |name| >= 12 && name[|name| - 9] == 'g'
  {
  }

  lemma DataSuffixLetter(name: string)
    requires HasSuffix(name, DATA_SUFFIX)
    ensures |name| >= 13 && name[|name| - 9] == 'a'
  {
  }

  lemma SuffixesDiffer(name: string)
    requires HasSuffix(name, LOG_SUFFIX)
    ensures !HasSuffix(name, DATA_SUFFIX)
  {
    LogSuffixLetter(name);
    if HasSuffix(name, DATA_SUFFIX) {
      DataSuffixLetter(name);
    }
  }

  predicate SameNames(a: seq<Volume>, b: seq<Volume>) {
    |a| == |b| && forall i :: 0 <= i < |a| ==> a[i].name == b[i].name
  }

  lemma {:induction false} SameNamesSameIndex(a: seq<Volume>, b: seq<Volume>, u: Usage)
    requires SameNames(a, b)
    ensures IndexFor(a, u) == IndexFor(b, u)
  {
  }

  lemma SetForEffect(vols: seq<Volume>, u: Usage, source: Source)
    requires u in {Log, Data}
    ensures var r := SetFor(vols, u, source);
            && SameNames(vols, r)
            && IndexFor(r, Log) == IndexFor(vols, Log) && IndexFor(r, Data) == IndexFor(vols, Data)
            && forall i :: 0 <= i < |vols| ==>
                 r[i].source == if i == IndexFor(vols, u) then source else vols[i].source
  {
    var r := SetFor(vols, u, source);
    SameNamesSameIndex(vols, r, Log);
    SameNamesSameIndex(vols, r, Data);
  }

  lemma IndicesDiffer(vols: seq<Volume>)
    ensures IndexFor(vols, Log) == -1 || IndexFor(vols, Log) != IndexFor(vols, Data)
  {
    if IndexFor(vols, Log) >= 0 {
      SuffixesDiffer(vols[IndexFor(vols, Log)].name);
    }
  }

  function After(prior: Source, effect: Option<Source>): Source {
    if effect.Some? then effect.value else prior
  }

  /** The volumes after a pass: names and positions kept, the two storage volumes as given,
      every other volume as it was. */
  predicate Outcome(before: seq<Volume>, after: seq<Volume>, logEffect: Option<Source>, dataEffect: Option<Source>) {
    && SameNames(before, after)
    && IndexFor(after, Log) == IndexFor(before, Log) && IndexFor(after, Data) == IndexFor(before, Data)
    && forall i :: 0 <= i < |before| ==>
         after[i].source ==
           if i == IndexFor(before, Log) then After(before[i].source, logEffect)
           else if i == IndexFor(before, Data) then After(before[i].source, dataEffect)
           else before[i].source
  }

  lemma SetEffectOutcome(vols: seq<Volume>, u: Usage, effect: Option<Source>)
    requires u in {Log, Data}
    ensures Outcome(vols, SetEffect(vols, u, effect),
                    if u == Log then effect else None, if u == Data then effect else None)
  {
    IndicesDiffer(vols);
    if effect.Some? {
      SetForEffect(vols, u, effect.value);
    }
  }

  lemma WireEntryOutcome(vols: seq<Volume>, e: Storage, c: Component, g: Group)
    ensures Outcome(vols, WireEntry(vols, e, c, g), Effect(e, Log, c, g), Effect(e, Data, c, g))
  {
    var logs, datas := Effect(e, Log, c, g), Effect(e, Data, c, g);
    var mid := SetEffect(vols, Log, logs);
    SetEffectOutcome(vols, Log, logs);
    SetEffectOutcome(mid, Data, datas);
    Compose(vols, mid, WireEntry(vols, e, c, g), logs, None, None, datas);
  }

  /** Which volume is meant: the first whose name ends so. */
  lemma IndexInWords(vols: seq<Volume>, u: Usage, i: nat)
    requires u in {Log, Data} && i < |vols|
    ensures var suffix := if u == Log then "-log-storage" else "-data-storage";
            IndexFor(vols, u) == i
            <==> HasSuffix(vols[i].name, suffix) && forall j :: 0 <= j < i ==> !HasSuffix(vols[j].name, suffix)
  {
  }

  /** What one entry does, in so many words. A pvc with a size refers the volume of its usage to
      the component's claim; without a usage it does so for both volumes, or outside the alameda
      group for the data volume only. An ephemeral entry makes the volume of its usage an empty
      directory. Nothing else changes. */
  lemma EntryInWords(vols: seq<Volume>, e: Storage, c: Component, g: Group, i: nat)
    requires i < |vols|
    ensures var r, pvc := Wire(vols, [e], c, g), e.kind == PVC && e.size != "";
            && |r| == |vols| && r[i].name == vols[i].name
            && r[i].source ==
               if i == IndexFor(vols, Log) then
                 if pvc && (e.usage == Log || (e.usage == EmptyUsage && g == AlamedaGroup)) then ClaimRef(Claim(c, Log))
                 else if e.kind == Ephemeral && e.usage == Log then EmptyDir(e.size) else vols[i].source
               else if i == IndexFor(vols, Data) then
                 if pvc && (e.usage == Data || e.usage == EmptyUsage) then ClaimRef(Claim(c, Data))
                 else if e.kind == Ephemeral && e.usage == Data then EmptyDir(e.size) else vols[i].source
               else vols[i].source
  {
    WireEntryOutcome(vols, e, c, g);
    assert Wire(vols, [e], c, g) == WireEntry(vols, e, c, g);
  }

  /** The governing entry's effect, if there is one and it has one. */
  function GoverningEffect(storages: seq<Storage>, u: Usage, c: Component, g: Group): Option<Source> {
    match Governing(storages, u)
    case None => None
    case Some(e) => Effect(e, u, c, g)
  }

  function Later(first: Option<Source>, second: Option<Source>): Option<Source> {
    if second.Some? then second else first
  }

  lemma Compose(a: seq<Volume>, b: seq<Volume>, d: seq<Volume>,
                l1: Option<Source>, d1: Option<Source>, l2: Option<Source>, d2: Option<Source>)
    requires Outcome(a, b, l1, d1) && Outcome(b, d, l2, d2)
    ensures Outcome(a, d, Later(l1, l2), Later(d1, d2))
  {
  }

  lemma RestHasNone(storages: seq<Storage>, u: Usage)
    requires storages != [] && AtMostOneGoverns(storages, u)
    ensures AtMostOneGoverns(storages[1..], u)
    ensures storages[0].Governs(u) ==> Governing(storages[1..], u) == None
  {
  }

  lemma {:induction false} WireOutcome(vols: seq<Volume>, storages: seq<Storage>, c: Component, g: Group)
    requires AtMostOneGoverns(storages, Log) && AtMostOneGoverns(storages, Data)
    ensures Outcome(vols, Wire(vols, storages, c, g),
                    GoverningEffect(storages, Log, c, g), GoverningEffect(storages, Data, c, g))
    decreases |storages|
  {
    if storages != [] {
      var e, rest := storages[0], storages[1..];
      var next := WireEntry(vols, e, c, g);
      RestHasNone(storages, Log);
      RestHasNone(storages, Data);
      WireEntryOutcome(vols, e, c, g);
      WireOutcome(next, rest, c, g);
      Compose(vols, next, Wire(next, rest, c, g), Effect(e, Log, c, g), Effect(e, Data, c, g),
              GoverningEffect(rest, Log, c, g), GoverningEffect(rest, Data, c, g));
    }
  }

  /** The overlay: on each storage volume the section's effect, if it has one, wins over the
      global one; no other volume changes. */
  lemma OverlayOutcome(vols: seq<Volume>, p: Parameters, c: Component, g: Group)
    requires AtMostOneGoverns(p.storages, Log) && AtMostOneGoverns(p.storages, Data)
    requires AtMostOneGoverns(p.Section(c), Log) && AtMostOneGoverns(p.Section(c), Data)
    ensures Outcome(vols, Wired(vols, p, c, g),
                    Later(GoverningEffect(p.storages, Log, c, g), GoverningEffect(p.Section(c), Log, c, g)),
                    Later(GoverningEffect(p.storages, Data, c, g), GoverningEffect(p.Section(c), Data, c, g)))
  {
    var mid := Wire(vols, p.storages, c, g);
    WireOutcome(vols, p.storages, c, g);
    WireOutcome(mid, p.Section(c), c, g);
    Compose(vols, mid, Wired(vols, p, c, g),
            GoverningEffect(p.storages, Log, c, g), GoverningEffect(p.storages, Data, c, g),
            GoverningEffect(p.Section(c), Log, c, g), GoverningEffect(p.Section(c), Data, c, g));
  }
}

/** The two computations agree: what a Deployment mounts is installed and not removed. */
module ClaimAgreement {
  import opened Options
  import opened StorageTypes
  import opened ClaimPlanner
  import opened VolumeWiring

  predicate NoClaims(vols: seq<Volume>) {
    forall i :: 0 <= i < |vols| ==> !vols[i].source.ClaimRef?
  }

  /** The source refers to a claim that is not installed, or that is removed again. */
  predicate Dangling(source: Source, install: seq<Claim>, uninstall: seq<Claim>) {
    source.ClaimRef? && (source.claim !in install || source.claim in uninstall)
  }

  predicate DanglesAt(vols: seq<Volume>, p: Parameters, c: Component, g: Group, i: int) {
    && 0 <= i < |Wired(vols, p, c, g)| && InstallPlan(p).Some? && UninstallPlan(p).Some?
    && Dangling(Wired(vols, p, c, g)[i].source, InstallPlan(p).value, UninstallPlan(p).value)
  }

  /** What the overlay makes of the volume for a usage. */
  function FinalEffect(p: Parameters, c: Component, g: Group, u: Usage): Option<Source> {
    Later(GoverningEffect(p.storages, u, c, g), GoverningEffect(p.Section(c), u, c, g))
  }

  /** The section's entry takes the claim away without rewiring the volume: it is not a pvc,
      and it is not an ephemeral entry that names this usage. */
  predicate RemovesUnwired(e: Storage) {
    e.kind != PVC && (e.kind != Ephemeral || e.usage == EmptyUsage)
  }

  /** The global entry wires the volume and the section's entry removes the claim unwired. */
  predicate Clash(p: Parameters, c: Component, g: Group, u: Usage) {
    && GoverningEffect(p.storages, u, c, g) == Some(ClaimRef(Claim(c, u)))
    && Governing(p.Section(c), u).Some?
    && RemovesUnwired(Governing(p.Section(c), u).value)
  }

  // ----------------------------------------------------- both sides, entry by entry

  predicate Decided(p: Parameters, c: Claim, kindIsPvc: bool) {
    Decider(p, c).Some? && (Decider(p, c).value.kind == PVC) == kindIsPvc
  }

  /** Lists that hold what the planner's refinement says they hold. */
  ghost predicate Planned(p: Parameters, install: seq<Claim>, uninstall: seq<Claim>) {
    forall c: Claim :: Plannable(c) ==>
      (c in install <==> Decided(p, c, true)) && (c in uninstall <==> Decided(p, c, false))
  }

  /** A claim that is wired but not wanted, in terms of the two entries alone. */
  lemma WiredUnwantedIff(p: Parameters, c: Component, g: Group, u: Usage)
    requires c != AgentApp && u in {Log, Data}
    ensures FinalEffect(p, c, g, u) == Some(ClaimRef(Claim(c, u))) && !Decided(p, Claim(c, u), true)
            <==> Clash(p, c, g, u)
  {
  }

  lemma OrdinaryNeverClash(p: Parameters, c: Component, g: Group, u: Usage)
    requires Ordinary(p.storages) && Ordinary(p.Section(c))
    ensures !Clash(p, c, g, u)
  {
  }

  lemma EffectIsOwnClaim(p: Parameters, c: Component, g: Group, u: Usage)
    ensures var e := FinalEffect(p, c, g, u);
            e.Some? && e.value.ClaimRef? ==> e.value.claim == Claim(c, u)
  {
  }

  lemma ClaimComesFromEffect(vols: seq<Volume>, wired: seq<Volume>, logs: Option<Source>, datas: Option<Source>, i: nat)
    requires NoClaims(vols) && Outcome(vols, wired, logs, datas)
    requires i < |wired| && wired[i].source.ClaimRef?
    ensures i == IndexFor(vols, Log) || i == IndexFor(vols, Data)
    ensures (if i == IndexFor(vols, Log) then logs else datas) == Some(wired[i].source)
  {
  }

  /** Only the storage volumes refer to claims, each to the component's own claim. */
  lemma OnlyOwnClaims(vols: seq<Volume>, wired: seq<Volume>, p: Parameters, c: Component, g: Group, i: nat)
    requires NoClaims(vols) && Outcome(vols, wired, FinalEffect(p, c, g, Log), FinalEffect(p, c, g, Data))
    requires i < |wired| && wired[i].source.ClaimRef?
    ensures i == IndexFor(vols, Log) || i == IndexFor(vols, Data)
    ensures var u := if i == IndexFor(vols, Log) then Log else Data;
            && wired[i].source == ClaimRef(Claim(c, u))
            && FinalEffect(p, c, g, u) == Some(wired[i].source)
  {
    ClaimComesFromEffect(vols, wired, FinalEffect(p, c, g, Log), FinalEffect(p, c, g, Data), i);
    EffectIsOwnClaim(p, c, g, Log);
    EffectIsOwnClaim(p, c, g, Data);
  }

  /** The volume at a usage's index dangles exactly when its final effect is the claim and
      the claim's deciding entry is not a pvc. */
  lemma DanglingAtIndex(vols: seq<Volume>, wired: seq<Volume>, install: seq<Claim>, uninstall: seq<Claim>,
                        p: Parameters, c: Component, g: Group, u: Usage)
    requires NoClaims(vols) && Outcome(vols, wired, FinalEffect(p, c, g, Log), FinalEffect(p, c, g, Data))
    requires Planned(p, install, uninstall) && u in {Log, Data} && IndexFor(vols, u) >= 0
    ensures Dangling(wired[IndexFor(vols, u)].source, install, uninstall) <==>
              FinalEffect(p, c, g, u) == Some(ClaimRef(Claim(c, u))) && !Decided(p, Claim(c, u), true)
  {
    var i := IndexFor(vols, u);
    IndicesDiffer(vols);
    assert wired[i].source == After(vols[i].source, FinalEffect(p, c, g, u));
    if wired[i].source.ClaimRef? {
      OnlyOwnClaims(vols, wired, p, c, g, i);
      assert wired[i].source == ClaimRef(Claim(c, u));
      assert Plannable(Claim(c, u));
    }
  }

  // ---------------------------------------------------------------- the main results

  lemma PlansExist(p: Parameters)
    requires OneEntryPerUsage(p)
    ensures InstallPlan(p).Some? && UninstallPlan(p).Some?
    ensures Planned(p, InstallPlan(p).value, UninstallPlan(p).value)
  {
    PlannerRefines(p, Claim(Influxdb, Log));
    forall c: Claim | Plannable(c)
      ensures c in InstallPlan(p).value <==> Decided(p, c, true)
      ensures c in UninstallPlan(p).value <==> Decided(p, c, false)
    {
      PlannerRefines(p, c);
    }
  }

  lemma WiringKnown(vols: seq<Volume>, p: Parameters, c: Component, g: Group)
    requires OneEntryPerUsage(p)
    ensures Outcome(vols, Wired(vols, p, c, g), FinalEffect(p, c, g, Log), FinalEffect(p, c, g, Data))
  {
    assert OneEntryFor(p, Log) && OneEntryFor(p, Data);
    OverlayOutcome(vols, p, c, g);
  }

  /** For a component whose planner and wiring read the same section, with at most one entry
      per usage and list, a storage volume dangles exactly when the global entry wires it and
      the section's entry removes the claim without rewiring the volume. */
  lemma DanglesIff(vols: seq<Volume>, p: Parameters, c: Component, g: Group, u: Usage)
    requires OneEntryPerUsage(p) && NoClaims(vols) && c != AgentApp
    requires u in {Log, Data} && IndexFor(vols, u) >= 0
    ensures DanglesAt(vols, p, c, g, IndexFor(vols, u)) <==> Clash(p, c, g, u)
  {
    PlansExist(p);
    WiringKnown(vols, p, c, g);
    DanglingAtIndex(vols, Wired(vols, p, c, g), InstallPlan(p).value, UninstallPlan(p).value, p, c, g, u);
    WiredUnwantedIff(p, c, g, u);
  }

  /** Every usage is log or data and every type is pvc or ephemeral. */
  predicate Ordinary(storages: seq<Storage>) {
    forall e :: e in storages ==> e.usage in {Log, Data} && e.kind in {PVC, Ephemeral}
  }

  /** No dangling claim: with ordinary storages, every claim any volume of the Deployment
      refers to is installed and is not removed. */
  lemma NoDanglingClaim(vols: seq<Volume>, p: Parameters, c: Component, g: Group, i: nat)
    requires OneEntryPerUsage(p) && NoClaims(vols) && c != AgentApp
    requires Ordinary(p.storages) && Ordinary(p.Section(c))
    ensures InstallPlan(p).Some? && UninstallPlan(p).Some? && !DanglesAt(vols, p, c, g, i)
  {
    PlansExist(p);
    var wired := Wired(vols, p, c, g);
    if i < |wired| && wired[i].source.ClaimRef? {
      WiringKnown(vols, p, c, g);
      OnlyOwnClaims(vols, wired, p, c, g, i);
      var u := if i == IndexFor(vols, Log) then Log else Data;
      DanglesIff(vols, p, c, g, u);
      OrdinaryNeverClash(p, c, g, u);
    }
  }

  predicate SizedPvcs(storages: seq<Storage>) {
    forall e :: e in storages && e.kind == PVC ==> e.size != ""
  }

  lemma DecidedIsFinal(p: Parameters, c: Component, g: Group, u: Usage)
    requires c != AgentApp && u in {Log, Data}
    requires Ordinary(p.storages) && Ordinary(p.Section(c)) && SizedPvcs(p.storages) && SizedPvcs(p.Section(c))
    ensures FinalEffect(p, c, g, u) == (match Decider(p, Claim(c, u))
                                        case None => None
                                        case Some(e) => Some(if e.kind == PVC then ClaimRef(Claim(c, u))
                                                             else EmptyDir(e.size)))
  {
  }

  /** And conversely: with ordinary storages whose pvcs have a size, a claim that is installed
      is mounted, the storage volume referring to it exactly then; where the deciding entry is
      ephemeral the volume is an empty directory of its size, and where there is none it is
      left alone. */
  lemma MountedIffInstalled(vols: seq<Volume>, p: Parameters, c: Component, g: Group, u: Usage)
    requires OneEntryPerUsage(p) && NoClaims(vols) && c != AgentApp && u in {Log, Data} && IndexFor(vols, u) >= 0
    requires Ordinary(p.storages) && Ordinary(p.Section(c)) && SizedPvcs(p.storages) && SizedPvcs(p.Section(c))
    ensures InstallPlan(p).Some? && IndexFor(vols, u) < |Wired(vols, p, c, g)|
    ensures var source := Wired(vols, p, c, g)[IndexFor(vols, u)].source;
            && (source == ClaimRef(Claim(c, u)) <==> Claim(c, u) in InstallPlan(p).value)
            && (Decider(p, Claim(c, u)).Some? && Decider(p, Claim(c, u)).value.kind == Ephemeral ==>
                  source == EmptyDir(Decider(p, Claim(c, u)).value.size))
            && (Decider(p, Claim(c, u)) == None ==> source == vols[IndexFor(vols, u)].source)
  {
    PlansExist(p);
    WiringKnown(vols, p, c, g);
    DecidedIsFinal(p, c, g, u);
    IndicesDiffer(vols);
    assert Plannable(Claim(c, u));
  }

  /** The agent app's volumes follow its own section but its claims follow the backend's: its
      volume dangles exactly when it is wired to the claim and the backend's entry, or in its
      absence the global one, is missing or no pvc. */
  lemma AgentAppDanglesIff(vols: seq<Volume>, p: Parameters, g: Group, u: Usage)
    requires OneEntryPerUsage(p) && NoClaims(vols) && u in {Log, Data} && IndexFor(vols, u) >= 0
    ensures DanglesAt(vols, p, AgentApp, g, IndexFor(vols, u)) <==>
              && FinalEffect(p, AgentApp, g, u) == Some(ClaimRef(Claim(AgentApp, u)))
              && var e := if Governing(p.Section(Backend), u).Some? then Governing(p.Section(Backend), u)
                          else Governing(p.storages, u);
                 e == None || e.value.kind != PVC
  {
    PlansExist(p);
    WiringKnown(vols, p, AgentApp, g);
    DanglingAtIndex(vols, Wired(vols, p, AgentApp, g), InstallPlan(p).value, UninstallPlan(p).value, p, AgentApp, g, u);
  }

  // --------------------------------------------------------------- concrete clashes

  const PVC_FOR_ALL := Storage(PVC, EmptyUsage, "1Gi")
  const EPHEMERAL_FOR_ALL := Storage(Ephemeral, EmptyUsage, "")

  const REST_EPHEMERAL := Parameters([PVC_FOR_ALL], map[Rest := [EPHEMERAL_FOR_ALL]])
  const APP_ONLY := Parameters([], map[AgentApp := [PVC_FOR_ALL]])

  lemma RestClashes()
    ensures OneEntryPerUsage(REST_EPHEMERAL) && Clash(REST_EPHEMERAL, Rest, AlamedaGroup, Log)
  {
  }

  lemma AppIsWiredUnplanned()
    ensures OneEntryPerUsage(APP_ONLY)
    ensures FinalEffect(APP_ONLY, AgentApp, AlamedaGroup, Log) == Some(ClaimRef(Claim(AgentApp, Log)))
    ensures Governing(APP_ONLY.Section(Backend), Log) == None && Governing(APP_ONLY.storages, Log) == None
  {
  }

  /** A section that turns its storage ephemeral without naming a usage leaves its log volume
      on a claim that is removed. */
  lemma EphemeralWithoutUsageDangles(vols: seq<Volume>)
    requires NoClaims(vols) && IndexFor(vols, Log) >= 0
    ensures DanglesAt(vols, REST_EPHEMERAL, Rest, AlamedaGroup, IndexFor(vols, Log))
  {
    RestClashes();
    DanglesIff(vols, REST_EPHEMERAL, Rest, AlamedaGroup, Log);
  }

  /** A pvc asked for in the agent app's own section is mounted and never installed. */
  lemma AgentAppDangles(vols: seq<Volume>)
    requires NoClaims(vols) && IndexFor(vols, Log) >= 0
    ensures DanglesAt(vols, APP_ONLY, AgentApp, AlamedaGroup, IndexFor(vols, Log))
  {
    AppIsWiredUnplanned();
    AgentAppDanglesIff(vols, APP_ONLY, AlamedaGroup, Log);
  }
}

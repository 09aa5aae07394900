/** Bringing the exposed services in the cluster in line with what the exposures ask for. */
module ServiceSync {
  import opened Options
  import opened ServiceExposure
  import opened ServiceRepair

  /** What the server holds after a create or an update, which keeps the cluster IP found. */
  function Stored(services: Services, svc: Service, ipFor: Key -> string): (r: Service)
    ensures r.Id() == svc.Id() && r.labels == svc.labels
  {
    if svc.Id() in services then svc.(kind := KindOf(svc), clusterIP := services[svc.Id()].clusterIP)
    else Created(svc, ipFor)
  }

  /** The service as wanted, under the cluster IP found, else the one wanted or the server's. */
  lemma StoredInWords(services: Services, svc: Service, ipFor: Key -> string)
    ensures var k := Key(svc.namespace, svc.name);
            Stored(services, svc, ipFor)
            == Service(svc.namespace, svc.name, svc.labels, svc.selector,
                       if svc.kind == "" then "ClusterIP" else svc.kind,
                       if k in services then services[k].clusterIP
                       else if svc.clusterIP == "" then ipFor(k) else svc.clusterIP,
                       svc.ports, svc.rest)
  {
  }

  predicate Stale(services: Services, wanted: Services, k: Key) {
    k in services && services[k].Exposed() && k !in wanted
  }

  /** Wanted services in place, labelled ones that are not wanted gone, all others as before. */
  function Converged(services: Services, wanted: Services, ipFor: Key -> string): Services {
    map k | k in services.Keys + wanted.Keys && !Stale(services, wanted, k) ::
      if k in wanted then Stored(services, wanted[k], ipFor) else services[k]
  }

  /** Under each key either nothing has happened yet or all that has to. */
  ghost predicate OnTheWay(before: Services, now: Services, wanted: Services, ipFor: Key -> string) {
    forall k :: Lookup(now, k) == Lookup(before, k) || Lookup(now, k) == Lookup(Converged(before, wanted, ipFor), k)
  }

  ghost predicate Wellformed(wanted: Services) {
    forall k :: k in wanted ==> wanted[k].Id() == k && wanted[k].Exposed()
  }

  /** The API server's services; a call goes through as planned, and always once the plan is
      used up. */
  class Cluster {
    var services: Services
    var plan: seq<bool>
    var deletes: seq<Key>
    const ipFor: Key -> string

    constructor (services: Services, plan: seq<bool>, ipFor: Key -> string)
      ensures this.services == services && this.plan == plan && deletes == [] && this.ipFor == ipFor
    {
      this.services, this.plan, deletes, this.ipFor := services, plan, [], ipFor;
    }

    method Call() returns (ok: bool)
      modifies this`plan
      ensures ok == (old(plan) == [] || old(plan)[0])
      ensures plan == if old(plan) == [] then [] else old(plan)[1..]
    {
      ok := true;
      if plan != [] {
        ok, plan := plan[0], plan[1..];
      }
    }

    method Create(svc: Service) returns (ok: bool)
      modifies this`plan, this`services
      ensures services == if ok then old(services)[svc.Id() := Created(svc, ipFor)] else old(services)
      ensures old(plan) == [] ==> ok && plan == []
    {
      ok := Call();
      if ok {
        services := services[svc.Id() := Created(svc, ipFor)];
      }
    }

    /** Set the owner, look the service up, then create or update it. */
    method CreateOrUpdate(svc: Service) returns (ok: bool)
      modifies this`plan, this`services
      ensures services == if ok then old(services)[svc.Id() := Stored(old(services), svc, ipFor)] else old(services)
      ensures old(plan) == [] ==> ok && plan == []
    {
      ok := Call();
      if !ok {
        return false;
      }
      ok := Call();
      if !ok {
        return false;
      }
      if svc.Id() !in services {
        ok := Create(svc);
        return;
      }
      ok := Call();
      if ok {
        services := services[svc.Id() := svc.(kind := KindOf(svc), clusterIP := services[svc.Id()].clusterIP)];
      }
    }

    /** One rendered service: created if it is missing, deleted and created again if it does
        not match. If that fails, it may be left deleted. */
    method RepairService(svc: Service) returns (ok: bool)
      modifies this`plan, this`services, this`deletes
      ensures var k, before := svc.Id(), old(services);
              var mismatch := k in before && Mismatch(before[k], svc);
              && (ok ==> services == before[k := Repaired(Lookup(before, k), svc, ipFor)])
              && (ok ==> deletes == old(deletes) + if mismatch then [k] else [])
              && (!ok ==> services == before || (mismatch && services == before - {k}))
      ensures old(plan) == [] ==> ok && plan == []
    {
      ok := Call();
      if !ok {
        return false;
      }
      ok := Call();
      if !ok {
        return false;
      }
      if svc.Id() !in services {
        ok := Create(svc);
        return;
      }
      if Mismatch(services[svc.Id()], svc) {
        ok := Delete(svc.Id());
        if !ok {
          return false;
        }
        ok := Create(svc);
        if ok {
          assert services == old(services)[svc.Id() := Created(svc, ipFor)];
        }
      } else {
        assert services == services[svc.Id() := services[svc.Id()]];
        assert deletes == deletes + [];
      }
    }

    /** Every rendered service in turn, up to the first failure. */
    method SyncService(list: seq<Service>) returns (ok: bool)
      modifies this`plan, this`services, this`deletes
      ensures ok ==> services == RepairAll(old(services), list, ipFor)
      ensures ok ==> deletes == old(deletes) + Recreated(old(services), list, ipFor)
      ensures !ok ==> Partway(old(services), services, list, ipFor)
      ensures old(plan) == [] ==> ok && plan == []
    {
      ghost var before := services;
      for i := 0 to |list|
        invariant services == RepairAll(before, list[..i], ipFor)
        invariant deletes == old(deletes) + Recreated(before, list[..i], ipFor)
        invariant old(plan) == [] ==> plan == []
      {
        RepairSnoc(before, list, ipFor, i);
        RecreatedSnoc(before, list, ipFor, i);
        ok := RepairService(list[i]);
        if !ok {
          assert StoppedAt(before, services, list, ipFor, i);
          return;
        }
      }
      assert list[..|list|] == list;
      ok := true;
    }

    /** Create or update every wanted service, in whatever order the map gives them. */
    method Apply(wanted: Services) returns (ok: bool)
      requires Wellformed(wanted)
      modifies this`plan, this`services
      ensures ok ==> forall k :: Lookup(services, k) == if k in wanted
                                                        then Some(Stored(old(services), wanted[k], ipFor))
                                                        else Lookup(old(services), k)
      ensures OnTheWay(old(services), services, wanted, ipFor)
      ensures old(plan) == [] ==> ok && plan == []
    {
      ghost var before := services;
      var left := wanted.Keys;
      while left != {}
        invariant left <= wanted.Keys
        invariant forall k :: Lookup(services, k) == if k in wanted && k !in left
                                                     then Some(Stored(before, wanted[k], ipFor))
                                                     else Lookup(before, k)
        invariant old(plan) == [] ==> plan == []
      {
        var k :| k in left;
        assert Lookup(services, k) == Lookup(before, k);
        ok := CreateOrUpdate(wanted[k]);
        if !ok {
          return;
        }
        left := left - {k};
      }
      ok := true;
    }

    method Delete(k: Key) returns (ok: bool)
      modifies this`plan, this`services, this`deletes
      ensures services == if ok then old(services) - {k} else old(services)
      ensures deletes == if ok then old(deletes) + [k] else old(deletes)
      ensures old(plan) == [] ==> ok && plan == []
    {
      ok := Call();
      if ok {
        services := services - {k};
        deletes := deletes + [k];
      }
    }

    /** Delete the labelled services that are not wanted, as they come out of the list. */
    method Prune(wanted: Services) returns (ok: bool, ghost removed: seq<Key>)
      modifies this`plan, this`services, this`deletes
      ensures deletes == old(deletes) + removed
      ensures forall k :: k in removed ==> Stale(old(services), wanted, k)
      ensures ok ==> forall k :: Stale(old(services), wanted, k) ==> k in removed
      ensures forall k :: Lookup(services, k) == if k in removed then None else Lookup(old(services), k)
      ensures old(plan) == [] ==> ok && plan == []
    {
      ghost var before := services;
      removed := [];
      ok := Call();
      if !ok {
        return;
      }
      var list := set k | k in services && services[k].Exposed();
      while list != {}
        invariant forall k :: k in list ==> k in before && before[k].Exposed()
        invariant forall k :: k in removed ==> Stale(before, wanted, k)
        invariant forall k :: Stale(before, wanted, k) ==> k in list || k in removed
        invariant deletes == old(deletes) + removed
        invariant forall k :: Lookup(services, k) == if k in removed then None else Lookup(before, k)
        invariant old(plan) == [] ==> plan == []
        decreases list
      {
        var k :| k in list;
        if k !in wanted {
          ok := Delete(k);
          if !ok {
            return;
          }
          removed := removed + [k];
        }
        list := list - {k};
      }
      ok := true;
    }

    /** One synchronisation. On success the cluster has converged, and exactly the labelled
        services that are not wanted were deleted; on failure it is on the way, and nothing was
        touched if an exposure has an unsupported type. */
    method SyncServiceExposure(list: seq<Service>, exposures: seq<Exposure>)
      returns (ok: bool, ghost wanted: Option<Services>, ghost removed: seq<Key>)
      modifies this`plan, this`services, this`deletes
      ensures wanted == None <==> exists i :: 0 <= i < |list| && Unsupported(exposures, list[i])
      ensures wanted == None ==> !ok && services == old(services) && deletes == old(deletes)
      ensures wanted.Some? ==> Built(list, exposures, |list|, wanted.value)
      ensures wanted.Some? ==> OnTheWay(old(services), services, wanted.value, ipFor)
      ensures ok ==> services == Converged(old(services), wanted.value, ipFor)
      ensures deletes == old(deletes) + removed
      ensures wanted.Some? ==> forall k :: k in removed ==> Stale(old(services), wanted.value, k)
      ensures ok ==> forall k :: Stale(old(services), wanted.value, k) ==> k in removed
      ensures old(plan) == [] ==> ok == wanted.Some?
    {
      var built := BuildWanted(list, exposures);
      wanted, removed := built, [];
      if built == None {
        return false, built, [];
      }
      BuiltIsWellformed(list, exposures, built.value);
      ghost var before := services;
      ok := Apply(built.value);
      if !ok {
        return;
      }
      ghost var mid := services;
      SameStale(before, mid, built.value, ipFor);
      ok, removed := Prune(built.value);
      PrunedIsOnTheWay(before, mid, services, built.value, ipFor);
      if ok {
        PrunedHasConverged(before, mid, services, built.value, ipFor);
      }
    }

    /** The two synchronisations as one reconcile makes them: the ordinary services first. */
    method SyncServices(list: seq<Service>, exposures: seq<Exposure>)
      returns (ok: bool, ghost repaired: bool, ghost wanted: Option<Services>, ghost removed: seq<Key>)
      modifies this`plan, this`services, this`deletes
      ensures ok ==> repaired && wanted.Some?
      ensures repaired ==> (wanted == None <==> exists i :: 0 <= i < |list| && Unsupported(exposures, list[i]))
      ensures repaired && wanted == None ==> services == RepairAll(old(services), list, ipFor)
      ensures !ok && (repaired ==> wanted.Some?) ==> Interrupted(old(services), services, list, exposures, ipFor)
      ensures ok ==> Built(list, exposures, |list|, wanted.value)
      ensures ok ==> services == AfterReconcile(old(services), list, wanted.value, ipFor)
      ensures ok ==> deletes == old(deletes) + Recreated(old(services), list, ipFor) + removed
      ensures ok ==> forall k :: k in removed <==> Stale(RepairAll(old(services), list, ipFor), wanted.value, k)
      ensures old(plan) == [] ==> ok == wanted.Some?
    {
      wanted, removed := None, [];
      ok := SyncService(list);
      repaired := ok;
      if ok {
        ok, wanted, removed := SyncServiceExposure(list, exposures);
      }
    }
  }

  lemma BuiltIsWellformed(list: seq<Service>, exposures: seq<Exposure>, wanted: Services)
    requires Built(list, exposures, |list|, wanted)
    ensures Wellformed(wanted)
  {
  }

  ghost predicate Applied(before: Services, mid: Services, wanted: Services, ipFor: Key -> string) {
    forall k :: Lookup(mid, k) == if k in wanted then Some(Stored(before, wanted[k], ipFor)) else Lookup(before, k)
  }

  lemma SameStale(before: Services, mid: Services, wanted: Services, ipFor: Key -> string)
    requires Applied(before, mid, wanted, ipFor)
    ensures forall k :: Stale(mid, wanted, k) <==> Stale(before, wanted, k)
  {
    forall k ensures Stale(mid, wanted, k) <==> Stale(before, wanted, k) {
      assert k !in wanted ==> Lookup(mid, k) == Lookup(before, k);
    }
  }

  lemma PrunedIsOnTheWay(before: Services, mid: Services, after: Services, wanted: Services, ipFor: Key -> string)
    requires Applied(before, mid, wanted, ipFor)
    requires forall k :: Lookup(after, k) == Lookup(mid, k) || (Stale(before, wanted, k) && Lookup(after, k) == None)
    ensures OnTheWay(before, after, wanted, ipFor)
  {
  }

  lemma PrunedHasConverged(before: Services, mid: Services, after: Services, wanted: Services, ipFor: Key -> string)
    requires Applied(before, mid, wanted, ipFor)
    requires forall k :: Lookup(after, k) == if Stale(before, wanted, k) then None else Lookup(mid, k)
    ensures after == Converged(before, wanted, ipFor)
  {
    SameLookups(after, Converged(before, wanted, ipFor));
  }

  // ------------------------------------------------------------------------- convergence

  /** The services after a reconcile whose two synchronisations succeed. */
  function AfterReconcile(services: Services, list: seq<Service>, wanted: Services, ipFor: Key -> string): Services {
    Converged(RepairAll(services, list, ipFor), wanted, ipFor)
  }

  /** Rendered services carry no exposure label of their own. */
  predicate Unlabelled(list: seq<Service>) {
    forall i :: 0 <= i < |list| ==> EXPOSURE_LABEL !in list[i].labels
  }

  /** After a successful synchronisation the labelled services are exactly the wanted ones,
      and unlabelled services nobody wants are untouched. */
  lemma LabelledAreTheWanted(services: Services, wanted: Services, ipFor: Key -> string)
    requires Wellformed(wanted)
    ensures var c := Converged(services, wanted, ipFor);
            && (forall k :: k in c && c[k].Exposed() <==> k in wanted)
            && (forall k :: k in c ==> k !in wanted ==> k in services && c[k] == services[k])
            && (forall k :: k in services && !services[k].Exposed() ==> k in c)
  {
  }

  lemma WantedIff(list: seq<Service>, exposures: seq<Exposure>, m: Services, k: Key)
    requires Built(list, exposures, |list|, m)
    ensures k in m <==> exists i :: 0 <= i < |list| && AsksFor(exposures, list[i], k)
  {
    if k in m {
      assert FromListed(list, exposures, |list|, k, m[k]);
      var i: nat :| LastAsking(list, exposures, |list|, k, i, m[k]);
    }
  }

  lemma WantedKeysAreUnique(list: seq<Service>, exposures: seq<Exposure>, m: Services, n: Services)
    requires Built(list, exposures, |list|, m) && Built(list, exposures, |list|, n)
    ensures m.Keys == n.Keys
  {
    forall k ensures k in m <==> k in n {
      WantedIff(list, exposures, m, k);
      WantedIff(list, exposures, n, k);
    }
  }

  /** From whatever state, a reconcile leaves every rendered service in place, matching its
      rendering but for the exposure label, which it carries exactly if something asks for its
      key. So dropping an exposure without node ports leaves the ordinary service unlabelled,
      and does not delete it. */
  lemma OrdinaryServicesStay(
      services: Services, list: seq<Service>, exposures: seq<Exposure>, m: Services, ipFor: Key -> string, i: nat)
    requires Built(list, exposures, |list|, m) && Unlabelled(list)
    requires i < |list| && forall j :: i < j < |list| ==> list[j].Id() != list[i].Id()
    ensures var k, r := list[i].Id(), AfterReconcile(services, list, m, ipFor);
            && k in r
            && (r[k].Exposed() <==> exists j :: 0 <= j < |list| && AsksFor(exposures, list[j], k))
            && (!r[k].Exposed() ==> Matches(r[k], list[i]))
  {
    var k := list[i].Id();
    RepairedMatches(services, list, ipFor, i);
    BuiltIsWellformed(list, exposures, m);
    LabelledAreTheWanted(RepairAll(services, list, ipFor), m, ipFor);
    WantedIff(list, exposures, m, k);
  }

  lemma UnlabelledStays(services: Services, list: seq<Service>, ipFor: Key -> string, i: nat)
    requires Unlabelled(list) && i < |list| && DistinctIds(list)
    ensures var k := list[i].Id();
            k in RepairAll(services, list, ipFor) && !RepairAll(services, list, ipFor)[k].Exposed()
  {
    RepairedMatches(services, list, ipFor, i);
  }

  /** A repeated reconcile finds no labelled service to delete, in whatever order ports came. */
  lemma RepeatedReconcileRemovesNothing(
      services: Services, list: seq<Service>, exposures: seq<Exposure>, m: Services, n: Services, ipFor: Key -> string,
      k: Key)
    requires Built(list, exposures, |list|, m) && Built(list, exposures, |list|, n)
    requires Unlabelled(list) && DistinctIds(list)
    ensures !Stale(RepairAll(AfterReconcile(services, list, m, ipFor), list, ipFor), n, k)
  {
    var r := AfterReconcile(services, list, m, ipFor);
    BuiltIsWellformed(list, exposures, m);
    WantedKeysAreUnique(list, exposures, m, n);
    LabelledAreTheWanted(RepairAll(services, list, ipFor), m, ipFor);
    if i :| 0 <= i < |list| && list[i].Id() == k {
      UnlabelledStays(r, list, ipFor, i);
    } else {
      RepairSkips(r, list, ipFor, k);
      assert Lookup(RepairAll(r, list, ipFor), k) == Lookup(r, k);
    }
  }

  /** But it deletes and creates again exactly the ordinary services whose key is asked for:
      their label is a mismatch to the first synchronisation, and the second writes it anew. */
  lemma RepeatedReconcileRecreatesIff(
      services: Services, list: seq<Service>, exposures: seq<Exposure>, m: Services, ipFor: Key -> string, i: nat)
    requires Built(list, exposures, |list|, m) && Unlabelled(list) && DistinctIds(list) && i < |list|
    ensures list[i].Id() in Recreated(AfterReconcile(services, list, m, ipFor), list, ipFor)
       <==> exists j :: 0 <= j < |list| && AsksFor(exposures, list[j], list[i].Id())
  {
    OrdinaryServicesStay(services, list, exposures, m, ipFor, i);
    RepairAllAt(AfterReconcile(services, list, m, ipFor), list, ipFor, i);
  }

  /** No rendered service goes by the name another one's NodePort service would get. */
  predicate NoClash(list: seq<Service>, i: nat)
    requires i < |list|
  {
    forall j :: 0 <= j < |list| ==> list[j].name + "-node-port" != list[i].name
  }

  /** In terms of the exposures, barring a clash of names: exactly the services exposed without
      node ports are deleted and created again by every reconcile. */
  lemma BareExposureRecreatesIff(
      services: Services, list: seq<Service>, exposures: seq<Exposure>, m: Services, ipFor: Key -> string, i: nat)
    requires Built(list, exposures, |list|, m) && Unlabelled(list) && DistinctIds(list)
    requires i < |list| && NoClash(list, i)
    ensures list[i].Id() in Recreated(AfterReconcile(services, list, m, ipFor), list, ipFor)
       <==> IsExposed(exposures, list[i]) && ExposureOf(exposures, list[i].name).value.nodePort == None
  {
    RepeatedReconcileRecreatesIff(services, list, exposures, m, ipFor, i);
    var k := list[i].Id();
    if j :| 0 <= j < |list| && AsksFor(exposures, list[j], k) {
      assert list[j].Id() == k;
      assert j == i;
    }
    if IsExposed(exposures, list[i]) && ExposureOf(exposures, list[i].name).value.nodePort == None {
      assert AsksFor(exposures, list[i], k);
    }
  }

  // ------------------------------------------------------------------ failures and retries

  /** Where a failed reconcile can leave the services. */
  ghost predicate Interrupted(
      before: Services, now: Services, list: seq<Service>, exposures: seq<Exposure>, ipFor: Key -> string)
  {
    || Partway(before, now, list, ipFor)
    || exists m :: Built(list, exposures, |list|, m) && OnTheWay(RepairAll(before, list, ipFor), now, m, ipFor)
  }

  lemma OnTheWayAt(mid: Services, now: Services, m: Services, ipFor: Key -> string, k: Key)
    requires OnTheWay(mid, now, m, ipFor) && k !in m
    ensures Lookup(now, k) == Lookup(mid, k) || (Stale(mid, m, k) && Lookup(now, k) == None)
  {
    assert Lookup(now, k) == Lookup(mid, k) || Lookup(now, k) == Lookup(Converged(mid, m, ipFor), k);
  }

  /** Interrupted in the second synchronisation, a rendered service nobody asks for is as the
      first one left it. */
  lemma RetryListed(
      before: Services, now: Services, list: seq<Service>, m: Services, ipFor: Key -> string, i: nat)
    requires OnTheWay(RepairAll(before, list, ipFor), now, m, ipFor) && DistinctIds(list) && Unlabelled(list)
    requires i < |list| && list[i].Id() !in m
    ensures var k := list[i].Id(); Lookup(RepairAll(now, list, ipFor), k) == Lookup(RepairAll(before, list, ipFor), k)
  {
    UnlabelledStays(before, list, ipFor, i);
    OnTheWayAt(RepairAll(before, list, ipFor), now, m, ipFor, list[i].Id());
    RepairAllAt(before, list, ipFor, i);
    RepairAllAt(now, list, ipFor, i);
  }

  /** What a synchronisation does to a service nobody wants. */
  lemma UnwantedAt(services: Services, n: Services, ipFor: Key -> string, k: Key)
    requires k !in n
    ensures var found := Lookup(services, k);
            Lookup(Converged(services, n, ipFor), k) == if found.Some? && found.value.Exposed() then None else found
  {
  }

  lemma RetryUnlisted(
      before: Services, now: Services, list: seq<Service>, m: Services, n: Services, ipFor: Key -> string, k: Key)
    requires OnTheWay(RepairAll(before, list, ipFor), now, m, ipFor) && m.Keys == n.Keys
    requires k !in n && !IsListed(list, k)
    ensures Lookup(AfterReconcile(now, list, n, ipFor), k) == Lookup(AfterReconcile(before, list, n, ipFor), k)
  {
    RepairSkips(now, list, ipFor, k);
    OnTheWayAt(RepairAll(before, list, ipFor), now, m, ipFor, k);
    UnwantedAt(RepairAll(now, list, ipFor), n, ipFor, k);
    UnwantedAt(RepairAll(before, list, ipFor), n, ipFor, k);
  }

  lemma RetryUnwanted(
      before: Services, now: Services, list: seq<Service>, exposures: seq<Exposure>, n: Services, ipFor: Key -> string,
      k: Key)
    requires Interrupted(before, now, list, exposures, ipFor) && DistinctIds(list) && Unlabelled(list)
    requires Built(list, exposures, |list|, n) && k !in n
    ensures Lookup(AfterReconcile(now, list, n, ipFor), k) == Lookup(AfterReconcile(before, list, n, ipFor), k)
  {
    if Partway(before, now, list, ipFor) {
      RepairResumes(before, now, list, ipFor);
    } else {
      var m :| Built(list, exposures, |list|, m) && OnTheWay(RepairAll(before, list, ipFor), now, m, ipFor);
      WantedKeysAreUnique(list, exposures, m, n);
      if i :| 0 <= i < |list| && list[i].Id() == k {
        RetryListed(before, now, list, m, ipFor, i);
        UnwantedAt(RepairAll(now, list, ipFor), n, ipFor, k);
        UnwantedAt(RepairAll(before, list, ipFor), n, ipFor, k);
      } else {
        RetryUnlisted(before, now, list, m, n, ipFor, k);
      }
    }
  }

  /** Wanted services come out as built, whatever was there, but for their cluster IP. */
  lemma WantedAt(services: Services, n: Services, ipFor: Key -> string, k: Key)
    requires Wellformed(n) && k in n
    ensures var c := Converged(services, n, ipFor);
            k in c && c[k] == n[k].(kind := KindOf(n[k]), clusterIP := c[k].clusterIP)
  {
  }

  /** However a reconcile failed in either synchronisation, one that succeeds afterwards, with
      services built anew, leaves what it would have left without the failure; only the
      cluster IPs of wanted services can differ. */
  lemma RetryConverges(
      before: Services, now: Services, list: seq<Service>, exposures: seq<Exposure>, n: Services, ipFor: Key -> string,
      k: Key)
    requires Interrupted(before, now, list, exposures, ipFor) && DistinctIds(list) && Unlabelled(list)
    requires Built(list, exposures, |list|, n)
    ensures var again := Lookup(AfterReconcile(now, list, n, ipFor), k);
            var once := Lookup(AfterReconcile(before, list, n, ipFor), k);
            if k in n then again.Some? && once.Some? && again.value == once.value.(clusterIP := again.value.clusterIP)
            else again == once
  {
    if k in n {
      BuiltIsWellformed(list, exposures, n);
      WantedAt(RepairAll(now, list, ipFor), n, ipFor, k);
      WantedAt(RepairAll(before, list, ipFor), n, ipFor, k);
    } else {
      RetryUnwanted(before, now, list, exposures, n, ipFor, k);
    }
  }
}

/** Keeping the ordinary services as they are rendered: a service whose labels, selector or
    type differ is deleted and created again, once for every rendered service in turn. */
module ServiceRepair {
  import opened Options
  import opened ServiceExposure

  type Services = map<Key, Service>

  const CLUSTER_IP := "ClusterIP"

  function Lookup(services: Services, k: Key): Option<Service> {
    if k in services then Some(services[k]) else None
  }

  lemma SameLookups(c: Services, d: Services)
    requires forall k :: Lookup(c, k) == Lookup(d, k)
    ensures c == d
  {
    assert forall k :: k in c <==> Lookup(c, k).Some?;
    assert forall k :: k in d <==> Lookup(d, k).Some?;
    assert forall k :: k in c ==> Some(c[k]) == Lookup(d, k);
  }

  /** The type a service has where none is written. */
  function KindOf(svc: Service): string {
    if svc.kind == "" then CLUSTER_IP else svc.kind
  }

  /** What the server stores for a new service: its type filled in and, if it asks for none, a
      cluster IP of the server's choice. */
  function Created(svc: Service, ipFor: Key -> string): (r: Service)
    ensures r.Id() == svc.Id() && r.labels == svc.labels
  {
    svc.(kind := KindOf(svc), clusterIP := if svc.clusterIP == "" then ipFor(svc.Id()) else svc.clusterIP)
  }

  predicate Mismatch(found: Service, svc: Service) {
    found.labels != svc.labels || found.selector != svc.selector || found.kind != KindOf(svc)
  }

  /** Labels and selector are the rendered ones, and the type is, or "ClusterIP" where none is
      rendered. */
  predicate Matches(found: Service, svc: Service) {
    && found.labels == svc.labels && found.selector == svc.selector
    && found.kind == if svc.kind == "" then "ClusterIP" else svc.kind
  }

  function Repaired(found: Option<Service>, svc: Service, ipFor: Key -> string): (r: Service)
    ensures !Mismatch(r, svc)
  {
    if found.Some? && !Mismatch(found.value, svc) then found.value else Created(svc, ipFor)
  }

  /** A service that matches is left as it was found; any other is created as rendered. */
  lemma RepairedInWords(found: Option<Service>, svc: Service, ipFor: Key -> string)
    ensures found.Some? && Matches(found.value, svc) ==> Repaired(found, svc, ipFor) == found.value
    ensures found == None || !Matches(found.value, svc) ==>
              Repaired(found, svc, ipFor)
              == Service(svc.namespace, svc.name, svc.labels, svc.selector,
                         if svc.kind == "" then "ClusterIP" else svc.kind,
                         if svc.clusterIP == "" then ipFor(Key(svc.namespace, svc.name)) else svc.clusterIP,
                         svc.ports, svc.rest)
  {
  }

  function RepairAll(services: Services, list: seq<Service>, ipFor: Key -> string): Services
    decreases |list|
  {
    if list == [] then services
    else
      var k := list[0].Id();
      RepairAll(services[k := Repaired(Lookup(services, k), list[0], ipFor)], list[1..], ipFor)
  }

  function RecreatedOne(services: Services, svc: Service): seq<Key> {
    if svc.Id() in services && Mismatch(services[svc.Id()], svc) then [svc.Id()] else []
  }

  /** The services deleted and created again, in order. */
  function Recreated(services: Services, list: seq<Service>, ipFor: Key -> string): seq<Key>
    decreases |list|
  {
    if list == [] then []
    else
      var k := list[0].Id();
      RecreatedOne(services, list[0])
      + Recreated(services[k := Repaired(Lookup(services, k), list[0], ipFor)], list[1..], ipFor)
  }

  /** Every rendered service is listed once. */
  predicate DistinctIds(list: seq<Service>) {
    forall i, j :: 0 <= i < j < |list| ==> list[i].Id() != list[j].Id()
  }

  predicate IsListed(list: seq<Service>, k: Key) {
    exists i :: 0 <= i < |list| && list[i].Id() == k
  }

  lemma TailIds(list: seq<Service>)
    requires list != []
    ensures DistinctIds(list) ==> DistinctIds(list[1..]) && !IsListed(list[1..], list[0].Id())
    ensures forall k :: IsListed(list, k) <==> list[0].Id() == k || IsListed(list[1..], k)
  {
    assert forall i :: 0 <= i < |list[1..]| ==> list[1..][i] == list[i + 1];
    forall k ensures IsListed(list, k) <==> list[0].Id() == k || IsListed(list[1..], k) {
      if i :| 0 < i < |list| && list[i].Id() == k {
        assert list[1..][i - 1].Id() == k;
      }
      if i :| 0 <= i < |list[1..]| && list[1..][i].Id() == k {
        assert list[i + 1].Id() == k;
      }
    }
  }

  lemma {:induction false} RepairSkips(services: Services, list: seq<Service>, ipFor: Key -> string, k: Key)
    requires !IsListed(list, k)
    ensures Lookup(RepairAll(services, list, ipFor), k) == Lookup(services, k)
    decreases |list|
  {
    if list != [] {
      TailIds(list);
      assert list[0].Id() != k;
      var id := list[0].Id();
      RepairSkips(services[id := Repaired(Lookup(services, id), list[0], ipFor)], list[1..], ipFor, k);
    }
  }

  /** Afterwards a listed service is there and matches what was rendered last under its key. */
  lemma {:induction false} RepairedMatches(services: Services, list: seq<Service>, ipFor: Key -> string, i: nat)
    requires i < |list| && forall j :: i < j < |list| ==> list[j].Id() != list[i].Id()
    ensures var k, r := list[i].Id(), RepairAll(services, list, ipFor); k in r && Matches(r[k], list[i])
    decreases |list|
  {
    var k := list[0].Id();
    var next := services[k := Repaired(Lookup(services, k), list[0], ipFor)];
    assert forall j :: 0 <= j < |list[1..]| ==> list[1..][j] == list[j + 1];
    if i == 0 {
      RepairSkips(next, list[1..], ipFor, k);
      assert Lookup(RepairAll(services, list, ipFor), k) == Some(next[k]);
    } else {
      RepairedMatches(next, list[1..], ipFor, i - 1);
    }
  }

  /** With every rendered service listed once, each is repaired on its own. */
  lemma {:induction false} RepairAllAt(services: Services, list: seq<Service>, ipFor: Key -> string, i: nat)
    requires i < |list| && DistinctIds(list)
    ensures var k := list[i].Id();
            && Lookup(RepairAll(services, list, ipFor), k) == Some(Repaired(Lookup(services, k), list[i], ipFor))
            && (k in Recreated(services, list, ipFor) <==> k in services && !Matches(services[k], list[i]))
    decreases |list|
  {
    var k := list[0].Id();
    var next := services[k := Repaired(Lookup(services, k), list[0], ipFor)];
    TailIds(list);
    if i == 0 {
      RepairSkips(next, list[1..], ipFor, k);
      RecreatesListed(next, list[1..], ipFor, k);
    } else {
      assert list[1..][i - 1] == list[i];
      RepairAllAt(next, list[1..], ipFor, i - 1);
    }
  }

  lemma {:induction false} RecreatesListed(services: Services, list: seq<Service>, ipFor: Key -> string, k: Key)
    ensures k in Recreated(services, list, ipFor) ==> IsListed(list, k)
    decreases |list|
  {
    if list != [] {
      TailIds(list);
      var id := list[0].Id();
      RecreatesListed(services[id := Repaired(Lookup(services, id), list[0], ipFor)], list[1..], ipFor, k);
    }
  }

  /** One service more. */
  lemma {:induction false} RepairSnoc(services: Services, list: seq<Service>, ipFor: Key -> string, i: nat)
    requires i < |list|
    ensures var mid, k := RepairAll(services, list[..i], ipFor), list[i].Id();
            RepairAll(services, list[..i + 1], ipFor) == mid[k := Repaired(Lookup(mid, k), list[i], ipFor)]
    decreases |list|
  {
    if i == 0 {
      assert list[..1] == [list[0]] && list[..1][1..] == [];
    } else {
      var k := list[0].Id();
      assert list[..i][1..] == list[1..][..i - 1] && list[..i + 1][1..] == list[1..][..i];
      RepairSnoc(services[k := Repaired(Lookup(services, k), list[0], ipFor)], list[1..], ipFor, i - 1);
    }
  }

  lemma {:induction false} RecreatedSnoc(services: Services, list: seq<Service>, ipFor: Key -> string, i: nat)
    requires i < |list|
    ensures Recreated(services, list[..i + 1], ipFor)
         == Recreated(services, list[..i], ipFor) + RecreatedOne(RepairAll(services, list[..i], ipFor), list[i])
    decreases |list|
  {
    if i == 0 {
      assert list[..1] == [list[0]] && list[..1][1..] == [];
    } else {
      var k := list[0].Id();
      assert list[..i][1..] == list[1..][..i - 1] && list[..i + 1][1..] == list[1..][..i];
      RecreatedSnoc(services[k := Repaired(Lookup(services, k), list[0], ipFor)], list[1..], ipFor, i - 1);
    }
  }

  /** A repair that fails: the first services are repaired, and the one it failed at may have
      been deleted for a mismatch and not created again. */
  ghost predicate Partway(before: Services, now: Services, list: seq<Service>, ipFor: Key -> string) {
    exists n: nat :: n <= |list| && StoppedAt(before, now, list, ipFor, n)
  }

  predicate StoppedAt(before: Services, now: Services, list: seq<Service>, ipFor: Key -> string, n: nat)
    requires n <= |list|
  {
    var mid := RepairAll(before, list[..n], ipFor);
    || now == mid
    || (n < |list| && list[n].Id() in mid && Mismatch(mid[list[n].Id()], list[n]) && now == mid - {list[n].Id()})
  }

  lemma PrefixLists(list: seq<Service>, n: nat, i: nat)
    requires n <= |list| && i < |list| && DistinctIds(list)
    ensures DistinctIds(list[..n]) && (IsListed(list[..n], list[i].Id()) <==> i < n)
  {
    if i < n {
      assert list[..n][i] == list[i];
    }
  }

  lemma PrefixAt(before: Services, list: seq<Service>, ipFor: Key -> string, n: nat, i: nat)
    requires n <= |list| && i < |list| && DistinctIds(list)
    ensures var k := list[i].Id();
            Lookup(RepairAll(before, list[..n], ipFor), k)
            == if i < n then Some(Repaired(Lookup(before, k), list[i], ipFor)) else Lookup(before, k)
  {
    PrefixLists(list, n, i);
    if i < n {
      assert list[..n][i] == list[i];
      RepairAllAt(before, list[..n], ipFor, i);
    } else {
      RepairSkips(before, list[..n], ipFor, list[i].Id());
    }
  }

  lemma ResumesListed(before: Services, now: Services, list: seq<Service>, ipFor: Key -> string, n: nat, i: nat)
    requires DistinctIds(list) && n <= |list| && StoppedAt(before, now, list, ipFor, n) && i < |list|
    ensures var k := list[i].Id(); Lookup(RepairAll(now, list, ipFor), k) == Lookup(RepairAll(before, list, ipFor), k)
  {
    PrefixAt(before, list, ipFor, n, i);
    RepairAllAt(now, list, ipFor, i);
    RepairAllAt(before, list, ipFor, i);
  }

  lemma ResumesUnlisted(before: Services, now: Services, list: seq<Service>, ipFor: Key -> string, n: nat, k: Key)
    requires n <= |list| && StoppedAt(before, now, list, ipFor, n) && !IsListed(list, k)
    ensures Lookup(now, k) == Lookup(before, k)
    ensures Lookup(RepairAll(now, list, ipFor), k) == Lookup(RepairAll(before, list, ipFor), k)
  {
    RepairSkips(now, list, ipFor, k);
    RepairSkips(before, list, ipFor, k);
    assert forall i :: 0 <= i < n ==> list[..n][i] == list[i];
    RepairSkips(before, list[..n], ipFor, k);
  }

  /** Repairing again after a failure ends where one undisturbed repair would have. */
  lemma RepairResumes(before: Services, now: Services, list: seq<Service>, ipFor: Key -> string)
    requires DistinctIds(list) && Partway(before, now, list, ipFor)
    ensures RepairAll(now, list, ipFor) == RepairAll(before, list, ipFor)
  {
    var n: nat :| n <= |list| && StoppedAt(before, now, list, ipFor, n);
    forall k ensures Lookup(RepairAll(now, list, ipFor), k) == Lookup(RepairAll(before, list, ipFor), k) {
      if i :| 0 <= i < |list| && list[i].Id() == k {
        ResumesListed(before, now, list, ipFor, n, i);
      } else {
        ResumesUnlisted(before, now, list, ipFor, n, k);
      }
    }
    SameLookups(RepairAll(now, list, ipFor), RepairAll(before, list, ipFor));
  }
}

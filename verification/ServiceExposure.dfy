/** Exposing services: which services the exposures ask for, how a NodePort service's ports
    are put together, and what a synchronisation leaves in the cluster. */
module ServiceExposure {
  import opened Options

  type int32 = x: int | -0x8000_0000 <= x < 0x8000_0000

  /** `rest` is the protocol and target port, which the exposure does not mention. */
  datatype Port = Port(port: int32, nodePort: int32, name: string, rest: string)

  datatype PortSpec = PortSpec(port: int32, nodePort: int32)

  datatype Exposure = Exposure(name: string, kind: string, nodePort: Option<seq<PortSpec>>)

  datatype Key = Key(namespace: string, name: string)

  const NODE_PORT := "NodePort"
  const EXPOSURE_LABEL := "servicesxposures.alamedaservices.federatorai.containers.ai"

  /** `rest` is everything not named. */
  datatype Service = Service(
    namespace: string, name: string, labels: map<string, string>, selector: map<string, string>, kind: string,
    clusterIP: string, ports: seq<Port>, rest: string)
  {
    function Id(): Key {
      Key(namespace, name)
    }

    /** The label the synchronisation lists services by. */
    predicate Exposed() {
      EXPOSURE_LABEL in labels && labels[EXPOSURE_LABEL] == ""
    }

    function Labelled(): (r: Service)
      ensures r.Exposed() && r.Id() == Id()
    {
      this.(labels := labels[EXPOSURE_LABEL := ""])
    }
  }

  // ------------------------------------------------------------------ ports of one service

  /** The node port each exposed port was last given. */
  function Given(specs: seq<PortSpec>): map<int32, int32> {
    if specs == [] then map[]
    else Given(specs[..|specs| - 1])[specs[|specs| - 1].port := specs[|specs| - 1].nodePort]
  }

  predicate Asks(specs: seq<PortSpec>, p: int32) {
    exists j :: 0 <= j < |specs| && specs[j].port == p
  }

  lemma {:induction false} GivenLast(specs: seq<PortSpec>, p: int32)
    ensures p in Given(specs) <==> Asks(specs, p)
    ensures forall i :: 0 <= i < |specs| && specs[i].port == p
                        && (forall j :: i < j < |specs| ==> specs[j].port != p) ==>
              p in Given(specs) && Given(specs)[p] == specs[i].nodePort
  {
    if specs != [] {
      var init := specs[..|specs| - 1];
      GivenLast(init, p);
      assert forall i :: 0 <= i < |init| ==> init[i] == specs[i];
    }
  }

  /** The service's own ports that are exposed, each once, in its order. */
  function Kept(ports: seq<Port>, given: map<int32, int32>): seq<Port>
    decreases |ports|
  {
    if ports == [] then []
    else if ports[0].port in given then
      [ports[0].(nodePort := given[ports[0].port])] + Kept(ports[1..], given - {ports[0].port})
    else Kept(ports[1..], given)
  }

  function Digits(n: nat): string {
    if n < 10 then ["0123456789"[n]] else Digits(n / 10) + ["0123456789"[n % 10]]
  }

  function Decimal(n: int): string {
    if n < 0 then "-" + Digits(-n) else Digits(n)
  }

  /** What a string of digits is worth. */
  function Value(s: string): nat {
    if s == "" then 0
    else
      var c := s[|s| - 1];
      10 * Value(s[..|s| - 1]) + if '0' <= c <= '9' then (c - '0') as nat else 0
  }

  /** A number is written in digits, without leading zeros, behind a minus sign if negative. */
  lemma {:induction false} DigitsAreTheNumber(n: nat)
    ensures var s := Digits(n);
            Value(s) == n && s != "" && (n > 0 ==> s[0] != '0') && forall i :: 0 <= i < |s| ==> '0' <= s[i] <= '9'
    decreases n
  {
    if n >= 10 {
      DigitsAreTheNumber(n / 10);
      assert Digits(n)[..|Digits(n)| - 1] == Digits(n / 10);
    } else {
      assert Digits(n)[..0] == "";
    }
  }

  lemma DecimalIsTheNumber(n: int)
    ensures n >= 0 ==> Value(Decimal(n)) == n && '-' !in Decimal(n)
    ensures n < 0 ==> Decimal(n)[0] == '-' && Value(Decimal(n)[1..]) == -n && '-' !in Decimal(n)[1..]
  {
    DigitsAreTheNumber(if n < 0 then -n else n);
  }

  function AddedPort(p: int32, nodePort: int32): Port {
    Port(p, nodePort, "port-" + Decimal(p), "")
  }

  predicate Lists(ports: seq<Port>, p: int32) {
    exists i :: 0 <= i < |ports| && ports[i].port == p
  }

  /** Every port of `given` is listed exactly once, with its node port, and nothing else is. */
  ghost predicate ListsExactly(ports: seq<Port>, given: map<int32, int32>) {
    && (forall i, j :: 0 <= i < j < |ports| ==> ports[i].port != ports[j].port)
    && (forall i :: 0 <= i < |ports| ==> ports[i].port in given && ports[i].nodePort == given[ports[i].port])
    && (forall p :: p in given ==> Lists(ports, p))
  }

  /** One port for each of them. */
  lemma {:induction false} CountIsNumberExposed(ports: seq<Port>, given: map<int32, int32>)
    requires ListsExactly(ports, given)
    ensures |ports| == |given.Keys|
    decreases |ports|
  {
    if ports == [] {
      assert forall p :: p in given ==> Lists(ports, p);
      assert given.Keys == {};
    } else {
      var p := ports[0].port;
      var fewer := given - {p};
      forall q | q in fewer ensures Lists(ports[1..], q) {
        var i :| 0 <= i < |ports| && ports[i].port == q;
        assert ports[1..][i - 1].port == q;
      }
      assert forall i :: 0 <= i < |ports[1..]| ==> ports[1..][i] == ports[i + 1];
      CountIsNumberExposed(ports[1..], fewer);
      assert fewer.Keys == given.Keys - {p};
    }
  }

  predicate OwnPort(ports: seq<Port>, given: map<int32, int32>, p: Port) {
    p.port in given && p.nodePort == given[p.port] && Lists(ports, p.port)
  }

  ghost predicate OwnPorts(kept: seq<Port>, ports: seq<Port>, given: map<int32, int32>) {
    && (forall i, j :: 0 <= i < j < |kept| ==> kept[i].port != kept[j].port)
    && (forall i :: 0 <= i < |kept| ==> OwnPort(ports, given, kept[i]))
    && (forall p :: p in given && Lists(ports, p) ==> Lists(kept, p))
  }

  /** What is kept: the service's exposed ports, each once, with its node port, none left out. */
  lemma {:induction false} KeptAreTheServicesOwn(ports: seq<Port>, given: map<int32, int32>)
    ensures OwnPorts(Kept(ports, given), ports, given)
    decreases |ports|
  {
    if ports != [] {
      var p := ports[0].port;
      var left := if p in given then given - {p} else given;
      var tail := Kept(ports[1..], left);
      KeptAreTheServicesOwn(ports[1..], left);
      ListsCons(ports);
      if p in given {
        OwnPortsStep(tail, ports, given);
      }
    }
  }

  lemma OwnPortsStep(tail: seq<Port>, ports: seq<Port>, given: map<int32, int32>)
    requires ports != [] && ports[0].port in given && OwnPorts(tail, ports[1..], given - {ports[0].port})
    ensures OwnPorts([ports[0].(nodePort := given[ports[0].port])] + tail, ports, given)
  {
    var first := ports[0].(nodePort := given[ports[0].port]);
    var kept := [first] + tail;
    assert kept[1..] == tail;
    ListsCons(ports);
    ListsCons(kept);
    forall i | 0 < i < |kept|
      ensures kept[i] == tail[i - 1] && OwnPort(ports, given, kept[i]) && kept[i].port != first.port
    {
      assert OwnPort(ports[1..], given - {first.port}, tail[i - 1]);
    }
    assert Lists(ports, first.port);
  }

  /** Where a port number first appears. */
  function FirstAt(ports: seq<Port>, p: int32): nat
    decreases |ports|
  {
    if ports == [] || ports[0].port == p then 0 else 1 + FirstAt(ports[1..], p)
  }

  /** The kept ports come in the service's order, each taken from its first occurrence. */
  lemma {:induction false} KeptInServiceOrder(ports: seq<Port>, given: map<int32, int32>, i: nat, j: nat)
    requires i < j < |Kept(ports, given)|
    ensures var kept := Kept(ports, given);
            var at := FirstAt(ports, kept[i].port);
            at < FirstAt(ports, kept[j].port)
            && at < |ports| && kept[i].port in given && kept[i] == ports[at].(nodePort := given[kept[i].port])
    decreases |ports|
  {
    var p := ports[0].port;
    var kept := Kept(ports, given);
    if p !in given {
      KeptAreTheServicesOwn(ports[1..], given);
      assert OwnPort(ports[1..], given, kept[i]) && OwnPort(ports[1..], given, kept[j]);
      KeptInServiceOrder(ports[1..], given, i, j);
    } else {
      var left := given - {p};
      KeptAreTheServicesOwn(ports[1..], left);
      assert OwnPort(ports[1..], left, Kept(ports[1..], left)[j - 1]);
      if i > 0 {
        assert OwnPort(ports[1..], left, Kept(ports[1..], left)[i - 1]);
        KeptInServiceOrder(ports[1..], left, i - 1, j - 1);
      }
    }
  }

  lemma ListsCons(ports: seq<Port>)
    requires ports != []
    ensures forall p: int32 :: Lists(ports, p) <==> ports[0].port == p || Lists(ports[1..], p)
  {
  }

  lemma ListsSnoc(ports: seq<Port>, last: Port)
    ensures forall p: int32 :: Lists(ports + [last], p) <==> last.port == p || Lists(ports, p)
  {
    var more := ports + [last];
    forall p: int32 ensures Lists(more, p) <==> last.port == p || Lists(ports, p) {
      if i :| 0 <= i < |ports| && ports[i].port == p {
        assert more[i].port == p;
      }
      assert more[|ports|].port == last.port;
    }
  }

  /** Service order first, then the rest, named after their number. */
  ghost predicate ServiceOrderFirst(before: seq<Port>, after: seq<Port>, given: map<int32, int32>) {
    var kept := Kept(before, given);
    && |kept| <= |after| && after[..|kept|] == kept
    && forall i :: |kept| <= i < |after| ==>
         !Lists(before, after[i].port) && after[i].port in given
         && after[i] == AddedPort(after[i].port, given[after[i].port])
  }

  /** Part of the way: what is listed and what is left make up the exposed ports. */
  ghost predicate Partial(ports: seq<Port>, left: map<int32, int32>, given: map<int32, int32>) {
    && (forall i, j :: 0 <= i < j < |ports| ==> ports[i].port != ports[j].port)
    && (forall i :: 0 <= i < |ports| ==>
          ports[i].port in given && ports[i].port !in left && ports[i].nodePort == given[ports[i].port])
    && (forall p :: p in given <==> p in left || Lists(ports, p))
    && (forall p :: p in left && p in given ==> left[p] == given[p])
  }

  lemma PartialStep(ports: seq<Port>, left: map<int32, int32>, given: map<int32, int32>, next: Port)
    requires Partial(ports, left, given) && next.port in left && next.nodePort == left[next.port]
    ensures Partial(ports + [next], left - {next.port}, given)
  {
    var more, fewer := ports + [next], left - {next.port};
    ListsSnoc(ports, next);
    forall i | 0 <= i < |more|
      ensures more[i].port in given && more[i].port !in fewer && more[i].nodePort == given[more[i].port]
    {
      if i < |ports| {
        assert more[i] == ports[i];
      }
    }
    forall i, j | 0 <= i < j < |more| ensures more[i].port != more[j].port {
      assert more[i] == ports[i];
      if j < |ports| {
        assert more[j] == ports[j];
      }
    }
  }

  /** What a service of type NodePort is turned into: each exposed port exactly once with the
      node port it was last given, the service's own ports first. */
  ghost predicate IsNodePortService(svc: Service, specs: seq<PortSpec>, r: Service) {
    && r == svc.(name := svc.name + "-node-port", kind := NODE_PORT, ports := r.ports)
    && ListsExactly(r.ports, Given(specs))
    && ServiceOrderFirst(svc.ports, r.ports, Given(specs))
  }

  /** The NodePort service in so many words. It keeps everything but name, type and ports, and
      its ports bear no numbers but those the exposure lists. */
  lemma NodePortServiceInWords(svc: Service, specs: seq<PortSpec>, r: Service)
    requires IsNodePortService(svc, specs, r)
    ensures r == Service(svc.namespace, svc.name + "-node-port", svc.labels, svc.selector, "NodePort",
                         svc.clusterIP, r.ports, svc.rest)
    ensures forall k :: 0 <= k < |r.ports| ==> Asks(specs, r.ports[k].port)
  {
    forall k | 0 <= k < |r.ports| ensures Asks(specs, r.ports[k].port) {
      GivenLast(specs, r.ports[k].port);
    }
  }

  /** Each number the exposure lists is at one place `k`, with the node port listed last for it:
      the service's own port with nothing else changed, or a new one named after the number. */
  lemma ListedPortInWords(svc: Service, specs: seq<PortSpec>, r: Service, i: nat) returns (k: nat)
    requires IsNodePortService(svc, specs, r) && i < |specs|
    requires forall j :: i < j < |specs| ==> specs[j].port != specs[i].port
    ensures k < |r.ports| && r.ports[k].port == specs[i].port && r.ports[k].nodePort == specs[i].nodePort
    ensures forall l :: 0 <= l < |r.ports| && l != k ==> r.ports[l].port != specs[i].port
    ensures (exists o :: 0 <= o < |svc.ports| && r.ports[k] == svc.ports[o].(nodePort := specs[i].nodePort))
      || (!Lists(svc.ports, specs[i].port)
          && r.ports[k] == Port(specs[i].port, specs[i].nodePort, "port-" + Decimal(specs[i].port), ""))
  {
    var given, p := Given(specs), specs[i].port;
    var kept := Kept(svc.ports, given);
    GivenLast(specs, p);
    assert Lists(r.ports, p);
    k :| 0 <= k < |r.ports| && r.ports[k].port == p;
    if k < |kept| {
      assert r.ports[k] == r.ports[..|kept|][k];
      KeptIsOwn(svc.ports, given, k);
    }
  }

  /** The ports with numbers of the service's own come before all others. */
  lemma OwnPortsComeFirst(svc: Service, specs: seq<PortSpec>, r: Service, k: nat, l: nat)
    requires IsNodePortService(svc, specs, r) && l < k < |r.ports| && Lists(svc.ports, r.ports[k].port)
    ensures Lists(svc.ports, r.ports[l].port)
  {
    var given := Given(specs);
    var kept := Kept(svc.ports, given);
    KeptAreTheServicesOwn(svc.ports, given);
    assert k < |kept|;
    assert r.ports[l] == r.ports[..|kept|][l] && OwnPort(svc.ports, given, kept[l]);
  }

  lemma {:induction false} KeptIsOwn(ports: seq<Port>, given: map<int32, int32>, k: nat)
    requires k < |Kept(ports, given)|
    ensures var q := Kept(ports, given)[k];
            q.port in given && exists o :: 0 <= o < |ports| && q == ports[o].(nodePort := given[q.port])
    decreases |ports|
  {
    var p, kept := ports[0].port, Kept(ports, given);
    if p in given && k == 0 {
      assert kept[0] == ports[0].(nodePort := given[p]);
    } else {
      var left := if p in given then given - {p} else given;
      var m := if p in given then k - 1 else k;
      KeptIsOwn(ports[1..], left, m);
      var o :| 0 <= o < |ports[1..]| && kept[k] == ports[1..][o].(nodePort := left[kept[k].port]);
      assert ports[1..][o] == ports[o + 1];
    }
  }

  method NewNodePortService(svc: Service, nodePort: Option<seq<PortSpec>>) returns (r: Service)
    ensures nodePort == None ==> r == svc
    ensures nodePort.Some? ==> IsNodePortService(svc, nodePort.value, r)
  {
    if nodePort == None {
      return svc;
    }
    var specs := nodePort.value;
    var portMap: map<int32, int32> := map[];
    for i := 0 to |specs|
      invariant portMap == Given(specs[..i])
    {
      assert specs[..i + 1][..i] == specs[..i];
      portMap := portMap[specs[i].port := specs[i].nodePort];
    }
    assert specs[..|specs|] == specs;
    var kept, left := KeepOwn(svc.ports, portMap);
    var newPorts := AddTheRest(svc.ports, kept, left, portMap);
    r := svc.(name := svc.name + "-node-port", kind := NODE_PORT, ports := newPorts);
  }

  /** The service's own ports that are exposed, struck off the map as they are taken. */
  method KeepOwn(own: seq<Port>, given: map<int32, int32>) returns (newPorts: seq<Port>, portMap: map<int32, int32>)
    ensures newPorts == Kept(own, given) && Partial(newPorts, portMap, given)
    ensures forall j :: 0 <= j < |own| ==> own[j].port !in portMap
  {
    portMap, newPorts := given, [];
    for i := 0 to |own|
      invariant newPorts + Kept(own[i..], portMap) == Kept(own, given)
      invariant Partial(newPorts, portMap, given)
      invariant forall j :: 0 <= j < i ==> own[j].port !in portMap
    {
      assert own[i..][0] == own[i] && own[i..][1..] == own[i + 1..];
      if own[i].port in portMap {
        var port := own[i].(nodePort := portMap[own[i].port]);
        PartialStep(newPorts, portMap, given, port);
        KeptStep(newPorts, port, Kept(own[i + 1..], portMap - {port.port}));
        newPorts := newPorts + [port];
        portMap := portMap - {port.port};
      }
    }
    assert own[|own|..] == [];
  }

  lemma KeptStep(done: seq<Port>, port: Port, rest: seq<Port>)
    ensures done + ([port] + rest) == done + [port] + rest
  {
  }

  /** The ports the service does not have, in whatever order the map gives them. */
  method AddTheRest(own: seq<Port>, kept: seq<Port>, portMap: map<int32, int32>, ghost given: map<int32, int32>)
    returns (newPorts: seq<Port>)
    requires kept == Kept(own, given) && Partial(kept, portMap, given)
    requires forall j :: 0 <= j < |own| ==> own[j].port !in portMap
    ensures ListsExactly(newPorts, given) && ServiceOrderFirst(own, newPorts, given)
  {
    newPorts := kept;
    var left := portMap;
    while left.Keys != {}
      invariant Partial(newPorts, left, given)
      invariant |kept| <= |newPorts| && newPorts[..|kept|] == kept
      invariant forall p :: p in left ==> p in portMap
      invariant forall i :: |kept| <= i < |newPorts| ==>
                  newPorts[i].port in portMap && newPorts[i] == AddedPort(newPorts[i].port, given[newPorts[i].port])
      decreases left.Keys
    {
      var p :| p in left.Keys;
      PartialStep(newPorts, left, given, AddedPort(p, left[p]));
      newPorts := newPorts + [AddedPort(p, left[p])];
      left := left - {p};
    }
  }

  // --------------------------------------------------------------------- what is wanted

  /** The exposure last given under a name. */
  function ExposureOf(exposures: seq<Exposure>, name: string): Option<Exposure> {
    if exposures == [] then None
    else
      var last := exposures[|exposures| - 1];
      if last.name == name then Some(last) else ExposureOf(exposures[..|exposures| - 1], name)
  }

  /** That is the last one of the name in the list. */
  lemma {:induction false} ExposureOfIsTheLast(exposures: seq<Exposure>, name: string)
    ensures ExposureOf(exposures, name) == None <==> forall i :: 0 <= i < |exposures| ==> exposures[i].name != name
    ensures forall i :: 0 <= i < |exposures| && exposures[i].name == name
                        && (forall j :: i < j < |exposures| ==> exposures[j].name != name) ==>
              ExposureOf(exposures, name) == Some(exposures[i])
  {
    if exposures != [] {
      var init := exposures[..|exposures| - 1];
      ExposureOfIsTheLast(init, name);
      assert forall i :: 0 <= i < |init| ==> init[i] == exposures[i];
    }
  }

  /** An exposure without node ports keeps the service's own name. */
  function WantedKey(svc: Service, e: Exposure): Key {
    Key(svc.namespace, if e.nodePort == None then svc.name else svc.name + "-node-port")
  }

  ghost predicate IsWanted(svc: Service, e: Exposure, r: Service) {
    && e.kind == NODE_PORT
    && (e.nodePort == None ==> r == svc.Labelled())
    && (e.nodePort.Some? ==> IsNodePortService(svc.Labelled(), e.nodePort.value, r))
  }

  /** The service wanted for an exposure, but for its ports: the rendered one with the label
      added and, if node ports are listed, under a name and type of its own. */
  lemma WantedInWords(svc: Service, e: Exposure, r: Service)
    requires IsWanted(svc, e, r)
    ensures e.kind == "NodePort" && WantedKey(svc, e) == Key(r.namespace, r.name)
    ensures var labels := svc.labels["servicesxposures.alamedaservices.federatorai.containers.ai" := ""];
            r == if e.nodePort == None then svc.(labels := labels)
                 else svc.(labels := labels, name := svc.name + "-node-port", kind := "NodePort", ports := r.ports)
  {
  }

  predicate IsExposed(exposures: seq<Exposure>, svc: Service) {
    ExposureOf(exposures, svc.name).Some?
  }

  predicate Unsupported(exposures: seq<Exposure>, svc: Service) {
    IsExposed(exposures, svc) && ExposureOf(exposures, svc.name).value.kind != NODE_PORT
  }

  predicate AsksFor(exposures: seq<Exposure>, svc: Service, k: Key) {
    IsExposed(exposures, svc) && k == WantedKey(svc, ExposureOf(exposures, svc.name).value)
  }

  method BuildExposureMap(exposures: seq<Exposure>) returns (exposureMap: map<string, Exposure>)
    ensures forall n :: n in exposureMap <==> ExposureOf(exposures, n).Some?
    ensures forall n :: n in exposureMap ==> exposureMap[n] == ExposureOf(exposures, n).value
  {
    exposureMap := map[];
    for i := 0 to |exposures|
      invariant forall n :: n in exposureMap <==> ExposureOf(exposures[..i], n).Some?
      invariant forall n :: n in exposureMap ==> exposureMap[n] == ExposureOf(exposures[..i], n).value
    {
      assert exposures[..i + 1][..i] == exposures[..i];
      exposureMap := exposureMap[exposures[i].name := exposures[i]];
    }
    assert exposures[..|exposures|] == exposures;
  }

  /** The service wanted under a key comes from the last listed one that asks for it. */
  ghost predicate LastAsking(services: seq<Service>, exposures: seq<Exposure>, n: nat, k: Key, i: nat, r: Service)
    requires n <= |services|
  {
    && i < n && AsksFor(exposures, services[i], k)
    && IsWanted(services[i], ExposureOf(exposures, services[i].name).value, r)
    && forall j :: i < j < n ==> !AsksFor(exposures, services[j], k)
  }

  ghost predicate FromListed(services: seq<Service>, exposures: seq<Exposure>, n: nat, k: Key, r: Service)
    requires n <= |services|
  {
    r.Id() == k && r.Exposed() && exists i: nat :: LastAsking(services, exposures, n, k, i, r)
  }

  /** Every key that one of the first `n` listed services asks for is mapped. */
  ghost predicate Asked(services: seq<Service>, exposures: seq<Exposure>, n: nat, m: map<Key, Service>)
    requires n <= |services|
  {
    forall i :: 0 <= i < n && IsExposed(exposures, services[i]) ==>
      !Unsupported(exposures, services[i]) && WantedKey(services[i], ExposureOf(exposures, services[i].name).value) in m
  }

  /** Every mapped key comes from the last of them that asks for it. */
  ghost predicate Answered(services: seq<Service>, exposures: seq<Exposure>, n: nat, m: map<Key, Service>)
    requires n <= |services|
  {
    forall k :: k in m ==> FromListed(services, exposures, n, k, m[k])
  }

  ghost predicate Built(services: seq<Service>, exposures: seq<Exposure>, n: nat, m: map<Key, Service>)
    requires n <= |services|
  {
    Asked(services, exposures, n, m) && Answered(services, exposures, n, m)
  }

  lemma WantedId(svc: Service, e: Exposure, r: Service)
    requires IsWanted(svc, e, r)
    ensures r.Id() == WantedKey(svc, e) && r.Exposed()
  {
  }

  lemma OthersStayListed(services: seq<Service>, exposures: seq<Exposure>, n: nat, k: Key, r: Service)
    requires n < |services| && FromListed(services, exposures, n, k, r) && !AsksFor(exposures, services[n], k)
    ensures FromListed(services, exposures, n + 1, k, r)
  {
    var i: nat :| LastAsking(services, exposures, n, k, i, r);
    assert LastAsking(services, exposures, n + 1, k, i, r);
  }

  lemma AnsweredStep(services: seq<Service>, exposures: seq<Exposure>, n: nat, m: map<Key, Service>, want: Service)
    requires n < |services| && Answered(services, exposures, n, m)
    requires LastAsking(services, exposures, n + 1, want.Id(), n, want) && want.Exposed()
    ensures Answered(services, exposures, n + 1, m[want.Id() := want])
  {
    var id := want.Id();
    var more := m[id := want];
    forall k | k in more ensures FromListed(services, exposures, n + 1, k, more[k]) {
      if k != id {
        OthersStayListed(services, exposures, n, k, m[k]);
      }
    }
  }

  lemma BuiltStep(services: seq<Service>, exposures: seq<Exposure>, n: nat, m: map<Key, Service>, want: Service)
    requires n < |services| && Built(services, exposures, n, m)
    requires IsExposed(exposures, services[n])
      && IsWanted(services[n], ExposureOf(exposures, services[n].name).value, want)
    ensures Built(services, exposures, n + 1, m[want.Id() := want])
  {
    WantedId(services[n], ExposureOf(exposures, services[n].name).value, want);
    AnsweredStep(services, exposures, n, m, want);
  }

  lemma BuiltSkip(services: seq<Service>, exposures: seq<Exposure>, n: nat, m: map<Key, Service>)
    requires n < |services| && Built(services, exposures, n, m) && !IsExposed(exposures, services[n])
    ensures Built(services, exposures, n + 1, m)
  {
    forall k | k in m ensures FromListed(services, exposures, n + 1, k, m[k]) {
      OthersStayListed(services, exposures, n, k, m[k]);
    }
  }

  lemma BuiltMeansSupported(services: seq<Service>, exposures: seq<Exposure>, m: map<Key, Service>)
    requires Built(services, exposures, |services|, m)
    ensures forall i :: 0 <= i < |services| ==> !Unsupported(exposures, services[i])
  {
  }

  /** An unsupported type on any exposed service stops the whole synchronisation. */
  method BuildWanted(services: seq<Service>, exposures: seq<Exposure>) returns (wanted: Option<map<Key, Service>>)
    ensures wanted == None <==> exists i :: 0 <= i < |services| && Unsupported(exposures, services[i])
    ensures wanted.Some? ==> Built(services, exposures, |services|, wanted.value)
  {
    var exposureMap := BuildExposureMap(exposures);
    var m: map<Key, Service> := map[];
    for i := 0 to |services|
      invariant Built(services, exposures, i, m)
    {
      if services[i].name in exposureMap {
        var e := exposureMap[services[i].name];
        if e.kind != NODE_PORT {
          assert Unsupported(exposures, services[i]);
          return None;
        }
        var want := NewNodePortService(services[i].Labelled(), e.nodePort);
        BuiltStep(services, exposures, i, m, want);
        m := m[want.Id() := want];
      } else {
        BuiltSkip(services, exposures, i, m);
      }
    }
    BuiltMeansSupported(services, exposures, m);
    wanted := Some(m);
  }
}

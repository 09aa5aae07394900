/** Storage settings of an AlamedaService and the claims they lead to. */
module StorageTypes {
  import opened Options

  /** `OtherType` and `OtherUsage` stand for any string the code does not compare with. */
  datatype StorageType = PVC | Ephemeral | OtherType(name: string)

  datatype Usage = EmptyUsage | Log | Data | OtherUsage(name: string)

  datatype Storage = Storage(kind: StorageType, usage: Usage, size: string)
  {
    /** The planner lets an entry without a usage speak for both. */
    predicate Governs(u: Usage) {
      usage == u || usage == EmptyUsage
    }

    predicate IsEmpty() {
      size == "" || kind != PVC
    }
  }

  /** The sections that have claims, in the order both planning functions visit them. */
  datatype Component =
    | Influxdb | Grafana | AI | Operator | DatahubServer | Evictioner | AdmissionController
    | Recommender | Executor | Dispatcher | Analyzer | Fedemeter | Notifier
    | Agent | AgentGPU | Rest | AgentPreloader | Frontend | Backend | AgentApp

  /** A PersistentVolumeClaim, by the component and usage in its asset's name. */
  datatype Claim = Claim(component: Component, usage: Usage)

  datatype Parameters = Parameters(storages: seq<Storage>, sections: map<Component, seq<Storage>>)
  {
    function Section(c: Component): seq<Storage> {
      if c in sections then sections[c] else []
    }

    /** The section the planner reads: for the agent app it is the backend's. */
    function PlannerSection(c: Component): seq<Storage> {
      if c == AgentApp then Section(Backend) else Section(c)
    }
  }

  predicate AtMostOneGoverns(storages: seq<Storage>, u: Usage) {
    forall i, j :: 0 <= i < j < |storages| ==> !(storages[i].Governs(u) && storages[j].Governs(u))
  }

  function Governing(storages: seq<Storage>, u: Usage): (r: Option<Storage>)
    ensures r == None ==> forall e :: e in storages ==> !e.Governs(u)
    ensures r.Some? ==> r.value in storages && r.value.Governs(u)
  {
    if storages == [] then None
    else if storages[0].Governs(u) then Some(storages[0])
    else Governing(storages[1..], u)
  }

  const SECTION_ORDER: seq<Component> :=
    [Influxdb, Grafana, AI, Operator, DatahubServer, Evictioner, AdmissionController,
     Recommender, Executor, Dispatcher, Analyzer, Fedemeter, Notifier,
     Agent, AgentGPU, Rest, AgentPreloader, Frontend, Backend, AgentApp]

  const LOG_ORDER: seq<Component> :=
    [Influxdb, Grafana, AI, Operator, DatahubServer, Evictioner, AdmissionController,
     Recommender, Executor, Analyzer, Dispatcher, Fedemeter, Agent, AgentGPU, Rest,
     AgentPreloader, Backend, Frontend, AgentApp, Notifier]

  const DATA_ORDER: seq<Component> :=
    [Influxdb, Grafana, AI, Operator, DatahubServer, Evictioner, Analyzer,
     AdmissionController, Recommender, Executor, Dispatcher, Fedemeter, Agent, AgentGPU,
     Rest, AgentPreloader, Backend, Frontend, AgentApp, Notifier]

  function ClaimsOf(cs: seq<Component>, u: Usage): (r: seq<Claim>)
    ensures |r| == |cs|
    ensures forall i :: 0 <= i < |cs| ==> r[i] == Claim(cs[i], u)
  {
    seq(|cs|, i requires 0 <= i < |cs| => Claim(cs[i], u))
  }

  const LOG_CLAIMS: seq<Claim> := ClaimsOf(LOG_ORDER, Log)
  const DATA_CLAIMS: seq<Claim> := ClaimsOf(DATA_ORDER, Data)

  predicate Distinct<T(==)>(s: seq<T>) {
    forall i, j :: 0 <= i < j < |s| ==> s[i] != s[j]
  }

  /** Every component is in each list, once. */
  lemma ListsAreComplete()
    ensures Distinct(SECTION_ORDER) && Distinct(LOG_ORDER) && Distinct(DATA_ORDER)
    ensures forall c: Component :: c in SECTION_ORDER && c in LOG_ORDER && c in DATA_ORDER
  {
    forall c: Component
      ensures c in SECTION_ORDER && c in LOG_ORDER && c in DATA_ORDER
    {
      ListPositions(c);
    }
  }

  lemma ListPositions(c: Component)
    ensures c in SECTION_ORDER && c in LOG_ORDER && c in DATA_ORDER
  {
    match c
    case Influxdb => assert SECTION_ORDER[0] == LOG_ORDER[0] == DATA_ORDER[0] == c;
    case Grafana => assert SECTION_ORDER[1] == LOG_ORDER[1] == DATA_ORDER[1] == c;
    case AI => assert SECTION_ORDER[2] == LOG_ORDER[2] == DATA_ORDER[2] == c;
    case Operator => assert SECTION_ORDER[3] == LOG_ORDER[3] == DATA_ORDER[3] == c;
    case DatahubServer => assert SECTION_ORDER[4] == LOG_ORDER[4] == DATA_ORDER[4] == c;
    case Evictioner => assert SECTION_ORDER[5] == LOG_ORDER[5] == DATA_ORDER[5] == c;
    case AdmissionController => assert SECTION_ORDER[6] == LOG_ORDER[6] == DATA_ORDER[7] == c;
    case Recommender => assert SECTION_ORDER[7] == LOG_ORDER[7] == DATA_ORDER[8] == c;
    case Executor => assert SECTION_ORDER[8] == LOG_ORDER[8] == DATA_ORDER[9] == c;
    case Dispatcher => assert SECTION_ORDER[9] == LOG_ORDER[10] == DATA_ORDER[10] == c;
    case Analyzer => assert SECTION_ORDER[10] == LOG_ORDER[9] == DATA_ORDER[6] == c;
    case Fedemeter => assert SECTION_ORDER[11] == LOG_ORDER[11] == DATA_ORDER[11] == c;
    case Notifier => assert SECTION_ORDER[12] == LOG_ORDER[19] == DATA_ORDER[19] == c;
    case Agent => assert SECTION_ORDER[13] == LOG_ORDER[12] == DATA_ORDER[12] == c;
    case AgentGPU => assert SECTION_ORDER[14] == LOG_ORDER[13] == DATA_ORDER[13] == c;
    case Rest => assert SECTION_ORDER[15] == LOG_ORDER[14] == DATA_ORDER[14] == c;
    case AgentPreloader => assert SECTION_ORDER[16] == LOG_ORDER[15] == DATA_ORDER[15] == c;
    case Frontend => assert SECTION_ORDER[17] == LOG_ORDER[17] == DATA_ORDER[17] == c;
    case Backend => assert SECTION_ORDER[18] == LOG_ORDER[16] == DATA_ORDER[16] == c;
    case AgentApp => assert SECTION_ORDER[19] == LOG_ORDER[18] == DATA_ORDER[18] == c;
  }
}

/** The records the broker exchanges with its callers: requests, plans and policy. */
module Types {
  import opened Basics

  /** The intents the router can plan; `Unlisted` is any other text a caller may send. */
  datatype Intent =
    | FleetInventory
    | AgentStatus
    | MonitoringProblems
    | LiveEvidence
    | DatabaseQuery
    | MonitoringHistory
    | TicketsOpen
    | TicketsByHost
    | Unlisted(name: string)

  datatype Source = WazuhAPI | ZabbixAPI | SROIAAA | PegasusDB | RequestTracker | OtherSource(name: string)

  datatype Action =
    | AgentsList
    | AgentsStatus
    | TriggerGet
    | EventGet
    | QueryExecute
    | OperationsExecute
    | TicketsSearch
    | OtherAction(name: string)

  /** Endpoint-agent operations; `NoOperation` is the empty string. */
  datatype Operation =
    | NoOperation
    | FilesystemList
    | FilesystemStat
    | FilesystemRead
    | FilesystemTail
    | ProcessList
    | HostInfo
    | CapabilitiesDescribe
    | OtherOperation(name: string)

  datatype RouteRequest = RouteRequest(
    intent: Intent,
    host: string := "",
    resource: string := "",
    query: string := "",
    since: string := "",
    until: string := "",
    pattern: string := "",
    severity: string := "",
    state: string := "",
    limit: int := 0)

  datatype OperationParams = OperationParams(offset: int, maxBytes: int, maxEntries: int)

  datatype RouteStep = RouteStep(
    source: Source,
    action: Action,
    host: string := "",
    limit: int := 0,
    operation: Operation := NoOperation,
    query: string := "",
    since: string := "",
    until: string := "",
    pattern: string := "",
    severity: string := "",
    state: string := "",
    target: Option<string> := None,
    params: Option<OperationParams> := None)

  datatype RoutePlan = RoutePlan(version: int, intent: Intent, steps: seq<RouteStep>)

  datatype Resource = Resource(operation: Operation, path: string, params: Option<OperationParams>)

  /** A policy as decoded: a missing JSON object is a nil map. Each live host lists its resources. */
  datatype Policy = Policy(
    version: int,
    liveHosts: Option<map<string, seq<string>>>,
    resources: Option<map<string, Resource>>)

  datatype ErrorCode =
    | InvalidRequest
    | InvalidQuery
    | InvalidSince
    | InvalidUntil
    | InvalidHost
    | InvalidResource
    | InvalidMatch
    | InvalidSeverity
    | InvalidState
    | InvalidLimit
    | MissingHost
    | MissingResource
    | MissingSince
    | HostNotAuthorized
    | ResourceNotAuthorized
    | UnknownIntent
    | InvalidPlan
    | PlanNotAuthorized

  /** Which data source an intent routes to. */
  function SourceForIntent(intent: Intent): Option<Source> {
    match intent
    case FleetInventory | AgentStatus => Some(WazuhAPI)
    case MonitoringProblems | MonitoringHistory => Some(ZabbixAPI)
    case LiveEvidence => Some(SROIAAA)
    case DatabaseQuery => Some(PegasusDB)
    case TicketsOpen | TicketsByHost => Some(RequestTracker)
    case Unlisted(_) => None
  }

  const ALL_INTENTS := [
    FleetInventory, AgentStatus, MonitoringProblems, LiveEvidence,
    DatabaseQuery, MonitoringHistory, TicketsOpen, TicketsByHost]

  /** Every intent with a source is offered by the list, and nothing else is. */
  lemma AllIntentsAreRouted(intent: Intent)
    ensures intent in ALL_INTENTS <==> SourceForIntent(intent).Some?
  {
    assert ALL_INTENTS[0] == FleetInventory && ALL_INTENTS[1] == AgentStatus
        && ALL_INTENTS[2] == MonitoringProblems && ALL_INTENTS[3] == LiveEvidence
        && ALL_INTENTS[4] == DatabaseQuery && ALL_INTENTS[5] == MonitoringHistory
        && ALL_INTENTS[6] == TicketsOpen && ALL_INTENTS[7] == TicketsByHost;
  }
}

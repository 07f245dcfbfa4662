/** The policy router: planning a request, and re-authorising a plan by planning it again. */
module Routing {
  import opened Basics
  import opened Text
  import opened Clock
  import opened Types
  import opened Monitoring
  import opened PolicyRules
  import opened Sql

  const PLAN_VERSION := 1
  const FLEET_INVENTORY_LIMIT := 500
  const TICKET_SEARCH_LIMIT := 100

  datatype Router = Router(liveHosts: map<string, set<string>>, resources: map<string, Resource>)

  /** One call to Plan reads the clock twice: for since, then for until. */
  datatype Reading = Reading(atSince: Instant, atUntil: Instant)

  type Planned = Result<RoutePlan, ErrorCode>

  // -------------------------------------------------------------- construction

  /** A router holds a validated policy, each host's list as a set. */
  ghost predicate BuiltFrom(t: Runes, router: Router, policy: Policy) {
    && ValidPolicy(t, policy)
    && router.resources == policy.resources.value
    && router.liveHosts.Keys == policy.liveHosts.value.Keys
    && forall host :: host in router.liveHosts ==> router.liveHosts[host] == Members(policy.liveHosts.value[host])
  }

  function Members(listed: seq<string>): set<string> {
    set name | name in listed
  }

  method AllowedSet(listed: seq<string>) returns (allowed: set<string>)
    ensures allowed == Members(listed)
  {
    allowed := {};
    for i := 0 to |listed|
      invariant allowed == Members(listed[..i])
    {
      assert listed[..i + 1] == listed[..i] + [listed[i]];
      allowed := allowed + {listed[i]};
    }
    assert listed[..|listed|] == listed;
  }

  method NewRouter(t: Runes, policy: Policy) returns (r: Option<Router>)
    ensures r.Some? <==> ValidPolicy(t, policy)
    ensures r.Some? ==> BuiltFrom(t, r.value, policy)
  {
    var valid := ValidatePolicy(t, policy);
    if !valid {
      return None;
    }
    var liveHosts: map<string, set<string>> := map[];
    var todo := policy.liveHosts.value.Keys;
    while todo != {}
      invariant todo <= policy.liveHosts.value.Keys
      invariant liveHosts.Keys == policy.liveHosts.value.Keys - todo
      invariant forall host :: host in liveHosts ==> liveHosts[host] == Members(policy.liveHosts.value[host])
      decreases todo
    {
      var host :| host in todo;
      var allowed := AllowedSet(policy.liveHosts.value[host]);
      liveHosts := liveHosts[host := allowed];
      todo := todo - {host};
    }
    r := Some(Router(liveHosts, policy.resources.value));
  }

  // ------------------------------------------------------------------ planning

  predicate TakesSelectors(intent: Intent) {
    intent.MonitoringProblems? || intent.MonitoringHistory?
  }

  function NewPlan(intent: Intent, step: RouteStep): Planned {
    Ok(RoutePlan(PLAN_VERSION, intent, [step]))
  }

  function RequireHostOnly(lib: Library, request: RouteRequest): Result<(), ErrorCode> {
    if request.host == "" then Err(MissingHost)
    else if request.resource != "" then Err(InvalidRequest)
    else if !ValidHostSelector(lib.runes, request.host) then Err(InvalidHost)
    else Ok(())
  }

  /** The bounds of a request, resolved at a reading of the clock and checked against each other. */
  function ResolveWindow(lib: Library, request: RouteRequest, at: Reading): Result<(Instant, Instant), ErrorCode> {
    match ParseSince(lib, request.since, at.atSince)
    case Err(_) => Err(InvalidSince)
    case Ok(since) =>
      match ParseUntil(lib, request.until, at.atUntil)
      case Err(_) => Err(InvalidUntil)
      case Ok(until) =>
        if since != ZERO_TIME && until != ZERO_TIME && until <= since then Err(InvalidUntil)
        else Ok((since, until))
  }

  function Plan(lib: Library, router: Router, request: RouteRequest, at: Reading): Planned {
    var window :- ResolveWindow(lib, request, at);
    if !TakesSelectors(request.intent)
      && (request.pattern != "" || request.severity != "" || request.state != "" || request.limit != 0)
    then Err(InvalidRequest)
    else PlanIntent(lib, router, request, Stamp(lib, window.0), Stamp(lib, window.1))
  }

  /** Planning once the bounds are resolved: since and until are what a step would carry. */
  function PlanIntent(lib: Library, router: Router, request: RouteRequest, since: string, until: string): Planned {
    match request.intent
    case FleetInventory =>
      if request.host != "" || request.resource != "" || request.since != "" || request.until != "" then
        Err(InvalidRequest)
      else
        NewPlan(request.intent, RouteStep(WazuhAPI, AgentsList, limit := FLEET_INVENTORY_LIMIT))
    case AgentStatus =>
      var _ :- RequireHostOnly(lib, request);
      if request.since != "" || request.until != "" then Err(InvalidRequest)
      else NewPlan(request.intent, RouteStep(WazuhAPI, AgentsStatus, host := request.host))
    case MonitoringProblems =>
      if request.resource != "" then Err(InvalidRequest)
      else if request.host != "" && !ValidHostSelector(lib.runes, request.host) then Err(InvalidHost)
      else
        var s :- MonitoringSelectors(lib.runes, request, false);
        NewPlan(request.intent, RouteStep(ZabbixAPI, TriggerGet, host := request.host, limit := s.limit,
          since := since, until := until, pattern := s.pattern, severity := s.severity))
    case DatabaseQuery =>
      if request.host != "" || request.resource != "" || request.since != "" || request.until != "" then
        Err(InvalidRequest)
      else if ValidateQuery(lib.runes, request.query).Err? then Err(InvalidQuery)
      else
        NewPlan(request.intent, RouteStep(PegasusDB, QueryExecute,
          query := TrimSpace(request.query), limit := MAX_QUERY_ROWS))
    case MonitoringHistory =>
      if request.resource != "" then Err(InvalidRequest)
      else if request.host != "" && !ValidHostSelector(lib.runes, request.host) then Err(InvalidHost)
      else if since == "" then Err(MissingSince)
      else
        var s :- MonitoringSelectors(lib.runes, request, true);
        NewPlan(request.intent, RouteStep(ZabbixAPI, EventGet, host := request.host, limit := s.limit,
          since := since, until := until, pattern := s.pattern, severity := s.severity, state := s.state))
    case LiveEvidence => PlanLiveEvidence(lib, router, request)
    case TicketsOpen =>
      if request.host != "" || request.resource != "" then Err(InvalidRequest)
      else NewPlan(request.intent, RouteStep(RequestTracker, TicketsSearch,
        limit := TICKET_SEARCH_LIMIT, since := since, until := until))
    case TicketsByHost =>
      var _ :- RequireHostOnly(lib, request);
      NewPlan(request.intent, RouteStep(RequestTracker, TicketsSearch, host := request.host,
        limit := TICKET_SEARCH_LIMIT, since := since, until := until))
    case Unlisted(_) => Err(UnknownIntent)
  }

  function PlanLiveEvidence(lib: Library, router: Router, request: RouteRequest): Planned {
    if request.host == "" then Err(MissingHost)
    else if !ValidHostSelector(lib.runes, request.host) then Err(InvalidHost)
    else if request.resource == "" then Err(MissingResource)
    else if !ValidResourceName(lib.runes, request.resource) then Err(InvalidResource)
    else if request.since != "" || request.until != "" then Err(InvalidRequest)
    else if request.host !in router.liveHosts then Err(HostNotAuthorized)
    else if request.resource !in router.liveHosts[request.host] then Err(ResourceNotAuthorized)
    else
      var resource := Lookup(router.resources, request.resource);
      NewPlan(request.intent, RouteStep(SROIAAA, OperationsExecute, host := request.host,
        operation := resource.operation, target := Some(resource.path), params := resource.params))
  }

  /** Reading a missing key of a Go map yields the zero record. */
  function Lookup(resources: map<string, Resource>, name: string): Resource {
    if name in resources then resources[name] else Resource(NoOperation, "", None)
  }

  // -------------------------------------------------------------- verification

  /** The one request an intent with a single candidate is rebuilt from. Nothing the router
      derives, such as a fixed limit, is read back. */
  function Rebuild(plan: RoutePlan): RouteRequest
    requires plan.steps != []
  {
    var step := plan.steps[0];
    match plan.intent
    case AgentStatus => RouteRequest(plan.intent, host := step.host)
    case MonitoringProblems | MonitoringHistory =>
      RouteRequest(plan.intent, host := step.host, since := step.since, until := step.until,
        pattern := step.pattern, severity := step.severity, state := step.state, limit := step.limit)
    case DatabaseQuery => RouteRequest(plan.intent, query := step.query)
    case TicketsOpen => RouteRequest(plan.intent, since := step.since, until := step.until)
    case TicketsByHost => RouteRequest(plan.intent, host := step.host, since := step.since, until := step.until)
    case _ => RouteRequest(plan.intent)
  }

  function LiveRequest(host: string, alias: string): RouteRequest {
    RouteRequest(LiveEvidence, host := host, resource := alias)
  }

  ghost predicate IsCandidate(router: Router, plan: RoutePlan, request: RouteRequest)
    requires plan.steps != []
  {
    match plan.intent
    case LiveEvidence =>
      var host := plan.steps[0].host;
      host in router.liveHosts && request.intent.LiveEvidence? && request.resource in router.liveHosts[host]
      && request == LiveRequest(host, request.resource)
    case Unlisted(_) => false
    case _ => request == Rebuild(plan)
  }

  /** Some candidate request plans, at this reading of the clock, to exactly this plan. */
  ghost predicate Authorized(lib: Library, router: Router, plan: RoutePlan, at: Reading) {
    plan.steps != [] &&
    exists request :: IsCandidate(router, plan, request) && Plan(lib, router, request, at) == Ok(plan)
  }

  /** Lists the candidates; aliases come out of a set in any order. */
  method CandidateRequests(router: Router, plan: RoutePlan) returns (requests: seq<RouteRequest>)
    requires plan.steps != []
    ensures forall request :: request in requests <==> IsCandidate(router, plan, request)
    ensures !plan.intent.LiveEvidence? ==> |requests| <= 1
  {
    var host := plan.steps[0].host;
    match plan.intent {
      case LiveEvidence =>
        if host !in router.liveHosts {
          return [];
        }
        requests := [];
        var todo := router.liveHosts[host];
        while todo != {}
          invariant todo <= router.liveHosts[host]
          invariant forall request :: request in requests <==>
            IsCandidate(router, plan, request) && request.resource !in todo
          decreases todo
        {
          var alias :| alias in todo;
          requests := requests + [LiveRequest(host, alias)];
          todo := todo - {alias};
        }
      case Unlisted(_) => return [];
      case _ => return [Rebuild(plan)];
    }
  }

  /** Live plans ignore the clock: their requests may not carry a bound. */
  lemma LivePlansIgnoreTheClock(lib: Library, router: Router, plan: RoutePlan, request: RouteRequest, at: Reading, other: Reading)
    requires plan.steps != [] && plan.intent.LiveEvidence? && IsCandidate(router, plan, request)
    ensures Plan(lib, router, request, at) == Plan(lib, router, request, other)
  {
    assert request == LiveRequest(request.host, request.resource);
  }

  /** Accepts a plan iff it is authorised; the i-th candidate is planned at the i-th reading. */
  method Verify(lib: Library, router: Router, plan: RoutePlan, clock: nat -> Reading)
    returns (refusal: Option<ErrorCode>)
    ensures refusal.None? <==> Authorized(lib, router, plan, clock(0))
    ensures refusal.Some? ==> refusal.value == if plan.steps == [] then InvalidPlan else PlanNotAuthorized
  {
    hide Plan;
    if plan.steps == [] {
      return Some(InvalidPlan);
    }
    var candidates := CandidateRequests(router, plan);
    for i := 0 to |candidates|
      invariant forall k :: 0 <= k < i ==> Plan(lib, router, candidates[k], clock(0)) != Ok(plan)
    {
      assert candidates[i] in candidates;
      var same := Reproduces(lib, router, plan, candidates[i], clock(i));
      if plan.intent.LiveEvidence? {
        LivePlansIgnoreTheClock(lib, router, plan, candidates[i], clock(i), clock(0));
      }
      if same {
        return None;
      }
    }
    return Some(PlanNotAuthorized);
  }

  method Reproduces(lib: Library, router: Router, plan: RoutePlan, request: RouteRequest, at: Reading) returns (same: bool)
    ensures same <==> Plan(lib, router, request, at) == Ok(plan)
  {
    var produced := Plan(lib, router, request, at);
    same := produced == Ok(plan);
  }
}

/** The executor: dispatching a plan's steps to registered connectors, and the checks each connector
    makes on a step before it reaches its source. */
module Execution {
  import opened Basics
  import opened Text
  import opened Clock
  import opened Types
  import opened Monitoring
  import opened Sql
  import opened Routing
  import opened Authorization

  /** What one connector returned for one step; `detail` stands for the rows and tables. */
  datatype Evidence = Evidence(
    source: Source,
    action: Action,
    endpoint: string,
    query: string,
    durationMs: int,
    itemCount: int,
    truncated: bool,
    summary: map<string, int>,
    detail: string)

  datatype StepError =
    | WrongSource
    | UnsupportedAction
    | InvalidSinceBound
    | InvalidUntilBound
    | InvalidTimeBound
    | UnknownSeverity
    | UnsupportedFilter
    | HostRequired
    | QueryRejected
    | InvalidStep
    | HostNotConfigured
    | NoConnector
    | Remote(text: string)

  /** A connector: the source it serves, the endpoint agents it is configured with, and how its
      source answers a step that passed the checks. */
  datatype Connector = Connector(
    source: Source,
    agents: set<string>,
    answer: RouteStep -> Result<Evidence, StepError>)

  datatype Executor = Executor(connectors: map<Source, Connector>)

  // ------------------------------------------------------------- static checks

  predicate Readable(lib: Library, text: string) {
    text == "" || lib.rfc3339(text).Some?
  }

  function CheckSelectors(lib: Library, step: RouteStep): Option<StepError> {
    if step.severity != "" && SeverityFloor(lib.runes, step.severity).None? then Some(UnknownSeverity)
    else if step.state != "" && step.action != EventGet then Some(UnsupportedFilter)
    else None
  }

  function CheckZabbix(lib: Library, step: RouteStep): Option<StepError> {
    if step.source != ZabbixAPI then Some(WrongSource)
    else if step.action != TriggerGet && step.action != EventGet then Some(UnsupportedAction)
    else if !Readable(lib, step.since) then Some(InvalidSinceBound)
    else if !Readable(lib, step.until) then Some(InvalidUntilBound)
    else CheckSelectors(lib, step)
  }

  function CheckWazuh(lib: Library, step: RouteStep): Option<StepError> {
    if step.source != WazuhAPI then Some(WrongSource)
    else if step.action != AgentsList && step.action != AgentsStatus then Some(UnsupportedAction)
    else if step.action == AgentsStatus && step.host == "" then Some(HostRequired)
    else if !Readable(lib, step.since) then Some(InvalidSinceBound)
    else None
  }

  function CheckTickets(lib: Library, step: RouteStep): Option<StepError> {
    if step.source != RequestTracker then Some(WrongSource)
    else if step.action != TicketsSearch then Some(UnsupportedAction)
    else if !Readable(lib, step.since) || !Readable(lib, step.until) then Some(InvalidTimeBound)
    else None
  }

  function CheckDatabase(lib: Library, step: RouteStep): Option<StepError> {
    if step.source != PegasusDB then Some(WrongSource)
    else if step.action != QueryExecute then Some(UnsupportedAction)
    else if ValidateQuery(lib.runes, step.query).Err? then Some(QueryRejected)
    else None
  }

  function CheckAgent(agents: set<string>, step: RouteStep): Option<StepError> {
    if step.source != SROIAAA then Some(WrongSource)
    else if step.action != OperationsExecute || step.operation == NoOperation || step.target.None? then Some(InvalidStep)
    else if step.host !in agents then Some(HostNotConfigured)
    else None
  }

  function CheckStep(lib: Library, connector: Connector, step: RouteStep): Option<StepError> {
    match connector.source
    case ZabbixAPI => CheckZabbix(lib, step)
    case WazuhAPI => CheckWazuh(lib, step)
    case RequestTracker => CheckTickets(lib, step)
    case PegasusDB => CheckDatabase(lib, step)
    case SROIAAA => CheckAgent(connector.agents, step)
    case OtherSource(_) => None
  }

  function ExecuteStep(lib: Library, connector: Connector, step: RouteStep): Result<Evidence, StepError> {
    match CheckStep(lib, connector, step)
    case Some(error) => Err(error)
    case None => connector.answer(step)
  }

  // ------------------------------------------------------------------ executor

  /** Registers connectors by declared source; a nil entry or a repeated source is refused. */
  method NewExecutor(connectors: seq<Option<Connector>>) returns (executor: Option<Executor>)
    ensures executor.Some? <==>
      && (forall i :: 0 <= i < |connectors| ==> connectors[i].Some?)
      && (forall i, j :: 0 <= i < j < |connectors| ==> connectors[i].value.source != connectors[j].value.source)
    ensures executor.Some? ==> forall c: Connector ::
      Some(c) in connectors <==> c.source in executor.value.connectors && executor.value.connectors[c.source] == c
  {
    var registry: map<Source, Connector> := map[];
    for i := 0 to |connectors|
      invariant forall k :: 0 <= k < i ==> connectors[k].Some?
      invariant forall k :: 0 <= k < i ==>
        (connectors[k].value.source in registry && registry[connectors[k].value.source] == connectors[k].value)
      invariant forall s :: s in registry ==>
        registry[s].source == s && exists k :: 0 <= k < i && connectors[k] == Some(registry[s])
      invariant forall j, k :: 0 <= j < k < i ==> connectors[j].value.source != connectors[k].value.source
    {
      if connectors[i].None? {
        return None;
      }
      var c := connectors[i].value;
      if c.source in registry {
        return None;
      }
      registry := registry[c.source := c];
    }
    executor := Some(Executor(registry));
  }

  /** How a plan ran: the evidence in step order, the steps connectors were handed, and what
      stopped it, if anything did. */
  datatype Ran = Ran(evidence: seq<Evidence>, handed: seq<RouteStep>, error: Option<StepError>)

  /** Running steps in order, stopping at the first failure. */
  function RunSteps(lib: Library, executor: Executor, steps: seq<RouteStep>): Ran {
    if steps == [] then Ran([], [], None)
    else if steps[0].source !in executor.connectors then Ran([], [], Some(NoConnector))
    else
      match ExecuteStep(lib, executor.connectors[steps[0].source], steps[0])
      case Err(error) => Ran([], [steps[0]], Some(error))
      case Ok(evidence) =>
        var rest := RunSteps(lib, executor, steps[1..]);
        Ran([evidence] + rest.evidence, [steps[0]] + rest.handed, rest.error)
  }

  /** What came before a run, and the run. */
  function Continued(evidence: seq<Evidence>, handed: seq<RouteStep>, rest: Ran): Ran {
    Ran(evidence + rest.evidence, handed + rest.handed, rest.error)
  }

  lemma RunOn(lib: Library, executor: Executor, step: RouteStep, steps: seq<RouteStep>, evidence: seq<Evidence>,
              handed: seq<RouteStep>)
    ensures var run := Continued(evidence, handed, RunSteps(lib, executor, [step] + steps));
      if step.source !in executor.connectors then run == Ran(evidence, handed, Some(NoConnector))
      else
        var answer := ExecuteStep(lib, executor.connectors[step.source], step);
        if answer.Err? then run == Ran(evidence, handed + [step], Some(answer.error))
        else run == Continued(evidence + [answer.value], handed + [step], RunSteps(lib, executor, steps))
  {
    hide ExecuteStep;
    assert ([step] + steps)[1..] == steps;
  }

  method Execute(lib: Library, executor: Executor, plan: RoutePlan) returns (ran: Ran)
    ensures ran == RunSteps(lib, executor, plan.steps)
  {
    hide ExecuteStep, Continued, RunSteps;
    var evidence, handed := [], [];
    assert RunSteps(lib, executor, plan.steps) == Continued([], [], RunSteps(lib, executor, plan.steps[0..])) by {
      RunNoFurther(lib, executor, evidence, handed, plan.steps);
    }
    for i := 0 to |plan.steps|
      invariant RunSteps(lib, executor, plan.steps) == Continued(evidence, handed, RunSteps(lib, executor, plan.steps[i..]))
    {
      var step := plan.steps[i];
      RunOn(lib, executor, step, plan.steps[i + 1..], evidence, handed);
      assert plan.steps[i..] == [step] + plan.steps[i + 1..];
      if step.source !in executor.connectors {
        return Ran(evidence, handed, Some(NoConnector));
      }
      handed := handed + [step];
      var answer := ExecuteStep(lib, executor.connectors[step.source], step);
      if answer.Err? {
        return Ran(evidence, handed, Some(answer.error));
      }
      evidence := evidence + [answer.value];
    }
    RunNoFurther(lib, executor, evidence, handed, plan.steps);
    ran := Ran(evidence, handed, None);
  }

  lemma RunNoFurther(lib: Library, executor: Executor, evidence: seq<Evidence>, handed: seq<RouteStep>, steps: seq<RouteStep>)
    ensures Continued(evidence, handed, RunSteps(lib, executor, steps[|steps|..])) == Ran(evidence, handed, None)
    ensures Continued([], [], RunSteps(lib, executor, steps[0..])) == RunSteps(lib, executor, steps)
  {
    assert steps[0..] == steps;
  }

  /** A run hands over a prefix of the plan, in order, and each piece of evidence answers its own
      step; without an error that prefix is the whole plan. */
  lemma {:induction false} RunIsAPrefix(lib: Library, executor: Executor, steps: seq<RouteStep>)
    ensures var ran := RunSteps(lib, executor, steps);
      && ran.handed <= steps
      && |ran.evidence| <= |ran.handed| <= |ran.evidence| + 1
      && (ran.error.None? ==> ran.handed == steps && |ran.evidence| == |steps|)
      && (forall i :: 0 <= i < |ran.evidence| ==>
            steps[i].source in executor.connectors
            && ExecuteStep(lib, executor.connectors[steps[i].source], steps[i]) == Ok(ran.evidence[i]))
  {
    if steps != [] && steps[0].source in executor.connectors
      && ExecuteStep(lib, executor.connectors[steps[0].source], steps[0]).Ok? {
      RunIsAPrefix(lib, executor, steps[1..]);
      assert steps == [steps[0]] + steps[1..];
    }
  }

  // ---------------------------------------------------- planned steps executable

  /** What the router settles about a step besides its bounds. */
  predicate WellPlanned(lib: Library, intent: Intent, step: RouteStep) {
    && SourceForIntent(intent) == Some(step.source)
    && (step.severity != "" ==> SeverityFloor(lib.runes, step.severity).Some?)
    && match intent
       case FleetInventory => step.action == AgentsList && step.since == "" && step.until == ""
       case AgentStatus => step.action == AgentsStatus && step.host != "" && step.since == "" && step.until == ""
       case MonitoringProblems => step.action == TriggerGet && step.state == ""
       case MonitoringHistory => step.action == EventGet
       case DatabaseQuery =>
         step.action == QueryExecute && ValidateQuery(lib.runes, step.query).Ok? && step.since == "" && step.until == ""
       case LiveEvidence =>
         step.action == OperationsExecute && step.operation != NoOperation && step.target.Some?
         && step.since == "" && step.until == ""
       case TicketsOpen | TicketsByHost => step.action == TicketsSearch
       case Unlisted(_) => false
  }

  lemma RouterPlansWell(lib: Library, router: Router, policy: Policy, request: RouteRequest, at: Reading)
    requires BuiltFrom(lib.runes, router, policy)
    requires Plan(lib, router, request, at).Ok?
    ensures |Plan(lib, router, request, at).value.steps| == 1
    ensures WellPlanned(lib, request.intent, Plan(lib, router, request, at).value.steps[0])
  {
    match request.intent
    case LiveEvidence => LivePlanIsGranted(lib, router, policy, request, at);
    case MonitoringProblems => PlannedSeverityIsKnown(lib, request, false);
    case MonitoringHistory => PlannedSeverityIsKnown(lib, request, true);
    case DatabaseQuery => ValidationIgnoresPadding(lib.runes, request.query);
    case _ =>
  }

  lemma WellPlannedStepsPass(lib: Library, intent: Intent, step: RouteStep, connector: Connector, s: Instant, u: Instant)
    requires lib.Lawful()
    requires WellPlanned(lib, intent, step) && connector.source == step.source
    requires step.since == "" || step.since == lib.format(s)
    requires step.until == "" || step.until == lib.format(u)
    ensures CheckStep(lib, connector, step).None? <==>
      && (intent.LiveEvidence? ==> step.host in connector.agents)
      && (step.since != "" ==> Printable(s))
      && (step.until != "" ==> Printable(u))
  {
    hide SeverityFloor, ValidateQuery;
    StampReads(lib, s);
    StampReads(lib, u);
  }

  lemma PlansKeepTheirIntent(lib: Library, router: Router, request: RouteRequest, at: Reading, plan: RoutePlan)
    requires Plan(lib, router, request, at) == Ok(plan)
    ensures plan.intent == request.intent && |plan.steps| == 1
  {
    PlannedShape(lib, router, request, at);
  }

  /** A step the router planned passes the checks of the connector that serves its source exactly
      when its bounds fall in years RFC 3339 can spell and, for live evidence, an endpoint agent is
      configured for its host. Nothing else a connector checks can reject it. */
  lemma PlannedStepsPassTheChecks(
      lib: Library, router: Router, policy: Policy, request: RouteRequest, at: Reading, plan: RoutePlan,
      connector: Connector)
    requires lib.Lawful() && BuiltFrom(lib.runes, router, policy)
    requires Plan(lib, router, request, at) == Ok(plan)
    requires SourceForIntent(plan.intent) == Some(connector.source)
    ensures |plan.steps| == 1 && ResolveWindow(lib, request, at).Ok?
    ensures CheckStep(lib, connector, plan.steps[0]).None? <==>
      && (plan.intent.LiveEvidence? ==> plan.steps[0].host in connector.agents)
      && (plan.steps[0].since != "" ==> Printable(ResolveWindow(lib, request, at).value.0))
      && (plan.steps[0].until != "" ==> Printable(ResolveWindow(lib, request, at).value.1))
  {
    hide Plan, ResolveWindow, CheckStep, WellPlanned, BuiltFrom;
    PlansKeepTheirIntent(lib, router, request, at, plan);
    RouterPlansWell(lib, router, policy, request, at);
    CarriedBounds(lib, router, request, at, plan);
    var (since, until) := ResolveWindow(lib, request, at).value;
    WellPlannedStepsPass(lib, plan.intent, plan.steps[0], connector, since, until);
  }

  /** So a planned step can be refused: an until whose instant lies past the years RFC 3339 can spell
      plans, and the connector it goes to cannot read it. */
  lemma UnprintableUntilIsRefused(lib: Library, router: Router, until: string, now: Instant, u: Instant)
    requires lib.Lawful()
    requires ParseUntil(lib, until, now) == Ok(u) && u != ZERO_TIME && !Printable(u)
    ensures var search := Plan(lib, router, RouteRequest(TicketsOpen, until := until), Reading(now, now));
      search.Ok? && |search.value.steps| == 1 && CheckTickets(lib, search.value.steps[0]) == Some(InvalidTimeBound)
    ensures var problems := Plan(lib, router, RouteRequest(MonitoringProblems, until := until), Reading(now, now));
      problems.Ok? && |problems.value.steps| == 1 && CheckZabbix(lib, problems.value.steps[0]) == Some(InvalidUntilBound)
  {
    hide ParseUntil, Normalize;
    StampReads(lib, u);
  }

  lemma PlannedSeverityIsKnown(lib: Library, request: RouteRequest, allowState: bool)
    requires MonitoringSelectors(lib.runes, request, allowState).Ok?
    ensures var s := MonitoringSelectors(lib.runes, request, allowState).value;
      s.severity != "" ==> SeverityFloor(lib.runes, s.severity).Some?
  {
    if request.severity != "" {
      AcceptedNamesArePlain(Normalize(lib.runes, request.severity));
      NormalizeIdempotent(lib.runes, request.severity);
    }
  }

  /** With a clock between years 2 and 9999 a lower bound is always one a connector can read; only an
      upper bound resolved from a date can fail to be. */
  lemma SinceIsAlwaysReadable(lib: Library, request: RouteRequest, at: Reading)
    requires ResolveWindow(lib, request, at).Ok?
    requires ZERO_TIME + MAX_SINCE_AGE <= at.atSince < YEAR_TEN_THOUSAND - MINUTE
    ensures Printable(ResolveWindow(lib, request, at).value.0)
  {
    SinceIsBounded(lib, request.since, at.atSince);
  }

  /** An intent whose source has no connector runs none: planning it still succeeds or fails as
      before, but execution stops before anything is handed over. */
  lemma UnservedIntentsRunNothing(
      lib: Library, router: Router, request: RouteRequest, at: Reading, plan: RoutePlan, executor: Executor)
    requires Plan(lib, router, request, at) == Ok(plan)
    requires SourceForIntent(plan.intent).Some? && SourceForIntent(plan.intent).value !in executor.connectors
    ensures RunSteps(lib, executor, plan.steps) == Ran([], [], Some(NoConnector))
  {
    PlannedShape(lib, router, request, at);
  }

  /** An intent whose source has a connector gets that far: under the conditions above, execution is
      that connector's answer to the planned step and nothing else. */
  lemma ServedIntentsReachTheirConnector(
      lib: Library, router: Router, policy: Policy, request: RouteRequest, at: Reading, plan: RoutePlan,
      executor: Executor)
    requires lib.Lawful() && BuiltFrom(lib.runes, router, policy)
    requires Plan(lib, router, request, at) == Ok(plan)
    requires forall s :: s in executor.connectors ==> executor.connectors[s].source == s
    requires SourceForIntent(plan.intent).Some? && SourceForIntent(plan.intent).value in executor.connectors
    ensures |plan.steps| == 1
    ensures var connector := executor.connectors[SourceForIntent(plan.intent).value];
      CheckStep(lib, connector, plan.steps[0]).None? ==>
        RunSteps(lib, executor, plan.steps) ==
          match connector.answer(plan.steps[0])
          case Ok(evidence) => Ran([evidence], plan.steps, None)
          case Err(error) => Ran([], plan.steps, Some(error))
  {
    hide Plan, CheckStep, RunSteps, BuiltFrom;
    PlannedShape(lib, router, request, at);
    var connector := executor.connectors[SourceForIntent(plan.intent).value];
    assert plan.steps == [plan.steps[0]] && plan.steps[1..] == [];
    if CheckStep(lib, connector, plan.steps[0]).None? {
      OneStepRun(lib, executor, plan.steps[0]);
    }
  }

  lemma OneStepRun(lib: Library, executor: Executor, step: RouteStep)
    requires step.source in executor.connectors
    requires CheckStep(lib, executor.connectors[step.source], step).None?
    ensures RunSteps(lib, executor, [step]) ==
      match executor.connectors[step.source].answer(step)
      case Ok(evidence) => Ran([evidence], [step], None)
      case Err(error) => Ran([], [step], Some(error))
  {
    hide CheckStep;
    assert [step][1..] == [];
  }
}

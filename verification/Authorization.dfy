/** What re-authorising a plan guarantees, and exactly when a plan the router made is accepted. */
module Authorization {
  import opened Basics
  import opened Text
  import opened Clock
  import opened Types
  import opened Monitoring
  import opened PolicyRules
  import opened Sql
  import opened Routing
  import Paths

  // ----------------------------------------------------------------- soundness

  /** The fixed caps on what a step may ask for, by intent. */
  predicate WithinCaps(intent: Intent, limit: int) {
    match intent
    case FleetInventory => limit == FLEET_INVENTORY_LIMIT
    case MonitoringProblems | MonitoringHistory => 1 <= limit <= MAX_MONITORING_LIMIT
    case DatabaseQuery => limit == MAX_QUERY_ROWS
    case TicketsOpen | TicketsByHost => limit == TICKET_SEARCH_LIMIT
    case _ => limit == 0
  }

  /** The step carries out one validated resource, field for field. */
  predicate Grants(resource: Resource, step: RouteStep) {
    && ValidResource(resource)
    && step == RouteStep(SROIAAA, OperationsExecute, host := step.host,
      operation := resource.operation, target := Some(resource.path), params := resource.params)
  }

  /** The step is what policy grants this host under one of its aliases, and nothing more. */
  ghost predicate GrantedTo(policy: Policy, step: RouteStep)
    requires policy.liveHosts.Some? && policy.resources.Some?
  {
    && step.host in policy.liveHosts.value
    && (exists alias :: alias in policy.liveHosts.value[step.host] && alias in policy.resources.value
          && Grants(policy.resources.value[alias], step))
  }

  /** Any plan the router itself makes has one step, from the intent's source, within the caps. */
  lemma PlannedShape(lib: Library, router: Router, request: RouteRequest, at: Reading)
    requires Plan(lib, router, request, at).Ok?
    ensures var plan := Plan(lib, router, request, at).value;
      && plan.version == PLAN_VERSION && plan.intent == request.intent && |plan.steps| == 1
      && SourceForIntent(plan.intent) == Some(plan.steps[0].source)
      && WithinCaps(plan.intent, plan.steps[0].limit)
      && (plan.intent.DatabaseQuery? <==> plan.steps[0].query != "")
      && (plan.intent.DatabaseQuery? ==> ValidateQuery(lib.runes, plan.steps[0].query).Ok?)
      && (!plan.intent.LiveEvidence? ==>
            plan.steps[0].operation == NoOperation && plan.steps[0].target == None && plan.steps[0].params == None)
  {
    hide ParseSince, ParseUntil, ValidHostSelector, ValidResourceName, SeverityFloor, MatchAccepted, StateAccepted,
      Normalize, Stamp;
    if request.intent.DatabaseQuery? {
      ValidationIgnoresPadding(lib.runes, request.query);
    }
  }

  predicate TakesBounds(intent: Intent) {
    intent.MonitoringProblems? || intent.MonitoringHistory? || intent.TicketsOpen? || intent.TicketsByHost?
  }

  /** Every field of an accepted request but the query is honoured: what it asked for is in the step,
      normalised, or the field was empty. A field an intent cannot honour gets the request refused. */
  lemma RequestReachesPlan(lib: Library, router: Router, request: RouteRequest, at: Reading)
    requires Plan(lib, router, request, at).Ok?
    ensures |Plan(lib, router, request, at).value.steps| == 1 && ResolveWindow(lib, request, at).Ok?
    ensures var step := Plan(lib, router, request, at).value.steps[0];
      var window := ResolveWindow(lib, request, at).value;
      && step.host == request.host && step.pattern == request.pattern
      && step.severity == (if request.severity == "" then "" else Normalize(lib.runes, request.severity))
      && step.state == (if request.state == "" then "" else Normalize(lib.runes, request.state))
      && (if TakesSelectors(request.intent) then ResolveLimit(request.limit) == Some(step.limit) else request.limit == 0)
      && (if TakesBounds(request.intent)
          then step.since == Stamp(lib, window.0) && step.until == Stamp(lib, window.1)
          else request.since == "" && request.until == "" && step.since == "" && step.until == "")
      && (request.intent.DatabaseQuery? ==> step.query == TrimSpace(request.query))
      && (if request.intent.LiveEvidence? then
            && request.host in router.liveHosts && request.resource in router.liveHosts[request.host]
            && var resource := Lookup(router.resources, request.resource);
              step.operation == resource.operation && step.target == Some(resource.path) && step.params == resource.params
          else request.resource == "")
  {
    hide ParseSince, ParseUntil, ValidHostSelector, ValidResourceName, ValidateQuery, SeverityFloor, MatchAccepted,
      StateAccepted, Normalize, TrimSpace, ResolveLimit, Stamp;
    match request.intent
    case LiveEvidence => assert Plan(lib, router, request, at) == PlanLiveEvidence(lib, router, request);
    case MonitoringProblems => assert MonitoringSelectors(lib.runes, request, false).Ok?;
    case MonitoringHistory => assert MonitoringSelectors(lib.runes, request, true).Ok?;
    case _ =>
  }

  /** The query is the exception. Only database.query reads it; any other intent accepts a request
      that carries one and plans as if it did not. */
  lemma QueryIsIgnoredElsewhere(lib: Library, router: Router, request: RouteRequest, query: string, at: Reading)
    requires !request.intent.DatabaseQuery?
    ensures Plan(lib, router, request.(query := query), at) == Plan(lib, router, request, at)
  {
    hide ParseSince, ParseUntil, ValidHostSelector, ValidResourceName, MonitoringSelectors;
    SelectorsIgnoreTheQuery(lib.runes, request, query, true);
    SelectorsIgnoreTheQuery(lib.runes, request, query, false);
  }

  lemma SelectorsIgnoreTheQuery(t: Runes, request: RouteRequest, query: string, allowState: bool)
    ensures MonitoringSelectors(t, request.(query := query), allowState) == MonitoringSelectors(t, request, allowState)
  {}

  /** Live plans carry a resource that policy lists for their host. */
  lemma LivePlanIsGranted(lib: Library, router: Router, policy: Policy, request: RouteRequest, at: Reading)
    requires BuiltFrom(lib.runes, router, policy)
    requires request.intent.LiveEvidence? && Plan(lib, router, request, at).Ok?
    ensures GrantedTo(policy, Plan(lib, router, request, at).value.steps[0])
  {
    assert PlanLiveEvidence(lib, router, request).Ok?;
    assert request.resource in Members(policy.liveHosts.value[request.host]);
    assert ValidListing(policy.resources.value.Keys, policy.liveHosts.value[request.host]);
  }

  /** Whatever plan is submitted, acceptance means: the current version, one step, the intent's own
      source, capped limits, a single validated read for a query, and for live evidence exactly an
      operation, path and parameters that policy lists for that host. */
  lemma AcceptedPlansAreWithinPolicy(lib: Library, router: Router, policy: Policy, plan: RoutePlan, at: Reading)
    requires BuiltFrom(lib.runes, router, policy)
    requires Authorized(lib, router, plan, at)
    ensures plan.version == PLAN_VERSION && |plan.steps| == 1
    ensures SourceForIntent(plan.intent) == Some(plan.steps[0].source)
    ensures WithinCaps(plan.intent, plan.steps[0].limit)
    ensures plan.intent.DatabaseQuery? ==> ValidateQuery(lib.runes, plan.steps[0].query).Ok?
    ensures plan.intent.LiveEvidence? ==> GrantedTo(policy, plan.steps[0])
  {
    var request :| IsCandidate(router, plan, request) && Plan(lib, router, request, at) == Ok(plan);
    PlannedShape(lib, router, request, at);
    if plan.intent.LiveEvidence? {
      LivePlanIsGranted(lib, router, policy, request, at);
    }
  }

  /** What policy can grant is a bounded read: one of four operations, on a canonical absolute path, of
      at most 65536 bytes or 256 entries, and nothing for a stat. */
  lemma LiveStepsAreBoundedReads(policy: Policy, step: RouteStep)
    requires policy.liveHosts.Some? && policy.resources.Some? && GrantedTo(policy, step)
    ensures step.target.Some? && Paths.Canonical(step.target.value)
    ensures Paths.AreComponents(Paths.Components(step.target.value))
    ensures match step.operation
      case FilesystemRead =>
        step.params.Some? && 1 <= step.params.value.maxBytes <= 65536 && step.params.value.offset >= 0
      case FilesystemTail =>
        step.params.Some? && 1 <= step.params.value.maxBytes <= 65536 && step.params.value.offset == 0
      case FilesystemList =>
        step.params.Some? && 1 <= step.params.value.maxEntries <= 256 && step.params.value.maxBytes == 0
      case FilesystemStat => step.params.Some? ==> step.params.value == OperationParams(0, 0, 0)
      case _ => false
  {
    Paths.CleanIsCanonical(step.target.value);
  }

  /** A host that reaches a step needs no escaping where it is quoted into a ticket search: it holds no
      quote, and of ASCII nothing but letters, digits, dots, dashes and underscores. */
  lemma PlannedHostsNeedNoEscaping(lib: Library, router: Router, request: RouteRequest, at: Reading)
    requires Plan(lib, router, request, at).Ok?
    ensures |Plan(lib, router, request, at).value.steps| == 1
    ensures var host := Plan(lib, router, request, at).value.steps[0].host;
      forall i :: 0 <= i < |host| && Ascii(host[i]) ==>
        'a' <= host[i] <= 'z' || 'A' <= host[i] <= 'Z' || '0' <= host[i] <= '9'
        || host[i] == '.' || host[i] == '-' || host[i] == '_'
  {
    RequestReachesPlan(lib, router, request, at);
  }

  /** Fields the router derives cannot be edited: of all plans that read back to the same request,
      at most one is accepted. */
  lemma DerivedFieldsAreFixed(lib: Library, router: Router, plan: RoutePlan, edited: RoutePlan, at: Reading)
    requires Authorized(lib, router, plan, at) && Authorized(lib, router, edited, at)
    requires plan.intent == edited.intent && !plan.intent.LiveEvidence?
    requires Rebuild(plan) == Rebuild(edited)
    ensures plan == edited
  {
    var request :| IsCandidate(router, plan, request) && Plan(lib, router, request, at) == Ok(plan);
    var again :| IsCandidate(router, edited, again) && Plan(lib, router, again, at) == Ok(edited);
    assert request == again;
  }

  // ---------------------------------------------------------------- round trip

  /** A bound a step carries is still acceptable at a reading of the clock. */
  predicate BoundHolds(lib: Library, text: string, now: Instant) {
    text == "" ||
    match lib.rfc3339(text)
    case Some(t) => InWindow(t, now) && t != ZERO_TIME
    case None => false
  }

  /** The bounds of a plan, as carried, still form an acceptable window at a later reading. */
  predicate StillCurrent(lib: Library, since: string, until: string, at: Reading) {
    && BoundHolds(lib, since, at.atSince)
    && BoundHolds(lib, until, at.atUntil)
    && (since != "" && until != "" ==> lib.rfc3339(since).value < lib.rfc3339(until).value)
  }

  /** Resolving the stamps a plan carries gives back those stamps exactly when they still hold. */
  lemma StampsResolveToThemselves(lib: Library, s: Instant, u: Instant, request: RouteRequest, at: Reading)
    requires lib.Lawful()
    requires request.since == Stamp(lib, s) && request.until == Stamp(lib, u)
    ensures StillCurrent(lib, request.since, request.until, at) <==>
      && ResolveWindow(lib, request, at).Ok?
      && Stamp(lib, ResolveWindow(lib, request, at).value.0) == request.since
      && Stamp(lib, ResolveWindow(lib, request, at).value.1) == request.until
  {
    ReadBack(lib, s, at.atSince);
    ReadBack(lib, u, at.atUntil);
    assert lib.IsStamp(lib.format(s)) && lib.IsStamp(lib.format(u));
    assert lib.format(WholeSecond(s)) == lib.format(s) && lib.format(WholeSecond(u)) == lib.format(u);
    assert lib.rfc3339(lib.format(s)) == if Printable(s) then Some(WholeSecond(s)) else None;
    assert lib.rfc3339(lib.format(u)) == if Printable(u) then Some(WholeSecond(u)) else None;
  }

  /** With its window resolved to the same stamps, the rebuilt request plans to the same plan. */
  lemma RebuiltRequestReplans(lib: Library, router: Router, request: RouteRequest, made: Reading, plan: RoutePlan)
    requires Plan(lib, router, request, made) == Ok(plan)
    requires !request.intent.LiveEvidence?
    ensures |plan.steps| == 1
    ensures PlanIntent(lib, router, Rebuild(plan), plan.steps[0].since, plan.steps[0].until) == Ok(plan)
    ensures Rebuild(plan).since == plan.steps[0].since && Rebuild(plan).until == plan.steps[0].until
  {
    var again := Rebuild(plan);
    match request.intent
    case MonitoringProblems => SelectorsAreStable(lib.runes, request, again, false);
    case MonitoringHistory => SelectorsAreStable(lib.runes, request, again, true);
    case DatabaseQuery =>
      ValidationIgnoresPadding(lib.runes, request.query);
      TrimSpaceIdempotent(request.query);
    case _ =>
  }

  /** The bounds a step carries are stamps of the instants its request resolved to, or absent. */
  lemma CarriedBounds(lib: Library, router: Router, request: RouteRequest, made: Reading, plan: RoutePlan)
    requires Plan(lib, router, request, made) == Ok(plan)
    ensures |plan.steps| == 1 && ResolveWindow(lib, request, made).Ok?
    ensures var w := ResolveWindow(lib, request, made).value;
      && (plan.steps[0].since == Stamp(lib, w.0) || plan.steps[0].since == Stamp(lib, ZERO_TIME))
      && (plan.steps[0].until == Stamp(lib, w.1) || plan.steps[0].until == Stamp(lib, ZERO_TIME))
  {
    assert Stamp(lib, ZERO_TIME) == "";
    hide ParseSince, ParseUntil, ValidHostSelector, ValidResourceName, ValidateQuery, SeverityFloor, MatchAccepted,
      StateAccepted, Normalize, TrimSpace, ResolveLimit, Stamp;
  }

  /** A plan the router made is accepted at another reading of the clock exactly when the bounds it
      carries still hold there. Nothing else about it can stop being acceptable. */
  lemma RoundTrip(lib: Library, router: Router, request: RouteRequest, made: Reading, plan: RoutePlan, at: Reading)
    requires lib.Lawful()
    requires Plan(lib, router, request, made) == Ok(plan)
    ensures |plan.steps| == 1
    ensures Authorized(lib, router, plan, at) <==> StillCurrent(lib, plan.steps[0].since, plan.steps[0].until, at)
  {
    PlannedShape(lib, router, request, made);
    if request.intent.LiveEvidence? {
      LiveRoundTrip(lib, router, request, made, plan, at);
    } else {
      CarriedBounds(lib, router, request, made, plan);
      RebuiltRequestReplans(lib, router, request, made, plan);
      BoundedRoundTrip(lib, router, request, made, plan, at);
    }
  }

  lemma LiveRoundTrip(lib: Library, router: Router, request: RouteRequest, made: Reading, plan: RoutePlan, at: Reading)
    requires request.intent.LiveEvidence? && Plan(lib, router, request, made) == Ok(plan)
    ensures |plan.steps| == 1 && plan.steps[0].since == "" && plan.steps[0].until == ""
    ensures Authorized(lib, router, plan, at)
  {
    var candidate := LiveRequest(request.host, request.resource);
    assert PlanLiveEvidence(lib, router, candidate) == PlanLiveEvidence(lib, router, request);
    assert IsCandidate(router, plan, candidate);
    assert Plan(lib, router, candidate, at) == Ok(plan);
  }

  lemma BoundedRoundTrip(lib: Library, router: Router, request: RouteRequest, made: Reading, plan: RoutePlan, at: Reading)
    requires lib.Lawful()
    requires Plan(lib, router, request, made) == Ok(plan) && !request.intent.LiveEvidence?
    requires plan.intent == request.intent && plan.steps != []
    requires Rebuild(plan).since == plan.steps[0].since && Rebuild(plan).until == plan.steps[0].until
    requires exists s, u :: plan.steps[0].since == Stamp(lib, s) && plan.steps[0].until == Stamp(lib, u)
    requires PlanIntent(lib, router, Rebuild(plan), plan.steps[0].since, plan.steps[0].until) == Ok(plan)
    ensures Authorized(lib, router, plan, at) <==> StillCurrent(lib, plan.steps[0].since, plan.steps[0].until, at)
  {
    hide ParseSince, ParseUntil, ValidHostSelector, ValidateQuery, MonitoringSelectors, TrimSpace, StillCurrent, Stamp;
    NoBound(lib, at.atSince);
    NoBound(lib, at.atUntil);
    var again := Rebuild(plan);
    var s, u :| plan.steps[0].since == Stamp(lib, s) && plan.steps[0].until == Stamp(lib, u);
    StampsResolveToThemselves(lib, s, u, again, at);
    assert IsCandidate(router, plan, again);
    if StillCurrent(lib, again.since, again.until, at) {
      assert Plan(lib, router, again, at) == Ok(plan);
    }
  }

  /** An accepted plan of whatever origin carries bounds that hold at the reading that accepted it,
      and from then on it is accepted exactly while they hold. */
  lemma AcceptedPlansStayAcceptedWhileCurrent(
      lib: Library, router: Router, plan: RoutePlan, at: Reading, other: Reading)
    requires lib.Lawful()
    requires Authorized(lib, router, plan, at)
    ensures plan.steps != []
    ensures StillCurrent(lib, plan.steps[0].since, plan.steps[0].until, at)
    ensures Authorized(lib, router, plan, other) <==>
      StillCurrent(lib, plan.steps[0].since, plan.steps[0].until, other)
  {
    var request :| IsCandidate(router, plan, request) && Plan(lib, router, request, at) == Ok(plan);
    RoundTrip(lib, router, request, at, plan, at);
    RoundTrip(lib, router, request, at, plan, other);
  }

  /** A bound at least a second inside the age limit, and not ahead of the clock, still holds once it
      has been cut to its second. */
  lemma RecentBoundHolds(lib: Library, t: Instant, now: Instant)
    requires lib.Lawful()
    requires t == ZERO_TIME || (now - t <= MAX_SINCE_AGE - SECOND && t <= now + MINUTE)
    requires ZERO_TIME + MAX_SINCE_AGE <= now < YEAR_TEN_THOUSAND - MINUTE
    ensures BoundHolds(lib, Stamp(lib, t), now)
  {
    StampReads(lib, t);
    WholeSecondBounds(t);
  }

  /** The usual case. A plan whose since is at least a second inside the age limit, whose window is
      at least a second long and whose until is not ahead of the clock is accepted at once, and at
      every later reading for as long as its bounds stay a second inside the age limit. */
  lemma RecentPlansAreAccepted(
      lib: Library, router: Router, request: RouteRequest, made: Reading, plan: RoutePlan, at: Reading)
    requires lib.Lawful()
    requires Plan(lib, router, request, made) == Ok(plan)
    requires made.atSince <= at.atSince && made.atUntil <= at.atUntil
    requires ZERO_TIME + MAX_SINCE_AGE <= at.atSince < YEAR_TEN_THOUSAND - MINUTE
    requires ZERO_TIME + MAX_SINCE_AGE <= at.atUntil < YEAR_TEN_THOUSAND - MINUTE
    requires var (since, until) := ResolveWindow(lib, request, made).value;
      && (since == ZERO_TIME || at.atSince - since <= MAX_SINCE_AGE - SECOND)
      && (until == ZERO_TIME || (at.atUntil - until <= MAX_SINCE_AGE - SECOND && until <= made.atUntil + MINUTE))
      && (since == ZERO_TIME || until == ZERO_TIME || since + SECOND <= until)
    ensures Authorized(lib, router, plan, at)
  {
    hide PlanIntent, Authorized, BoundHolds;
    var (since, until) := ResolveWindow(lib, request, made).value;
    SinceIsBounded(lib, request.since, made.atSince);
    RoundTrip(lib, router, request, made, plan, at);
    CarriedBounds(lib, router, request, made, plan);
    RecentBoundHolds(lib, since, at.atSince);
    RecentBoundHolds(lib, until, at.atUntil);
    RecentBoundHolds(lib, ZERO_TIME, at.atSince);
    RecentBoundHolds(lib, ZERO_TIME, at.atUntil);
    if since + SECOND <= until {
      StampsKeepOrder(lib, since, until);
    }
  }

  lemma StampsKeepOrder(lib: Library, s: Instant, u: Instant)
    requires lib.Lawful() && s + SECOND <= u
    ensures lib.rfc3339(lib.format(s)).Some? && lib.rfc3339(lib.format(u)).Some? ==>
      lib.rfc3339(lib.format(s)).value < lib.rfc3339(lib.format(u)).value
  {
    StampReads(lib, s);
    StampReads(lib, u);
    WholeSecondBounds(s);
    assert WholeSecond(u) >= WholeSecond(s + SECOND) == WholeSecond(s) + SECOND;
  }

  // ------------------------------------------------------------ counterexamples

  /** A ticket search is re-accepted on the spot exactly when its own stamps pass the clock. */
  lemma TicketPlanOnTheSpot(lib: Library, router: Router, since: string, until: string, now: Instant, s: Instant, u: Instant)
    requires lib.Lawful()
    requires ParseSince(lib, since, now) == Ok(s) && ParseUntil(lib, until, now) == Ok(u)
    requires s == ZERO_TIME || u == ZERO_TIME || s < u
    ensures var request, at := RouteRequest(TicketsOpen, since := since, until := until), Reading(now, now);
      && Plan(lib, router, request, at).Ok?
      && (Authorized(lib, router, Plan(lib, router, request, at).value, at)
          <==> StillCurrent(lib, Stamp(lib, s), Stamp(lib, u), at))
  {
    hide ParseSince, ParseUntil, Authorized, StillCurrent, Stamp;
    var request, at := RouteRequest(TicketsOpen, since := since, until := until), Reading(now, now);
    var plan := Plan(lib, router, request, at).value;
    assert ResolveWindow(lib, request, at) == Ok((s, u));
    RoundTrip(lib, router, request, at, plan, at);
  }

  /** How a non-zero bound reads back from a plan. */
  lemma StampReads(lib: Library, t: Instant)
    requires lib.Lawful()
    ensures lib.format(t) != ""
    ensures lib.rfc3339(lib.format(t)) == if Printable(t) then Some(WholeSecond(t)) else None
  {
    assert lib.IsStamp(lib.format(t));
  }

  /** "until: today" plans, and is re-accepted on the spot exactly when at most a minute of the day is
      left: the end of the day is ahead of the clock, and only re-planning compares the two. */
  lemma UntilTodayIsRefused(lib: Library, router: Router, now: Instant)
    requires lib.Lawful() && lib.date("today") == None
    requires var dayEnd := lib.addDays(lib.midnight(now), 1);
      now <= dayEnd && ZERO_TIME + SECOND <= dayEnd
    ensures var request, at := RouteRequest(TicketsOpen, until := "today"), Reading(now, now);
      var dayEnd := lib.addDays(lib.midnight(now), 1);
      && Plan(lib, router, request, at).Ok?
      && (Authorized(lib, router, Plan(lib, router, request, at).value, at)
          <==> Printable(dayEnd) && WholeSecond(dayEnd) <= now + MINUTE)
  {
    var dayEnd := lib.addDays(lib.midnight(now), 1);
    UntilTodayIsTheDaysEnd(lib, now);
    NoBound(lib, now);
    hide Plan, Authorized, ParseSince, ParseUntil, BoundHolds;
    TicketPlanOnTheSpot(lib, router, "", "today", now, ZERO_TIME, dayEnd);
    FutureBoundHolds(lib, dayEnd, now);
  }

  lemma UntilTodayIsTheDaysEnd(lib: Library, now: Instant)
    requires lib.date("today") == None
    ensures ParseUntil(lib, "today", now) == Ok(lib.addDays(lib.midnight(now), 1))
  {
    PlainWord(lib, "today");
  }

  lemma FutureBoundHolds(lib: Library, t: Instant, now: Instant)
    requires lib.Lawful() && now <= t && ZERO_TIME + SECOND <= t
    ensures BoundHolds(lib, Stamp(lib, t), now) <==> Printable(t) && WholeSecond(t) <= now + MINUTE
  {
    StampReads(lib, t);
    WholeSecondBounds(t);
  }

  /** A window plans, and is re-accepted on the spot exactly when its ends lie in different seconds: a
      plan carries whole seconds, so a window inside one is empty once it is read back. */
  lemma SubSecondWindowIsRefused(
      lib: Library, router: Router, now: Instant, since: string, until: string, s: Instant, u: Instant)
    requires lib.Lawful()
    requires ParseSince(lib, since, now) == Ok(s) && ParseUntil(lib, until, now) == Ok(u)
    requires ZERO_TIME + SECOND <= s < u <= now + MINUTE && now - s <= MAX_SINCE_AGE - SECOND && u < YEAR_TEN_THOUSAND
    ensures var request, at := RouteRequest(TicketsOpen, since := since, until := until), Reading(now, now);
      && Plan(lib, router, request, at).Ok?
      && (Authorized(lib, router, Plan(lib, router, request, at).value, at) <==> WholeSecond(s) < WholeSecond(u))
  {
    hide Plan, Authorized, ParseSince, ParseUntil;
    TicketPlanOnTheSpot(lib, router, since, until, now, s, u);
    StampReads(lib, s);
    StampReads(lib, u);
    WholeSecondBounds(s);
    WholeSecondBounds(u);
  }

  /** A since exactly at the age limit plans, and is refused on the spot unless it falls on a whole
      second: its stamp reaches further back than the limit. */
  lemma OldestSinceIsRefused(lib: Library, router: Router, now: Instant, since: string)
    requires lib.Lawful()
    requires ParseSince(lib, since, now) == Ok(now - MAX_SINCE_AGE)
    requires now > ZERO_TIME + MAX_SINCE_AGE + SECOND && now < YEAR_TEN_THOUSAND
    ensures var request, at := RouteRequest(TicketsOpen, since := since), Reading(now, now);
      && Plan(lib, router, request, at).Ok?
      && (Authorized(lib, router, Plan(lib, router, request, at).value, at) <==> now % SECOND == 0)
  {
    var s := now - MAX_SINCE_AGE;
    NoBound(lib, now);
    hide Plan, Authorized, ParseSince, ParseUntil, BoundHolds;
    TicketPlanOnTheSpot(lib, router, since, "", now, s, ZERO_TIME);
    AgedBoundHolds(lib, now);
  }

  lemma NoBound(lib: Library, now: Instant)
    ensures ParseUntil(lib, "", now) == Ok(ZERO_TIME) == ParseSince(lib, "", now)
    ensures Stamp(lib, ZERO_TIME) == "" && BoundHolds(lib, "", now)
  {}

  lemma AgedBoundHolds(lib: Library, now: Instant)
    requires lib.Lawful() && now > ZERO_TIME + MAX_SINCE_AGE + SECOND && now < YEAR_TEN_THOUSAND
    ensures BoundHolds(lib, Stamp(lib, now - MAX_SINCE_AGE), now) <==> now % SECOND == 0
  {
    var s := now - MAX_SINCE_AGE;
    StampReads(lib, s);
    WholeSecondBounds(s);
    assert MAX_SINCE_AGE % SECOND == 0;
  }

  /** An until that was asked for is not in the plan exactly when it resolves to Go's zero time, as the
      eve of that day does; the plan is then the one made without it. */
  lemma UntilZeroTimeIsDropped(lib: Library, router: Router, request: RouteRequest, at: Reading)
    requires lib.Lawful() && TakesBounds(request.intent) && request.until != ""
    requires Plan(lib, router, request, at).Ok?
    ensures |Plan(lib, router, request, at).value.steps| == 1
    ensures Plan(lib, router, request, at).value.steps[0].until == "" <==> ParseUntil(lib, request.until, at.atUntil) == Ok(ZERO_TIME)
    ensures ParseUntil(lib, request.until, at.atUntil) == Ok(ZERO_TIME) ==>
      Plan(lib, router, request, at) == Plan(lib, router, request.(until := ""), at)
  {
    RequestReachesPlan(lib, router, request, at);
    StampReads(lib, ResolveWindow(lib, request, at).value.1);
    if ParseUntil(lib, request.until, at.atUntil) == Ok(ZERO_TIME) {
      UntilOnlyBounds(lib, router, request, at);
    }
  }

  /** Of an intent that takes bounds, planning reads the until only to resolve it. */
  lemma UntilOnlyBounds(lib: Library, router: Router, request: RouteRequest, at: Reading)
    requires TakesBounds(request.intent) && ParseUntil(lib, request.until, at.atUntil) == Ok(ZERO_TIME)
    ensures Plan(lib, router, request, at) == Plan(lib, router, request.(until := ""), at)
  {
    hide ParseSince, ValidHostSelector, SeverityFloor, MatchAccepted, StateAccepted, Normalize, TrimSpace, ResolveLimit, Stamp;
    var without := request.(until := "");
    assert ParseUntil(lib, "", at.atUntil) == Ok(ZERO_TIME);
    assert ResolveWindow(lib, request, at) == ResolveWindow(lib, without, at);
    assert MonitoringSelectors(lib.runes, request, true) == MonitoringSelectors(lib.runes, without, true);
    assert MonitoringSelectors(lib.runes, request, false) == MonitoringSelectors(lib.runes, without, false);
  }
}

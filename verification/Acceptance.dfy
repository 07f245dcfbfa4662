/** Exactly which requests are planned, which names and policies are valid, and which steps a connector
    takes up: each condition spelled out on the texts themselves. */
module Acceptance {
  import opened Basics
  import opened Text
  import opened Clock
  import opened Types
  import opened Monitoring
  import opened PolicyRules
  import opened Sql
  import opened Routing
  import opened Authorization
  import opened Execution
  import Paths

  // --------------------------------------------------------------------------- names

  /** A host's name: one to 253 bytes of letters, digits, dots, dashes and underscores, with no white
      space at either end. */
  ghost predicate NamesAHost(t: Runes, host: string) {
    && 1 <= ByteLen(host) <= 253
    && (host != "" ==> !IsSpace(host[0]) && !IsSpace(host[|host| - 1]))
    && forall c :: c in host ==> IsLetter(t, c) || IsDigit(t, c) || c == '.' || c == '-' || c == '_'
  }

  /** A resource's alias: one to 64 bytes of lower-case letters, digits, dots, dashes and underscores. */
  ghost predicate NamesAResource(t: Runes, name: string) {
    && 1 <= ByteLen(name) <= 64
    && forall c :: c in name ==> IsLower(t, c) || IsDigit(t, c) || c == '.' || c == '-' || c == '_'
  }

  lemma NonEmptyHasBytes(s: string)
    ensures ByteLen(s) >= 1 <==> s != ""
  {}

  lemma HostsAreNamed(t: Runes, host: string)
    ensures ValidHostSelector(t, host) <==> NamesAHost(t, host)
    ensures NamesAHost(t, host) ==> host != ""
  {
    hide IsLetter, IsDigit, IsSpace, ByteLen, TrimSpace;
    NonEmptyHasBytes(host);
    TrimSpaceFixed(host);
    forall i | 0 <= i < |host|
      ensures host[i] in host
    {}
  }

  lemma ResourcesAreNamed(t: Runes, name: string)
    ensures ValidResourceName(t, name) <==> NamesAResource(t, name)
    ensures NamesAResource(t, name) ==> name != ""
  {
    hide IsLower, IsDigit, ByteLen;
    NonEmptyHasBytes(name);
    forall i | 0 <= i < |name|
      ensures name[i] in name
    {}
  }

  predicate PlainName(name: string, capitals: bool) {
    forall i :: 0 <= i < |name| ==>
      'a' <= name[i] <= 'z' || '0' <= name[i] <= '9' || name[i] == '.' || name[i] == '-' || name[i] == '_'
      || (capitals && 'A' <= name[i] <= 'Z')
  }

  /** Of ASCII names, whatever the Unicode tables say: hosts are those of letters in either case, digits
      and three marks, up to 253 of them; aliases the same in lower case, up to 64. */
  lemma AsciiNames(t: Runes, name: string)
    requires forall i :: 0 <= i < |name| ==> Ascii(name[i])
    ensures ValidHostSelector(t, name) <==> 1 <= |name| <= 253 && PlainName(name, true)
    ensures ValidResourceName(t, name) <==> 1 <= |name| <= 64 && PlainName(name, false)
  {
    AsciiLength(name);
    TrimSpaceFixed(name);
  }

  // ------------------------------------------------------------------------- policies

  /** What a resource may be, operation by operation. */
  ghost predicate ReadsSafely(resource: Resource) {
    && Paths.Canonical(resource.path)
    && var p := if resource.params.Some? then resource.params.value else OperationParams(0, 0, 0);
      match resource.operation
      case FilesystemList => p.offset == 0 && p.maxBytes == 0 && 1 <= p.maxEntries <= 256
      case FilesystemStat => p.offset == 0 && p.maxBytes == 0 && p.maxEntries == 0
      case FilesystemRead => p.offset >= 0 && 1 <= p.maxBytes <= 65536 && p.maxEntries == 0
      case FilesystemTail => p.offset == 0 && 1 <= p.maxBytes <= 65536 && p.maxEntries == 0
      case _ => false
  }

  /** A router is built from a policy exactly when it is of version 1, names its resources and hosts as
      they may be named, lets each resource read safely, and lists for each host known resources, none
      twice. */
  lemma PoliciesAccepted(t: Runes, policy: Policy)
    ensures ValidPolicy(t, policy) <==>
      && policy.version == 1 && policy.liveHosts.Some? && policy.resources.Some?
      && (forall name :: name in policy.resources.value ==>
            NamesAResource(t, name) && ReadsSafely(policy.resources.value[name]))
      && (forall host :: host in policy.liveHosts.value ==>
            var listed := policy.liveHosts.value[host];
            && NamesAHost(t, host)
            && (forall alias :: alias in listed ==> alias in policy.resources.value)
            && |Members(listed)| == |listed|)
  {
    if policy.liveHosts.Some? && policy.resources.Some? {
      var resources, hosts := policy.resources.value, policy.liveHosts.value;
      forall name | name in resources
        ensures ValidResourceName(t, name) <==> NamesAResource(t, name)
        ensures ValidResource(resources[name]) <==> ReadsSafely(resources[name])
      {
        ResourcesAreNamed(t, name);
        ResourcesReadSafely(resources[name]);
      }
      forall host | host in hosts
        ensures ValidHostSelector(t, host) <==> NamesAHost(t, host)
        ensures ValidListing(resources.Keys, hosts[host]) <==>
          (forall alias :: alias in hosts[host] ==> alias in resources) && |Members(hosts[host])| == |hosts[host]|
      {
        HostsAreNamed(t, host);
        ListingIsDistinct(hosts[host]);
      }
    }
    hide ValidResourceName, NamesAResource, ValidResource, ReadsSafely, ValidHostSelector, NamesAHost, ValidListing, Members;
  }

  lemma ResourcesReadSafely(resource: Resource)
    ensures ValidResource(resource) <==> ReadsSafely(resource)
  {
    hide Paths.Clean, Paths.IsAbs;
  }

  /** A list has no repeats exactly when it has as many members as entries. */
  lemma {:induction false} ListingIsDistinct(listed: seq<string>)
    ensures |Members(listed)| <= |listed|
    ensures |Members(listed)| == |listed| <==> forall i, j :: 0 <= i < j < |listed| ==> listed[i] != listed[j]
  {
    if listed != [] {
      var n := |listed| - 1;
      ListingIsDistinct(listed[..n]);
      assert listed == listed[..n] + [listed[n]];
      assert Members(listed) == Members(listed[..n]) + {listed[n]};
      if listed[n] in listed[..n] {
        var i :| 0 <= i < n && listed[..n][i] == listed[n];
        assert listed[i] == listed[n] && Members(listed) == Members(listed[..n]);
      } else {
        assert |Members(listed)| == |Members(listed[..n])| + 1;
        forall i, j | 0 <= i < j < |listed|
          ensures listed[i] != listed[j] <==> j == n || listed[..n][i] != listed[..n][j]
        {
          assert listed[i] == listed[..n][i] && listed[i] in listed[..n];
        }
      }
    }
  }

  // ------------------------------------------------------------------------- requests

  /** A request that carries no filter and no page size. */
  predicate NoFilters(request: RouteRequest) {
    request.pattern == "" && request.severity == "" && request.state == "" && request.limit == 0
  }

  /** A match text a monitoring request may carry, if any: bare at both ends, at most 96 bytes, and
      free of control characters. */
  ghost predicate MatchFits(pattern: string) {
    pattern == "" ||
    (&& !IsSpace(pattern[0]) && !IsSpace(pattern[|pattern| - 1])
     && ByteLen(pattern) <= 96
     && forall c :: c in pattern ==> !IsControl(c))
  }

  ghost predicate SeverityFits(t: Runes, severity: string) {
    severity == "" ||
    Normalize(t, severity) in {"not classified", "information", "warning", "average", "high", "disaster"}
  }

  ghost predicate StateFits(t: Runes, state: string) {
    state == "" || Normalize(t, state) == "problem" || Normalize(t, state) == "resolved"
  }

  /** A query whose text, once trimmed, has 1 to 8192 bytes, no control characters but white space,
      begins with one of two keywords in whatever case, and has no separator that more than separators
      and blanks follow. */
  ghost predicate QueryReads(t: Runes, query: string) {
    var text := TrimSpace(query);
    && 1 <= ByteLen(text) <= 8192
    && (forall c :: c in text && IsControl(c) ==> c == '\n' || c == '\r' || c == '\t')
    && ("select" <= Lower(t, text) || "with" <= Lower(t, text))
    && forall i, j :: 0 <= i <= j < |text| && text[i] == ';' ==> text[j] in {';', ' ', '\t', '\n', '\r'}
  }

  lemma QueriesRead(t: Runes, query: string)
    ensures ValidateQuery(t, query).Ok? <==> QueryReads(t, query)
  {
    hide TrimSpace, ByteLen, Lower, TrimRight, IsControl;
    var text := TrimSpace(query);
    NonEmptyHasBytes(text);
    SeparatorsTrail(text);
    NulIsControl();
    assert forall c :: c in text ==> exists i :: 0 <= i < |text| && text[i] == c;
    assert forall i :: 0 <= i < |text| ==> text[i] in text;
  }

  lemma NulIsControl()
    ensures IsControl('\0')
  {}

  lemma SeparatorsTrail(text: string)
    ensures ';' !in TrimRight(text, Trailer) <==>
      forall i, j :: 0 <= i <= j < |text| && text[i] == ';' ==> text[j] in {';', ' ', '\t', '\n', '\r'}
  {
    TrimRightIsPrefix(text, Trailer);
    hide TrimRight;
    var kept := TrimRight(text, Trailer);
    if i :| 0 <= i < |kept| && kept[i] == ';' {
      assert text[i] == ';' && text[|kept| - 1] == kept[|kept| - 1] && !Trailer(text[|kept| - 1]);
    }
    if ';' !in kept {
      forall i | 0 <= i < |kept|
        ensures text[i] != ';'
      {
        assert text[i] == kept[i] && kept[i] in kept;
      }
    }
  }

  lemma FiltersFit(t: Runes, request: RouteRequest)
    ensures MatchFits(request.pattern) <==> request.pattern == "" || MatchAccepted(request.pattern)
    ensures SeverityFits(t, request.severity) <==> request.severity == "" || SeverityFloor(t, request.severity).Some?
    ensures StateFits(t, request.state) <==> request.state == "" || StateAccepted(t, request.state)
    ensures ResolveLimit(request.limit).Some? <==> 0 <= request.limit <= 200
  {
    hide ByteLen, TrimSpace, IsControl, IsSpace, Normalize;
    TrimSpaceFixed(request.pattern);
    assert forall i :: 0 <= i < |request.pattern| ==> request.pattern[i] in request.pattern;
  }

  /** The bounds of a request as they resolve, when they do and in order. */
  ghost predicate WindowIs(lib: Library, request: RouteRequest, at: Reading, since: Instant, until: Instant) {
    && ParseSince(lib, request.since, at.atSince) == Ok(since)
    && ParseUntil(lib, request.until, at.atUntil) == Ok(until)
    && (since == ZERO_TIME || until == ZERO_TIME || since < until)
  }

  /** What each intent asks of a request besides bounds that resolve in order. */
  ghost predicate MayAsk(t: Runes, router: Router, request: RouteRequest, since: Instant) {
    var noBounds := request.since == "" && request.until == "";
    match request.intent
    case FleetInventory => NoFilters(request) && request.host == "" && request.resource == "" && noBounds
    case AgentStatus => NoFilters(request) && NamesAHost(t, request.host) && request.resource == "" && noBounds
    case MonitoringProblems =>
      && (request.host == "" || NamesAHost(t, request.host)) && request.resource == ""
      && MatchFits(request.pattern) && SeverityFits(t, request.severity) && request.state == "" && 0 <= request.limit <= 200
    case MonitoringHistory =>
      && (request.host == "" || NamesAHost(t, request.host)) && request.resource == "" && since != ZERO_TIME
      && MatchFits(request.pattern) && SeverityFits(t, request.severity) && StateFits(t, request.state)
      && 0 <= request.limit <= 200
    case LiveEvidence =>
      && NoFilters(request) && NamesAHost(t, request.host) && NamesAResource(t, request.resource) && noBounds
      && request.host in router.liveHosts && request.resource in router.liveHosts[request.host]
    case DatabaseQuery =>
      NoFilters(request) && request.host == "" && request.resource == "" && noBounds && QueryReads(t, request.query)
    case TicketsOpen => NoFilters(request) && request.host == "" && request.resource == ""
    case TicketsByHost => NoFilters(request) && NamesAHost(t, request.host) && request.resource == ""
    case Unlisted(_) => false
  }

  lemma SelectorsFit(t: Runes, request: RouteRequest, allowState: bool)
    ensures MonitoringSelectors(t, request, allowState).Ok? <==>
      && MatchFits(request.pattern) && SeverityFits(t, request.severity)
      && (if allowState then StateFits(t, request.state) else request.state == "")
      && 0 <= request.limit <= 200
  {
    FiltersFit(t, request);
    hide MatchFits, SeverityFits, StateFits, MatchAccepted, SeverityFloor, StateAccepted, Normalize, ResolveLimit;
  }

  lemma LiveAccepts(lib: Library, router: Router, request: RouteRequest)
    ensures PlanLiveEvidence(lib, router, request).Ok? <==>
      && NamesAHost(lib.runes, request.host) && NamesAResource(lib.runes, request.resource)
      && request.since == "" && request.until == ""
      && request.host in router.liveHosts && request.resource in router.liveHosts[request.host]
  {
    hide ValidHostSelector, ValidResourceName, NamesAHost, NamesAResource;
    HostsAreNamed(lib.runes, request.host);
    ResourcesAreNamed(lib.runes, request.resource);
  }

  lemma HostOnlyAccepts(lib: Library, request: RouteRequest)
    ensures RequireHostOnly(lib, request).Ok? <==> NamesAHost(lib.runes, request.host) && request.resource == ""
  {
    hide ValidHostSelector, NamesAHost;
    HostsAreNamed(lib.runes, request.host);
  }

  lemma IntentAccepts(lib: Library, router: Router, request: RouteRequest, since: Instant, until: Instant)
    requires lib.Lawful()
    ensures (TakesSelectors(request.intent) || NoFilters(request))
        && PlanIntent(lib, router, request, Stamp(lib, since), Stamp(lib, until)).Ok?
      <==> MayAsk(lib.runes, router, request, since)
  {
    StampReads(lib, since);
    assert Stamp(lib, since) == "" <==> since == ZERO_TIME;
    hide ValidHostSelector, ValidateQuery, MatchFits, SeverityFits, StateFits, QueryReads, NamesAHost, NamesAResource,
      Stamp, TrimSpace, MonitoringSelectors, PlanLiveEvidence, RequireHostOnly;
    HostsAreNamed(lib.runes, request.host);
    match request.intent
    case LiveEvidence => LiveAccepts(lib, router, request);
    case MonitoringProblems => SelectorsFit(lib.runes, request, false);
    case MonitoringHistory => SelectorsFit(lib.runes, request, true);
    case DatabaseQuery => QueriesRead(lib.runes, request.query);
    case AgentStatus | TicketsByHost => HostOnlyAccepts(lib, request);
    case _ =>
  }

  /** Exactly which requests are planned, for every intent, policy and clock: those whose bounds resolve
      in order and that carry what their intent asks for and nothing else. */
  lemma RequestsAccepted(lib: Library, router: Router, request: RouteRequest, at: Reading)
    requires lib.Lawful()
    ensures Plan(lib, router, request, at).Ok? <==>
      exists since, until :: WindowIs(lib, request, at, since, until) && MayAsk(lib.runes, router, request, since)
  {
    hide ParseSince, ParseUntil, PlanIntent, MayAsk, Stamp;
    match ResolveWindow(lib, request, at)
    case Ok((since, until)) =>
      IntentAccepts(lib, router, request, since, until);
      assert WindowIs(lib, request, at, since, until);
    case Err(_) =>
  }

  /** And the step they are planned to: its source's action, and how much it may ask for. */
  lemma StepPlanned(lib: Library, router: Router, request: RouteRequest, at: Reading)
    requires Plan(lib, router, request, at).Ok?
    ensures var plan := Plan(lib, router, request, at).value;
      && plan.version == 1 && plan.intent == request.intent && |plan.steps| == 1
      && var step := plan.steps[0];
      match request.intent
      case FleetInventory => step.source == WazuhAPI && step.action == AgentsList && step.limit == 500
      case AgentStatus => step.source == WazuhAPI && step.action == AgentsStatus && step.limit == 0
      case MonitoringProblems =>
        step.source == ZabbixAPI && step.action == TriggerGet && step.limit == if request.limit == 0 then 25 else request.limit
      case MonitoringHistory =>
        step.source == ZabbixAPI && step.action == EventGet && step.limit == if request.limit == 0 then 25 else request.limit
      case DatabaseQuery => step.source == PegasusDB && step.action == QueryExecute && step.limit == 5000
      case LiveEvidence => step.source == SROIAAA && step.action == OperationsExecute && step.limit == 0
      case TicketsOpen | TicketsByHost => step.source == RequestTracker && step.action == TicketsSearch && step.limit == 100
      case Unlisted(_) => false
  {
    hide ParseSince, ParseUntil, ValidHostSelector, ValidResourceName, ValidateQuery, SeverityFloor, MatchAccepted,
      StateAccepted, Normalize, TrimSpace, Stamp;
  }

  /** Whatever policy lists for a host can be asked of it, at any time. */
  lemma ListedResourcesAreServed(lib: Library, router: Router, policy: Policy, host: string, alias: string, at: Reading)
    requires lib.Lawful() && BuiltFrom(lib.runes, router, policy)
    requires host in policy.liveHosts.value && alias in policy.liveHosts.value[host]
    ensures Plan(lib, router, LiveRequest(host, alias), at).Ok?
  {
    NoBound(lib, at.atSince);
    NoBound(lib, at.atUntil);
    hide NamesAHost, NamesAResource, Plan, ParseSince, ParseUntil, ReadsSafely, ValidPolicy;
    PoliciesAccepted(lib.runes, policy);
    var request := LiveRequest(host, alias);
    assert WindowIs(lib, request, at, ZERO_TIME, ZERO_TIME);
    assert alias in router.liveHosts[host];
    RequestsAccepted(lib, router, request, at);
  }

  const LOG := Resource(FilesystemTail, "/var/log", Some(OperationParams(0, 4096, 0)))
  const ROOT_LIST := Resource(FilesystemList, "/", Some(OperationParams(0, 0, 256)))
  const WEB := "Web-01.example"

  /** A policy of one host and two resources, written out. */
  function ExamplePolicy(): Policy {
    Policy(1, Some(map[WEB := ["log", "root_dir"]]), Some(map["log" := LOG, "root_dir" := ROOT_LIST]))
  }

  lemma ExampleNames(t: Runes)
    ensures ValidHostSelector(t, WEB) && ValidResourceName(t, "log") && ValidResourceName(t, "root_dir")
  {
    hide ByteLen, TrimSpace, ValidHostSelector, ValidResourceName;
    AsciiNames(t, WEB);
    AsciiNames(t, "log");
    AsciiNames(t, "root_dir");
  }

  lemma ExampleResources(log: Resource, list: Resource)
    requires log == LOG && list == ROOT_LIST
    ensures ValidResource(log) && ValidResource(list)
  {
    hide Paths.Canonical, Paths.Clean, Paths.IsAbs, ValidResource;
    ExamplePaths();
    ResourcesReadSafely(log);
    ResourcesReadSafely(list);
  }

  lemma ExamplePolicyIsValid(t: Runes)
    ensures ValidPolicy(t, ExamplePolicy())
  {
    hide ValidHostSelector, ValidResourceName, ValidResource;
    ExampleNames(t);
    ExampleResources(LOG, ROOT_LIST);
    assert |"log"| != |"root_dir"|;
    assert ValidListing({"log", "root_dir"}, ["log", "root_dir"]);
    assert ExamplePolicy().resources.value.Keys == {"log", "root_dir"};
  }

  /** It builds a router, and what it lists is served. */
  lemma ExamplePolicyIsServed(lib: Library, router: Router, at: Reading)
    requires lib.Lawful() && BuiltFrom(lib.runes, router, ExamplePolicy())
    ensures Plan(lib, router, RouteRequest(LiveEvidence, host := WEB, resource := "root_dir"), at).Ok?
  {
    hide BuiltFrom, Plan;
    assert "root_dir" == ["log", "root_dir"][1];
    ListedResourcesAreServed(lib, router, ExamplePolicy(), WEB, "root_dir", at);
  }

  lemma ExamplePaths()
    ensures Paths.Canonical("/") && Paths.Canonical("/var/log")
  {
    Paths.ComponentsOfRender([]);
    Paths.ComponentsOfRender(["var", "log"]);
    assert Paths.Tail(["var", "log"][1..]) == "/log";
    assert Paths.Render(["var", "log"]) == "/var/log";
  }

  // --------------------------------------------------------------------- connectors' checks

  /** A bound a connector can read: none, or an RFC 3339 text. */
  predicate Reads(lib: Library, text: string) {
    text == "" || lib.rfc3339(text) != None
  }

  /** Which steps each connector takes up, whoever planned them. */
  lemma StepsTakenUp(lib: Library, agents: set<string>, step: RouteStep)
    ensures CheckZabbix(lib, step).None? <==>
      && step.source == ZabbixAPI && step.action in {TriggerGet, EventGet} && Reads(lib, step.since) && Reads(lib, step.until)
      && SeverityFits(lib.runes, step.severity) && (step.state == "" || step.action == EventGet)
    ensures CheckWazuh(lib, step).None? <==>
      && step.source == WazuhAPI && step.action in {AgentsList, AgentsStatus} && Reads(lib, step.since)
      && (step.action == AgentsStatus ==> step.host != "")
    ensures CheckTickets(lib, step).None? <==>
      step.source == RequestTracker && step.action == TicketsSearch && Reads(lib, step.since) && Reads(lib, step.until)
    ensures CheckDatabase(lib, step).None? <==>
      step.source == PegasusDB && step.action == QueryExecute && QueryReads(lib.runes, step.query)
    ensures CheckAgent(agents, step).None? <==>
      && step.source == SROIAAA && step.action == OperationsExecute && step.operation != NoOperation
      && step.target.Some? && step.host in agents
  {
    hide ValidateQuery, QueryReads, SeverityFloor, SeverityFits, Normalize;
    QueriesRead(lib.runes, step.query);
    FiltersFit(lib.runes, RouteRequest(FleetInventory, severity := step.severity));
  }
}

/** The narrowing filters of the two monitoring intents. */
module Monitoring {
  import opened Basics
  import opened Text
  import opened Types

  const DEFAULT_MONITORING_LIMIT := 25
  const MAX_MONITORING_LIMIT := 200
  const MAX_MATCH_LEN := 96

  const STATE_PROBLEM := "problem"
  const STATE_RESOLVED := "resolved"

  /** Severity names and the numeric priorities Zabbix stores. */
  function FloorOf(name: string): Option<int> {
    if name == "not classified" then Some(0)
    else if name == "information" then Some(1)
    else if name == "warning" then Some(2)
    else if name == "average" then Some(3)
    else if name == "high" then Some(4)
    else if name == "disaster" then Some(5)
    else None
  }

  function SeverityFloor(t: Runes, name: string): Option<int> {
    FloorOf(Normalize(t, name))
  }

  predicate MatchAccepted(pattern: string) {
    && TrimSpace(pattern) == pattern
    && pattern != ""
    && ByteLen(pattern) <= MAX_MATCH_LEN
    && forall i :: 0 <= i < |pattern| ==> !IsControl(pattern[i])
  }

  predicate StateAccepted(t: Runes, state: string) {
    Normalize(t, state) == STATE_PROBLEM || Normalize(t, state) == STATE_RESOLVED
  }

  /** The page size a step carries. Oversized requests are refused, not clamped. */
  function ResolveLimit(requested: int): Option<int> {
    if requested == 0 then Some(DEFAULT_MONITORING_LIMIT)
    else if requested < 0 || requested > MAX_MONITORING_LIMIT then None
    else Some(requested)
  }

  datatype Selectors = Selectors(pattern: string, severity: string, state: string, limit: int)

  /** Validates the filters in the order the broker reports them and normalises the accepted ones. */
  function MonitoringSelectors(t: Runes, request: RouteRequest, allowState: bool): Result<Selectors, ErrorCode> {
    if request.pattern != "" && !MatchAccepted(request.pattern) then Err(InvalidMatch)
    else if request.severity != "" && SeverityFloor(t, request.severity).None? then Err(InvalidSeverity)
    else if request.state != "" && !allowState then Err(InvalidRequest)
    else if request.state != "" && !StateAccepted(t, request.state) then Err(InvalidState)
    else
      match ResolveLimit(request.limit)
      case None => Err(InvalidLimit)
      case Some(limit) => Ok(Selectors(
        request.pattern,
        if request.severity == "" then "" else Normalize(t, request.severity),
        if request.state == "" then "" else Normalize(t, request.state),
        limit))
  }

  /** A severity or state name that the filters accept is spelled in plain lower case once
      normalised, whatever the request looked like. */
  lemma AcceptedNamesArePlain(name: string)
    requires FloorOf(name).Some? || name == STATE_PROBLEM || name == STATE_RESOLVED
    ensures name != "" && PlainLower(name)
  {}

  /** Filters that were accepted once are accepted again in their normal form, unchanged. */
  lemma SelectorsAreStable(t: Runes, request: RouteRequest, again: RouteRequest, allowState: bool)
    requires MonitoringSelectors(t, request, allowState).Ok?
    requires var s := MonitoringSelectors(t, request, allowState).value;
      again.pattern == s.pattern && again.severity == s.severity && again.state == s.state && again.limit == s.limit
    ensures MonitoringSelectors(t, again, allowState) == MonitoringSelectors(t, request, allowState)
  {
    hide Normalize, MatchAccepted, FloorOf;
    if request.severity != "" {
      AcceptedNamesArePlain(Normalize(t, request.severity));
      NormalizeIdempotent(t, request.severity);
    }
    if request.state != "" {
      AcceptedNamesArePlain(Normalize(t, request.state));
      NormalizeIdempotent(t, request.state);
    }
  }
}

/** Requests, written out, on which planning, re-planning and the session loop part from what they
    promise. The clock reads half a second past a midnight; the library is the sample one. */
module Counterexamples {
  import opened Basics
  import opened Text
  import opened Clock
  import opened Types
  import opened Monitoring
  import opened Routing
  import opened Authorization
  import opened Execution
  import opened Budget
  import opened Session
  import opened Conversation

  /** 2026-01-01T00:00:00.5Z */
  const NOW: Instant := 1_767_225_600 * SECOND + 500_000_000

  const HERE := Reading(NOW, NOW)

  /** Plans, and is refused by re-planning at the very same reading. */
  ghost predicate RefusedOnTheSpot(lib: Library, router: Router, request: RouteRequest) {
    && Plan(lib, router, request, HERE).Ok?
    && !Authorized(lib, router, Plan(lib, router, request, HERE).value, HERE)
  }

  lemma Lowered(lib: Library, text: string)
    requires text != "" && !IsSpace(text[0]) && !IsSpace(text[|text| - 1])
    requires forall i :: 0 <= i < |text| ==> 'a' <= text[i] <= 'z' || '0' <= text[i] <= '9' || text[i] == '-'
    ensures lib.Lowered(text) == text && ByteLen(text) == |text|
  {
    TrimSpaceFixed(text);
    AsciiLength(text);
  }

  lemma UntilToday(runes: Runes, router: Router)
    ensures RefusedOnTheSpot(SampleLibrary(runes), router, RouteRequest(TicketsOpen, until := "today"))
  {
    var lib := SampleLibrary(runes);
    LawfulLibrariesExist(runes);
    assert lib.midnight(NOW) == NOW - 500_000_000;
    UntilTodayIsRefused(lib, router, NOW);
  }

  /** A duration reaches back from the clock, as either bound. */
  lemma Window(lib: Library, text: string, window: int)
    requires lib.duration(text) == Some(window) && lib.rfc3339(text) == None && lib.date(text) == None
    requires lib.Lowered(text) == text && 0 < |text| && ByteLen(text) <= 64
    requires text != "today" && text != "yesterday" && text[|text| - 1] != 'd' && 0 < window <= MAX_SINCE_AGE
    ensures ParseSince(lib, text, NOW) == Ok(NOW - window) == ParseUntil(lib, text, NOW)
  {
    hide ParseSince, ParseUntil;
    assert ParseDays(lib, text) == None;
    RelativeWindowsReachBack(lib, text, NOW);
  }

  lemma Milliseconds(runes: Runes)
    ensures ParseSince(SampleLibrary(runes), "400ms", NOW) == Ok(NOW - 400_000_000)
    ensures ParseUntil(SampleLibrary(runes), "200ms", NOW) == Ok(NOW - 200_000_000)
  {
    hide ParseSince, ParseUntil;
    var lib := SampleLibrary(runes);
    Lowered(lib, "400ms");
    Lowered(lib, "200ms");
    Window(lib, "400ms", 400_000_000);
    Window(lib, "200ms", 200_000_000);
  }

  lemma WindowInsideASecond(runes: Runes, router: Router)
    ensures RefusedOnTheSpot(SampleLibrary(runes), router, RouteRequest(TicketsOpen, since := "400ms", until := "200ms"))
  {
    hide SampleLibrary, ParseSince, ParseUntil, Plan, Authorized;
    LawfulLibrariesExist(runes);
    Milliseconds(runes);
    SubSecondWindowIsRefused(
      SampleLibrary(runes), router, NOW, "400ms", "200ms", NOW - 400_000_000, NOW - 200_000_000);
  }

  lemma FourHundredDays(runes: Runes)
    ensures ParseSince(SampleLibrary(runes), "400d", NOW) == Ok(NOW - MAX_SINCE_AGE)
  {
    hide ParseSince, ParseUntil;
    var lib := SampleLibrary(runes);
    Lowered(lib, "400d");
    assert "400d"[..3] + "h" == "400h";
    assert ParseDays(lib, "400d") == Some(MAX_SINCE_AGE);
    RelativeWindowsReachBack(lib, "400d", NOW);
  }

  lemma OldestSince(runes: Runes, router: Router)
    ensures RefusedOnTheSpot(SampleLibrary(runes), router, RouteRequest(TicketsOpen, since := "400d"))
  {
    hide SampleLibrary, ParseSince, ParseUntil, Plan, Authorized;
    LawfulLibrariesExist(runes);
    FourHundredDays(runes);
    OldestSinceIsRefused(SampleLibrary(runes), router, NOW, "400d");
  }

  lemma UntilTheZeroTime(runes: Runes, router: Router)
    ensures var lib := SampleLibrary(runes);
      Plan(lib, router, RouteRequest(TicketsOpen, until := "0000-12-31"), HERE)
        == Plan(lib, router, RouteRequest(TicketsOpen), HERE)
  {
    var lib := SampleLibrary(runes);
    assert ParseUntil(lib, "0000-12-31", NOW) == Ok(ZERO_TIME);
    UntilOnlyBounds(lib, router, RouteRequest(TicketsOpen, until := "0000-12-31"), HERE);
  }

  /** Planned, and refused by the connector it goes to. */
  lemma UntilTheEndOfTheYears(runes: Runes, router: Router)
    ensures var lib := SampleLibrary(runes);
      var search := Plan(lib, router, RouteRequest(TicketsOpen, until := "9999-12-31"), HERE);
      search.Ok? && |search.value.steps| == 1 && CheckTickets(lib, search.value.steps[0]) == Some(InvalidTimeBound)
    ensures var lib := SampleLibrary(runes);
      var problems := Plan(lib, router, RouteRequest(MonitoringProblems, until := "9999-12-31"), HERE);
      problems.Ok? && |problems.value.steps| == 1 && CheckZabbix(lib, problems.value.steps[0]) == Some(InvalidUntilBound)
  {
    var lib := SampleLibrary(runes);
    LawfulLibrariesExist(runes);
    LastDay(runes);
    hide SampleLibrary, Plan, CheckTickets, CheckZabbix;
    UnprintableUntilIsRefused(lib, router, "9999-12-31", NOW, YEAR_TEN_THOUSAND);
  }

  lemma LastDay(runes: Runes)
    ensures ParseUntil(SampleLibrary(runes), "9999-12-31", NOW) == Ok(YEAR_TEN_THOUSAND)
  {
    assert SampleDate("9999-12-31") == Some(YEAR_TEN_THOUSAND - DAY);
  }

  lemma SixCenturies(runes: Runes)
    ensures ParseSince(SampleLibrary(runes), "213504d", NOW) == Ok(NOW - 1_526_290_448_384)
  {
    var lib := SampleLibrary(runes);
    Lowered(lib, "213504d");
    LongDayWindowIsAcceptedAsAShortOne(lib, NOW);
  }

  // ---------------------------------------------------------------- denied for good

  ghost predicate DeniedForGood(lib: Library, router: Router, request: RouteRequest, code: ErrorCode) {
    Plan(lib, router, request, HERE) == Err(code) && !Retryable(code)
  }

  lemma NormalWord(t: Runes, word: string)
    requires word != "" && forall i :: 0 <= i < |word| ==> 'a' <= word[i] <= 'z'
    ensures Normalize(t, word) == word
  {
    TrimSpaceFixed(word);
    assert Lower(t, word) == word;
    FieldsOfJoin([word]);
  }

  lemma Later(runes: Runes)
    ensures ParseSince(SampleLibrary(runes), "later", NOW) == Err(Unrecognized)
    ensures ParseUntil(SampleLibrary(runes), "later", NOW) == Err(Unrecognized)
  {
    hide ParseSince, ParseUntil;
    var lib := SampleLibrary(runes);
    Lowered(lib, "later");
    assert ParseDays(lib, "later") == None;
    RelativeWindowsReachBack(lib, "later", NOW);
  }

  lemma WrongFilter(lib: Library, router: Router, pattern: string, severity: string, limit: int, code: ErrorCode)
    requires code == if pattern != "" then InvalidMatch else if severity != "" then InvalidSeverity else InvalidLimit
    requires pattern != "" ==> !MatchAccepted(pattern)
    requires severity != "" ==> SeverityFloor(lib.runes, severity).None?
    requires pattern == "" && severity == "" ==> ResolveLimit(limit).None?
    ensures DeniedForGood(lib, router,
      RouteRequest(MonitoringProblems, pattern := pattern, severity := severity, limit := limit), code)
  {
    hide MatchAccepted, SeverityFloor, ResolveLimit;
  }

  lemma WrongState(lib: Library, router: Router, since: string, state: string)
    requires ParseSince(lib, since, NOW).Ok? && state != "" && !StateAccepted(lib.runes, state)
    requires Stamp(lib, ParseSince(lib, since, NOW).value) != ""
    ensures DeniedForGood(lib, router, RouteRequest(MonitoringHistory, since := since, state := state), InvalidState)
  {
    hide ParseSince, StateAccepted, Stamp;
  }

  /** One malformed request for each of the six codes. */
  lemma MalformedRequestsAreDeniedForGood(runes: Runes, router: Router)
    ensures var lib := SampleLibrary(runes);
      && DeniedForGood(lib, router, RouteRequest(MonitoringProblems, limit := 1000), InvalidLimit)
      && DeniedForGood(lib, router, RouteRequest(MonitoringProblems, pattern := " "), InvalidMatch)
      && DeniedForGood(lib, router, RouteRequest(MonitoringProblems, severity := "fatal"), InvalidSeverity)
      && DeniedForGood(lib, router, RouteRequest(MonitoringHistory), MissingSince)
      && DeniedForGood(lib, router, RouteRequest(MonitoringHistory, since := "400ms", state := "open"), InvalidState)
      && DeniedForGood(lib, router, RouteRequest(TicketsOpen, until := "later"), InvalidUntil)
  {
    hide DeniedForGood, Plan, SampleLibrary, ParseSince, ParseUntil, Normalize, MatchAccepted;
    var lib := SampleLibrary(runes);
    assert lib.runes == runes by {
      LibraryRunes(runes);
    }
    WrongFilter(lib, router, "", "", 1000, InvalidLimit);
    BlankMatch();
    WrongFilter(lib, router, " ", "", 0, InvalidMatch);
    NormalWord(runes, "fatal");
    NormalWord(runes, "open");
    WrongFilter(lib, router, "", "fatal", 0, InvalidSeverity);
    NoSince(lib, router);
    Milliseconds(runes);
    LawfulLibrariesExist(runes);
    StampReads(lib, NOW - 400_000_000);
    WrongState(lib, router, "400ms", "open");
    Later(runes);
    WrongUntil(lib, router, "later");
  }

  lemma LibraryRunes(runes: Runes)
    ensures SampleLibrary(runes).runes == runes
  {}

  lemma BlankMatch()
    ensures !MatchAccepted(" ")
  {
    TrimSpaceFixed(" ");
  }

  lemma NoSince(lib: Library, router: Router)
    ensures DeniedForGood(lib, router, RouteRequest(MonitoringHistory), MissingSince)
  {}

  lemma WrongUntil(lib: Library, router: Router, until: string)
    requires ParseUntil(lib, until, NOW).Err?
    ensures DeniedForGood(lib, router, RouteRequest(TicketsOpen, until := until), InvalidUntil)
  {
    hide ParseUntil;
  }

  /** The very same mistake is forgiven in the other bound, and the very same limit elsewhere. */
  lemma LikeMistakesAreForgiven(runes: Runes, router: Router)
    ensures var lib := SampleLibrary(runes);
      && Plan(lib, router, RouteRequest(TicketsOpen, since := "later"), HERE) == Err(InvalidSince) && Retryable(InvalidSince)
      && Plan(lib, router, RouteRequest(TicketsOpen, limit := 1000), HERE) == Err(InvalidRequest) && Retryable(InvalidRequest)
  {
    hide ParseSince, SampleLibrary;
    Later(runes);
    NoBounds(SampleLibrary(runes));
  }

  lemma NoBounds(lib: Library)
    ensures ParseSince(lib, "", NOW) == Ok(ZERO_TIME) && ParseUntil(lib, "", NOW) == Ok(ZERO_TIME)
  {}

  // --------------------------------------------------------- past the served context

  lemma {:induction false} TextsOfEverySize(n: nat)
    ensures exists s: string :: ByteLen(s) == n
  {
    if n == 0 {
      assert ByteLen("") == 0;
    } else {
      TextsOfEverySize(n - 1);
      var rest: string :| ByteLen(rest) == n - 1;
      assert (['x'] + rest)[1..] == rest;
      assert ByteLen(['x'] + rest) == n;
    }
  }

  const CALL := ToolCall("", TOOL_NAME, "")
  const FOUND := Execution.Evidence(RequestTracker, TicketsSearch, "", "", 0, 0, false, map[], "")

  /** A world in which the model calls for open tickets, over and over, and their evidence encodes to
      this text, with the default evidence budget. */
  function TicketWorld(runes: Runes, json: string): World {
    World(
      lib := SampleLibrary(runes),
      router := Router(map[], map[]),
      reply := _ => Choice("", [CALL]),
      clock := _ => HERE,
      executor := _ => Executor(map[RequestTracker := Connector(RequestTracker, {}, _ => Ok(FOUND))]),
      decode := _ => Some(RouteRequest(TicketsOpen)),
      encode := (_, _) => Some(json),
      complaint := _ => "",
      looksLikeACall := _ => false,
      systemPrompt := "",
      toolBytes := None,
      evidenceBudget := 65536,
      tooLargeNotice := "",
      withheldNotice := "",
      pushback := "")
  }

  const STEP := RouteStep(RequestTracker, TicketsSearch, limit := TICKET_SEARCH_LIMIT)

  lemma OpenTicketsPlan(lib: Library, router: Router)
    ensures Plan(lib, router, RouteRequest(TicketsOpen), HERE) == Ok(RoutePlan(PLAN_VERSION, TicketsOpen, [STEP]))
  {}

  lemma OpenTicketsRun(w: World, runes: Runes, json: string)
    requires w == TicketWorld(runes, json)
    ensures RunSteps(w.lib, w.executor(0), [STEP]) == Ran([FOUND], [STEP], None)
  {
    hide RunSteps;
    OneStepRun(w.lib, w.executor(0), STEP);
  }

  /** The history when the first call is made: the prompt, the question and the call. */
  function Asked(question: string): seq<Message> {
    [Message(System, ""), Message(User, question)] + [Message(Assistant, "", toolCalls := [CALL])]
  }

  lemma NameBytes()
    ensures ByteLen("") == 0 && ByteLen(TOOL_NAME) == 16
    ensures ByteLen(RoleName(System)) == 6 && ByteLen(RoleName(User)) == 4 && ByteLen(RoleName(Assistant)) == 9
  {
    hide ByteLen;
    AsciiLength("");
    AsciiLength(TOOL_NAME);
    AsciiLength("system");
    AsciiLength("user");
    AsciiLength("assistant");
  }

  lemma MessageSizes(question: string)
    ensures MessageTokens(Message(System, "")) == 1
    ensures MessageTokens(Message(User, question)) == (4 + ByteLen(question)) / 4
    ensures MessageTokens(Message(Assistant, "", toolCalls := [CALL])) == 6
  {
    hide ByteLen, RoleName;
    NameBytes();
    assert CallChars([CALL]) == 16 + CallChars([CALL][1..]);
  }

  lemma AskedSize(question: string)
    ensures Estimate(Asked(question), None) == 1507 + (4 + ByteLen(question)) / 4
  {
    hide MessageTokens, ByteLen;
    MessageSizes(question);
    TotalSnoc([], Message(System, ""));
    TotalSnoc([Message(System, "")], Message(User, question));
    TotalSnoc([Message(System, ""), Message(User, question)], Message(Assistant, "", toolCalls := [CALL]));
    assert [] + [Message(System, "")] == [Message(System, "")];
    assert [Message(System, "")] + [Message(User, question)] == [Message(System, ""), Message(User, question)];
  }

  /** A question of 399100 bytes leaves exactly the room that evidence of 65536 bytes, the most the
      budget allows, is counted at. It is admitted, not withheld, and the next request is nine tokens
      over the served context. */
  lemma AnAdmissionOverflows(runes: Runes, question: string, json: string)
    requires ByteLen(question) == 399_100 && ByteLen(json) == 65_536
    ensures var s := After(TicketWorld(runes, json), question, "", 1);
      && s.outcome.None? && s.log == [Admitted(CALL, [STEP], TicketsOpen, [FOUND])]
      && Estimate(s.messages, None) == SERVED_CONTEXT_TOKENS + 9
  {
    hide After, Plan, RunSteps, ByteLen, Estimate, SampleLibrary;
    var w := TicketWorld(runes, json);
    OpenTicketsPlan(w.lib, w.router);
    OpenTicketsRun(w, runes, json);
    AskedSize(question);
    NameBytes();
    assert Start(w, question, "").messages + [Message(Assistant, "", toolCalls := [CALL])] == Asked(question);
    FirstCallIsAdmitted(w, question, "", CALL, RouteRequest(TicketsOpen),
      RoutePlan(PLAN_VERSION, TicketsOpen, [STEP]), Ran([FOUND], [STEP], None), json);
    AdmissionBound(Asked(question), None, CALL.id, json);
  }
}

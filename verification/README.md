# A verified model of the SROIAAA evidence broker

SROIAAA answers operational questions through a language model that holds no authority. The model
proposes an intent; policy turns it into a plan; connectors run the plan; and code, not the model,
computes every count. This project models that path in Dafny and proves what each part promises:

* **Planning and re-authorisation** (`Text`, `Clock`, `Monitoring`, `Sql`, `Paths`, `PolicyRules`, `Types`,
  `Routing`, `Authorization`). A request resolves its time bounds against the clock and becomes a one-step
  plan; an untrusted plan is accepted iff some request still plans to it. Proved: acceptance implies policy;
  a plan the router made is accepted at another clock reading iff the bounds it carries still hold there. `Acceptance`
  has exactly which requests are planned, which policies are valid and which steps connectors take up.
* **Execution** (`Execution`). Dispatch to connectors and the checks each makes on a step. Proved: exactly when
  a planned step passes them.
* **The session loop** (`Budget`, `Session`, `Conversation`). The class `Session` runs at most five turns over
  arbitrary model replies; `Session.Final` specifies a run, and the lemmas of `Conversation` hold of every run:
  the shape of the history, the token budget, what reaches connectors, what ends a run, the audit record. `Turns` has
  what each turn comes to, from the model's reply and the world's answers alone.
* **Evidence** (`Zabbix`, `RequestTracker`, `Wazuh`, `Pegasus`). When counts over capped fetches equal plain counts
  over the whole population, and when a warning says they do not; both directions where the code has both. The
  fleet summary of `Wazuh` has no such warning: there it is proved exactly when its counts fall short.
* **Message splitting** (`Splitter`) and **endpoint agents** (`AgentReads`, `Base64`, `AgentAgreement`, and path
  containment in `Paths`).

Instants are integer nanoseconds. What the standard library knows about calendars, zones, durations and Unicode
beyond ASCII is a record of functions, `Clock.Library`. `Library.Lawful` is what the theorems assume of it: a
printed time has whole seconds, reads back while its year has four digits, and is not also a date, a duration or a
day word. A few lemmas about particular texts also require what the library makes of them, such as that "today" is
no date, or that the end of a day is not in the past. `Clock.LawfulLibrariesExist` exhibits a library that meets all
of this, and `Counterexamples` gives each failure of a promise there, on a request written out. Strings that came
through a JSON decoder are sequences of runes and `ByteLen` counts their UTF-8 bytes; file contents and chat
messages are bytes. Replies, clock readings, connector answers, JSON encodings and symbolic links are arbitrary
inputs. A remote source is a snapshot that does not change during one step.

## Where the code differs from what it says

* Planning refuses fields an intent cannot honour (internal/broker/router.go:70-83), but not `query`, which every
  intent except database.query ignores: `QueryIsIgnoredElsewhere`.
* Re-planning compares every bound with the clock (internal/broker/since.go:85) but planning does not compare the
  end of a day, and plans keep whole seconds only. Plans for `until: today`, windows inside one second and bounds at
  the very age limit are refused at once, and exactly when: `UntilTodayIsRefused`, `SubSecondWindowIsRefused`,
  `OldestSinceIsRefused`.
* A day window is multiplied in 64 bits, so 213504 days pass the 400-day limit as 25 minutes:
  `LongDayWindowIsAcceptedAsAShortOne`. An until on the eve of the zero time is dropped: `UntilZeroTimeIsDropped`.
* A planned step can be refused by its own connector: an until of 9999-12-31 closes in year 10000, which no stamp can
  spell (internal/connector/rt.go:267-270): `PlannedStepsPassTheChecks`, `UnprintableUntilIsRefused`.
* Only refusals are meant to end a run (internal/orchestrator/session.go:576-580), but six codes about malformed
  filters and bounds end it too: `DenialsThatEndARun` has exactly which requests, `MalformedRequestsAreDeniedForGood`
  one of each.
* The room check counts a payload and not the message around it. A request fits the served context after an admission
  iff payload and wrapper do together, `AdmissionBound`. Held to the evidence budget first, a payload can slip past
  only when the history fits but not with a whole budget and its wrapper beside it, by default above some 101 000
  tokens: `OverflowsWithinTheBudget`, `AnAdmissionOverflows`.
* The disclosure of withheld evidence is left out when the answer holds one of four texts, and "not allowed" holds
  "not all": `UnrelatedWordsSuppressTheDisclosure`. What is guaranteed is the words, not what they say.
* The fleet summary is said to hold exact counts for the whole fleet (internal/connector/wazuh.go:30-34), but it counts
  the at most 500 agents fetched, and no warning says when there are more; only the number the manager reports does, to
  a reader who knows the limit: `TotalIsTheFleet`, `TruncationIsNotIncompleteness`,
  `UnfetchedCriticalAgentIsInvisible`.
* A message part is split to 3500 bytes and then given a heading, so it can be longer: `Splitter.Post`.
* A windowed question that overflows the row census can warn of problems its window did not exclude, if some row has
  no known severity: `ComparisonCountsTheExcluded`.
* The agent sends a tail's lines as a list and the connector looks for a number: `TailsAgree`.
* At the largest 64-bit read limit the agent reads nothing: `PagingRebuildsTheFile`.
* A host census counts rows without a host, or with an unnamed first one, as a host each; a page does not:
  `HostlessRowsCountOnce`. A fleet summary counts a state called "total" twice: `TotalIsTheFleet`.

## Model

| member | source | states |
|---|---|---|
| Types.AllIntentsAreRouted | internal/broker/types.go:29-60 | an intent is listed iff it has a source |
| Clock.SinceIsBounded | internal/broker/since.go:20-62 | every accepted lower bound, whatever its spelling, is at most a minute ahead and 400 days behind its clock reading |
| Clock.UntilIsBoundedUnlessADay | internal/broker/since.go:97-112 | so is every accepted upper bound that is not a date or a day word |
| Clock.DayWordsMeetAtMidnight | internal/broker/since.go:28-44 | "yesterday" and "today" meet at local midnight and today closes at the next, in any zone |
| Clock.RelativeWindowsReachBack | internal/broker/since.go:52-60 | a day or duration window resolves, as either bound, to the clock reading less the window iff that is in bounds; zero and negative durations are refused, negative day windows pass up to a minute ahead |
| Clock.AbsoluteTextsResolveToThemselves | internal/broker/since.go:46-51 | a timestamp or date resolves to itself iff it is in the window; as an until a date closes at the next day, unbounded |
| Clock.DayWindowIsExactUnlessItWraps | internal/broker/since.go:65-74 | a day window means that many days iff the product fits 64 bits |
| Clock.LongDayWindowIsAcceptedAsAShortOne | internal/broker/since.go:52-54 | counterexample: 213504 days are accepted as about 25 minutes |
| Clock.ReadBack | internal/broker/since.go:76-92 | a printed bound reads back, as either bound, to its whole second iff its year has four digits and it is in the window of the new reading |
| Monitoring.SelectorsAreStable | internal/broker/monitoring.go:134-167 | accepted filters are accepted again, unchanged, in their normal form |
| Text.NormalizeIdempotent | internal/broker/monitoring.go:54-56 | normalising a severity or state name twice is normalising it once |
| Text.TrimSpaceMeans | internal/broker/policy.go:104-115 | trimming a text gives the one bare-ended text that is left of it between white space |
| Text.LessMeans | internal/connector/zabbix.go:550-573 | one text sorts before another iff it is a proper beginning of it or has the smaller rune where they first part |
| Sql.ValidatedIsOneStatement | internal/broker/sql.go:34-60 | a validated query without its trailing separators has no ';', still begins with its keyword, and every ';' of the query was in that trailer; it is within 8192 bytes and its only controls are white space |
| Sql.ValidationIgnoresPadding | internal/broker/sql.go:34-44 | a query and its trimmed form are validated alike and wrap to the same statement |
| PolicyRules.ValidatePolicy | internal/broker/policy.go:53-89 | the order-free walk over resources, hosts and listings accepts iff the whole policy is valid: names, limits per operation, canonical paths, known resources, no repeats |
| PolicyRules.CheckListing | internal/broker/policy.go:77-86 | the loop with a seen set accepts iff every name is known and none repeats |
| Routing.NewRouter | internal/broker/router.go:25-45 | a router exists iff the policy is valid, and holds exactly its resources and each host's list as a set |
| Acceptance.AsciiNames | internal/broker/policy.go:91-115 | of ASCII names, whatever the Unicode tables hold, hosts are 1 to 253 letters, digits, dots, dashes or underscores, aliases 1 to 64 of these in lower case |
| Acceptance.PoliciesAccepted | internal/broker/policy.go:53-163 | a policy is valid iff it is of version 1 and every name, path, limit and listing meets a condition written out on it |
| Acceptance.ExamplePolicyIsValid | internal/broker/policy.go:53-89 | a policy written out is valid, whatever the Unicode tables hold |
| Acceptance.ExamplePolicyIsServed | internal/broker/router.go:248-294 | and a router built from it plans what it lists |
| Acceptance.RequestsAccepted | internal/broker/router.go:47-246 | a request, of any intent, at any reading, is planned iff its bounds resolve in order and it has what its intent needs and nothing else, each condition on its own fields and the router's lists |
| Acceptance.QueriesRead | internal/broker/sql.go:34-60 | a query is accepted iff its trimmed text has 1 to 8192 bytes, only white space for controls, one of two first words, and nothing but separators and blanks after its first separator |
| Acceptance.StepPlanned | internal/broker/router.go:86-246 | the source, action and size of the step of each intent, as numbers |
| Acceptance.ListedResourcesAreServed | internal/broker/router.go:248-294 | whatever policy lists for a host is planned for it at every reading |
| Routing.CandidateRequests | internal/broker/router.go:359-413 | the requests rebuilt from a plan are exactly the candidates, one per listed alias for live evidence |
| Routing.Verify | internal/broker/router.go:335-353 | accepts iff some candidate plans to the submitted plan at this reading; otherwise the right refusal |
| Authorization.RequestReachesPlan | internal/broker/router.go:47-246 | every field of an accepted request but the query is carried, normalised, in the step, or was empty |
| Authorization.QueryIsIgnoredElsewhere | internal/broker/router.go:75-83 | the query changes nothing for any other intent |
| Authorization.PlannedShape | internal/broker/router.go:309-315 | a plan has the current version, one step from its intent's source, capped limits, and a query iff it is a database query |
| Authorization.LivePlanIsGranted | internal/broker/router.go:248-294 | a live plan is, field for field, a validated resource policy lists for that host |
| Authorization.AcceptedPlansAreWithinPolicy | internal/broker/router.go:326-353 | whatever plan is submitted, acceptance means version 1, one step, the intent's source, fixed caps, one validated read, and for live evidence exactly what policy grants that host |
| Authorization.LiveStepsAreBoundedReads | internal/broker/policy.go:117-163 | a step policy grants reads a canonical path with no ".." component, within its operation's caps |
| Authorization.PlannedHostsNeedNoEscaping | internal/connector/rt.go:505-511 | no ASCII character outside letters, digits, ".", "-" and "_" reaches a query through a planned host |
| Authorization.DerivedFieldsAreFixed | internal/broker/router.go:355-368 | of all plans that rebuild to the same request at most one is accepted, so no derived field can be edited |
| Authorization.RoundTrip | internal/broker/router.go:335-413 | a plan the router made is accepted at another reading iff its carried bounds still hold and keep their order there |
| Authorization.AcceptedPlansStayAcceptedWhileCurrent | internal/broker/router.go:335-353 | any accepted plan carries current bounds and is accepted at every other reading iff they hold there |
| Authorization.RecentPlansAreAccepted | internal/broker/router.go:47-68 | plans a second inside every limit are accepted at once and at all later readings while they stay so |
| Authorization.UntilTodayIsRefused | internal/broker/since.go:101-107 | "until: today" plans, and is re-accepted on the spot iff at most a minute of the day is left |
| Authorization.SubSecondWindowIsRefused | internal/broker/router.go:59-68 | a window plans, and is re-accepted on the spot iff its ends lie in different seconds |
| Authorization.OldestSinceIsRefused | internal/broker/since.go:88-90 | a since at the age limit is re-accepted on the spot iff it falls on a whole second |
| Authorization.UntilZeroTimeIsDropped | internal/broker/router.go:62-68 | an until asked for is not in the plan iff it resolves to the zero time, and the plan is then the one made without it |
| Counterexamples.UntilToday | internal/broker/since.go:101-107 | half a second past midnight, "until: today" plans and is refused |
| Counterexamples.WindowInsideASecond | internal/broker/router.go:59-68 | so are since "400ms" and until "200ms" |
| Counterexamples.OldestSince | internal/broker/since.go:88-90 | so is since "400d" |
| Counterexamples.UntilTheZeroTime | internal/broker/router.go:62-68 | until "0000-12-31" plans as no until at all |
| Counterexamples.UntilTheEndOfTheYears | internal/connector/zabbix.go:153-159 | until "9999-12-31" plans, and its connector refuses the step |
| Counterexamples.SixCenturies | internal/broker/since.go:65-74 | since "213504d" is accepted as some 25 minutes |
| Counterexamples.MalformedRequestsAreDeniedForGood | internal/orchestrator/session.go:586-592 | a malformed request for each of the six codes that end a run though they refuse no authority |
| Counterexamples.LikeMistakesAreForgiven | internal/orchestrator/session.go:586-592 | the same unreadable bound as a since, and the same limit on a ticket search, may be corrected |
| Counterexamples.AnAdmissionOverflows | internal/orchestrator/session.go:441-485 | a run, with the default budget, whose first evidence is admitted and makes the next request nine tokens too long |
| Execution.NewExecutor | internal/connector/executor.go:30-43 | registration succeeds iff no connector is nil and no source repeats, and then holds exactly the given connectors |
| Execution.Execute | internal/connector/executor.go:48-62 | the loop with early exit computes the specified run |
| Execution.RunIsAPrefix | internal/connector/executor.go:45-62 | connectors get a prefix of the plan in order, each piece of evidence answers its own step, and without error it is the whole plan |
| Execution.PlannedStepsPassTheChecks | internal/connector/zabbix.go:108-162 | a planned step passes its connector's checks iff its bounds have four-digit years and, for live evidence, an agent is configured for the host |
| Acceptance.StepsTakenUp | internal/connector/zabbix.go:108-162 | which steps, whoever planned them, each of the five connectors takes up, as an iff on the fields of the step |
| Execution.UnprintableUntilIsRefused | internal/connector/rt.go:263-270 | counterexample: an until past year 9999 plans, and the ticket and the monitoring connector refuse the step |
| Execution.SinceIsAlwaysReadable | internal/connector/rt.go:263-270 | a lower bound is always one a connector can read |
| Execution.UnservedIntentsRunNothing | internal/connector/executor.go:51-54 | without a connector for its source a plan runs nothing |
| Execution.ServedIntentsReachTheirConnector | internal/connector/executor.go:48-62 | with one, and the checks passed, execution is that connector's answer to the planned step |
| Budget.EstimatedTokens | internal/orchestrator/session.go:288-307 | the nested loops compute the specified estimate |
| Budget.AdmissionBound | internal/orchestrator/session.go:309-314 | an admission adds the payload and its wrapper, so the request then fits the served context iff the two together do; it is always within the context plus the slack |
| Budget.OverflowsWithinTheBudget | internal/orchestrator/session.go:441-455 | an admission takes a request past the served context iff its payload fits the room left but not with its wrapper; some payload within the evidence budget does so to a history iff the history fits but not with the whole budget and its wrapper |
| Budget.OverfillingSizes | internal/orchestrator/session.go:309-314 | those payloads are the last sizes that fit the room, as many as the wrapper has bytes |
| Budget.DisclosureSaysPartial | internal/orchestrator/session.go:321-333 | with evidence withheld the disclosed answer begins with the model's words and contains a disclosure word |
| Budget.UnrelatedWordsSuppressTheDisclosure | internal/orchestrator/session.go:325-330 | counterexample: any answer holding "not allowed" goes out without the disclosure |
| Session.Session.constructor | internal/orchestrator/session.go:248-260 | exactly the intents whose source has a connector in the session's executor are offered |
| Session.Session.Ask | internal/orchestrator/session.go:335-491 | the answer, trace and event are those of the specified run, and with an auditor exactly one event is appended |
| Session.Session.Loop | internal/orchestrator/session.go:353-491 | the imperative loop computes the specified run |
| Session.Session.TakeTurn | internal/orchestrator/session.go:354-485 | one turn computes the specified turn: no reply, no call, an unknown tool, or a call run and settled |
| Session.Session.Speak | internal/orchestrator/session.go:362-402 | a turn without a call: push back, refuse silence, or answer |
| Session.Session.Settle | internal/orchestrator/session.go:421-485 | a call's outcome: refusal, complaint, size checks, withholding or admission |
| Session.Session.RunOneCall | internal/orchestrator/session.go:501-536 | decode, plan and execute, with the trace, decision and plan recorded |
| Session.Session.WriteAudit | internal/orchestrator/session.go:541-559 | the event is settled from the trace and one record is appended |
| Session.Auditor.Record | internal/orchestrator/audit.go:107-131 | one event is appended with its answer capped |
| Conversation.TurnEffect | internal/orchestrator/session.go:355-486 | what any turn can do to history, event, budget flag and outcome, from any state and reply; which verdict it comes to is said by Turns.SpokenTurn and Turns.CallVerdict |
| Turns.SpokenTurn | internal/orchestrator/session.go:362-402 | a reply without a call is pushed back iff its trimmed text is non-empty, looks like a call and it is not the fifth turn; otherwise the run stops, in an error iff that text is empty and else with it, disclosed |
| Turns.CallVerdict | internal/orchestrator/session.go:404-485 | what a reply with a call comes to, from the world's answers alone: wrong tool, undecodable, denied, failed, unencodable; then too large iff over the evidence budget, withheld iff within it without room in 131072 tokens, admitted iff within both |
| Turns.CallTrace | internal/orchestrator/session.go:404-536 | the stages a turn with a call adds to the trace, for each of its verdicts |
| Turns.SpokenTurnsOfARun | internal/orchestrator/session.go:362-402 | the same iff on every turn of every run; a turn not pushed back is the last, and its words are the outcome |
| Turns.SizedTurnsOfARun | internal/orchestrator/session.go:434-482 | so are the three iffs on size and room, on every turn of every run |
| Turns.GivesUpAfterFive | internal/orchestrator/session.go:488-491 | a run reaches the turn limit iff it took five turns and the fifth would have gone on |
| Turns.DisclosureAdded | internal/orchestrator/session.go:321-333 | with evidence withheld the disclosure is added iff the answer, in lower case, has none of four words; otherwise never |
| Turns.LastRefusalMeans | internal/orchestrator/session.go:541-559 | an event's error is the last stage of its trace that was not allowed |
| Turns.RecordsMean | internal/orchestrator/session.go:470-482 | each call on record is one piece of the evidence, field for field, in order |
| Conversation.HistoryAtHead | internal/orchestrator/session.go:347-486 | at the head of turn t there are 2+2t messages, each tool message answers the first call before it, and every admitted payload is within its budget and had room beside the messages before it |
| Conversation.AdmittedRequests | internal/orchestrator/session.go:441-485 | in every run a request completed by an admission is within the context plus slack, and past the context iff the payload overfilled the room there was |
| Conversation.RunIsAccounted | internal/orchestrator/session.go:355-491 | after any number of turns, stopped or not, event, flag and outcome are functions of the log of turns |
| Conversation.RunsHandOverOnlyAuthorisedSteps | internal/orchestrator/session.go:500-536 | in every run at most five steps reach connectors, each the step of a plan made for arguments decoded on that turn |
| Conversation.RunsStayWithinPolicy | internal/orchestrator/session.go:500-536 | with a router built from policy, every step any run hands over goes to its intent's source within its caps, and a live one is a read policy lists for its host |
| Conversation.RefusalsEndTheRun | internal/orchestrator/session.go:422-429 | a refusal, always so for an unauthorised host or resource, is the last event of a run and hands nothing over |
| Conversation.DenialsThatEndARun | internal/orchestrator/session.go:576-593 | which requests planning denies for good, in closed form: a bad until, a bad filter of a monitoring request, or a host or resource not granted; only the last is a refusal of authority |
| Conversation.SuchCallsEndTheRun | internal/orchestrator/session.go:421-429 | on any turn a denied call hands nothing over, and stops the run with that refusal iff its code is one of those |
| Conversation.UnservedCallsRunNothing | internal/orchestrator/session.go:242-260 | whatever reaches a connector was asked by a decoded intent whose source is registered |
| Conversation.OnlyOfferedIntentsRun | internal/orchestrator/session.go:242-260 | a session hands over only what was asked by an intent it offered |
| Conversation.DecisionExplained | internal/orchestrator/session.go:515-527 | the recorded decision in closed form over the allowed and denied plans of a run |
| Conversation.AuditAgreesWithRun | internal/orchestrator/session.go:538-559 | status is answered iff a non-empty answer came back; decision, proposal, plan and calls are those of the run, in order |
| Conversation.WithholdingIsDisclosed | internal/orchestrator/session.go:393-401 | an answer is the model's words with the disclosure added iff something was withheld for context and they did not say so |
| Conversation.CapKeepsAPrefix | internal/orchestrator/audit.go:114-116 | a recorded answer is whole up to the cap, and past it a prefix that wastes at most three bytes of it |
| Zabbix.ApplySelectors | internal/connector/zabbix.go:354-400 | which parameters each filter becomes in each method's spelling |
| Zabbix.ParamsOf | internal/connector/zabbix.go:139-162 | the parameters select exactly the graded rows the step asks for, on both methods |
| Zabbix.NeedleIsStripped | internal/connector/zabbix.go:354-371 | the text searched for is the match without the stars at its ends, and nothing else |
| Zabbix.SeverityCensus | internal/connector/zabbix.go:653-713 | the row path and the overflow path both report the specified census whatever order rows come in |
| Zabbix.ExactCensus | internal/connector/zabbix.go:722-753 | one exact count per severity and their sum |
| Zabbix.CensusIsTrue | internal/connector/zabbix.go:645-753 | with six-level severities the total is the number of matching rows, each count is true, and they sum to the total, on both paths |
| Zabbix.TotalIsTrueIffGraded | internal/connector/zabbix.go:715-721 | the overflow path totals the rows iff every one has one of the six severities |
| Zabbix.HostCensus | internal/connector/zabbix.go:493-543 | the tally by host of the newest rows, up to the cap |
| Zabbix.TopHosts | internal/connector/zabbix.go:550-573 | the 25 entries none of which is outranked by one left out |
| Zabbix.TopIsUnique | internal/connector/zabbix.go:545-549 | only one table qualifies, so map order cannot show |
| Zabbix.TopIsBusiest | internal/connector/zabbix.go:550-573 | a host left out has fewer rows than any named, or as many and a name that does not come first, and only a full table of 25 leaves any out |
| Zabbix.AttachHostBreakdown | internal/connector/zabbix.go:597-626 | breakdown, hosts_affected and both warnings as specified |
| Zabbix.HostBreakdownIsExactOrFloor | internal/connector/zabbix.go:613-624 | the lower-bound warning is given iff rows were left out; without it hosts and counts are exact and sum to the total, with it they are lower bounds |
| Zabbix.CountHostsInPage | internal/connector/zabbix.go:587-595 | the number of distinct named hosts on the page |
| Zabbix.HostlessRowsCountOnce | internal/connector/zabbix.go:535-541 | the census counts one host more than the page if some row has no host and none is called "unknown", and one more if some first host is unnamed; otherwise they agree |
| Zabbix.CompletePageNamesEveryHost | internal/connector/zabbix.go:213-219 | a page not marked truncated is all matching rows, so its hosts are all of them |
| Zabbix.CompareAgainstNoTimeBound | internal/connector/zabbix.go:457-480 | the count without the window is the rows that match and those only the window excludes; compared with the number that match, it warns of exactly the excluded |
| Zabbix.ComparisonCountsTheExcluded | internal/connector/zabbix.go:442-456 | compared with the census total it warns iff the window excludes a row, or the counting path lost a row of no known severity |
| Zabbix.Execute | internal/connector/zabbix.go:108-345 | a step passes the checks or is refused by them; a history step is answered with the newest rows of the event log and no comparison, a current one with the triggers, newest first iff since is set and compared iff a bound is set; of graded rows, page (at most the limit, and 500), total, truncation, severity counts and hosts are those of the rows whose fields fit the step's, on both census paths |
| Zabbix.Gather | internal/connector/zabbix.go:164-226 | for any parameters and rows, graded or not: page, census, breakdown, comparison and warnings |
| Zabbix.GradedEvidenceAnswers | internal/connector/zabbix.go:645-753 | such evidence answers the step whenever the rows are graded |
| RequestTracker.QueueCensus | internal/connector/rt.go:336-361 | one count per allowed queue, the positive ones kept |
| RequestTracker.OwnerCensus | internal/connector/rt.go:391-416 | one count per discovered owner, the positive ones kept |
| RequestTracker.OwnersOnPage | internal/connector/rt.go:368-386 | the first twenty distinct owners in order of appearance, and whether there were more |
| RequestTracker.Execute | internal/connector/rt.go:146-258 | a step is refused by the checks or gets the first tickets up to its limit, or 100 without one, of those that are new, open or stalled, in an allowed queue, and fit its host and window, with their total, truncation, queue breakdown and owner breakdown, each complete, or absent or flagged exactly when it is not |
| RequestTracker.Gather | internal/connector/rt.go:174-258 | for any search: page, total, both breakdowns and the completeness switch |
| RequestTracker.SearchFindsWanted | internal/connector/rt.go:474-499 | the search composed for a step matches just the tickets the step asks for |
| RequestTracker.AllowedQueues | internal/connector/rt.go:108-116 | the allowlist is the configured queues, trimmed, less the blank ones, and may not be empty |
| RequestTracker.QueueBreakdownIsComplete | internal/connector/rt.go:332-361 | the queue breakdown is the tally of all matching tickets and sums to the total, even with a repeated queue |
| RequestTracker.OwnerBreakdownIsTrue | internal/connector/rt.go:388-416 | every owner named has its true count |
| RequestTracker.OwnerBreakdownIsExactOrFlagged | internal/connector/rt.go:223-255 | no owner warning iff every matching ticket's owner is named with its true count; a capped list always falls short of the total |
| Wazuh.NormalizeAgents | internal/connector/wazuh.go:329-371 | the list is the specified sort of one item per agent |
| Wazuh.ItemShows | internal/connector/wazuh.go:329-358 | which fields of an agent its item shows, and that each optional one is there iff it has something to say |
| Wazuh.ListIsByTierThenName | internal/connector/wazuh.go:359-369 | of two items the earlier is of a lower tier, or of the same and no later name |
| Wazuh.TiesKeepTheirOrder | internal/connector/wazuh.go:359-369 | the sort is stable: agents of one tier and name stay in the order they came |
| Wazuh.RankOfAgent | internal/connector/wazuh.go:374-386 | the rank of an item in terms of the agent's state and groups |
| Wazuh.CapDropsTheLeast | internal/connector/wazuh.go:163-193 | items kept, items the cap drops and agents never fetched are the whole population; no dropped agent outranks a kept one; nobody at all left out does iff no unfetched agent is before the last kept |
| Wazuh.SummarizeAgents | internal/connector/wazuh.go:398-436 | every key, collisions included, holds its initial value plus what each agent adds |
| Wazuh.AddedCounts | internal/connector/wazuh.go:417-434 | those additions in closed form, as counts over the agents fetched |
| Wazuh.TotalIsTheFleet | internal/connector/wazuh.go:163-168 | the total is the whole fleet's less the agents unfetched plus those in a state called "total"; with no such state it is the fleet's iff nobody was left out, with everyone fetched iff there is no such state |
| Wazuh.StateCountsAreExact | internal/connector/wazuh.go:421-426 | with ordinary states each state's count is the population's less the unfetched, so true iff nobody in that state was left out |
| Wazuh.CriticalCountsAreExact | internal/connector/wazuh.go:428-433 | so are the counts of critical agents, iff none was left out, and they are within critical_total and their state's count |
| Wazuh.StatesSumToTotal | internal/connector/wazuh.go:393-397 | the state counts sum to the total, and to the whole fleet iff nobody was left out |
| Wazuh.CriticalKeysSayWhetherChecked | internal/connector/wazuh.go:399-416 | with ordinary states the critical keys are in the summary iff groups are configured, so absence never means none |
| Wazuh.Execute | internal/connector/wazuh.go:152-215 | a step is refused by the checks or gives the capped sorted items and the summary of the agents fetched, the number the manager reports, and the warning iff nothing was checked |
| Wazuh.StatusIsOfItsHost | internal/connector/wazuh.go:152-215 | a status answer shows only agents called by its host's name and reports how many there are |
| Wazuh.InventoryIsOfTheFirst | internal/connector/wazuh.go:163-193 | an inventory is of the first min(limit, 500) agents of the fleet, shows at most 60 and reports how many there are |
| Wazuh.CompleteWhenItFits | internal/connector/wazuh.go:163-168 | a fetch misses nobody when the population is within its limit and, if the manager's own record comes first, only then |
| Wazuh.TruncationIsNotIncompleteness | internal/connector/wazuh.go:210-212 | the total is the whole fleet's iff the number reported is within the fetch limit; the truncated mark says only that there are more than sixty |
| Wazuh.UnfetchedCriticalAgentIsInvisible | internal/connector/wazuh.go:30-34 | counterexample, at the limit of 500 as at any over 60: of one agent more, the one critical agent out of contact is neither named nor counted, with no warning and the same evidence, but for the number reported, as the others alone |
| Pegasus.ScanRows | internal/connector/pegasusdb.go:219-268 | items are a prefix of the rows within both limits, each showing the cells of its row under the names of its columns, cut and marked past 4096 bytes and blank when NULL, and capped iff a limit cut them or the last row spent the budget |
| Pegasus.ReadRow | internal/connector/pegasusdb.go:233-248 | a row becomes its columns' names and no others, each with the cell of the last column of that name: whole up to 4096 bytes, its first 4096 and an ellipsis past that, empty for NULL |
| Pegasus.RowBytesAreShown | internal/connector/pegasusdb.go:233-255 | with distinct columns, what a row spends of the budget is the bytes of the names and values shown |
| Pegasus.SpentIsShown | internal/connector/pegasusdb.go:233-255 | so is what a run of rows spends |
| Pegasus.Evidence | internal/connector/pegasusdb.go:159-198 | evidence not marked truncated shows every row, cell for cell; items stay within the requested rows, or the configured ones when those are fewer or none are requested; it is marked iff a row is missing or the budget is spent |
| Pegasus.CountQueryIsOneStatement | internal/connector/pegasusdb.go:205-213 | the row count wraps exactly one statement of a validated query |
| Splitter.Split | internal/zoom/client.go:285-318 | chunks within the limit that, with only newlines between them, are the trimmed text, greedily packed, cut only inside a line longer than a message |
| Splitter.TrimmedIsBetweenSpaces | internal/zoom/client.go:289 | what is split is the text without the UTF-8 white space around it: the text is white space, that, and white space, and no white space rune begins or ends it |
| Splitter.SplitIsShort | internal/zoom/client.go:304-316 | hence at most 2(length+1)/(limit+1)+1 chunks |
| Splitter.LinesThatFitStayWhole | internal/zoom/client.go:285-287 | every line that fits in a message lies in one chunk |
| Splitter.LinesThatDoNotFitFillAChunk | internal/zoom/client.go:305-309 | every line that does not fills a chunk that is not the last |
| Splitter.Post | internal/zoom/client.go:147-164 | chunks go out in order under their headings until the first refusal, and the report says how many did; a message exceeds 3500 bytes iff its chunk and heading do, by at most the heading, and one does whenever a line of the text does |
| Splitter.LabelledBound | internal/zoom/client.go:153-155 | a heading adds the digits of its two numbers and four bytes |
| Splitter.LabelledReads | internal/zoom/client.go:153-155 | one of several messages begins with its number from one and the number of messages, in decimal, in parentheses |
| Splitter.DecimalIsNumeral | internal/zoom/client.go:153-155 | which are digits that spell the number, without a leading zero |
| AgentReads.FilesystemRead | internal/agent/service.go:263-311 | one page: the bytes of the file from the offset on, as many as the requested bound when it is between 1 and the configured one and the configured one otherwise, flagged iff the file goes on; refused iff the offset is negative |
| AgentReads.PagingRebuildsTheFile | internal/agent/service.go:290-310 | reading on while truncated rebuilds the file from any offset iff the bound in force is short of the largest 64-bit length or nothing is left |
| AgentReads.FilesystemTail | internal/agent/service.go:313-370 | the last min(size, bound) bytes, the bound as for a read, ending at the end of the file, flagged iff something precedes them |
| AgentReads.ListProcesses | internal/agent/service.go:372-405 | processes in order of number, the lowest kept under the cap, each listed at most as often as directories named by its number give it, exactly as often when none is left out; if no number repeats, exactly the sorted list |
| AgentReads.ProcessesAreYielded | internal/agent/service.go:372-393 | before the cap a record is listed as often as entries give it, one for every directory named by a number |
| AgentReads.OneOrder | internal/agent/service.go:395 | if no number repeats there is one list in order, so any sort leaves it |
| AgentReads.CapKeepsTheLowest | internal/agent/service.go:395-399 | nothing is lost or invented and no process left out has a lower number than one kept |
| Base64.RoundTrip | internal/agent/service.go:500-503 | decoding undoes encoding, four symbols for every three bytes or part of three |
| Base64.EncodeIsBaseSixtyFour | internal/agent/service.go:500-503 | every three bytes become the four digits of their number in base 64, written in the alphabet, with padding for digits past the content |
| AgentAgreement.ContentComesBack | internal/agent/service.go:493-504 | content is in its answer as it is, labelled text, iff it is valid UTF-8; otherwise a body of ASCII bytes labelled base64 decodes to it |
| AgentAgreement.ContentMeasuresItself | internal/connector/sroiaaa.go:334-346 | whatever the bytes, and in either encoding, the connector measures what was read |
| AgentAgreement.ReadsAgree | internal/agent/service.go:305-310 | an agent's read draws no warning and its byte count is stated |
| AgentAgreement.TailsAgree | internal/agent/service.go:363-369 | nor does a tail, and no line count is stated for it |
| AgentAgreement.ProcessListsAgree | internal/agent/service.go:401-404 | nor does a process list |
| AgentAgreement.DisagreementsAreFlagged | internal/connector/sroiaaa.go:309-320 | for any answer, a disagreement is warned about iff a number is stated and differs from what was counted |
| Paths.CleanIsCanonical | internal/agent/service.go:531-542 | cleaning gives a canonical path with the same components |
| Paths.LastElement | internal/agent/paths.go:17-32 | the components of every rooted path from its last element back: a name adds itself, a blank or "." nothing, ".." takes the last away and at the root nothing |
| Paths.DownAndUp | internal/agent/paths.go:17-32 | a step down and up again is no step |
| Paths.RenderSnoc | internal/agent/service.go:531-542 | a cleaned path is its components, each after a slash |
| Paths.AdmitsIsContainment | internal/agent/paths.go:27-31 | the string test accepts iff the root's components are a prefix of the path's; "/" admits only itself |
| Paths.CanonicalizeRoots | internal/agent/service.go:531-542 | every root is resolved, or only cleaned when its links cannot be followed |
| Paths.ResolveAllowed | internal/agent/paths.go:9-33 | a path is refused as not absolute, unresolvable or not allowed, or admitted, iff the text, the links and the roots say so: admitted iff where it really leads is under a root by components |

## Left out

- Splitter.Split: does not claim chunks are non-empty, because blank lines between full-length lines can make one that is empty.
- Session.Session.Ask: leaves out request ids, timestamps, durations, the detail text of trace entries and errors, and a failing audit write; the float64 token ratios are exact floors of 5n/11 and n/4.
- Zabbix.Execute: leaves out the host_known lookup and the rendering of items; trigger and event rows share one record, and text search is an arbitrary predicate.
- Wazuh.Execute: takes the keep-alive filter as a predicate over agents, and the number of rows a manager returns when asked for none as a field of it.
- RequestTracker.Execute: the search it composes for a step is a predicate over tickets; the TicketSQL text, its escaping and the rendering of dates are not modelled.
- Pegasus.Evidence: takes the row count as given; the theorem is for a count that saw the rows the scan saw.
- AgentReads.FilesystemTail: the splitting of a tail into lines is an input to AgentAgreement.TailsAgree.
- HTTP, TLS, JSON, SQL drivers, tokens and their cache, signatures and the grouping of signature variants, redaction, environment variables and configuration parsing.
- Transport and decoding failures of connectors, beyond the cursor errors of a query scan: they end a step and produce no evidence.
- Changes in a remote population between the calls of one step.
- The civil calendar, zone data and Unicode tables beyond ASCII letters, white space and controls: fields of `Clock.Library`.
- The prompt, its ablation markers, the evaluation scripts and the commands.
- filesystem.list, filesystem.stat and host.info: single records or plain listings.

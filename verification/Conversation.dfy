/** What holds of every run of the session loop, whatever the model and the connectors reply. */
module Conversation {
  import opened Basics
  import opened Text
  import opened Clock
  import opened Types
  import opened Monitoring
  import opened PolicyRules
  import opened Sql
  import opened Routing
  import opened Execution
  import opened Budget
  import opened Session
  import opened Authorization

  /** The loop goes on after this turn. */
  predicate Continues(v: Verdict) {
    match v
    case PushedBack | TooLarge(_, _) | Withheld(_, _) | Admitted(_, _, _, _) => true
    case CallFailed(_, failure, _) => Recoverable(failure)
    case _ => false
  }

  /** A plan was allowed on this turn, whether or not its evidence survived. */
  predicate WasAllowed(v: Verdict) {
    match v
    case CallFailed(_, failure, _) => failure.NotExecuted?
    case Unencodable(_, _) | TooLarge(_, _) | Withheld(_, _) | Admitted(_, _, _, _) => true
    case _ => false
  }

  predicate WasDenied(v: Verdict) {
    v.CallFailed? && v.failure.Denied?
  }

  /** A denial the model gets no second attempt at. */
  predicate IsRefusal(v: Verdict) {
    v.CallFailed? && !Recoverable(v.failure)
  }

  /** The plan the router made on turn t for these arguments, decoded on that turn. */
  function Authorised(w: World, t: nat, call: ToolCall): Option<RoutePlan> {
    match w.decode(call.arguments)
    case None => None
    case Some(request) =>
      match Plan(w.lib, w.router, request, w.clock(t))
      case Ok(plan) => Some(plan)
      case Err(_) => None
  }

  /** What connectors were handed on a turn is what running that turn's own plan hands them; a turn
      without an allowed plan hands them nothing. */
  ghost predicate HandedLawfully(w: World, t: nat, v: Verdict) {
    if !WasAllowed(v) then v.Handed() == []
    else
      && v.call.name == TOOL_NAME
      && Authorised(w, t, v.call).Some?
      && var ran := RunSteps(w.lib, w.executor(t), Authorised(w, t, v.call).value.steps);
        v.Handed() == ran.handed && (v.Admitted? ==> v.evidence == ran.evidence && ran.error.None?)
  }

  /** The two messages a continuing turn adds: the model's, and the answer to its first call. */
  ghost predicate Exchange(w: World, a: Message, b: Message, v: Verdict) {
    && a.role.Assistant?
    && match v
       case PushedBack => a.toolCalls == [] && b == Message(User, w.pushback)
       case CallFailed(call, failure, _) => Answers(a, b, call) && b.content == w.complaint(failure)
       case TooLarge(call, _) => Answers(a, b, call) && b.content == w.tooLargeNotice
       case Withheld(call, _) => Answers(a, b, call) && b.content == w.withheldNotice
       case Admitted(call, _, intent, evidence) =>
         && Answers(a, b, call)
         && w.encode(intent, evidence) == Some(b.content)
         && ByteLen(b.content) <= w.evidenceBudget
       case _ => false
  }

  /** A tool message answers the first call of an assistant message. */
  predicate Answers(a: Message, b: Message, call: ToolCall) {
    a.toolCalls != [] && a.toolCalls[0] == call && b == EvidenceMessage(call.id, b.content)
  }

  function NextDecision(d: Decision, v: Verdict): Decision {
    if IsRefusal(v) then DecisionDenied
    else if WasAllowed(v) then DecisionAllowed
    else if WasDenied(v) && d == NoToolCall then DecisionDenied
    else d
  }

  /** The call a turn ran, if it got that far. */
  function CallOf(v: Verdict): Option<ToolCall> {
    match v
    case CallFailed(call, _, _) => Some(call)
    case Unencodable(call, _) => Some(call)
    case TooLarge(call, _) => Some(call)
    case Withheld(call, _) => Some(call)
    case Admitted(call, _, _, _) => Some(call)
    case _ => None
  }

  function NextProposed(proposed: string, v: Verdict): string {
    if proposed == "" && CallOf(v).Some? then CallOf(v).value.arguments else proposed
  }

  function NextPlan(w: World, t: nat, plan: Option<RoutePlan>, v: Verdict): Option<RoutePlan> {
    if WasAllowed(v) then Authorised(w, t, CallOf(v).value) else plan
  }

  /** Everything one turn does that later turns or the reader of a run depend on. */
  ghost predicate Effect(w: World, t: nat, s: State, s': State) {
    && |s'.log| == |s.log| + 1 && s'.log[..|s.log|] == s.log
    && var v := s'.log[|s.log|];
      && (v.Spoke? <==> w.reply(t).Choice? && w.reply(t).calls == [] && !v.PushedBack?)
      && HandedLawfully(w, t, v)
      && s'.event.decision == NextDecision(s.event.decision, v)
      && s'.event.proposed == NextProposed(s.event.proposed, v)
      && s'.event.plan == NextPlan(w, t, s.event.plan, v)
      && s'.event.calls == s.event.calls + (if v.Admitted? then Records(v.evidence) else [])
      && s'.budgetReached == (s.budgetReached || v.Withheld?)
      && s'.forceTool == v.PushedBack?
      && (s'.outcome.None? <==> Continues(v))
      && (Continues(v) ==>
            && |s'.messages| == |s.messages| + 2 && s'.messages[..|s.messages|] == s.messages
            && Exchange(w, s'.messages[|s.messages|], s'.messages[|s.messages| + 1], v)
            && s'.event.answerChars == s.event.answerChars && s'.event.status == s.event.status)
      && (v.Admitted? ==> RoomForMore(s'.messages[..|s.messages| + 1], w.toolBytes, ByteLen(s'.messages[|s.messages| + 1].content)))
      && (!Continues(v) ==> Ends(w, t, s, s', v))
  }

  /** How a turn that stops the run leaves it. */
  ghost predicate Ends(w: World, t: nat, s: State, s': State, v: Verdict)
  {
    && s'.outcome.Some?
    && match s'.outcome.value
       case Ok(answer) =>
         && v.Spoke? && w.reply(t).Choice? && TrimSpace(w.reply(t).content) != ""
         && answer == Disclose(w.lib.runes, TrimSpace(w.reply(t).content), s.budgetReached)
         && s'.event.answer == answer && s'.event.answerChars == ByteLen(answer) && s'.event.status == s.event.status
       case Err(stop) =>
         && (stop.Refused? <==> IsRefusal(v))
         && (stop.Refused? ==> v.CallFailed? && stop.failure == v.failure)
         && s'.event.answerChars == s.event.answerChars
  }

  lemma CallTurnEffect(w: World, t: nat, s: State, content: string, calls: seq<ToolCall>)
    requires calls != [] && !s.forceTool && s.outcome.None? && w.reply(t) == Choice(content, calls)
    ensures Effect(w, t, s, CallTurn(w, t, s, content, calls))
  {
    var call := calls[0];
    if call.name == TOOL_NAME {
      var proposed := if s.event.proposed == "" then call.arguments else s.event.proposed;
      var ran := RunCall(w, t, call, s.event.decision, s.event.plan);
      var mid := s.(
        trace := s.trace + [TraceEntry(IntentProposed, true)] + ran.trace,
        event := s.event.(proposed := proposed).(decision := ran.decision, plan := ran.plan),
        messages := s.messages + [Message(Assistant, content, toolCalls := calls)]);
      assert CallTurn(w, t, s, content, calls) == SettleCall(w, mid, call, ran);
      RunCallFacts(w, t, call, s.event.decision, s.event.plan);
      SettleEffect(w, t, s, mid, content, calls, ran);
    }
  }

  /** A call that ran did so under the plan authorised for its own arguments. */
  lemma RunCallFacts(w: World, t: nat, call: ToolCall, decision: Decision, plan: Option<RoutePlan>)
    ensures var ran := RunCall(w, t, call, decision, plan);
      && (ran.result.Err? && !ran.result.error.NotExecuted? ==> ran.handed == [])
      && (ran.result.Ok? || ran.result.error.NotExecuted? ==>
            && Authorised(w, t, call).Some? && ran.decision == DecisionAllowed && ran.plan == Authorised(w, t, call)
            && ran.handed == RunSteps(w.lib, w.executor(t), Authorised(w, t, call).value.steps).handed)
      && (ran.result.Ok? ==>
            && ran.result.value == RunSteps(w.lib, w.executor(t), Authorised(w, t, call).value.steps).evidence
            && RunSteps(w.lib, w.executor(t), Authorised(w, t, call).value.steps).error.None?)
      && (ran.result.Err? && !ran.result.error.NotExecuted? ==> ran.plan == plan)
      && (ran.result.Err? && ran.result.error.Denied? ==>
            ran.decision == if decision == NoToolCall then DecisionDenied else decision)
      && (ran.result.Err? && ran.result.error.Undecodable? ==> ran.decision == decision)
  {
    hide Plan, RunSteps;
  }

  /** The state between proposing a call and settling it. */
  ghost predicate Proposed(
      w: World, t: nat, s: State, mid: State, content: string, calls: seq<ToolCall>, ran: CallOutcome)
  {
    && calls != [] && calls[0].name == TOOL_NAME && s.outcome.None? && !s.forceTool
    && w.reply(t) == Choice(content, calls)
    && ran == RunCall(w, t, calls[0], s.event.decision, s.event.plan)
    && mid.messages == s.messages + [Message(Assistant, content, toolCalls := calls)]
    && mid.event.proposed == (if s.event.proposed == "" then calls[0].arguments else s.event.proposed)
    && mid.event.plan == ran.plan
    && mid.event.decision == ran.decision && mid.event.calls == s.event.calls
    && mid.event.answerChars == s.event.answerChars && mid.event.status == s.event.status
    && mid.log == s.log && mid.budgetReached == s.budgetReached && mid.outcome.None? && !mid.forceTool
  }

  lemma SettleEffect(w: World, t: nat, s: State, mid: State, content: string, calls: seq<ToolCall>, ran: CallOutcome)
    requires Proposed(w, t, s, mid, content, calls, ran)
    ensures Effect(w, t, s, SettleCall(w, mid, calls[0], ran))
  {
    hide SettleCall, Effect, Proposed;
    match ran.result
    case Err(_) => FailureEffect(w, t, s, mid, content, calls, ran);
    case Ok(_) => EvidenceEffect(w, t, s, mid, content, calls, ran);
  }

  lemma FailureEffect(w: World, t: nat, s: State, mid: State, content: string, calls: seq<ToolCall>, ran: CallOutcome)
    requires Proposed(w, t, s, mid, content, calls, ran) && ran.result.Err?
    ensures Effect(w, t, s, SettleCall(w, mid, calls[0], ran))
  {
    hide RunCall, RunSteps, Plan, Authorised, Retryable;
    RunCallFacts(w, t, calls[0], s.event.decision, s.event.plan);
    assert mid.messages[..|s.messages|] == s.messages;
    assert SettleCall(w, mid, calls[0], ran).log == s.log + [CallFailed(calls[0], ran.result.error, ran.handed)];
  }

  lemma EvidenceEffect(w: World, t: nat, s: State, mid: State, content: string, calls: seq<ToolCall>, ran: CallOutcome)
    requires Proposed(w, t, s, mid, content, calls, ran) && ran.result.Ok?
    ensures Effect(w, t, s, SettleCall(w, mid, calls[0], ran))
  {
    hide RunCall, RunSteps, Plan, Authorised, Estimate, RoomForMore, JsonTokens, Slack, ByteLen, Records;
    RunCallFacts(w, t, calls[0], s.event.decision, s.event.plan);
    var s' := SettleCall(w, mid, calls[0], ran);
    assert mid.messages[..|s.messages|] == s.messages;
    if s'.log[|s.log|].Admitted? {
      assert s'.messages[..|s.messages| + 1] == mid.messages;
    }
    assert WasAllowed(s'.log[|s.log|]) && CallOf(s'.log[|s.log|]) == Some(calls[0]);
  }

  lemma TurnEffect(w: World, t: nat, s: State)
    requires s.outcome.None?
    ensures Effect(w, t, s.(forceTool := false), Turn(w, t, s))
  {
    hide CallTurn, Disclose;
    match w.reply(t)
    case NoReply =>
    case Choice(content, calls) =>
      if calls != [] {
        CallTurnEffect(w, t, s.(forceTool := false), content, calls);
      }
  }

  // ------------------------------------------------------------------- history

  /** The history at the head of turn t: the prompt, the question and one exchange for each turn
      taken; every admitted payload is within the evidence budget, and there was room for it beside
      the messages before it. */
  ghost predicate HistoryShape(w: World, question: string, s: State, t: nat) {
    && |s.messages| == 2 + 2 * t && |s.log| == t
    && s.messages[0] == Message(System, w.systemPrompt) && s.messages[1] == Message(User, question)
    && (forall k :: 0 <= k < t ==> Exchange(w, s.messages[2 + 2 * k], s.messages[3 + 2 * k], s.log[k]))
    && (forall k :: 0 <= k < t && s.log[k].Admitted? ==>
          RoomForMore(s.messages[..3 + 2 * k], w.toolBytes, ByteLen(s.messages[3 + 2 * k].content)))
    && (s.forceTool <==> t > 0 && s.log[t - 1].PushedBack?)
  }

  lemma {:induction false} HistoryAtHead(w: World, question: string, model: string, t: nat)
    requires After(w, question, model, t).outcome.None?
    ensures HistoryShape(w, question, After(w, question, model, t), t)
  {
    hide Turn, RoomForMore, Exchange, HandedLawfully, Ends, NextDecision, NextPlan, NextProposed, Records;
    if t > 0 {
      var before := After(w, question, model, t - 1);
      HistoryAtHead(w, question, model, t - 1);
      TurnEffect(w, t - 1, before);
      var s := After(w, question, model, t);
      assert Continues(s.log[t - 1]);
      forall k | 0 <= k < t - 1
        ensures s.messages[2 + 2 * k] == before.messages[2 + 2 * k] && s.messages[3 + 2 * k] == before.messages[3 + 2 * k]
        ensures s.messages[..3 + 2 * k] == before.messages[..3 + 2 * k]
        ensures s.log[k] == before.log[k]
      {
        assert s.messages[..|before.messages|] == before.messages;
      }
    }
  }

  /** In every run a request completed by an admitted payload is within the served context plus the
      slack of the wrapper, and past the served context exactly when the payload overfilled the room
      there was. */
  lemma AdmittedRequests(w: World, question: string, model: string, t: nat, k: nat)
    requires After(w, question, model, t).outcome.None?
    requires k < t && k < |After(w, question, model, t).log| && After(w, question, model, t).log[k].Admitted?
    ensures HistoryShape(w, question, After(w, question, model, t), t)
    ensures var s := After(w, question, model, t);
      var id, payload := s.log[k].call.id, ByteLen(s.messages[3 + 2 * k].content);
      var completed := Estimate(s.messages[..4 + 2 * k], w.toolBytes);
      && payload <= w.evidenceBudget
      && completed <= SERVED_CONTEXT_TOKENS + Slack(id)
      && (completed > SERVED_CONTEXT_TOKENS
          <==> Overfills(payload, SERVED_CONTEXT_TOKENS - Estimate(s.messages[..3 + 2 * k], w.toolBytes), 20 + ByteLen(id)))
  {
    hide After, Estimate, ByteLen, Slack, JsonTokens;
    HistoryAtHead(w, question, model, t);
    var s := After(w, question, model, t);
    var m := s.messages[3 + 2 * k];
    assert Exchange(w, s.messages[2 + 2 * k], m, s.log[k]);
    assert m == EvidenceMessage(s.log[k].call.id, m.content);
    assert s.messages[..4 + 2 * k] == s.messages[..3 + 2 * k] + [m];
    AdmissionBound(s.messages[..3 + 2 * k], w.toolBytes, s.log[k].call.id, m.content);
  }

  /** What a run whose first reply is a call that works comes to after that turn. */
  lemma FirstCallIsAdmitted(
      w: World, question: string, model: string, call: ToolCall, request: RouteRequest, plan: RoutePlan, ran: Ran, json: string)
    requires w.reply(0) == Choice("", [call]) && call.name == TOOL_NAME
    requires w.decode(call.arguments) == Some(request) && Plan(w.lib, w.router, request, w.clock(0)) == Ok(plan)
    requires RunSteps(w.lib, w.executor(0), plan.steps) == ran && ran.error.None?
    requires w.encode(plan.intent, ran.evidence) == Some(json) && ByteLen(json) <= w.evidenceBudget
    requires RoomForMore(Start(w, question, model).messages + [Message(Assistant, "", toolCalls := [call])],
      w.toolBytes, ByteLen(json))
    ensures var s := After(w, question, model, 1);
      && s.outcome.None? && s.log == [Admitted(call, ran.handed, plan.intent, ran.evidence)]
      && s.messages == Start(w, question, model).messages
        + [Message(Assistant, "", toolCalls := [call])] + [EvidenceMessage(call.id, json)]
  {
    hide Plan, RunSteps, ByteLen, RoomForMore, TrimSpace;
    assert After(w, question, model, 1) == Turn(w, 0, Start(w, question, model));
  }

  // ----------------------------------------------------------------- whole runs

  function DecisionOf(log: seq<Verdict>): Decision {
    if log == [] then NoToolCall else NextDecision(DecisionOf(log[..|log| - 1]), log[|log| - 1])
  }

  function CallsOf(log: seq<Verdict>): seq<AuditCall> {
    if log == [] then []
    else
      var v := log[|log| - 1];
      CallsOf(log[..|log| - 1]) + (if v.Admitted? then Records(v.evidence) else [])
  }

  /** The arguments first proposed, and the plan last allowed. */
  function ProposedIn(log: seq<Verdict>): string {
    if log == [] then "" else NextProposed(ProposedIn(log[..|log| - 1]), log[|log| - 1])
  }

  function PlanIn(w: World, log: seq<Verdict>): Option<RoutePlan> {
    if log == [] then None else NextPlan(w, |log| - 1, PlanIn(w, log[..|log| - 1]), log[|log| - 1])
  }

  predicate AnyWithheld(log: seq<Verdict>) {
    exists k :: 0 <= k < |log| && log[k].Withheld?
  }

  /** What the log of a run says about its state, stopped or not. */
  ghost predicate Accounted(w: World, s: State, t: nat) {
    && |s.log| <= t
    && (forall k :: 0 <= k < |s.log| ==> HandedLawfully(w, k, s.log[k]))
    && (forall k :: 0 <= k < |s.log| - 1 ==> Continues(s.log[k]))
    && s.event.decision == DecisionOf(s.log)
    && s.event.calls == CallsOf(s.log)
    && s.event.proposed == ProposedIn(s.log)
    && s.event.plan == PlanIn(w, s.log)
    && (s.budgetReached <==> AnyWithheld(s.log))
    && match s.outcome
       case None =>
         && |s.log| == t && (t > 0 ==> Continues(s.log[t - 1]))
         && s.event.answerChars == 0 && s.event.status == Answered
       case Some(outcome) =>
         && s.log != [] && !Continues(s.log[|s.log| - 1])
         && match outcome
            case Ok(answer) =>
              && s.log[|s.log| - 1].Spoke?
              && w.reply(|s.log| - 1).Choice?
              && TrimSpace(w.reply(|s.log| - 1).content) != ""
              && answer == Disclose(w.lib.runes, TrimSpace(w.reply(|s.log| - 1).content), AnyWithheld(s.log))
              && s.event.answer == answer && s.event.answerChars == ByteLen(answer) && s.event.status == Answered
            case Err(stop) =>
              && (stop.Refused? <==> IsRefusal(s.log[|s.log| - 1]))
              && (stop.Refused? ==> stop.failure == s.log[|s.log| - 1].failure)
              && s.event.answerChars == 0
  }

  lemma {:induction false} RunIsAccounted(w: World, question: string, model: string, t: nat)
    ensures Accounted(w, After(w, question, model, t), t)
  {
    hide Turn, HandedLawfully, Exchange, NextDecision, NextPlan, NextProposed, Records, Disclose, RoomForMore, ByteLen,
      TrimSpace, Recoverable, IsRefusal;
    if t > 0 {
      var s := After(w, question, model, t - 1);
      RunIsAccounted(w, question, model, t - 1);
      if s.outcome.None? {
        TurnEffect(w, t - 1, s);
        var s' := After(w, question, model, t);
        assert s'.log[..|s'.log| - 1] == s.log;
        assert forall k :: 0 <= k < |s.log| ==> s'.log[k] == s.log[k];
        assert AnyWithheld(s'.log) <==> AnyWithheld(s.log) || s'.log[|s.log|].Withheld?;
      }
    }
  }

  /** The run as its caller sees it has a log of at most five turns. */
  lemma FinalIsAccounted(w: World, question: string, model: string)
    ensures var final := Final(w, question, model);
      && Accounted(w, After(w, question, model, MAX_TOOL_CALLS), MAX_TOOL_CALLS)
      && final.log == After(w, question, model, MAX_TOOL_CALLS).log
      && final.outcome.Some?
  {
    RunIsAccounted(w, question, model, MAX_TOOL_CALLS);
  }

  /** Every step connectors were handed during a run, in order. */
  function StepsHanded(log: seq<Verdict>): seq<RouteStep> {
    if log == [] then [] else StepsHanded(log[..|log| - 1]) + log[|log| - 1].Handed()
  }

  /** A turn hands over at most the one step of its own plan. */
  lemma OneStepATurn(w: World, t: nat, v: Verdict)
    requires HandedLawfully(w, t, v)
    ensures |v.Handed()| <= 1
    ensures v.Handed() != [] ==>
      Authorised(w, t, v.call).Some? && v.Handed() == Authorised(w, t, v.call).value.steps
  {
    hide Plan, RunSteps;
    if WasAllowed(v) {
      var plan := Authorised(w, t, v.call).value;
      PlannedShape(w.lib, w.router, w.decode(v.call.arguments).value, w.clock(t));
      RunIsAPrefix(w.lib, w.executor(t), plan.steps);
      assert v.Handed() <= plan.steps;
    }
  }

  lemma {:induction false} FewStepsHanded(w: World, log: seq<Verdict>)
    requires forall k :: 0 <= k < |log| ==> HandedLawfully(w, k, log[k])
    ensures |StepsHanded(log)| <= |log|
  {
    if log != [] {
      FewStepsHanded(w, log[..|log| - 1]);
      OneStepATurn(w, |log| - 1, log[|log| - 1]);
    }
  }

  /** At most five steps reach connectors in a whole run, and each is the step of a plan the router
      made for arguments decoded on that very turn. */
  lemma RunsHandOverOnlyAuthorisedSteps(w: World, question: string, model: string)
    ensures var log := Final(w, question, model).log;
      && |log| <= MAX_TOOL_CALLS && |StepsHanded(log)| <= MAX_TOOL_CALLS
      && forall k :: 0 <= k < |log| && log[k].Handed() != [] ==>
        (Authorised(w, k, log[k].call).Some? && log[k].Handed() == Authorised(w, k, log[k].call).value.steps)
  {
    hide After, Turn, Authorised, DecisionOf, CallsOf, AnyWithheld, Disclose, HandedLawfully, Continues;
    FinalIsAccounted(w, question, model);
    var log := After(w, question, model, MAX_TOOL_CALLS).log;
    FewStepsHanded(w, log);
    forall k | 0 <= k < |log| && log[k].Handed() != []
      ensures Authorised(w, k, log[k].call).Some? && log[k].Handed() == Authorised(w, k, log[k].call).value.steps
    {
      OneStepATurn(w, k, log[k]);
    }
  }

  /** With a router built from a policy, every run stays within it: whatever the model proposes, each
      step that reaches a connector goes to its intent's own source, asks for no more than the fixed
      caps, and, on an endpoint, is exactly what policy grants that host. */
  lemma RunsStayWithinPolicy(w: World, policy: Policy, question: string, model: string, k: nat)
    requires BuiltFrom(w.lib.runes, w.router, policy)
    requires k < |Final(w, question, model).log| && Final(w, question, model).log[k].Handed() != []
    ensures var v := Final(w, question, model).log[k];
      && |v.Handed()| == 1 && w.decode(v.call.arguments).Some?
      && var intent, step := w.decode(v.call.arguments).value.intent, v.Handed()[0];
        && SourceForIntent(intent) == Some(step.source)
        && WithinCaps(intent, step.limit)
        && (step.source.SROIAAA? <==> intent.LiveEvidence?)
        && (intent.LiveEvidence? ==> GrantedTo(policy, step))
  {
    hide After, Turn, Plan, DecisionOf, CallsOf, AnyWithheld, Disclose;
    RunsHandOverOnlyAuthorisedSteps(w, question, model);
    var v := Final(w, question, model).log[k];
    var request := w.decode(v.call.arguments).value;
    PlannedShape(w.lib, w.router, request, w.clock(k));
    if request.intent.LiveEvidence? {
      LivePlanIsGranted(w.lib, w.router, policy, request, w.clock(k));
    }
  }

  /** A refusal, which an unauthorised host or resource always is, is the last thing that happens in
      a run: nothing is handed over on its turn or after it, and the caller gets that refusal. */
  lemma RefusalsEndTheRun(w: World, question: string, model: string, k: nat)
    requires k < |Final(w, question, model).log|
    ensures var final := Final(w, question, model);
      && (IsRefusal(final.log[k]) ==>
            (k == |final.log| - 1 && final.log[k].Handed() == []
            && final.outcome == Some(Err(Refused(final.log[k].failure)))))
      && (final.log[k].CallFailed? && final.log[k].failure.Denied?
            && final.log[k].failure.code in {HostNotAuthorized, ResourceNotAuthorized}
          ==> IsRefusal(final.log[k]))
  {
    hide After, Turn, Authorised, DecisionOf, CallsOf, AnyWithheld, Disclose;
    FinalIsAccounted(w, question, model);
    var v := Final(w, question, model).log[k];
    assert HandedLawfully(w, k, v);
    if IsRefusal(v) {
      assert !Continues(v);
    }
  }

  /** A call for an intent no connector serves hands nothing over, whatever it asks. */
  lemma UnservedCallsRunNothing(w: World, question: string, model: string, k: nat)
    requires var log := Final(w, question, model).log;
      k < |log| && log[k].Handed() != []
    ensures var call := Final(w, question, model).log[k].call;
      && w.decode(call.arguments).Some?
      && SourceForIntent(w.decode(call.arguments).value.intent).Some?
      && SourceForIntent(w.decode(call.arguments).value.intent).value in w.executor(k).connectors
  {
    hide After, Turn, Plan, DecisionOf, CallsOf, AnyWithheld, Disclose;
    FinalIsAccounted(w, question, model);
    var v := Final(w, question, model).log[k];
    assert HandedLawfully(w, k, v);
    var plan := Authorised(w, k, v.call).value;
    var request := w.decode(v.call.arguments).value;
    PlannedShape(w.lib, w.router, request, w.clock(k));
    assert plan.steps[0].source in w.executor(k).connectors;
  }

  /** A session hands a connector only what was asked by an intent it offered: whatever else a model
      proposes, the turn hands nothing over. */
  lemma OnlyOfferedIntentsRun(session: Session, w: World, question: string, k: nat)
    requires session.OffersWhatItServes() && session.RunsIn(w)
    requires k < |Final(w, question, session.model).log|
    ensures var v := Final(w, question, session.model).log[k];
      v.Handed() != [] ==>
        w.decode(v.call.arguments).Some? && w.decode(v.call.arguments).value.intent in session.intents
  {
    hide Final;
    if Final(w, question, session.model).log[k].Handed() != [] {
      UnservedCallsRunNothing(w, question, session.model, k);
    }
  }

  // ---------------------------------------------------------------------- audit

  /** The decision in closed form: refused if the run ended on a refusal, else allowed if any plan
      was, else denied if any was proposed and denied, else nothing was proposed. */
  lemma {:induction false} DecisionExplained(log: seq<Verdict>)
    requires forall k :: 0 <= k < |log| - 1 ==> Continues(log[k])
    ensures DecisionOf(log) ==
      if log != [] && IsRefusal(log[|log| - 1]) then DecisionDenied
      else if exists k :: 0 <= k < |log| && WasAllowed(log[k]) then DecisionAllowed
      else if exists k :: 0 <= k < |log| && WasDenied(log[k]) then DecisionDenied
      else NoToolCall
  {
    if log != [] {
      var before := log[..|log| - 1];
      assert forall k :: 0 <= k < |before| ==> before[k] == log[k] && Continues(log[k]);
      DecisionExplained(before);
    }
  }

  lemma NonEmptyHasBytes(s: string)
    ensures s != "" <==> ByteLen(s) > 0
  {}

  /** The event the audit settles on agrees with the run: answered exactly when a non-empty answer
      came back, which it then records; the decision the plans of the run explain; the arguments
      first proposed and the plan last allowed; and the calls of exactly the evidence admitted to the
      history, in order. */
  lemma AuditAgreesWithRun(w: World, question: string, model: string)
    ensures var final := Final(w, question, model);
      var event := Settled(final.event, final.trace);
      && (event.status == Answered <==> final.outcome.value.Ok?)
      && (final.outcome.value.Ok? ==>
            (final.outcome.value.value != "" && event.answer == final.outcome.value.value
            && event.answerChars == ByteLen(event.answer)))
      && event.decision == DecisionOf(final.log)
      && event.calls == CallsOf(final.log)
      && event.proposed == ProposedIn(final.log) && event.plan == PlanIn(w, final.log)
  {
    hide After, Turn, DecisionOf, CallsOf, HandedLawfully;
    FinalIsAccounted(w, question, model);
    var final := Final(w, question, model);
    match final.outcome.value {
      case Ok(answer) =>
        DisclosureSaysPartial(w.lib.runes, TrimSpace(w.reply(|final.log| - 1).content));
        NonEmptyHasBytes(answer);
      case Err(_) =>
    }
  }

  /** An answer is the model's last words, with the disclosure added exactly when some result was
      withheld for context and the words did not already say so; after a withholding it always says
      it is partial. A result dropped for its own size does not count as withheld. */
  lemma WithholdingIsDisclosed(w: World, question: string, model: string)
    requires Final(w, question, model).outcome.value.Ok?
    ensures var final := Final(w, question, model);
      var last := |final.log| - 1;
      && last >= 0 && w.reply(last).Choice?
      && final.outcome.value.value == Disclose(w.lib.runes, TrimSpace(w.reply(last).content), AnyWithheld(final.log))
      && (AnyWithheld(final.log) ==> SaysPartial(w.lib.runes, final.outcome.value.value))
  {
    hide After, Turn, DecisionOf, CallsOf, HandedLawfully, SaysPartial;
    FinalIsAccounted(w, question, model);
    var final := Final(w, question, model);
    DisclosureSaysPartial(w.lib.runes, TrimSpace(w.reply(|final.log| - 1).content));
  }

  /** What the audit file keeps of an answer: all of it up to the cap, and past the cap a prefix of
      it that lacks less than one rune of the cap's bytes, with a mark. */
  lemma CapKeepsAPrefix(answer: string)
    ensures ByteLen(answer) <= MAX_AUDIT_ANSWER ==> CapAnswer(answer) == answer
    ensures ByteLen(answer) > MAX_AUDIT_ANSWER ==>
      var kept := Fitting(answer, MAX_AUDIT_ANSWER);
      && kept <= answer && kept <= CapAnswer(answer)
      && 0 <= MAX_AUDIT_ANSWER - ByteLen(kept) <= 3
      && |CapAnswer(answer)| == |kept| + (MAX_AUDIT_ANSWER - ByteLen(kept)) + |TRUNCATED|
  {
    if ByteLen(answer) > MAX_AUDIT_ANSWER {
      FittingFits(answer, MAX_AUDIT_ANSWER);
    }
  }

  // -------------------------------------------------------- which requests end a run

  /** The until of a request does not resolve, or does not come after its since. */
  predicate BadUntil(lib: Library, request: RouteRequest, at: Reading) {
    && ParseSince(lib, request.since, at.atSince).Ok?
    && match ParseUntil(lib, request.until, at.atUntil)
       case Err(_) => true
       case Ok(until) =>
         var since := ParseSince(lib, request.since, at.atSince).value;
         since != ZERO_TIME && until != ZERO_TIME && until <= since
  }

  /** A monitoring request that is well formed but for its filters asks for history from no time on, or
      its match text, severity, state or limit is not one the broker accepts. */
  predicate BadFilter(lib: Library, request: RouteRequest, since: Instant) {
    && TakesSelectors(request.intent) && request.resource == ""
    && (request.host != "" ==> ValidHostSelector(lib.runes, request.host))
    && var stateful := request.intent.MonitoringHistory?;
      || (stateful && Stamp(lib, since) == "")
      || (request.pattern != "" && !MatchAccepted(request.pattern))
      || (request.severity != "" && SeverityFloor(lib.runes, request.severity).None?)
      || (stateful && request.state != "" && !StateAccepted(lib.runes, request.state))
      || ((stateful || request.state == "") && ResolveLimit(request.limit).None?)
  }

  /** A well-formed live request for a host or a resource that policy does not list. */
  predicate Ungranted(lib: Library, router: Router, request: RouteRequest) {
    && request.intent.LiveEvidence?
    && request.pattern == "" && request.severity == "" && request.state == "" && request.limit == 0
    && request.host != "" && ValidHostSelector(lib.runes, request.host)
    && request.resource != "" && ValidResourceName(lib.runes, request.resource)
    && request.since == "" && request.until == ""
    && (request.host in router.liveHosts ==> request.resource !in router.liveHosts[request.host])
  }

  /** Exactly which requests planning denies for good. Two kinds are refusals of authority. The rest,
      and they are six codes, are malformed bounds and filters, which the model is not offered to
      correct although it is every other malformed request. */
  lemma DenialsThatEndARun(lib: Library, router: Router, request: RouteRequest, at: Reading)
    ensures var final := Plan(lib, router, request, at).Err? && !Retryable(Plan(lib, router, request, at).error);
      var window := ResolveWindow(lib, request, at);
      && (final <==>
            || BadUntil(lib, request, at)
            || (window.Ok? && (BadFilter(lib, request, window.value.0) || Ungranted(lib, router, request))))
      && (final ==>
            (Plan(lib, router, request, at).error in {HostNotAuthorized, ResourceNotAuthorized}
             <==> window.Ok? && Ungranted(lib, router, request)))
      && (final ==> Plan(lib, router, request, at).error in {HostNotAuthorized, ResourceNotAuthorized,
            InvalidUntil, InvalidMatch, InvalidSeverity, InvalidState, InvalidLimit, MissingSince})
  {
    hide ParseSince, ParseUntil, ValidHostSelector, ValidResourceName, ValidateQuery, SeverityFloor, MatchAccepted,
      StateAccepted, Normalize, TrimSpace, ResolveLimit, Stamp;
  }

  /** On any turn of any run, a call that decodes to such a request stops it: the caller gets that
      refusal, the event is denied, and nothing is handed over. */
  lemma SuchCallsEndTheRun(w: World, t: nat, s: State, content: string, calls: seq<ToolCall>, request: RouteRequest)
    requires w.reply(t) == Choice(content, calls) && calls != [] && calls[0].name == TOOL_NAME
    requires w.decode(calls[0].arguments) == Some(request)
    requires Plan(w.lib, w.router, request, w.clock(t)).Err?
    ensures var code, after := Plan(w.lib, w.router, request, w.clock(t)).error, Turn(w, t, s);
      && after.log == s.log + [CallFailed(calls[0], Denied(code), [])]
      && (if Retryable(code) then after.outcome == s.outcome
          else after.outcome == Some(Err(Refused(Denied(code)))) && after.event.decision == DecisionDenied)
  {
    hide Plan, Retryable;
  }
}

/** What each turn of a run comes to, case by case, in terms of the model's reply and the world's own
    answers; and what a whole run comes to. */
module Turns {
  import opened Basics
  import opened Text
  import opened Clock
  import opened Types
  import opened Routing
  import opened Execution
  import opened Budget
  import opened Session
  import opened Conversation

  // ------------------------------------------------------------- a turn without a call

  /** On a turn without a call the model is pushed back exactly when it wrote something that looks like
      a call and is not on its last turn. Otherwise the run stops: with nothing said if it wrote
      nothing, and else with its words, and the disclosure if evidence was withheld and they do not
      disclose it. */
  lemma SpokenTurn(w: World, t: nat, s: State, content: string)
    requires w.reply(t) == Choice(content, []) && s.outcome.None?
    ensures var answer, after := TrimSpace(content), Turn(w, t, s);
      && |after.log| == |s.log| + 1 && after.log[..|s.log|] == s.log
      && (after.log[|s.log|].PushedBack? <==> answer != "" && w.looksLikeACall(answer) && t < 4)
      && (after.log[|s.log|].PushedBack? ==>
            && after.outcome == None && after.forceTool && after.event == s.event
            && after.messages == s.messages + [Message(Assistant, answer), Message(User, w.pushback)]
            && after.trace == s.trace + [TraceEntry(DescribedInsteadOfCalled, false)])
      && (!after.log[|s.log|].PushedBack? ==> after.log[|s.log|] == Spoke && after.messages == s.messages && !after.forceTool)
      && (!after.log[|s.log|].PushedBack? && answer == "" ==>
            && after.outcome == Some(Err(NothingSaid)) && after.event == s.event.(status := Failed)
            && after.trace == s.trace + [TraceEntry(EmptyAnswer, false)])
      && (!after.log[|s.log|].PushedBack? && answer != "" ==>
            && after.outcome == Some(Ok(Disclose(w.lib.runes, answer, s.budgetReached)))
            && after.trace == s.trace + [TraceEntry(if t == 0 then ModelAnsweredDirectly else AnswerSynthesized, true)])
  {
    hide Disclose, TrimSpace;
  }

  /** The disclosure: nothing withheld, nothing added; and otherwise added exactly when the answer, in
      lower case, holds none of four words. */
  lemma DisclosureAdded(t: Runes, answer: string)
    ensures Disclose(t, answer, false) == answer
    ensures var low := Lower(t, answer);
      if Contains(low, "withheld") || Contains(low, "incomplete") || Contains(low, "not all") || Contains(low, "partial")
      then Disclose(t, answer, true) == answer
      else Disclose(t, answer, true) == answer + DISCLOSURE && DISCLOSURE != ""
  {
    hide Lower, Contains;
  }

  /** One text holds another exactly when it is some text, that one, and some text. */
  lemma {:induction false} ContainsMeans(s: string, part: string)
    ensures Contains(s, part) <==> exists before, after :: s == before + part + after
  {
    if part <= s {
      assert s == "" + part + s[|part|..];
    } else if s != "" {
      ContainsMeans(s[1..], part);
      if before, after :| s[1..] == before + part + after {
        assert s == ([s[0]] + before) + part + after;
      }
    }
    if before, after :| s == before + part + after {
      ContainsMiddle(before, part, after);
    }
  }

  // ---------------------------------------------------------------- a turn with a call

  /** What a reply with a call comes to, in the order the loop decides it: a wrong tool, arguments that
      do not decode, a plan denied, a step that failed, evidence that does not encode, evidence over
      its budget, evidence there is no room for, and evidence admitted. */
  lemma CallVerdict(w: World, t: nat, s: State, content: string, calls: seq<ToolCall>)
    requires w.reply(t) == Choice(content, calls) && calls != [] && s.outcome.None?
    ensures var after, call := Turn(w, t, s), calls[0];
      && |after.log| == |s.log| + 1 && after.log[..|s.log|] == s.log
      && var v := after.log[|s.log|];
      if call.name != "sroiaaa_evidence" then v == Faulted && after.outcome == Some(Err(UnknownTool))
      else match w.decode(call.arguments)
        case None => v == CallFailed(call, Undecodable, []) && after.outcome.None?
        case Some(request) =>
          match Plan(w.lib, w.router, request, w.clock(t))
          case Err(code) => v == CallFailed(call, Denied(code), [])
          case Ok(plan) =>
            var ran := RunSteps(w.lib, w.executor(t), plan.steps);
            match ran.error
            case Some(error) => v == CallFailed(call, NotExecuted(error), ran.handed) && after.outcome.None?
            case None =>
              match w.encode(plan.intent, ran.evidence)
              case None => v == Unencodable(call, ran.handed) && after.outcome == Some(Err(NotEncodable))
              case Some(json) =>
                var history := s.messages + [Message(Assistant, content, toolCalls := calls)];
                var projected := Estimate(history, w.toolBytes) + JsonTokens(ByteLen(json));
                && after.outcome.None?
                && (v == TooLarge(call, ran.handed) <==> ByteLen(json) > w.evidenceBudget)
                && (v == Withheld(call, ran.handed) <==> ByteLen(json) <= w.evidenceBudget && projected > 131072)
                && (v == Admitted(call, ran.handed, plan.intent, ran.evidence)
                    <==> ByteLen(json) <= w.evidenceBudget && projected <= 131072)
  {
    hide Plan, RunSteps, ByteLen, Estimate, JsonTokens, Records, Retryable;
  }

  /** A reply that did not come stops the run. */
  lemma NoReplyStops(w: World, t: nat, s: State)
    requires w.reply(t).NoReply? && s.outcome.None?
    ensures Turn(w, t, s).log == s.log + [Faulted] && Turn(w, t, s).outcome == Some(Err(ModelFailed))
  {}

  /** What the trace says of a turn with a call: the proposal, policy's answer, what was missing or had. */
  function Told(v: Verdict): seq<TraceEntry> {
    match v
    case Faulted => [TraceEntry(ToolRejected, false)]
    case CallFailed(_, Undecodable, _) => [TraceEntry(IntentProposed, true), TraceEntry(IntentRejected, false)]
    case CallFailed(_, Denied(_), _) => [TraceEntry(IntentProposed, true), TraceEntry(PolicyDenied, false)]
    case CallFailed(_, NotExecuted(_), _) =>
      [TraceEntry(IntentProposed, true), TraceEntry(PolicyAllowed, true), TraceEntry(ExecutionFailed, false)]
    case Withheld(_, _) =>
      [TraceEntry(IntentProposed, true), TraceEntry(PolicyAllowed, true), TraceEntry(EvidenceWithheldForContext, false)]
    case Admitted(_, _, _, _) =>
      [TraceEntry(IntentProposed, true), TraceEntry(PolicyAllowed, true), TraceEntry(EvidenceCollected, true)]
    case _ => [TraceEntry(IntentProposed, true), TraceEntry(PolicyAllowed, true)]
  }

  lemma RunTrace(w: World, t: nat, call: ToolCall, decision: Decision, plan: Option<RoutePlan>)
    ensures var ran := RunCall(w, t, call, decision, plan);
      ran.trace == match ran.result
        case Ok(_) => [TraceEntry(PolicyAllowed, true)]
        case Err(Undecodable) => [TraceEntry(IntentRejected, false)]
        case Err(Denied(_)) => [TraceEntry(PolicyDenied, false)]
        case Err(NotExecuted(_)) => [TraceEntry(PolicyAllowed, true), TraceEntry(ExecutionFailed, false)]
  {
    hide Plan, RunSteps;
  }

  lemma Joined(before: seq<TraceEntry>, a: TraceEntry, rest: seq<TraceEntry>, last: seq<TraceEntry>)
    ensures before + [a] + rest == before + ([a] + rest)
    ensures before + [a] + rest + last == before + ([a] + rest + last)
  {}

  lemma SettledTrace(w: World, t: nat, mid: State, call: ToolCall, before: seq<TraceEntry>, decision: Decision, plan: Option<RoutePlan>)
    requires var ran := RunCall(w, t, call, decision, plan);
      mid.trace == before + [TraceEntry(IntentProposed, true)] + ran.trace
    ensures var settled := SettleCall(w, mid, call, RunCall(w, t, call, decision, plan));
      |settled.log| == |mid.log| + 1 && settled.trace == before + Told(settled.log[|mid.log|])
  {
    hide RunCall, ByteLen, RoomForMore, Records, Retryable;
    RunTrace(w, t, call, decision, plan);
    var ran := RunCall(w, t, call, decision, plan);
    Joined(before, TraceEntry(IntentProposed, true), ran.trace, [TraceEntry(EvidenceCollected, true)]);
    Joined(before, TraceEntry(IntentProposed, true), ran.trace, [TraceEntry(EvidenceWithheldForContext, false)]);
  }

  lemma CallTrace(w: World, t: nat, s: State, content: string, calls: seq<ToolCall>)
    requires w.reply(t) == Choice(content, calls) && calls != [] && s.outcome.None?
    ensures |Turn(w, t, s).log| == |s.log| + 1
    ensures Turn(w, t, s).trace == s.trace + Told(Turn(w, t, s).log[|s.log|])
  {
    hide RunCall, SettleCall, SpeakTurn;
    var call := calls[0];
    if call.name == TOOL_NAME {
      var event := s.event.(proposed := if s.event.proposed == "" then call.arguments else s.event.proposed);
      var ran := RunCall(w, t, call, event.decision, event.plan);
      var mid := s.(
        forceTool := false,
        trace := s.trace + [TraceEntry(IntentProposed, true)] + ran.trace,
        event := event.(decision := ran.decision, plan := ran.plan),
        messages := s.messages + [Message(Assistant, content, toolCalls := calls)]);
      assert Turn(w, t, s) == SettleCall(w, mid, call, ran);
      SettledTrace(w, t, mid, call, s.trace, event.decision, event.plan);
    }
  }

  // ----------------------------------------------------------------------- whole runs

  lemma {:induction false} LogGrows(w: World, question: string, model: string, t: nat, later: nat)
    requires t <= later
    ensures After(w, question, model, t).log <= After(w, question, model, later).log
    decreases later
  {
    hide Turn, Effect;
    if t < later {
      LogGrows(w, question, model, t, later - 1);
      var s := After(w, question, model, later - 1);
      if s.outcome.None? {
        LogOfTurn(w, later - 1, s);
      }
    }
  }

  lemma LogOfTurn(w: World, t: nat, s: State)
    requires s.outcome.None?
    ensures s.log <= Turn(w, t, s).log && |Turn(w, t, s).log| == |s.log| + 1
  {
    hide Turn;
    TurnEffect(w, t, s);
  }

  /** The log of a run is what its turns came to, one entry each, in order. */
  lemma LogIsTurnByTurn(w: World, question: string, model: string, k: nat)
    requires k < |Final(w, question, model).log|
    ensures k < 5 && After(w, question, model, k).outcome.None? && |After(w, question, model, k).log| == k
    ensures After(w, question, model, k + 1) == Turn(w, k, After(w, question, model, k))
    ensures |Turn(w, k, After(w, question, model, k)).log| == k + 1
    ensures Final(w, question, model).log[k] == Turn(w, k, After(w, question, model, k)).log[k]
  {
    hide Turn, HandedLawfully, Continues, DecisionOf, CallsOf, ProposedIn, PlanIn, AnyWithheld, Disclose;
    var s := After(w, question, model, k);
    RunIsAccounted(w, question, model, MAX_TOOL_CALLS);
    RunIsAccounted(w, question, model, k);
    if s.outcome.Some? {
      StaysStopped(w, question, model, k, MAX_TOOL_CALLS);
    }
    LogOfTurn(w, k, s);
    LogGrows(w, question, model, k + 1, MAX_TOOL_CALLS);
  }

  /** On every turn of every run without a call, the model is pushed back exactly when its words look
      like a call and it is not the fifth turn; and otherwise that turn is the last and its words, with
      the disclosure if anything was withheld, are the outcome. */
  lemma SpokenTurnsOfARun(w: World, question: string, model: string, k: nat, content: string)
    requires k < |Final(w, question, model).log| && w.reply(k) == Choice(content, [])
    ensures var final, answer := Final(w, question, model), TrimSpace(content);
      && (final.log[k].PushedBack? <==> answer != "" && w.looksLikeACall(answer) && k < 4)
      && (!final.log[k].PushedBack? ==>
            && k == |final.log| - 1
            && final.outcome == Some(if answer == "" then Err(NothingSaid)
                                     else Ok(Disclose(w.lib.runes, answer, AnyWithheld(final.log)))))
  {
    hide Turn, HandedLawfully, DecisionOf, CallsOf, ProposedIn, PlanIn, Disclose, TrimSpace, AnyWithheld;
    LogIsTurnByTurn(w, question, model, k);
    var s := After(w, question, model, k);
    SpokenTurn(w, k, s, content);
    if !Turn(w, k, s).log[k].PushedBack? {
      StaysStopped(w, question, model, k + 1, MAX_TOOL_CALLS);
      RunIsAccounted(w, question, model, MAX_TOOL_CALLS);
    }
  }

  /** On every turn of every run, evidence that came back and encodes is too large exactly when it is
      over the evidence budget, withheld exactly when it is within it and there is no room beside the
      history so far, and admitted exactly when it is within both. */
  lemma SizedTurnsOfARun(
      w: World, question: string, model: string, k: nat, content: string, calls: seq<ToolCall>,
      request: RouteRequest, plan: RoutePlan, evidence: seq<Evidence>, json: string)
    requires k < |Final(w, question, model).log| && w.reply(k) == Choice(content, calls) && calls != []
    requires calls[0].name == "sroiaaa_evidence" && w.decode(calls[0].arguments) == Some(request)
    requires Plan(w.lib, w.router, request, w.clock(k)) == Ok(plan)
    requires RunSteps(w.lib, w.executor(k), plan.steps).error.None?
      && RunSteps(w.lib, w.executor(k), plan.steps).evidence == evidence
    requires w.encode(plan.intent, evidence) == Some(json)
    ensures var v := Final(w, question, model).log[k];
      var history := After(w, question, model, k).messages + [Message(Assistant, content, toolCalls := calls)];
      var projected := Estimate(history, w.toolBytes) + JsonTokens(ByteLen(json));
      && (v.TooLarge? <==> ByteLen(json) > w.evidenceBudget)
      && (v.Withheld? <==> ByteLen(json) <= w.evidenceBudget && projected > 131072)
      && (v.Admitted? <==> ByteLen(json) <= w.evidenceBudget && projected <= 131072)
  {
    hide Turn, Final, After, Plan, RunSteps, ByteLen, Estimate, JsonTokens;
    LogIsTurnByTurn(w, question, model, k);
    CallVerdict(w, k, After(w, question, model, k), content, calls);
  }

  /** A run gives up exactly when it took five turns and would have gone on after the fifth. */
  lemma GivesUpAfterFive(w: World, question: string, model: string)
    ensures var final := Final(w, question, model);
      (After(w, question, model, 5).outcome.None? <==> |final.log| == 5 && Continues(final.log[4]))
      && (After(w, question, model, 5).outcome.None? ==> final.outcome == Some(Err(TurnLimit)))
  {
    hide Turn, HandedLawfully, Continues, DecisionOf, CallsOf, ProposedIn, PlanIn, AnyWithheld, Disclose;
    RunIsAccounted(w, question, model, MAX_TOOL_CALLS);
  }

  // ------------------------------------------------------------------------- the event

  predicate IsLastRefusal(trace: seq<TraceEntry>, i: nat)
    requires i < |trace|
  {
    !trace[i].allowed && forall j :: i < j < |trace| ==> trace[j].allowed
  }

  /** The error an event settles on is the last stage of the run that was not allowed, if any was. */
  lemma {:induction false} LastRefusalMeans(trace: seq<TraceEntry>)
    ensures match LastRefusal(trace)
      case None => forall i :: 0 <= i < |trace| ==> trace[i].allowed
      case Some(stage) => exists i :: 0 <= i < |trace| && IsLastRefusal(trace, i) && trace[i].stage == stage
  {
    if trace != [] {
      var n := |trace| - 1;
      LastRefusalMeans(trace[..n]);
      if trace[n].allowed && LastRefusal(trace[..n]).Some? {
        var i :| 0 <= i < n && IsLastRefusal(trace[..n], i) && trace[..n][i].stage == LastRefusal(trace[..n]).value;
        assert forall j :: i < j < |trace| ==> j == n || trace[j] == trace[..n][j];
        assert IsLastRefusal(trace, i);
      } else if !trace[n].allowed {
        assert IsLastRefusal(trace, n);
      }
    }
  }

  /** Each call on record is one piece of evidence, field for field, in order. */
  lemma {:induction false} RecordsMean(evidence: seq<Evidence>, i: nat)
    ensures |Records(evidence)| == |evidence|
    ensures i < |evidence| ==>
      var r, e := Records(evidence)[i], evidence[i];
      && r.source == e.source && r.action == e.action && r.endpoint == e.endpoint && r.query == e.query
      && r.durationMs == e.durationMs && r.itemCount == e.itemCount && r.truncated == e.truncated && r.summary == e.summary
  {
    if evidence != [] {
      RecordsMean(evidence[1..], if i > 0 then i - 1 else 0);
    }
  }
}

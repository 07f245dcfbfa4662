/** One question through the model, the broker and back: the loop, its trace and its audit event. */
module Session {
  import opened Basics
  import opened Text
  import opened Clock
  import opened Types
  import opened Routing
  import opened Execution
  import opened Budget

  const MAX_TOOL_CALLS := 5
  const MAX_AUDIT_ANSWER := 8192

  /** A reply from the model: none, or a choice with content and proposed calls. */
  datatype Reply = NoReply | Choice(content: string, calls: seq<ToolCall>)

  /** Why a proposed call produced no evidence. */
  datatype Failure = Undecodable | Denied(code: ErrorCode) | NotExecuted(error: StepError)

  /** Everything outside the loop, turn by turn: the model's replies, the clock, what the connectors
      answer. Encoding and decoding of JSON, the prompt and the evidence budget are inputs too. */
  datatype World = World(
    lib: Library,
    router: Router,
    reply: nat -> Reply,
    clock: nat -> Reading,
    executor: nat -> Executor,
    decode: string -> Option<RouteRequest>,
    encode: (Intent, seq<Evidence>) -> Option<string>,
    complaint: Failure -> string,
    looksLikeACall: string -> bool,
    systemPrompt: string,
    toolBytes: Option<nat>,
    evidenceBudget: nat,
    tooLargeNotice: string,
    withheldNotice: string,
    pushback: string)

  datatype Stage =
    | DescribedInsteadOfCalled
    | EmptyAnswer
    | ModelAnsweredDirectly
    | AnswerSynthesized
    | ToolRejected
    | IntentProposed
    | IntentRejected
    | PolicyDenied
    | PolicyAllowed
    | ExecutionFailed
    | EvidenceWithheldForContext
    | EvidenceCollected
    | TurnLimitReached

  datatype TraceEntry = TraceEntry(stage: Stage, allowed: bool)

  datatype Decision = NoToolCall | DecisionDenied | DecisionAllowed

  datatype AuditCall = AuditCall(
    source: Source, action: Action, endpoint: string, query: string, durationMs: int,
    itemCount: int, truncated: bool, summary: map<string, int>)

  datatype AuditStatus = Answered | Failed

  datatype AuditEvent = AuditEvent(
    question: string,
    model: string,
    proposed: string,
    decision: Decision,
    plan: Option<RoutePlan>,
    calls: seq<AuditCall>,
    answer: string,
    answerChars: nat,
    status: AuditStatus,
    error: Option<Stage>)

  /** How a run stopped without an answer. */
  datatype Stop = ModelFailed | NothingSaid | UnknownTool | Refused(failure: Failure) | NotEncodable | TurnLimit

  /** What a turn came to. `handed` is the steps connectors were given on it. */
  datatype Verdict =
    | Spoke
    | PushedBack
    | Faulted
    | CallFailed(call: ToolCall, failure: Failure, handed: seq<RouteStep>)
    | Unencodable(call: ToolCall, handed: seq<RouteStep>)
    | TooLarge(call: ToolCall, handed: seq<RouteStep>)
    | Withheld(call: ToolCall, handed: seq<RouteStep>)
    | Admitted(call: ToolCall, handed: seq<RouteStep>, intent: Intent, evidence: seq<Evidence>)
  {
    function Handed(): seq<RouteStep> {
      match this
      case CallFailed(_, _, handed) => handed
      case Unencodable(_, handed) => handed
      case TooLarge(_, handed) => handed
      case Withheld(_, handed) => handed
      case Admitted(_, handed, _, _) => handed
      case _ => []
    }
  }

  // ------------------------------------------------------------- specification

  /** The state of a run between turns, with a log of what each turn came to. */
  datatype State = State(
    messages: seq<Message>,
    trace: seq<TraceEntry>,
    event: AuditEvent,
    forceTool: bool,
    budgetReached: bool,
    outcome: Option<Result<string, Stop>>,
    log: seq<Verdict>)

  function Start(w: World, question: string, model: string): State {
    State(
      [Message(System, w.systemPrompt), Message(User, question)],
      [],
      AuditEvent(question, model, "", NoToolCall, None, [], "", 0, Answered, None),
      false, false, None, [])
  }

  predicate DescribesACall(w: World, answer: string) {
    answer != "" && w.looksLikeACall(answer)
  }

  /** Denials the model may correct; every other denial is an answer. */
  predicate Retryable(code: ErrorCode) {
    match code
    case InvalidRequest | InvalidQuery | InvalidSince | InvalidHost | InvalidResource
      | MissingHost | MissingResource | UnknownIntent => true
    case _ => false
  }

  predicate Recoverable(failure: Failure) {
    match failure
    case Denied(code) => Retryable(code)
    case _ => true
  }

  function Records(evidence: seq<Evidence>): seq<AuditCall> {
    if evidence == [] then [] else
      var e := evidence[0];
      [AuditCall(e.source, e.action, e.endpoint, e.query, e.durationMs, e.itemCount, e.truncated, e.summary)]
      + Records(evidence[1..])
  }

  /** A validated, authorised and executed call, or the reason it gave no evidence. */
  datatype CallOutcome = CallOutcome(result: Result<seq<Evidence>, Failure>, handed: seq<RouteStep>,
                                     intent: Intent, trace: seq<TraceEntry>, decision: Decision, plan: Option<RoutePlan>)

  function RunCall(w: World, t: nat, call: ToolCall, decision: Decision, plan: Option<RoutePlan>): CallOutcome {
    match w.decode(call.arguments)
    case None => CallOutcome(Err(Undecodable), [], Unlisted(""), [TraceEntry(IntentRejected, false)], decision, plan)
    case Some(request) =>
      match Plan(w.lib, w.router, request, w.clock(t))
      case Err(code) =>
        CallOutcome(Err(Denied(code)), [], request.intent, [TraceEntry(PolicyDenied, false)],
          if decision == NoToolCall then DecisionDenied else decision, plan)
      case Ok(made) =>
        var ran := RunSteps(w.lib, w.executor(t), made.steps);
        match ran.error
        case Some(error) =>
          CallOutcome(Err(NotExecuted(error)), ran.handed, made.intent,
            [TraceEntry(PolicyAllowed, true), TraceEntry(ExecutionFailed, false)], DecisionAllowed, Some(made))
        case None =>
          CallOutcome(Ok(ran.evidence), ran.handed, made.intent,
            [TraceEntry(PolicyAllowed, true)], DecisionAllowed, Some(made))
  }

  /** A turn on which the model proposed no call. */
  function SpeakTurn(w: World, t: nat, s: State, content: string): State {
    var answer := TrimSpace(content);
    if DescribesACall(w, answer) && t < MAX_TOOL_CALLS - 1 then
      s.(trace := s.trace + [TraceEntry(DescribedInsteadOfCalled, false)],
         messages := s.messages + [Message(Assistant, answer), Message(User, w.pushback)],
         forceTool := true,
         log := s.log + [PushedBack])
    else if answer == "" then
      s.(trace := s.trace + [TraceEntry(EmptyAnswer, false)],
         event := s.event.(status := Failed),
         outcome := Some(Err(NothingSaid)),
         log := s.log + [Spoke])
    else
      var said := Disclose(w.lib.runes, answer, s.budgetReached);
      s.(trace := s.trace + [TraceEntry(if t == 0 then ModelAnsweredDirectly else AnswerSynthesized, true)],
         event := s.event.(answer := said, answerChars := ByteLen(said)),
         outcome := Some(Ok(said)),
         log := s.log + [Spoke])
  }

  /** Appends the answer to the call, once its assistant message is in the history. */
  function WithAnswer(s: State, call: ToolCall, content: string): seq<Message> {
    s.messages + [EvidenceMessage(call.id, content)]
  }

  /** What follows a call that ran: the size checks, and the evidence entering the history. */
  function SettleCall(w: World, s: State, call: ToolCall, ran: CallOutcome): State {
    match ran.result
    case Err(failure) =>
      if !Recoverable(failure) then
        s.(event := s.event.(decision := DecisionDenied),
           outcome := Some(Err(Refused(failure))),
           log := s.log + [CallFailed(call, failure, ran.handed)])
      else
        s.(messages := WithAnswer(s, call, w.complaint(failure)), log := s.log + [CallFailed(call, failure, ran.handed)])
    case Ok(evidence) =>
      match w.encode(ran.intent, evidence)
      case None => s.(outcome := Some(Err(NotEncodable)), log := s.log + [Unencodable(call, ran.handed)])
      case Some(json) =>
        if ByteLen(json) > w.evidenceBudget then
          s.(messages := WithAnswer(s, call, w.tooLargeNotice), log := s.log + [TooLarge(call, ran.handed)])
        else if !RoomForMore(s.messages, w.toolBytes, ByteLen(json)) then
          s.(trace := s.trace + [TraceEntry(EvidenceWithheldForContext, false)],
             budgetReached := true,
             messages := WithAnswer(s, call, w.withheldNotice),
             log := s.log + [Withheld(call, ran.handed)])
        else
          s.(trace := s.trace + [TraceEntry(EvidenceCollected, true)],
             event := s.event.(calls := s.event.calls + Records(evidence)),
             messages := WithAnswer(s, call, json),
             log := s.log + [Admitted(call, ran.handed, ran.intent, evidence)])
  }

  /** A turn on which the model proposed calls; only the first is run. */
  function CallTurn(w: World, t: nat, s: State, content: string, calls: seq<ToolCall>): State
    requires calls != []
  {
    var call := calls[0];
    if call.name != TOOL_NAME then
      s.(trace := s.trace + [TraceEntry(ToolRejected, false)],
         outcome := Some(Err(UnknownTool)),
         log := s.log + [Faulted])
    else
      var event := s.event.(proposed := if s.event.proposed == "" then call.arguments else s.event.proposed);
      var ran := RunCall(w, t, call, event.decision, event.plan);
      SettleCall(w,
        s.(trace := s.trace + [TraceEntry(IntentProposed, true)] + ran.trace,
           event := event.(decision := ran.decision, plan := ran.plan),
           messages := s.messages + [Message(Assistant, content, toolCalls := calls)]),
        call, ran)
  }

  /** One turn of the loop. */
  function Turn(w: World, t: nat, before: State): State {
    var s := before.(forceTool := false);
    match w.reply(t)
    case NoReply => s.(outcome := Some(Err(ModelFailed)), log := s.log + [Faulted])
    case Choice(content, calls) =>
      if calls == [] then SpeakTurn(w, t, s, content) else CallTurn(w, t, s, content, calls)
  }

  /** The state once t turns have been taken, or fewer if the run stopped. */
  function After(w: World, question: string, model: string, t: nat): State {
    if t == 0 then Start(w, question, model)
    else
      var s := After(w, question, model, t - 1);
      if s.outcome.Some? then s else Turn(w, t - 1, s)
  }

  /** Running out of turns is a failure of its own. */
  function GiveUp(s: State): State {
    if s.outcome.Some? then s
    else
      s.(trace := s.trace + [TraceEntry(TurnLimitReached, false)],
         event := s.event.(status := Failed),
         outcome := Some(Err(TurnLimit)))
  }

  /** The last stage the trace did not allow. */
  function LastRefusal(trace: seq<TraceEntry>): Option<Stage> {
    if trace == [] then None
    else if !trace[|trace| - 1].allowed then Some(trace[|trace| - 1].stage)
    else LastRefusal(trace[..|trace| - 1])
  }

  /** The outcome the audit fills in when a run left no answer. */
  function Settled(event: AuditEvent, trace: seq<TraceEntry>): AuditEvent {
    if event.answerChars == 0 && event.status == Answered then
      event.(status := Failed, error := if LastRefusal(trace).Some? then LastRefusal(trace) else event.error)
    else event
  }

  function Final(w: World, question: string, model: string): State {
    GiveUp(After(w, question, model, MAX_TOOL_CALLS))
  }

  // --------------------------------------------------------------------- audit

  /** The runes of a string whose bytes fit in n. */
  function Fitting(s: string, n: nat): string {
    if s == "" || Width(s[0]) > n then "" else [s[0]] + Fitting(s[1..], n - Width(s[0]))
  }

  const TRUNCATED := "\U{2026} [truncated]"

  /** A recorded answer is cut at a byte; the bytes of a rune cut in two are each replaced when the
      record is encoded. */
  function CapAnswer(answer: string): string {
    if ByteLen(answer) <= MAX_AUDIT_ANSWER then answer
    else
      var kept := Fitting(answer, MAX_AUDIT_ANSWER);
      FittingFits(answer, MAX_AUDIT_ANSWER);
      kept + seq(MAX_AUDIT_ANSWER - ByteLen(kept), _ => '\U{fffd}') + TRUNCATED
  }

  lemma FittingFits(s: string, n: nat)
    ensures Fitting(s, n) <= s && ByteLen(Fitting(s, n)) <= n
    ensures ByteLen(s) > n ==> ByteLen(Fitting(s, n)) > n - 4
  {}

  class Auditor {
    var records: seq<AuditEvent>

    constructor ()
      ensures records == []
    {
      records := [];
    }

    /** Appends one event, its answer capped. */
    method Record(event: AuditEvent)
      modifies this
      ensures records == old(records) + [event.(answer := CapAnswer(event.answer))]
    {
      var line := event;
      if ByteLen(event.answer) > MAX_AUDIT_ANSWER {
        line := event.(answer := CapAnswer(event.answer));
      }
      records := records + [line];
    }
  }

  // ---------------------------------------------------------------------- loop

  class Session {
    const auditor: Auditor?
    const model: string
    const executor: Executor
    const intents: seq<Intent>
    var trace: seq<TraceEntry>
    var event: AuditEvent

    /** What is offered to the model is what this session's connectors can answer. */
    ghost predicate OffersWhatItServes() {
      forall intent :: intent in intents <==>
        SourceForIntent(intent).Some? && SourceForIntent(intent).value in executor.connectors
    }

    /** The world's executor is this session's: connectors may answer differently from turn to turn, but
        they are registered once. */
    ghost predicate RunsIn(w: World) {
      forall t: nat :: w.executor(t).connectors.Keys == executor.connectors.Keys
    }

    /** Offers only intents whose source a connector serves. */
    constructor (executor: Executor, auditor: Auditor?, model: string)
      ensures this.executor == executor && this.auditor == auditor && this.model == model
      ensures OffersWhatItServes()
      ensures trace == []
    {
      var offered: seq<Intent> := [];
      for i := 0 to |ALL_INTENTS|
        invariant forall intent :: intent in offered <==>
          intent in ALL_INTENTS[..i] && SourceForIntent(intent).Some?
          && SourceForIntent(intent).value in executor.connectors
      {
        var source := SourceForIntent(ALL_INTENTS[i]);
        assert ALL_INTENTS[..i + 1] == ALL_INTENTS[..i] + [ALL_INTENTS[i]];
        if source.Some? && source.value in executor.connectors {
          offered := offered + [ALL_INTENTS[i]];
        }
      }
      assert ALL_INTENTS[..|ALL_INTENTS|] == ALL_INTENTS;
      forall intent: Intent
        ensures intent in ALL_INTENTS <==> SourceForIntent(intent).Some?
      {
        AllIntentsAreRouted(intent);
      }
      this.executor, this.auditor, this.model, this.intents := executor, auditor, model, offered;
      trace := [];
      event := AuditEvent("", model, "", NoToolCall, None, [], "", 0, Answered, None);
    }

    method Note(stage: Stage, allowed: bool)
      modifies this`trace
      ensures trace == old(trace) + [TraceEntry(stage, allowed)]
    {
      trace := trace + [TraceEntry(stage, allowed)];
    }

    /** Validates, authorises and executes one proposed call. */
    method RunOneCall(w: World, t: nat, call: ToolCall)
      returns (result: Result<seq<Evidence>, Failure>, intent: Intent, ghost handed: seq<RouteStep>)
      modifies this`trace, this`event
      ensures var ran := RunCall(w, t, call, old(event.decision), old(event.plan));
        && result == ran.result && handed == ran.handed && intent == ran.intent
        && trace == old(trace) + ran.trace
        && event == old(event).(decision := ran.decision, plan := ran.plan)
    {
      handed := [];
      var request := w.decode(call.arguments);
      if request.None? {
        Note(IntentRejected, false);
        return Err(Undecodable), Unlisted(""), [];
      }
      var plan := Plan(w.lib, w.router, request.value, w.clock(t));
      if plan.Err? {
        Note(PolicyDenied, false);
        if event.decision == NoToolCall {
          event := event.(decision := DecisionDenied);
        }
        return Err(Denied(plan.error)), request.value.intent, [];
      }
      Note(PolicyAllowed, true);
      event := event.(decision := DecisionAllowed, plan := Some(plan.value));
      var ran := Execute(w.lib, w.executor(t), plan.value);
      if ran.error.Some? {
        Note(ExecutionFailed, false);
        return Err(NotExecuted(ran.error.value)), plan.value.intent, ran.handed;
      }
      return Ok(ran.evidence), plan.value.intent, ran.handed;
    }

    /** Records the event on every way out of Ask. */
    method WriteAudit()
      modifies this`event, auditor
      ensures trace == old(trace)
      ensures auditor == null ==> event == old(event)
      ensures auditor != null ==>
        && event == Settled(old(event), trace)
        && auditor.records == old(auditor.records) + [event.(answer := CapAnswer(event.answer))]
    {
      if auditor == null {
        return;
      }
      if event.answerChars == 0 && event.status == Answered {
        event := event.(status := Failed);
        for i := 0 to |trace|
          invariant trace == old(trace) && auditor.records == old(auditor.records)
          invariant event == old(event).(status := Failed,
            error := if LastRefusal(trace[..i]).Some? then LastRefusal(trace[..i]) else old(event).error)
        {
          assert trace[..i + 1][..i] == trace[..i];
          if !trace[i].allowed {
            event := event.(error := Some(trace[i].stage));
          }
        }
        assert trace[..|trace|] == trace;
      }
      auditor.Record(event);
    }

    /** Answers a question, letting the model work in steps. */
    method Ask(w: World, question: string) returns (answer: Result<string, Stop>)
      modifies this`trace, this`event, auditor
      ensures var final := Final(w, question, model);
        && Some(answer) == final.outcome
        && trace == final.trace
        && event == (if auditor == null then final.event else Settled(final.event, final.trace))
      ensures auditor != null ==>
        auditor.records == old(auditor.records) + [event.(answer := CapAnswer(event.answer))]
    {
      trace := [];
      event := AuditEvent(question, model, "", NoToolCall, None, [], "", 0, Answered, None);
      answer := Loop(w, question);
      WriteAudit();
    }

    /** A turn without a call: push back once more, refuse silence, or answer. */
    method Speak(w: World, t: nat, content: string, messages: seq<Message>, budgetReached: bool, ghost s: State)
      returns (history: seq<Message>, forceTool: bool, outcome: Option<Result<string, Stop>>, ghost log: seq<Verdict>)
      requires s == State(messages, trace, event, false, budgetReached, None, s.log)
      modifies this`trace, this`event
      ensures SpeakTurn(w, t, s, content) == State(history, trace, event, forceTool, budgetReached, outcome, log)
    {
      history, forceTool, outcome, log := messages, false, None, s.log + [Spoke];
      var said := TrimSpace(content);
      if DescribesACall(w, said) && t < MAX_TOOL_CALLS - 1 {
        Note(DescribedInsteadOfCalled, false);
        history := messages + [Message(Assistant, said), Message(User, w.pushback)];
        forceTool := true;
        log := s.log + [PushedBack];
        return;
      }
      if said == "" {
        Note(EmptyAnswer, false);
        event := event.(status := Failed);
        outcome := Some(Err(NothingSaid));
        return;
      }
      if t == 0 {
        Note(ModelAnsweredDirectly, true);
      } else {
        Note(AnswerSynthesized, true);
      }
      said := Disclose(w.lib.runes, said, budgetReached);
      event := event.(answer := said, answerChars := ByteLen(said));
      outcome := Some(Ok(said));
    }

    /** What becomes of a call that was run. */
    method Settle(w: World, call: ToolCall, result: Result<seq<Evidence>, Failure>, intent: Intent,
                  messages: seq<Message>, withheld: bool, ghost s: State, ghost ran: CallOutcome)
      returns (history: seq<Message>, budgetReached: bool, outcome: Option<Result<string, Stop>>, ghost log: seq<Verdict>)
      requires s == State(messages, trace, event, false, withheld, None, s.log)
      requires ran.result == result && (result.Ok? ==> ran.intent == intent)
      modifies this`trace, this`event
      ensures SettleCall(w, s, call, ran) == State(history, trace, event, false, budgetReached, outcome, log)
    {
      history, budgetReached, outcome := messages, withheld, None;
      if result.Err? {
        log := s.log + [CallFailed(call, result.error, ran.handed)];
        if !Recoverable(result.error) {
          event := event.(decision := DecisionDenied);
          outcome := Some(Err(Refused(result.error)));
          return;
        }
        history := messages + [EvidenceMessage(call.id, w.complaint(result.error))];
        return;
      }
      var json := w.encode(intent, result.value);
      if json.None? {
        log := s.log + [Unencodable(call, ran.handed)];
        outcome := Some(Err(NotEncodable));
        return;
      }
      if ByteLen(json.value) > w.evidenceBudget {
        log := s.log + [TooLarge(call, ran.handed)];
        history := messages + [EvidenceMessage(call.id, w.tooLargeNotice)];
        return;
      }
      var projected := EstimatedTokens(messages, w.toolBytes);
      if projected + JsonTokens(ByteLen(json.value)) > SERVED_CONTEXT_TOKENS {
        Note(EvidenceWithheldForContext, false);
        budgetReached := true;
        log := s.log + [Withheld(call, ran.handed)];
        history := messages + [EvidenceMessage(call.id, w.withheldNotice)];
        return;
      }
      Note(EvidenceCollected, true);
      var calls := CallRecords(result.value);
      event := event.(calls := event.calls + calls);
      log := s.log + [Admitted(call, ran.handed, intent, result.value)];
      history := messages + [EvidenceMessage(call.id, json.value)];
    }

    /** One turn: the model's reply, and what becomes of the call it proposes, if any. */
    method TakeTurn(w: World, t: nat, history: seq<Message>, withheld: bool, ghost s: State)
      returns (messages: seq<Message>, forceTool: bool, budgetReached: bool,
               outcome: Option<Result<string, Stop>>, ghost log: seq<Verdict>)
      requires s == State(history, trace, event, false, withheld, None, s.log)
      modifies this`trace, this`event
      ensures Turn(w, t, s) == State(messages, trace, event, forceTool, budgetReached, outcome, log)
    {
      hide SpeakTurn, SettleCall, RunCall;
      messages, forceTool, budgetReached, outcome, log := history, false, withheld, None, s.log + [Faulted];
      var choice := w.reply(t);
      if choice.NoReply? {
        outcome := Some(Err(ModelFailed));
        return;
      }
      if choice.calls == [] {
        messages, forceTool, outcome, log := Speak(w, t, choice.content, history, withheld, s);
        return;
      }
      var call := choice.calls[0];
      if call.name != TOOL_NAME {
        Note(ToolRejected, false);
        outcome := Some(Err(UnknownTool));
        return;
      }
      Note(IntentProposed, true);
      if event.proposed == "" {
        event := event.(proposed := call.arguments);
      }
      ghost var ran := RunCall(w, t, call, event.decision, event.plan);
      messages := history + [Message(Assistant, choice.content, toolCalls := choice.calls)];
      var result, intent, handed := RunOneCall(w, t, call);
      ghost var proposed := s.(trace := trace, event := event, messages := messages);
      assert CallTurn(w, t, s, choice.content, choice.calls) == SettleCall(w, proposed, call, ran);
      messages, budgetReached, outcome, log := Settle(w, call, result, intent, messages, withheld, proposed, ran);
    }

    /** The turns of one question; the audit is written by the caller whatever comes back. */
    method Loop(w: World, question: string) returns (answer: Result<string, Stop>)
      requires trace == [] && event == Start(w, question, model).event
      modifies this`trace, this`event
      ensures var final := Final(w, question, model);
        Some(answer) == final.outcome && trace == final.trace && event == final.event
    {
      hide Turn;
      var messages := [Message(System, w.systemPrompt), Message(User, question)];
      var forceTool, budgetReached := false, false;
      ghost var log: seq<Verdict> := [];
      for turn := 0 to MAX_TOOL_CALLS
        invariant After(w, question, model, turn) == State(messages, trace, event, forceTool, budgetReached, None, log)
      {
        ghost var s := After(w, question, model, turn).(forceTool := false);
        TurnIgnoresForceTool(w, turn, After(w, question, model, turn));
        var outcome: Option<Result<string, Stop>>;
        messages, forceTool, budgetReached, outcome, log := TakeTurn(w, turn, messages, budgetReached, s);
        assert After(w, question, model, turn + 1) == Turn(w, turn, After(w, question, model, turn));
        if outcome.Some? {
          StaysStopped(w, question, model, turn + 1, MAX_TOOL_CALLS);
          return outcome.value;
        }
      }
      Note(TurnLimitReached, false);
      event := event.(status := Failed);
      return Err(TurnLimit);
    }
  }

  /** A forced call is asked for on one turn only: the next one begins without it. */
  lemma TurnIgnoresForceTool(w: World, t: nat, s: State)
    ensures Turn(w, t, s.(forceTool := false)) == Turn(w, t, s)
  {}

  method CallRecords(evidence: seq<Evidence>) returns (calls: seq<AuditCall>)
    ensures calls == Records(evidence)
  {
    calls := [];
    for i := 0 to |evidence|
      invariant calls + Records(evidence[i..]) == Records(evidence)
    {
      var e := evidence[i];
      assert evidence[i..][1..] == evidence[i + 1..];
      calls := calls + [AuditCall(e.source, e.action, e.endpoint, e.query, e.durationMs, e.itemCount, e.truncated, e.summary)];
    }
  }

  /** Nothing happens after a run stops. */
  lemma {:induction false} StaysStopped(w: World, question: string, model: string, t: nat, later: nat)
    requires t <= later && After(w, question, model, t).outcome.Some?
    ensures After(w, question, model, later) == After(w, question, model, t)
    decreases later
  {
    hide Turn;
    if t < later {
      StaysStopped(w, question, model, t, later - 1);
    }
  }
}

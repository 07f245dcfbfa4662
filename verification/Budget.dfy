/** Chat messages, the pessimistic size of a request, and the disclosure of withheld evidence. */
module Budget {
  import opened Basics
  import opened Text

  const SERVED_CONTEXT_TOKENS := 131072
  const ANSWER_RESERVE_TOKENS := 1500
  const TOOL_NAME := "sroiaaa_evidence"

  datatype Role = System | User | Assistant | Tool

  function RoleName(role: Role): string {
    match role
    case System => "system"
    case User => "user"
    case Assistant => "assistant"
    case Tool => "tool"
  }

  datatype ToolCall = ToolCall(id: string, name: string, arguments: string)

  datatype Message = Message(
    role: Role,
    content: string,
    toolCalls: seq<ToolCall> := [],
    toolCallId: string := "",
    name: string := "")

  /** chars / 2.2, rounded down */
  function JsonTokens(chars: nat): nat { chars * 5 / 11 }

  /** chars / 4.0, rounded down */
  function ProseTokens(chars: nat): nat { chars / 4 }

  function CallChars(calls: seq<ToolCall>): nat {
    if calls == [] then 0
    else ByteLen(calls[0].id) + ByteLen(calls[0].name) + ByteLen(calls[0].arguments) + CallChars(calls[1..])
  }

  function MessageTokens(m: Message): nat {
    var chars := ByteLen(RoleName(m.role)) + ByteLen(m.content) + ByteLen(m.name) + ByteLen(m.toolCallId)
      + CallChars(m.toolCalls);
    if m.role.Tool? then JsonTokens(chars) else ProseTokens(chars)
  }

  function TotalTokens(messages: seq<Message>): nat {
    if messages == [] then 0 else TotalTokens(messages[..|messages| - 1]) + MessageTokens(messages[|messages| - 1])
  }

  /** The estimate for a request: every message, the tool schema when it encodes, and the reserve. */
  function Estimate(messages: seq<Message>, toolBytes: Option<nat>): nat {
    TotalTokens(messages) + (if toolBytes.Some? then JsonTokens(toolBytes.value) else 0) + ANSWER_RESERVE_TOKENS
  }

  method EstimatedTokens(messages: seq<Message>, toolBytes: Option<nat>) returns (tokens: nat)
    ensures tokens == Estimate(messages, toolBytes)
  {
    tokens := 0;
    for i := 0 to |messages|
      invariant tokens == TotalTokens(messages[..i])
    {
      var m := messages[i];
      var chars := ByteLen(RoleName(m.role)) + ByteLen(m.content) + ByteLen(m.name) + ByteLen(m.toolCallId);
      for j := 0 to |m.toolCalls|
        invariant chars + CallChars(m.toolCalls[j..])
          == ByteLen(RoleName(m.role)) + ByteLen(m.content) + ByteLen(m.name) + ByteLen(m.toolCallId) + CallChars(m.toolCalls)
      {
        var c := m.toolCalls[j];
        assert m.toolCalls[j..][1..] == m.toolCalls[j + 1..];
        chars := chars + ByteLen(c.id) + ByteLen(c.name) + ByteLen(c.arguments);
      }
      assert messages[..i + 1][..i] == messages[..i];
      tokens := tokens + if m.role.Tool? then JsonTokens(chars) else ProseTokens(chars);
    }
    assert messages[..|messages|] == messages;
    if toolBytes.Some? {
      tokens := tokens + JsonTokens(toolBytes.value);
    }
    tokens := tokens + ANSWER_RESERVE_TOKENS;
  }

  /** Whether a payload of this size still fits. Only the payload is counted, not the message that
      will carry it. */
  predicate RoomForMore(messages: seq<Message>, toolBytes: Option<nat>, addition: nat) {
    Estimate(messages, toolBytes) + JsonTokens(addition) <= SERVED_CONTEXT_TOKENS
  }

  function EvidenceMessage(callId: string, content: string): Message {
    Message(Tool, content, toolCallId := callId, name := TOOL_NAME)
  }

  /** The most the estimate can exceed the served context once an admitted payload is wrapped in a
      message: the role, the tool name and the call id, plus one for rounding. */
  function Slack(callId: string): nat {
    JsonTokens(20 + ByteLen(callId)) + 1
  }

  lemma WrapperBytes()
    ensures ByteLen(RoleName(Tool)) == 4 && ByteLen(TOOL_NAME) == 16
  {
    AsciiLength(RoleName(Tool));
    AsciiLength(TOOL_NAME);
  }

  lemma JsonTokensAdd(a: nat, b: nat)
    ensures JsonTokens(a) <= JsonTokens(a + b) <= JsonTokens(a) + JsonTokens(b) + 1
  {}

  lemma ToolMessageTokens(m: Message)
    requires m.role.Tool? && m.toolCalls == []
    requires ByteLen(RoleName(Tool)) == 4 && ByteLen(m.name) == 16
    ensures MessageTokens(m) == JsonTokens(ByteLen(m.content) + (20 + ByteLen(m.toolCallId)))
  {}

  lemma TotalSnoc(messages: seq<Message>, m: Message)
    ensures TotalTokens(messages + [m]) == TotalTokens(messages) + MessageTokens(m)
  {
    assert (messages + [m])[..|messages|] == messages;
  }

  /** What an admission really adds: the payload and its wrapper together. So the request that follows
      fits the served context exactly when they do, which is not what was asked; an admitted payload
      leaves it within the context plus the slack. */
  lemma AdmissionBound(messages: seq<Message>, toolBytes: Option<nat>, callId: string, content: string)
    ensures var before, after := Estimate(messages, toolBytes), Estimate(messages + [EvidenceMessage(callId, content)], toolBytes);
      && after == before + JsonTokens(ByteLen(content) + 20 + ByteLen(callId))
      && (after <= SERVED_CONTEXT_TOKENS <==> RoomForMore(messages, toolBytes, ByteLen(content) + 20 + ByteLen(callId)))
      && (after <= SERVED_CONTEXT_TOKENS ==> RoomForMore(messages, toolBytes, ByteLen(content)))
      && (RoomForMore(messages, toolBytes, ByteLen(content)) ==> after <= SERVED_CONTEXT_TOKENS + Slack(callId))
  {
    hide ByteLen, MessageTokens, TotalTokens, JsonTokens, RoleName;
    var m := EvidenceMessage(callId, content);
    WrapperBytes();
    ToolMessageTokens(m);
    TotalSnoc(messages, m);
    JsonTokensAdd(ByteLen(content), 20 + ByteLen(callId));
  }

  /** The largest payload that fits a room of this many tokens. */
  function LargestFit(room: nat): nat { (11 * room + 10) / 5 }

  lemma FitsIffWithin(chars: nat, room: nat)
    ensures JsonTokens(chars) <= room <==> chars <= LargestFit(room)
  {}

  /** A payload of this size is admitted into the room left, and with its wrapper does not fit it. */
  predicate Overfills(chars: nat, room: int, wrapper: nat) {
    JsonTokens(chars) <= room < JsonTokens(chars + wrapper)
  }

  /** Which payloads take a request past the served context: the last few sizes that still fit, as many
      as the wrapper has bytes. */
  lemma OverfillingSizes(chars: nat, room: nat, wrapper: nat)
    ensures Overfills(chars, room, wrapper) <==> LargestFit(room) - wrapper < chars <= LargestFit(room)
  {
    FitsIffWithin(chars, room);
    FitsIffWithin(chars + wrapper, room);
  }

  /** An admission takes a request past the served context exactly when its payload overfills the room
      left. A payload is first held to the evidence budget, so this can happen to a history exactly
      when it fits, but not with a payload of the whole budget and its wrapper beside it. */
  lemma OverflowsWithinTheBudget(messages: seq<Message>, toolBytes: Option<nat>, callId: string, budget: nat)
    ensures var room, wrapper := SERVED_CONTEXT_TOKENS - Estimate(messages, toolBytes), 20 + ByteLen(callId);
      && (forall content ::
            (RoomForMore(messages, toolBytes, ByteLen(content))
              && Estimate(messages + [EvidenceMessage(callId, content)], toolBytes) > SERVED_CONTEXT_TOKENS)
            <==> Overfills(ByteLen(content), room, wrapper))
      && ((exists chars :: 0 <= chars <= budget && Overfills(chars, room, wrapper))
            <==> 0 <= room < JsonTokens(budget + wrapper))
  {
    hide ByteLen, Estimate;
    var room, wrapper := SERVED_CONTEXT_TOKENS - Estimate(messages, toolBytes), 20 + ByteLen(callId);
    forall content
      ensures (RoomForMore(messages, toolBytes, ByteLen(content))
          && Estimate(messages + [EvidenceMessage(callId, content)], toolBytes) > SERVED_CONTEXT_TOKENS)
        <==> Overfills(ByteLen(content), room, wrapper)
    {
      AdmissionBound(messages, toolBytes, callId, content);
    }
    if room >= 0 {
      SomeSizeOverfills(budget, room, wrapper);
    }
  }

  lemma SomeSizeOverfills(budget: nat, room: nat, wrapper: nat)
    requires wrapper >= 1
    ensures (exists chars :: 0 <= chars <= budget && Overfills(chars, room, wrapper)) <==> room < JsonTokens(budget + wrapper)
  {
    FitsIffWithin(budget + wrapper, room);
    var largest := Min(budget, LargestFit(room));
    OverfillingSizes(largest, room, wrapper);
    forall chars | 0 <= chars <= budget && Overfills(chars, room, wrapper)
      ensures room < JsonTokens(budget + wrapper)
    {
      OverfillingSizes(chars, room, wrapper);
    }
  }

  // ---------------------------------------------------------------- disclosure

  const OPENING := "\n\nThis answer is "
  const ADMISSION := "incomplete"
  const ADVICE :=
    ": further evidence was withheld because returning it would have exceeded the model's context. Ask a narrower question to see the rest."
  const DISCLOSURE := OPENING + ADMISSION + ADVICE

  /** The answer says, in some words, that it is partial. */
  predicate SaysPartial(t: Runes, answer: string) {
    var low := Lower(t, answer);
    Contains(low, "withheld") || Contains(low, "incomplete") || Contains(low, "not all") || Contains(low, "partial")
  }

  function Disclose(t: Runes, answer: string, withheld: bool): string {
    if !withheld || SaysPartial(t, answer) then answer else answer + DISCLOSURE
  }

  lemma {:induction false} ContainsMiddle(before: string, part: string, after: string)
    ensures Contains(before + part + after, part)
  {
    if before == "" {
      assert before + part + after == part + after;
    } else {
      assert (before + part + after)[1..] == before[1..] + part + after;
      ContainsMiddle(before[1..], part, after);
    }
  }

  lemma LowerConcat(t: Runes, a: string, b: string)
    ensures Lower(t, a + b) == Lower(t, a) + Lower(t, b)
  {}

  lemma LowerAdmission(t: Runes)
    ensures Lower(t, ADMISSION) == ADMISSION
  {}

  lemma AdmissionIsFound(t: Runes, before: string, after: string)
    ensures SaysPartial(t, before + ADMISSION + after)
  {
    hide Lower, Contains;
    LowerConcat(t, before + ADMISSION, after);
    LowerConcat(t, before, ADMISSION);
    LowerAdmission(t);
    ContainsMiddle(Lower(t, before), ADMISSION, Lower(t, after));
  }

  /** After a withholding, whatever the model wrote, the answer says it is partial. */
  lemma DisclosureSaysPartial(t: Runes, answer: string)
    ensures SaysPartial(t, Disclose(t, answer, true))
    ensures answer <= Disclose(t, answer, true)
  {
    hide SaysPartial;
    TailSaysPartial(t, answer, OPENING, ADVICE);
  }

  lemma TailSaysPartial(t: Runes, answer: string, opening: string, advice: string)
    ensures SaysPartial(t, answer + (opening + ADMISSION + advice))
  {
    hide SaysPartial;
    AdmissionIsFound(t, answer + opening, advice);
    assert answer + opening + ADMISSION + advice == answer + (opening + ADMISSION + advice);
  }

  /** The words are looked for anywhere in the answer, so one that uses them of something else goes out
      as it is: "not allowed" holds "not all". The guarantee is of the words, not of what they say. */
  lemma UnrelatedWordsSuppressTheDisclosure(t: Runes, before: string, after: string)
    ensures Disclose(t, before + "not allowed" + after, true) == before + "not allowed" + after
  {
    hide Contains;
    var answer := before + "not allowed" + after;
    LowerConcat(t, before + "not allowed", after);
    LowerConcat(t, before, "not allowed");
    assert Lower(t, "not allowed") == "not all" + "owed";
    assert Lower(t, answer) == Lower(t, before) + "not all" + ("owed" + Lower(t, after));
    ContainsMiddle(Lower(t, before), "not all", "owed" + Lower(t, after));
  }
}

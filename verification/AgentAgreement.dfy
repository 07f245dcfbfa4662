/** The connector's counts over an endpoint agent's answer, and that the agent's own answers agree
    with them. */
module AgentAgreement {
  import opened Basics
  import opened Text
  import opened Types
  import opened AgentReads
  import Base64

  /** Decoded JSON. A JSON string is its UTF-8 bytes; object keys are field names. */
  datatype Json =
    | Number(value: real)
    | Str(bytes: Bytes)
    | List(items: seq<Json>)
    | Object(fields: map<string, Json>)
    | OtherJson

  /** The bytes of an ASCII literal. */
  function Literal(s: string): Bytes
    requires forall i :: 0 <= i < |s| ==> Ascii(s[i])
  {
    seq(|s|, i requires 0 <= i < |s| && Ascii(s[i]) => s[i] as int as Byte)
  }

  predicate ContainsBytes(s: Bytes, part: Bytes) {
    part <= s || (s != [] && ContainsBytes(s[1..], part))
  }

  /** Go's int(f): toward zero, by less than one. */
  function Truncate(r: real): (n: int)
    ensures 0.0 <= r ==> n as real <= r < n as real + 1.0
    ensures r <= 0.0 ==> n as real - 1.0 < r <= n as real
  {
    if r >= 0.0 then r.Floor else -(-r).Floor
  }

  // ------------------------------------------------------------ the agent's side

  const TEXT_FORMAT := "text/plain; charset=utf-8"
  const BASE64_FORMAT := "application/octet-stream;base64"

  /** Valid UTF-8 travels as it is, anything else in base64. */
  function EncodeContent(content: Bytes, validUtf8: Bytes -> bool): Json {
    if validUtf8(content) then Object(map["format" := Str(Literal(TEXT_FORMAT)), "raw" := Str(content)])
    else Object(map["format" := Str(Literal(BASE64_FORMAT)), "raw" := Str(Base64.Encode(content))])
  }

  function ReadAnswer(page: Page, path: Bytes, validUtf8: Bytes -> bool): Json {
    Object(map[
      "path" := Str(path),
      "offset" := Number(page.start as real),
      "bytes_read" := Number(page.bytesRead as real),
      "content" := EncodeContent(page.content, validUtf8)])
  }

  /** A tail also lists its lines when it is text. */
  function TailAnswer(page: Page, path: Bytes, lines: seq<Bytes>, validUtf8: Bytes -> bool): Json {
    Object(map[
      "path" := Str(path),
      "start" := Number(page.start as real),
      "bytes_read" := Number(page.bytesRead as real),
      "content" := EncodeContent(page.content, validUtf8),
      "lines" := List(seq(|lines|, i requires 0 <= i < |lines| => Str(lines[i])))])
  }

  function ProcessAnswer(page: ProcessPage, render: Process -> Json): Json {
    Object(map[
      "processes" := List(seq(|page.processes|, i requires 0 <= i < |page.processes| => render(page.processes[i]))),
      "count" := Number(page.count as real)])
  }

  // -------------------------------------------------------- the connector's side

  datatype Warning =
    | NotAnObject
    | NotAList(field: string)
    | Disagreement(field: string, reported: int, counted: int)
    | NoRule

  datatype Counts = Counts(summary: map<string, int>, items: int, warnings: seq<Warning>)

  function Field(data: Json, name: string): Json {
    if data.Object? && name in data.fields then data.fields[name] else OtherJson
  }

  /** The agent's own figure, when it is a number, against what was counted. */
  function CrossCheck(data: Json, name: string, counted: int): seq<Warning> {
    var reported := Field(data, name);
    if reported.Number? && Truncate(reported.value) != counted
    then [Disagreement(name, Truncate(reported.value), counted)] else []
  }

  function CountList(data: Json, name: string, checked: Option<string>): Counts {
    var values := Field(data, name);
    if !values.List? then Counts(map[], 0, [NotAList(name)])
    else
      Counts(map[name := |values.items|], |values.items|,
        if checked.Some? then CrossCheck(data, checked.value, |values.items|) else [])
  }

  /** Bytes as they will be read: the decoded length of a base64 body, the length otherwise. */
  function Measure(content: Json): Option<nat> {
    var raw := Field(content, "raw");
    if !raw.Str? then None
    else
      var format := Field(content, "format");
      if format.Str? && ContainsBytes(format.bytes, Literal("base64")) then
        match Base64.Decode(raw.bytes)
        case Some(decoded) => Some(|decoded|)
        case None => Some(|raw.bytes|)
      else Some(|raw.bytes|)
  }

  function CountBytes(data: Json): Counts {
    var measured := Measure(Field(data, "content"));
    var bytes := if measured.Some? then map["bytes" := measured.value as int] else map[];
    var lines := Field(data, "lines");
    Counts(
      if lines.Number? then bytes["lines" := Truncate(lines.value)] else bytes, 0,
      if measured.Some? then CrossCheck(data, "bytes_read", measured.value) else [])
  }

  function SummarizeAgentData(operation: Operation, data: Json): Counts {
    if !data.Object? then Counts(map[], 0, [NotAnObject])
    else match operation
      case FilesystemList => CountList(data, "entries", None)
      case ProcessList => CountList(data, "processes", Some("count"))
      case FilesystemRead | FilesystemTail => CountBytes(data)
      case FilesystemStat | HostInfo | CapabilitiesDescribe => Counts(map[], 0, [])
      case _ => Counts(map[], 0, [NoRule])
  }

  // ----------------------------------------------------------------- agreement

  lemma {:induction false} LacksFirst(s: Bytes, part: Bytes)
    requires part != [] && part[0] !in s
    ensures !ContainsBytes(s, part)
  {
    if s != [] {
      LacksFirst(s[1..], part);
    }
  }

  lemma {:induction false} EndsWith(s: Bytes, part: Bytes)
    requires |part| <= |s| && s[|s| - |part|..] == part
    ensures ContainsBytes(s, part)
  {
    if |s| > |part| {
      assert s[1..][|s| - 1 - |part|..] == part;
      EndsWith(s[1..], part);
    } else {
      assert part == s;
    }
  }

  lemma FormatsTellApart()
    ensures !ContainsBytes(Literal(TEXT_FORMAT), Literal("base64"))
    ensures ContainsBytes(Literal(BASE64_FORMAT), Literal("base64"))
  {
    var text, base := Literal(TEXT_FORMAT), Literal(BASE64_FORMAT);
    assert 'b' !in TEXT_FORMAT;
    forall i | 0 <= i < |text|
      ensures text[i] != 98
    {
      assert TEXT_FORMAT[i] in TEXT_FORMAT;
    }
    LacksFirst(text, Literal("base64"));
    assert |BASE64_FORMAT| == 31 && BASE64_FORMAT[25..] == "base64";
    forall i | 0 <= i < 6
      ensures base[25 + i] == Literal("base64")[i]
    {
      assert BASE64_FORMAT[25 + i] == BASE64_FORMAT[25..][i];
    }
    assert base[25..] == Literal("base64");
    EndsWith(base, Literal("base64"));
  }

  /** Whatever the bytes, what the connector measures is what was read. */
  lemma ContentMeasuresItself(content: Bytes, validUtf8: Bytes -> bool)
    ensures Measure(EncodeContent(content, validUtf8)) == Some(|content|)
  {
    FormatsTellApart();
    Base64.RoundTrip(content);
  }

  /** Content comes back from its answer whole: as it is, labelled text, exactly when it is valid UTF-8,
      and otherwise by decoding a body of ASCII bytes labelled base64. */
  lemma ContentComesBack(content: Bytes, validUtf8: Bytes -> bool)
    ensures var answer := EncodeContent(content, validUtf8);
      && answer.Object? && answer.fields.Keys == {"format", "raw"}
      && answer.fields["raw"].Str?
      && var raw := answer.fields["raw"].bytes;
      if validUtf8(content) then answer.fields["format"] == Str(Literal("text/plain; charset=utf-8")) && raw == content
      else
        && answer.fields["format"] == Str(Literal("application/octet-stream;base64"))
        && Base64.Decode(raw) == Some(content)
        && forall i :: 0 <= i < |raw| ==> raw[i] < 128
  {
    hide Literal;
    Base64.RoundTrip(content);
    Base64.EncodeIsPlain(content);
  }

  /** An agent's read never draws a warning, and the summary states the bytes it read. */
  lemma ReadsAgree(file: Bytes, offset: nat, requested: int, cap: int, path: Bytes, validUtf8: Bytes -> bool)
    requires 1 <= cap <= MAX_INT64
    ensures var page := ReadPage(file, offset, requested, cap);
      SummarizeAgentData(FilesystemRead, ReadAnswer(page, path, validUtf8))
        == Counts(map["bytes" := page.bytesRead], 0, [])
  {
    var page := ReadPage(file, offset, requested, cap);
    ContentMeasuresItself(page.content, validUtf8);
    assert Truncate(page.bytesRead as real) == page.bytesRead;
  }

  /** Nor does a tail. Its lines are a list, which is not the number the connector looks for, so no
      line count is ever stated for it. */
  lemma TailsAgree(page: Page, path: Bytes, lines: seq<Bytes>, validUtf8: Bytes -> bool)
    requires page.bytesRead == |page.content|
    ensures SummarizeAgentData(FilesystemTail, TailAnswer(page, path, lines, validUtf8))
      == Counts(map["bytes" := page.bytesRead], 0, [])
  {
    ContentMeasuresItself(page.content, validUtf8);
    assert Truncate(page.bytesRead as real) == page.bytesRead;
  }

  /** Nor does a process list: both counts are of the records that survived the cap. */
  lemma ProcessListsAgree(page: ProcessPage, render: Process -> Json)
    requires page.count == |page.processes|
    ensures SummarizeAgentData(ProcessList, ProcessAnswer(page, render))
      == Counts(map["processes" := page.count], page.count, [])
  {
    assert Truncate(page.count as real) == page.count;
  }

  /** A figure that does not match what arrived is warned about, and nothing else is: for any answer
      at all, a disagreement is reported exactly when a number is stated and differs. */
  lemma DisagreementsAreFlagged(operation: Operation, data: Json, w: Warning)
    requires w.Disagreement?
    ensures w in SummarizeAgentData(operation, data).warnings <==>
      && data.Object? && Field(data, w.field).Number?
      && w.reported == Truncate(Field(data, w.field).value) != w.counted
      && ((operation.ProcessList? && w.field == "count"
            && Field(data, "processes").List? && w.counted == |Field(data, "processes").items|)
          || ((operation.FilesystemRead? || operation.FilesystemTail?) && w.field == "bytes_read"
            && Measure(Field(data, "content")) == Some(w.counted)))
  {
    hide Measure;
  }
}

/**
 * What each upstream line sends to the client, and the text of a whole stream, said of the decoded JSON: the
 * parsers' own results do not appear.
 */
module StreamPayloads {
  import opened GatewayModel
  import opened Streams
  import opened StreamPipeline

  // ----- One OpenAI line -----

  /** What a stream of this one line sends. */
  ghost function OpenAISends(decode: OpenAIDecoder, line: string): seq<Chunk>
  {
    OpenAIChunks(decode, Input([line], None))
  }

  lemma OneLine(line: Line, keep: Chunk -> bool)
    ensures Emitted([line], keep, None)
         == if line.error.Some? then [FailureChunk(line.error.value)]
            else if line.done || keep(line.chunk) then [line.chunk] else []
  {
    EmittedNothing(keep, None);
    assert [line] == [line] + [];
    EmittedFirst(line, [], keep, None);
    assert [line.chunk] + [] == [line.chunk];
  }

  lemma OneOpenAILine(decode: OpenAIDecoder, line: string)
    ensures OpenAILines(decode, [line]) == [ParseSSELine(decode, line)]
  {
    assert [line][1..] == [];
  }

  /**
   * A data line, with any white space after the colon: [DONE] closes the stream, malformed JSON fails it, and an
   * event sends its id, its model and the delta of its first choice, unless it has neither an id nor text.
   */
  lemma OpenAIDataLineSends(decode: OpenAIDecoder, gap: string, payload: string)
    requires AllSpace(gap) && Tight(payload)
    ensures payload == "[DONE]" ==>
              OpenAISends(decode, "data:" + gap + payload) == [Chunk("", "", Delta("", ""), true, None)]
    ensures payload != "[DONE]" && decode(payload).Malformed? ==>
              OpenAISends(decode, "data:" + gap + payload) == [FailureChunk(decode(payload).message)]
    ensures payload != "[DONE]" && decode(payload).Parsed? ==>
              var raw := decode(payload).value;
              var delta := if |raw.choices| > 0 then raw.choices[0] else Delta("", "");
              OpenAISends(decode, "data:" + gap + payload)
              == if raw.id == "" && delta.content == "" then []
                 else [Chunk(raw.id, raw.model, delta, false, None)]
  {
    var line := "data:" + gap + payload;
    DataLineCarriesPayload(decode, gap, payload);
    OneOpenAILine(decode, line);
    ParsersAreSane(decode, _ => Malformed(""), line);
    OneLine(ParseSSELine(decode, line), KeepOpenAI);
  }

  /** A blank line, or one that does not start with data: after trimming, sends nothing and ends nothing. */
  lemma OtherOpenAILineSendsNothing(decode: OpenAIDecoder, line: string, rest: seq<string>, failure: Option<string>)
    requires TrimSpace(line) == "" || !("data:" <= TrimSpace(line))
    ensures OpenAIChunks(decode, Input([line] + rest, failure)) == OpenAIChunks(decode, Input(rest, failure))
  {
    assert ([line] + rest)[1..] == rest;
    EmittedFirst(ParseSSELine(decode, line), OpenAILines(decode, rest), KeepOpenAI, failure);
  }

  // ----- One Anthropic line -----

  ghost function AnthropicSends(decode: AnthropicDecoder, line: string): seq<Chunk>
  {
    AnthropicChunks(decode, Input([line], None))
  }

  lemma OneAnthropicLine(decode: AnthropicDecoder, line: string)
    ensures AnthropicLines(decode, [line]) == [AnthropicLine(decode, line)]
  {
    assert [line][1..] == [];
  }

  /** The payload of a data line is what stands between the white space. */
  lemma AnthropicPayload(decode: AnthropicDecoder, gap: string, payload: string, tail: string)
    requires AllSpace(gap) && AllSpace(tail) && Tight(payload) && payload[0] == '{'
    ensures AnthropicLine(decode, "data:" + gap + payload + tail)
         == match decode(payload)
            case Malformed(message) => Line(EMPTY, false, Some(message))
            case Parsed(raw) => ParseAnthropicSSEEvent(_ => Parsed(raw), "", payload)
  {
    var line := "data:" + gap + payload + tail;
    assert line[0] == 'd' && !(EVENT <= line);
    assert DATA <= line && AfterPrefix(line, DATA) == gap + payload + tail;
    TrimIgnoresPadding(gap, payload, tail);
    TrimTight(payload);
    assert "{" <= payload;
  }

  /**
   * A data line with a JSON object: malformed JSON fails the stream; message_start sends id, model and role,
   * unless it has neither id nor role; a text_delta sends exactly its text, unless that is empty; message_stop
   * closes the stream; any other kind, and any other kind of delta, sends nothing.
   */
  lemma AnthropicDataLineSends(decode: AnthropicDecoder, gap: string, payload: string, tail: string)
    requires AllSpace(gap) && AllSpace(tail) && Tight(payload) && payload[0] == '{'
    ensures var sent := AnthropicSends(decode, "data:" + gap + payload + tail);
            match decode(payload)
            case Malformed(message) =>
              sent == [Chunk("", "", Delta("", ""), false, Some(Error("provider_error", message)))]
            case Parsed(raw) =>
              && (raw.kind == "message_start" ==>
                    sent == if raw.messageId == "" && raw.messageRole == "" then []
                            else [Chunk(raw.messageId, raw.messageModel, Delta(raw.messageRole, ""), false, None)])
              && (raw.kind == "content_block_delta" && raw.deltaType == "text_delta" ==>
                    sent == if raw.deltaText == "" then []
                            else [Chunk("", "", Delta("", raw.deltaText), false, None)])
              && (raw.kind == "content_block_delta" && raw.deltaType != "text_delta" ==> sent == [])
              && (raw.kind == "message_stop" ==> sent == [Chunk("", "", Delta("", ""), true, None)])
              && (raw.kind != "message_start" && raw.kind != "content_block_delta" && raw.kind != "message_stop" ==>
                    sent == [])
  {
    var line := "data:" + gap + payload + tail;
    AnthropicPayload(decode, gap, payload, tail);
    TrimTight(payload);
    OneAnthropicLine(decode, line);
    OneLine(AnthropicLine(decode, line), KeepAnthropic);
  }

  /** Any other line, and a data line without a JSON object, sends nothing and ends nothing. */
  lemma OtherAnthropicLineSendsNothing(decode: AnthropicDecoder, line: string, rest: seq<string>,
                                       failure: Option<string>)
    requires "data:" <= line ==> !("{" <= TrimSpace(line[5..]))
    ensures AnthropicChunks(decode, Input([line] + rest, failure)) == AnthropicChunks(decode, Input(rest, failure))
  {
    assert ([line] + rest)[1..] == rest;
    assert DATA <= line ==> AfterPrefix(line, DATA) == line[5..];
    EmittedFirst(AnthropicLine(decode, line), AnthropicLines(decode, rest), KeepAnthropic, failure);
  }

  // ----- The text of a stream -----

  /** The decoded event of an Anthropic line, if it carries one. */
  ghost function EventOf(decode: AnthropicDecoder, line: string): Option<Decoded<AnthropicEvent>>
  {
    if "data:" <= line && "{" <= TrimSpace(line[5..]) then Some(decode(TrimSpace(line[5..]))) else None
  }

  ghost predicate EndsAnthropic(decode: AnthropicDecoder, line: string)
  {
    match EventOf(decode, line)
    case None => false
    case Some(event) => event.Malformed? || event.value.kind == "message_stop"
  }

  /** The text of a text_delta line; every other line has none. */
  ghost function DeltaText(decode: AnthropicDecoder, line: string): string
  {
    match EventOf(decode, line)
    case None => ""
    case Some(event) =>
      if event.Parsed? && event.value.kind == "content_block_delta" && event.value.deltaType == "text_delta"
      then event.value.deltaText else ""
  }

  /** The texts of the text_delta lines before the first line that ends the stream. */
  ghost function DeltaTexts(decode: AnthropicDecoder, lines: seq<string>): string
  {
    if |lines| == 0 || EndsAnthropic(decode, lines[0]) then ""
    else DeltaText(decode, lines[0]) + DeltaTexts(decode, lines[1..])
  }

  lemma LineByEvent(decode: AnthropicDecoder, line: string)
    ensures Stops(AnthropicLine(decode, line)) <==> EndsAnthropic(decode, line)
    ensures !EndsAnthropic(decode, line) ==> AnthropicLine(decode, line).chunk.delta.content == DeltaText(decode, line)
  {
    if DATA <= line {
      assert line[0] == 'd' && !(EVENT <= line);
      assert AfterPrefix(line, DATA) == line[5..];
    }
  }

  lemma {:induction false} TextsAreDeltas(decode: AnthropicDecoder, lines: seq<string>)
    ensures var parsed := AnthropicLines(decode, lines);
            TextOfLines(parsed[..StopAt(parsed)]) == DeltaTexts(decode, lines)
  {
    var parsed := AnthropicLines(decode, lines);
    if |lines| > 0 {
      LineByEvent(decode, lines[0]);
      assert parsed[1..] == AnthropicLines(decode, lines[1..]);
      TextsAreDeltas(decode, lines[1..]);
      if !Stops(parsed[0]) {
        var n := StopAt(parsed);
        assert parsed[..n][0] == parsed[0] && parsed[..n][1..] == parsed[1..][..n - 1];
      }
    }
  }

  /** The streamed text is the concatenation of the texts of the text_delta lines before the ending line. */
  lemma AnthropicTextIsDeltas(decode: AnthropicDecoder, input: Input)
    ensures TextOf(AnthropicChunks(decode, input)) == DeltaTexts(decode, input.lines)
  {
    AnthropicTextIsPreserved(decode, input);
    TextsAreDeltas(decode, input.lines);
  }

  /** The payload of an OpenAI line, if it is a data line. */
  ghost function PayloadOf(line: string): Option<string>
  {
    var text := TrimSpace(line);
    if "data:" <= text then Some(TrimSpace(text[5..])) else None
  }

  ghost predicate EndsOpenAI(decode: OpenAIDecoder, line: string)
  {
    match PayloadOf(line)
    case None => false
    case Some(payload) => payload == "[DONE]" || decode(payload).Malformed?
  }

  ghost function ChoiceText(decode: OpenAIDecoder, line: string): string
  {
    match PayloadOf(line)
    case None => ""
    case Some(payload) =>
      if decode(payload).Parsed? && |decode(payload).value.choices| > 0
      then decode(payload).value.choices[0].content else ""
  }

  /** The texts of the first choices before the first line that ends the stream. */
  ghost function ChoiceTexts(decode: OpenAIDecoder, lines: seq<string>): string
  {
    if |lines| == 0 || EndsOpenAI(decode, lines[0]) then ""
    else ChoiceText(decode, lines[0]) + ChoiceTexts(decode, lines[1..])
  }

  lemma LineByPayload(decode: OpenAIDecoder, line: string)
    ensures Stops(ParseSSELine(decode, line)) <==> EndsOpenAI(decode, line)
    ensures !EndsOpenAI(decode, line) ==> ParseSSELine(decode, line).chunk.delta.content == ChoiceText(decode, line)
  {
    var text := TrimSpace(line);
    assert DATA <= text ==> AfterPrefix(text, DATA) == text[5..];
  }

  lemma {:induction false} TextsAreChoices(decode: OpenAIDecoder, lines: seq<string>)
    ensures var parsed := OpenAILines(decode, lines);
            TextOfLines(parsed[..StopAt(parsed)]) == ChoiceTexts(decode, lines)
  {
    var parsed := OpenAILines(decode, lines);
    if |lines| > 0 {
      LineByPayload(decode, lines[0]);
      assert parsed[1..] == OpenAILines(decode, lines[1..]);
      TextsAreChoices(decode, lines[1..]);
      if !Stops(parsed[0]) {
        var n := StopAt(parsed);
        assert parsed[..n][0] == parsed[0] && parsed[..n][1..] == parsed[1..][..n - 1];
      }
    }
  }

  /** The same for OpenAI: the texts of the first choices before the ending line. */
  lemma OpenAITextIsChoices(decode: OpenAIDecoder, input: Input)
    ensures TextOf(OpenAIChunks(decode, input)) == ChoiceTexts(decode, input.lines)
  {
    OpenAITextIsPreserved(decode, input);
    TextsAreChoices(decode, input.lines);
  }

  // ----- Down to the client -----

  /** Every interleaving of the pipeline gives the client exactly the texts of the text_delta lines. */
  lemma AnthropicTextReachesClient(decode: AnthropicDecoder, input: Input, schedule: seq<Step>)
    requires Quiescent(AnthropicChunks(decode, input), After(AnthropicChunks(decode, input), true, schedule))
    ensures TextWritten(After(AnthropicChunks(decode, input), true, schedule).output) == DeltaTexts(decode, input.lines)
  {
    AnthropicEndToEnd(decode, input, schedule);
    TextsAreDeltas(decode, input.lines);
  }

  /** And for OpenAI those of the first choices. */
  lemma OpenAITextReachesClient(decode: OpenAIDecoder, input: Input, schedule: seq<Step>)
    requires Quiescent(OpenAIChunks(decode, input), After(OpenAIChunks(decode, input), true, schedule))
    ensures TextWritten(After(OpenAIChunks(decode, input), true, schedule).output) == ChoiceTexts(decode, input.lines)
  {
    OpenAIEndToEnd(decode, input, schedule);
    TextsAreChoices(decode, input.lines);
  }
}

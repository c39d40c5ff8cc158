/**
 * The provider end of a stream. Each upstream dialect has a line loop that turns scanned lines into
 * chunks until a terminator or an error; JSON decoding is a parameter.
 */
module Streams {
  import opened GatewayModel

  datatype Delta = Delta(role: string, content: string)

  datatype Chunk = Chunk(id: string, model: string, delta: Delta, done: bool, error: Option<Error>)

  const EMPTY := Chunk("", "", Delta("", ""), false, None)
  const TERMINATOR := EMPTY.(done := true)

  function FailureChunk(message: string): Chunk
  {
    EMPTY.(error := Some(Error(PROVIDER_ERROR, message)))
  }

  /** What the scanner delivers: lines, then its own error if reading failed. */
  datatype Input = Input(lines: seq<string>, failure: Option<string>)

  datatype Decoded<+T> = Parsed(value: T) | Malformed(message: string)

  /** The three results of parsing a line. */
  datatype Line = Line(chunk: Chunk, done: bool, error: Option<string>)

  const SKIPPED := Line(EMPTY, false, None)

  // ----- Text -----

  /** White space as the Unicode property defines it. */
  predicate IsSpace(c: char)
  {
    || '\t' <= c <= '\r' || c == ' ' || c == '\U{85}' || c == '\U{A0}' || c == '\U{1680}'
    || '\U{2000}' <= c <= '\U{200A}' || c == '\U{2028}' || c == '\U{2029}' || c == '\U{202F}' || c == '\U{205F}'
      || c == '\U{3000}'
  }

  function TrimLeft(s: string): string
  {
    if |s| > 0 && IsSpace(s[0]) then TrimLeft(s[1..]) else s
  }

  function TrimRight(s: string): string
  {
    if |s| > 0 && IsSpace(s[|s| - 1]) then TrimRight(s[..|s| - 1]) else s
  }

  function TrimSpace(s: string): string
  {
    TrimRight(TrimLeft(s))
  }

  function AfterPrefix(s: string, prefix: string): string
  {
    if prefix <= s then s[|prefix|..] else s
  }

  const DATA := "data:"
  const EVENT := "event:"

  // ----- OpenAI lines -----

  datatype OpenAIEvent = OpenAIEvent(id: string, model: string, choices: seq<Delta>)

  type OpenAIDecoder = string -> Decoded<OpenAIEvent>

  function ParseSSELine(decode: OpenAIDecoder, line: string): Line
  {
    var trimmed := TrimSpace(line);
    if trimmed == "" || !(DATA <= trimmed) then SKIPPED
    else
      var payload := TrimSpace(AfterPrefix(trimmed, DATA));
      if payload == "[DONE]" then Line(TERMINATOR, true, None)
      else
        match decode(payload)
        case Malformed(message) => Line(EMPTY, false, Some(message))
        case Parsed(raw) =>
          Line(Chunk(raw.id, raw.model, if |raw.choices| > 0 then raw.choices[0] else Delta("", ""), false, None),
               false, None)
  }

  predicate KeepOpenAI(c: Chunk)
  {
    c.id != "" || c.delta.content != ""
  }

  // ----- What counts in an OpenAI line -----

  ghost predicate AllSpace(s: string)
  {
    forall i :: 0 <= i < |s| ==> IsSpace(s[i])
  }

  /** Neither the first nor the last character is white space. */
  ghost predicate Tight(s: string)
  {
    |s| > 0 && !IsSpace(s[0]) && !IsSpace(s[|s| - 1])
  }

  lemma {:induction false} TrimLeftPadding(pre: string, s: string)
    requires AllSpace(pre)
    ensures TrimLeft(pre + s) == TrimLeft(s)
  {
    if |pre| == 0 {
      assert pre + s == s;
    } else {
      TrimLeftPadding(pre[1..], s);
      assert (pre + s)[1..] == pre[1..] + s;
    }
  }

  lemma {:induction false} TrimRightPadding(s: string, post: string)
    requires AllSpace(post)
    ensures TrimRight(s + post) == TrimRight(s)
  {
    if |post| == 0 {
      assert s + post == s;
    } else {
      TrimRightPadding(s, post[..|post| - 1]);
      assert (s + post)[..|s + post| - 1] == s + post[..|post| - 1];
    }
  }

  /** Trimming on the left does not look at what follows, unless nothing is left. */
  lemma {:induction false} TrimLeftBefore(s: string, post: string)
    ensures TrimLeft(s) != "" ==> TrimLeft(s + post) == TrimLeft(s) + post
    ensures TrimLeft(s) == "" ==> AllSpace(s)
  {
    if |s| > 0 && IsSpace(s[0]) {
      TrimLeftBefore(s[1..], post);
      assert (s + post)[1..] == s[1..] + post;
      assert AllSpace(s[1..]) ==> forall i :: 1 <= i < |s| ==> s[i] == s[1..][i - 1];
    }
  }

  lemma TrimIgnoresPadding(pre: string, s: string, post: string)
    requires AllSpace(pre) && AllSpace(post)
    ensures TrimSpace(pre + s + post) == TrimSpace(s)
  {
    assert pre + s + post == pre + (s + post);
    TrimLeftPadding(pre, s + post);
    TrimLeftBefore(s, post);
    if TrimLeft(s) == "" {
      TrimLeftPadding(s, post);
      TrimLeftPadding(post, "");
      assert post + "" == post;
    } else {
      TrimRightPadding(TrimLeft(s), post);
    }
  }

  /** White space around an OpenAI line changes nothing. */
  lemma PaddingIsIgnored(decode: OpenAIDecoder, pre: string, line: string, post: string)
    requires AllSpace(pre) && AllSpace(post)
    ensures ParseSSELine(decode, pre + line + post) == ParseSSELine(decode, line)
  {
    TrimIgnoresPadding(pre, line, post);
  }

  lemma TrimTight(s: string)
    requires Tight(s)
    ensures TrimSpace(s) == s
  {
  }

  /**
   * A data line carries its payload whatever white space follows the colon: [DONE] ends the stream, anything
   * else is decoded, and the first choice is the delta.
   */
  lemma DataLineCarriesPayload(decode: OpenAIDecoder, gap: string, payload: string)
    requires AllSpace(gap) && Tight(payload)
    ensures var line := ParseSSELine(decode, DATA + gap + payload);
            && (line.done <==> payload == "[DONE]")
            && (payload != "[DONE]" && decode(payload).Malformed? ==> line.error == Some(decode(payload).message))
            && (payload != "[DONE]" && decode(payload).Parsed? ==>
                  var raw := decode(payload).value;
                  && line.error.None? && line.chunk.id == raw.id && line.chunk.model == raw.model
                  && line.chunk.delta == if raw.choices == [] then Delta("", "") else raw.choices[0])
  {
    var text := DATA + gap + payload;
    assert text[0] == 'd' && text[|text| - 1] == payload[|payload| - 1];
    TrimTight(text);
    assert DATA <= text && AfterPrefix(text, DATA) == gap + payload;
    assert gap + payload + "" == gap + payload;
    TrimIgnoresPadding(gap, payload, "");
    TrimTight(payload);
  }

  /** The closing line that the gateway itself writes is read as a terminator by this loop. */
  lemma OwnClosingLineTerminates(decode: OpenAIDecoder)
    ensures ParseSSELine(decode, "data: [DONE]") == Line(TERMINATOR, true, None)
  {
    DataLineCarriesPayload(decode, " ", "[DONE]");
    assert DATA + " " + "[DONE]" == "data: [DONE]";
  }

  // ----- Anthropic lines -----

  datatype AnthropicEvent = AnthropicEvent(
    kind: string, messageId: string, messageRole: string, messageModel: string, deltaType: string, deltaText: string)

  type AnthropicDecoder = string -> Decoded<AnthropicEvent>

  function ParseAnthropicSSEEvent(decode: AnthropicDecoder, eventType: string, data: string): Line
  {
    var event, payload := TrimSpace(eventType), TrimSpace(data);
    if event == "" && payload == "" then SKIPPED
    else if !("{" <= payload) then SKIPPED
    else
      match decode(payload)
      case Malformed(message) => Line(EMPTY, false, Some(message))
      case Parsed(raw) =>
        if raw.kind == "message_start" then
          Line(Chunk(raw.messageId, raw.messageModel, Delta(raw.messageRole, ""), false, None), false, None)
        else if raw.kind == "content_block_delta" then
          if raw.deltaType == "text_delta" then Line(EMPTY.(delta := Delta("", raw.deltaText)), false, None)
          else SKIPPED
        else if raw.kind == "message_stop" then Line(TERMINATOR, true, None)
        else SKIPPED
  }

  predicate KeepAnthropic(c: Chunk)
  {
    c.id != "" || c.delta.content != "" || c.delta.role != ""
  }

  // ----- What a line loop sends -----

  /** Chunks that pass the filter, up to and including the first terminator or error. */
  ghost function Emitted(lines: seq<Line>, keep: Chunk -> bool, failure: Option<string>): (out: seq<Chunk>)
  {
    if |lines| == 0 then (if failure.Some? then [FailureChunk(failure.value)] else [])
    else
      var line := lines[0];
      if line.error.Some? then [FailureChunk(line.error.value)]
      else if line.done then [line.chunk]
      else (if keep(line.chunk) then [line.chunk] else []) + Emitted(lines[1..], keep, failure)
  }

  ghost function OpenAILines(decode: OpenAIDecoder, lines: seq<string>): (r: seq<Line>)
    ensures |r| == |lines|
    ensures forall i {:trigger r[i]} :: 0 <= i < |r| ==> r[i] == ParseSSELine(decode, lines[i])
  {
    if |lines| == 0 then [] else [ParseSSELine(decode, lines[0])] + OpenAILines(decode, lines[1..])
  }

  ghost function OpenAIChunks(decode: OpenAIDecoder, input: Input): seq<Chunk>
  {
    Emitted(OpenAILines(decode, input.lines), KeepOpenAI, input.failure)
  }

  /** An Anthropic line on its own, whatever event was announced before it. */
  function AnthropicLine(decode: AnthropicDecoder, line: string): Line
  {
    if !(EVENT <= line) && DATA <= line then ParseAnthropicSSEEvent(decode, "", AfterPrefix(line, DATA)) else SKIPPED
  }

  ghost function AnthropicLines(decode: AnthropicDecoder, lines: seq<string>): (r: seq<Line>)
    ensures |r| == |lines|
    ensures forall i {:trigger r[i]} :: 0 <= i < |r| ==> r[i] == AnthropicLine(decode, lines[i])
  {
    if |lines| == 0 then [] else [AnthropicLine(decode, lines[0])] + AnthropicLines(decode, lines[1..])
  }

  ghost function AnthropicChunks(decode: AnthropicDecoder, input: Input): seq<Chunk>
  {
    Emitted(AnthropicLines(decode, input.lines), KeepAnthropic, input.failure)
  }

  // ----- The loops -----

  ghost predicate Stops(line: Line)
  {
    line.error.Some? || line.done
  }

  /** A skipped line sends nothing; any other line acts on its own. */
  lemma EmittedFirst(line: Line, rest: seq<Line>, keep: Chunk -> bool, failure: Option<string>)
    ensures line == SKIPPED && !keep(EMPTY) ==> Emitted([line] + rest, keep, failure) == Emitted(rest, keep, failure)
    ensures line.error.Some? ==> Emitted([line] + rest, keep, failure) == [FailureChunk(line.error.value)]
    ensures line.error.None? && line.done ==> Emitted([line] + rest, keep, failure) == [line.chunk]
    ensures !Stops(line) && keep(line.chunk) ==>
              Emitted([line] + rest, keep, failure) == [line.chunk] + Emitted(rest, keep, failure)
    ensures !Stops(line) && !keep(line.chunk) ==> Emitted([line] + rest, keep, failure) == Emitted(rest, keep, failure)
  {
    assert ([line] + rest)[1..] == rest;
    assert [] + Emitted(rest, keep, failure) == Emitted(rest, keep, failure);
  }

  lemma EmittedNothing(keep: Chunk -> bool, failure: Option<string>)
    ensures Emitted([], keep, failure) == if failure.Some? then [FailureChunk(failure.value)] else []
  {
  }

  lemma EmittedNext(lines: seq<Line>, i: nat, line: Line, keep: Chunk -> bool, failure: Option<string>)
    requires i < |lines| && line == lines[i]
    ensures line == SKIPPED && !keep(EMPTY) ==>
            Emitted(lines[i..], keep, failure) == Emitted(lines[i + 1..], keep, failure)
    ensures line.error.Some? ==> Emitted(lines[i..], keep, failure) == [FailureChunk(line.error.value)]
    ensures line.error.None? && line.done ==> Emitted(lines[i..], keep, failure) == [line.chunk]
    ensures !Stops(line) && keep(line.chunk) ==>
              Emitted(lines[i..], keep, failure) == [line.chunk] + Emitted(lines[i + 1..], keep, failure)
    ensures !Stops(line) && !keep(line.chunk) ==>
            Emitted(lines[i..], keep, failure) == Emitted(lines[i + 1..], keep, failure)
  {
    assert lines[i..] == [line] + lines[i + 1..];
    EmittedFirst(line, lines[i + 1..], keep, failure);
  }

  method StreamOpenAI(decode: OpenAIDecoder, input: Input) returns (out: seq<Chunk>)
    ensures out == OpenAIChunks(decode, input)
  {
    hide ParseSSELine;
    hide Emitted;
    hide OpenAILines;
    EmittedNothing(KeepOpenAI, input.failure);
    out := [];
    ghost var lines := OpenAILines(decode, input.lines);
    for i := 0 to |input.lines|
      invariant OpenAIChunks(decode, input) == out + Emitted(lines[i..], KeepOpenAI, input.failure)
    {
      var line := ParseSSELine(decode, input.lines[i]);
      EmittedNext(lines, i, line, KeepOpenAI, input.failure);
      if line.error.Some? {
        out := out + [FailureChunk(line.error.value)];
        return;
      }
      if line.done {
        out := out + [line.chunk];
        return;
      }
      if line.chunk.id != "" || line.chunk.delta.content != "" {
        out := out + [line.chunk];
      }
    }
    assert lines[|input.lines|..] == [];
    if input.failure.Some? {
      out := out + [FailureChunk(input.failure.value)];
    }
  }

  /** The event type only matters for a data line that is empty, and such a line yields nothing anyway. */
  lemma EventTypeIsIrrelevant(decode: AnthropicDecoder, eventType: string, data: string)
    ensures ParseAnthropicSSEEvent(decode, eventType, data) == ParseAnthropicSSEEvent(decode, "", data)
  {
  }

  method StreamAnthropic(decode: AnthropicDecoder, input: Input) returns (out: seq<Chunk>)
    ensures out == AnthropicChunks(decode, input)
  {
    hide ParseAnthropicSSEEvent;
    hide TrimSpace;
    hide Emitted;
    hide AnthropicLines;
    EmittedNothing(KeepAnthropic, input.failure);
    out := [];
    var currentEvent := "";
    ghost var lines := AnthropicLines(decode, input.lines);
    for i := 0 to |input.lines|
      invariant AnthropicChunks(decode, input) == out + Emitted(lines[i..], KeepAnthropic, input.failure)
    {
      var text := input.lines[i];
      EmittedNext(lines, i, AnthropicLine(decode, text), KeepAnthropic, input.failure);
      if EVENT <= text {
        currentEvent := TrimSpace(AfterPrefix(text, EVENT));
        continue;
      }
      if DATA <= text {
        var line := ParseAnthropicSSEEvent(decode, currentEvent, AfterPrefix(text, DATA));
        assert line == lines[i] && (line.chunk == EMPTY ==> !KeepAnthropic(line.chunk)) by {
          EventTypeIsIrrelevant(decode, currentEvent, AfterPrefix(text, DATA));
        }
        currentEvent := "";
        if line.error.Some? {
          out := out + [FailureChunk(line.error.value)];
          return;
        }
        if line.done {
          out := out + [line.chunk];
          return;
        }
        if line.chunk.id != "" || line.chunk.delta.content != "" || line.chunk.delta.role != "" {
          out := out + [line.chunk];
        }
      }
    }
    assert lines[|input.lines|..] == [];
    if input.failure.Some? {
      out := out + [FailureChunk(input.failure.value)];
    }
  }

  // ----- Event lines -----

  function WithoutEvents(lines: seq<string>): seq<string>
  {
    if |lines| == 0 then []
    else (if EVENT <= lines[0] then [] else [lines[0]]) + WithoutEvents(lines[1..])
  }

  lemma {:induction false} SameWithoutEvents(decode: AnthropicDecoder, lines: seq<string>, keep: Chunk -> bool,
                                             failure: Option<string>)
    requires !keep(EMPTY)
    ensures Emitted(AnthropicLines(decode, lines), keep, failure)
         == Emitted(AnthropicLines(decode, WithoutEvents(lines)), keep, failure)
  {
    if |lines| > 0 {
      var first, rest := lines[0], lines[1..];
      var line := AnthropicLine(decode, first);
      SameWithoutEvents(decode, rest, keep, failure);
      EmittedFirst(line, AnthropicLines(decode, rest), keep, failure);
      if EVENT <= first {
        assert WithoutEvents(lines) == WithoutEvents(rest);
      } else {
        var others := WithoutEvents(rest);
        assert ([first] + others)[1..] == others;
        EmittedFirst(line, AnthropicLines(decode, others), keep, failure);
      }
    }
  }

  /** Deleting every event: line of an Anthropic stream changes nothing of what is sent. */
  lemma EventLinesAreIrrelevant(decode: AnthropicDecoder, input: Input)
    ensures AnthropicChunks(decode, input) == AnthropicChunks(decode, input.(lines := WithoutEvents(input.lines)))
  {
    SameWithoutEvents(decode, input.lines, KeepAnthropic, input.failure);
  }

  // ----- The text that gets through -----

  /** What holds of every line a parser returns. */
  ghost predicate Sane(line: Line)
  {
    && (line.error.Some? ==> !line.done)
    && (line.done ==> line.chunk == TERMINATOR)
    && (!line.done ==> !line.chunk.done && line.chunk.error.None?)
  }

  lemma ParsersAreSane(openai: OpenAIDecoder, anthropic: AnthropicDecoder, line: string)
    ensures Sane(ParseSSELine(openai, line)) && Sane(AnthropicLine(anthropic, line))
  {
  }

  /** The first line that ends the stream, or the number of lines. */
  ghost function StopAt(lines: seq<Line>): (n: nat)
    ensures n <= |lines|
    ensures forall i :: 0 <= i < n ==> !Stops(lines[i])
    ensures n < |lines| ==> Stops(lines[n])
  {
    if |lines| == 0 || Stops(lines[0]) then 0
    else
      var n := StopAt(lines[1..]) + 1;
      assert forall i :: 1 <= i < n ==> lines[i] == lines[1..][i - 1];
      n
  }

  /** The concatenated text of a sequence of lines, each read on its own. */
  ghost function TextOfLines(lines: seq<Line>): string
  {
    if |lines| == 0 then "" else lines[0].chunk.delta.content + TextOfLines(lines[1..])
  }

  ghost function TextOf(chunks: seq<Chunk>): string
  {
    if |chunks| == 0 then "" else chunks[0].delta.content + TextOf(chunks[1..])
  }

  ghost predicate DropsNoText(keep: Chunk -> bool)
  {
    forall c: Chunk :: !keep(c) ==> c.delta.content == ""
  }

  lemma TextOfCons(c: Chunk, rest: seq<Chunk>)
    ensures TextOf([c] + rest) == c.delta.content + TextOf(rest)
  {
    assert ([c] + rest)[1..] == rest;
  }

  /** The loop loses no text and adds none: it sends the text of all lines before the one that ends the stream. */
  lemma {:induction false} TextIsPreserved(lines: seq<Line>, keep: Chunk -> bool, failure: Option<string>)
    requires DropsNoText(keep) && forall i :: 0 <= i < |lines| ==> Sane(lines[i])
    ensures TextOf(Emitted(lines, keep, failure)) == TextOfLines(lines[..StopAt(lines)])
  {
    if |lines| == 0 {
      TextOfCons(FailureChunk(if failure.Some? then failure.value else ""), []);
    } else if Stops(lines[0]) {
      var c := if lines[0].error.Some? then FailureChunk(lines[0].error.value) else lines[0].chunk;
      assert Emitted(lines, keep, failure) == [c] + [];
      TextOfCons(c, []);
    } else {
      var c, rest, n := lines[0].chunk, lines[1..], StopAt(lines);
      TextIsPreserved(rest, keep, failure);
      assert lines[..n][0] == lines[0] && lines[..n][1..] == rest[..StopAt(rest)];
      TextOfCons(c, Emitted(rest, keep, failure));
      assert lines == [lines[0]] + rest;
      EmittedFirst(lines[0], rest, keep, failure);
      assert keep(c) || c.delta.content + TextOf(Emitted(rest, keep, failure)) == TextOf(Emitted(rest, keep, failure));
    }
  }

  lemma OpenAITextIsPreserved(decode: OpenAIDecoder, input: Input)
    ensures var lines := OpenAILines(decode, input.lines);
            TextOf(OpenAIChunks(decode, input)) == TextOfLines(lines[..StopAt(lines)])
  {
    var lines := OpenAILines(decode, input.lines);
    forall i | 0 <= i < |lines|
      ensures Sane(lines[i])
    {
      ParsersAreSane(decode, _ => Malformed(""), input.lines[i]);
    }
    TextIsPreserved(lines, KeepOpenAI, input.failure);
  }

  lemma AnthropicTextIsPreserved(decode: AnthropicDecoder, input: Input)
    ensures var lines := AnthropicLines(decode, input.lines);
            TextOf(AnthropicChunks(decode, input)) == TextOfLines(lines[..StopAt(lines)])
  {
    var lines := AnthropicLines(decode, input.lines);
    forall i | 0 <= i < |lines|
      ensures Sane(lines[i])
    {
      ParsersAreSane(_ => Malformed(""), decode, input.lines[i]);
    }
    TextIsPreserved(lines, KeepAnthropic, input.failure);
  }

  // ----- How a stream ends -----

  ghost predicate Terminal(c: Chunk)
  {
    c.done || c.error.Some?
  }

  /** At most one chunk is terminal, and then it is the last. */
  ghost predicate EndsOnce(chunks: seq<Chunk>)
  {
    forall i :: 0 <= i < |chunks| - 1 ==> !Terminal(chunks[i])
  }

  ghost predicate HasError(chunks: seq<Chunk>)
  {
    exists i :: 0 <= i < |chunks| && chunks[i].error.Some?
  }

  ghost predicate HasTerminator(chunks: seq<Chunk>)
  {
    exists i :: 0 <= i < |chunks| && chunks[i].done
  }

  /** A first chunk that is not terminal changes nothing about the end. */
  lemma EndAfterFirst(c: Chunk, rest: seq<Chunk>)
    requires EndsOnce(rest) && !Terminal(c)
    ensures EndsOnce([c] + rest)
    ensures HasError([c] + rest) <==> HasError(rest)
    ensures HasTerminator([c] + rest) <==> HasTerminator(rest)
  {
    var all := [c] + rest;
    assert forall i :: 0 <= i < |rest| ==> all[i + 1] == rest[i];
    assert forall i :: 1 <= i < |all| ==> all[i] == rest[i - 1];
  }

  /**
   * A line loop sends at most one terminal chunk, as its last. It is an error exactly when the line that
   * ends the stream is malformed, or no line does and the scanner fails; a terminator exactly when that line is one.
   */
  lemma {:induction false} EndOfStream(lines: seq<Line>, keep: Chunk -> bool, failure: Option<string>)
    requires forall i :: 0 <= i < |lines| ==> Sane(lines[i])
    ensures var out, n := Emitted(lines, keep, failure), StopAt(lines);
            && EndsOnce(out)
            && (HasError(out) <==> if n < |lines| then lines[n].error.Some? else failure.Some?)
            && (HasTerminator(out) <==> n < |lines| && lines[n].done)
  {
    var out := Emitted(lines, keep, failure);
    if |lines| == 0 {
      assert failure.Some? ==> out[0].error.Some?;
    } else if Stops(lines[0]) {
      assert out[0].done <==> lines[0].done;
      assert out[0].error.Some? <==> lines[0].error.Some?;
    } else {
      var c, rest := lines[0].chunk, lines[1..];
      EndOfStream(rest, keep, failure);
      EndAfterFirst(c, Emitted(rest, keep, failure));
      assert lines == [lines[0]] + rest;
      EmittedFirst(lines[0], rest, keep, failure);
      assert StopAt(rest) < |rest| ==> rest[StopAt(rest)] == lines[StopAt(lines)];
    }
  }

  /** The error that ends a stream, if one does. */
  ghost predicate Fails(lines: seq<Line>, failure: Option<string>)
  {
    if StopAt(lines) < |lines| then lines[StopAt(lines)].error.Some? else failure.Some?
  }

  lemma OpenAIEnds(decode: OpenAIDecoder, input: Input)
    ensures EndsOnce(OpenAIChunks(decode, input))
    ensures HasError(OpenAIChunks(decode, input)) <==> Fails(OpenAILines(decode, input.lines), input.failure)
  {
    var lines := OpenAILines(decode, input.lines);
    forall i | 0 <= i < |lines|
      ensures Sane(lines[i])
    {
      ParsersAreSane(decode, _ => Malformed(""), input.lines[i]);
    }
    EndOfStream(lines, KeepOpenAI, input.failure);
  }

  lemma AnthropicEnds(decode: AnthropicDecoder, input: Input)
    ensures EndsOnce(AnthropicChunks(decode, input))
    ensures HasError(AnthropicChunks(decode, input)) <==> Fails(AnthropicLines(decode, input.lines), input.failure)
  {
    var lines := AnthropicLines(decode, input.lines);
    forall i | 0 <= i < |lines|
      ensures Sane(lines[i])
    {
      ParsersAreSane(_ => Malformed(""), decode, input.lines[i]);
    }
    EndOfStream(lines, KeepAnthropic, input.failure);
  }
}

/**
 * The three goroutines behind a streamed answer, joined by two unbuffered channels: the provider sends its
 * chunks, the service forwards them and records the breaker outcome, the HTTP handler writes them out.
 * First each loop on its own, then every interleaving of the three.
 */
module StreamPipeline {
  import opened GatewayModel
  import opened Streams

  /**
   * What the handler writes: an event with a chunk's JSON, the closing [DONE] line, or an error answer instead
   * of a stream.
   */
  datatype Frame = EventFrame(chunk: Chunk) | DoneFrame | NotSupported | ErrorAnswer(error: Error)

  /** What the service answers to a streaming request: a channel, or the error it was refused with. */
  datatype Answer = Channel(ch: seq<Chunk>) | Refused(error: Error)

  // ----- Each loop on its own -----

  ghost function FirstError(chunks: seq<Chunk>): (n: nat)
    ensures n <= |chunks|
    ensures forall i :: 0 <= i < n ==> chunks[i].error.None?
    ensures n < |chunks| ==> chunks[n].error.Some?
  {
    if |chunks| == 0 || chunks[0].error.Some? then 0
    else
      var n := FirstError(chunks[1..]) + 1;
      assert forall i :: 1 <= i < n ==> chunks[i] == chunks[1..][i - 1];
      n
  }

  /** How many chunks the handler takes: all of them, or those up to the first error; none without a flusher. */
  ghost function Taken(chunks: seq<Chunk>, flusher: bool): (n: nat)
    ensures n <= |chunks|
  {
    if !flusher then 0 else if FirstError(chunks) < |chunks| then FirstError(chunks) + 1 else |chunks|
  }

  ghost function Events(chunks: seq<Chunk>): (r: seq<Frame>)
    ensures |r| == |chunks|
  {
    if |chunks| == 0 then [] else Events(chunks[..|chunks| - 1]) + [EventFrame(chunks[|chunks| - 1])]
  }

  /** The failures recorded while forwarding. */
  ghost function Failures(chunks: seq<Chunk>): (r: seq<bool>)
  {
    if |chunks| == 0 then []
    else Failures(chunks[..|chunks| - 1]) + (if chunks[|chunks| - 1].error.Some? then [false] else [])
  }

  /** Everything recorded while forwarding: the failures, or else one success. */
  ghost function Records(chunks: seq<Chunk>): (r: seq<bool>)
  {
    if HasError(chunks) then Failures(chunks) else Failures(chunks) + [true]
  }

  /** Everything the handler writes. */
  ghost function Written(chunks: seq<Chunk>, flusher: bool): seq<Frame>
  {
    if !flusher then [NotSupported]
    else Events(chunks[..Taken(chunks, flusher)]) + (if HasError(chunks) then [] else [DoneFrame])
  }

  lemma EventsNext(chunks: seq<Chunk>, i: nat)
    requires i < |chunks|
    ensures Events(chunks[..i + 1]) == Events(chunks[..i]) + [EventFrame(chunks[i])]
    ensures Failures(chunks[..i + 1])
         == if chunks[i].error.Some? then Failures(chunks[..i]) + [false] else Failures(chunks[..i])
  {
    assert chunks[..i + 1][..i] == chunks[..i];
    assert Failures(chunks[..i]) + [] == Failures(chunks[..i]);
  }

  lemma FirstErrorUnique(chunks: seq<Chunk>, n: nat)
    requires n <= |chunks| && (forall i :: 0 <= i < n ==> chunks[i].error.None?)
    requires n < |chunks| ==> chunks[n].error.Some?
    ensures FirstError(chunks) == n
    ensures HasError(chunks) <==> n < |chunks|
  {
  }

  /** A prefix holds an error exactly when the first error lies inside it. */
  lemma ErrorWithin(chunks: seq<Chunk>, d: nat)
    requires d <= |chunks|
    ensures HasError(chunks[..d]) <==> FirstError(chunks) < d
    ensures HasError(chunks) <==> FirstError(chunks) < |chunks|
  {
    var n := FirstError(chunks);
    FirstErrorUnique(chunks, n);
    FirstErrorUnique(chunks[..d], if n < d then n else d);
  }

  lemma {:induction false} EventsInOrder(chunks: seq<Chunk>, i: nat)
    requires i < |chunks|
    ensures Events(chunks)[i] == EventFrame(chunks[i])
  {
    if i < |chunks| - 1 {
      EventsInOrder(chunks[..|chunks| - 1], i);
    }
  }

  /**
   * What the client is written: one event a chunk, in order, up to and including the first error; the closing
   * line exactly when there is none, at the end.
   */
  lemma WrittenInOrder(chunks: seq<Chunk>, i: nat)
    ensures var out := Written(chunks, true);
            && (i < |chunks| && (forall j :: 0 <= j < i ==> chunks[j].error.None?) ==>
                  i < |out| && out[i] == EventFrame(chunks[i]))
            && (i < |chunks| && (forall j :: 0 <= j < i ==> chunks[j].error.None?) && chunks[i].error.Some? ==>
                  |out| == i + 1)
            && (!HasError(chunks) ==> |out| == |chunks| + 1 && out[|chunks|] == DoneFrame)
  {
    ErrorWithin(chunks, 0);
    if i < |chunks| && forall j :: 0 <= j < i ==> chunks[j].error.None? {
      if chunks[i].error.Some? {
        FirstErrorUnique(chunks, i);
      }
      EventsInOrder(chunks[..Taken(chunks, true)], i);
    }
  }

  /** The handler: an error answer for a refused request, else the loop over the chunks it receives. */
  method HandleStream(answer: Answer, flusher: bool) returns (out: seq<Frame>, taken: nat)
    ensures answer.Refused? ==> out == [ErrorAnswer(answer.error)] && taken == 0
    ensures answer.Channel? ==> out == Written(answer.ch, flusher) && taken == Taken(answer.ch, flusher)
  {
    out, taken := [], 0;
    if answer.Refused? {
      return [ErrorAnswer(answer.error)], 0;
    }
    var ch := answer.ch;
    if !flusher {
      out := [NotSupported];
      return;
    }
    for i := 0 to |ch|
      invariant taken == i && out == Events(ch[..i])
      invariant forall j :: 0 <= j < i ==> ch[j].error.None?
    {
      EventsNext(ch, i);
      if ch[i].error.Some? {
        FirstErrorUnique(ch, i);
        out, taken := out + [EventFrame(ch[i])], i + 1;
        return;
      }
      out, taken := out + [EventFrame(ch[i])], i + 1;
    }
    FirstErrorUnique(ch, |ch|);
    assert ch[..|ch|] == ch;
    out := out + [DoneFrame];
  }

  /**
   * The service's loop: every chunk is passed on, every error recorded, success recorded at the end if there
   * was none.
   */
  method Forward(ch: seq<Chunk>) returns (out: seq<Chunk>, records: seq<bool>)
    ensures out == ch
    ensures records == Records(ch)
  {
    out, records := [], [];
    var gotError := false;
    for i := 0 to |ch|
      invariant out == ch[..i] && records == Failures(ch[..i])
      invariant gotError <==> HasError(ch[..i])
    {
      EventsNext(ch, i);
      ErrorsNext(ch, i);
      if ch[i].error.Some? {
        records := records + [false];
        gotError := true;
      }
      out := out + [ch[i]];
    }
    assert ch[..|ch|] == ch;
    if !gotError {
      records := records + [true];
    }
  }

  lemma ErrorsNext(chunks: seq<Chunk>, i: nat)
    requires i < |chunks|
    ensures HasError(chunks[..i + 1]) <==> HasError(chunks[..i]) || chunks[i].error.Some?
  {
    var a, b := chunks[..i], chunks[..i + 1];
    assert forall j :: 0 <= j < i ==> a[j] == b[j];
    assert b[i] == chunks[i];
  }

  // ----- The three together -----

  datatype Step = CloseProvider | Receive | Deliver | CloseService | Finish

  /**
   * `next` chunks have left the provider, the service holds at most one of them, and the handler has
   * written `output`. A receive and a send on an unbuffered channel are one step of both goroutines.
   */
  datatype State = State(
    next: nat, providerClosed: bool,
    held: Option<Chunk>, gotError: bool, records: seq<bool>, serviceClosed: bool,
    reading: bool, output: seq<Frame>)

  ghost function Start(flusher: bool): State
  {
    State(0, false, None, false, [], false, flusher, if flusher then [] else [NotSupported])
  }

  ghost predicate Enabled(chunks: seq<Chunk>, s: State, step: Step)
  {
    match step
    case CloseProvider => s.next == |chunks| && !s.providerClosed
    case Receive => s.next < |chunks| && s.held.None? && !s.serviceClosed
    case Deliver => s.held.Some? && s.reading
    case CloseService => s.providerClosed && s.held.None? && !s.serviceClosed
    case Finish => s.serviceClosed && s.reading
  }

  ghost function Next(chunks: seq<Chunk>, s: State, step: Step): State
  {
    if !Enabled(chunks, s, step) then s
    else
      match step
      case CloseProvider => s.(providerClosed := true)
      case Receive =>
        var c := chunks[s.next];
        var s1 := s.(next := s.next + 1, held := Some(c));
        if c.error.Some? then s1.(gotError := true, records := s.records + [false]) else s1
      case Deliver =>
        s.(held := None, output := s.output + [EventFrame(s.held.value)], reading := s.held.value.error.None?)
      case CloseService =>
        s.(serviceClosed := true, records := if s.gotError then s.records else s.records + [true])
      case Finish => s.(reading := false, output := s.output + [DoneFrame])
  }

  ghost function After(chunks: seq<Chunk>, flusher: bool, schedule: seq<Step>): State
  {
    if |schedule| == 0 then Start(flusher)
    else Next(chunks, After(chunks, flusher, schedule[..|schedule| - 1]), schedule[|schedule| - 1])
  }

  ghost predicate Quiescent(chunks: seq<Chunk>, s: State)
  {
    forall step :: !Enabled(chunks, s, step)
  }

  // ----- What every interleaving keeps -----

  /** How many chunks the handler has received. */
  ghost function Delivered(s: State): int
  {
    if s.held.Some? then s.next - 1 else s.next
  }

  ghost function Outcomes(s: State): seq<bool>
  {
    if s.serviceClosed && !s.gotError then [true] else []
  }

  /** The handler has met the end of its channel. */
  ghost predicate Finished(chunks: seq<Chunk>, s: State, flusher: bool)
  {
    flusher && !s.reading && s.serviceClosed && !HasError(chunks)
  }

  ghost predicate ServiceInv(chunks: seq<Chunk>, s: State)
  {
    && s.next <= |chunks|
    && (s.held.Some? ==> s.next > 0 && s.held.value == chunks[s.next - 1])
    && (s.gotError <==> HasError(chunks[..s.next]))
    && s.records == Failures(chunks[..s.next]) + Outcomes(s)
    && (s.providerClosed ==> s.next == |chunks|)
    && (s.serviceClosed ==> s.providerClosed && s.held.None?)
  }

  ghost predicate HandlerInv(chunks: seq<Chunk>, s: State, flusher: bool)
    requires 0 <= Delivered(s) <= |chunks|
  {
    var d := Delivered(s);
    if !flusher then s.output == [NotSupported] && !s.reading && d == 0
    else
      && (s.reading ==> !HasError(chunks[..d]))
      && (!s.reading ==> HasError(chunks[..d]) || Finished(chunks, s, flusher))
      && d <= Taken(chunks, flusher)
      && s.output == Events(chunks[..d]) + (if !s.reading && !HasError(chunks[..d]) then [DoneFrame] else [])
  }

  ghost predicate Inv(chunks: seq<Chunk>, s: State, flusher: bool)
  {
    ServiceInv(chunks, s) && 0 <= Delivered(s) && HandlerInv(chunks, s, flusher)
  }

  lemma ReceiveKeeps(chunks: seq<Chunk>, s: State, flusher: bool)
    requires Inv(chunks, s, flusher) && Enabled(chunks, s, Receive)
    ensures Inv(chunks, Next(chunks, s, Receive), flusher)
  {
    hide Events;
    hide Failures;
    EventsNext(chunks, s.next);
    ErrorsNext(chunks, s.next);
  }

  lemma DeliverKeeps(chunks: seq<Chunk>, s: State, flusher: bool)
    requires Inv(chunks, s, flusher) && Enabled(chunks, s, Deliver)
    ensures Inv(chunks, Next(chunks, s, Deliver), flusher)
  {
    hide Events;
    hide Failures;
    var d := Delivered(s);
    EventsNext(chunks, d);
    ErrorsNext(chunks, d);
    NotYetAllTaken(chunks, d);
  }

  /** As long as no error has been delivered, the handler takes the next chunk. */
  lemma NotYetAllTaken(chunks: seq<Chunk>, d: nat)
    requires d < |chunks| && !HasError(chunks[..d])
    ensures d < Taken(chunks, true)
  {
    ErrorWithin(chunks, d);
  }

  lemma StepKeeps(chunks: seq<Chunk>, s: State, flusher: bool, step: Step)
    requires Inv(chunks, s, flusher)
    ensures Inv(chunks, Next(chunks, s, step), flusher)
  {
    if Enabled(chunks, s, step) {
      match step
      case CloseProvider =>
      case Receive => ReceiveKeeps(chunks, s, flusher);
      case Deliver => DeliverKeeps(chunks, s, flusher);
      case CloseService => assert chunks[..s.next] == chunks;
      case Finish => assert chunks[..s.next] == chunks;
    }
  }

  lemma {:induction false} RunKeeps(chunks: seq<Chunk>, flusher: bool, schedule: seq<Step>)
    ensures Inv(chunks, After(chunks, flusher, schedule), flusher)
  {
    if |schedule| > 0 {
      RunKeeps(chunks, flusher, schedule[..|schedule| - 1]);
      StepKeeps(chunks, After(chunks, flusher, schedule[..|schedule| - 1]), flusher, schedule[|schedule| - 1]);
    }
  }

  lemma PrefixAppend<T>(a: seq<T>, b: seq<T>, x: T)
    requires a <= b
    ensures a <= b + [x]
  {
  }

  lemma {:induction false} EventsPrefix(chunks: seq<Chunk>, m: nat, n: nat)
    requires m <= n <= |chunks|
    ensures Events(chunks[..m]) <= Events(chunks[..n])
  {
    if m < n {
      EventsPrefix(chunks, m, n - 1);
      EventsNext(chunks, n - 1);
      PrefixAppend(Events(chunks[..m]), Events(chunks[..n - 1]), EventFrame(chunks[n - 1]));
    }
  }

  /** At every moment of every interleaving, what the client has seen is a prefix of what the handler's loop writes. */
  lemma {:induction false} OutputIsPrefix(chunks: seq<Chunk>, flusher: bool, schedule: seq<Step>)
    ensures After(chunks, flusher, schedule).output <= Written(chunks, flusher)
  {
    var s := After(chunks, flusher, schedule);
    RunKeeps(chunks, flusher, schedule);
    if flusher {
      var d, t := Delivered(s), Taken(chunks, flusher);
      ErrorWithin(chunks, d);
      EventsPrefix(chunks, d, t);
      if !s.reading && !HasError(chunks[..d]) {
        assert d == |chunks| == t;
      }
    }
  }

  // ----- How every interleaving ends -----

  /** Every step brings the pipeline closer to its end. */
  ghost function Remaining(chunks: seq<Chunk>, s: State): int
  {
    2 * (|chunks| - s.next) + (if s.held.Some? then 1 else 0) + (if s.providerClosed then 0 else 1)
    + (if s.serviceClosed then 0 else 1) + (if s.reading then 1 else 0)
  }

  ghost function StepsTaken(chunks: seq<Chunk>, flusher: bool, schedule: seq<Step>): nat
  {
    if |schedule| == 0 then 0
    else
      var init := schedule[..|schedule| - 1];
      StepsTaken(chunks, flusher, init)
      + (if Enabled(chunks, After(chunks, flusher, init), schedule[|schedule| - 1]) then 1 else 0)
  }

  lemma {:induction false} StepProgress(chunks: seq<Chunk>, s: State, flusher: bool, step: Step)
    requires Inv(chunks, s, flusher)
    ensures Remaining(chunks, Next(chunks, s, step)) + (if Enabled(chunks, s, step) then 1 else 0)
            <= Remaining(chunks, s)
    ensures 0 <= Remaining(chunks, s)
  {
  }

  /** No schedule makes more than 2n + 3 steps for n chunks, so every schedule comes to rest. */
  lemma {:induction false} AlwaysComesToRest(chunks: seq<Chunk>, flusher: bool, schedule: seq<Step>)
    ensures StepsTaken(chunks, flusher, schedule) + Remaining(chunks, After(chunks, flusher, schedule))
            <= 2 * |chunks| + 3
    ensures 0 <= Remaining(chunks, After(chunks, flusher, schedule))
  {
    RunKeeps(chunks, flusher, schedule);
    StepProgress(chunks, After(chunks, flusher, schedule), flusher, Receive);
    if |schedule| > 0 {
      var init := schedule[..|schedule| - 1];
      AlwaysComesToRest(chunks, flusher, init);
      RunKeeps(chunks, flusher, init);
      StepProgress(chunks, After(chunks, flusher, init), flusher, schedule[|schedule| - 1]);
    }
  }

  /** The provider and the service have closed their channels: neither is blocked in a send. */
  ghost predicate NoSenderBlocked(s: State)
  {
    s.providerClosed && s.serviceClosed && s.held.None?
  }

  /** At rest the handler has taken all it takes, and the service holds one more chunk if there is one. */
  lemma {:induction false} RestState(chunks: seq<Chunk>, flusher: bool, s: State)
    requires Inv(chunks, s, flusher) && Quiescent(chunks, s)
    ensures Delivered(s) == Taken(chunks, flusher)
    ensures s.next == Min(|chunks|, Taken(chunks, flusher) + 1)
    ensures NoSenderBlocked(s) <==> Taken(chunks, flusher) == |chunks|
    ensures !s.reading
  {
    var d := Delivered(s);
    assert !Enabled(chunks, s, CloseProvider) && !Enabled(chunks, s, Receive) && !Enabled(chunks, s, Deliver);
    assert !Enabled(chunks, s, CloseService) && !Enabled(chunks, s, Finish);
    ErrorWithin(chunks, d);
  }

  /**
   * The end of every interleaving: the client has exactly what the handler's loop writes, and the breaker
   * exactly the failures among the chunks that left the provider, or one success when all did without error.
   */
  lemma {:induction false} EveryRunEnds(chunks: seq<Chunk>, flusher: bool, schedule: seq<Step>)
    requires Quiescent(chunks, After(chunks, flusher, schedule))
    ensures var s, t := After(chunks, flusher, schedule), Taken(chunks, flusher);
            && s.output == Written(chunks, flusher)
            && s.records == Failures(chunks[..Min(|chunks|, t + 1)])
              + (if t == |chunks| && !HasError(chunks) then [true] else [])
            && (NoSenderBlocked(s) <==> t == |chunks|)
  {
    var s := After(chunks, flusher, schedule);
    RunKeeps(chunks, flusher, schedule);
    RestState(chunks, flusher, s);
    var d := Delivered(s);
    ErrorWithin(chunks, d);
    ErrorWithin(chunks, s.next);
  }

  /**
   * No sender stays blocked exactly when the handler streams and no chunk follows the first error, or there are
   * no chunks.
   */
  lemma {:induction false} BlockedIff(chunks: seq<Chunk>, flusher: bool)
    ensures Taken(chunks, flusher) == |chunks| <==>
              |chunks| == 0 || (flusher && forall i :: 0 <= i < |chunks| - 1 ==> chunks[i].error.None?)
  {
    FirstErrorUnique(chunks, FirstError(chunks));
  }

  lemma {:induction false} NoFailures(chunks: seq<Chunk>)
    requires forall i :: 0 <= i < |chunks| ==> chunks[i].error.None?
    ensures Failures(chunks) == []
  {
    if |chunks| > 0 {
      NoFailures(chunks[..|chunks| - 1]);
    }
  }

  /** A stream that ends at most once has exactly one outcome. */
  lemma {:induction false} OneOutcome(chunks: seq<Chunk>)
    requires EndsOnce(chunks)
    ensures Records(chunks) == [!HasError(chunks)]
  {
    if |chunks| > 0 {
      var n := |chunks| - 1;
      NoFailures(chunks[..n]);
      assert chunks[n].error.Some? <==> HasError(chunks);
    }
  }

  ghost function TextWritten(frames: seq<Frame>): string
  {
    if |frames| == 0 then ""
    else
      var last := frames[|frames| - 1];
      TextWritten(frames[..|frames| - 1]) + (if last.EventFrame? then last.chunk.delta.content else "")
  }

  lemma {:induction false} TextOfAppend(chunks: seq<Chunk>, c: Chunk)
    ensures TextOf(chunks + [c]) == TextOf(chunks) + c.delta.content
  {
    if |chunks| == 0 {
      assert [] + [c] == [c] && [c][1..] == [];
    } else {
      TextOfAppend(chunks[1..], c);
      assert (chunks + [c])[1..] == chunks[1..] + [c];
    }
  }

  lemma {:induction false} TextOfEvents(chunks: seq<Chunk>)
    ensures TextWritten(Events(chunks)) == TextOf(chunks)
  {
    if |chunks| > 0 {
      var init, c := chunks[..|chunks| - 1], chunks[|chunks| - 1];
      TextOfEvents(init);
      TextOfAppend(init, c);
      assert init + [c] == chunks;
      assert (Events(init) + [EventFrame(c)])[..|init|] == Events(init);
    }
  }

  /** The closing line adds no text. */
  lemma {:induction false} ClosingIsSilent(frames: seq<Frame>)
    ensures TextWritten(frames + [DoneFrame]) == TextWritten(frames)
  {
    assert (frames + [DoneFrame])[..|frames|] == frames;
    assert TextWritten(frames) + "" == TextWritten(frames);
  }

  lemma {:induction false} AllIsTaken(chunks: seq<Chunk>)
    requires EndsOnce(chunks)
    ensures Taken(chunks, true) == |chunks|
  {
    assert forall i :: 0 <= i < |chunks| - 1 ==> !Terminal(chunks[i]);
    BlockedIff(chunks, true);
  }

  /**
   * What the client gets from a stream that ends at most once: every chunk in order, then [DONE] iff there was
   * no error.
   */
  lemma {:induction false} CompleteStream(chunks: seq<Chunk>, all: seq<Frame>)
    requires EndsOnce(chunks) && all == Events(chunks)
    ensures Written(chunks, true) == if HasError(chunks) then all else all + [DoneFrame]
    ensures TextWritten(Written(chunks, true)) == TextOf(chunks)
  {
    AllIsTaken(chunks);
    assert chunks[..|chunks|] == chunks;
    assert all + [] == all;
    assert Written(chunks, true) == if HasError(chunks) then all else all + [DoneFrame];
    TextOfEvents(chunks);
    ClosingIsSilent(all);
  }

  /**
   * The stream pipeline, for a provider loop that ends at most once and every interleaving of the three
   * goroutines: it comes to rest with no sender blocked, exactly one breaker outcome, and the client holding
   * every chunk in order, the [DONE] line if and only if there was no error, and exactly the provider's text.
   */
  lemma {:induction false} PipelineDelivers(chunks: seq<Chunk>, schedule: seq<Step>)
    requires EndsOnce(chunks) && Quiescent(chunks, After(chunks, true, schedule))
    ensures var s := After(chunks, true, schedule);
            && NoSenderBlocked(s)
            && s.records == [!HasError(chunks)]
            && s.output == (if HasError(chunks) then Events(chunks) else Events(chunks) + [DoneFrame])
            && TextWritten(s.output) == TextOf(chunks)
  {
    EveryRunEnds(chunks, true, schedule);
    AllIsTaken(chunks);
    CompleteStream(chunks, Events(chunks));
    OneOutcome(chunks);
    assert chunks[..|chunks|] == chunks;
  }

  /** Upstream lines to client text, for an OpenAI-compatible provider. */
  lemma {:induction false} OpenAIEndToEnd(decode: OpenAIDecoder, input: Input, schedule: seq<Step>)
    requires Quiescent(OpenAIChunks(decode, input), After(OpenAIChunks(decode, input), true, schedule))
    ensures var s, lines := After(OpenAIChunks(decode, input), true, schedule), OpenAILines(decode, input.lines);
            var failed := Fails(lines, input.failure);
            && TextWritten(s.output) == TextOfLines(lines[..StopAt(lines)])
            && s.records == [!failed] && (DoneFrame in s.output <==> !failed) && NoSenderBlocked(s)
  {
    var chunks, lines := OpenAIChunks(decode, input), OpenAILines(decode, input.lines);
    OpenAIEnds(decode, input);
    OpenAITextIsPreserved(decode, input);
    PipelineDelivers(chunks, schedule);
    DoneIn(chunks);
  }

  /** Upstream lines to client text, for Anthropic. */
  lemma {:induction false} AnthropicEndToEnd(decode: AnthropicDecoder, input: Input, schedule: seq<Step>)
    requires Quiescent(AnthropicChunks(decode, input), After(AnthropicChunks(decode, input), true, schedule))
    ensures var s, lines := After(AnthropicChunks(decode, input), true, schedule), AnthropicLines(decode, input.lines);
            var failed := Fails(lines, input.failure);
            && TextWritten(s.output) == TextOfLines(lines[..StopAt(lines)])
            && s.records == [!failed] && (DoneFrame in s.output <==> !failed) && NoSenderBlocked(s)
  {
    var chunks, lines := AnthropicChunks(decode, input), AnthropicLines(decode, input.lines);
    AnthropicEnds(decode, input);
    AnthropicTextIsPreserved(decode, input);
    PipelineDelivers(chunks, schedule);
    DoneIn(chunks);
  }

  lemma {:induction false} DoneIn(chunks: seq<Chunk>)
    ensures DoneFrame !in Events(chunks)
  {
    if |chunks| > 0 {
      DoneIn(chunks[..|chunks| - 1]);
    }
  }
}

/** A streaming request from admission to the outcome its forwarding goroutine records. */
module StreamService {
  import opened CircuitBreakers
  import opened BreakerManagers
  import opened Streams
  import opened ChatService
  import StreamPipeline

  /** The world after a forwarding goroutine has recorded its outcomes. */
  ghost function Settled(g: Gateway, w: World, provider: string, model: string, records: seq<bool>): World
  {
    if |records| == 0 then w
    else RecordStream(g, Settled(g, w, provider, model, records[..|records| - 1]), provider, model,
                      records[|records| - 1])
  }

  ghost function StreamOutcomes(log: seq<Audit>): nat
  {
    if |log| == 0 then 0 else StreamOutcomes(log[..|log| - 1]) + (if log[|log| - 1].Streamed? then 1 else 0)
  }

  lemma OutcomesAppend(log: seq<Audit>, a: Audit)
    ensures StreamOutcomes(log + [a]) == StreamOutcomes(log) + (if a.Streamed? then 1 else 0)
  {
    assert (log + [a])[..|log|] == log;
  }

  /** The world in which SendStream answers. */
  ghost function Asking(g: Gateway, w: World, provider: string, model: string): World
  {
    AskBreaker(g, w, provider, model).0
  }

  /** The service calls SendStream: the request is routed, its breaker admits it, its provider exists. */
  ghost predicate Attempted(g: Gateway, w: World, route: Route)
  {
    route.Routed? && AskBreaker(g, w, route.provider, route.model).1 && route.provider in g.providers
  }

  /**
   * Before any chunk flows: a stream is opened exactly when SendStream is called and succeeds, then without an
   * outcome; a SendStream that fails records one failure; a request that never gets there records nothing.
   */
  lemma OpeningOutcomes(g: Gateway, w: World, route: Route, end: World, stream: Stream)
    requires (end, stream) == HandleChatCompletionStream(g, w, route)
    ensures stream.Streaming? <==>
              Attempted(g, w, route)
                && g.openStream(Asking(g, w, route.provider, route.model), route.provider, route.model).0.Channel?
    ensures stream.Streaming? ==> stream.provider == route.provider && stream.model == route.model
    ensures StreamOutcomes(end.log) == StreamOutcomes(w.log)
            + (if Attempted(g, w, route) && stream.Refused? then 1 else 0)
  {
    if route.Routed? {
      var (w1, ok) := AskBreaker(g, w, route.provider, route.model);
      OutcomesAppend(w.log, Asked(Key(route.provider, route.model), w.now, ok));
      if ok && route.provider in g.providers {
        var (answer, took) := g.openStream(w1, route.provider, route.model);
        OutcomesAppend(w1.log, Streamed(Key(route.provider, route.model), w1.now + took, false));
      }
    }
  }

  lemma SettledNext(g: Gateway, w: World, provider: string, model: string, records: seq<bool>, ok: bool)
    ensures Settled(g, w, provider, model, records + [ok])
         == RecordStream(g, Settled(g, w, provider, model, records), provider, model, ok)
  {
    assert (records + [ok])[..|records|] == records;
  }

  lemma SettledChunk(g: Gateway, w: World, provider: string, model: string, ch: seq<Chunk>, i: nat)
    requires i < |ch|
    ensures var before := Settled(g, w, provider, model, StreamPipeline.Failures(ch[..i]));
            Settled(g, w, provider, model, StreamPipeline.Failures(ch[..i + 1]))
              == if ch[i].error.Some? then RecordStream(g, before, provider, model, false) else before
    ensures HasError(ch[..i + 1]) <==> HasError(ch[..i]) || ch[i].error.Some?
  {
    StreamPipeline.EventsNext(ch, i);
    StreamPipeline.ErrorsNext(ch, i);
    SettledNext(g, w, provider, model, StreamPipeline.Failures(ch[..i]), false);
  }

  lemma SettledEnd(g: Gateway, w: World, provider: string, model: string, ch: seq<Chunk>)
    ensures var before := Settled(g, w, provider, model, StreamPipeline.Failures(ch));
            Settled(g, w, provider, model, StreamPipeline.Records(ch))
              == if HasError(ch) then before else RecordStream(g, before, provider, model, true)
  {
    SettledNext(g, w, provider, model, StreamPipeline.Failures(ch), true);
  }

  lemma SettledOnce(g: Gateway, w: World, provider: string, model: string, ok: bool)
    ensures Settled(g, w, provider, model, [ok]) == RecordStream(g, w, provider, model, ok)
  {
    assert [ok][..0] == [];
  }

  /**
   * Exactly one breaker outcome per stream: however the three goroutines interleave and however long they
   * take, a stream whose provider ends it at most once settles as one success without an error chunk and as
   * one failure with one, on its own key.
   */
  lemma OneOutcomePerStream(
    g: Gateway, w: World, provider: string, model: string, chunks: seq<Chunk>, schedule: seq<StreamPipeline.Step>)
    requires EndsOnce(chunks)
    requires StreamPipeline.Quiescent(chunks, StreamPipeline.After(chunks, true, schedule))
    ensures var records := StreamPipeline.After(chunks, true, schedule).records;
            var end := Settled(g, w, provider, model, records);
            && end.log == w.log + [Streamed(Key(provider, model), w.now, !HasError(chunks))]
            && StreamOutcomes(end.log) == StreamOutcomes(w.log) + 1
            && StateOf(end.breakers, Key(provider, model))
               == (var b := StateOf(w.breakers, Key(provider, model));
                   if HasError(chunks) then Failed(b, g.threshold, w.now) else Succeeded(b))
  {
    StreamPipeline.PipelineDelivers(chunks, schedule);
    SettledOnce(g, w, provider, model, !HasError(chunks));
    OutcomesAppend(w.log, Streamed(Key(provider, model), w.now, !HasError(chunks)));
  }
}

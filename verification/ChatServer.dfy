/**
 * The chat service as an object over a real breaker manager: every method does to the manager, the clock
 * and the audit log what the functions of `ChatService` say. A function value cannot change an object, so
 * the send function is a method here and the engine's loop calls it directly.
 */
module ChatServers {
  import opened GatewayModel
  import opened BreakerManagers
  import opened FallbackEngine
  import opened Streams
  import opened ChatService
  import StreamPipeline
  import StreamService

  /** Two executions that leave the same world and return the same. */
  ghost predicate SameEnd(x: Execution<World>, y: Execution<World>)
  {
    x.env == y.env && x.outcome == y.outcome
  }

  /** One turn of the engine's loop, seen from the specification. */
  lemma WalkTurn(e: Engine, fx: Effects<World>, w: World, plan: seq<Attempt>, retries: nat, skip: bool)
    requires |plan| > 0 && fx.cancelled(w).None?
    ensures plan[0].level == Retry && skip ==>
            Walk(e, fx, w, plan, retries, skip) == Walk(e, fx, w, plan[1..], retries, skip)
    ensures plan[0].level == Retry && !skip && fx.wait(w, BackoffDuration(e, retries)).1.None? ==>
              SameEnd(Walk(e, fx, w, plan, retries, skip),
                      WalkSend(e, fx, fx.wait(w, BackoffDuration(e, retries)).0, plan[0], plan[1..], retries + 1, skip))
    ensures plan[0].level != Retry ==>
            Walk(e, fx, w, plan, retries, skip) == WalkSend(e, fx, w, plan[0], plan[1..], retries, skip)
  {
  }

  class ChatServer {
    const g: Gateway
    const manager: BreakerManager
    var now: int
    var log: seq<Audit>
    var stored: seq<Response>

    ghost predicate Valid()
      reads manager
    {
      manager.Valid() && manager.threshold == g.threshold && manager.cooldown == g.cooldown
    }

    /** The state of the object as a value. */
    function Now(): World
      reads this, manager, manager.breakers.Values
    {
      World(manager.States(), now, log, stored)
    }

    constructor (g: Gateway, manager: BreakerManager, now: int)
      requires manager.Valid() && manager.threshold == g.threshold && manager.cooldown == g.cooldown
      ensures Valid() && this.g == g && this.manager == manager
      ensures Now() == World(manager.States(), now, [], [])
    {
      this.g, this.manager, this.now, log, stored := g, manager, now, [], [];
    }

    method Ask(provider: string, model: string) returns (ok: bool)
      requires Valid()
      modifies this`log, manager, manager.breakers.Values
      ensures Valid() && fresh(manager.breakers.Values - old(manager.breakers.Values))
      ensures (Now(), ok) == AskBreaker(g, old(Now()), provider, model)
    {
      ok := manager.Allow(provider, model, now);
      log := log + [Asked(Key(provider, model), now, ok)];
    }

    method Record(provider: string, model: string, ok: bool, streamed: bool)
      requires Valid()
      modifies this`log, manager, manager.breakers.Values
      ensures Valid() && fresh(manager.breakers.Values - old(manager.breakers.Values))
      ensures Now() == if streamed then RecordStream(g, old(Now()), provider, model, ok)
                       else RecordOutcome(g, old(Now()), provider, model, ok)
    {
      if ok {
        manager.RecordSuccess(provider, model);
      } else {
        manager.RecordFailure(provider, model, now);
      }
      var key := Key(provider, model);
      log := log + [if streamed then Streamed(key, now, ok) else Recorded(key, now, ok)];
    }

    /** The body of the send function built for a request. */
    method SendOnce(provider: string, model: string) returns (reply: Reply)
      requires Valid()
      modifies this, manager, manager.breakers.Values
      ensures Valid() && fresh(manager.breakers.Values - old(manager.breakers.Values))
      ensures (Now(), reply) == Send(g, old(Now()), provider, model)
    {
      if provider !in g.providers {
        return Err(Error(PROVIDER_ERROR, "provider not found: " + provider));
      }
      var ok := Ask(provider, model);
      if !ok {
        return Err(Error(CIRCUIT_OPEN, "circuit breaker open for " + provider + "/" + model));
      }
      ghost var asked := Now();
      var (answer, took) := g.respond(Now(), provider, model);
      now := now + took;
      log := log + [Called(provider, model, now, answer)];
      assert (Now(), answer) == CallProvider(g, asked, provider, model);
      Record(provider, model, answer.Ok?, false);
      reply := answer;
      if answer.Ok? {
        reply := Ok(Stamp(answer.response, provider, model));
      }
    }

    /** A wait that the context may interrupt. */
    method Pause(d: int) returns (stop: Option<Error>)
      requires Valid()
      modifies this`now
      ensures Valid() && (Now(), stop) == Wait(g, old(Now()), d)
    {
      stop := g.interrupted(Now(), d);
      if stop.None? && d >= 0 {
        now := now + d;
      }
    }

    /** One attempt of the engine's loop: send, and note a primary error that is not retryable. */
    method Attempted(e: Engine, att: Attempt, ghost rest: seq<Attempt>, ghost retries: nat, skip: bool)
      returns (done: Option<Outcome>, skip1: bool)
      requires Valid()
      modifies this, manager, manager.breakers.Values
      ensures Valid() && fresh(manager.breakers.Values - old(manager.breakers.Values))
      ensures var x := WalkSend(e, EffectsOf(g), old(Now()), att, rest, retries, skip);
              if done.Some? then Now() == x.env && done.value == x.outcome
              else SameEnd(x, Walk(e, EffectsOf(g), Now(), rest, retries, skip1))
    {
      var reply := SendOnce(att.providerName, att.model);
      skip1 := skip;
      match reply {
        case Ok(response) => done := Some(Returned(response, att.level));
        case Err(error) =>
          done := None;
          if att.level == Primary && !g.retryable(error) {
            skip1 := true;
          }
      }
    }

    /** The engine's loop with this service's send function. */
    method Execute(e: Engine, provider: string, model: string) returns (outcome: Outcome)
      requires Valid()
      modifies this, manager, manager.breakers.Values
      ensures Valid() && fresh(manager.breakers.Values - old(manager.breakers.Values))
      ensures Now() == Executed(g, e, old(Now()), provider, model).env
      ensures outcome == Executed(g, e, old(Now()), provider, model).outcome
    {
      var retryAttempt, skipRetries := 0, false;
      var plan := Attempts(e, provider, model);
      ghost var fx, whole := EffectsOf(g), Executed(g, e, Now(), provider, model);
      for i := 0 to |plan|
        invariant Valid() && fresh(manager.breakers.Values - old(manager.breakers.Values))
        invariant retryAttempt >= 0
        invariant SameEnd(whole, Walk(e, fx, Now(), plan[i..], retryAttempt, skipRetries))
      {
        var att := plan[i];
        assert plan[i..][0] == att && plan[i..][1..] == plan[i + 1..];
        var stop := g.cancelled(Now());
        if stop.Some? {
          return Aborted(stop.value);
        }
        WalkTurn(e, fx, Now(), plan[i..], retryAttempt, skipRetries);
        if att.level == Retry {
          if skipRetries {
            continue;
          }
          stop := Pause(BackoffDuration(e, retryAttempt));
          if stop.Some? {
            return Aborted(stop.value);
          }
          retryAttempt := retryAttempt + 1;
        }
        var done, skip := Attempted(e, att, plan[i + 1..], retryAttempt, skipRetries);
        skipRetries := skip;
        if done.Some? {
          return done.value;
        }
      }
      return Returned(DefaultResponse(e), Exhausted);
    }

    /** HandleChatCompletion; `hit` is what the cache lookup answered. */
    method HandleChatCompletion(e: Engine, stream: bool, caching: bool, hit: Option<Response>, route: Route)
      returns (answer: Answer)
      requires Valid()
      modifies this, manager, manager.breakers.Values
      ensures Valid() && fresh(manager.breakers.Values - old(manager.breakers.Values))
      ensures (Now(), answer) == ChatService.HandleChatCompletion(g, e, old(Now()), stream, caching, hit, route)
    {
      hide AskBreaker;
      hide RecordStream;
      if stream {
        return Rejected(Error(INVALID_REQUEST, "use HandleChatCompletionStream for streaming requests"));
      }
      if caching && hit.Some? {
        return Answered(hit.value, true);
      }
      if route.NoRoute? {
        return Rejected(route.error);
      }
      var provider, model := route.provider, route.model;
      var ok := Ask(provider, model);
      if !ok {
        return Rejected(Error(CIRCUIT_OPEN, "circuit breaker open for " + provider + "/" + model));
      }
      var outcome := Execute(e, provider, model);
      if outcome.Aborted? {
        return Rejected(outcome.error);
      }
      var response := outcome.response;
      if response.provider == "" {
        response := response.(provider := provider);
      }
      if caching && outcome.level != Exhausted {
        stored := stored + [response];
      }
      return Answered(response, false);
    }

    /** HandleChatCompletionStream up to the start of its goroutine. */
    method OpenStream(route: Route) returns (stream: Stream)
      requires Valid()
      modifies this, manager, manager.breakers.Values
      ensures Valid() && fresh(manager.breakers.Values - old(manager.breakers.Values))
      ensures (Now(), stream) == HandleChatCompletionStream(g, old(Now()), route)
    {
      hide AskBreaker;
      hide RecordStream;
      if route.NoRoute? {
        return Refused(route.error);
      }
      var provider, model := route.provider, route.model;
      var ok := Ask(provider, model);
      if !ok {
        return Refused(Error(CIRCUIT_OPEN, "circuit breaker open for " + provider + "/" + model));
      }
      if provider !in g.providers {
        return Refused(Error(PROVIDER_ERROR, "provider not found: " + provider));
      }
      var (answer, took) := g.openStream(Now(), provider, model);
      now := now + took;
      if answer.NotOpened? {
        Record(provider, model, false, true);
        return Refused(answer.error);
      }
      return Streaming(provider, model, answer.chunks);
    }

    /** The breaker's side of forwarding one chunk. */
    method NoteChunk(provider: string, model: string, c: Chunk)
      requires Valid()
      modifies this`log, manager, manager.breakers.Values
      ensures Valid() && fresh(manager.breakers.Values - old(manager.breakers.Values))
      ensures Now() == if c.error.Some? then RecordStream(g, old(Now()), provider, model, false) else old(Now())
    {
      if c.error.Some? {
        Record(provider, model, false, true);
      }
    }

    /** The goroutine: pass every chunk on, record every error, and success at the end if there was none. */
    method ForwardStream(provider: string, model: string, ch: seq<Chunk>) returns (out: seq<Chunk>)
      requires Valid()
      modifies this`log, manager, manager.breakers.Values
      ensures Valid() && fresh(manager.breakers.Values - old(manager.breakers.Values))
      ensures out == ch
      ensures Now() == StreamService.Settled(g, old(Now()), provider, model, StreamPipeline.Records(ch))
    {
      out := [];
      ghost var start := Now();
      var gotError := false;
      for i := 0 to |ch|
        invariant Valid() && fresh(manager.breakers.Values - old(manager.breakers.Values))
        invariant out == ch[..i] && (gotError <==> HasError(ch[..i]))
        invariant Now() == StreamService.Settled(g, start, provider, model, StreamPipeline.Failures(ch[..i]))
      {
        StreamService.SettledChunk(g, start, provider, model, ch, i);
        NoteChunk(provider, model, ch[i]);
        gotError := gotError || ch[i].error.Some?;
        out := out + [ch[i]];
      }
      assert ch[..|ch|] == ch;
      StreamService.SettledEnd(g, start, provider, model, ch);
      if !gotError {
        Record(provider, model, true, true);
      }
    }
  }
}

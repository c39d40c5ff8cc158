/** What a chat request answers and stores, case by case, and what it leaves in the log. */
module ServiceAnswers {
  import opened GatewayModel
  import opened CircuitBreakers
  import opened BreakerManagers
  import opened FallbackEngine
  import opened ChatService
  import ChatServiceProofs

  /** The answer of Execute, with the routed provider's name where the response has none. */
  function Named(r: Response, provider: string): Response
  {
    Response(r.id, r.model, if r.provider == "" then provider else r.provider, r.content)
  }

  /** A streaming request is rejected, and a cache hit answers; neither touches the world. */
  lemma EarlyAnswers(g: Gateway, e: Engine, w: World, stream: bool, caching: bool, hit: Option<Response>, route: Route)
    ensures var (end, answer) := HandleChatCompletion(g, e, w, stream, caching, hit, route);
            && (stream ==> end == w && answer.Rejected? && answer.error.code == "invalid_request")
            && (!stream && caching && hit.Some? ==> end == w && answer == Answered(hit.value, true))
            && (!stream && !(caching && hit.Some?) && route.NoRoute? ==> end == w && answer == Rejected(route.error))
  {
  }

  /** A refused admission answers with an open circuit; it asks the breaker once and calls nobody. */
  lemma RefusedAnswers(g: Gateway, e: Engine, w: World, caching: bool, hit: Option<Response>, provider: string,
                       model: string)
    requires !(caching && hit.Some?) && !AskBreaker(g, w, provider, model).1
    ensures var (end, answer) := HandleChatCompletion(g, e, w, false, caching, hit, Routed(provider, model));
            && answer.Rejected? && answer.error.code == "circuit_breaker_open"
            && end.log == w.log + [Asked(Key(provider, model), w.now, false)]
            && end.stored == w.stored && end.now == w.now
  {
  }

  /**
   * An admitted request answers with the outcome of Execute: its error when it was cancelled, else its response
   * with the provider named. Exactly that answer is stored if and only if there is a cache and the level is not
   * exhausted; besides, the world is the one Execute leaves.
   */
  lemma AdmittedAnswers(g: Gateway, e: Engine, w: World, caching: bool, hit: Option<Response>, provider: string,
                        model: string, w1: World, x: Execution<World>)
    requires !(caching && hit.Some?) && (w1, true) == AskBreaker(g, w, provider, model)
    requires x == Executed(g, e, w1, provider, model)
    ensures var (end, answer) := HandleChatCompletion(g, e, w, false, caching, hit, Routed(provider, model));
            && answer == (match x.outcome
                          case Aborted(error) => Rejected(error)
                          case Returned(response, level) => Answered(Named(response, provider), false))
            && end.log == x.env.log && end.breakers == x.env.breakers && end.now == x.env.now
            && end.stored == w.stored + (if caching && x.outcome.Returned? && x.outcome.level != Exhausted
                                         then [Named(x.outcome.response, provider)] else [])
  {
    ChatServiceProofs.WalkStoresNothing(g, e, w1, Plan(e, provider, model), 0, false);
  }

  /** A request that its provider can answer: registered, admitted, not cancelled, and answered with `response`. */
  ghost predicate Answerable(g: Gateway, w: World, provider: string, model: string, response: Response)
  {
    var w1 := AskBreaker(g, w, provider, model).0;
    && provider in g.providers && AskBreaker(g, w, provider, model).1
    && g.cancelled(w1).None?
    && g.respond(AskBreaker(g, w1, provider, model).0, provider, model).0 == Ok(response)
  }

  /** The provider's response as the client and the cache get it. */
  function Delivered(response: Response, provider: string, model: string): Response
  {
    Response(response.id, if response.model == "" then model else response.model, provider, response.content)
  }

  /**
   * What the provider says is what the client gets and what the cache is given, stamped with provider and model;
   * the log gains the admission, the attempt's own question, the call and its success, and nothing else.
   */
  lemma ProviderAnswerComesBack(g: Gateway, e: Engine, w: World, caching: bool, hit: Option<Response>,
                                provider: string, model: string, response: Response)
    requires !(caching && hit.Some?) && Answerable(g, w, provider, model, response)
    ensures var (end, answer) := HandleChatCompletion(g, e, w, false, caching, hit, Routed(provider, model));
            var sent := Delivered(response, provider, model);
            && answer == Answered(sent, false)
            && end.stored == w.stored + (if caching then [sent] else [])
            && |end.log| == |w.log| + 4 && end.log[..|w.log|] == w.log
            && end.log[|w.log|] == end.log[|w.log| + 1] == Asked(Key(provider, model), w.now, true)
            && end.log[|w.log| + 2] == Called(provider, model, end.now, Ok(response))
            && end.log[|w.log| + 3] == Recorded(Key(provider, model), end.now, true)
  {
    var w1 := AskBreaker(g, w, provider, model).0;
    var x := Executed(g, e, w1, provider, model);
    AdmittedAsksAgain(g, w, provider, model);
    PrimarySucceeds(g, e, w1, provider, model, response);
    AdmittedAnswers(g, e, w, caching, hit, provider, model, w1, x);
  }

  lemma AdmittedAsksAgain(g: Gateway, w: World, provider: string, model: string)
    requires AskBreaker(g, w, provider, model).1
    ensures AskBreaker(g, AskBreaker(g, w, provider, model).0, provider, model).1
  {
  }

  /**
   * What the send function tells the engine: an unknown provider and a refused breaker are errors of their own,
   * that leave the providers alone; a provider's error is passed on, and its answer comes stamped.
   */
  lemma SendAnswers(g: Gateway, w: World, provider: string, model: string)
    ensures var (end, reply) := Send(g, w, provider, model);
            var (w1, ok) := AskBreaker(g, w, provider, model);
            var answer := g.respond(w1, provider, model).0;
            && (provider !in g.providers ==> end == w && reply.Err? && reply.error.code == "provider_error")
            && (provider in g.providers && !ok ==>
                  end == w1 && reply.Err? && reply.error.code == "circuit_breaker_open")
            && (provider in g.providers && ok ==>
                  reply == match answer
                           case Err(error) => Err(error)
                           case Ok(response) => Ok(Delivered(response, provider, model)))
  {
  }

  lemma PrimarySucceeds(g: Gateway, e: Engine, w: World, provider: string, model: string, response: Response)
    requires provider in g.providers && g.cancelled(w).None? && AskBreaker(g, w, provider, model).1
    requires g.respond(AskBreaker(g, w, provider, model).0, provider, model).0 == Ok(response)
    ensures var x := Executed(g, e, w, provider, model);
            && x.outcome == Returned(Delivered(response, provider, model), Primary)
            && x.env.log == w.log + [Asked(Key(provider, model), w.now, true)]
                            + [Called(provider, model, x.env.now, Ok(response))]
                            + [Recorded(Key(provider, model), x.env.now, true)]
  {
    var plan := Plan(e, provider, model);
    assert plan[0] == Attempt(provider, model, Primary);
    assert Executed(g, e, w, provider, model) == WalkSend(e, EffectsOf(g), w, plan[0], plan[1..], 0, false);
  }

  /**
   * What a stream request is told before any chunk flows: the router's error, an open circuit, an unknown
   * provider, the error of SendStream, or else the channel of SendStream itself.
   */
  lemma StreamAnswers(g: Gateway, w: World, route: Route, provider: string, model: string)
    requires route.Routed? ==> route == Routed(provider, model)
    ensures var stream := HandleChatCompletionStream(g, w, route).1;
            var (w1, ok) := AskBreaker(g, w, provider, model);
            var answer := g.openStream(w1, provider, model).0;
            && (route.NoRoute? ==> stream == Refused(route.error))
            && (route.Routed? && !ok ==> stream.Refused? && stream.error.code == "circuit_breaker_open")
            && (route.Routed? && ok && provider !in g.providers ==>
                  stream.Refused? && stream.error.code == "provider_error")
            && (route.Routed? && ok && provider in g.providers && answer.NotOpened? ==> stream == Refused(answer.error))
            && (route.Routed? && ok && provider in g.providers && answer.Channel? ==>
                  stream == Streaming(provider, model, answer.chunks))
  {
  }
}

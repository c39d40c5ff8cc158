/**
 * The chat service as one run over a world: the breakers, the clock, the entries handed to the cache,
 * and an audit log of everything that touches a breaker or a provider. `Recorded` is the outcome of a
 * call, `Streamed` the outcome of a stream.
 */
module ChatService {
  import opened GatewayModel
  import opened CircuitBreakers
  import opened BreakerManagers
  import opened FallbackEngine
  import opened Streams

  datatype Audit =
    | Asked(key: string, at: int, ok: bool)
    | Called(provider: string, model: string, at: int, reply: Reply)
    | Recorded(key: string, at: int, ok: bool)
    | Streamed(key: string, at: int, ok: bool)

  datatype World = World(breakers: map<string, BreakerState>, now: int, log: seq<Audit>, stored: seq<Response>)

  /** What SendStream answers: the chunks its goroutine will send, or an error. */
  datatype Opened = Channel(chunks: seq<Chunk>) | NotOpened(error: Error)

  /** A provider may answer anything and take any time; both may depend on all that happened before. */
  datatype Gateway = Gateway(
    threshold: int,
    cooldown: int,
    providers: set<string>,
    respond: (World, string, string) -> (Reply, nat),
    openStream: (World, string, string) -> (Opened, nat),
    cancelled: World -> Option<Error>,
    interrupted: (World, int) -> Option<Error>,
    retryable: Error -> bool)

  function AskBreaker(g: Gateway, w: World, provider: string, model: string): (r: (World, bool))
  {
    var key := Key(provider, model);
    var (b, ok) := Allowed(StateOf(w.breakers, key), g.cooldown, w.now);
    (w.(breakers := w.breakers[key := b], log := w.log + [Asked(key, w.now, ok)]), ok)
  }

  /** The breakers after RecordSuccess or RecordFailure on one key. */
  function WithOutcome(g: Gateway, w: World, key: string, ok: bool): map<string, BreakerState>
  {
    var b := StateOf(w.breakers, key);
    w.breakers[key := if ok then Succeeded(b) else Failed(b, g.threshold, w.now)]
  }

  function RecordOutcome(g: Gateway, w: World, provider: string, model: string, ok: bool): World
  {
    var key := Key(provider, model);
    w.(breakers := WithOutcome(g, w, key, ok), log := w.log + [Recorded(key, w.now, ok)])
  }

  function RecordStream(g: Gateway, w: World, provider: string, model: string, ok: bool): World
  {
    var key := Key(provider, model);
    w.(breakers := WithOutcome(g, w, key, ok), log := w.log + [Streamed(key, w.now, ok)])
  }

  function CallProvider(g: Gateway, w: World, provider: string, model: string): (r: (World, Reply))
    ensures r.0.now >= w.now
  {
    var (reply, took) := g.respond(w, provider, model);
    (w.(now := w.now + took, log := w.log + [Called(provider, model, w.now + took, reply)]), reply)
  }

  /** A provider's response as the send function hands it on. */
  function Stamp(r: Response, provider: string, model: string): Response
  {
    r.(provider := provider, model := if r.model == "" then model else r.model)
  }

  /** The send function built for a request: look up, ask the breaker, call, record. */
  function Send(g: Gateway, w: World, provider: string, model: string): (r: (World, Reply))
  {
    if provider !in g.providers then
      (w, Err(Error(PROVIDER_ERROR, "provider not found: " + provider)))
    else
      var (w1, ok) := AskBreaker(g, w, provider, model);
      if !ok then
        (w1, Err(Error(CIRCUIT_OPEN, "circuit breaker open for " + provider + "/" + model)))
      else
        var (w2, reply) := CallProvider(g, w1, provider, model);
        var w3 := RecordOutcome(g, w2, provider, model, reply.Ok?);
        match reply
        case Err(error) => (w3, reply)
        case Ok(response) => (w3, Ok(Stamp(response, provider, model)))
  }

  /** A wait that the context may interrupt; an uninterrupted one lasts its full duration. */
  function Wait(g: Gateway, w: World, d: int): (r: (World, Option<Error>))
  {
    if g.interrupted(w, d).Some? then (w, g.interrupted(w, d))
    else (if d >= 0 then w.(now := w.now + d) else w, None)
  }

  function EffectsOf(g: Gateway): Effects<World>
  {
    Effects(
      (w, provider, model) => Send(g, w, provider, model),
      (w, d) => Wait(g, w, d),
      g.cancelled,
      g.retryable)
  }

  // ----- HandleChatCompletion -----

  datatype Route = Routed(provider: string, model: string) | NoRoute(error: Error)

  datatype Answer = Answered(response: Response, cacheHit: bool) | Rejected(error: Error)

  function Executed(g: Gateway, e: Engine, w: World, provider: string, model: string): (x: Execution<World>)
  {
    Walk(e, EffectsOf(g), w, Plan(e, provider, model), 0, false)
  }

  /** `hit` is the cache's answer (`None` also without a cache), `caching` says whether there is one. */
  function HandleChatCompletion(g: Gateway, e: Engine, w: World, stream: bool, caching: bool, hit: Option<Response>,
                                route: Route)
    : (r: (World, Answer))
  {
    if stream then
      (w, Rejected(Error(INVALID_REQUEST, "use HandleChatCompletionStream for streaming requests")))
    else if caching && hit.Some? then (w, Answered(hit.value, true))
    else
      match route
      case NoRoute(error) => (w, Rejected(error))
      case Routed(provider, model) =>
        var (w1, ok) := AskBreaker(g, w, provider, model);
        if !ok then
          (w1, Rejected(Error(CIRCUIT_OPEN, "circuit breaker open for " + provider + "/" + model)))
        else
          var x := Executed(g, e, w1, provider, model);
          match x.outcome
          case Aborted(error) => (x.env, Rejected(error))
          case Returned(response, level) =>
            var named := if response.provider == "" then response.(provider := provider) else response;
            var w2 := if caching && level != Exhausted then x.env.(stored := x.env.stored + [named]) else x.env;
            (w2, Answered(named, false))
  }

  // ----- HandleChatCompletionStream -----

  datatype Stream = Streaming(provider: string, model: string, chunks: seq<Chunk>) | Refused(error: Error)

  /** Up to the start of the forwarding goroutine, which records the outcome of a stream that was opened. */
  function HandleChatCompletionStream(g: Gateway, w: World, route: Route): (r: (World, Stream))
  {
    match route
    case NoRoute(error) => (w, Refused(error))
    case Routed(provider, model) =>
      var (w1, ok) := AskBreaker(g, w, provider, model);
      if !ok then
        (w1, Refused(Error(CIRCUIT_OPEN, "circuit breaker open for " + provider + "/" + model)))
      else if provider !in g.providers then
        (w1, Refused(Error(PROVIDER_ERROR, "provider not found: " + provider)))
      else
        var (stream, took) := g.openStream(w1, provider, model);
        var w2 := w1.(now := w1.now + took);
        match stream
        case NotOpened(error) => (RecordStream(g, w2, provider, model, false), Refused(error))
        case Channel(chunks) => (w2, Streaming(provider, model, chunks))
  }
}

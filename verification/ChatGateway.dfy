/** A chat request through all layers: the cache, the router, the breakers and the engine, and the cache again. */
module ChatGateways {
  import opened GatewayModel
  import opened BreakerManagers
  import FallbackEngine
  import opened Balancers
  import opened Routers
  import opened ChatService
  import opened ChatServers
  import opened Vectors
  import opened Texts
  import opened CacheEntries
  import opened SemanticCaches
  import ChatServiceProofs
  import ServiceAnswers

  const MODEL_NOT_FOUND := "model_not_found"

  /** `route.model` is the model the client asked for. */
  datatype ChatRequest = ChatRequest(messages: seq<Message>, stream: bool, route: RouteRequest)

  /** The clock as the cache reads it: at the lookup, twice for the new entry, and at the compaction. */
  datatype Clocks = Clocks(lookup: int, storedAt: int, accessAt: int, compaction: int)

  function RouteOf(d: Option<Decision>): Route
  {
    match d
    case None => NoRoute(Error(MODEL_NOT_FOUND, "no route matched"))
    case Some(decision) => Routed(decision.provider, decision.model)
  }

  /** A request hands its own answer to the cache, or nothing. */
  lemma StoresAtMostOne(g: Gateway, e: FallbackEngine.Engine, w: World, caching: bool, route: Route)
    ensures var (w1, answer) := ChatService.HandleChatCompletion(g, e, w, false, caching, None, route);
            || w1.stored == w.stored
            || (caching && answer.Answered? && !answer.cacheHit && w1.stored == w.stored + [answer.response])
  {
    hide ChatService.HandleChatCompletion;
    ChatServiceProofs.OnlyRealResponsesAreStored(g, e, w, false, caching, None, route);
    if !caching {
      ChatServiceProofs.StoresOnlyWithCache(g, e, w, false, caching, None, route);
    }
  }

  class ChatGateway {
    const server: ChatServer
    const router: Router
    const cache: SemanticCache?
    const engine: FallbackEngine.Engine

    ghost predicate Valid()
      reads server.manager, router.balancer, cache
    {
      server.Valid() && router.Valid() && (cache != null ==> cache.Valid())
    }

    constructor (server: ChatServer, router: Router, cache: SemanticCache?, engine: FallbackEngine.Engine)
      requires server.Valid() && router.Valid() && (cache != null ==> cache.Valid())
      ensures Valid() && this.server == server && this.router == router && this.cache == cache && this.engine == engine
    {
      this.server, this.router, this.cache, this.engine := server, router, cache, engine;
    }

    ghost function Bufs(): set<array<Entry>>
      reads cache
    {
      if cache == null then {} else cache.Bufs()
    }

    /** The cached entries of a model; none without a cache. */
    ghost function Cached(model: string): seq<Entry>
      requires Valid()
      reads server.manager, router.balancer, cache, Bufs()
    {
      if cache == null then [] else cache.Contents(model)
    }

    /** What the lookup may answer for the entries `s`: the decoded best one, if there is a cache and a usable text. */
    ghost predicate LooksUp(s: seq<Entry>, messages: seq<Message>, now: int, hit: Option<Response>, best: int)
    {
      if cache == null || cache.QueryVector(LastUserText(messages)).None? then hit == None && best == -1
      else
        && best < |s| && IsSqrt(cache.sqrt)
        && IsBest(cache.sqrt, s, cache.QueryVector(LastUserText(messages)).value, cache.threshold, now, cache.ttl, best)
        && hit == if best < 0 then None else cache.decode(s[best].response)
    }

    /** The entries after that lookup: swept and stamped. */
    ghost function AfterLookup(s: seq<Entry>, messages: seq<Message>, now: int, best: int): seq<Entry>
    {
      if cache == null || cache.QueryVector(LastUserText(messages)).None? then s else LookedUp(s, best, now, cache.ttl)
    }

    /** The entries after a provider's answer was handed to the cache. */
    ghost function AfterStore(s: seq<Entry>, model: string, messages: seq<Message>, response: Response,
                              clocks: Clocks): seq<Entry>
      requires cache != null && cache.maxEntries > 0
    {
      var e := cache.EntryFor(model, LastUserText(messages), response, clocks.storedAt, clocks.accessAt);
      if e.None? then s else Stored(s, e.value, cache.maxEntries, clocks.compaction, cache.ttl)
    }

    /** The decision, and the balancer it leaves: an explicit split, or the first served step of the chain. */
    ghost predicate IsRouted(before: BalancerState, after: BalancerState, req: RouteRequest, d: Option<Decision>,
                             k: nat)
      requires before.Valid()
    {
      if '/' in req.model then
        d == Some(Decision(SplitAtSlash(req.model).0, SplitAtSlash(req.model).1, "explicit")) && after == before
      else router.FirstDecides(before, after, d, Routers.Chain(router.strategies, req, router.defaultCascade), k)
    }

    /**
     * The same text asked again within the lifetime of its entry is answered from the cache, and while the
     * partition is below its limit with exactly the response that was stored.
     */
    lemma RepeatIsAnsweredFromCache(s: seq<Entry>, model: string, messages: seq<Message>, response: Response,
                                    clocks: Clocks,
                                    e: Entry, now: int, hit: Option<Response>, best: int)
      requires cache != null && IsSqrt(cache.sqrt) && 0 < cache.maxEntries && cache.threshold <= 1.0
      requires |s| <= cache.maxEntries && forall i :: 0 <= i < |s| ==> s[i].lastAccess <= clocks.accessAt
      requires cache.EntryFor(model, LastUserText(messages), response, clocks.storedAt, clocks.accessAt) == Some(e)
      requires Dot(e.vector, e.vector) > 0.0 && !Expired(e, now, cache.ttl)
      requires LooksUp(AfterStore(s, model, messages, response, clocks), messages, now, hit, best)
      ensures best >= 0
              && Cosine(cache.sqrt, e.vector, AfterStore(s, model, messages, response, clocks)[best].vector) == 1.0
      ensures |s| < cache.maxEntries ==> best == |s| && hit == cache.decode(cache.encode(response).value)
    {
      hide Cosine;
      hide Dot;
      var t := AfterStore(s, model, messages, response, clocks);
      StoreEvictsOldest(s, e, cache.maxEntries, clocks.compaction, cache.ttl);
      var i :| 0 <= i < |t| && t[i] == e;
      SameTextHits(cache.sqrt, t, i, cache.threshold, now, cache.ttl, best);
      if |s| < cache.maxEntries {
        assert t == s + [e];
        CosineOfSelf(cache.sqrt, e.vector);
        assert CacheEntries.Candidate(cache.sqrt, t, e.vector, cache.threshold, now, cache.ttl, |s|);
      }
    }

    /**
     * What a request does to the entries of its model, the balancer and the service's world, and answers. A hit
     * leaves router, breakers and providers alone; after a miss the route decides, and the service's answer is
     * stored if the service hands one over.
     */
    ghost predicate Handled(req: ChatRequest, clocks: Clocks, s0: seq<Entry>, s1: seq<Entry>, b0: BalancerState,
                            b1: BalancerState, w0: World, w1: World, answer: Answer,
                            hit: Option<Response>, best: int, d: Option<Decision>, k: nat)
      requires b0.Valid() && (cache != null ==> cache.maxEntries > 0)
    {
      if req.stream then
        && answer == Rejected(Error(INVALID_REQUEST, "use HandleChatCompletionStream for streaming requests"))
        && s1 == s0 && b1 == b0 && w1 == w0
      else
        var s := AfterLookup(s0, req.messages, clocks.lookup, best);
        && LooksUp(s0, req.messages, clocks.lookup, hit, best)
        && if hit.Some? then answer == Answered(hit.value, true) && s1 == s && b1 == b0 && w1 == w0
           else
             && IsRouted(b0, b1, req.route, d, k)
             && (w1, answer)
             == ChatService.HandleChatCompletion(server.g, engine, w0, false, cache != null, None, RouteOf(d))
             && (w1.stored == w0.stored ==> s1 == s)
             && (w1.stored != w0.stored ==>
                   && cache != null && answer.Answered?
                   && s1 == AfterStore(s, req.route.model, req.messages, answer.response, clocks))
    }

    /** A first request that misses, and whose provider answers, as far as the cache sees it. */
    lemma FirstRequestIsStored(
      req: ChatRequest, clocks: Clocks, s0: seq<Entry>, s1: seq<Entry>, b0: BalancerState, b1: BalancerState,
      w0: World, w1: World, answer: Answer, best: int, d: Decision, k: nat, response: Response)
      requires b0.Valid() && cache != null && cache.maxEntries > 0 && !req.stream
      requires Handled(req, clocks, s0, s1, b0, b1, w0, w1, answer, None, best, Some(d), k)
      requires ServiceAnswers.Answerable(server.g, w0, d.provider, d.model, response)
      ensures var sent := ServiceAnswers.Delivered(response, d.provider, d.model);
              && answer == Answered(sent, false)
              && s1 == AfterStore(AfterLookup(s0, req.messages, clocks.lookup, best), req.route.model, req.messages,
                                  sent, clocks)
    {
      hide ChatService.HandleChatCompletion;
      hide IsRouted;
      hide AfterStore;
      hide AfterLookup;
      ServiceAnswers.ProviderAnswerComesBack(server.g, engine, w0, true, None, d.provider, d.model, response);
      assert |w1.stored| == |w0.stored| + 1;
    }

    /**
     * Two requests with the same text for the same model: the first misses and its provider answers; then the
     * second, within the lifetime of the entry, is answered from the cache. Its best entry scores 1, below the
     * limit its answer is the first one's, and it touches neither balancer nor breakers nor providers.
     */
    lemma SecondRequestHits(
      req: ChatRequest, clocks: Clocks, s0: seq<Entry>, s1: seq<Entry>, b0: BalancerState, b1: BalancerState,
      w0: World, w1: World, answer: Answer, best: int, d: Decision, k: nat, response: Response, sent: Response,
      e: Entry, again: ChatRequest, later: Clocks, s2: seq<Entry>, b2: BalancerState, w2: World, w3: World,
      answer2: Answer, hit: Option<Response>, best2: int, d2: Option<Decision>, k2: nat)
      requires b0.Valid() && b1.Valid() && cache != null && cache.maxEntries > 0 && !req.stream && !again.stream
      requires Handled(req, clocks, s0, s1, b0, b1, w0, w1, answer, None, best, Some(d), k)
      requires ServiceAnswers.Answerable(server.g, w0, d.provider, d.model, response)
      requires sent == ServiceAnswers.Delivered(response, d.provider, d.model)
      requires LastUserText(again.messages) == LastUserText(req.messages)
      requires IsSqrt(cache.sqrt) && cache.threshold <= 1.0
      requires |AfterLookup(s0, req.messages, clocks.lookup, best)| < cache.maxEntries
      requires forall x :: x in AfterLookup(s0, req.messages, clocks.lookup, best) ==> x.lastAccess <= clocks.accessAt
      requires cache.EntryFor(req.route.model, LastUserText(req.messages), sent, clocks.storedAt, clocks.accessAt)
            == Some(e)
      requires Dot(e.vector, e.vector) > 0.0 && !Expired(e, later.lookup, cache.ttl)
      requires cache.decode(cache.encode(sent).value) == Some(sent)
      requires Handled(again, later, s1, s2, b1, b2, w2, w3, answer2, hit, best2, d2, k2)
      ensures answer == Answered(sent, false) && answer2 == Answered(sent, true)
      ensures 0 <= best2 < |s1| && Cosine(cache.sqrt, e.vector, s1[best2].vector) == 1.0
      ensures w3 == w2 && b2 == b1
    {
      hide ChatService.HandleChatCompletion;
      hide IsRouted;
      hide AfterStore;
      hide AfterLookup;
      hide Cosine;
      hide Dot;
      var s := AfterLookup(s0, req.messages, clocks.lookup, best);
      FirstRequestIsStored(req, clocks, s0, s1, b0, b1, w0, w1, answer, best, d, k, response);
      assert LooksUp(s1, req.messages, later.lookup, hit, best2);
      assert forall i :: 0 <= i < |s| ==> s[i] in s;
      RepeatIsAnsweredFromCache(s, req.route.model, req.messages, sent, clocks, e, later.lookup, hit, best2);
    }

    /** The lookup, if there is a cache. */
    method Lookup(req: ChatRequest, now: int) returns (hit: Option<Response>, ghost best: int)
      requires Valid()
      modifies cache, Bufs()
      ensures Valid() && fresh(Bufs() - old(Bufs()))
      ensures LooksUp(old(Cached(req.route.model)), req.messages, now, hit, best)
      ensures Cached(req.route.model) == AfterLookup(old(Cached(req.route.model)), req.messages, now, best)
      ensures forall m :: m != req.route.model ==> Cached(m) == old(Cached(m))
    {
      hit, best := None, -1;
      if cache != null {
        hit, best := cache.Lookup(req.route.model, req.messages, now);
      }
    }

    /** Admission and engine for a route; `kept` is the response for the cache. */
    method Serve(route: Route) returns (answer: Answer, kept: Option<Response>)
      requires Valid()
      modifies server, server.manager, server.manager.breakers.Values
      ensures Valid() && fresh(server.manager.breakers.Values - old(server.manager.breakers.Values))
      ensures (server.Now(), answer)
           == ChatService.HandleChatCompletion(server.g, engine, old(server.Now()), false, cache != null, None, route)
      ensures server.stored == old(server.stored) + (if kept.Some? then [kept.value] else [])
      ensures kept.Some? ==> cache != null && answer == Answered(kept.value, false)
    {
      hide ChatService.HandleChatCompletion;
      StoresAtMostOne(server.g, engine, server.Now(), cache != null, route);
      var before := |server.stored|;
      answer := server.HandleChatCompletion(engine, false, cache != null, None, route);
      kept := if |server.stored| > before then Some(server.stored[before]) else None;
    }

    /** Past the cache: the router decides, and its decision is served. */
    method Forward(req: ChatRequest)
      returns (answer: Answer, kept: Option<Response>, ghost d: Option<Decision>, ghost k: nat)
      requires Valid()
      modifies server, server.manager, server.manager.breakers.Values, router.balancer
      ensures Valid() && Bufs() == old(Bufs()) && forall m :: Cached(m) == old(Cached(m))
      ensures IsRouted(old(router.balancer.State()), router.balancer.State(), req.route, d, k)
      ensures (server.Now(), answer)
           == ChatService.HandleChatCompletion(server.g, engine, old(server.Now()), false, cache != null, None,
                                               RouteOf(d))
      ensures server.stored == old(server.stored) + (if kept.Some? then [kept.value] else [])
      ensures kept.Some? ==> cache != null && answer == Answered(kept.value, false)
    {
      hide ChatService.HandleChatCompletion;
      hide Router.FirstDecides;
      hide Routers.Chain;
      hide SplitAtSlash;
      hide RouteOf;
      var decision, step := router.Route(req.route);
      d, k := decision, step;
      assert server.Now() == old(server.Now());
      answer, kept := Serve(RouteOf(decision));
    }

    /** Stores a provider's answer under the model the client asked for. */
    method Keep(req: ChatRequest, response: Response, clocks: Clocks)
      requires Valid() && cache != null
      modifies cache, Bufs()
      ensures Valid() && fresh(Bufs() - old(Bufs()))
      ensures Cached(req.route.model)
              == AfterStore(old(Cached(req.route.model)), req.route.model, req.messages, response, clocks)
      ensures forall m :: m != req.route.model ==> Cached(m) == old(Cached(m))
    {
      hide Stored;
      hide SemanticCache.EntryFor;
      var saved := cache.Store(req.route.model, req.messages, false, response, clocks.storedAt, clocks.accessAt,
                               clocks.compaction);
    }

    /** After a miss: the route decides, and what comes back from a provider is stored. */
    method Miss(req: ChatRequest, clocks: Clocks) returns (answer: Answer, ghost d: Option<Decision>, ghost k: nat)
      requires Valid()
      modifies server, server.manager, server.manager.breakers.Values, router.balancer, cache, Bufs()
      ensures Valid() && fresh(Bufs() - old(Bufs()))
      ensures IsRouted(old(router.balancer.State()), router.balancer.State(), req.route, d, k)
      ensures (server.Now(), answer)
           == ChatService.HandleChatCompletion(server.g, engine, old(server.Now()), false, cache != null, None,
                                               RouteOf(d))
      ensures server.stored == old(server.stored) ==> Cached(req.route.model) == old(Cached(req.route.model))
      ensures server.stored != old(server.stored) ==>
                && cache != null && answer.Answered?
                && Cached(req.route.model)
                == AfterStore(old(Cached(req.route.model)), req.route.model, req.messages, answer.response, clocks)
      ensures forall m :: m != req.route.model ==> Cached(m) == old(Cached(m))
    {
      hide ChatService.HandleChatCompletion;
      hide IsRouted;
      hide AfterStore;
      hide SplitAtSlash;
      hide RouteOf;
      var kept;
      answer, kept, d, k := Forward(req);
      if kept.Some? {
        Keep(req, kept.value, clocks);
      }
    }

    /**
     * HandleChatCompletion with its parts in place. A hit leaves router, breakers and providers alone; after
     * a miss the route decides, and what comes back from a provider is stored under the requested model.
     */
    method HandleChatCompletion(req: ChatRequest, clocks: Clocks)
      returns (answer: Answer, ghost hit: Option<Response>, ghost best: int, ghost d: Option<Decision>, ghost k: nat)
      requires Valid()
      modifies server, server.manager, server.manager.breakers.Values, router.balancer, cache, Bufs()
      ensures Valid() && fresh(Bufs() - old(Bufs()))
      ensures forall m :: m != req.route.model ==> Cached(m) == old(Cached(m))
      ensures Handled(req, clocks, old(Cached(req.route.model)), Cached(req.route.model), old(router.balancer.State()),
                      router.balancer.State(), old(server.Now()), server.Now(), answer, hit, best, d, k)
    {
      hide ChatService.HandleChatCompletion;
      hide LooksUp;
      hide IsRouted;
      hide AfterLookup;
      hide AfterStore;
      hide RouteOf;
      hit, best, d, k := None, -1, None, 0;
      if req.stream {
        answer := Rejected(Error(INVALID_REQUEST, "use HandleChatCompletionStream for streaming requests"));
        return;
      }
      var found;
      found, best := Lookup(req, clocks.lookup);
      hit := found;
      assert server.Now() == old(server.Now()) && router.balancer.State() == old(router.balancer.State());
      if found.Some? {
        answer := Answered(found.value, true);
        return;
      }
      answer, d, k := Miss(req, clocks);
    }
  }
}

/** What every run of the chat service keeps, and what retries and breaker do together. */
module ChatServiceProofs {
  import opened GatewayModel
  import opened CircuitBreakers
  import opened BreakerManagers
  import opened FallbackEngine
  import FallbackProofs
  import opened ChatService

  // ----- The audit log explains the breakers -----

  ghost function CallOf(a: Audit): seq<Call>
  {
    match a
    case Asked(key, at, _) => [Call(key, Ask(at))]
    case Called(_, _, _, _) => []
    case Recorded(key, at, ok) => [Call(key, if ok then Success(at) else Failure(at))]
    case Streamed(key, at, ok) => [Call(key, if ok then Success(at) else Failure(at))]
  }

  /** The manager calls behind a log. */
  ghost function Calls(log: seq<Audit>): seq<Call>
  {
    if |log| == 0 then [] else Calls(log[..|log| - 1]) + CallOf(log[|log| - 1])
  }

  /** Times never decrease along the log, and none lies after `now`. */
  ghost predicate InOrder(log: seq<Audit>, now: int)
  {
    |log| == 0 || (log[|log| - 1].at <= now && InOrder(log[..|log| - 1], log[|log| - 1].at))
  }

  /** The log is made of refused or unused asks, stream outcomes, and triples ask, call, record on one key. */
  ghost predicate Bracketed(log: seq<Audit>)
  {
    var n := |log|;
    || n == 0
    || ((log[n - 1].Asked? || log[n - 1].Streamed?) && Bracketed(log[..n - 1]))
    || (n >= 3 && IsTriple(log[n - 3], log[n - 2], log[n - 1]) && Bracketed(log[..n - 3]))
  }

  ghost predicate IsTriple(a: Audit, c: Audit, r: Audit)
  {
    && a.Asked? && a.ok && c.Called? && r.Recorded?
    && a.key == r.key == Key(c.provider, c.model) && r.ok == c.reply.Ok?
  }

  /** Every answer of a breaker is the two-variable rule applied to the history of its own key. */
  ghost predicate AnswersFollowRule(g: Gateway, log: seq<Audit>)
  {
    |log| == 0 ||
    (AnswersFollowRule(g, log[..|log| - 1]) &&
     (log[|log| - 1].Asked? ==> FollowsRule(g, log[..|log| - 1], log[|log| - 1])))
  }

  ghost predicate FollowsRule(g: Gateway, history: seq<Audit>, a: Audit)
    requires a.Asked?
  {
    a.ok <==> MayCall(g.threshold, g.cooldown, For(Calls(history), a.key), a.at)
  }

  /** The breakers are a run of the manager on the calls behind the log. */
  ghost predicate Explained(g: Gateway, w: World)
  {
    w.breakers == ManagerRun(g.threshold, g.cooldown, Calls(w.log))
  }

  /** The log explains the breakers, runs forward in time, and every answer in it follows the rule. */
  ghost predicate Ruled(g: Gateway, w: World)
  {
    Explained(g, w) && InOrder(w.log, w.now) && AnswersFollowRule(g, w.log)
  }

  ghost predicate Sound(g: Gateway, w: World)
  {
    Ruled(g, w) && Bracketed(w.log)
  }

  lemma CallsAppend(log: seq<Audit>, a: Audit)
    ensures Calls(log + [a]) == Calls(log) + CallOf(a)
  {
    assert (log + [a])[..|log|] == log;
  }

  lemma ChronologicalAppend(es: seq<Event>, e: Event, now: int)
    requires Chronological(es + [Ask(e.at)]) && e.at <= now
    ensures Chronological(es + [Ask(now)]) && Chronological(es + [e] + [Ask(now)])
  {
    StretchEnd(es, [Ask(now)], e.at);
    StretchEnd(es, [e, Ask(now)], e.at);
    assert es + [e] + [Ask(now)] == es + [e, Ask(now)];
  }

  lemma StretchEnd(es: seq<Event>, end: seq<Event>, at: int)
    requires Chronological(es + [Ask(at)]) && Chronological(end)
    requires forall i :: 0 <= i < |end| ==> at <= end[i].at
    ensures Chronological(es + end)
  {
    var was, r := es + [Ask(at)], es + end;
    forall i, j | 0 <= i < j < |r|
      ensures r[i].at <= r[j].at
    {
      if j < |es| {
        assert was[i].at <= was[j].at;
      } else if i < |es| {
        assert was[i].at <= was[|es|].at;
      }
    }
  }

  lemma {:induction false} CallsInOrder(log: seq<Audit>, now: int, key: string)
    requires InOrder(log, now)
    ensures Chronological(For(Calls(log), key) + [Ask(now)])
  {
    if |log| > 0 {
      var init, last := log[..|log| - 1], log[|log| - 1];
      var before := For(Calls(init), key);
      CallsInOrder(init, last.at, key);
      if last.Called? {
        assert Calls(log) == Calls(init);
        ChronologicalAppend(before, Ask(last.at), now);
      } else {
        var c := CallOf(last)[0];
        assert Calls(log)[..|Calls(init)|] == Calls(init) && Calls(log)[|Calls(init)|] == c;
        ChronologicalAppend(before, c.event, now);
        assert For(Calls(log), key) == if c.key == key then before + [c.event] else before;
      }
    }
  }

  lemma ManagerRunAppend(threshold: int, cooldown: int, calls: seq<Call>, c: Call)
    ensures var m := ManagerRun(threshold, cooldown, calls);
            ManagerRun(threshold, cooldown, calls + [c])
              == m[c.key := CircuitBreakers.After(StateOf(m, c.key), threshold, cooldown, c.event)]
  {
    assert (calls + [c])[..|calls|] == calls;
  }

  /** `w1` is the world after the breaker of `key` has answered. */
  ghost predicate IsAsked(g: Gateway, w: World, key: string, w1: World)
  {
    var (b, ok) := Allowed(StateOf(w.breakers, key), g.cooldown, w.now);
    w1 == w.(breakers := w.breakers[key := b], log := w.log + [Asked(key, w.now, ok)])
  }

  lemma AskIsRuled(g: Gateway, w: World, key: string, w1: World)
    requires Ruled(g, w) && IsAsked(g, w, key, w1)
    ensures Ruled(g, w1)
  {
    var (b, ok) := Allowed(StateOf(w.breakers, key), g.cooldown, w.now);
    var a, es := Asked(key, w.now, ok), For(Calls(w.log), key);
    assert w1.log == w.log + [a] && w1.log[..|w.log|] == w.log;
    CallsAppend(w.log, a);
    ManagerRunAppend(g.threshold, g.cooldown, Calls(w.log), Call(key, Ask(w.now)));
    assert ok <==> MayCall(g.threshold, g.cooldown, es, w.now) by {
      CallsInOrder(w.log, w.now, key);
      KeysAreIsolated(g.threshold, g.cooldown, Calls(w.log), key);
      AllowIsRule(g.threshold, g.cooldown, es, w.now);
    }
  }

  lemma AskIsSound(g: Gateway, w: World, provider: string, model: string)
    requires Sound(g, w)
    ensures Sound(g, AskBreaker(g, w, provider, model).0)
  {
    var w1 := AskBreaker(g, w, provider, model).0;
    AskIsRuled(g, w, Key(provider, model), w1);
    assert w1.log[..|w.log|] == w.log;
  }

  lemma RecordedRun(g: Gateway, calls: seq<Call>, m: map<string, BreakerState>, key: string, at: int, ok: bool)
    requires m == ManagerRun(g.threshold, g.cooldown, calls)
    ensures ManagerRun(g.threshold, g.cooldown, calls + [Call(key, if ok then Success(at) else Failure(at))])
         == m[key := if ok then Succeeded(StateOf(m, key)) else Failed(StateOf(m, key), g.threshold, at)]
  {
    ManagerRunAppend(g.threshold, g.cooldown, calls, Call(key, if ok then Success(at) else Failure(at)));
  }

  /** The entry of an outcome, be it of a call or of a stream. */
  ghost predicate IsOutcome(a: Audit, key: string, at: int, ok: bool)
  {
    a == Recorded(key, at, ok) || a == Streamed(key, at, ok)
  }

  lemma OutcomeIsExplained(g: Gateway, w: World, key: string, ok: bool, a: Audit)
    requires Explained(g, w) && IsOutcome(a, key, w.now, ok)
    ensures Explained(g, w.(breakers := WithOutcome(g, w, key, ok), log := w.log + [a]))
  {
    CallsAppend(w.log, a);
    RecordedRun(g, Calls(w.log), w.breakers, key, w.now, ok);
  }

  lemma OutcomeIsRuled(g: Gateway, w: World, key: string, ok: bool, a: Audit)
    requires Ruled(g, w) && IsOutcome(a, key, w.now, ok)
    ensures Ruled(g, w.(breakers := WithOutcome(g, w, key, ok), log := w.log + [a]))
  {
    OutcomeIsExplained(g, w, key, ok, a);
    PlainAppend(g, w.log, w.now, a, w.now);
  }

  lemma StreamRecordIsSound(g: Gateway, w: World, provider: string, model: string, ok: bool)
    requires Sound(g, w)
    ensures Sound(g, RecordStream(g, w, provider, model, ok))
  {
    var r := Streamed(Key(provider, model), w.now, ok);
    OutcomeIsRuled(g, w, Key(provider, model), ok, r);
    assert (w.log + [r])[..|w.log|] == w.log;
  }

  /** Opening a stream leaves the asked breaker, or time that has passed, with at most one outcome. */
  lemma OpeningEnds(g: Gateway, w: World, route: Route, provider: string, model: string) returns (took: nat)
    requires route == Routed(provider, model)
    ensures var end, w1 := HandleChatCompletionStream(g, w, route).0, AskBreaker(g, w, provider, model).0;
            var w2 := w1.(now := w1.now + took);
            end == w1 || end == w2 || end == RecordStream(g, w2, provider, model, false)
  {
    took := g.openStream(AskBreaker(g, w, provider, model).0, provider, model).1;
  }

  lemma OpeningIsSound(g: Gateway, w: World, route: Route, end: World)
    requires Sound(g, w) && end == HandleChatCompletionStream(g, w, route).0
    ensures Sound(g, end)
  {
    if route.Routed? {
      OpenedIsSound(g, w, route, route.provider, route.model, end);
    }
  }

  lemma OpenedIsSound(g: Gateway, w: World, route: Route, provider: string, model: string, end: World)
    requires Sound(g, w) && route == Routed(provider, model) && end == HandleChatCompletionStream(g, w, route).0
    ensures Sound(g, end)
  {
    hide Sound;
    var w1 := AskBreaker(g, w, provider, model).0;
    AskIsSound(g, w, provider, model);
    var took := OpeningEnds(g, w, route, provider, model);
    LaterIsSound(g, w1, w1.now + took);
    StreamRecordIsSound(g, w1.(now := w1.now + took), provider, model, false);
  }

  lemma CallIsExplained(g: Gateway, w: World, provider: string, model: string)
    requires Explained(g, w)
    ensures Explained(g, CallProvider(g, w, provider, model).0)
  {
    var w1 := CallProvider(g, w, provider, model).0;
    var c := w1.log[|w.log|];
    assert Calls(w1.log) == Calls(w.log) by { CallsAppend(w.log, c); }
  }

  /** An admitted call and the record of its outcome. */
  lemma CallAndRecordIsSound(
    g: Gateway, w: World, w1: World, w2: World, reply: Reply, provider: string, model: string)
    requires Sound(g, w) && (w1, true) == AskBreaker(g, w, provider, model)
    requires (w2, reply) == CallProvider(g, w1, provider, model)
    ensures Sound(g, RecordOutcome(g, w2, provider, model, reply.Ok?))
  {
    var key := Key(provider, model);
    var w3 := RecordOutcome(g, w2, provider, model, reply.Ok?);
    var a, c, r := Asked(key, w.now, true), Called(provider, model, w2.now, reply), Recorded(key, w2.now, reply.Ok?);
    assert Sound(g, w1) by { AskIsSound(g, w, provider, model); }
    assert w1.log == w.log + [a] && w2.log == w1.log + [c];
    assert Explained(g, w3) by {
      CallIsExplained(g, w1, provider, model);
      OutcomeIsExplained(g, w2, key, reply.Ok?, r);
    }
    TripleAppend(g, w.log, a, c, r, w1.log, w1.now, w3.now, w3.log);
  }

  lemma TripleAppend(
    g: Gateway, log: seq<Audit>, a: Audit, c: Audit, r: Audit, asked: seq<Audit>, was: int, now: int, all: seq<Audit>)
    requires asked == log + [a] && all == asked + [c] + [r] && IsTriple(a, c, r)
    requires InOrder(asked, was) && AnswersFollowRule(g, asked) && Bracketed(log)
    requires was <= now && c.at == now && r.at == now
    ensures InOrder(all, now) && AnswersFollowRule(g, all) && Bracketed(all)
  {
    PlainAppend(g, asked, was, c, now);
    PlainAppend(g, asked + [c], now, r, now);
    BracketedAppend(log, a, c, r, all);
  }

  lemma PlainAppend(g: Gateway, log: seq<Audit>, was: int, a: Audit, now: int)
    requires InOrder(log, was) && AnswersFollowRule(g, log) && !a.Asked? && was <= now == a.at
    ensures InOrder(log + [a], now) && AnswersFollowRule(g, log + [a])
  {
    assert (log + [a])[..|log|] == log;
  }

  lemma BracketedAppend(log: seq<Audit>, a: Audit, c: Audit, r: Audit, all: seq<Audit>)
    requires Bracketed(log) && IsTriple(a, c, r) && all == log + [a] + [c] + [r]
    ensures Bracketed(all)
  {
    assert all[..|all| - 3] == log;
  }

  lemma SendIsSound(g: Gateway, w: World, provider: string, model: string)
    requires Sound(g, w)
    ensures Sound(g, Send(g, w, provider, model).0)
  {
    if provider in g.providers {
      var (w1, ok) := AskBreaker(g, w, provider, model);
      if ok {
        var (w2, reply) := CallProvider(g, w1, provider, model);
        assert Send(g, w, provider, model).0 == RecordOutcome(g, w2, provider, model, reply.Ok?);
        CallAndRecordIsSound(g, w, w1, w2, reply, provider, model);
      } else {
        AskIsSound(g, w, provider, model);
      }
    }
  }

  /** Whatever sending and waiting keep, the whole walk keeps. */
  lemma {:induction false} WalkKeeps(
    inv: World -> bool, g: Gateway, e: Engine, w: World, plan: seq<Attempt>, retries: nat, skip: bool)
    requires forall v: World, p: string, m: string :: inv(v) ==> inv(Send(g, v, p, m).0)
    requires forall v: World, d: int :: inv(v) ==> inv(Wait(g, v, d).0)
    requires inv(w)
    ensures inv(Walk(e, EffectsOf(g), w, plan, retries, skip).env)
    decreases |plan|
  {
    if |plan| > 0 && g.cancelled(w).None? {
      var att, rest := plan[0], plan[1..];
      if att.level == Retry && skip {
        WalkKeeps(inv, g, e, w, rest, retries, skip);
      } else {
        var retry := att.level == Retry;
        var w0 := if retry then Wait(g, w, BackoffDuration(e, retries)).0 else w;
        var (w1, reply) := Send(g, w0, att.providerName, att.model);
        assert inv(w1);
        if reply.Err? {
          WalkKeeps(inv, g, e, w1, rest, if retry then retries + 1 else retries,
                    skip || (att.level == Primary && !g.retryable(reply.error)));
        }
      }
    }
  }

  lemma LaterIsSound(g: Gateway, w: World, now: int)
    requires Sound(g, w) && w.now <= now
    ensures Sound(g, w.(now := now))
  {
  }

  lemma WalkIsSound(g: Gateway, e: Engine, w: World, plan: seq<Attempt>, retries: nat, skip: bool)
    requires Sound(g, w)
    ensures Sound(g, Walk(e, EffectsOf(g), w, plan, retries, skip).env)
  {
    var inv := (v: World) => Sound(g, v);
    forall v: World, p: string, m: string | inv(v)
      ensures inv(Send(g, v, p, m).0)
    {
      SendIsSound(g, v, p, m);
    }
    forall v: World, d: int | inv(v)
      ensures inv(Wait(g, v, d).0)
    {
      LaterIsSound(g, v, Wait(g, v, d).0.now);
    }
    WalkKeeps(inv, g, e, w, plan, retries, skip);
  }

  // ----- Runs of requests -----

  /**
   * What the service does next, after a pause: a chat request, the opening of a stream, or the outcome a
   * forwarding goroutine records for an earlier stream; these may come in any order and number.
   */
  datatype Request =
    | Chat(pause: nat, stream: bool, caching: bool, hit: Option<Response>, route: Route)
    | OpenStream(pause: nat, route: Route)
    | StreamEnd(pause: nat, provider: string, model: string, ok: bool)

  ghost function Serve(g: Gateway, e: Engine, w: World, r: Request): World
  {
    var w0 := w.(now := w.now + r.pause);
    match r
    case Chat(_, stream, caching, hit, route) => HandleChatCompletion(g, e, w0, stream, caching, hit, route).0
    case OpenStream(_, route) => HandleChatCompletionStream(g, w0, route).0
    case StreamEnd(_, provider, model, ok) => RecordStream(g, w0, provider, model, ok)
  }

  ghost function ServeAll(g: Gateway, e: Engine, start: int, rs: seq<Request>): World
  {
    if |rs| == 0 then World(map[], start, [], [])
    else Serve(g, e, ServeAll(g, e, start, rs[..|rs| - 1]), rs[|rs| - 1])
  }

  /** What the service leaves is what the breaker or the Execute left, up to the entries for the cache. */
  lemma ServeEnds(g: Gateway, e: Engine, w: World, stream: bool, caching: bool, hit: Option<Response>, route: Route)
    ensures var end := HandleChatCompletion(g, e, w, stream, caching, hit, route).0;
            || end == w
            || (route.Routed? &&
                var w1 := AskBreaker(g, w, route.provider, route.model).0;
                end == w1 || end == Executed(g, e, w1, route.provider, route.model).env.(stored := end.stored))
  {
  }

  lemma HandleIsSound(
    g: Gateway, e: Engine, w: World, stream: bool, caching: bool, hit: Option<Response>, route: Route, end: World)
    requires Sound(g, w) && end == HandleChatCompletion(g, e, w, stream, caching, hit, route).0
    ensures Sound(g, end)
  {
    ServeEnds(g, e, w, stream, caching, hit, route);
    if route.Routed? {
      AskIsSound(g, w, route.provider, route.model);
      WalkIsSound(g, e, AskBreaker(g, w, route.provider, route.model).0, Plan(e, route.provider, route.model), 0,
                  false);
    }
  }

  lemma ServeIsSound(g: Gateway, e: Engine, w: World, r: Request, end: World)
    requires Sound(g, w) && end == Serve(g, e, w, r)
    ensures Sound(g, end)
  {
    var w0 := w.(now := w.now + r.pause);
    LaterIsSound(g, w, w0.now);
    match r
    case Chat(_, stream, caching, hit, route) => HandleIsSound(g, e, w0, stream, caching, hit, route, end);
    case OpenStream(_, route) => OpeningIsSound(g, w0, route, end);
    case StreamEnd(_, provider, model, ok) => StreamRecordIsSound(g, w0, provider, model, ok);
  }

  /**
   * Every run of chat requests and streams, whatever the providers answer and however long they take: the
   * breakers are what the log says, every breaker answer is the two-variable rule on its key's own history,
   * and every provider call sits between its admission and its record.
   */
  lemma {:induction false} EveryRunIsSound(g: Gateway, e: Engine, start: int, rs: seq<Request>)
    ensures Sound(g, ServeAll(g, e, start, rs))
  {
    if |rs| > 0 {
      EveryRunIsSound(g, e, start, rs[..|rs| - 1]);
      ServeIsSound(g, e, ServeAll(g, e, start, rs[..|rs| - 1]), rs[|rs| - 1], ServeAll(g, e, start, rs));
    }
  }

  // ----- What soundness says, entry by entry -----

  /** Entry `i` is a provider call between its admission and the one record of its outcome. */
  ghost predicate CallIsBracketed(log: seq<Audit>, i: nat)
  {
    0 < i && i + 1 < |log| && IsTriple(log[i - 1], log[i], log[i + 1])
  }

  lemma {:induction false} EveryCallIsBracketed(log: seq<Audit>, i: nat)
    requires Bracketed(log) && i < |log|
    ensures log[i].Called? ==> CallIsBracketed(log, i)
    ensures log[i].Recorded? ==> i > 0 && CallIsBracketed(log, i - 1)
  {
    var n := |log|;
    if (log[n - 1].Asked? || log[n - 1].Streamed?) && Bracketed(log[..n - 1]) {
      if i < n - 1 {
        EveryCallIsBracketed(log[..n - 1], i);
      }
    } else if i < n - 3 {
      EveryCallIsBracketed(log[..n - 3], i);
    }
  }

  lemma {:induction false} EveryAnswerFollowsRule(g: Gateway, log: seq<Audit>, i: nat)
    requires AnswersFollowRule(g, log) && i < |log| && log[i].Asked?
    ensures log[i].ok <==> MayCall(g.threshold, g.cooldown, For(Calls(log[..i]), log[i].key), log[i].at)
  {
    var init := log[..|log| - 1];
    if i < |log| - 1 {
      EveryAnswerFollowsRule(g, init, i);
      assert init[..i] == log[..i];
    }
  }

  // ----- Admission -----

  /** A request the service has admitted is not refused at its primary attempt, however late that runs. */
  lemma PrimaryIsNeverRefused(g: Gateway, w: World, provider: string, model: string, later: nat)
    requires provider in g.providers
    requires AskBreaker(g, w, provider, model).1
    ensures var w1 := AskBreaker(g, w, provider, model).0.(now := w.now + later);
            && |Send(g, w1, provider, model).0.log| == |w1.log| + 3
            && Send(g, w1, provider, model).0.log[|w1.log| + 1].Called?
  {
  }

  // ----- Retries and breaker together -----

  /** How many times the provider was called for the model. */
  ghost function CallsTo(log: seq<Audit>, provider: string, model: string): nat
  {
    if |log| == 0 then 0
    else
      var last := log[|log| - 1];
      CallsTo(log[..|log| - 1], provider, model)
      + (if last.Called? && last.provider == provider && last.model == model then 1 else 0)
  }

  lemma CallsToAppend(log: seq<Audit>, a: Audit, provider: string, model: string)
    ensures CallsTo(log + [a], provider, model)
         == CallsTo(log, provider, model) + (if a.Called? && a.provider == provider && a.model == model then 1 else 0)
  {
    assert (log + [a])[..|log|] == log;
  }

  /** Every call of this provider for this model fails with a retryable error. */
  ghost predicate Failing(g: Gateway, provider: string, model: string)
  {
    && (forall w :: g.respond(w, provider, model).0.Err?)
    && (forall w :: g.retryable(g.respond(w, provider, model).0.error))
  }

  /** Counting failures from `start` on: not tripped yet, or tripped after `start`. */
  ghost predicate Counting(g: Gateway, b: BreakerState, start: int)
  {
    || (b.state == Closed && b.failures < Trip(g.threshold))
    || (b.state == Open && b.failures >= Trip(g.threshold) && b.openedAt >= start)
  }

  /** Calls the breaker still lets through before it trips. */
  ghost function Left(g: Gateway, b: BreakerState): nat
  {
    if b.failures >= Trip(g.threshold) then 0 else Trip(g.threshold) - b.failures
  }

  /** One attempt within the cooldown: a call while the count allows one, a refusal afterwards. */
  lemma FailingSend(g: Gateway, w: World, provider: string, model: string, start: int)
    requires provider in g.providers && Failing(g, provider, model)
    requires start <= w.now < start + g.cooldown
    requires Counting(g, StateOf(w.breakers, Key(provider, model)), start)
    ensures var b := StateOf(w.breakers, Key(provider, model));
            var (w1, reply) := Send(g, w, provider, model);
            var b1 := StateOf(w1.breakers, Key(provider, model));
            && reply.Err? && w1.now >= w.now
            && Counting(g, b1, start)
            && Left(g, b1) == (if Left(g, b) == 0 then 0 else Left(g, b) - 1)
            && CallsTo(w1.log, provider, model) == CallsTo(w.log, provider, model) + Min(1, Left(g, b))
  {
    var key := Key(provider, model);
    var (w1, ok) := AskBreaker(g, w, provider, model);
    CallsToAppend(w.log, Asked(key, w.now, ok), provider, model);
    if ok {
      var (w2, reply) := CallProvider(g, w1, provider, model);
      CallsToAppend(w1.log, Called(provider, model, w2.now, reply), provider, model);
      CallsToAppend(w2.log, Recorded(key, w2.now, false), provider, model);
      assert reply.Err?;
    }
  }

  /** Attempts at other providers leave this one's call count alone, and time only moves forward. */
  lemma OtherSend(g: Gateway, w: World, other: string, m: string, provider: string, model: string)
    requires other != provider
    ensures CallsTo(Send(g, w, other, m).0.log, provider, model) == CallsTo(w.log, provider, model)
    ensures Send(g, w, other, m).0.now >= w.now
  {
    var key := Key(other, m);
    if other in g.providers {
      var (w1, ok) := AskBreaker(g, w, other, m);
      CallsToAppend(w.log, Asked(key, w.now, ok), provider, model);
      if ok {
        var (w2, reply) := CallProvider(g, w1, other, m);
        CallsToAppend(w1.log, Called(other, m, w2.now, reply), provider, model);
        CallsToAppend(w2.log, Recorded(key, w2.now, reply.Ok?), provider, model);
      }
    }
  }

  lemma {:induction false} ChainLeavesProvider(
    g: Gateway, e: Engine, w: World, plan: seq<Attempt>, retries: nat, skip: bool, provider: string, model: string)
    requires provider != "" && OnlyChain(plan)
    ensures var x := Walk(e, EffectsOf(g), w, plan, retries, skip);
            CallsTo(x.env.log, provider, model) == CallsTo(w.log, provider, model) && x.env.now >= w.now
    decreases |plan|
  {
    if |plan| > 0 && g.cancelled(w).None? {
      var att, rest := plan[0], plan[1..];
      OtherSend(g, w, "", att.model, provider, model);
      ChainLeavesProvider(g, e, Send(g, w, "", att.model).0, rest, retries, skip, provider, model);
    }
  }

  lemma WalkTakesTime(g: Gateway, e: Engine, w: World, plan: seq<Attempt>, retries: nat, skip: bool)
    ensures Walk(e, EffectsOf(g), w, plan, retries, skip).env.now >= w.now
  {
    WalkKeeps((v: World) => v.now >= w.now, g, e, w, plan, retries, skip);
  }

  ghost predicate NotCancelled(g: Gateway)
  {
    && (forall w :: g.cancelled(w) == None)
    && (forall w, d :: g.interrupted(w, d) == None)
  }

  ghost predicate OnlyChain(plan: seq<Attempt>)
  {
    forall i :: 0 <= i < |plan| ==> plan[i].providerName == "" && plan[i].level == Fallback
  }

  /** `n` retries of one attempt, then the chain. */
  ghost predicate RetriesThenChain(plan: seq<Attempt>, n: nat, att: Attempt)
  {
    if n == 0 then OnlyChain(plan)
    else |plan| > 0 && plan[0] == att && RetriesThenChain(plan[1..], n - 1, att)
  }

  lemma {:induction false} TailIsRetriesThenChain(att: Attempt, n: nat, chain: seq<Attempt>)
    requires OnlyChain(chain)
    ensures RetriesThenChain(Repeat(att, n) + chain, n, att)
  {
    if n == 0 {
      assert Repeat(att, 0) + chain == chain;
    } else {
      RepeatHead(att, n);
      assert (Repeat(att, n) + chain)[1..] == Repeat(att, n - 1) + chain;
      TailIsRetriesThenChain(att, n - 1, chain);
    }
  }

  lemma {:induction false} RepeatHead(a: Attempt, n: int)
    requires n > 0
    ensures Repeat(a, n)[0] == a && Repeat(a, n)[1..] == Repeat(a, n - 1)
  {
    if n > 1 {
      RepeatHead(a, n - 1);
    } else {
      assert Repeat(a, 0) == [];
    }
  }

  /** A failing provider whose breaker started counting no later than `start`. */
  ghost predicate CountsFrom(g: Gateway, w: World, provider: string, model: string, start: int)
  {
    && provider in g.providers && Failing(g, provider, model)
    && Counting(g, StateOf(w.breakers, Key(provider, model)), start) && start <= w.now
  }

  /** An attempt at the failing provider that ends within the cooldown, and the walk that continues from it. */
  lemma NextAttempt(
    g: Gateway, e: Engine, w: World, att: Attempt, rest: seq<Attempt>, retries: nat, provider: string, model: string,
    start: int, w1: World, end: World)
    requires CountsFrom(g, w, provider, model, start)
    requires att.providerName == provider && att.model == model
    requires att.level == Primary ==> StateOf(w.breakers, Key(provider, model)).state == Closed
    requires end == WalkSend(e, EffectsOf(g), w, att, rest, retries, false).env && end.now < start + g.cooldown
    requires w1 == Send(g, w, provider, model).0
    ensures end == Walk(e, EffectsOf(g), w1, rest, retries, false).env
    ensures CountsFrom(g, w1, provider, model, start)
    ensures var b, b1 := StateOf(w.breakers, Key(provider, model)), StateOf(w1.breakers, Key(provider, model));
            && Left(g, b1) == (if Left(g, b) == 0 then 0 else Left(g, b) - 1)
            && CallsTo(w1.log, provider, model) == CallsTo(w.log, provider, model) + Min(1, Left(g, b))
  {
    var reply := Send(g, w, provider, model).1;
    var skip := reply.Err? && att.level == Primary && !g.retryable(reply.error);
    OnlyForward(g, w, provider, model);
    if reply.Err? {
      WalkTakesTime(g, e, w1, rest, retries, skip);
    }
    FailingSend(g, w, provider, model, start);
    assert !skip;
  }

  /** The first retry of a plan, once its wait is over. */
  lemma RetryStep(g: Gateway, e: Engine, w: World, plan: seq<Attempt>, retries: nat, w0: World)
    requires NotCancelled(g) && |plan| > 0 && plan[0].level == Retry
    requires w0 == Wait(g, w, BackoffDuration(e, retries)).0
    ensures Walk(e, EffectsOf(g), w, plan, retries, false).env
         == WalkSend(e, EffectsOf(g), w0, plan[0], plan[1..], retries + 1, false).env
    ensures w0.breakers == w.breakers && w0.log == w.log && w0.now >= w.now
  {
    var fx, d := EffectsOf(g), BackoffDuration(e, retries);
    assert fx.cancelled(w) == None by { assert g.cancelled(w) == None; }
    assert fx.wait(w, d) == (w0, None) by { assert g.interrupted(w, d) == None; }
    FallbackProofs.RetryAtHead(e, fx, w, plan, retries, w0);
  }

  /** The retry phase: of n retries, as many reach the provider as the breaker still lets through. */
  lemma {:induction false} RetryPhase(
    g: Gateway, e: Engine, w: World, n: nat, plan: seq<Attempt>, retries: nat, provider: string, model: string,
    start: int, end: World)
    requires NotCancelled(g) && provider != "" && CountsFrom(g, w, provider, model, start)
    requires RetriesThenChain(plan, n, Attempt(provider, model, Retry))
    requires end == Walk(e, EffectsOf(g), w, plan, retries, false).env && end.now < start + g.cooldown
    ensures CallsTo(end.log, provider, model)
         == CallsTo(w.log, provider, model) + Min(n, Left(g, StateOf(w.breakers, Key(provider, model))))
    decreases n
  {
    hide Walk;
    hide WalkSend;
    hide Send;
    if n == 0 {
      ChainLeavesProvider(g, e, w, plan, retries, false, provider, model);
    } else {
      var w0 := Wait(g, w, BackoffDuration(e, retries)).0;
      var w1 := Send(g, w0, provider, model).0;
      RetryStep(g, e, w, plan, retries, w0);
      NextAttempt(g, e, w0, plan[0], plan[1..], retries + 1, provider, model, start, w1, end);
      RetryPhase(g, e, w1, n - 1, plan[1..], retries + 1, provider, model, start, end);
    }
  }

  lemma OnlyForward(g: Gateway, w: World, provider: string, model: string)
    ensures Send(g, w, provider, model).0.now >= w.now
  {
  }

  /**
   * Retries and breaker composed: a key with f failures below the threshold, whose provider fails every
   * call retryably, receives exactly min(1 + retryMax, threshold - f) calls from one Execute that ends
   * within the cooldown. The chain then follows, but cannot reach this provider again.
   */
  lemma RetriesStopAtThreshold(g: Gateway, e: Engine, w: World, provider: string, model: string)
    requires NotCancelled(g) && e.retryMax >= 0
    requires provider != "" && provider in g.providers && Failing(g, provider, model)
    requires var b := StateOf(w.breakers, Key(provider, model)); b.state == Closed && b.failures < Trip(g.threshold)
    requires Executed(g, e, w, provider, model).env.now < w.now + g.cooldown
    ensures CallsTo(Executed(g, e, w, provider, model).env.log, provider, model)
         == CallsTo(w.log, provider, model)
            + Min(1 + e.retryMax, Trip(g.threshold) - StateOf(w.breakers, Key(provider, model)).failures)
  {
    hide Walk;
    hide WalkSend;
    hide Send;
    var chain := ChainAttempts(Chain(e, model));
    var att, rest := Attempt(provider, model, Primary), Repeat(Attempt(provider, model, Retry), e.retryMax) + chain;
    var w1, end := Send(g, w, provider, model).0, Executed(g, e, w, provider, model).env;
    PrimaryFirst(g, e, w, provider, model, att, rest);
    NextAttempt(g, e, w, att, rest, 0, provider, model, w.now, w1, end);
    FallbackProofs.ChainEntries(Chain(e, model));
    TailIsRetriesThenChain(Attempt(provider, model, Retry), e.retryMax, chain);
    RetryPhase(g, e, w1, e.retryMax, rest, 0, provider, model, w.now, end);
  }

  lemma PrimaryFirst(g: Gateway, e: Engine, w: World, provider: string, model: string, att: Attempt, rest: seq<Attempt>)
    requires NotCancelled(g) && att == Attempt(provider, model, Primary)
    requires rest == Repeat(Attempt(provider, model, Retry), e.retryMax) + ChainAttempts(Chain(e, model))
    ensures Executed(g, e, w, provider, model) == WalkSend(e, EffectsOf(g), w, att, rest, 0, false)
  {
    var plan := Plan(e, provider, model);
    assert plan == [att] + rest;
    assert plan[0] == att && plan[1..] == rest;
    assert g.cancelled(w) == None;
  }

  // ----- The chain through the service -----

  /**
   * Where the chain begins, the service answers with the default unless a provider is registered under the
   * empty name.
   */
  lemma {:induction false} ChainWithoutEmptyName(g: Gateway, e: Engine, w: World, plan: seq<Attempt>, retries: nat,
                                                 skip: bool)
    requires "" !in g.providers && OnlyChain(plan)
    ensures var x := Walk(e, EffectsOf(g), w, plan, retries, skip);
            && x.env == w
            && x.outcome == if |plan| > 0 && g.cancelled(w).Some? then Aborted(g.cancelled(w).value)
                            else Returned(DefaultResponse(e), Exhausted)
    decreases |plan|
  {
    if |plan| > 0 && g.cancelled(w).None? {
      ChainWithoutEmptyName(g, e, w, plan[1..], retries, skip);
    }
  }

  /** Attempts of level fallback carry no provider name. */
  ghost predicate ChainIsNameless(plan: seq<Attempt>)
  {
    forall i :: 0 <= i < |plan| && plan[i].level == Fallback ==> plan[i].providerName == ""
  }

  lemma {:induction false} NamelessNeverFallsBack(g: Gateway, e: Engine, w: World, plan: seq<Attempt>, retries: nat,
                                                  skip: bool)
    requires "" !in g.providers && ChainIsNameless(plan)
    ensures var outcome := Walk(e, EffectsOf(g), w, plan, retries, skip).outcome;
            outcome.Returned? ==> outcome.level != Fallback
    decreases |plan|
  {
    if |plan| > 0 && g.cancelled(w).None? {
      var att, rest := plan[0], plan[1..];
      if att.level == Retry && skip {
        NamelessNeverFallsBack(g, e, w, rest, retries, skip);
      } else {
        var retry := att.level == Retry;
        var w0 := if retry then Wait(g, w, BackoffDuration(e, retries)).0 else w;
        var (w1, reply) := Send(g, w0, att.providerName, att.model);
        if reply.Err? {
          NamelessNeverFallsBack(g, e, w1, rest, if retry then retries + 1 else retries,
                                 skip || (att.level == Primary && !g.retryable(reply.error)));
        }
      }
    }
  }

  lemma PlanIsNameless(e: Engine, provider: string, model: string)
    ensures ChainIsNameless(Plan(e, provider, model))
  {
    var retries, chain := Repeat(Attempt(provider, model, Retry), e.retryMax), ChainAttempts(Chain(e, model));
    FallbackProofs.RepeatEntries(Attempt(provider, model, Retry), e.retryMax);
    FallbackProofs.ChainEntries(Chain(e, model));
    assert forall i :: 0 <= i < |retries| ==> retries[i] in retries;
  }

  /** Without a provider of the empty name no Execute of the service is ever answered by its chain. */
  lemma NoFallbackThroughService(g: Gateway, e: Engine, w: World, provider: string, model: string)
    requires "" !in g.providers
    ensures var outcome := Executed(g, e, w, provider, model).outcome;
            outcome.Returned? ==> outcome.level != Fallback
  {
    PlanIsNameless(e, provider, model);
    NamelessNeverFallsBack(g, e, w, Plan(e, provider, model), 0, false);
  }

  /** A provider of the empty name whose breaker admits the model at `w`, and which answers. */
  ghost predicate EmptyNameServes(g: Gateway, w: World, model: string)
  {
    && "" in g.providers
    && AskBreaker(g, w, "", model).1
    && g.respond(AskBreaker(g, w, "", model).0, "", model).0.Ok?
  }

  /** The first attempt of a chain answers exactly when the empty name serves its model. */
  lemma ChainHeadServesIff(g: Gateway, e: Engine, w: World, plan: seq<Attempt>, retries: nat, skip: bool)
    requires |plan| > 0 && OnlyChain(plan) && g.cancelled(w).None?
    ensures Send(g, w, "", plan[0].model).1.Ok? <==> EmptyNameServes(g, w, plan[0].model)
    ensures EmptyNameServes(g, w, plan[0].model) ==>
              Walk(e, EffectsOf(g), w, plan, retries, skip).outcome
                == Returned(Send(g, w, "", plan[0].model).1.response, Fallback)
  {
  }

  /** The attempts before the chain. */
  ghost function Head(e: Engine, provider: string, model: string): seq<Attempt>
  {
    [Attempt(provider, model, Primary)] + Repeat(Attempt(provider, model, Retry), e.retryMax)
  }

  ghost predicate OnlyOn(plan: seq<Attempt>, provider: string, model: string)
  {
    forall i :: 0 <= i < |plan| ==>
      plan[i].providerName == provider && plan[i].model == model && (plan[i].level == Primary || plan[i].level == Retry)
  }

  lemma HeadAttempts(e: Engine, provider: string, model: string)
    ensures OnlyOn(Head(e, provider, model), provider, model)
    ensures Plan(e, provider, model) == Head(e, provider, model) + ChainAttempts(Chain(e, model))
    ensures OnlyChain(ChainAttempts(Chain(e, model))) && |ChainAttempts(Chain(e, model))| == |Chain(e, model)|
  {
    var retries := Repeat(Attempt(provider, model, Retry), e.retryMax);
    FallbackProofs.RepeatEntries(Attempt(provider, model, Retry), e.retryMax);
    FallbackProofs.ChainEntries(Chain(e, model));
    assert forall i :: 0 <= i < |retries| ==> retries[i] in retries;
  }

  lemma ChainForgets(g: Gateway, e: Engine, w: World, chain: seq<Attempt>, r: nat, skip: bool, r1: nat, skip1: bool)
    requires OnlyChain(chain)
    ensures Walk(e, EffectsOf(g), w, chain, r, skip).outcome == Walk(e, EffectsOf(g), w, chain, r1, skip1).outcome
    decreases |chain|
  {
    if |chain| > 0 && g.cancelled(w).None? {
      ChainForgets(g, e, Send(g, w, "", chain[0].model).0, chain[1..], r, skip, r1, skip1);
    }
  }

  /** The walk goes on with the chain exactly where the attempts before it are exhausted. */
  lemma {:induction false} ChainFollows(
    g: Gateway, e: Engine, w: World, head: seq<Attempt>, chain: seq<Attempt>, retries: nat, skip: bool,
    provider: string, model: string)
    requires OnlyOn(head, provider, model) && OnlyChain(chain)
    ensures var x := Walk(e, EffectsOf(g), w, head, retries, skip);
            var y := Walk(e, EffectsOf(g), w, head + chain, retries, skip);
            if x.outcome.Returned? && x.outcome.level == Exhausted
            then y.outcome == Walk(e, EffectsOf(g), x.env, chain, 0, false).outcome
            else y.outcome == x.outcome
    decreases |head|
  {
    if |head| == 0 {
      assert head + chain == chain;
      ChainForgets(g, e, w, chain, retries, skip, 0, false);
    } else if g.cancelled(w).None? {
      var att, rest := head[0], head[1..];
      assert (head + chain)[0] == att && (head + chain)[1..] == rest + chain;
      var retry := att.level == Retry;
      if retry && skip {
        ChainFollows(g, e, w, rest, chain, retries, skip, provider, model);
      } else {
        var w0 := if retry then Wait(g, w, BackoffDuration(e, retries)).0 else w;
        var (w1, reply) := Send(g, w0, provider, model);
        if reply.Err? {
          ChainFollows(g, e, w1, rest, chain, if retry then retries + 1 else retries,
                       skip || (att.level == Primary && !g.retryable(reply.error)), provider, model);
        }
      }
    }
  }

  /** When every send on the pair fails, the attempts before the chain are exhausted, and keep what each keeps. */
  lemma {:induction false} FailingHead(
    inv: World -> bool, g: Gateway, e: Engine, w: World, head: seq<Attempt>, retries: nat, skip: bool,
    provider: string, model: string)
    requires NotCancelled(g) && OnlyOn(head, provider, model) && inv(w)
    requires forall v: World :: inv(v) ==> Send(g, v, provider, model).1.Err? && inv(Send(g, v, provider, model).0)
    requires forall v: World, d: int :: inv(v) ==> inv(Wait(g, v, d).0)
    ensures var x := Walk(e, EffectsOf(g), w, head, retries, skip);
            x.outcome == Returned(DefaultResponse(e), Exhausted) && inv(x.env)
    decreases |head|
  {
    assert g.cancelled(w) == None;
    if |head| > 0 {
      var att, rest := head[0], head[1..];
      var retry := att.level == Retry;
      if retry && skip {
        FailingHead(inv, g, e, w, rest, retries, skip, provider, model);
      } else {
        assert g.interrupted(w, BackoffDuration(e, retries)) == None;
        var w0 := if retry then Wait(g, w, BackoffDuration(e, retries)).0 else w;
        var (w1, reply) := Send(g, w0, provider, model);
        FailingHead(inv, g, e, w1, rest, if retry then retries + 1 else retries,
                    skip || (att.level == Primary && !g.retryable(reply.error)), provider, model);
      }
    }
  }

  lemma {:induction false} HeadReturns(g: Gateway, e: Engine, w: World, head: seq<Attempt>, retries: nat, skip: bool,
                                       provider: string, model: string)
    requires NotCancelled(g) && OnlyOn(head, provider, model)
    ensures var outcome := Walk(e, EffectsOf(g), w, head, retries, skip).outcome;
            outcome.Returned? && outcome.level != Fallback
    decreases |head|
  {
    assert g.cancelled(w) == None;
    if |head| > 0 {
      var att, rest := head[0], head[1..];
      var retry := att.level == Retry;
      if retry && skip {
        HeadReturns(g, e, w, rest, retries, skip, provider, model);
      } else {
        assert g.interrupted(w, BackoffDuration(e, retries)) == None;
        var w0 := if retry then Wait(g, w, BackoffDuration(e, retries)).0 else w;
        var (w1, reply) := Send(g, w0, provider, model);
        if reply.Err? {
          HeadReturns(g, e, w1, rest, if retry then retries + 1 else retries,
                      skip || (att.level == Primary && !g.retryable(reply.error)), provider, model);
        }
      }
    }
  }

  /** The providers answer every call of the empty name, and its breakers are closed. */
  ghost predicate EmptyNameReady(g: Gateway, w: World)
  {
    && (forall v: World, m: string :: g.respond(v, "", m).0.Ok?)
    && (forall m: string :: StateOf(w.breakers, Key("", m)).state != Open)
  }

  /** Primary and retries alone, without the chain. */
  ghost function HeadWalk(g: Gateway, e: Engine, w: World, provider: string, model: string): Execution<World>
  {
    Walk(e, EffectsOf(g), w, Head(e, provider, model), 0, false)
  }

  /**
   * The condition in full, for every requested provider: with a chain that is ready to be served where the
   * attempts before it end, the answer comes from the chain if and only if primary and retries have all failed
   * and a provider is registered under the empty name.
   */
  lemma FallbackIffEmptyName(g: Gateway, e: Engine, w: World, provider: string, model: string)
    requires NotCancelled(g) && Chain(e, model) != [] && EmptyNameReady(g, HeadWalk(g, e, w, provider, model).env)
    ensures var outcome := Executed(g, e, w, provider, model).outcome;
            var before := HeadWalk(g, e, w, provider, model).outcome;
            && outcome.Returned? && before.Returned?
            && (outcome.level == Fallback <==> before.level == Exhausted && "" in g.providers)
  {
    var head, chain := Head(e, provider, model), ChainAttempts(Chain(e, model));
    HeadAttempts(e, provider, model);
    HeadReturns(g, e, w, head, 0, false, provider, model);
    ChainFollows(g, e, w, head, chain, 0, false, provider, model);
    var x := HeadWalk(g, e, w, provider, model);
    assert g.cancelled(x.env) == None;
    if x.outcome.level == Exhausted {
      if "" in g.providers {
        ChainHeadServesIff(g, e, x.env, chain, 0, false);
      } else {
        ChainWithoutEmptyName(g, e, x.env, chain, 0, false);
      }
    }
  }

  /** A provider that does not exist leaves the chain as ready as it was. */
  lemma UnknownProviderFallsBackIff(g: Gateway, e: Engine, w: World, provider: string, model: string)
    requires NotCancelled(g) && provider !in g.providers && Chain(e, model) != [] && EmptyNameReady(g, w)
    ensures var outcome := Executed(g, e, w, provider, model).outcome;
            outcome.Returned? && (outcome.level == Fallback <==> "" in g.providers)
  {
    HeadAttempts(e, provider, model);
    FailingHead((v: World) => EmptyNameReady(g, v), g, e, w, Head(e, provider, model), 0, false, provider, model);
    FallbackIffEmptyName(g, e, w, provider, model);
  }

  /** And so does a registered one that fails every call, when its name is neither empty nor has a slash. */
  lemma FailingProviderFallsBackIff(g: Gateway, e: Engine, w: World, provider: string, model: string)
    requires NotCancelled(g) && provider != "" && '/' !in provider && Chain(e, model) != [] && EmptyNameReady(g, w)
    requires forall v: World :: g.respond(v, provider, model).0.Err?
    ensures var outcome := Executed(g, e, w, provider, model).outcome;
            outcome.Returned? && (outcome.level == Fallback <==> "" in g.providers)
  {
    HeadAttempts(e, provider, model);
    forall v: World | EmptyNameReady(g, v)
      ensures Send(g, v, provider, model).1.Err? && EmptyNameReady(g, Send(g, v, provider, model).0)
    {
      FailingSendKeepsReady(g, v, provider, model);
    }
    FailingHead((v: World) => EmptyNameReady(g, v), g, e, w, Head(e, provider, model), 0, false, provider, model);
    FallbackIffEmptyName(g, e, w, provider, model);
  }

  lemma FailingSendKeepsReady(g: Gateway, v: World, provider: string, model: string)
    requires provider != "" && '/' !in provider && EmptyNameReady(g, v)
            && g.respond(AskBreaker(g, v, provider, model).0, provider, model).0.Err?
    ensures Send(g, v, provider, model).1.Err? && EmptyNameReady(g, Send(g, v, provider, model).0)
  {
    forall m: string
      ensures Key("", m) != Key(provider, model)
    {
      if Key("", m) == Key(provider, model) {
        KeyInjective("", m, provider, model);
      }
    }
  }

  /** A gateway whose providers answer everything. */
  ghost function Obliging(providers: set<string>): Gateway
  {
    Gateway(5, 30, providers,
            (w: World, p: string, m: string) => (Ok(Response("id", m, p, "hello")), 0),
            (w: World, p: string, m: string) => (NotOpened(Error(PROVIDER_ERROR, "")), 0),
            (w: World) => None, (w: World, d: int) => None, (err: Error) => true)
  }

  /**
   * One input each way: the provider asked for is gone, the chain names a model that provider "openai" would
   * answer, and yet the default comes back; with a provider of the empty name the chain answers.
   */
  lemma ChainMissesItsProvider(e: Engine, w: World)
    requires e == Engine(map["a" := ["b"]], 2, 1, "sorry") && w == World(map[], 0, [], [])
    ensures var outcome := Executed(Obliging({"openai"}), e, w, "gone", "a").outcome;
            outcome.Returned? && outcome.level != Fallback
    ensures var outcome := Executed(Obliging({""}), e, w, "gone", "a").outcome;
            outcome.Returned? && outcome.level == Fallback
  {
    UnknownProviderFallsBackIff(Obliging({"openai"}), e, w, "gone", "a");
    UnknownProviderFallsBackIff(Obliging({""}), e, w, "gone", "a");
  }

  // ----- What enters the cache -----

  /** `r` comes from a successful provider call in the log at or after `from`. */
  ghost predicate ComesFromCall(log: seq<Audit>, from: nat, r: Response)
  {
    exists i :: from <= i < |log| && IsCallWith(log[i], r)
  }

  /** The provider's own answer, named after the provider called, and after the model asked for if it named none. */
  ghost predicate IsCallWith(a: Audit, r: Response)
  {
    && a.Called? && a.reply.Ok? && r.provider == a.provider
    && r.id == a.reply.response.id && r.content == a.reply.response.content
    && (if a.reply.response.model == "" then r.model == a.model else r.model == a.reply.response.model)
  }

  lemma SendReturnsCall(g: Gateway, w: World, provider: string, model: string)
    ensures var (w1, reply) := Send(g, w, provider, model);
            w.log <= w1.log && (reply.Ok? ==> ComesFromCall(w1.log, |w.log|, reply.response))
  {
    var (w1, reply) := Send(g, w, provider, model);
    if reply.Ok? {
      var a := w1.log[|w.log| + 1];
      assert IsCallWith(a, reply.response);
    }
  }

  lemma {:induction false} WalkReturnsCall(g: Gateway, e: Engine, w: World, plan: seq<Attempt>, retries: nat,
                                           skip: bool)
    requires forall i :: 0 <= i < |plan| ==> plan[i].level != Exhausted
    ensures var x := Walk(e, EffectsOf(g), w, plan, retries, skip);
            && w.log <= x.env.log
            && (x.outcome.Returned? && x.outcome.level != Exhausted ==>
                  ComesFromCall(x.env.log, |w.log|, x.outcome.response))
    decreases |plan|
  {
    if |plan| > 0 && g.cancelled(w).None? {
      var att, rest := plan[0], plan[1..];
      if att.level == Retry && skip {
        WalkReturnsCall(g, e, w, rest, retries, skip);
      } else {
        var retry := att.level == Retry;
        var w0 := if retry then Wait(g, w, BackoffDuration(e, retries)).0 else w;
        SendReturnsCall(g, w0, att.providerName, att.model);
        var (w1, reply) := Send(g, w0, att.providerName, att.model);
        if reply.Err? {
          var skip1 := skip || (att.level == Primary && !g.retryable(reply.error));
          var retries1 := if retry then retries + 1 else retries;
          WalkReturnsCall(g, e, w1, rest, retries1, skip1);
        }
      }
    }
  }

  /** The response as the service completes it. */
  ghost function Completed(r: Response, provider: string): Response
  {
    if r.provider == "" then r.(provider := provider) else r
  }

  /**
   * Only real provider responses enter the cache: a request hands at most one entry to it, namely the
   * answer it returns, and that answer is a provider's successful reply to a call of this very request.
   */
  lemma OnlyRealResponsesAreStored(
    g: Gateway, e: Engine, w: World, stream: bool, caching: bool, hit: Option<Response>, route: Route)
    ensures var (w1, answer) := HandleChatCompletion(g, e, w, stream, caching, hit, route);
            w1.stored == w.stored
            || (&& answer.Answered? && !answer.cacheHit && route.Routed?
                && w1.stored == w.stored + [answer.response]
                && exists r :: answer.response == Completed(r, route.provider) && ComesFromCall(w1.log, |w.log|, r))
  {
    if !stream && !(caching && hit.Some?) && route.Routed? {
      var (w1, ok) := AskBreaker(g, w, route.provider, route.model);
      if ok {
        var plan := Plan(e, route.provider, route.model);
        PlanLevels(e, route.provider, route.model);
        WalkReturnsCall(g, e, w1, plan, 0, false);
        WalkStoresNothing(g, e, w1, plan, 0, false);
        var x := Executed(g, e, w1, route.provider, route.model);
        if x.outcome.Returned? && x.outcome.level != Exhausted {
          WidenCall(x.env.log, |w1.log|, |w.log|, x.outcome.response);
        }
      }
    }
  }

  /** And without a cache nothing is stored. */
  lemma StoresOnlyWithCache(g: Gateway, e: Engine, w: World, stream: bool, caching: bool, hit: Option<Response>,
                            route: Route)
    requires !caching
    ensures HandleChatCompletion(g, e, w, stream, caching, hit, route).0.stored == w.stored
  {
    if !stream && route.Routed? {
      var (w1, ok) := AskBreaker(g, w, route.provider, route.model);
      WalkStoresNothing(g, e, w1, Plan(e, route.provider, route.model), 0, false);
    }
  }

  lemma WidenCall(log: seq<Audit>, from: nat, earlier: nat, r: Response)
    requires earlier <= from && ComesFromCall(log, from, r)
    ensures ComesFromCall(log, earlier, r)
  {
    var i :| from <= i < |log| && IsCallWith(log[i], r);
    assert IsCallWith(log[i], r);
  }

  lemma PlanLevels(e: Engine, provider: string, model: string)
    ensures forall i :: 0 <= i < |Plan(e, provider, model)| ==> Plan(e, provider, model)[i].level != Exhausted
  {
    var a, chain := Repeat(Attempt(provider, model, Retry), e.retryMax), ChainAttempts(Chain(e, model));
    FallbackProofs.RepeatEntries(Attempt(provider, model, Retry), e.retryMax);
    FallbackProofs.ChainEntries(Chain(e, model));
    assert forall i :: 0 <= i < |a| ==> a[i] in a;
  }

  lemma WalkStoresNothing(g: Gateway, e: Engine, w: World, plan: seq<Attempt>, retries: nat, skip: bool)
    ensures Walk(e, EffectsOf(g), w, plan, retries, skip).env.stored == w.stored
  {
    WalkKeeps((v: World) => v.stored == w.stored, g, e, w, plan, retries, skip);
  }
}

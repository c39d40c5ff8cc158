/**
 * Concurrent requests. The critical sections of all requests on the breakers, the provider replies and the
 * records come in any order; each request sees its own sends one after the other.
 */
module ServiceInterleavings {
  import opened GatewayModel
  import opened CircuitBreakers
  import opened BreakerManagers
  import opened FallbackEngine
  import opened ChatService
  import opened ChatServiceProofs

  /** Where a request stands: between sends, admitted by a breaker, or with a reply still to be recorded. */
  datatype Phase = Idle | Admitted(provider: string, model: string) | Replied(provider: string, model: string, ok: bool)

  /** The log of the world with the request behind every entry, and the phase of every request. */
  datatype Shared = Shared(world: World, owners: seq<nat>, phases: map<nat, Phase>)

  /** What a request does next, some time after the previous event of any request. */
  datatype Event =
    | AskEvent(id: nat, pause: nat, provider: string, model: string)
    | ReplyEvent(id: nat, pause: nat, reply: Reply)
    | RecordEvent(id: nat, pause: nat)
    | StreamEvent(id: nat, pause: nat, provider: string, model: string, ok: bool)

  ghost function PhaseOf(s: Shared, id: nat): Phase
  {
    if id in s.phases then s.phases[id] else Idle
  }

  /**
   * An admission need not be used, so a request may ask again or settle as a stream; it records a reply
   * before anything else.
   */
  ghost predicate Enabled(s: Shared, e: Event)
  {
    match e
    case AskEvent(id, _, _, _) => !PhaseOf(s, id).Replied?
    case ReplyEvent(id, _, _) => PhaseOf(s, id).Admitted?
    case RecordEvent(id, _) => PhaseOf(s, id).Replied?
    case StreamEvent(id, _, _, _, _) => !PhaseOf(s, id).Replied?
  }

  ghost function Later(w: World, pause: nat): World
  {
    w.(now := w.now + pause)
  }

  ghost function Step(g: Gateway, s: Shared, e: Event): Shared
  {
    if !Enabled(s, e) then s
    else
      var w, owners := Later(s.world, e.pause), s.owners + [e.id];
      match e
      case AskEvent(id, _, provider, model) =>
        var (w1, ok) := AskBreaker(g, w, provider, model);
        Shared(w1, owners, s.phases[id := if ok then Admitted(provider, model) else Idle])
      case ReplyEvent(id, _, reply) =>
        var p := PhaseOf(s, id);
        Shared(w.(log := w.log + [Called(p.provider, p.model, w.now, reply)]), owners,
               s.phases[id := Replied(p.provider, p.model, reply.Ok?)])
      case RecordEvent(id, _) =>
        var p := PhaseOf(s, id);
        Shared(RecordOutcome(g, w, p.provider, p.model, p.ok), owners, s.phases[id := Idle])
      case StreamEvent(id, _, provider, model, ok) =>
        Shared(RecordStream(g, w, provider, model, ok), owners, s.phases[id := Idle])
  }

  ghost function Run(g: Gateway, start: int, es: seq<Event>): Shared
  {
    if |es| == 0 then Shared(World(map[], start, [], []), [], map[])
    else Step(g, Run(g, start, es[..|es| - 1]), es[|es| - 1])
  }

  /** The entries of one request, in order. */
  ghost function Own(log: seq<Audit>, owners: seq<nat>, id: nat): seq<Audit>
    requires |log| == |owners|
  {
    var n := |log| - 1;
    if |log| == 0 then [] else Own(log[..n], owners[..n], id) + (if owners[n] == id then [log[n]] else [])
  }

  /** A request's own entries up to its open send, if there is one, are bracketed. */
  ghost predicate OwnIsBracketed(own: seq<Audit>, phase: Phase)
  {
    var n := |own|;
    match phase
    case Idle => Bracketed(own)
    case Admitted(provider, model) =>
      n > 0 && Bracketed(own[..n - 1]) && own[n - 1].Asked? && own[n - 1].ok && own[n - 1].key == Key(provider, model)
    case Replied(provider, model, ok) =>
      && n > 1 && Bracketed(own[..n - 2])
      && own[n - 2].Asked? && own[n - 2].ok && own[n - 2].key == Key(provider, model)
      && own[n - 1].Called? && own[n - 1].provider == provider && own[n - 1].model == model
        && own[n - 1].reply.Ok? == ok
  }

  ghost predicate AllBracketed(s: Shared)
  {
    |s.owners| == |s.world.log| && forall id: nat :: OwnIsBracketed(Own(s.world.log, s.owners, id), PhaseOf(s, id))
  }

  // ----- One event -----

  lemma OwnAppend(log: seq<Audit>, owners: seq<nat>, a: Audit, owner: nat, id: nat)
    requires |log| == |owners|
    ensures Own(log + [a], owners + [owner], id)
         == if owner == id then Own(log, owners, id) + [a] else Own(log, owners, id)
  {
    assert (log + [a])[..|log|] == log && (owners + [owner])[..|owners|] == owners;
    assert Own(log, owners, id) + [] == Own(log, owners, id);
  }

  lemma UnusedAskStays(own: seq<Audit>, phase: Phase)
    requires OwnIsBracketed(own, phase) && !phase.Replied?
    ensures Bracketed(own)
  {
  }

  lemma AskBrackets(own: seq<Audit>, phase: Phase, a: Audit, provider: string, model: string)
    requires OwnIsBracketed(own, phase) && !phase.Replied? && a.Asked? && a.key == Key(provider, model)
    ensures OwnIsBracketed(own + [a], if a.ok then Admitted(provider, model) else Idle)
  {
    UnusedAskStays(own, phase);
    assert (own + [a])[..|own|] == own;
  }

  lemma StreamBrackets(own: seq<Audit>, phase: Phase, a: Audit)
    requires OwnIsBracketed(own, phase) && !phase.Replied? && a.Streamed?
    ensures OwnIsBracketed(own + [a], Idle)
  {
    UnusedAskStays(own, phase);
    assert (own + [a])[..|own|] == own;
  }

  lemma ReplyBrackets(own: seq<Audit>, phase: Phase, a: Audit)
    requires OwnIsBracketed(own, phase) && phase.Admitted?
    requires a.Called? && a.provider == phase.provider && a.model == phase.model
    ensures OwnIsBracketed(own + [a], Replied(phase.provider, phase.model, a.reply.Ok?))
  {
    assert (own + [a])[..|own| - 1] == own[..|own| - 1];
  }

  lemma RecordBrackets(own: seq<Audit>, phase: Phase, a: Audit)
    requires OwnIsBracketed(own, phase) && phase.Replied?
    requires a.Recorded? && a.key == Key(phase.provider, phase.model) && a.ok == phase.ok
    ensures OwnIsBracketed(own + [a], Idle)
  {
    var n := |own|;
    assert own == own[..n - 2] + [own[n - 2]] + [own[n - 1]];
    BracketedAppend(own[..n - 2], own[n - 2], own[n - 1], a, own + [a]);
  }

  /** The entry an event adds, and the phase it leaves its request in. */
  ghost function Entry(g: Gateway, s: Shared, e: Event): (r: (Audit, Phase))
    requires Enabled(s, e)
  {
    var w := Later(s.world, e.pause);
    match e
    case AskEvent(_, _, provider, model) =>
      var ok := AskBreaker(g, w, provider, model).1;
      (Asked(Key(provider, model), w.now, ok), if ok then Admitted(provider, model) else Idle)
    case ReplyEvent(id, _, reply) =>
      var p := PhaseOf(s, id);
      (Called(p.provider, p.model, w.now, reply), Replied(p.provider, p.model, reply.Ok?))
    case RecordEvent(id, _) =>
      var p := PhaseOf(s, id);
      (Recorded(Key(p.provider, p.model), w.now, p.ok), Idle)
    case StreamEvent(_, _, provider, model, ok) => (Streamed(Key(provider, model), w.now, ok), Idle)
  }

  lemma StepEntry(g: Gateway, s: Shared, e: Event)
    requires Enabled(s, e)
    ensures var s1, (a, phase) := Step(g, s, e), Entry(g, s, e);
            s1.world.log == s.world.log + [a] && s1.owners == s.owners + [e.id] && s1.phases == s.phases[e.id := phase]
  {
  }

  lemma EntryBrackets(g: Gateway, s: Shared, e: Event, own: seq<Audit>)
    requires Enabled(s, e) && OwnIsBracketed(own, PhaseOf(s, e.id))
    ensures OwnIsBracketed(own + [Entry(g, s, e).0], Entry(g, s, e).1)
  {
    var a := Entry(g, s, e).0;
    match e
    case AskEvent(id, _, provider, model) => AskBrackets(own, PhaseOf(s, id), a, provider, model);
    case ReplyEvent(id, _, _) => ReplyBrackets(own, PhaseOf(s, id), a);
    case RecordEvent(id, _) => RecordBrackets(own, PhaseOf(s, id), a);
    case StreamEvent(id, _, _, _, _) => StreamBrackets(own, PhaseOf(s, id), a);
  }

  lemma StepBrackets(g: Gateway, s: Shared, e: Event)
    requires AllBracketed(s)
    ensures AllBracketed(Step(g, s, e))
  {
    if Enabled(s, e) {
      var s1, a := Step(g, s, e), Entry(g, s, e).0;
      StepEntry(g, s, e);
      forall id: nat
        ensures OwnIsBracketed(Own(s1.world.log, s1.owners, id), PhaseOf(s1, id))
      {
        OwnAppend(s.world.log, s.owners, a, e.id, id);
        assert OwnIsBracketed(Own(s.world.log, s.owners, id), PhaseOf(s, id));
        if id == e.id {
          EntryBrackets(g, s, e, Own(s.world.log, s.owners, id));
        }
      }
    }
  }

  lemma ReplyIsRuled(g: Gateway, w: World, a: Audit, w1: World)
    requires Ruled(g, w) && a.Called? && a.at == w.now && w1 == w.(log := w.log + [a])
    ensures Ruled(g, w1)
  {
    CallsAppend(w.log, a);
    assert Calls(w.log) + [] == Calls(w.log);
    PlainAppend(g, w.log, w.now, a, w.now);
  }

  lemma LaterIsRuled(g: Gateway, w: World, pause: nat)
    requires Ruled(g, w)
    ensures Ruled(g, Later(w, pause))
  {
  }

  lemma StepIsRuled(g: Gateway, s: Shared, e: Event)
    requires Ruled(g, s.world)
    ensures Ruled(g, Step(g, s, e).world)
  {
    hide Ruled;
    if Enabled(s, e) {
      var w := Later(s.world, e.pause);
      LaterIsRuled(g, s.world, e.pause);
      match e
      case AskEvent(_, _, provider, model) => AskIsRuled(g, w, Key(provider, model), Step(g, s, e).world);
      case ReplyEvent(_, _, _) => ReplyIsRuled(g, w, Entry(g, s, e).0, Step(g, s, e).world);
      case RecordEvent(id, _) =>
        var key, ok := Key(PhaseOf(s, id).provider, PhaseOf(s, id).model), PhaseOf(s, id).ok;
        OutcomeIsRuled(g, w, key, ok, Recorded(key, w.now, ok));
      case StreamEvent(_, _, provider, model, ok) =>
        var key := Key(provider, model);
        OutcomeIsRuled(g, w, key, ok, Streamed(key, w.now, ok));
    }
  }

  // ----- Every interleaving -----

  /**
   * However the requests interleave: the breakers are the manager's run on the log, every answer is the
   * two-variable rule on its key's history with everybody's outcomes in it, and within each request every
   * provider call sits between its admission and its one record.
   */
  lemma {:induction false} EveryInterleavingIsSound(g: Gateway, start: int, es: seq<Event>)
    ensures Ruled(g, Run(g, start, es).world) && AllBracketed(Run(g, start, es))
  {
    if |es| > 0 {
      EveryInterleavingIsSound(g, start, es[..|es| - 1]);
      StepIsRuled(g, Run(g, start, es[..|es| - 1]), es[|es| - 1]);
      StepBrackets(g, Run(g, start, es[..|es| - 1]), es[|es| - 1]);
    }
  }

  /**
   * Entry by entry: a call of an idle request directly follows its own admission and is directly followed by
   * its record.
   */
  lemma EveryOwnCallIsBracketed(g: Gateway, start: int, es: seq<Event>, id: nat, i: nat, s: Shared, own: seq<Audit>)
    requires s == Run(g, start, es) && PhaseOf(s, id).Idle? && |s.owners| == |s.world.log|
    requires own == Own(s.world.log, s.owners, id) && i < |own| && own[i].Called?
    ensures CallIsBracketed(own, i)
  {
    EveryInterleavingIsSound(g, start, es);
    assert OwnIsBracketed(Own(s.world.log, s.owners, id), PhaseOf(s, id));
    EveryCallIsBracketed(own, i);
  }

  // ----- What an admission is worth when others interfere -----

  ghost predicate NoFailure(es: seq<CircuitBreakers.Event>)
  {
    forall i :: 0 <= i < |es| ==> !es[i].Failure?
  }

  /** Asks and successes never take an admission back. */
  lemma {:induction false} AdmissionSurvives(
    threshold: int, cooldown: int, es: seq<CircuitBreakers.Event>, more: seq<CircuitBreakers.Event>, t: int, u: int)
    requires MayCall(threshold, cooldown, es, t) && NoFailure(more) && t <= u
    ensures MayCall(threshold, cooldown, es + more, u)
  {
    if |more| == 0 {
      assert es + more == es;
    } else {
      AdmissionSurvives(threshold, cooldown, es, more[..|more| - 1], t, u);
      assert (es + more)[..|es + more| - 1] == es + more[..|more| - 1];
    }
  }

  ghost predicate FailsKey(a: Audit, key: string)
  {
    (a.Recorded? || a.Streamed?) && a.key == key && !a.ok
  }

  /** What an entry adds to the history of a key. */
  ghost function EventsOf(a: Audit, key: string): seq<CircuitBreakers.Event>
  {
    For(CallOf(a), key)
  }

  lemma ForAppend(calls: seq<Call>, c: Call, key: string)
    ensures For(calls + [c], key) == For(calls, key) + (if c.key == key then [c.event] else [])
    ensures For([c], key) == if c.key == key then [c.event] else []
  {
    assert (calls + [c])[..|calls|] == calls && [c][..0] == [];
  }

  lemma HistoryNext(log: seq<Audit>, a: Audit, key: string)
    ensures For(Calls(log + [a]), key) == For(Calls(log), key) + EventsOf(a, key)
    ensures !FailsKey(a, key) ==> NoFailure(EventsOf(a, key))
  {
    hide Calls;
    hide For;
    CallsAppend(log, a);
    if a.Called? {
      assert Calls(log) + [] == Calls(log) && For(Calls(log), key) + [] == For(Calls(log), key);
      NoCallsNoEvents(key);
    } else {
      ForAppend(Calls(log), CallOf(a)[0], key);
    }
  }

  lemma NoCallsNoEvents(key: string)
    ensures For([], key) == []
  {
  }

  lemma {:induction false} HistoryGrows(log: seq<Audit>, i: nat, j: nat, key: string)
    returns (more: seq<CircuitBreakers.Event>)
    requires i <= j <= |log|
    ensures For(Calls(log[..j]), key) == For(Calls(log[..i]), key) + more
    ensures (forall n :: i <= n < j ==> !FailsKey(log[n], key)) ==> NoFailure(more)
  {
    hide For;
    hide Calls;
    hide EventsOf;
    hide FailsKey;
    var start := For(Calls(log[..i]), key);
    more := [];
    if i == j {
      assert start + [] == start;
    } else {
      var a := log[j - 1];
      var less := HistoryGrows(log, i, j - 1, key);
      assert log[..j] == log[..j - 1] + [a];
      HistoryNext(log[..j - 1], a, key);
      more := less + EventsOf(a, key);
      assert start + less + EventsOf(a, key) == start + more;
    }
  }

  lemma {:induction false} LogIsInOrder(log: seq<Audit>, now: int, i: nat, j: nat)
    requires InOrder(log, now) && i <= j < |log|
    ensures log[i].at <= log[j].at <= now
  {
    var n := |log| - 1;
    if j < n {
      LogIsInOrder(log[..n], log[n].at, i, j);
    } else if i < n {
      LogIsInOrder(log[..n], log[n].at, i, n - 1);
    }
  }

  /**
   * In every interleaving a key that has admitted one request admits every later one, the first request's own
   * primary attempt among them, unless somebody records a failure on that key in between.
   */
  lemma RefusalNeedsFailure(g: Gateway, w: World, i: nat, j: nat)
    requires Ruled(g, w) && i <= j < |w.log| && w.log[i].Asked? && w.log[j].Asked? && w.log[i].key == w.log[j].key
    requires w.log[i].ok && !w.log[j].ok
    ensures exists n :: i < n < j && FailsKey(w.log[n], w.log[i].key)
  {
    var key := w.log[i].key;
    if forall n :: i <= n < j ==> !FailsKey(w.log[n], key) {
      EveryAnswerFollowsRule(g, w.log, i);
      EveryAnswerFollowsRule(g, w.log, j);
      LogIsInOrder(w.log, w.now, i, j);
      var more := HistoryGrows(w.log, i, j, key);
      AdmissionSurvives(g.threshold, g.cooldown, For(Calls(w.log[..i]), key), more, w.log[i].at, w.log[j].at);
      assert false;
    } else {
      var n :| i <= n < j && FailsKey(w.log[n], key);
      assert n != i;
    }
  }

  /**
   * And such a failure can do it: with threshold 1, two requests are admitted, one fails, and the other's
   * attempt is refused.
   */
  lemma AdmittedThenRefused(g: Gateway, error: Error)
    requires g.threshold == 1 && g.cooldown > 0
    ensures exists es, s :: s == Run(g, 0, es) && |s.world.log| == 5
                            && s.owners == [1, 2, 2, 2, 1] && s.world.log[0].Asked? && s.world.log[0].ok
                            && s.world.log[4].Asked? && !s.world.log[4].ok && s.world.log[4].key == s.world.log[0].key
  {
    hide Run;
    var es := [] + [AskEvent(1, 0, "p", "m")] + [AskEvent(2, 0, "p", "m")] + [ReplyEvent(2, 0, Err(error))];
    var s3 := ReplyPending(g, error);
    var s4 := RunNext(g, es, RecordEvent(2, 0), s3);
    var s5 := RunNext(g, es + [RecordEvent(2, 0)], AskEvent(1, 0, "p", "m"), s4);
    assert s5 == Run(g, 0, es + [RecordEvent(2, 0)] + [AskEvent(1, 0, "p", "m")]);
  }

  lemma ReplyPending(g: Gateway, error: Error) returns (s: Shared)
    requires g.threshold == 1 && g.cooldown > 0
    ensures s
            == Run(g, 0, [] + [AskEvent(1, 0, "p", "m")] + [AskEvent(2, 0, "p", "m")] + [ReplyEvent(2, 0, Err(error))])
    ensures |s.world.log| == 3 && s.owners == [1, 2, 2] && s.world.now == 0
    ensures StateOf(s.world.breakers, Key("p", "m")) == FRESH
    ensures s.world.log[0] == Asked(Key("p", "m"), 0, true)
    ensures s.phases == map[1 := Admitted("p", "m"), 2 := Replied("p", "m", false)]
  {
    assert Run(g, 0, []) == Shared(World(map[], 0, [], []), [], map[]);
    hide Run;
    s := RunNext(g, [], AskEvent(1, 0, "p", "m"), Shared(World(map[], 0, [], []), [], map[]));
    s := RunNext(g, [] + [AskEvent(1, 0, "p", "m")], AskEvent(2, 0, "p", "m"), s);
    s := RunNext(g, [] + [AskEvent(1, 0, "p", "m")] + [AskEvent(2, 0, "p", "m")], ReplyEvent(2, 0, Err(error)), s);
  }

  lemma RunNext(g: Gateway, es: seq<Event>, e: Event, s: Shared) returns (s1: Shared)
    requires s == Run(g, 0, es)
    ensures s1 == Run(g, 0, es + [e]) && s1 == Step(g, s, e)
  {
    s1 := Step(g, s, e);
    assert (es + [e])[..|es|] == es;
  }

  // ----- The events are those of the service -----

  ghost function RunFrom(g: Gateway, s: Shared, es: seq<Event>): Shared
    decreases |es|
  {
    if |es| == 0 then s else RunFrom(g, Step(g, s, es[0]), es[1..])
  }

  /** Events of one request, each enabled when it comes. */
  ghost predicate Performs(g: Gateway, s: Shared, es: seq<Event>, id: nat)
    decreases |es|
  {
    |es| == 0 || (es[0].id == id && Enabled(s, es[0]) && Performs(g, Step(g, s, es[0]), es[1..], id))
  }

  /** By these events the request `id` gets from `s` to the world `end`, but for a last pause. */
  ghost predicate Performed(g: Gateway, s: Shared, es: seq<Event>, id: nat, pause: nat, end: World)
  {
    && Performs(g, s, es, id) && !PhaseOf(RunFrom(g, s, es), id).Replied?
    && end == Later(RunFrom(g, s, es).world, pause)
  }

  lemma PerformsOne(g: Gateway, s: Shared, e: Event)
    requires Enabled(s, e)
    ensures Performs(g, s, [e], e.id) && RunFrom(g, s, [e]) == Step(g, s, e)
  {
    assert [e][1..] == [];
    assert RunFrom(g, Step(g, s, e), []) == Step(g, s, e);
  }

  lemma {:induction false} PerformsThen(g: Gateway, s: Shared, es: seq<Event>, more: seq<Event>, id: nat)
    requires Performs(g, s, es, id) && Performs(g, RunFrom(g, s, es), more, id)
    ensures Performs(g, s, es + more, id) && RunFrom(g, s, es + more) == RunFrom(g, RunFrom(g, s, es), more)
    decreases |es|
  {
    if |es| == 0 {
      assert es + more == more;
    } else {
      PerformsThen(g, Step(g, s, es[0]), es[1..], more, id);
      assert (es + more)[0] == es[0] && (es + more)[1..] == es[1..] + more;
    }
  }

  /** One event, then others. */
  lemma PerformsNext(g: Gateway, s: Shared, e: Event, more: seq<Event>)
    requires Enabled(s, e) && Performs(g, Step(g, s, e), more, e.id)
    ensures Performs(g, s, [e] + more, e.id) && RunFrom(g, s, [e] + more) == RunFrom(g, Step(g, s, e), more)
  {
    assert ([e] + more)[1..] == more;
  }

  /** A send of the service is an ask, and after a yes a reply and its record, by the same request. */
  lemma SendIsEvents(g: Gateway, s: Shared, id: nat, pause: nat, provider: string, model: string)
    returns (es: seq<Event>, rest: nat)
    requires !PhaseOf(s, id).Replied?
    ensures Performed(g, s, es, id, rest, Send(g, Later(s.world, pause), provider, model).0)
  {
    es, rest := [], pause;
    if provider in g.providers {
      var w := Later(s.world, pause);
      var (w1, ok) := AskBreaker(g, w, provider, model);
      var ask := AskEvent(id, pause, provider, model);
      var s1 := Step(g, s, ask);
      assert s1.world == w1;
      PerformsOne(g, s, ask);
      es, rest := [ask], 0;
      if ok {
        var (reply, took) := g.respond(w1, provider, model);
        var more := AnswerIsEvents(g, s, s1, ask, id, provider, model, reply, took);
        es := [ask] + more;
      }
    }
  }

  lemma AnswerIsEvents(g: Gateway, s: Shared, s1: Shared, ask: Event, id: nat, provider: string, model: string,
                       reply: Reply, took: nat)
    returns (more: seq<Event>)
    requires Enabled(s, ask) && ask.id == id && s1 == Step(g, s, ask) && PhaseOf(s1, id) == Admitted(provider, model)
    requires (reply, took) == g.respond(s1.world, provider, model)
    ensures Performed(g, s, [ask] + more, id, 0,
                      RecordOutcome(g, CallProvider(g, s1.world, provider, model).0, provider, model, reply.Ok?))
  {
    var answer, record := ReplyEvent(id, took, reply), RecordEvent(id, 0);
    var s2 := Step(g, s1, answer);
    var s3 := Step(g, s2, record);
    assert s2.world == CallProvider(g, s1.world, provider, model).0;
    more := [answer] + [record];
    PerformsOne(g, s2, record);
    PerformsNext(g, s1, answer, [record]);
    PerformsNext(g, s, ask, more);
  }

  /** So is a whole walk of the engine, with its waits as pauses. */
  lemma {:induction false} WalkIsEvents(g: Gateway, e: Engine, s: Shared, id: nat, pause: nat,
                                        plan: seq<Attempt>, retries: nat, skip: bool)
    returns (es: seq<Event>, rest: nat)
    requires !PhaseOf(s, id).Replied?
    ensures Performed(g, s, es, id, rest, Walk(e, EffectsOf(g), Later(s.world, pause), plan, retries, skip).env)
    decreases |plan|, 0
  {
    es, rest := [], pause;
    var w := Later(s.world, pause);
    if |plan| > 0 && g.cancelled(w).None? {
      var att := plan[0];
      if att.level == Retry && skip {
        es, rest := WalkIsEvents(g, e, s, id, pause, plan[1..], retries, skip);
      } else if att.level == Retry && g.interrupted(w, BackoffDuration(e, retries)).None? {
        var d := BackoffDuration(e, retries);
        var later := if d >= 0 then pause + d else pause;
        es, rest := AttemptIsEvents(g, e, s, id, later, att, plan[1..], retries + 1, skip);
      } else if att.level != Retry {
        es, rest := AttemptIsEvents(g, e, s, id, pause, att, plan[1..], retries, skip);
      }
    }
  }

  lemma {:induction false} AttemptIsEvents(g: Gateway, e: Engine, s: Shared, id: nat, pause: nat,
                                           att: Attempt, plan: seq<Attempt>, retries: nat, skip: bool)
    returns (es: seq<Event>, rest: nat)
    requires !PhaseOf(s, id).Replied?
    ensures Performed(g, s, es, id, rest,
                      WalkSend(e, EffectsOf(g), Later(s.world, pause), att, plan, retries, skip).env)
    decreases |plan|, 1
  {
    es, rest := SendIsEvents(g, s, id, pause, att.providerName, att.model);
    var (w1, reply) := Send(g, Later(s.world, pause), att.providerName, att.model);
    if reply.Err? {
      var s1 := RunFrom(g, s, es);
      assert w1 == Later(s1.world, rest);
      var more;
      var skip1 := skip || (att.level == Primary && !g.retryable(reply.error));
      more, rest := WalkIsEvents(g, e, s1, id, rest, plan, retries, skip1);
      PerformsThen(g, s, es, more, id);
      es := es + more;
    }
  }

  /** And so is a whole chat request, up to the entry it hands to the cache. */
  lemma ChatIsEvents(g: Gateway, e: Engine, s: Shared, id: nat, pause: nat, stream: bool, caching: bool,
                     hit: Option<Response>, route: Route, end: World)
    returns (es: seq<Event>, rest: nat)
    requires !PhaseOf(s, id).Replied?
    requires end == HandleChatCompletion(g, e, Later(s.world, pause), stream, caching, hit, route).0
    ensures Performed(g, s, es, id, rest, end.(stored := s.world.stored))
  {
    es, rest := [], pause;
    var w := Later(s.world, pause);
    if !stream && !(caching && hit.Some?) && route.Routed? {
      var ask := AskEvent(id, pause, route.provider, route.model);
      var (w1, ok) := AskBreaker(g, w, route.provider, route.model);
      var s1 := Step(g, s, ask);
      assert s1.world == w1 == Later(s1.world, 0);
      PerformsOne(g, s, ask);
      es, rest := [ask], 0;
      if ok {
        var plan := Plan(e, route.provider, route.model);
        var more;
        more, rest := WalkIsEvents(g, e, s1, id, 0, plan, 0, false);
        WalkStoresNothing(g, e, w1, plan, 0, false);
        PerformsNext(g, s, ask, more);
        es := [ask] + more;
      }
    }
  }
}

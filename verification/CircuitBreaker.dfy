/**
 * The three-state circuit breaker, and the two-variable rule it implements: count failures since
 * the last success, remember the time of the last failure.
 */
module CircuitBreakers {

  datatype CircuitState = Closed | Open | HalfOpen

  datatype BreakerState = BreakerState(failures: nat, state: CircuitState, openedAt: int)

  const FRESH := BreakerState(0, Closed, 0)

  /** What Allow answers at time `now`, and the state it leaves. */
  function Allowed(b: BreakerState, cooldown: int, now: int): (r: (BreakerState, bool))
  {
    if b.state == Open && now - b.openedAt >= cooldown then (b.(state := HalfOpen), true)
    else (b, b.state != Open)
  }

  function Succeeded(b: BreakerState): BreakerState
  {
    b.(failures := 0, state := Closed)
  }

  function Failed(b: BreakerState, threshold: int, now: int): BreakerState
  {
    if b.failures + 1 >= threshold then BreakerState(b.failures + 1, Open, now)
    else b.(failures := b.failures + 1)
  }

  /** Time is read from a clock and passed in; each call runs under the breaker's lock. */
  class CircuitBreaker {
    const threshold: int
    const cooldown: int
    var failures: nat
    var state: CircuitState
    var openedAt: int

    function State(): BreakerState
      reads this
    {
      BreakerState(failures, state, openedAt)
    }

    constructor (threshold: int, cooldown: int)
      ensures this.threshold == threshold && this.cooldown == cooldown
      ensures State() == FRESH
    {
      this.threshold, this.cooldown := threshold, cooldown;
      failures, state, openedAt := 0, Closed, 0;
    }

    method Allow(now: int) returns (ok: bool)
      modifies this
      ensures (State(), ok) == Allowed(old(State()), cooldown, now)
    {
      if state == Open && now - openedAt >= cooldown {
        state := HalfOpen;
        return true;
      }
      return state != Open;
    }

    method RecordSuccess()
      modifies this
      ensures State() == Succeeded(old(State()))
    {
      failures := 0;
      state := Closed;
    }

    method RecordFailure(now: int)
      modifies this
      ensures State() == Failed(old(State()), threshold, now)
    {
      failures := failures + 1;
      if failures >= threshold {
        state := Open;
        openedAt := now;
      }
    }
  }

  // ----- Traces -----

  datatype Event = Ask(at: int) | Success(at: int) | Failure(at: int)

  ghost predicate Chronological(es: seq<Event>)
  {
    forall i, j :: 0 <= i < j < |es| ==> es[i].at <= es[j].at
  }

  ghost function After(b: BreakerState, threshold: int, cooldown: int, e: Event): BreakerState
  {
    match e
    case Ask(at) => Allowed(b, cooldown, at).0
    case Success(_) => Succeeded(b)
    case Failure(at) => Failed(b, threshold, at)
  }

  ghost function Run(threshold: int, cooldown: int, es: seq<Event>): BreakerState
  {
    if |es| == 0 then FRESH
    else After(Run(threshold, cooldown, es[..|es| - 1]), threshold, cooldown, es[|es| - 1])
  }

  /** Failures since the last success. */
  ghost function Streak(es: seq<Event>): nat
  {
    if |es| == 0 then 0
    else
      match es[|es| - 1]
      case Ask(_) => Streak(es[..|es| - 1])
      case Success(_) => 0
      case Failure(_) => Streak(es[..|es| - 1]) + 1
  }

  /** The time of the last failure, if there was one. */
  ghost function LastFailure(es: seq<Event>): int
  {
    if |es| == 0 then 0
    else if es[|es| - 1].Failure? then es[|es| - 1].at
    else LastFailure(es[..|es| - 1])
  }

  /** A threshold below one acts as one: the breaker is checked only when a failure arrives. */
  function Trip(threshold: int): nat
  {
    if threshold < 1 then 1 else threshold
  }

  /** The two-variable rule. */
  ghost predicate MayCall(threshold: int, cooldown: int, es: seq<Event>, now: int)
  {
    Streak(es) < Trip(threshold) || now - LastFailure(es) >= cooldown
  }

  lemma {:induction false} RunInvariant(threshold: int, cooldown: int, es: seq<Event>)
    requires Chronological(es)
    ensures var b := Run(threshold, cooldown, es);
            && b.failures == Streak(es)
            && (b.state == Closed <==> Streak(es) < Trip(threshold))
            && (b.state != Closed ==> b.openedAt == LastFailure(es))
            && (b.state == HalfOpen ==> |es| > 0 && es[|es| - 1].at - LastFailure(es) >= cooldown)
  {
    if |es| > 0 {
      var init := es[..|es| - 1];
      RunInvariant(threshold, cooldown, init);
      assert |init| > 0 ==> init[|init| - 1].at <= es[|es| - 1].at;
    }
  }

  /**
   * The breaker's answer is the two-variable rule, for every threshold, cooldown and trace with a
   * non-decreasing clock.
   */
  lemma AllowIsRule(threshold: int, cooldown: int, es: seq<Event>, now: int)
    requires Chronological(es + [Ask(now)])
    ensures Allowed(Run(threshold, cooldown, es), cooldown, now).1 <==> MayCall(threshold, cooldown, es, now)
  {
    var all := es + [Ask(now)];
    assert forall i :: 0 <= i < |es| ==> es[i] == all[i];
    if |es| > 0 {
      assert all[|es| - 1].at <= all[|es|].at;
    }
    RunInvariant(threshold, cooldown, es);
  }

  /** Without new events an admission stays valid as time passes. */
  lemma AdmissionIsStable(threshold: int, cooldown: int, es: seq<Event>, t: int, u: int)
    requires Chronological(es + [Ask(t)]) && t <= u
    requires Allowed(Run(threshold, cooldown, es), cooldown, t).1
    ensures Allowed(Run(threshold, cooldown, es + [Ask(t)]), cooldown, u).1
  {
    assert (es + [Ask(t)])[..|es|] == es;
  }

  // ----- Half-Open can be erased -----

  /** The breaker with only a failure count and the time of the last failure. */
  datatype Simple = Simple(failures: nat, lastFailure: int)

  ghost function SimpleAfter(s: Simple, e: Event): Simple
  {
    match e
    case Ask(_) => s
    case Success(_) => s.(failures := 0)
    case Failure(at) => Simple(s.failures + 1, at)
  }

  ghost predicate SimpleAllows(s: Simple, threshold: int, cooldown: int, now: int)
  {
    s.failures < Trip(threshold) || now - s.lastFailure >= cooldown
  }

  ghost function SimpleRun(es: seq<Event>): Simple
  {
    if |es| == 0 then Simple(0, 0) else SimpleAfter(SimpleRun(es[..|es| - 1]), es[|es| - 1])
  }

  /** The answers given to the Ask events of a trace, oldest first. */
  ghost function Answers(threshold: int, cooldown: int, es: seq<Event>): seq<bool>
  {
    if |es| == 0 then []
    else
      var init, last := es[..|es| - 1], es[|es| - 1];
      Answers(threshold, cooldown, init)
      + (if last.Ask? then [Allowed(Run(threshold, cooldown, init), cooldown, last.at).1] else [])
  }

  ghost function SimpleAnswers(threshold: int, cooldown: int, es: seq<Event>): seq<bool>
  {
    if |es| == 0 then []
    else
      var init, last := es[..|es| - 1], es[|es| - 1];
      SimpleAnswers(threshold, cooldown, init)
      + (if last.Ask? then [SimpleAllows(SimpleRun(init), threshold, cooldown, last.at)] else [])
  }

  lemma {:induction false} SimpleRunCounts(es: seq<Event>)
    ensures SimpleRun(es) == Simple(Streak(es), LastFailure(es))
  {
    if |es| > 0 {
      SimpleRunCounts(es[..|es| - 1]);
    }
  }

  /** Both machines give the same answers on every trace. */
  lemma {:induction false} HalfOpenIsErasable(threshold: int, cooldown: int, es: seq<Event>)
    requires Chronological(es)
    ensures Answers(threshold, cooldown, es) == SimpleAnswers(threshold, cooldown, es)
  {
    if |es| > 0 {
      var init, last := es[..|es| - 1], es[|es| - 1];
      HalfOpenIsErasable(threshold, cooldown, init);
      if last.Ask? {
        assert init + [last] == es;
        AllowIsRule(threshold, cooldown, init, last.at);
        SimpleRunCounts(init);
      }
    }
  }
}

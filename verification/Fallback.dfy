/**
 * The fallback engine: the plan of attempts and the loop that walks it. Sending, waiting and
 * cancellation act on an environment `E` that the caller chooses.
 */
module FallbackEngine {
  import opened GatewayModel

  datatype Level = Primary | Retry | Fallback | Exhausted

  datatype Attempt = Attempt(providerName: string, model: string, level: Level)

  /** Durations are in nanoseconds. */
  datatype Engine = Engine(chains: map<string, seq<string>>, retryMax: int, retryBackoff: int, defaultMsg: string)

  const DEFAULT_RETRY_MAX := 2
  const DEFAULT_RETRY_BACKOFF := 1_000_000_000
  const DEFAULT_MESSAGE := "所有模型服务暂时不可用，请稍后重试。"

  function NewEngine(chains: map<string, seq<string>>, retryMax: int, retryBackoff: int, defaultMsg: string)
    : (e: Engine)
    ensures e.retryMax > 0 && e.retryBackoff > 0 && e.defaultMsg != ""
  {
    Engine(
      chains,
      if retryMax <= 0 then DEFAULT_RETRY_MAX else retryMax,
      if retryBackoff <= 0 then DEFAULT_RETRY_BACKOFF else retryBackoff,
      if defaultMsg == "" then DEFAULT_MESSAGE else defaultMsg)
  }

  function Chain(e: Engine, model: string): seq<string>
  {
    if model in e.chains then e.chains[model] else []
  }

  function DefaultResponse(e: Engine): Response
  {
    Response("", "", "", e.defaultMsg)
  }

  function Pow2(n: nat): nat
  {
    if n == 0 then 1 else 2 * Pow2(n - 1)
  }

  function BackoffDuration(e: Engine, attempt: nat): int
  {
    e.retryBackoff * Pow2(attempt)
  }

  // ----- The plan -----

  function Repeat(a: Attempt, n: int): (s: seq<Attempt>)
  {
    if n <= 0 then [] else Repeat(a, n - 1) + [a]
  }

  function ChainAttempts(models: seq<string>): (s: seq<Attempt>)
  {
    if |models| == 0 then []
    else ChainAttempts(models[..|models| - 1]) + [Attempt("", models[|models| - 1], Fallback)]
  }

  /** Primary first, then the retries, then the chain. */
  function Plan(e: Engine, provider: string, model: string): seq<Attempt>
  {
    [Attempt(provider, model, Primary)]
    + Repeat(Attempt(provider, model, Retry), e.retryMax)
    + ChainAttempts(Chain(e, model))
  }

  method Attempts(e: Engine, provider: string, model: string) returns (out: seq<Attempt>)
    ensures out == Plan(e, provider, model)
  {
    out := [Attempt(provider, model, Primary)];
    ghost var head := out;
    for i := 0 to if e.retryMax < 0 then 0 else e.retryMax
      invariant out == head + Repeat(Attempt(provider, model, Retry), i)
    {
      out := out + [Attempt(provider, model, Retry)];
    }
    head := out;
    var chain := Chain(e, model);
    for i := 0 to |chain|
      invariant out == head + ChainAttempts(chain[..i])
    {
      assert chain[..i + 1][..i] == chain[..i];
      out := out + [Attempt("", chain[i], Fallback)];
    }
    assert chain[..|chain|] == chain;
  }

  // ----- Execute -----

  /** What the engine may do to its environment, and how it reads an error. */
  datatype Effects<!E> = Effects(
    send: (E, string, string) -> (E, Reply),
    wait: (E, int) -> (E, Option<Error>),
    cancelled: E -> Option<Error>,
    retryable: Error -> bool)

  datatype Outcome = Returned(response: Response, level: Level) | Aborted(error: Error)

  datatype Entry = Waited(duration: int) | Sent(attempt: Attempt, reply: Reply)

  datatype Execution<E> = Execution(env: E, outcome: Outcome, log: seq<Entry>)

  /** The walk over the remaining plan, after `retries` retries and with the skip flag as given. */
  function Walk<E>(e: Engine, fx: Effects<E>, env: E, plan: seq<Attempt>, retries: nat, skip: bool): (x: Execution<E>)
    decreases |plan|, 0
  {
    if |plan| == 0 then Execution(env, Returned(DefaultResponse(e), Exhausted), [])
    else if fx.cancelled(env).Some? then Execution(env, Aborted(fx.cancelled(env).value), [])
    else
      var att, rest := plan[0], plan[1..];
      if att.level == Retry then
        if skip then Walk(e, fx, env, rest, retries, skip)
        else
          var d := BackoffDuration(e, retries);
          var (env1, stop) := fx.wait(env, d);
          if stop.Some? then Execution(env1, Aborted(stop.value), [])
          else Prepend([Waited(d)], WalkSend(e, fx, env1, att, rest, retries + 1, skip))
      else WalkSend(e, fx, env, att, rest, retries, skip)
  }

  function WalkSend<E>(e: Engine, fx: Effects<E>, env: E, att: Attempt, rest: seq<Attempt>, retries: nat, skip: bool)
    : (x: Execution<E>)
    decreases |rest|, 1
  {
    var (env1, reply) := fx.send(env, att.providerName, att.model);
    match reply
    case Ok(response) => Execution(env1, Returned(response, att.level), [Sent(att, reply)])
    case Err(error) =>
      var skip1 := skip || (att.level == Primary && !fx.retryable(error));
      Prepend([Sent(att, reply)], Walk(e, fx, env1, rest, retries, skip1))
  }

  function Prepend<E>(log: seq<Entry>, x: Execution<E>): Execution<E>
  {
    x.(log := log + x.log)
  }

  lemma PrependTwice<E>(a: seq<Entry>, b: seq<Entry>, x: Execution<E>)
    ensures Prepend(a, Prepend(b, x)) == Prepend(a + b, x)
  {
    assert a + (b + x.log) == (a + b) + x.log;
  }

  /** The engine's loop. `None` stands for a nil send function. */
  method Execute<E>(e: Engine, fx: Option<Effects<E>>, env: E, provider: string, model: string)
    returns (end: E, outcome: Outcome, ghost log: seq<Entry>)
    ensures fx.None? ==> end == env && outcome == Aborted(Error(INTERNAL_ERROR, "send function is nil"))
    ensures fx.Some? ==>
              var x := Walk(e, fx.value, env, Plan(e, provider, model), 0, false); end == x.env && outcome == x.outcome
    ensures log == if fx.None? then [] else Walk(e, fx.value, env, Plan(e, provider, model), 0, false).log
  {
    end, log := env, [];
    if fx.None? {
      outcome := Aborted(Error(INTERNAL_ERROR, "send function is nil"));
      return;
    }
    var f := fx.value;
    var retryAttempt, skipRetries := 0, false;
    var plan := Attempts(e, provider, model);
    ghost var whole := Walk(e, f, env, plan, 0, false);
    for i := 0 to |plan|
      invariant retryAttempt >= 0
      invariant whole == Prepend(log, Walk(e, f, end, plan[i..], retryAttempt, skipRetries))
    {
      var att := plan[i];
      ghost var rest := plan[i + 1..];
      assert plan[i..][0] == att && plan[i..][1..] == rest;
      var stop := f.cancelled(end);
      if stop.Some? {
        outcome := Aborted(stop.value);
        return;
      }
      if att.level == Retry {
        if skipRetries {
          continue;
        }
        var d := BackoffDuration(e, retryAttempt);
        var (env1, interrupt) := f.wait(end, d);
        end := env1;
        if interrupt.Some? {
          outcome := Aborted(interrupt.value);
          return;
        }
        retryAttempt := retryAttempt + 1;
        PrependTwice(log, [Waited(d)], WalkSend(e, f, end, att, rest, retryAttempt, skipRetries));
        log := log + [Waited(d)];
      }
      assert whole == Prepend(log, WalkSend(e, f, end, att, rest, retryAttempt, skipRetries));
      var (env2, reply) := f.send(end, att.providerName, att.model);
      end := env2;
      match reply {
        case Ok(response) =>
          log := log + [Sent(att, reply)];
          outcome := Returned(response, att.level);
          return;
        case Err(error) =>
          if att.level == Primary && !f.retryable(error) {
            skipRetries := true;
          }
          PrependTwice(log, [Sent(att, reply)], Walk(e, f, end, rest, retryAttempt, skipRetries));
          log := log + [Sent(att, reply)];
      }
    }
    outcome := Returned(DefaultResponse(e), Exhausted);
  }
}

/** Execute against its plan: which sends happen, what is returned, how long it waits. */
module FallbackProofs {
  import opened GatewayModel
  import opened FallbackEngine

  // ----- The plan carried out without looking at the replies -----

  /** Sends every attempt of the plan, waiting before each retry. */
  ghost function Straight<E>(e: Engine, fx: Effects<E>, env: E, plan: seq<Attempt>, retries: nat): (log: seq<Entry>)
    decreases |plan|
  {
    if |plan| == 0 then []
    else
      var att, rest := plan[0], plan[1..];
      if att.level == Retry then
        var d := BackoffDuration(e, retries);
        var env1 := fx.wait(env, d).0;
        var (env2, reply) := fx.send(env1, att.providerName, att.model);
        [Waited(d), Sent(att, reply)] + Straight(e, fx, env2, rest, retries + 1)
      else
        var (env1, reply) := fx.send(env, att.providerName, att.model);
        [Sent(att, reply)] + Straight(e, fx, env1, rest, retries)
  }

  ghost predicate Succeeds(entry: Entry)
  {
    entry.Sent? && entry.reply.Ok?
  }

  /** The log up to and including the first success; all of it when nothing succeeds. */
  ghost function Cut(log: seq<Entry>): (r: seq<Entry>)
  {
    if |log| == 0 then []
    else if Succeeds(log[0]) then [log[0]]
    else [log[0]] + Cut(log[1..])
  }

  /** The first success decides the outcome; without one it is the default response. */
  ghost function Verdict(e: Engine, log: seq<Entry>): (r: Outcome)
  {
    if |log| == 0 then Returned(DefaultResponse(e), Exhausted)
    else if Succeeds(log[0]) then Returned(log[0].reply.response, log[0].attempt.level)
    else Verdict(e, log[1..])
  }

  ghost function WithoutRetries(plan: seq<Attempt>): (r: seq<Attempt>)
  {
    if |plan| == 0 then []
    else (if plan[0].level == Retry then [] else [plan[0]]) + WithoutRetries(plan[1..])
  }

  /** The plan after the primary's reply is known: a primary error that is not retryable drops all retries. */
  ghost function EffectivePlan<E>(e: Engine, fx: Effects<E>, env: E, provider: string, model: string): (p: seq<Attempt>)
  {
    var reply := fx.send(env, provider, model).1;
    [Attempt(provider, model, Primary)]
    + (if reply.Err? && !fx.retryable(reply.error) then [] else Repeat(Attempt(provider, model, Retry), e.retryMax))
    + ChainAttempts(Chain(e, model))
  }

  ghost predicate NeverCancelled<E(!new)>(fx: Effects<E>)
  {
    && (forall env: E :: fx.cancelled(env) == None)
    && (forall env: E, d: int :: fx.wait(env, d).1 == None)
  }

  ghost predicate NoPrimary(plan: seq<Attempt>)
  {
    forall i :: 0 <= i < |plan| ==> plan[i].level != Primary
  }

  ghost function Remaining(plan: seq<Attempt>, skip: bool): seq<Attempt>
  {
    if skip then WithoutRetries(plan) else plan
  }

  ghost function FirstOf(e: Engine, entry: Entry, rest: seq<Entry>): (r: Outcome)
  {
    if Succeeds(entry) then Returned(entry.reply.response, entry.attempt.level) else Verdict(e, rest)
  }

  lemma CutCons(entry: Entry, log: seq<Entry>)
    ensures Cut([entry] + log) == (if Succeeds(entry) then [entry] else [entry] + Cut(log))
    ensures forall e: Engine :: Verdict(e, [entry] + log) == FirstOf(e, entry, log)
  {
    assert ([entry] + log)[1..] == log;
  }

  lemma CutConsTwice(d: int, entry: Entry, log: seq<Entry>)
    ensures Cut([Waited(d), entry] + log) == [Waited(d)] + (if Succeeds(entry) then [entry] else [entry] + Cut(log))
    ensures forall e: Engine :: Verdict(e, [Waited(d), entry] + log) == FirstOf(e, entry, log)
  {
    assert [Waited(d), entry] + log == [Waited(d)] + ([entry] + log);
    CutCons(Waited(d), [entry] + log);
    CutCons(entry, log);
  }

  /** Past the primary, the walk is the remaining plan carried out and cut at the first success. */
  lemma {:induction false} WalkIsCut<E(!new)>(e: Engine, fx: Effects<E>, env: E, plan: seq<Attempt>, retries: nat,
                                       skip: bool)
    requires NeverCancelled(fx) && NoPrimary(plan)
    ensures var x, log := Walk(e, fx, env, plan, retries, skip), Straight(e, fx, env, Remaining(plan, skip), retries);
            x.log == Cut(log) && x.outcome == Verdict(e, log)
    decreases |plan|
  {
    if |plan| > 0 {
      var att, rest := plan[0], plan[1..];
      assert fx.cancelled(env) == None;
      if att.level == Retry {
        if skip {
          WalkIsCut(e, fx, env, rest, retries, skip);
          assert Remaining(plan, skip) == Remaining(rest, skip);
        } else {
          var d := BackoffDuration(e, retries);
          var env1 := fx.wait(env, d).0;
          assert fx.wait(env, d).1 == None;
          var (env2, reply) := fx.send(env1, att.providerName, att.model);
          WalkIsCut(e, fx, env2, rest, retries + 1, skip);
          CutConsTwice(d, Sent(att, reply), Straight(e, fx, env2, rest, retries + 1));
        }
      } else {
        var (env1, reply) := fx.send(env, att.providerName, att.model);
        WalkIsCut(e, fx, env1, rest, retries, skip);
        assert Remaining(plan, skip)[0] == att && Remaining(plan, skip)[1..] == Remaining(rest, skip);
        CutCons(Sent(att, reply), Straight(e, fx, env1, Remaining(rest, skip), retries));
      }
    }
  }

  lemma {:induction false} RepeatEntries(a: Attempt, n: int)
    ensures forall x :: x in Repeat(a, n) ==> x == a
    ensures |Repeat(a, n)| == if n <= 0 then 0 else n
  {
    if n > 0 {
      RepeatEntries(a, n - 1);
    }
  }

  lemma {:induction false} ChainEntries(models: seq<string>)
    ensures |ChainAttempts(models)| == |models|
    ensures forall i {:trigger ChainAttempts(models)[i]} :: 0 <= i < |models| ==>
              ChainAttempts(models)[i] == Attempt("", models[i], Fallback)
  {
    if |models| > 0 {
      ChainEntries(models[..|models| - 1]);
    }
  }

  lemma {:induction false} WithoutRetriesConcat(a: seq<Attempt>, b: seq<Attempt>)
    requires forall x :: x in a ==> x.level == Retry
    ensures WithoutRetries(a + b) == WithoutRetries(b)
  {
    if |a| == 0 {
      assert a + b == b;
    } else {
      assert a[0] in a;
      assert (a + b)[1..] == a[1..] + b;
      WithoutRetriesConcat(a[1..], b);
    }
  }

  lemma {:induction false} WithoutRetriesSame(b: seq<Attempt>)
    requires forall i :: 0 <= i < |b| ==> b[i].level != Retry
    ensures WithoutRetries(b) == b
  {
    if |b| > 0 {
      WithoutRetriesSame(b[1..]);
    }
  }

  /** The tail of the plan: retries, then chain. */
  ghost function Tail(e: Engine, provider: string, model: string): (t: seq<Attempt>)
  {
    Repeat(Attempt(provider, model, Retry), e.retryMax) + ChainAttempts(Chain(e, model))
  }

  lemma TailFacts(e: Engine, provider: string, model: string)
    ensures Plan(e, provider, model)[0] == Attempt(provider, model, Primary)
    ensures Plan(e, provider, model)[1..] == Tail(e, provider, model)
    ensures NoPrimary(Tail(e, provider, model))
    ensures Remaining(Tail(e, provider, model), true) == ChainAttempts(Chain(e, model))
  {
    var retries, chain := Repeat(Attempt(provider, model, Retry), e.retryMax), ChainAttempts(Chain(e, model));
    RepeatEntries(Attempt(provider, model, Retry), e.retryMax);
    ChainEntries(Chain(e, model));
    assert forall i :: 0 <= i < |retries| ==> retries[i] in retries;
    assert Plan(e, provider, model) == [Attempt(provider, model, Primary)] + Tail(e, provider, model);
    WithoutRetriesConcat(retries, chain);
    WithoutRetriesSame(chain);
  }

  /**
   * Execute equals its plan: without cancellation, what it sends is the effective plan carried out up
   * to the first success, and what it returns is that success with its level, or else the default.
   */
  lemma ExecuteIsPlan<E(!new)>(e: Engine, fx: Effects<E>, env: E, provider: string, model: string)
    requires NeverCancelled(fx)
    ensures var x := Walk(e, fx, env, Plan(e, provider, model), 0, false);
            var log := Straight(e, fx, env, EffectivePlan(e, fx, env, provider, model), 0);
            x.log == Cut(log) && x.outcome == Verdict(e, log)
  {
    var plan, tail, att := Plan(e, provider, model), Tail(e, provider, model), Attempt(provider, model, Primary);
    var (env1, reply) := fx.send(env, provider, model);
    var skip := reply.Err? && !fx.retryable(reply.error);
    TailFacts(e, provider, model);
    assert fx.cancelled(env) == None;
    WalkIsCut(e, fx, env1, tail, 0, skip);
    var effective := EffectivePlan(e, fx, env, provider, model);
    assert effective[0] == att && effective[1..] == Remaining(tail, skip);
    CutCons(Sent(att, reply), Straight(e, fx, env1, Remaining(tail, skip), 0));
  }

  ghost predicate AllFail(log: seq<Entry>)
  {
    forall i :: 0 <= i < |log| ==> !Succeeds(log[i])
  }

  ghost predicate LevelsArePlanned(log: seq<Entry>)
  {
    forall i :: 0 <= i < |log| && log[i].Sent? ==> log[i].attempt.level != Exhausted
  }

  lemma {:induction false} ExhaustedVerdict(e: Engine, log: seq<Entry>)
    requires LevelsArePlanned(log)
    ensures Verdict(e, log).Returned?
    ensures Verdict(e, log).level == Exhausted <==> AllFail(log)
    ensures AllFail(log) ==> Cut(log) == log && Verdict(e, log).response == DefaultResponse(e)
  {
    if |log| > 0 {
      var rest := log[1..];
      ExhaustedVerdict(e, rest);
      assert log == [log[0]] + rest;
      assert AllFail(log) <==> !Succeeds(log[0]) && AllFail(rest) by {
        assert forall i :: 0 <= i < |rest| ==> rest[i] == log[i + 1];
        assert forall i :: 1 <= i < |log| ==> log[i] == rest[i - 1];
      }
    }
  }

  lemma {:induction false} StraightIsPlanned<E>(e: Engine, fx: Effects<E>, env: E, plan: seq<Attempt>, retries: nat)
    requires forall i :: 0 <= i < |plan| ==> plan[i].level != Exhausted
    ensures LevelsArePlanned(Straight(e, fx, env, plan, retries))
    decreases |plan|
  {
    if |plan| > 0 {
      var att, rest := plan[0], plan[1..];
      if att.level == Retry {
        var env1 := fx.wait(env, BackoffDuration(e, retries)).0;
        StraightIsPlanned(e, fx, fx.send(env1, att.providerName, att.model).0, rest, retries + 1);
      } else {
        StraightIsPlanned(e, fx, fx.send(env, att.providerName, att.model).0, rest, retries);
      }
    }
  }

  /** The default response is returned exactly when every planned send fails, and then all of them were sent. */
  lemma DefaultIffAllFail<E(!new)>(e: Engine, fx: Effects<E>, env: E, provider: string, model: string)
    requires NeverCancelled(fx)
    ensures var x := Walk(e, fx, env, Plan(e, provider, model), 0, false);
            var log := Straight(e, fx, env, EffectivePlan(e, fx, env, provider, model), 0);
            && x.outcome.Returned?
            && (x.outcome.level == Exhausted <==> AllFail(log))
            && (AllFail(log) ==> x.log == log && x.outcome.response == DefaultResponse(e))
  {
    var effective := EffectivePlan(e, fx, env, provider, model);
    RepeatEntries(Attempt(provider, model, Retry), e.retryMax);
    ChainEntries(Chain(e, model));
    var retries := Repeat(Attempt(provider, model, Retry), e.retryMax);
    assert forall i :: 0 <= i < |retries| ==> retries[i] in retries;
    ExecuteIsPlan(e, fx, env, provider, model);
    StraightIsPlanned(e, fx, env, effective, 0);
    ExhaustedVerdict(e, Straight(e, fx, env, effective, 0));
  }

  /** A retry at the head of the plan, when nothing cancels it: wait, then send. */
  lemma RetryAtHead<E>(e: Engine, fx: Effects<E>, env: E, plan: seq<Attempt>, retries: nat, env1: E)
    requires |plan| > 0 && plan[0].level == Retry
    requires fx.cancelled(env).None? && fx.wait(env, BackoffDuration(e, retries)) == (env1, None)
    ensures Walk(e, fx, env, plan, retries, false).env
         == WalkSend(e, fx, env1, plan[0], plan[1..], retries + 1, false).env
  {
  }

  // ----- Waiting -----

  ghost function TotalWait(log: seq<Entry>): int
  {
    if |log| == 0 then 0
    else TotalWait(log[..|log| - 1]) + (if log[|log| - 1].Waited? then log[|log| - 1].duration else 0)
  }

  ghost function RetriesSent(log: seq<Entry>): nat
  {
    if |log| == 0 then 0
    else
      RetriesSent(log[..|log| - 1])
      + (if log[|log| - 1].Sent? && log[|log| - 1].attempt.level == Retry then 1 else 0)
  }

  lemma {:induction false} WaitConcat(a: seq<Entry>, b: seq<Entry>)
    ensures TotalWait(a + b) == TotalWait(a) + TotalWait(b)
    ensures RetriesSent(a + b) == RetriesSent(a) + RetriesSent(b)
  {
    if |b| == 0 {
      assert a + b == a;
    } else {
      WaitConcat(a, b[..|b| - 1]);
      assert (a + b)[..|a + b| - 1] == a + b[..|b| - 1];
    }
  }

  lemma WaitOne(entry: Entry)
    ensures TotalWait([]) == 0 && RetriesSent([]) == 0
    ensures TotalWait([entry]) == if entry.Waited? then entry.duration else 0
    ensures RetriesSent([entry]) == if entry.Sent? && entry.attempt.level == Retry then 1 else 0
  {
    assert [entry][..0] == [];
  }

  lemma GeometricStep(base: int, r: nat, j: nat)
    ensures base * (Pow2(r + 1 + j) - Pow2(r + 1)) + base * Pow2(r) == base * (Pow2(r + 1 + j) - Pow2(r))
  {
    assert Pow2(r + 1) == Pow2(r) + Pow2(r);
  }

  lemma WaitThenLog(e: Engine, retries: nat, d: int, log: seq<Entry>)
    requires d == BackoffDuration(e, retries) && RetriesSent(log) >= 1
    requires TotalWait(log) == e.retryBackoff * (Pow2(retries + 1 + RetriesSent(log) - 1) - Pow2(retries + 1))
    ensures RetriesSent([Waited(d)] + log) == RetriesSent(log)
    ensures TotalWait([Waited(d)] + log) == e.retryBackoff * (Pow2(retries + RetriesSent(log)) - Pow2(retries))
  {
    WaitConcat([Waited(d)], log);
    WaitOne(Waited(d));
    GeometricStep(e.retryBackoff, retries, RetriesSent(log) - 1);
  }

  /** From retry number r on, j further retries wait base * (2^(r+j) - 2^r) altogether, cancelled or not. */
  lemma {:induction false} WalkWaits<E>(e: Engine, fx: Effects<E>, env: E, plan: seq<Attempt>, retries: nat, skip: bool)
    ensures var log := Walk(e, fx, env, plan, retries, skip).log;
            TotalWait(log) == e.retryBackoff * (Pow2(retries + RetriesSent(log)) - Pow2(retries))
    decreases |plan|, 0
  {
    hide TotalWait;
    hide RetriesSent;
    hide Pow2;
    WaitOne(Waited(0));
    if |plan| > 0 && fx.cancelled(env).None? {
      var att, rest := plan[0], plan[1..];
      if att.level != Retry {
        WalkSendWaits(e, fx, env, att, rest, retries, skip);
      } else if skip {
        WalkWaits(e, fx, env, rest, retries, skip);
      } else {
        var d := BackoffDuration(e, retries);
        var (env1, stop) := fx.wait(env, d);
        if stop.None? {
          var log := WalkSend(e, fx, env1, att, rest, retries + 1, skip).log;
          WalkSendWaits(e, fx, env1, att, rest, retries + 1, skip);
          WaitThenLog(e, retries, d, log);
        }
      }
    }
  }

  lemma {:induction false} WalkSendWaits<E>(
    e: Engine, fx: Effects<E>, env: E, att: Attempt, rest: seq<Attempt>, retries: nat, skip: bool)
    ensures var log := WalkSend(e, fx, env, att, rest, retries, skip).log;
            var more := if att.level == Retry then 1 else 0;
            && RetriesSent(log) >= more
            && TotalWait(log) == e.retryBackoff * (Pow2(retries + RetriesSent(log) - more) - Pow2(retries))
    decreases |rest|, 1
  {
    hide TotalWait;
    hide RetriesSent;
    hide Pow2;
    var (env1, reply) := fx.send(env, att.providerName, att.model);
    WaitOne(Sent(att, reply));
    if reply.Err? {
      var skip1 := skip || (att.level == Primary && !fx.retryable(reply.error));
      WalkWaits(e, fx, env1, rest, retries, skip1);
      WaitConcat([Sent(att, reply)], Walk(e, fx, env1, rest, retries, skip1).log);
    }
  }

  /** Execute that has sent j retries has waited base * (2^j - 1), cancelled or not. */
  lemma ExecuteWaits<E>(e: Engine, fx: Effects<E>, env: E, provider: string, model: string)
    ensures var log := Walk(e, fx, env, Plan(e, provider, model), 0, false).log;
            TotalWait(log) == e.retryBackoff * (Pow2(RetriesSent(log)) - 1)
  {
    WalkWaits(e, fx, env, Plan(e, provider, model), 0, false);
  }

  // ----- Cancellation -----

  /** Cancellation can only shorten: what was done is a prefix of the plan carried out and cut at the first success. */
  lemma {:induction false} CancelledWalkIsPrefix<E>(e: Engine, fx: Effects<E>, env: E, plan: seq<Attempt>, retries: nat,
                                                    skip: bool)
    requires NoPrimary(plan)
    ensures Walk(e, fx, env, plan, retries, skip).log <= Cut(Straight(e, fx, env, Remaining(plan, skip), retries))
    decreases |plan|
  {
    if |plan| > 0 && fx.cancelled(env).None? {
      var att, rest := plan[0], plan[1..];
      if att.level == Retry {
        if skip {
          CancelledWalkIsPrefix(e, fx, env, rest, retries, skip);
          assert Remaining(plan, skip) == Remaining(rest, skip);
        } else if fx.wait(env, BackoffDuration(e, retries)).1.None? {
          var d := BackoffDuration(e, retries);
          var env1 := fx.wait(env, d).0;
          var (env2, reply) := fx.send(env1, att.providerName, att.model);
          CancelledWalkIsPrefix(e, fx, env2, rest, retries + 1, skip);
          CutConsTwice(d, Sent(att, reply), Straight(e, fx, env2, rest, retries + 1));
        }
      } else {
        var (env1, reply) := fx.send(env, att.providerName, att.model);
        CancelledWalkIsPrefix(e, fx, env1, rest, retries, skip);
        assert Remaining(plan, skip)[0] == att && Remaining(plan, skip)[1..] == Remaining(rest, skip);
        CutCons(Sent(att, reply), Straight(e, fx, env1, Remaining(rest, skip), retries));
      }
    }
  }

  lemma CancelledExecuteIsPrefix<E>(e: Engine, fx: Effects<E>, env: E, provider: string, model: string)
    ensures Walk(e, fx, env, Plan(e, provider, model), 0, false).log
         <= Cut(Straight(e, fx, env, EffectivePlan(e, fx, env, provider, model), 0))
  {
    var tail, att := Tail(e, provider, model), Attempt(provider, model, Primary);
    var (env1, reply) := fx.send(env, provider, model);
    var skip := reply.Err? && !fx.retryable(reply.error);
    TailFacts(e, provider, model);
    CancelledWalkIsPrefix(e, fx, env1, tail, 0, skip);
    var effective := EffectivePlan(e, fx, env, provider, model);
    assert effective[0] == att && effective[1..] == Remaining(tail, skip);
    CutCons(Sent(att, reply), Straight(e, fx, env1, Remaining(tail, skip), 0));
  }

  // ----- Settings, the plan entry by entry, and an interrupted wait -----

  /** Configured settings are kept; missing ones become 2 retries and 1 second. */
  lemma NewEngineKeeps(chains: map<string, seq<string>>, retryMax: int, retryBackoff: int, defaultMsg: string)
    ensures var e := NewEngine(chains, retryMax, retryBackoff, defaultMsg);
            && e.chains == chains
            && (retryMax > 0 ==> e.retryMax == retryMax) && (retryMax <= 0 ==> e.retryMax == 2)
            && (retryBackoff > 0 ==> e.retryBackoff == retryBackoff)
            && (retryBackoff <= 0 ==> e.retryBackoff == 1_000_000_000)
            && (defaultMsg != "" ==> DefaultResponse(e) == Response("", "", "", defaultMsg))
  {
  }

  lemma {:induction false} RepeatAt(a: Attempt, n: nat)
    ensures |Repeat(a, n)| == n && forall i :: 0 <= i < n ==> Repeat(a, n)[i] == a
  {
    if n > 0 {
      RepeatAt(a, n - 1);
    }
  }

  lemma {:induction false} ChainAt(models: seq<string>)
    ensures |ChainAttempts(models)| == |models|
    ensures forall j :: 0 <= j < |models| ==> ChainAttempts(models)[j] == Attempt("", models[j], Fallback)
  {
    if |models| > 0 {
      ChainAt(models[..|models| - 1]);
    }
  }

  /** The primary attempt, then `retryMax` retries of it, then the models of the chain in order without a provider. */
  lemma PlanInOrder(e: Engine, provider: string, model: string, r: nat, chain: seq<string>)
    requires r == if e.retryMax < 0 then 0 else e.retryMax
    requires chain == if model in e.chains then e.chains[model] else []
    ensures var plan := Plan(e, provider, model);
            && |plan| == 1 + r + |chain| && plan[0] == Attempt(provider, model, Primary)
            && (forall i :: 1 <= i <= r ==> plan[i] == Attempt(provider, model, Retry))
            && (forall j :: 0 <= j < |chain| ==> plan[1 + r + j] == Attempt("", chain[j], Fallback))
  {
    RepeatAt(Attempt(provider, model, Retry), r);
    ChainAt(chain);
    assert Repeat(Attempt(provider, model, Retry), e.retryMax) == Repeat(Attempt(provider, model, Retry), r);
  }

  /**
   * A wait that is interrupted ends Execute with the interruption: after a failed primary attempt nothing more is
   * sent.
   */
  lemma InterruptedWaitAborts<E>(e: Engine, fx: Effects<E>, env: E, provider: string, model: string,
                                 env1: E, error: Error, env2: E, stop: Error)
    requires e.retryMax > 0 && fx.cancelled(env).None? && fx.send(env, provider, model) == (env1, Err(error))
    requires fx.retryable(error) && fx.cancelled(env1).None? && fx.wait(env1, e.retryBackoff) == (env2, Some(stop))
    ensures var x := Walk(e, fx, env, Plan(e, provider, model), 0, false);
            && x.env == env2 && x.outcome == Aborted(stop)
            && x.log == [Sent(Attempt(provider, model, Primary), Err(error))]
  {
    var plan := Plan(e, provider, model);
    PlanInOrder(e, provider, model, e.retryMax, if model in e.chains then e.chains[model] else []);
    assert plan[1..][0] == Attempt(provider, model, Retry);
    assert BackoffDuration(e, 0) == e.retryBackoff;
    var y := Walk(e, fx, env1, plan[1..], 0, false);
    assert y == Execution(env2, Aborted(stop), []);
    assert Walk(e, fx, env, plan, 0, false) == Prepend([Sent(plan[0], Err(error))], y);
  }

  /**
   * Wherever the walk has come to: a cancellation found before an attempt, skipped or not, ends it with that
   * error, and so does an interruption of the wait before a later retry; nothing more is sent.
   */
  lemma CancelledAborts<E>(e: Engine, fx: Effects<E>, env: E, plan: seq<Attempt>, retries: nat, skip: bool)
    requires |plan| > 0
    ensures fx.cancelled(env).Some? ==>
              Walk(e, fx, env, plan, retries, skip) == Execution(env, Aborted(fx.cancelled(env).value), [])
    ensures fx.cancelled(env).None? && plan[0].level == Retry && !skip ==>
              var (end, stop) := fx.wait(env, e.retryBackoff * Pow2(retries));
              stop.Some? ==> Walk(e, fx, env, plan, retries, skip) == Execution(end, Aborted(stop.value), [])
  {
  }
}

/** The router: an explicit provider, or the first model of the strategy chain that has a provider. */
module Routers {
  import opened GatewayModel
  import opened BreakerManagers
  import opened Balancers
  import opened Registries

  datatype Decision = Decision(provider: string, model: string, strategy: string)

  /**
   * A request as the router sees it: its model name and what the three strategy routers answer for it.
   * `None` stands for a strategy router that is not configured.
   */
  datatype RouteRequest = RouteRequest(
    model: string, semantic: Option<seq<string>>, capability: Option<seq<string>>, cascade: Option<seq<string>>)

  // ----- The chain of candidates -----

  datatype Step = Step(model: string, strategy: string)

  /** The models a strategy proposes; an unknown strategy, and "explicit", propose none. */
  function ListFor(strategy: string, req: RouteRequest, defaultCascade: seq<string>): seq<string>
  {
    if strategy == "semantic" && req.semantic.Some? then req.semantic.value
    else if strategy == "capability" && req.capability.Some? then req.capability.value
    else if strategy == "cost_cascade" && req.cascade.Some? then
      (if |req.cascade.value| == 0 then defaultCascade else req.cascade.value)
    else []
  }

  ghost function Steps(models: seq<string>, strategy: string): (s: seq<Step>)
    ensures |s| == |models|
  {
    if |models| == 0 then [] else Steps(models[..|models| - 1], strategy) + [Step(models[|models| - 1], strategy)]
  }

  lemma {:induction false} StepsEntries(models: seq<string>, strategy: string)
    ensures forall i :: 0 <= i < |models| ==> Steps(models, strategy)[i] == Step(models[i], strategy)
  {
    if |models| > 0 {
      StepsEntries(models[..|models| - 1], strategy);
    }
  }

  ghost function StrategySteps(strategies: seq<string>, req: RouteRequest, defaultCascade: seq<string>): seq<Step>
  {
    if |strategies| == 0 then []
    else
      var last := strategies[|strategies| - 1];
      StrategySteps(strategies[..|strategies| - 1], req, defaultCascade)
        + Steps(ListFor(last, req, defaultCascade), last)
  }

  ghost function DefaultSteps(req: RouteRequest, defaultCascade: seq<string>): seq<Step>
  {
    Steps(defaultCascade, "default") + (if req.model == "" then [] else [Step(req.model, "default")])
  }

  /** The strategies in configured order, then the default cascade, then the requested model itself. */
  ghost function Chain(strategies: seq<string>, req: RouteRequest, defaultCascade: seq<string>): seq<Step>
  {
    StrategySteps(strategies, req, defaultCascade) + DefaultSteps(req, defaultCascade)
  }

  /** The first strategy proposes first; without any, the default cascade and then the requested model. */
  lemma ChainInOrder(strategies: seq<string>, req: RouteRequest, defaultCascade: seq<string>)
    ensures strategies == [] ==>
              Chain(strategies, req, defaultCascade)
              == Steps(defaultCascade, "default") + (if req.model == "" then [] else [Step(req.model, "default")])
    ensures strategies != [] ==>
              Chain(strategies, req, defaultCascade)
              == Steps(ListFor(strategies[0], req, defaultCascade), strategies[0])
                 + Chain(strategies[1..], req, defaultCascade)
  {
    hide Steps;
    hide ListFor;
    if strategies == [] {
      assert [] + DefaultSteps(req, defaultCascade) == DefaultSteps(req, defaultCascade);
    } else {
      StrategiesFromFront(strategies, req, defaultCascade);
      hide StrategySteps;
      hide DefaultSteps;
      AppendGroups(Steps(ListFor(strategies[0], req, defaultCascade), strategies[0]),
                   StrategySteps(strategies[1..], req, defaultCascade), DefaultSteps(req, defaultCascade));
    }
  }

  lemma AppendGroups(a: seq<Step>, b: seq<Step>, c: seq<Step>)
    ensures (a + b) + c == a + (b + c)
  {
  }

  lemma {:induction false} StrategiesFromFront(strategies: seq<string>, req: RouteRequest, defaultCascade: seq<string>)
    requires strategies != []
    ensures StrategySteps(strategies, req, defaultCascade)
         == Steps(ListFor(strategies[0], req, defaultCascade), strategies[0])
            + StrategySteps(strategies[1..], req, defaultCascade)
  {
    var n, first := |strategies| - 1, Steps(ListFor(strategies[0], req, defaultCascade), strategies[0]);
    if n == 0 {
      assert StrategySteps(strategies[..0], req, defaultCascade) == [];
      assert [] + first == first + [];
    } else {
      StrategiesFromFront(strategies[..n], req, defaultCascade);
      assert strategies[..n][1..] == strategies[1..][..n - 1];
      var last := Steps(ListFor(strategies[n], req, defaultCascade), strategies[n]);
      var mid := StrategySteps(strategies[1..][..n - 1], req, defaultCascade);
      assert first + mid + last == first + (mid + last);
    }
  }

  /** Which router speaks for which strategy. */
  lemma StrategiesSpeak(strategy: string, req: RouteRequest, defaultCascade: seq<string>, models: seq<string>,
                        model: string)
    ensures req.semantic == Some(models) ==> ListFor("semantic", req, defaultCascade) == models
    ensures req.capability == Some(models) ==> ListFor("capability", req, defaultCascade) == models
    ensures req.cascade == Some(models) && models != [] ==> ListFor("cost_cascade", req, defaultCascade) == models
    ensures req.cascade == Some([]) ==> ListFor("cost_cascade", req, defaultCascade) == defaultCascade
    ensures model in ListFor(strategy, req, defaultCascade) ==>
              || (strategy == "semantic" && req.semantic.Some? && model in req.semantic.value)
              || (strategy == "capability" && req.capability.Some? && model in req.capability.value)
              || (strategy == "cost_cascade" && req.cascade.Some?
                  && (model in req.cascade.value || (req.cascade.value == [] && model in defaultCascade)))
  {
  }

  /** The providers of a model, as the registry answers. */
  type Lookup = string -> seq<Provider>

  /** No model of the chain has a provider. */
  ghost predicate Unserved(lookup: Lookup, chain: seq<Step>)
  {
    forall i :: 0 <= i < |chain| ==> lookup(chain[i].model) == []
  }

  /** `k` is the first step of the chain whose model has a provider. */
  ghost predicate FirstServed(lookup: Lookup, chain: seq<Step>, k: nat)
  {
    k < |chain| && lookup(chain[k].model) != [] && Unserved(lookup, chain[..k])
  }

  // ----- Choosing among the providers of a model -----

  /** One candidate per provider, with its configured weight and no load. */
  function CandidateOf(p: Provider, model: string, weightOf: string -> real): Candidate
  {
    Candidate(p.name, model, weightOf(p.name), 0, 0.0, 1.0, 1.0)
  }

  function Candidates(ps: seq<Provider>, model: string, weightOf: string -> real): (cs: seq<Candidate>)
    ensures |cs| == |ps|
    ensures forall i {:trigger cs[i]} :: 0 <= i < |cs| ==> cs[i] == CandidateOf(ps[i], model, weightOf)
  {
    if |ps| == 0 then []
    else Candidates(ps[..|ps| - 1], model, weightOf) + [CandidateOf(ps[|ps| - 1], model, weightOf)]
  }

  lemma CandidatesAreWeighable(cfg: Config, ps: seq<Provider>, model: string, weightOf: string -> real)
    ensures Weighable(cfg, Candidates(ps, model, weightOf))
  {
    assert cfg.concurrencyPenalty * (0 as real) == 0.0;
    assert cfg.latencyPenalty * 0.0 == 0.0;
  }

  /** The provider is one of those found for the model. */
  ghost predicate Serves(lookup: Lookup, provider: string, model: string)
  {
    exists p :: p in lookup(model) && p.name == provider
  }

  class Router {
    const strategies: seq<string>
    const defaultCascade: seq<string>
    const weightOf: string -> real
    const balancer: Balancer
    const modelProviders: Lookup

    /** `weights` are the configured ones; a provider without configuration weighs 100. */
    constructor (strategies: seq<string>, defaultCascade: seq<string>, weights: map<string, int>,
                 balancer: Balancer, modelProviders: Lookup)
      ensures this.strategies == strategies && this.defaultCascade == defaultCascade
      ensures this.balancer == balancer && this.modelProviders == modelProviders
      ensures forall name :: weightOf(name) == if name in weights then weights[name] as real else 100.0
    {
      this.strategies, this.defaultCascade := strategies, defaultCascade;
      this.weightOf := (name: string) => if name in weights then weights[name] as real else 100.0;
      this.balancer, this.modelProviders := balancer, modelProviders;
    }

    ghost predicate Valid()
      reads balancer
    {
      balancer.Valid()
    }

    /** The balancer after choosing among the providers of `model`. */
    ghost function Charged(before: BalancerState, model: string): BalancerState
      requires before.Valid()
    {
      var cs := Candidates(modelProviders(model), model, weightOf);
      CandidatesAreWeighable(balancer.cfg, modelProviders(model), model, weightOf);
      if cs == [] then before else Selection(balancer.cfg, before, cs).0
    }

    /** The provider that Select chooses for `model`; one without a name gives way to the first provider. */
    ghost function ChosenName(before: BalancerState, model: string): string
      requires before.Valid() && modelProviders(model) != []
    {
      var ps := modelProviders(model);
      CandidatesAreWeighable(balancer.cfg, ps, model, weightOf);
      var chosen := ps[Selection(balancer.cfg, before, Candidates(ps, model, weightOf)).1].name;
      if chosen != "" then chosen else ps[0].name
    }

    /** The decision of one step: its model and strategy, and the provider that one Select chooses. */
    ghost predicate Decides(before: BalancerState, after: BalancerState, d: Decision, step: Step)
      requires before.Valid()
    {
      && Step(d.model, d.strategy) == step
      && modelProviders(d.model) != []
      && d.provider == ChosenName(before, d.model)
      && after == Charged(before, d.model)
    }

    lemma DecidedServes(before: BalancerState, after: BalancerState, d: Decision, step: Step)
      requires before.Valid() && Decides(before, after, d, step)
      ensures Serves(modelProviders, d.provider, d.model)
    {
      var ps := modelProviders(d.model);
      CandidatesAreWeighable(balancer.cfg, ps, d.model, weightOf);
      var i := Selection(balancer.cfg, before, Candidates(ps, d.model, weightOf)).1;
      assert ps[i] in ps && ps[0] in ps;
    }

    /** The first served step `k` decides; without one there is no decision and no change. */
    ghost predicate FirstDecides(before: BalancerState, after: BalancerState, d: Option<Decision>, chain: seq<Step>,
                                 k: nat)
      requires before.Valid()
    {
      match d
      case None => Unserved(modelProviders, chain) && after == before
      case Some(decision) => FirstServed(modelProviders, chain, k) && Decides(before, after, decision, chain[k])
    }

    lemma DecidesInside(before: BalancerState, after: BalancerState, d: Decision,
                        head: seq<Step>, part: seq<Step>, chain: seq<Step>, k: nat)
      requires before.Valid() && FirstDecides(before, after, Some(d), part, k)
      requires head + part <= chain && Unserved(modelProviders, head)
      ensures FirstDecides(before, after, Some(d), chain, |head| + k)
    {
      ServedInside(modelProviders, head, part, chain, k);
    }

    /** A decision of the head stands, whatever follows. */
    lemma DecidesBefore(before: BalancerState, after: BalancerState, d: Decision, head: seq<Step>, tail: seq<Step>,
                        k: nat)
      requires before.Valid() && FirstDecides(before, after, Some(d), head, k)
      ensures FirstDecides(before, after, Some(d), head + tail, k)
    {
      assert [] + head <= head + tail;
      DecidesInside(before, after, d, [], head, head + tail, k);
    }

    /** After an unserved head the tail decides. */
    lemma DecidesAfter(before: BalancerState, after: BalancerState, d: Option<Decision>,
                       head: seq<Step>, tail: seq<Step>, k: nat)
      requires before.Valid() && FirstDecides(before, after, d, tail, k)
      requires Unserved(modelProviders, head)
      ensures FirstDecides(before, after, d, head + tail, |head| + k)
    {
      if d.Some? {
        DecidesInside(before, after, d.value, head, tail, head + tail, k);
      } else {
        UnservedTogether(modelProviders, head, tail);
      }
    }

    /** Select decides; a selection without a name falls back to the first provider; without providers nobody does. */
    method ResolveWithBalancer(providers: seq<Provider>, model: string, strategy: string) returns (d: Option<Decision>)
      requires Valid() && providers == modelProviders(model)
      modifies balancer
      ensures Valid()
      ensures d.None? <==> providers == []
      ensures d.None? ==> balancer.State() == old(balancer.State())
      ensures d.Some? ==> Decides(old(balancer.State()), balancer.State(), d.value, Step(model, strategy))
    {
      var cs := Candidates(providers, model, weightOf);
      CandidatesAreWeighable(balancer.cfg, providers, model, weightOf);
      if |cs| > 0 {
        var selected := balancer.Select(cs);
        if selected.providerName != "" {
          return Some(Decision(selected.providerName, model, strategy));
        }
      }
      if |providers| > 0 {
        return Some(Decision(providers[0].name, model, strategy));
      }
      return None;
    }

    /** The first model of the list that has a provider; `k` is its index. */
    method ResolveModelList(models: seq<string>, strategy: string) returns (d: Option<Decision>, ghost k: nat)
      requires Valid()
      modifies balancer
      ensures Valid()
      ensures FirstDecides(old(balancer.State()), balancer.State(), d, Steps(models, strategy), k)
    {
      k := 0;
      ghost var steps := Steps(models, strategy);
      StepsEntries(models, strategy);
      for i := 0 to |models|
        invariant Valid() && balancer.State() == old(balancer.State())
        invariant Unserved(modelProviders, steps[..i])
      {
        var providers := modelProviders(models[i]);
        assert steps[..i + 1] == steps[..i] + [steps[i]];
        if |providers| > 0 {
          d := ResolveWithBalancer(providers, models[i], strategy);
          k := i;
          return;
        }
      }
      assert steps[..|models|] == steps;
      return None, k;
    }

    /** What deciding on the list of strategy `i` means for the whole loop. */
    lemma StrategyDecides(before: BalancerState, after: BalancerState, d: Option<Decision>,
                          req: RouteRequest, i: nat, earlier: seq<Step>, k: nat)
      requires before.Valid() && i < |strategies| && earlier == StrategySteps(strategies[..i], req, defaultCascade)
      requires Unserved(modelProviders, earlier)
      requires FirstDecides(before, after, d, Steps(ListFor(strategies[i], req, defaultCascade), strategies[i]), k)
      ensures d.None? ==>
                after == before && Unserved(modelProviders, StrategySteps(strategies[..i + 1], req, defaultCascade))
      ensures d.Some? ==>
                FirstDecides(before, after, d, StrategySteps(strategies, req, defaultCascade), |earlier| + k)
    {
      var steps := Steps(ListFor(strategies[i], req, defaultCascade), strategies[i]);
      StrategyPrefix(strategies, req, defaultCascade, i);
      if d.Some? {
        DecidesInside(before, after, d.value, earlier, steps, StrategySteps(strategies, req, defaultCascade), k);
      } else {
        UnservedTogether(modelProviders, earlier, steps);
      }
    }

    lemma Undecided(before: BalancerState, after: BalancerState, chain: seq<Step>, k: nat)
      requires before.Valid() && FirstDecides(before, after, None, chain, k)
      ensures after == before && Unserved(modelProviders, chain)
    {
    }

    lemma NoDecision(before: BalancerState, chain: seq<Step>, k: nat)
      requires before.Valid() && Unserved(modelProviders, chain)
      ensures FirstDecides(before, before, None, chain, k)
    {
    }

    /** The loop over the configured strategies. */
    method RouteByStrategies(req: RouteRequest) returns (d: Option<Decision>, ghost k: nat)
      requires Valid()
      modifies balancer
      ensures Valid()
      ensures FirstDecides(old(balancer.State()), balancer.State(), d, StrategySteps(strategies, req, defaultCascade),
                           k)
    {
      hide FirstDecides;
      hide Unserved;
      hide StrategySteps;
      hide ListFor;
      hide Steps;
      d, k := None, 0;
      NoSteps(req);
      for i := 0 to |strategies|
        invariant d == None && Valid() && balancer.State() == old(balancer.State())
        invariant Unserved(modelProviders, StrategySteps(strategies[..i], req, defaultCascade))
      {
        ghost var earlier := StrategySteps(strategies[..i], req, defaultCascade);
        d, k := ResolveModelList(ListFor(strategies[i], req, defaultCascade), strategies[i]);
        StrategyDecides(old(balancer.State()), balancer.State(), d, req, i, earlier, k);
        if d.Some? {
          k := |earlier| + k;
          return;
        }
      }
      assert strategies[..|strategies|] == strategies;
      NoDecision(old(balancer.State()), StrategySteps(strategies, req, defaultCascade), k);
    }

    lemma NoSteps(req: RouteRequest)
      ensures Unserved(modelProviders, StrategySteps(strategies[..0], req, defaultCascade))
    {
    }

    /** After the strategies: the default cascade, then the requested model. */
    method RouteByDefault(req: RouteRequest) returns (d: Option<Decision>, ghost k: nat)
      requires Valid()
      modifies balancer
      ensures Valid()
      ensures FirstDecides(old(balancer.State()), balancer.State(), d, DefaultSteps(req, defaultCascade), k)
    {
      ghost var cascade := Steps(defaultCascade, "default");
      ghost var own := if req.model == "" then [] else [Step(req.model, "default")];
      d, k := ResolveModelList(defaultCascade, "default");
      if d.Some? {
        DecidesBefore(old(balancer.State()), balancer.State(), d.value, cascade, own, k);
        return;
      }
      if req.model != "" {
        d := ResolveRequested(req.model);
      }
      DecidesAfter(old(balancer.State()), balancer.State(), d, cascade, own, 0);
      k := |cascade|;
    }

    /** The last resort: the requested model itself. */
    method ResolveRequested(model: string) returns (d: Option<Decision>)
      requires Valid()
      modifies balancer
      ensures Valid()
      ensures FirstDecides(old(balancer.State()), balancer.State(), d, [Step(model, "default")], 0)
    {
      d := ResolveWithBalancer(modelProviders(model), model, "default");
    }

    method RouteByChain(req: RouteRequest) returns (d: Option<Decision>, ghost k: nat)
      requires Valid()
      modifies balancer
      ensures Valid()
      ensures FirstDecides(old(balancer.State()), balancer.State(), d, Chain(strategies, req, defaultCascade), k)
    {
      hide FirstDecides;
      hide StrategySteps;
      hide DefaultSteps;
      hide Unserved;
      ghost var head, tail := StrategySteps(strategies, req, defaultCascade), DefaultSteps(req, defaultCascade);
      d, k := RouteByStrategies(req);
      if d.Some? {
        DecidesBefore(old(balancer.State()), balancer.State(), d.value, head, tail, k);
        return;
      }
      Undecided(old(balancer.State()), balancer.State(), head, k);
      d, k := RouteByDefault(req);
      DecidesAfter(old(balancer.State()), balancer.State(), d, head, tail, k);
      k := |head| + k;
    }

    /**
     * Route. `k` is the step of the chain that decided. An explicit request bypasses chain, registry and
     * balancer; otherwise the first served step decides, and only its Select touches the balancer.
     */
    method Route(req: RouteRequest) returns (d: Option<Decision>, ghost k: nat)
      requires Valid()
      modifies balancer
      ensures Valid()
      ensures '/' in req.model ==>
                && d == Some(Decision(SplitAtSlash(req.model).0, SplitAtSlash(req.model).1, "explicit"))
                && balancer.State() == old(balancer.State())
      ensures '/' !in req.model ==>
                FirstDecides(old(balancer.State()), balancer.State(), d, Chain(strategies, req, defaultCascade), k)
    {
      k := 0;
      if '/' in req.model {
        var parts := SplitAtSlash(req.model);
        return Some(Decision(parts.0, parts.1, "explicit")), k;
      }
      d, k := RouteByChain(req);
    }
  }

  lemma UnservedBefore(lookup: Lookup, chain: seq<Step>, k: nat, j: nat)
    requires FirstServed(lookup, chain, k) && j < k
    ensures lookup(chain[j].model) == []
  {
    assert chain[..k][j] == chain[j];
  }

  /** A chain has at most one first served step, and none exactly when it is unserved. */
  lemma ServedOrNot(lookup: Lookup, chain: seq<Step>)
    ensures Unserved(lookup, chain) <==> !exists k :: FirstServed(lookup, chain, k)
    ensures forall j, k :: FirstServed(lookup, chain, j) && FirstServed(lookup, chain, k) ==> j == k
  {
    if !Unserved(lookup, chain) {
      var i :| 0 <= i < |chain| && lookup(chain[i].model) != [];
      FirstServedUpTo(lookup, chain, i);
    }
    forall j, k | FirstServed(lookup, chain, j) && FirstServed(lookup, chain, k)
      ensures j == k
    {
      if j < k {
        UnservedBefore(lookup, chain, k, j);
      } else if k < j {
        UnservedBefore(lookup, chain, j, k);
      }
    }
  }

  lemma {:induction false} FirstServedUpTo(lookup: Lookup, chain: seq<Step>, i: nat)
    requires i < |chain| && lookup(chain[i].model) != []
    ensures exists k :: FirstServed(lookup, chain, k)
  {
    if Unserved(lookup, chain[..i]) {
      assert FirstServed(lookup, chain, i);
    } else {
      var j :| 0 <= j < i && lookup(chain[..i][j].model) != [];
      FirstServedUpTo(lookup, chain, j);
    }
  }

  /** A requested model with a provider is always served, if not by an earlier step then by itself. */
  lemma RequestedIsServed(lookup: Lookup, strategies: seq<string>, req: RouteRequest, defaultCascade: seq<string>)
    requires req.model != "" && lookup(req.model) != []
    ensures !Unserved(lookup, Chain(strategies, req, defaultCascade))
  {
    var chain := Chain(strategies, req, defaultCascade);
    assert chain[|chain| - 1] == Step(req.model, "default");
  }

  /** With the registry behind the router, the decided provider is registered and lists the decided model. */
  lemma DecidedProviderIsRegistered(ps: seq<Provider>, lookup: Lookup, provider: string, model: string)
    requires lookup(model) == ForModel(ps, model) && Serves(lookup, provider, model)
    ensures exists p :: p in ps && model in p.models && p.name == provider
  {
    ForModelMembers(ps, model);
    var p :| p in lookup(model) && p.name == provider;
    assert p in ps && model in p.models;
  }

  /** And a chain is unserved exactly when no registered provider lists any of its models. */
  lemma UnservedMeansUnregistered(ps: seq<Provider>, lookup: Lookup, chain: seq<Step>)
    requires forall m :: lookup(m) == ForModel(ps, m)
    ensures Unserved(lookup, chain) <==> forall i, p :: 0 <= i < |chain| && p in ps ==> chain[i].model !in p.models
  {
    forall i | 0 <= i < |chain|
      ensures lookup(chain[i].model) == [] <==> forall p :: p in ps ==> chain[i].model !in p.models
    {
      var m := chain[i].model;
      ForModelMembers(ps, m);
      assert lookup(m) != [] ==> lookup(m)[0] in ForModel(ps, m);
    }
  }

  /** The steps of strategy `i` follow those of the earlier ones in the chain. */
  lemma {:induction false} StrategyPrefix(strategies: seq<string>, req: RouteRequest, defaultCascade: seq<string>,
                                          i: nat)
    requires i < |strategies|
    ensures StrategySteps(strategies[..i + 1], req, defaultCascade)
         == StrategySteps(strategies[..i], req, defaultCascade)
            + Steps(ListFor(strategies[i], req, defaultCascade), strategies[i])
    ensures StrategySteps(strategies[..i + 1], req, defaultCascade) <= StrategySteps(strategies, req, defaultCascade)
  {
    assert strategies[..i + 1][..i] == strategies[..i];
    StepsGrow(strategies, req, defaultCascade, i + 1);
  }

  lemma {:induction false} StepsGrow(strategies: seq<string>, req: RouteRequest, defaultCascade: seq<string>, n: nat)
    requires n <= |strategies|
    ensures StrategySteps(strategies[..n], req, defaultCascade) <= StrategySteps(strategies, req, defaultCascade)
  {
    if n == |strategies| {
      assert strategies[..n] == strategies;
    } else {
      var init := strategies[..|strategies| - 1];
      assert init[..n] == strategies[..n];
      StepsGrow(init, req, defaultCascade, n);
    }
  }

  lemma UnservedTogether(lookup: Lookup, a: seq<Step>, b: seq<Step>)
    requires Unserved(lookup, a) && Unserved(lookup, b)
    ensures Unserved(lookup, a + b)
  {
  }

  /** The first served step of a part is the first of the chain when all before the part is unserved. */
  lemma ServedInside(lookup: Lookup, before: seq<Step>, part: seq<Step>, chain: seq<Step>, k: nat)
    requires before + part <= chain && Unserved(lookup, before) && FirstServed(lookup, part, k)
    ensures FirstServed(lookup, chain, |before| + k) && chain[|before| + k] == part[k]
  {
    assert chain[|before| + k] == part[k];
    assert chain[..|before| + k] == before + part[..k];
    UnservedTogether(lookup, before, part[..k]);
  }
}

/** Whom the router decides: the greatest weight in every call, and every provider by its weight over a run. */
module RouteRuns {
  import opened GatewayModel
  import opened RealSums
  import opened SmoothRoundRobin
  import opened Balancers
  import opened BalancerRuns
  import opened BalancerChoices
  import opened Registries
  import opened Routers

  // ----- One decision -----

  /** Different names, none empty. */
  ghost predicate Distinguished(ps: seq<Provider>)
  {
    && (forall i :: 0 <= i < |ps| ==> ps[i].name != "")
    && (forall i, j :: 0 <= i < j < |ps| ==> ps[i].name != ps[j].name)
  }

  /** As wired, a candidate weighs what is configured for its provider. */
  lemma WiredWeight(cfg: Balancers.Config, name: string, model: string, w: real)
    requires w >= 0.0
    ensures var c := Candidate(name, model, w, 0, 0.0, 1.0, 1.0);
            LoadDenominator(cfg, c) == 1.0 && EffectiveWeight(cfg, c) == w
  {
    assert cfg.concurrencyPenalty * (0 as real) == 0.0;
    assert cfg.latencyPenalty * 0.0 == 0.0;
  }

  lemma HandedNext(cfg: Balancers.Config, init: seq<Provider>, last: Provider, model: string, weightOf: string -> real,
                   name: string)
    requires weightOf(last.name) >= 0.0
    ensures var cs := Candidates(init + [last], model, weightOf);
            && Weighable(cfg, cs) && Weighable(cfg, Candidates(init, model, weightOf))
            && Handed(cfg, cs, name) == Handed(cfg, Candidates(init, model, weightOf), name)
                                        + (if last.name == name then weightOf(name) else 0.0)
  {
    CandidatesAreWeighable(cfg, init + [last], model, weightOf);
    CandidatesAreWeighable(cfg, init, model, weightOf);
    WiredWeight(cfg, last.name, model, weightOf(last.name));
    hide Weighable;
    hide EffectiveWeight;
    var cs, front := Candidates(init + [last], model, weightOf), Candidates(init, model, weightOf);
    assert (init + [last])[..|init|] == init;
    assert cs == front + [CandidateOf(last, model, weightOf)];
    assert cs[..|cs| - 1] == front;
  }

  lemma {:induction false} HandedOnce(cfg: Balancers.Config, ps: seq<Provider>, model: string, weightOf: string -> real,
                                      name: string)
    requires forall i :: 0 <= i < |ps| ==> weightOf(ps[i].name) >= 0.0
    requires forall i, j :: 0 <= i < j < |ps| ==> ps[i].name != ps[j].name
    ensures Weighable(cfg, Candidates(ps, model, weightOf))
    ensures Handed(cfg, Candidates(ps, model, weightOf), name)
         == if exists i :: 0 <= i < |ps| && ps[i].name == name then weightOf(name) else 0.0
  {
    CandidatesAreWeighable(cfg, ps, model, weightOf);
    if |ps| > 0 {
      var init, last := ps[..|ps| - 1], ps[|ps| - 1];
      HandedOnce(cfg, init, model, weightOf, name);
      HandedNext(cfg, init, last, model, weightOf, name);
      assert ps == init + [last];
      hide Handed;
      hide Candidates;
      hide Weighable;
      if i :| 0 <= i < |init| && init[i].name == name {
        assert ps[i].name == name;
      }
    }
  }

  /**
   * The decided provider has the greatest current weight plus configured weight among the providers of the
   * decided model, as soon as one of their current weights lies above minus 2 to the power 63.
   */
  lemma DecidedIsGreatest(r: Router, before: BalancerState, after: BalancerState, d: Decision, step: Routers.Step,
                          p: Provider, j: nat)
    requires before.Valid() && r.Decides(before, after, d, step)
    requires Distinguished(r.modelProviders(d.model)) && p in r.modelProviders(d.model)
    requires forall q :: q in r.modelProviders(d.model) ==> r.weightOf(q.name) >= 0.0
    requires j < |r.modelProviders(d.model)|
    requires WeightOf(before, r.modelProviders(d.model)[j].name) > -9223372036854775808.0
    ensures WeightOf(before, p.name) + r.weightOf(p.name) <= WeightOf(before, d.provider) + r.weightOf(d.provider)
  {
    var ps, cfg := r.modelProviders(d.model), r.balancer.cfg;
    var cs := Candidates(ps, d.model, r.weightOf);
    CandidatesAreWeighable(cfg, ps, d.model, r.weightOf);
    SelectChoosesGreatest(cfg, before, cs, j);
    var k := Selection(cfg, before, cs).1;
    var i :| 0 <= i < |ps| && ps[i] == p;
    HandedOnce(cfg, ps, d.model, r.weightOf, p.name);
    HandedOnce(cfg, ps, d.model, r.weightOf, d.provider);
    assert cs[i].providerName == p.name && cs[k].providerName == d.provider;
  }

  /** A chosen name that is empty gives way to the first provider; any other is the decision. */
  lemma OnlyEmptyNamesGiveWay(r: Router, before: BalancerState, after: BalancerState, d: Decision, step: Routers.Step,
                              cs: seq<Candidate>, i: nat)
    requires before.Valid() && r.Decides(before, after, d, step)
    requires cs == Candidates(r.modelProviders(d.model), d.model, r.weightOf) && Weighable(r.balancer.cfg, cs)
    requires |cs| > 0 && i == Selection(r.balancer.cfg, before, cs).1
    ensures cs[i].providerName != "" ==> d.provider == cs[i].providerName
    ensures cs[i].providerName == "" ==> d.provider == r.modelProviders(d.model)[0].name
  {
  }

  // ----- Runs of one request -----

  /** What `|decisions|` calls of Route with the same request decide, and the balancer between them. */
  ghost predicate RouteRun(r: Router, states: seq<BalancerState>, decisions: seq<Decision>, chain: seq<Routers.Step>)
  {
    && |states| == |decisions| + 1 && (forall j :: 0 <= j < |states| ==> states[j].Valid())
    && forall j :: 0 <= j < |decisions| ==> Routed(r, states[j], states[j + 1], decisions[j], chain)
  }

  ghost predicate Routed(r: Router, before: BalancerState, after: BalancerState, d: Decision, chain: seq<Routers.Step>)
    requires before.Valid()
  {
    exists k :: r.FirstDecides(before, after, Some(d), chain, k)
  }

  /** How many decisions name the provider. */
  ghost function DecidedCount(decisions: seq<Decision>, name: string): nat
  {
    var n := |decisions| - 1;
    if n < 0 then 0 else DecidedCount(decisions[..n], name) + (if decisions[n].provider == name then 1 else 0)
  }

  /** The providers of the first served model, with their weights, on a balancer that does not know them yet. */
  ghost predicate Starts(r: Router, st: BalancerState, chain: seq<Routers.Step>, k: nat, w: seq<nat>)
  {
    && FirstServed(r.modelProviders, chain, k) && st.Valid()
    && var ps := r.modelProviders(chain[k].model);
       && Distinguished(ps) && |w| == |ps|
       && forall i :: 0 <= i < |ps| ==> WeightOf(st, ps[i].name) == 0.0 && r.weightOf(ps[i].name) == w[i] as real
  }

  lemma StartsFresh(r: Router, st: BalancerState, chain: seq<Routers.Step>, k: nat, w: seq<nat>, cs: seq<Candidate>)
    requires Starts(r, st, chain, k, w)
    requires cs == Candidates(r.modelProviders(chain[k].model), chain[k].model, r.weightOf)
    ensures FreshSet(r.balancer.cfg, st, cs, Names(cs), Reals(w))
  {
    var ps, cfg := r.modelProviders(chain[k].model), r.balancer.cfg;
    CandidatesAreWeighable(cfg, ps, chain[k].model, r.weightOf);
    forall i | 0 <= i < |cs|
      ensures Weights(cfg, cs)[i] == Reals(w)[i] && View(st, Names(cs))[i] == Zeros(|cs|)[i]
    {
      WiredWeight(cfg, ps[i].name, chain[k].model, r.weightOf(ps[i].name));
    }
    assert Weights(cfg, cs) == Reals(w) && View(st, Names(cs)) == Zeros(|cs|);
  }

  /** One call of the run is one Select on the providers of the first served model. */
  lemma RoutedBySelect(r: Router, before: BalancerState, after: BalancerState, d: Decision,
                       chain: seq<Routers.Step>, k: nat, cs: seq<Candidate>)
    requires before.Valid() && Routed(r, before, after, d, chain) && FirstServed(r.modelProviders, chain, k)
    requires cs == Candidates(r.modelProviders(chain[k].model), chain[k].model, r.weightOf)
    requires Distinguished(r.modelProviders(chain[k].model)) && Weighable(r.balancer.cfg, cs) && |cs| > 0
    ensures after == Selection(r.balancer.cfg, before, cs).0
    ensures d.provider == Names(cs)[Selection(r.balancer.cfg, before, cs).1]
  {
    var j :| r.FirstDecides(before, after, Some(d), chain, j);
    ServedOrNot(r.modelProviders, chain);
    assert j == k && d.model == chain[k].model;
  }

  lemma {:induction false} RunIsRepeated(r: Router, states: seq<BalancerState>, decisions: seq<Decision>,
                                         chain: seq<Routers.Step>, k: nat, cs: seq<Candidate>, n: nat)
    requires RouteRun(r, states, decisions, chain) && n <= |decisions|
    requires FirstServed(r.modelProviders, chain, k) && Distinguished(r.modelProviders(chain[k].model))
    requires cs == Candidates(r.modelProviders(chain[k].model), chain[k].model, r.weightOf)
    requires Weighable(r.balancer.cfg, cs) && |cs| > 0
    ensures states[n] == Repeated(r.balancer.cfg, states[0], cs, n)
  {
    hide FirstServed;
    hide Distinguished;
    hide Candidates;
    hide Weighable;
    hide Routed;
    hide Selection;
    hide BalancerState.Valid;
    if n > 0 {
      RunIsRepeated(r, states, decisions, chain, k, cs, n - 1);
      assert Routed(r, states[n - 1], states[n], decisions[n - 1], chain);
      RoutedBySelect(r, states[n - 1], states[n], decisions[n - 1], chain, k, cs);
    }
  }

  lemma {:induction false} CountsAgree(decisions: seq<Decision>, choices: seq<nat>, names: seq<string>, i: nat)
    requires |decisions| == |choices| && i < |names| && Distinct(names)
    requires forall j :: 0 <= j < |choices| ==> choices[j] < |names| && decisions[j].provider == names[choices[j]]
    ensures DecidedCount(decisions, names[i]) == CountOf(choices, i)
  {
    var n := |decisions| - 1;
    if n >= 0 {
      CountsAgree(decisions[..n], choices[..n], names, i);
      assert names[choices[n]] == names[i] <==> choices[n] == i;
    }
  }

  /**
   * Fairness of routing: a balancer that has not used the providers of the first served model yet, and as many
   * calls of Route as their weights add up to, decide every provider exactly as often as its configured weight.
   */
  lemma RoutesAreFair(r: Router, states: seq<BalancerState>, decisions: seq<Decision>, chain: seq<Routers.Step>,
                      k: nat, w: seq<nat>, i: nat)
    requires RouteRun(r, states, decisions, chain) && Starts(r, states[0], chain, k, w)
    requires Total(w) > 0 && |decisions| == Total(w) && i < |w|
    ensures DecidedCount(decisions, r.modelProviders(chain[k].model)[i].name) == w[i]
  {
    var ps, cfg := r.modelProviders(chain[k].model), r.balancer.cfg;
    var cs := Candidates(ps, chain[k].model, r.weightOf);
    CandidatesAreWeighable(cfg, ps, chain[k].model, r.weightOf);
    StartsFresh(r, states[0], chain, k, w, cs);
    var names, choices := Names(cs), Choices(cfg, states[0], cs, Total(w));
    forall j | 0 <= j < |choices|
      ensures choices[j] < |names| && decisions[j].provider == names[choices[j]]
    {
      RunIsRepeated(r, states, decisions, chain, k, cs, j);
      RoutedBySelect(r, states[j], states[j + 1], decisions[j], chain, k, cs);
    }
    CountsAgree(decisions, choices, names, i);
    SelectIsFair(cfg, states[0], cs, names, w, i);
  }
}

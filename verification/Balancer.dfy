/**
 * The weighted balancer. `BalancerState` and the functions over it say what the methods of the
 * class `Balancer` do to its slots; the theorems below the class are about these functions.
 */
module Balancers {
  import opened RealSums

  datatype Config = Config(concurrencyPenalty: real, latencyPenalty: real)

  datatype Candidate = Candidate(
    providerName: string, model: string, baseWeight: real, activeConnections: int,
    normalizedP99Latency: real, healthScore: real, warmupFactor: real)

  /** Where the running best starts: the literal -1 << 63. */
  const SENTINEL: real := -9223372036854775808.0

  const NO_CANDIDATE := Candidate("", "", 0.0, 0, 0.0, 0.0, 0.0)

  function LoadDenominator(cfg: Config, c: Candidate): real
  {
    1.0 + cfg.concurrencyPenalty * c.activeConnections as real + cfg.latencyPenalty * c.normalizedP99Latency
  }

  function AtLeastZero(x: real): real
  {
    if x <= 0.0 then 0.0 else x
  }

  function EffectiveWeight(cfg: Config, c: Candidate): (w: real)
    requires LoadDenominator(cfg, c) != 0.0
    ensures w >= 0.0
  {
    var loadFactor := 1.0 / LoadDenominator(cfg, c);
    AtLeastZero(c.baseWeight * AtLeastZero(c.warmupFactor) * loadFactor * AtLeastZero(c.healthScore))
  }

  /** As wired by the gateway (no load, full warm-up and health) the effective weight is the configured one. */
  lemma WiredWeightIsBaseWeight(cfg: Config, name: string, model: string, weight: nat)
    ensures var c := Candidate(name, model, weight as real, 0, 0.0, 1.0, 1.0);
            LoadDenominator(cfg, c) == 1.0 && EffectiveWeight(cfg, c) == weight as real
  {
    var c := Candidate(name, model, weight as real, 0, 0.0, 1.0, 1.0);
    assert cfg.concurrencyPenalty * (0 as real) == 0.0;
    assert cfg.latencyPenalty * 0.0 == 0.0;
  }

  /** With a warm, healthy provider of positive weight, the load divides the weight and nothing else does. */
  lemma LoadDividesWeight(cfg: Config, c: Candidate, load: real)
    requires load == 1.0 + cfg.concurrencyPenalty * c.activeConnections as real
                     + cfg.latencyPenalty * c.normalizedP99Latency
    requires load > 0.0 && c.baseWeight >= 0.0 && c.warmupFactor >= 0.0 && c.healthScore >= 0.0
    ensures LoadDenominator(cfg, c) == load
    ensures EffectiveWeight(cfg, c) * load == c.baseWeight * c.warmupFactor * c.healthScore
  {
    var bw, h := c.baseWeight * c.warmupFactor, c.healthScore;
    NonNegativeProduct(c.baseWeight, c.warmupFactor);
    DivideByLoad(bw, h, load);
  }

  lemma NonNegativeProduct(x: real, y: real)
    requires x >= 0.0 && y >= 0.0
    ensures x * y >= 0.0
  {
  }

  lemma DivideByLoad(bw: real, h: real, load: real)
    requires bw >= 0.0 && h >= 0.0 && load > 0.0
    ensures bw * (1.0 / load) * h >= 0.0 && bw * (1.0 / load) * h * load == bw * h
  {
    var f := 1.0 / load;
    assert f * load == 1.0;
    NonNegativeProduct(bw, f);
    NonNegativeProduct(bw * f, h);
    assert bw * f * h * load == bw * h * (f * load);
  }

  /** A cold or unhealthy provider, or one without weight, weighs nothing. */
  lemma NothingWeighsNothing(cfg: Config, c: Candidate)
    requires LoadDenominator(cfg, c) > 0.0 && (c.warmupFactor <= 0.0 || c.healthScore <= 0.0 || c.baseWeight <= 0.0)
    ensures EffectiveWeight(cfg, c) == 0.0
  {
    var f, w, h := 1.0 / LoadDenominator(cfg, c), AtLeastZero(c.warmupFactor), AtLeastZero(c.healthScore);
    if c.baseWeight <= 0.0 && w > 0.0 && h > 0.0 {
      NonNegativeProduct(-c.baseWeight, w);
      NonNegativeProduct((-c.baseWeight) * w, f);
      NonNegativeProduct((-c.baseWeight) * w * f, h);
      assert c.baseWeight * w * f * h == -((-c.baseWeight) * w * f * h);
    }
  }

  ghost predicate Weighable(cfg: Config, candidates: seq<Candidate>)
  {
    forall c :: c in candidates ==> LoadDenominator(cfg, c) != 0.0
  }

  /** The first `n` effective weights. */
  ghost function Weights(cfg: Config, candidates: seq<Candidate>): (effs: seq<real>)
    requires Weighable(cfg, candidates)
    ensures |effs| == |candidates|
    ensures forall i {:trigger effs[i]} :: 0 <= i < |effs| ==>
              effs[i] == EffectiveWeight(cfg, candidates[i]) && effs[i] >= 0.0
  {
    seq(|candidates|, i requires 0 <= i < |candidates| => EffectiveWeight(cfg, candidates[i]))
  }

  // ----- Slots -----

  ghost predicate NamesSlot(m: map<string, nat>, s: nat)
  {
    exists a :: a in m && m[a] == s
  }

  ghost predicate ShareSlot(m: map<string, nat>, a: string, b: string)
  {
    a in m && b in m && m[a] == m[b]
  }

  /** The map is a bijection between its keys and the numbers below `n`. */
  ghost predicate Bijection(m: map<string, nat>, n: nat)
  {
    && (forall a :: a in m ==> m[a] < n)
    && (forall a, b :: ShareSlot(m, a, b) ==> a == b)
    && (forall s: nat :: s < n ==> NamesSlot(m, s))
  }

  datatype BalancerState = BalancerState(slots: seq<real>, nameToSlot: map<string, nat>)
  {
    ghost predicate Valid()
    {
      Bijection(nameToSlot, |slots|)
    }
  }

  ghost function Registered(st: BalancerState, name: string): (r: BalancerState)
  {
    if name in st.nameToSlot then st
    else BalancerState(st.slots + [0.0], st.nameToSlot[name := |st.slots|])
  }

  ghost function Resolved(st: BalancerState, names: seq<string>): (r: BalancerState)
  {
    if |names| == 0 then st
    else Registered(Resolved(st, names[..|names| - 1]), names[|names| - 1])
  }

  ghost function Names(candidates: seq<Candidate>): (names: seq<string>)
    ensures |names| == |candidates|
    ensures forall i {:trigger names[i]} :: 0 <= i < |names| ==> names[i] == candidates[i].providerName
  {
    seq(|candidates|, i requires 0 <= i < |candidates| => candidates[i].providerName)
  }

  /** The slot of every name, once all of them are known. */
  ghost function SlotsOf(st: BalancerState, names: seq<string>): (idx: seq<nat>)
    requires forall a :: a in names ==> a in st.nameToSlot
    ensures |idx| == |names|
    ensures forall i {:trigger idx[i]} :: 0 <= i < |idx| ==> idx[i] == st.nameToSlot[names[i]]
  {
    seq(|names|, i requires 0 <= i < |names| => assert names[i] in names; st.nameToSlot[names[i]])
  }

  lemma BijectionGrows(m: map<string, nat>, n: nat, name: string)
    requires Bijection(m, n) && name !in m
    ensures Bijection(m[name := n], n + 1)
  {
    var r := m[name := n];
    forall a, b | ShareSlot(r, a, b)
      ensures a == b
    {
      assert a in m && b in m ==> ShareSlot(m, a, b);
    }
    forall s: nat | s < n + 1
      ensures NamesSlot(r, s)
    {
      if s == n {
        assert name in r && r[name] == s;
      } else {
        assert NamesSlot(m, s);
        var a :| a in m && m[a] == s;
        assert a in r && r[a] == s;
      }
    }
  }

  lemma RegisteredIsValid(st: BalancerState, name: string)
    requires st.Valid()
    ensures Registered(st, name).Valid()
    ensures Sum(Registered(st, name).slots) == Sum(st.slots)
  {
    if name !in st.nameToSlot {
      SumAppend(st.slots, 0.0);
      BijectionGrows(st.nameToSlot, |st.slots|, name);
    }
  }

  lemma {:induction false} ResolvedIsValid(st: BalancerState, names: seq<string>)
    requires st.Valid()
    ensures Resolved(st, names).Valid()
    ensures Sum(Resolved(st, names).slots) == Sum(st.slots)
  {
    if |names| > 0 {
      ResolvedIsValid(st, names[..|names| - 1]);
      RegisteredIsValid(Resolved(st, names[..|names| - 1]), names[|names| - 1]);
    }
  }

  lemma ResolvedNext(st: BalancerState, names: seq<string>, i: nat)
    requires i < |names|
    ensures Resolved(st, names[..i + 1]) == Registered(Resolved(st, names[..i]), names[i])
  {
    assert names[..i + 1][..i] == names[..i] && names[..i + 1][i] == names[i];
  }

  lemma {:induction false} ResolvedKnowsAll(st: BalancerState, names: seq<string>)
    ensures forall a :: a in names ==> a in Resolved(st, names).nameToSlot
  {
    if |names| > 0 {
      var init := names[..|names| - 1];
      ResolvedKnowsAll(st, init);
      assert forall a :: a in names ==> a in init || a == names[|names| - 1];
    }
  }

  // ----- The pass over the candidates -----

  /** The slots after the first `n` candidates have received their weight. */
  ghost function Accumulated(slots: seq<real>, idx: seq<nat>, effs: seq<real>, n: nat): (r: seq<real>)
    requires |idx| == |effs| && n <= |idx| && forall i :: 0 <= i < |idx| ==> idx[i] < |slots|
    ensures |r| == |slots|
  {
    if n == 0 then slots
    else
      var prev := Accumulated(slots, idx, effs, n - 1);
      prev[idx[n - 1] := prev[idx[n - 1]] + effs[n - 1]]
  }

  /** What the pass compares at candidate `i`: its slot right after its own weight arrived. */
  ghost function Running(slots: seq<real>, idx: seq<nat>, effs: seq<real>, i: nat): real
    requires |idx| == |effs| && i < |idx| && forall i :: 0 <= i < |idx| ==> idx[i] < |slots|
  {
    Accumulated(slots, idx, effs, i + 1)[idx[i]]
  }

  datatype Best = Best(index: nat, weight: real)

  /** The running best after the first `n` candidates: a strictly larger weight takes over. */
  ghost function PassBest(slots: seq<real>, idx: seq<nat>, effs: seq<real>, n: nat): (b: Best)
    requires |idx| == |effs| && n <= |idx| && forall i :: 0 <= i < |idx| ==> idx[i] < |slots|
    ensures b.index == 0 || b.index < n
  {
    if n == 0 then Best(0, SENTINEL)
    else
      var b := PassBest(slots, idx, effs, n - 1);
      var cw := Running(slots, idx, effs, n - 1);
      if cw > b.weight then Best(n - 1, cw) else b
  }

  ghost function Charge(slots: seq<real>, w: nat, total: real): (r: seq<real>)
    requires w < |slots|
    ensures |r| == |slots|
  {
    slots[w := slots[w] - total]
  }

  /** The pass over resolved slots, followed by charging the total to the best one. */
  ghost function Charged(slots: seq<real>, idx: seq<nat>, effs: seq<real>): (r: (seq<real>, nat))
    requires |idx| == |effs| > 0 && forall i :: 0 <= i < |idx| ==> idx[i] < |slots|
    ensures |r.0| == |slots| && r.1 < |idx|
  {
    var best := PassBest(slots, idx, effs, |idx|).index;
    (Charge(Accumulated(slots, idx, effs, |idx|), idx[best], Sum(effs)), best)
  }

  /** What one call of Select does: the new state and the index of the chosen candidate. */
  ghost function Selection(cfg: Config, st: BalancerState, candidates: seq<Candidate>): (r: (BalancerState, nat))
    requires st.Valid() && Weighable(cfg, candidates) && |candidates| > 0
    ensures r.1 < |candidates|
  {
    var names := Names(candidates);
    ResolvedIsValid(st, names);
    ResolvedKnowsAll(st, names);
    var mid := Resolved(st, names);
    var c := Charged(mid.slots, SlotsOf(mid, names), Weights(cfg, candidates));
    (BalancerState(c.0, mid.nameToSlot), c.1)
  }

  // ----- The class -----

  /** The calls run under one lock, so every method is one step. */
  class Balancer {
    const cfg: Config
    var slots: seq<real>
    var nameToSlot: map<string, nat>

    ghost function State(): BalancerState
      reads this
    {
      BalancerState(slots, nameToSlot)
    }

    ghost predicate Valid()
      reads this
    {
      State().Valid()
    }

    constructor (cfg: Config)
      ensures Valid() && this.cfg == cfg
      ensures State() == BalancerState([], map[])
    {
      this.cfg := cfg;
      slots := [];
      nameToSlot := map[];
    }

    method Register(name: string) returns (slot: nat)
      requires Valid()
      modifies this
      ensures Valid() && State() == Registered(old(State()), name)
      ensures name in nameToSlot && slot == nameToSlot[name]
    {
      RegisteredIsValid(State(), name);
      if name in nameToSlot {
        return nameToSlot[name];
      }
      slots := slots + [0.0];
      slot := |slots| - 1;
      nameToSlot := nameToSlot[name := slot];
    }

    method ResolveSlots(candidates: seq<Candidate>) returns (idx: seq<nat>)
      requires Valid()
      modifies this
      ensures Valid() && State() == Resolved(old(State()), Names(candidates))
      ensures |idx| == |candidates|
      ensures forall i :: 0 <= i < |idx| ==>
                candidates[i].providerName in nameToSlot && idx[i] == nameToSlot[candidates[i].providerName]
    {
      ghost var names := Names(candidates);
      idx := [];
      for i := 0 to |candidates|
        invariant State() == Resolved(old(State()), names[..i])
        invariant |idx| == i
        invariant forall j :: 0 <= j < i ==>
                    candidates[j].providerName in nameToSlot && idx[j] == nameToSlot[candidates[j].providerName]
      {
        var name := candidates[i].providerName;
        ResolvedNext(old(State()), names, i);
        assert names[i] == name;
        if name in nameToSlot {
          idx := idx + [nameToSlot[name]];
        } else {
          slots := slots + [0.0];
          var s := |slots| - 1;
          nameToSlot := nameToSlot[name := s];
          idx := idx + [s];
        }
      }
      assert names[..|candidates|] == names;
      ResolvedIsValid(old(State()), names);
    }

    /** The weights of all candidates and their total. */
    method Weigh(candidates: seq<Candidate>) returns (effs: seq<real>, totalEff: real)
      requires Weighable(cfg, candidates)
      ensures effs == Weights(cfg, candidates) && totalEff == Sum(effs)
    {
      effs := [];
      totalEff := 0.0;
      ghost var weights := Weights(cfg, candidates);
      for i := 0 to |candidates|
        invariant effs == weights[..i] && totalEff == Sum(effs)
      {
        var eff := EffectiveWeight(cfg, candidates[i]);
        assert Sum(effs + [eff]) == Sum(effs) + eff by { SumAppend(effs, eff); }
        assert weights[i] == eff;
        effs := effs + [eff];
        totalEff := totalEff + eff;
      }
    }

    /** Adds every weight to its slot and keeps the best one seen so far, in one loop; then charges the total. */
    method Pass(idx: seq<nat>, effs: seq<real>, totalEff: real) returns (bestIdx: nat)
      requires |idx| == |effs| > 0 && forall i :: 0 <= i < |idx| ==> idx[i] < |slots|
      requires totalEff == Sum(effs)
      modifies this`slots
      ensures (slots, bestIdx) == Charged(old(slots), idx, effs)
    {
      ghost var before := slots;
      var bestWeight := SENTINEL;
      bestIdx := 0;
      for i := 0 to |idx|
        invariant slots == Accumulated(before, idx, effs, i)
        invariant Best(bestIdx, bestWeight) == PassBest(before, idx, effs, i)
      {
        slots := slots[idx[i] := slots[idx[i]] + effs[i]];
        var cw := slots[idx[i]];
        if cw > bestWeight {
          bestWeight := cw;
          bestIdx := i;
        }
      }
      slots := slots[idx[bestIdx] := slots[idx[bestIdx]] - totalEff];
    }

    method Select(candidates: seq<Candidate>) returns (chosen: Candidate)
      requires Valid() && Weighable(cfg, candidates)
      modifies this
      ensures |candidates| == 0 ==> chosen == NO_CANDIDATE && State() == old(State())
      ensures |candidates| > 0 ==>
                && State() == Selection(cfg, old(State()), candidates).0
                && chosen == candidates[Selection(cfg, old(State()), candidates).1]
      ensures Valid()
    {
      if |candidates| == 0 {
        return NO_CANDIDATE;
      }
      var effs, totalEff := Weigh(candidates);
      var idx := ResolveSlots(candidates);
      ghost var mid := State();
      assert idx == SlotsOf(mid, Names(candidates)) by { ResolvedKnowsAll(old(State()), Names(candidates)); }
      var bestIdx := Pass(idx, effs, totalEff);
      chosen := candidates[bestIdx];
    }
  }

  // ----- Every run: the bijection and the conservation of weight -----

  lemma {:induction false} AccumulatedSum(slots: seq<real>, idx: seq<nat>, effs: seq<real>, n: nat)
    requires |idx| == |effs| && n <= |idx| && forall i :: 0 <= i < |idx| ==> idx[i] < |slots|
    ensures Sum(Accumulated(slots, idx, effs, n)) == Sum(slots) + Sum(effs[..n])
  {
    if n > 0 {
      var prev := Accumulated(slots, idx, effs, n - 1);
      AccumulatedSum(slots, idx, effs, n - 1);
      SumUpdate(prev, idx[n - 1], prev[idx[n - 1]] + effs[n - 1]);
      assert effs[..n] == effs[..n - 1] + [effs[n - 1]];
      SumAppend(effs[..n - 1], effs[n - 1]);
    }
  }

  lemma ChargeSum(slots: seq<real>, w: nat, total: real)
    requires w < |slots|
    ensures Sum(Charge(slots, w, total)) == Sum(slots) - total
  {
    SumTake(slots, w, total);
  }

  lemma AllAccumulatedSum(slots: seq<real>, idx: seq<nat>, effs: seq<real>)
    requires |idx| == |effs| && forall i :: 0 <= i < |idx| ==> idx[i] < |slots|
    ensures Sum(Accumulated(slots, idx, effs, |idx|)) == Sum(slots) + Sum(effs)
  {
    AccumulatedSum(slots, idx, effs, |idx|);
    assert effs[..|idx|] == effs;
  }

  /** Adding every weight and taking their sum from one slot changes nothing in total. */
  lemma ChargedConserves(slots: seq<real>, idx: seq<nat>, effs: seq<real>)
    requires |idx| == |effs| > 0 && forall i :: 0 <= i < |idx| ==> idx[i] < |slots|
    ensures Sum(Charged(slots, idx, effs).0) == Sum(slots)
  {
    AllAccumulatedSum(slots, idx, effs);
    ChargeSum(Accumulated(slots, idx, effs, |idx|), idx[Charged(slots, idx, effs).1], Sum(effs));
  }

  /** Select keeps the bijection and the sum of all current weights, whatever the candidate list. */
  lemma SelectionKeepsBalance(cfg: Config, st: BalancerState, candidates: seq<Candidate>)
    requires st.Valid() && Weighable(cfg, candidates) && |candidates| > 0
    ensures Selection(cfg, st, candidates).0.Valid()
    ensures Sum(Selection(cfg, st, candidates).0.slots) == Sum(st.slots)
  {
    var names := Names(candidates);
    ResolvedIsValid(st, names);
    ResolvedKnowsAll(st, names);
    var mid := Resolved(st, names);
    ChargedConserves(mid.slots, SlotsOf(mid, names), Weights(cfg, candidates));
  }

  datatype Op = RegisterOp(name: string) | SelectOp(candidates: seq<Candidate>)

  ghost predicate Runnable(cfg: Config, ops: seq<Op>)
  {
    forall op :: op in ops && op.SelectOp? ==> Weighable(cfg, op.candidates)
  }

  ghost function Apply(cfg: Config, st: BalancerState, op: Op): (r: BalancerState)
    requires st.Valid() && (op.SelectOp? ==> Weighable(cfg, op.candidates))
    ensures r.Valid() && Sum(r.slots) == Sum(st.slots)
  {
    match op
    case RegisterOp(name) =>
      RegisteredIsValid(st, name);
      Registered(st, name)
    case SelectOp(candidates) =>
      if |candidates| == 0 then st
      else
        SelectionKeepsBalance(cfg, st, candidates);
        Selection(cfg, st, candidates).0
  }

  ghost function Run(cfg: Config, ops: seq<Op>): (r: BalancerState)
    requires Runnable(cfg, ops)
    ensures r.Valid() && Sum(r.slots) == 0.0
  {
    if |ops| == 0 then BalancerState([], map[])
    else Apply(cfg, Run(cfg, ops[..|ops| - 1]), ops[|ops| - 1])
  }
}

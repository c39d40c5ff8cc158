/**
 * Which candidate Select chooses, said without the loop: the one whose current weight plus everything the
 * call hands to its name is greatest. The loop starts its comparison at a fixed low weight, so this needs
 * weights above it; no run gets there before its totals add up to 2 to the power 63.
 */
module BalancerChoices {
  import opened RealSums
  import opened Balancers
  import opened BalancerRuns

  // ----- Final weights -----

  /** What the first `n` candidates give to slot `s`. */
  ghost function Received(idx: seq<nat>, effs: seq<real>, n: nat, s: nat): real
    requires |idx| == |effs| && n <= |idx|
  {
    if n == 0 then 0.0 else Received(idx, effs, n - 1, s) + (if idx[n - 1] == s then effs[n - 1] else 0.0)
  }

  lemma {:induction false} AccumulatedIsReceived(slots: seq<real>, idx: seq<nat>, effs: seq<real>, n: nat, s: nat)
    requires Passable(slots, idx, effs) && n <= |idx| && s < |slots|
    ensures Accumulated(slots, idx, effs, n)[s] == slots[s] + Received(idx, effs, n, s)
  {
    if n > 0 {
      AccumulatedIsReceived(slots, idx, effs, n - 1, s);
    }
  }

  /** What the call hands to a provider name, repeated names included. */
  ghost function Handed(cfg: Config, candidates: seq<Candidate>, name: string): real
    requires Weighable(cfg, candidates)
  {
    if |candidates| == 0 then 0.0
    else
      var last := candidates[|candidates| - 1];
      Handed(cfg, candidates[..|candidates| - 1], name)
      + (if last.providerName == name then EffectiveWeight(cfg, last) else 0.0)
  }

  /** A name's weight once the call has handed out everything. */
  ghost function FinalWeight(cfg: Config, st: BalancerState, candidates: seq<Candidate>, name: string): real
    requires st.Valid() && Weighable(cfg, candidates)
  {
    WeightOf(st, name) + Handed(cfg, candidates, name)
  }

  /** The candidate at `k` has the greatest final weight. */
  ghost predicate Greatest(cfg: Config, st: BalancerState, candidates: seq<Candidate>, k: nat)
    requires st.Valid() && Weighable(cfg, candidates)
  {
    && k < |candidates|
    && forall i :: 0 <= i < |candidates| ==>
         FinalWeight(cfg, st, candidates, candidates[i].providerName)
         <= FinalWeight(cfg, st, candidates, candidates[k].providerName)
  }

  lemma WeighablePrefix(cfg: Config, candidates: seq<Candidate>, n: nat)
    requires Weighable(cfg, candidates) && n <= |candidates|
    ensures Weighable(cfg, candidates[..n])
  {
  }

  lemma {:induction false} HandedIsReceived(
    cfg: Config, candidates: seq<Candidate>, m: map<string, nat>, idx: seq<nat>, name: string, n: nat)
    requires Weighable(cfg, candidates) && n <= |candidates| == |idx| && name in m
    requires forall i :: 0 <= i < |candidates| ==>
               candidates[i].providerName in m && idx[i] == m[candidates[i].providerName]
    requires forall a, b :: ShareSlot(m, a, b) ==> a == b
    ensures Handed(cfg, candidates[..n], name) == Received(idx, Weights(cfg, candidates), n, m[name])
  {
    if n > 0 {
      HandedIsReceived(cfg, candidates, m, idx, name, n - 1);
      assert candidates[..n][..n - 1] == candidates[..n - 1];
      var other := candidates[n - 1].providerName;
      if m[other] == m[name] {
        assert ShareSlot(m, other, name);
      }
    }
  }

  /** The slots of a call, as Select resolves them. */
  lemma ResolvedCall(cfg: Config, st: BalancerState, candidates: seq<Candidate>)
    returns (mid: BalancerState, idx: seq<nat>)
    requires st.Valid() && Weighable(cfg, candidates) && |candidates| > 0
    ensures mid == Resolved(st, Names(candidates)) && mid.Valid() && |idx| == |candidates|
    ensures forall i :: 0 <= i < |idx| ==>
              candidates[i].providerName in mid.nameToSlot && idx[i] == mid.nameToSlot[candidates[i].providerName]
    ensures Passable(mid.slots, idx, Weights(cfg, candidates))
    ensures Selection(cfg, st, candidates)
         == (BalancerState(Charged(mid.slots, idx, Weights(cfg, candidates)).0, mid.nameToSlot),
             Charged(mid.slots, idx, Weights(cfg, candidates)).1)
  {
    var names := Names(candidates);
    ResolvedIsValid(st, names);
    ResolvedKnowsAll(st, names);
    mid := Resolved(st, names);
    idx := SlotsOf(mid, names);
    forall i | 0 <= i < |idx|
      ensures candidates[i].providerName in mid.nameToSlot && idx[i] == mid.nameToSlot[candidates[i].providerName]
    {
      assert names[i] == candidates[i].providerName && names[i] in names;
    }
  }

  /** The final weight of a candidate is what its slot holds at the end of the pass. */
  lemma FinalIsAccumulated(cfg: Config, st: BalancerState, candidates: seq<Candidate>, mid: BalancerState,
                           idx: seq<nat>, i: nat)
    requires st.Valid() && Weighable(cfg, candidates) && i < |candidates| == |idx|
    requires mid == Resolved(st, Names(candidates)) && mid.Valid()
    requires forall i :: 0 <= i < |idx| ==>
               candidates[i].providerName in mid.nameToSlot && idx[i] == mid.nameToSlot[candidates[i].providerName]
    requires Passable(mid.slots, idx, Weights(cfg, candidates))
    ensures FinalWeight(cfg, st, candidates, candidates[i].providerName)
         == Accumulated(mid.slots, idx, Weights(cfg, candidates), |idx|)[idx[i]]
  {
    var name := candidates[i].providerName;
    ResolvedKeepsWeights(st, Names(candidates), name);
    HandedIsReceived(cfg, candidates, mid.nameToSlot, idx, name, |candidates|);
    assert candidates[..|candidates|] == candidates;
    AccumulatedIsReceived(mid.slots, idx, Weights(cfg, candidates), |idx|, idx[i]);
  }

  /**
   * Select chooses a candidate of greatest final weight as soon as one candidate's current weight lies above
   * minus 2 to the power 63.
   */
  lemma SelectChoosesGreatest(cfg: Config, st: BalancerState, candidates: seq<Candidate>, j: nat)
    requires st.Valid() && Weighable(cfg, candidates) && j < |candidates|
    requires WeightOf(st, candidates[j].providerName) > -9223372036854775808.0
    ensures Greatest(cfg, st, candidates, Selection(cfg, st, candidates).1)
  {
    var mid, idx := ResolvedCall(cfg, st, candidates);
    var effs := Weights(cfg, candidates);
    ResolvedKeepsWeights(st, Names(candidates), candidates[j].providerName);
    AccumulatedGrows(mid.slots, idx, effs, 0, |idx|, idx[j]);
    FusedPassRefinesTwoPass(mid.slots, idx, effs);
    FinalsAreOrdered(cfg, st, candidates, mid, idx, Selection(cfg, st, candidates).1);
  }

  lemma FinalsAreOrdered(cfg: Config, st: BalancerState, candidates: seq<Candidate>, mid: BalancerState,
                         idx: seq<nat>, k: nat)
    requires st.Valid() && Weighable(cfg, candidates) && |candidates| == |idx|
    requires mid == Resolved(st, Names(candidates)) && mid.Valid()
    requires forall i :: 0 <= i < |idx| ==>
               candidates[i].providerName in mid.nameToSlot && idx[i] == mid.nameToSlot[candidates[i].providerName]
    requires Passable(mid.slots, idx, Weights(cfg, candidates))
    requires IsMaximal(mid.slots, idx, Weights(cfg, candidates), k)
    ensures Greatest(cfg, st, candidates, k)
  {
    FinalIsAccumulated(cfg, st, candidates, mid, idx, k);
    forall i | 0 <= i < |candidates|
      ensures FinalWeight(cfg, st, candidates, candidates[i].providerName)
           <= FinalWeight(cfg, st, candidates, candidates[k].providerName)
    {
      FinalIsAccumulated(cfg, st, candidates, mid, idx, i);
    }
  }

  /** Among different names, the first of the greatest. */
  lemma SelectChoosesFirst(cfg: Config, st: BalancerState, candidates: seq<Candidate>, j: nat, i: nat)
    requires st.Valid() && Weighable(cfg, candidates) && j < |candidates| && Distinct(Names(candidates))
    requires WeightOf(st, candidates[j].providerName) > -9223372036854775808.0
    requires i < Selection(cfg, st, candidates).1
    ensures FinalWeight(cfg, st, candidates, candidates[i].providerName)
          < FinalWeight(cfg, st, candidates, candidates[Selection(cfg, st, candidates).1].providerName)
  {
    var k := Selection(cfg, st, candidates).1;
    var mid, idx := ResolvedCall(cfg, st, candidates);
    var effs := Weights(cfg, candidates);
    var names := Names(candidates);
    assert Distinct(idx) by {
      forall x, y | 0 <= x < y < |idx|
        ensures idx[x] != idx[y]
      {
        assert names[x] != names[y] && !ShareSlot(mid.nameToSlot, names[x], names[y]);
      }
    }
    var pre := seq(|idx|, x requires 0 <= x < |idx| => mid.slots[idx[x]] + effs[x]);
    PassBestDistinct(mid.slots, idx, effs, pre, |idx|);
    ResolvedKeepsWeights(st, names, candidates[j].providerName);
    assert pre[j] > -9223372036854775808.0;
    FinalIsAccumulated(cfg, st, candidates, mid, idx, i);
    FinalIsAccumulated(cfg, st, candidates, mid, idx, k);
    AccumulatedDistinct(mid.slots, idx, effs, |idx|, i);
    AccumulatedDistinct(mid.slots, idx, effs, |idx|, k);
    assert pre[i] < pre[k];
  }

  // ----- How low a run can get -----

  /** No slot lies below -B, and no two together do. */
  ghost predicate NotBelow(slots: seq<real>, B: real)
  {
    && B >= 0.0
    && (forall s :: 0 <= s < |slots| ==> slots[s] >= -B)
    && (forall s, t :: 0 <= s < t < |slots| ==> slots[s] + slots[t] >= -B)
  }

  lemma {:induction false} ResolvedNotBelow(st: BalancerState, names: seq<string>, B: real)
    requires NotBelow(st.slots, B)
    ensures NotBelow(Resolved(st, names).slots, B)
  {
    if |names| > 0 {
      ResolvedNotBelow(st, names[..|names| - 1], B);
    }
  }

  lemma GrownNotBelow(slots: seq<real>, more: seq<real>, B: real)
    requires NotBelow(slots, B) && |more| == |slots| && forall s :: 0 <= s < |slots| ==> slots[s] <= more[s]
    ensures NotBelow(more, B)
  {
  }

  lemma ChargeNotBelow(slots: seq<real>, w: nat, total: real, B: real)
    requires NotBelow(slots, B) && w < |slots| && total >= 0.0
    ensures NotBelow(Charge(slots, w, total), B + total)
  {
  }

  lemma SelectionNotBelow(cfg: Config, st: BalancerState, candidates: seq<Candidate>, B: real)
    requires st.Valid() && Weighable(cfg, candidates) && |candidates| > 0 && NotBelow(st.slots, B)
    ensures NotBelow(Selection(cfg, st, candidates).0.slots, B + Sum(Weights(cfg, candidates)))
  {
    var mid, idx := ResolvedCall(cfg, st, candidates);
    var effs := Weights(cfg, candidates);
    ResolvedNotBelow(st, Names(candidates), B);
    var all := Accumulated(mid.slots, idx, effs, |idx|);
    forall s | 0 <= s < |all|
      ensures mid.slots[s] <= all[s]
    {
      AccumulatedGrows(mid.slots, idx, effs, 0, |idx|, s);
    }
    GrownNotBelow(mid.slots, all, B);
    SumNonNegative(effs);
    ChargeNotBelow(all, idx[Charged(mid.slots, idx, effs).1], Sum(effs), B);
  }

  /** The totals of all calls of a run together. */
  ghost function AllTotals(cfg: Config, ops: seq<Op>): real
    requires Runnable(cfg, ops)
  {
    if |ops| == 0 then 0.0
    else
      var last := ops[|ops| - 1];
      AllTotals(cfg, ops[..|ops| - 1]) + (if last.SelectOp? then Sum(Weights(cfg, last.candidates)) else 0.0)
  }

  lemma {:induction false} RunNotBelow(cfg: Config, ops: seq<Op>)
    requires Runnable(cfg, ops)
    ensures NotBelow(Run(cfg, ops).slots, AllTotals(cfg, ops))
  {
    if |ops| > 0 {
      var init, last := ops[..|ops| - 1], ops[|ops| - 1];
      RunNotBelow(cfg, init);
      match last
      case RegisterOp(name) => ResolvedNotBelow(Run(cfg, init), [name], AllTotals(cfg, init));
      case SelectOp(candidates) =>
        if |candidates| > 0 {
          SelectionNotBelow(cfg, Run(cfg, init), candidates, AllTotals(cfg, init));
        }
    }
  }

  /** When all names are the same, every candidate is greatest. */
  lemma OneNameIsGreatest(cfg: Config, st: BalancerState, candidates: seq<Candidate>, k: nat)
    requires st.Valid() && Weighable(cfg, candidates) && k < |candidates|
    requires forall i :: 0 <= i < |candidates| ==> candidates[i].providerName == candidates[0].providerName
    ensures Greatest(cfg, st, candidates, k)
  {
  }

  /** Two names cannot both be as low as the whole budget. */
  lemma TwoNamesAreNotLow(st: BalancerState, a: string, b: string, B: real)
    requires st.Valid() && NotBelow(st.slots, B) && B <= 9223372036854775808.0 && a != b
    ensures WeightOf(st, a) > -9223372036854775808.0 || WeightOf(st, b) > -9223372036854775808.0
  {
    if a in st.nameToSlot && b in st.nameToSlot {
      assert !ShareSlot(st.nameToSlot, a, b);
    }
  }

  /**
   * Along every run of Register and Select with changing candidate lists, as long as the totals of all calls
   * together are at most 2 to the power 63, every call chooses a candidate of greatest final weight.
   */
  lemma RunChoosesGreatest(cfg: Config, ops: seq<Op>, candidates: seq<Candidate>)
    requires Runnable(cfg, ops) && Weighable(cfg, candidates) && |candidates| > 0
    requires AllTotals(cfg, ops) <= 9223372036854775808.0
    ensures Greatest(cfg, Run(cfg, ops), candidates, Selection(cfg, Run(cfg, ops), candidates).1)
  {
    var st := Run(cfg, ops);
    RunNotBelow(cfg, ops);
    var first := candidates[0].providerName;
    if i :| 0 <= i < |candidates| && candidates[i].providerName != first {
      TwoNamesAreNotLow(st, first, candidates[i].providerName, AllTotals(cfg, ops));
      if WeightOf(st, first) > -9223372036854775808.0 {
        SelectChoosesGreatest(cfg, st, candidates, 0);
      } else {
        SelectChoosesGreatest(cfg, st, candidates, i);
      }
    } else {
      OneNameIsGreatest(cfg, st, candidates, Selection(cfg, st, candidates).1);
    }
  }
}

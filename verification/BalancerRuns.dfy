/**
 * What Select's single loop chooses, and why a run of Selects over one candidate set is the smooth
 * weighted round robin game, with its bounds and its fairness.
 */
module BalancerRuns {
  import opened RealSums
  import opened SmoothRoundRobin
  import opened Balancers

  // ----- The fused pass against the two-pass form -----

  ghost predicate Passable(slots: seq<real>, idx: seq<nat>, effs: seq<real>)
  {
    && |idx| == |effs| > 0
    && (forall i :: 0 <= i < |idx| ==> idx[i] < |slots|)
    && (forall i :: 0 <= i < |effs| ==> effs[i] >= 0.0)
  }

  /** Weights only arrive: no slot ever loses during the pass. */
  lemma {:induction false} AccumulatedGrows(slots: seq<real>, idx: seq<nat>, effs: seq<real>, m: nat, n: nat, s: nat)
    requires Passable(slots, idx, effs) && m <= n <= |idx| && s < |slots|
    ensures Accumulated(slots, idx, effs, m)[s] <= Accumulated(slots, idx, effs, n)[s]
    decreases n
  {
    if m < n {
      AccumulatedGrows(slots, idx, effs, m, n - 1, s);
    }
  }

  /** The running best bounds every slot that has been visited, and stands at the first place it was reached. */
  lemma {:induction false} PassBestBounds(slots: seq<real>, idx: seq<nat>, effs: seq<real>, n: nat)
    requires Passable(slots, idx, effs) && n <= |idx|
    ensures var b := PassBest(slots, idx, effs, n);
            && b.weight >= SENTINEL
            && (b.weight == SENTINEL ==> b.index == 0)
            && (b.weight > SENTINEL ==> b.index < n && Running(slots, idx, effs, b.index) == b.weight)
            && (forall i :: 0 <= i < n ==> Accumulated(slots, idx, effs, n)[idx[i]] <= b.weight)
  {
    if n > 0 {
      PassBestBounds(slots, idx, effs, n - 1);
    }
  }

  /** The two-pass form: first hand out all weights, then look for a maximal slot among the candidates. */
  ghost predicate IsMaximal(slots: seq<real>, idx: seq<nat>, effs: seq<real>, k: nat)
    requires Passable(slots, idx, effs)
  {
    && k < |idx|
    && forall i :: 0 <= i < |idx| ==>
         Accumulated(slots, idx, effs, |idx|)[idx[i]] <= Accumulated(slots, idx, effs, |idx|)[idx[k]]
  }

  /** Some candidate's slot ends the pass above the sentinel. */
  ghost predicate AboveSentinel(slots: seq<real>, idx: seq<nat>, effs: seq<real>)
    requires Passable(slots, idx, effs)
  {
    exists i :: 0 <= i < |idx| && Accumulated(slots, idx, effs, |idx|)[idx[i]] > SENTINEL
  }

  /**
   * Comparing while accumulating still selects a slot of maximal final weight, even when several
   * candidates share a slot; when every final weight is at or below the sentinel it takes candidate 0.
   */
  lemma FusedPassRefinesTwoPass(slots: seq<real>, idx: seq<nat>, effs: seq<real>)
    requires Passable(slots, idx, effs)
    ensures AboveSentinel(slots, idx, effs) ==> IsMaximal(slots, idx, effs, Charged(slots, idx, effs).1)
    ensures !AboveSentinel(slots, idx, effs) ==> Charged(slots, idx, effs).1 == 0
  {
    var n := |idx|;
    var b := PassBest(slots, idx, effs, n);
    PassBestBounds(slots, idx, effs, n);
    if b.weight > SENTINEL {
      AccumulatedGrows(slots, idx, effs, b.index + 1, n, idx[b.index]);
    }
  }

  /** So the choice is maximal exactly when something tops the sentinel or candidate 0 is maximal anyway. */
  lemma FusedPassMaximalIff(slots: seq<real>, idx: seq<nat>, effs: seq<real>)
    requires Passable(slots, idx, effs)
    ensures IsMaximal(slots, idx, effs, Charged(slots, idx, effs).1)
       <==> AboveSentinel(slots, idx, effs) || IsMaximal(slots, idx, effs, 0)
  {
    FusedPassRefinesTwoPass(slots, idx, effs);
  }

  /** With every slot at or below the sentinel the pass takes candidate 0 although candidate 1 ends higher. */
  lemma BelowSentinelTakesFirst(x: real)
    requires x <= SENTINEL - 1.0
    ensures Charged([x, x + 1.0], [0, 1], [0.0, 0.0]).1 == 0
    ensures !IsMaximal([x, x + 1.0], [0, 1], [0.0, 0.0], 0)
  {
    var slots, idx, effs := [x, x + 1.0], [0, 1], [0.0, 0.0];
    assert Accumulated(slots, idx, effs, 1) == slots;
    assert Accumulated(slots, idx, effs, 2) == slots;
    FusedPassRefinesTwoPass(slots, idx, effs);
  }

  // ----- Distinct slots: one round of the game -----

  ghost predicate Distinct<T>(s: seq<T>)
  {
    forall i, j :: 0 <= i < j < |s| ==> s[i] != s[j]
  }

  lemma {:induction false} AccumulatedDistinct(slots: seq<real>, idx: seq<nat>, effs: seq<real>, n: nat, i: nat)
    requires Passable(slots, idx, effs) && n <= |idx| && i < |idx| && Distinct(idx)
    ensures Accumulated(slots, idx, effs, n)[idx[i]] == slots[idx[i]] + (if i < n then effs[i] else 0.0)
  {
    if n > 0 {
      AccumulatedDistinct(slots, idx, effs, n - 1, i);
    }
  }

  /** With distinct slots the pass keeps the first maximum of the updated weights. */
  lemma {:induction false} PassBestDistinct(slots: seq<real>, idx: seq<nat>, effs: seq<real>, pre: seq<real>, n: nat)
    requires Passable(slots, idx, effs) && n <= |idx| && Distinct(idx)
    requires |pre| == |idx| && forall i :: 0 <= i < |pre| ==> pre[i] == slots[idx[i]] + effs[i]
    ensures var b := PassBest(slots, idx, effs, n);
            && (forall i :: 0 <= i < n ==> pre[i] <= b.weight)
            && b.weight >= SENTINEL
            && (b.weight > SENTINEL ==>
                  (b.index < n && pre[b.index] == b.weight && forall i :: 0 <= i < b.index ==> pre[i] < b.weight))
  {
    if n > 0 {
      PassBestDistinct(slots, idx, effs, pre, n - 1);
      AccumulatedDistinct(slots, idx, effs, n, n - 1);
    }
  }

  lemma FirstMaxUnique(s: seq<real>, k: nat)
    requires IsFirstMax(s, k)
    ensures FirstMax(s) == k
  {
    var m := FirstMax(s);
    assert s[m] == s[k];
  }

  /** The weights at the given slots. */
  ghost function WeightsAt(slots: seq<real>, idx: seq<nat>): (r: seq<real>)
    requires forall i :: 0 <= i < |idx| ==> idx[i] < |slots|
    ensures |r| == |idx|
    ensures forall i {:trigger r[i]} :: 0 <= i < |r| ==> r[i] == slots[idx[i]]
  {
    seq(|idx|, i requires 0 <= i < |idx| => slots[idx[i]])
  }

  /** On balanced distinct slots, the pass is one round of the game: same served position, same new weights. */
  lemma ChargedIsStep(slots: seq<real>, idx: seq<nat>, effs: seq<real>)
    requires Passable(slots, idx, effs) && Distinct(idx)
    requires Sum(WeightsAt(slots, idx)) == 0.0
    ensures Charged(slots, idx, effs).1 == Served(WeightsAt(slots, idx), effs)
    ensures WeightsAt(Charged(slots, idx, effs).0, idx) == Step(WeightsAt(slots, idx), effs)
  {
    var cur, n := WeightsAt(slots, idx), |idx|;
    var pre := Plus(cur, effs);
    var b := PassBest(slots, idx, effs, n);
    PassBestDistinct(slots, idx, effs, pre, n);
    assert pre[FirstMax(pre)] >= 0.0 by {
      SumNonNegative(effs);
      ServedIsNotNegative(cur, effs);
    }
    assert b.weight > SENTINEL;
    assert IsFirstMax(pre, b.index);
    FirstMaxUnique(pre, b.index);
    var end, next := WeightsAt(Charged(slots, idx, effs).0, idx), Step(cur, effs);
    forall i | 0 <= i < n
      ensures end[i] == next[i]
    {
      AccumulatedDistinct(slots, idx, effs, n, i);
      StepEntry(cur, effs, i);
    }
    assert end == next;
  }

  // ----- Runs of Select over one set of candidates -----

  /** The current weight of a name; a name without a slot has none yet. */
  ghost function WeightOf(st: BalancerState, name: string): real
    requires st.Valid()
  {
    if name in st.nameToSlot then st.slots[st.nameToSlot[name]] else 0.0
  }

  ghost function View(st: BalancerState, names: seq<string>): (v: seq<real>)
    requires st.Valid()
    ensures |v| == |names|
    ensures forall i {:trigger v[i]} :: 0 <= i < |v| ==> v[i] == WeightOf(st, names[i])
  {
    seq(|names|, i requires 0 <= i < |names| => WeightOf(st, names[i]))
  }

  /** Creating slots changes no current weight. */
  lemma {:induction false} ResolvedKeepsWeights(st: BalancerState, names: seq<string>, name: string)
    requires st.Valid()
    ensures Resolved(st, names).Valid()
    ensures WeightOf(Resolved(st, names), name) == WeightOf(st, name)
  {
    ResolvedIsValid(st, names);
    if |names| > 0 {
      ResolvedKeepsWeights(st, names[..|names| - 1], name);
    }
  }

  lemma SlotsDistinct(st: BalancerState, names: seq<string>)
    requires st.Valid() && Distinct(names) && forall a :: a in names ==> a in st.nameToSlot
    ensures Distinct(SlotsOf(st, names))
  {
    var idx := SlotsOf(st, names);
    forall i, j | 0 <= i < j < |idx|
      ensures idx[i] != idx[j]
    {
      assert names[i] in names && names[j] in names;
      assert !ShareSlot(st.nameToSlot, names[i], names[j]);
    }
  }

  /** Where every name has a slot, the view reads the slots of the names. */
  lemma ViewIsSlots(st: BalancerState, names: seq<string>)
    requires st.Valid() && forall a :: a in names ==> a in st.nameToSlot
    ensures (forall i {:trigger SlotsOf(st, names)[i]} :: 0 <= i < |names| ==> SlotsOf(st, names)[i] < |st.slots|)
    ensures View(st, names) == WeightsAt(st.slots, SlotsOf(st, names))
  {
    assert forall i :: 0 <= i < |names| ==> names[i] in names;
  }

  lemma ResolvedKeepsView(st: BalancerState, names: seq<string>)
    requires st.Valid()
    ensures Resolved(st, names).Valid() && View(Resolved(st, names), names) == View(st, names)
  {
    ResolvedIsValid(st, names);
    forall i | 0 <= i < |names|
      ensures View(Resolved(st, names), names)[i] == View(st, names)[i]
    {
      ResolvedKeepsWeights(st, names, names[i]);
    }
  }

  /** One Select on balanced candidates with distinct names is one round of the game. */
  lemma SelectionIsStep(cfg: Config, st: BalancerState, candidates: seq<Candidate>, names: seq<string>)
    requires st.Valid() && Weighable(cfg, candidates) && |candidates| > 0
    requires names == Names(candidates) && Distinct(names) && Sum(View(st, names)) == 0.0
    ensures Selection(cfg, st, candidates).0.Valid()
    ensures Selection(cfg, st, candidates).1 == Served(View(st, names), Weights(cfg, candidates))
    ensures View(Selection(cfg, st, candidates).0, names) == Step(View(st, names), Weights(cfg, candidates))
  {
    SelectionKeepsBalance(cfg, st, candidates);
    ResolvedKnowsAll(st, names);
    ResolvedKeepsView(st, names);
    var mid, effs := Resolved(st, names), Weights(cfg, candidates);
    var idx := SlotsOf(mid, names);
    SlotsDistinct(mid, names);
    ViewIsSlots(mid, names);
    ChargedIsStep(mid.slots, idx, effs);
    var next := Selection(cfg, st, candidates).0;
    assert next == BalancerState(Charged(mid.slots, idx, effs).0, mid.nameToSlot);
    ViewIsSlots(next, names);
    assert SlotsOf(next, names) == idx;
  }

  /** Every call of the run offers candidates of the same names, in the same order. */
  ghost predicate SameSet(cfg: Config, calls: seq<seq<Candidate>>, names: seq<string>)
  {
    && |names| > 0 && Distinct(names)
    && forall j :: 0 <= j < |calls| ==> Weighable(cfg, calls[j]) && Names(calls[j]) == names
  }

  ghost function SelectRun(cfg: Config, st: BalancerState, calls: seq<seq<Candidate>>, names: seq<string>)
    : (r: BalancerState)
    requires st.Valid() && SameSet(cfg, calls, names)
    ensures r.Valid()
  {
    if |calls| == 0 then st
    else
      var prev, last := SelectRun(cfg, st, calls[..|calls| - 1], names), calls[|calls| - 1];
      assert |last| == |Names(last)|;
      SelectionKeepsBalance(cfg, prev, last);
      Selection(cfg, prev, last).0
  }

  /** The index chosen by call `j` of the run. */
  ghost function ChosenAt(cfg: Config, st: BalancerState, calls: seq<seq<Candidate>>, names: seq<string>, j: nat)
    : (i: nat)
    requires st.Valid() && SameSet(cfg, calls, names) && j < |calls|
    ensures i < |names|
  {
    assert |calls[j]| == |Names(calls[j])|;
    Selection(cfg, SelectRun(cfg, st, calls[..j], names), calls[j]).1
  }

  /** The effective weights of every call. */
  ghost function Rows(cfg: Config, calls: seq<seq<Candidate>>, names: seq<string>): (ws: seq<seq<real>>)
    requires SameSet(cfg, calls, names)
    ensures |ws| == |calls| && IsRun(ws, |names|)
    ensures forall j {:trigger ws[j]} :: 0 <= j < |ws| ==> ws[j] == Weights(cfg, calls[j])
  {
    if |calls| == 0 then []
    else
      var last := calls[|calls| - 1];
      assert |last| == |Names(last)|;
      Rows(cfg, calls[..|calls| - 1], names) + [Weights(cfg, last)]
  }

  lemma RowsPrefix(cfg: Config, calls: seq<seq<Candidate>>, names: seq<string>, j: nat)
    requires SameSet(cfg, calls, names) && j <= |calls|
    ensures Rows(cfg, calls, names)[..j] == Rows(cfg, calls[..j], names)
  {
  }

  /** From zero weights, a run of Selects over one set is a run of the game. */
  lemma {:induction false} SelectRunIsGame(cfg: Config, st: BalancerState, calls: seq<seq<Candidate>>,
                                           names: seq<string>)
    requires st.Valid() && SameSet(cfg, calls, names) && View(st, names) == Zeros(|names|)
    ensures View(SelectRun(cfg, st, calls, names), names) == After(Rows(cfg, calls, names), |names|)
  {
    if |calls| > 0 {
      var init, last := calls[..|calls| - 1], calls[|calls| - 1];
      assert |last| == |Names(last)|;
      SelectRunIsGame(cfg, st, init, names);
      AfterSumsToZero(Rows(cfg, init, names), |names|);
      SelectionIsStep(cfg, SelectRun(cfg, st, init, names), last, names);
      RowsPrefix(cfg, calls, names, |calls| - 1);
    }
  }

  lemma ChosenIsServed(cfg: Config, st: BalancerState, calls: seq<seq<Candidate>>, names: seq<string>, j: nat)
    requires st.Valid() && SameSet(cfg, calls, names) && View(st, names) == Zeros(|names|) && j < |calls|
    ensures ChosenAt(cfg, st, calls, names, j) == ServedAt(Rows(cfg, calls, names), |names|, j)
  {
    var init := calls[..j];
    assert |calls[j]| == |Names(calls[j])|;
    SelectRunIsGame(cfg, st, init, names);
    AfterSumsToZero(Rows(cfg, init, names), |names|);
    SelectionIsStep(cfg, SelectRun(cfg, st, init, names), calls[j], names);
    RowsPrefix(cfg, calls, names, j);
  }

  ghost predicate CallTotalsAtMost(cfg: Config, calls: seq<seq<Candidate>>, W: real)
  {
    forall j :: 0 <= j < |calls| ==> Weighable(cfg, calls[j]) && Sum(Weights(cfg, calls[j])) <= W
  }

  /**
   * Lag bound for Select: with call totals of at most W, every current weight of the set stays
   * between -W and W * (1/2 + ... + 1/n), whatever the weights do from call to call.
   */
  lemma CurrentWeightsBounded(cfg: Config, st: BalancerState, calls: seq<seq<Candidate>>, names: seq<string>, W: real,
                              i: nat)
    requires st.Valid() && SameSet(cfg, calls, names) && View(st, names) == Zeros(|names|)
    requires CallTotalsAtMost(cfg, calls, W) && W >= 0.0 && i < |names|
    ensures -W <= WeightOf(SelectRun(cfg, st, calls, names), names[i]) <= HarmonicShare(W, |names|) - W
  {
    SelectRunIsGame(cfg, st, calls, names);
    LagBound(Rows(cfg, calls, names), |names|, W, i);
  }

  /** None of the last `m` calls chose candidate `i`, although its weight was at least `w` each time. */
  ghost predicate NotChosen(
    cfg: Config, st: BalancerState, calls: seq<seq<Candidate>>, names: seq<string>, i: nat, m: nat, w: real)
    requires st.Valid() && SameSet(cfg, calls, names) && i < |names| && m <= |calls|
  {
    forall j :: |calls| - m <= j < |calls| ==>
      Weights(cfg, calls[j])[i] >= w && ChosenAt(cfg, st, calls, names, j) != i
  }

  lemma NotChosenIsPassedOver(
    cfg: Config, st: BalancerState, calls: seq<seq<Candidate>>, names: seq<string>, i: nat, m: nat, w: real)
    requires st.Valid() && SameSet(cfg, calls, names) && View(st, names) == Zeros(|names|)
    requires i < |names| && m <= |calls| && NotChosen(cfg, st, calls, names, i, m, w)
    ensures PassedOver(Rows(cfg, calls, names), |names|, i, |calls| - m, w)
  {
    var ws := Rows(cfg, calls, names);
    forall j | |calls| - m <= j < |ws|
      ensures ws[j][i] >= w && ServedAt(ws, |names|, j) != i
    {
      ChosenIsServed(cfg, st, calls, names, j);
      assert ChosenAt(cfg, st, calls, names, j) != i;
    }
  }

  /**
   * Starvation bound for Select: a provider whose weight stays at least w and that none of the last
   * m calls chose has m * w <= W * (1 + 1/2 + ... + 1/n).
   */
  lemma NeverStarved(
    cfg: Config, st: BalancerState, calls: seq<seq<Candidate>>, names: seq<string>, W: real, i: nat, m: nat, w: real)
    requires st.Valid() && SameSet(cfg, calls, names) && View(st, names) == Zeros(|names|)
    requires CallTotalsAtMost(cfg, calls, W) && W >= 0.0
    requires i < |names| && m <= |calls| && NotChosen(cfg, st, calls, names, i, m, w)
    ensures m as real * w <= HarmonicShare(W, |names|)
  {
    NotChosenIsPassedOver(cfg, st, calls, names, i, m, w);
    StarvationBound(Rows(cfg, calls, names), |names|, W, i, m, w);
  }

  // ----- Exact fairness of Select -----

  /** The state after `k` calls of Select with one and the same candidate list. */
  ghost function Repeated(cfg: Config, st: BalancerState, candidates: seq<Candidate>, k: nat): (r: BalancerState)
    requires st.Valid() && Weighable(cfg, candidates) && |candidates| > 0
    ensures r.Valid()
  {
    if k == 0 then st
    else
      var prev := Repeated(cfg, st, candidates, k - 1);
      SelectionKeepsBalance(cfg, prev, candidates);
      Selection(cfg, prev, candidates).0
  }

  /** The indices chosen by the first `k` calls. */
  ghost function Choices(cfg: Config, st: BalancerState, candidates: seq<Candidate>, k: nat): (s: seq<nat>)
    requires st.Valid() && Weighable(cfg, candidates) && |candidates| > 0
    ensures |s| == k
    ensures forall j {:trigger s[j]} :: 0 <= j < k ==>
            s[j] == Selection(cfg, Repeated(cfg, st, candidates, j), candidates).1
  {
    seq(k, j requires 0 <= j < k => Selection(cfg, Repeated(cfg, st, candidates, j), candidates).1)
  }

  ghost function CountOf(s: seq<nat>, i: nat): nat
  {
    if |s| == 0 then 0 else CountOf(s[..|s| - 1], i) + (if s[|s| - 1] == i then 1 else 0)
  }

  /** A list of the first `k` scheduled positions counts what PickCount counts. */
  lemma {:induction false} CountOfSchedule(s: seq<nat>, effs: seq<real>, i: nat)
    requires |effs| > 0 && forall j {:trigger s[j]} :: 0 <= j < |s| ==> s[j] == Schedule(effs, j)
    ensures CountOf(s, i) == PickCount(effs, |s|, i)
  {
    if |s| > 0 {
      CountOfSchedule(s[..|s| - 1], effs, i);
    }
  }

  ghost predicate FreshSet(cfg: Config, st: BalancerState, candidates: seq<Candidate>, names: seq<string>,
                           effs: seq<real>)
  {
    && st.Valid() && Weighable(cfg, candidates) && |candidates| > 0
    && names == Names(candidates) && Distinct(names) && View(st, names) == Zeros(|names|)
    && effs == Weights(cfg, candidates)
  }

  lemma {:induction false} RepeatedIsStateAt(
    cfg: Config, st: BalancerState, candidates: seq<Candidate>, names: seq<string>, effs: seq<real>, k: nat)
    requires FreshSet(cfg, st, candidates, names, effs)
    ensures View(Repeated(cfg, st, candidates, k), names) == StateAt(effs, k)
  {
    hide Selection;
    hide View;
    hide Step;
    hide Sum;
    hide Distinct;
    hide Weighable;
    hide Weights;
    hide Names;
    if k > 0 {
      RepeatedIsStateAt(cfg, st, candidates, names, effs, k - 1);
      StateSumsToZero(effs, k - 1);
      SelectionIsStep(cfg, Repeated(cfg, st, candidates, k - 1), candidates, names);
    }
  }

  lemma RepeatedIsSchedule(
    cfg: Config, st: BalancerState, candidates: seq<Candidate>, names: seq<string>, effs: seq<real>, k: nat)
    requires FreshSet(cfg, st, candidates, names, effs)
    ensures Selection(cfg, Repeated(cfg, st, candidates, k), candidates).1 == Schedule(effs, k)
  {
    RepeatedIsStateAt(cfg, st, candidates, names, effs, k);
    StateSumsToZero(effs, k);
    SelectionIsStep(cfg, Repeated(cfg, st, candidates, k), candidates, names);
  }

  lemma ChoicesFollowSchedule(
    cfg: Config, st: BalancerState, candidates: seq<Candidate>, names: seq<string>, effs: seq<real>, k: nat, i: nat)
    requires FreshSet(cfg, st, candidates, names, effs)
    ensures CountOf(Choices(cfg, st, candidates, k), i) == PickCount(effs, k, i)
  {
    var s := Choices(cfg, st, candidates, k);
    assert forall j {:trigger s[j]} :: 0 <= j < k ==> s[j] == Schedule(effs, j) by {
      forall j {:trigger s[j]} | 0 <= j < k
        ensures s[j] == Schedule(effs, j)
      {
        RepeatedIsSchedule(cfg, st, candidates, names, effs, j);
      }
    }
    CountOfSchedule(s, effs, i);
  }

  /**
   * Exact fairness of Select: for integer weights of total W > 0, W calls choose every candidate as often as
   * its weight.
   */
  lemma SelectIsFair(cfg: Config, st: BalancerState, candidates: seq<Candidate>, names: seq<string>, w: seq<nat>,
                     i: nat)
    requires FreshSet(cfg, st, candidates, names, Reals(w)) && Total(w) > 0 && i < |w|
    ensures CountOf(Choices(cfg, st, candidates, Total(w)), i) == w[i]
  {
    ChoicesFollowSchedule(cfg, st, candidates, names, Reals(w), Total(w), i);
    ExactFairness(w, i);
  }

  /** After W calls every current weight is zero again. */
  lemma SelectReturnsToZero(cfg: Config, st: BalancerState, candidates: seq<Candidate>, names: seq<string>, w: seq<nat>)
    requires FreshSet(cfg, st, candidates, names, Reals(w)) && Total(w) > 0
    ensures View(Repeated(cfg, st, candidates, Total(w)), names) == Zeros(|names|)
  {
    RepeatedIsStateAt(cfg, st, candidates, names, Reals(w), Total(w));
    PeriodReturnsToZero(w);
  }

  /** The choices repeat with period W. */
  lemma SelectRepeats(
    cfg: Config, st: BalancerState, candidates: seq<Candidate>, names: seq<string>, w: seq<nat>, k: nat, m: nat)
    requires FreshSet(cfg, st, candidates, names, Reals(w)) && Total(w) > 0 && m == Total(w) + k
    ensures Selection(cfg, Repeated(cfg, st, candidates, m), candidates).1
         == Selection(cfg, Repeated(cfg, st, candidates, k), candidates).1
  {
    RepeatedIsSchedule(cfg, st, candidates, names, Reals(w), m);
    RepeatedIsSchedule(cfg, st, candidates, names, Reals(w), k);
    ScheduleRepeats(w, k, m);
  }

  /** At every moment: current weight equals weight earned minus total charged. */
  lemma SelectAccounting(
    cfg: Config, st: BalancerState, candidates: seq<Candidate>, names: seq<string>, w: seq<nat>, i: nat, k: nat)
    requires FreshSet(cfg, st, candidates, names, Reals(w)) && i < |w|
    ensures View(Repeated(cfg, st, candidates, k), names)[i]
         == (k * w[i] - CountOf(Choices(cfg, st, candidates, k), i) * Total(w)) as real
  {
    RepeatedIsStateAt(cfg, st, candidates, names, Reals(w), k);
    ChoicesFollowSchedule(cfg, st, candidates, names, Reals(w), k, i);
    EarnedMinusCharged(w, k, i);
  }
}

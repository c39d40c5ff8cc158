/**
 * Smooth weighted round robin on a fixed set of n candidates, seen as a game on the vector of
 * their current weights: every round adds the effective weights, charges the total to the first
 * maximal position, and serves that position. `Balancer` shows that `Select` plays this game.
 */
module SmoothRoundRobin {
  import opened RealSums

  /** `k` is the first position holding a largest element. */
  ghost predicate IsFirstMax(s: seq<real>, k: nat)
  {
    && k < |s|
    && (forall i :: 0 <= i < |s| ==> s[i] <= s[k])
    && (forall i :: 0 <= i < k ==> s[i] < s[k])
  }

  lemma {:induction false} FirstMaxExists(s: seq<real>)
    requires |s| > 0
    ensures exists k: nat :: IsFirstMax(s, k)
  {
    if |s| == 1 {
      assert IsFirstMax(s, 0);
    } else {
      var init := s[..|s| - 1];
      FirstMaxExists(init);
      var k: nat :| IsFirstMax(init, k);
      assert forall i :: 0 <= i < |init| ==> init[i] == s[i];
      assert IsFirstMax(s, if s[|s| - 1] > s[k] then |s| - 1 else k);
    }
  }

  ghost function FirstMax(s: seq<real>): (k: nat)
    requires |s| > 0
    ensures IsFirstMax(s, k)
  {
    FirstMaxExists(s);
    var k: nat :| IsFirstMax(s, k);
    k
  }

  /** One round: the new current weights. */
  ghost function Step(cur: seq<real>, eff: seq<real>): (next: seq<real>)
    requires |cur| == |eff| > 0
    ensures |next| == |cur|
  {
    var pre := Plus(cur, eff);
    var w := FirstMax(pre);
    pre[w := pre[w] - Sum(eff)]
  }

  /** The position served by a round. */
  ghost function Served(cur: seq<real>, eff: seq<real>): (w: nat)
    requires |cur| == |eff| > 0
    ensures w < |cur|
  {
    FirstMax(Plus(cur, eff))
  }

  // ----- Runs from zero -----

  /** A run lists the effective weights of every round, oldest first. */
  ghost predicate IsRun(ws: seq<seq<real>>, n: nat)
  {
    forall j :: 0 <= j < |ws| ==>
      |ws[j]| == n && forall i :: 0 <= i < n ==> ws[j][i] >= 0.0
  }

  ghost predicate TotalsAtMost(ws: seq<seq<real>>, W: real)
  {
    forall j :: 0 <= j < |ws| ==> Sum(ws[j]) <= W
  }

  /** The current weights after the run, starting from zero. */
  ghost function After(ws: seq<seq<real>>, n: nat): (cur: seq<real>)
    requires n > 0 && IsRun(ws, n)
    ensures |cur| == n
  {
    if |ws| == 0 then Zeros(n) else Step(After(ws[..|ws| - 1], n), ws[|ws| - 1])
  }

  /** The position served in round `j` of the run. */
  ghost function ServedAt(ws: seq<seq<real>>, n: nat, j: nat): (w: nat)
    requires n > 0 && IsRun(ws, n) && j < |ws|
    ensures w < n
  {
    Served(After(ws[..j], n), ws[j])
  }

  /** How often position `i` was served during the run. */
  ghost function Picks(ws: seq<seq<real>>, n: nat, i: nat): nat
    requires n > 0 && IsRun(ws, n)
  {
    if |ws| == 0 then 0
    else Picks(ws[..|ws| - 1], n, i) + (if ServedAt(ws, n, |ws| - 1) == i then 1 else 0)
  }

  // ----- Conservation and the lower bound -----

  lemma StepConserves(cur: seq<real>, eff: seq<real>, next: seq<real>)
    requires |cur| == |eff| > 0 && next == Step(cur, eff)
    ensures Sum(next) == Sum(cur)
  {
    var pre, total := Plus(cur, eff), Sum(eff);
    var w := FirstMax(pre);
    assert next == pre[w := pre[w] - total];
    assert Sum(next) == Sum(pre) - total by { SumUpdate(pre, w, pre[w] - total); }
    assert Sum(pre) == Sum(cur) + total by { SumPlus(cur, eff); }
  }

  /** In a balanced state the served position holds at least the average share of the round. */
  lemma ServedIsNotNegative(cur: seq<real>, eff: seq<real>)
    requires |cur| == |eff| > 0
    requires Sum(cur) == 0.0 && Sum(eff) >= 0.0
    ensures var pre := Plus(cur, eff);
            pre[FirstMax(pre)] >= 0.0 && (Sum(eff) > 0.0 ==> pre[FirstMax(pre)] > 0.0)
  {
    var pre := Plus(cur, eff);
    var x := pre[FirstMax(pre)];
    SumPlus(cur, eff);
    SumAtMost(pre, x);
    TimesSign(|pre|, x);
  }

  lemma {:induction false} AfterSumsToZero(ws: seq<seq<real>>, n: nat)
    requires n > 0 && IsRun(ws, n)
    ensures Sum(After(ws, n)) == 0.0
  {
    if |ws| == 0 {
      SumZeros(n);
    } else {
      AfterSumsToZero(ws[..|ws| - 1], n);
      StepConserves(After(ws[..|ws| - 1], n), ws[|ws| - 1], After(ws, n));
    }
  }

  /** No current weight ever falls below minus the largest total charged so far. */
  lemma {:induction false} NeverBelow(ws: seq<seq<real>>, n: nat, W: real)
    requires n > 0 && IsRun(ws, n) && TotalsAtMost(ws, W) && W >= 0.0
    ensures forall i :: 0 <= i < n ==> After(ws, n)[i] >= -W
  {
    if |ws| > 0 {
      var cur, eff := After(ws[..|ws| - 1], n), ws[|ws| - 1];
      NeverBelow(ws[..|ws| - 1], n, W);
      AfterSumsToZero(ws[..|ws| - 1], n);
      SumNonNegative(eff);
      ServedIsNotNegative(cur, eff);
    }
  }

  // ----- The upper bound: a potential over all subsets of positions -----

  /** W * (1 + 1/2 + ... + 1/k). */
  ghost function HarmonicShare(W: real, k: nat): real
  {
    if k == 0 then 0.0 else HarmonicShare(W, k - 1) + W / (k as real)
  }

  /** What any k of the n positions may hold together: k * W * (1/(k+1) + ... + 1/n). */
  ghost function Cap(W: real, n: nat, k: nat): real
  {
    Times(k, HarmonicShare(W, n) - HarmonicShare(W, k))
  }

  ghost predicate WithinCaps(cur: seq<real>, W: real)
  {
    forall S: set<int> :: SumIn(cur, S) <= Cap(W, |cur|, Count(S, |cur|))
  }

  lemma {:induction false} ShareGrows(W: real, k: nat, n: nat)
    requires k <= n && W >= 0.0
    ensures HarmonicShare(W, k) <= HarmonicShare(W, n)
    decreases n
  {
    if k < n {
      ShareGrows(W, k, n - 1);
      QuotientNotNegative(W, n as real);
    }
  }

  lemma QuotientNotNegative(W: real, d: real)
    requires W >= 0.0 && d > 0.0
    ensures W / d >= 0.0
  {
    assert W / d * d == W;
    ScaledDown(d, 0.0, W / d);
  }

  lemma CapNotNegative(W: real, n: nat, k: nat)
    requires k <= n && W >= 0.0
    ensures Cap(W, n, k) >= 0.0
  {
    ShareGrows(W, k, n);
    TimesSign(k, HarmonicShare(W, n) - HarmonicShare(W, k));
  }

  /** If k+1 positions hold at most Cap(k+1) + W and one of them is their largest, the other k fit Cap(k). */
  lemma DropLargest(W: real, n: nat, k: nat, rest: real, x: real)
    requires rest <= Times(k, x)
    requires rest + x <= Cap(W, n, k + 1) + W
    ensures rest <= Cap(W, n, k)
  {
    var d, q := HarmonicShare(W, n) - HarmonicShare(W, k + 1), W / ((k + 1) as real);
    assert HarmonicShare(W, n) - HarmonicShare(W, k) == d + q;
    assert Cap(W, n, k) == Times(k, d + q);
    DropLargestTimes(W, k, d, q, rest, x);
  }

  lemma DropLargestTimes(W: real, k: nat, d: real, q: real, rest: real, x: real)
    requires q == W / ((k + 1) as real)
    requires rest <= Times(k, x)
    requires rest + x <= Times(k + 1, d) + W
    ensures rest <= Times(k, d + q)
  {
    var m := (k + 1) as real;
    assert m * q == W;
    assert Times(k, x) == k as real * x by { TimesIsProduct(k, x); }
    assert Times(k + 1, d) == m * d by { TimesIsProduct(k + 1, d); }
    assert rest <= k as real * (d + q) by { DropLargestArithmetic(k as real, m, W, d, q, rest, x); }
    TimesIsProduct(k, d + q);
  }

  lemma DropLargestArithmetic(k: real, m: real, W: real, d: real, q: real, rest: real, x: real)
    requires k >= 0.0 && m == k + 1.0
    requires m * q == W
    requires rest <= k * x
    requires rest + x <= m * d + W
    ensures rest <= k * (d + q)
  {
    var y, z := rest + x, d + q;
    assert y <= m * z;
    assert k * y <= k * (m * z) by { ScaledUp(k, y, m * z); }
    assert m * rest <= k * y by {
      assert m * rest == k * rest + rest;
      assert k * y == k * rest + k * x;
    }
    assert k * (m * z) == m * (k * z);
    ScaledDown(m, rest, k * z);
  }

  lemma ScaledUp(k: real, a: real, b: real)
    requires k >= 0.0 && a <= b
    ensures k * a <= k * b
  {
  }

  lemma ScaledDown(m: real, a: real, b: real)
    requires m > 0.0 && m * a <= m * b
    ensures a <= b
  {
  }

  /** A subset holding the served position does not gain. */
  lemma SubsetWithServed(cur: seq<real>, eff: seq<real>, S: set<int>)
    requires |cur| == |eff| > 0
    requires forall i :: 0 <= i < |eff| ==> eff[i] >= 0.0
    requires Served(cur, eff) in S
    ensures SumIn(Step(cur, eff), S) <= SumIn(cur, S)
  {
    var pre := Plus(cur, eff);
    var w := FirstMax(pre);
    SumInUpdate(pre, S, w, pre[w] - Sum(eff));
    SumInPlus(cur, eff, S);
    SumInAtMostSum(eff, S);
  }

  /** Any other subset gains only as part of the larger one that also holds the served position. */
  lemma SubsetWithoutServed(cur: seq<real>, eff: seq<real>, S: set<int>, w: nat, x: real)
    requires |cur| == |eff| > 0
    requires forall i :: 0 <= i < |eff| ==> eff[i] >= 0.0
    requires w == Served(cur, eff) && w !in S && x == Plus(cur, eff)[w]
    ensures SumIn(Step(cur, eff), S) <= Times(Count(S, |cur|), x)
    ensures SumIn(Step(cur, eff), S) + x <= SumIn(cur, S + {w}) + Sum(eff)
  {
    var pre := Plus(cur, eff);
    SumInUpdate(pre, S, w, x - Sum(eff));
    assert SumIn(Step(cur, eff), S) == SumIn(pre, S);
    SumInAtMost(pre, S, x);
    SumInInsert(pre, S, w);
    SumInPlus(cur, eff, S + {w});
    SumInAtMostSum(eff, S + {w});
  }

  /** Lifting the upper bound from one round to the next, for one subset S of the positions. */
  lemma StepWithinCap(cur: seq<real>, eff: seq<real>, W: real, S: set<int>)
    requires |cur| == |eff| > 0
    requires forall i :: 0 <= i < |eff| ==> eff[i] >= 0.0
    requires Sum(eff) <= W
    requires WithinCaps(cur, W)
    ensures SumIn(Step(cur, eff), S) <= Cap(W, |cur|, Count(S, |cur|))
  {
    var n, k, w := |cur|, Count(S, |cur|), Served(cur, eff);
    var x, rest := Plus(cur, eff)[w], SumIn(Step(cur, eff), S);
    if w !in S {
      SubsetWithoutServed(cur, eff, S, w, x);
      SumInInsert(cur, S, w);
      HoldsCap(cur, W, S + {w});
      DropLargest(W, n, k, rest, x);
    } else {
      SubsetWithServed(cur, eff, S);
      HoldsCap(cur, W, S);
    }
  }

  lemma HoldsCap(cur: seq<real>, W: real, S: set<int>)
    requires WithinCaps(cur, W)
    ensures SumIn(cur, S) <= Cap(W, |cur|, Count(S, |cur|))
  {
  }

  lemma {:induction false} AfterWithinCaps(ws: seq<seq<real>>, n: nat, W: real)
    requires n > 0 && IsRun(ws, n) && TotalsAtMost(ws, W) && W >= 0.0
    ensures WithinCaps(After(ws, n), W)
  {
    if |ws| == 0 {
      forall S: set<int>
        ensures SumIn(Zeros(n), S) <= Cap(W, n, Count(S, n))
      {
        SumInZeros(n, S);
        CountAtMost(S, n);
        CapNotNegative(W, n, Count(S, n));
      }
    } else {
      var cur, eff := After(ws[..|ws| - 1], n), ws[|ws| - 1];
      AfterWithinCaps(ws[..|ws| - 1], n, W);
      forall S: set<int>
        ensures SumIn(Step(cur, eff), S) <= Cap(W, n, Count(S, n))
      {
        StepWithinCap(cur, eff, W, S);
      }
    }
  }

  /** Lag bound: over any run, every current weight stays between -W and W * (1/2 + ... + 1/n). */
  lemma LagBound(ws: seq<seq<real>>, n: nat, W: real, i: nat)
    requires IsRun(ws, n) && TotalsAtMost(ws, W) && W >= 0.0 && i < n
    ensures -W <= After(ws, n)[i] <= HarmonicShare(W, n) - W
  {
    NeverBelow(ws, n, W);
    AfterWithinCaps(ws, n, W);
    SumInSingleton(After(ws, n), i);
    HoldsCap(After(ws, n), W, {i});
    CapOfOne(W, n);
  }

  lemma CapOfOne(W: real, n: nat)
    ensures Cap(W, n, 1) == HarmonicShare(W, n) - W
  {
    assert HarmonicShare(W, 1) == HarmonicShare(W, 0) + W / 1.0;
    assert Times(1, HarmonicShare(W, n) - W) == Times(0, HarmonicShare(W, n) - W) + (HarmonicShare(W, n) - W);
  }

  // ----- Starvation -----

  /** Position `i` weighs at least `w` and is not served in any round of the run since round `from`. */
  ghost predicate PassedOver(ws: seq<seq<real>>, n: nat, i: nat, from: nat, w: real)
    requires IsRun(ws, n) && i < n
  {
    forall j :: from <= j < |ws| ==> ws[j][i] >= w && ServedAt(ws, n, j) != i
  }

  lemma PassedOverEarlier(ws: seq<seq<real>>, n: nat, i: nat, from: nat, w: real)
    requires IsRun(ws, n) && i < n && from < |ws| && PassedOver(ws, n, i, from, w)
    ensures PassedOver(ws[..|ws| - 1], n, i, from, w)
  {
    var init := ws[..|ws| - 1];
    forall j | from <= j < |init|
      ensures init[j][i] >= w && ServedAt(init, n, j) != i
    {
      assert init[..j] == ws[..j];
      assert ServedAt(ws, n, j) != i;
    }
  }

  /** While it is passed over, a position of weight at least `w` gains `w` per round. */
  lemma {:induction false} PassedOverGains(ws: seq<seq<real>>, n: nat, i: nat, from: nat, w: real)
    requires IsRun(ws, n) && i < n && from <= |ws| && PassedOver(ws, n, i, from, w)
    ensures After(ws, n)[i] >= After(ws[..from], n)[i] + Times(|ws| - from, w)
  {
    hide After;
    hide PassedOver;
    hide ServedAt;
    if from == |ws| {
      assert ws[..from] == ws;
    } else {
      var init := ws[..|ws| - 1];
      PassedOverEarlier(ws, n, i, from, w);
      PassedOverGains(init, n, i, from, w);
      assert init[..from] == ws[..from];
      LastRoundGains(ws, n, i, from, w, init);
    }
  }

  lemma LastRoundGains(ws: seq<seq<real>>, n: nat, i: nat, from: nat, w: real, init: seq<seq<real>>)
    requires IsRun(ws, n) && i < n && from < |ws| && PassedOver(ws, n, i, from, w) && init == ws[..|ws| - 1]
    ensures After(ws, n)[i] >= After(init, n)[i] + w
  {
    assert ServedAt(ws, n, |ws| - 1) != i && ws[|ws| - 1][i] >= w;
    UnservedGains(After(init, n), ws[|ws| - 1], i);
  }

  lemma UnservedGains(cur: seq<real>, eff: seq<real>, i: nat)
    requires |cur| == |eff| && i < |cur| && Served(cur, eff) != i
    ensures Step(cur, eff)[i] == cur[i] + eff[i]
  {
  }

  lemma PassedOverAtMost(ws: seq<seq<real>>, n: nat, W: real, i: nat, from: nat, w: real)
    requires IsRun(ws, n) && TotalsAtMost(ws, W) && W >= 0.0 && i < n && from <= |ws|
    requires PassedOver(ws, n, i, from, w)
    ensures Times(|ws| - from, w) <= HarmonicShare(W, n)
  {
    var first, now := After(ws[..from], n)[i], After(ws, n)[i];
    assert now >= first + Times(|ws| - from, w) by { PassedOverGains(ws, n, i, from, w); }
    assert now <= HarmonicShare(W, n) - W by { LagBound(ws, n, W, i); }
    assert first >= -W by { NeverBelow(ws[..from], n, W); }
  }

  /**
   * Starvation bound: a position whose weight stays at least `w` and that was not served in the
   * last m rounds has m * w <= W * (1 + 1/2 + ... + 1/n).
   */
  lemma StarvationBound(ws: seq<seq<real>>, n: nat, W: real, i: nat, m: nat, w: real)
    requires IsRun(ws, n) && TotalsAtMost(ws, W) && W >= 0.0 && i < n && m <= |ws|
    requires PassedOver(ws, n, i, |ws| - m, w)
    ensures m as real * w <= HarmonicShare(W, n)
  {
    PassedOverAtMost(ws, n, W, i, |ws| - m, w);
    TimesWithin(m, w, HarmonicShare(W, n));
  }

  lemma TimesWithin(m: nat, w: real, cap: real)
    requires Times(m, w) <= cap
    ensures m as real * w <= cap
  {
    TimesIsProduct(m, w);
  }

  // ----- Exact fairness for fixed integer weights -----

  function Total(w: seq<nat>): nat
  {
    if |w| == 0 then 0 else Total(w[..|w| - 1]) + w[|w| - 1]
  }

  ghost function Reals(w: seq<nat>): (r: seq<real>)
    ensures |r| == |w| && forall i {:trigger r[i]} :: 0 <= i < |w| ==> r[i] == w[i] as real
  {
    seq(|w|, i requires 0 <= i < |w| => w[i] as real)
  }

  /** The current weights after `k` rounds with the same effective weights. */
  ghost function StateAt(eff: seq<real>, k: nat): (cur: seq<real>)
    requires |eff| > 0
    ensures |cur| == |eff|
  {
    if k == 0 then Zeros(|eff|) else Step(StateAt(eff, k - 1), eff)
  }

  /** The position served in round `k` of that schedule. */
  ghost function Schedule(eff: seq<real>, k: nat): (w: nat)
    requires |eff| > 0
    ensures w < |eff|
  {
    Served(StateAt(eff, k), eff)
  }

  /** How often position `i` is served in the first `k` rounds. */
  ghost function PickCount(eff: seq<real>, k: nat, i: nat): nat
    requires |eff| > 0
  {
    if k == 0 then 0 else PickCount(eff, k - 1, i) + (if Schedule(eff, k - 1) == i then 1 else 0)
  }

  /** The fixed-weight schedule is the run that repeats the same weights. */
  lemma {:induction false} StateAtIsRun(eff: seq<real>, k: nat)
    requires |eff| > 0 && forall i :: 0 <= i < |eff| ==> eff[i] >= 0.0
    ensures var ws := seq(k, _ => eff); IsRun(ws, |eff|) && After(ws, |eff|) == StateAt(eff, k)
  {
    if k > 0 {
      assert seq(k, _ => eff)[..k - 1] == seq(k - 1, _ => eff);
      StateAtIsRun(eff, k - 1);
    }
  }

  /** Counting in the schedule is counting in that run. */
  lemma {:induction false} PickCountIsPicks(eff: seq<real>, k: nat, i: nat)
    requires |eff| > 0 && forall j :: 0 <= j < |eff| ==> eff[j] >= 0.0
    ensures var ws := seq(k, _ => eff); IsRun(ws, |eff|) && Picks(ws, |eff|, i) == PickCount(eff, k, i)
  {
    if k > 0 {
      var ws := seq(k, _ => eff);
      assert ws[..k - 1] == seq(k - 1, _ => eff);
      PickCountIsPicks(eff, k - 1, i);
      StateAtIsRun(eff, k - 1);
    }
  }

  lemma {:induction false} TotalIsSum(w: seq<nat>)
    ensures Sum(Reals(w)) == Total(w) as real
  {
    if |w| > 0 {
      assert Reals(w)[..|w| - 1] == Reals(w[..|w| - 1]);
      TotalIsSum(w[..|w| - 1]);
    }
  }

  lemma StepEntry(cur: seq<real>, eff: seq<real>, i: nat)
    requires |cur| == |eff| && i < |cur|
    ensures Step(cur, eff)[i] == cur[i] + eff[i] - (if Served(cur, eff) == i then Sum(eff) else 0.0)
  {
  }

  lemma {:induction false} StateSumsToZero(eff: seq<real>, k: nat)
    requires |eff| > 0
    ensures Sum(StateAt(eff, k)) == 0.0
  {
    if k == 0 {
      SumZeros(|eff|);
    } else {
      StateSumsToZero(eff, k - 1);
      StepConserves(StateAt(eff, k - 1), eff, StateAt(eff, k));
    }
  }

  /** The accounting identity: weight earned minus total charged, at every moment. */
  lemma {:induction false} EarnedMinusCharged(w: seq<nat>, k: nat, i: nat)
    requires i < |w|
    ensures StateAt(Reals(w), k)[i] == (k * w[i] - PickCount(Reals(w), k, i) * Total(w)) as real
  {
    if k > 0 {
      EarnedMinusCharged(w, k - 1, i);
      TotalIsSum(w);
      StepEntry(StateAt(Reals(w), k - 1), Reals(w), i);
      Distribute(k, w[i], PickCount(Reals(w), k - 1, i), Total(w));
    }
  }

  lemma Distribute(k: int, v: int, p: int, W: int)
    ensures (k - 1) * v == k * v - v
    ensures (p + 1) * W == p * W + W
  {
  }

  lemma StepStaysAbove(cur: seq<real>, eff: seq<real>, i: nat)
    requires |cur| == |eff| && i < |cur| && forall j :: 0 <= j < |eff| ==> eff[j] >= 0.0
    requires Sum(cur) == 0.0 && Sum(eff) > 0.0 && cur[i] > -Sum(eff)
    ensures Step(cur, eff)[i] > -Sum(eff)
  {
    hide Sum;
    ServedIsNotNegative(cur, eff);
    StepEntry(cur, eff, i);
  }

  /** With a positive total the lower bound is strict. */
  lemma {:induction false} AlwaysAbove(w: seq<nat>, k: nat, i: nat)
    requires i < |w| && Total(w) > 0
    ensures StateAt(Reals(w), k)[i] > -(Total(w) as real)
  {
    hide Step;
    hide Sum;
    hide Total;
    if k > 0 {
      AlwaysAbove(w, k - 1, i);
      TotalIsSum(w);
      StateSumsToZero(Reals(w), k - 1);
      StepStaysAbove(StateAt(Reals(w), k - 1), Reals(w), i);
    }
  }

  lemma NonNegativeSummingToZero(s: seq<real>)
    requires forall i :: 0 <= i < |s| ==> s[i] >= 0.0
    requires Sum(s) == 0.0
    ensures s == Zeros(|s|)
  {
    SumNonNegative(s);
  }

  lemma WholeMultipleAbove(W: int, v: int, p: int)
    requires W > 0 && W * v - p * W > 0 - W
    ensures W * v - p * W >= 0
  {
    var d := v - p;
    assert W * v - p * W == W * d;
    if d < 0 {
      NegativeMultiple(W, d);
    }
  }

  lemma NegativeMultiple(W: int, d: int)
    requires W > 0 && d < 0
    ensures W * d <= 0 - W
  {
    assert W * (0 - 1 - d) >= 0;
    assert W * (0 - 1 - d) == 0 - W - W * d;
  }

  lemma SameMultiple(W: int, v: int, p: int)
    requires W > 0 && W * v - p * W == 0
    ensures v == p
  {
    assert W * (v - p) == 0;
  }

  /** After W rounds, W the total weight, every current weight is back to zero. */
  lemma PeriodReturnsToZero(w: seq<nat>)
    requires Total(w) > 0
    ensures StateAt(Reals(w), Total(w)) == Zeros(|w|)
  {
    var W := Total(w);
    var end := StateAt(Reals(w), W);
    forall i | 0 <= i < |w|
      ensures end[i] >= 0.0
    {
      EarnedMinusCharged(w, W, i);
      AlwaysAbove(w, W, i);
      WholeMultipleAbove(W, w[i], PickCount(Reals(w), W, i));
    }
    StateSumsToZero(Reals(w), W);
    NonNegativeSummingToZero(end);
  }

  /** Exact fairness: during W rounds every candidate is served exactly as often as its weight says. */
  lemma ExactFairness(w: seq<nat>, i: nat)
    requires i < |w| && Total(w) > 0
    ensures PickCount(Reals(w), Total(w), i) == w[i]
  {
    var W := Total(w);
    PeriodReturnsToZero(w);
    EarnedMinusCharged(w, W, i);
    SameMultiple(W, w[i], PickCount(Reals(w), W, i));
  }

  /** The same for the run that repeats the weights for W rounds: served by weight, and back at zero. */
  lemma RepeatedRunIsFair(w: seq<nat>, i: nat, ws: seq<seq<real>>)
    requires i < |w| && Total(w) > 0 && ws == seq(Total(w), _ => Reals(w))
    ensures IsRun(ws, |w|) && Picks(ws, |w|, i) == w[i] && After(ws, |w|) == Zeros(|w|)
  {
    PickCountIsPicks(Reals(w), Total(w), i);
    StateAtIsRun(Reals(w), Total(w));
    ExactFairness(w, i);
    PeriodReturnsToZero(w);
  }

  /** The schedule repeats with period W: the state and the served position W rounds later are the same. */
  lemma {:induction false} ScheduleRepeats(w: seq<nat>, k: nat, m: nat)
    requires Total(w) > 0 && m == Total(w) + k
    ensures StateAt(Reals(w), m) == StateAt(Reals(w), k)
    ensures Schedule(Reals(w), m) == Schedule(Reals(w), k)
  {
    hide Step;
    hide Sum;
    hide Total;
    hide Zeros;
    hide Served;
    if k == 0 {
      PeriodReturnsToZero(w);
    } else {
      ScheduleRepeats(w, k - 1, m - 1);
      var cur, eff := StateAt(Reals(w), k - 1), Reals(w);
      assert StateAt(eff, m) == Step(cur, eff);
      assert StateAt(eff, k) == Step(cur, eff);
    }
  }
}

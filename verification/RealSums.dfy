/** Finite sums of real sequences, over all positions or over a chosen set of positions. */
module RealSums {

  ghost function Sum(s: seq<real>): real
  {
    if |s| == 0 then 0.0 else Sum(s[..|s| - 1]) + s[|s| - 1]
  }

  /** Sum of the elements of `s` whose position lies in `S`. */
  ghost function SumIn(s: seq<real>, S: set<int>): real
  {
    if |s| == 0 then 0.0
    else SumIn(s[..|s| - 1], S) + (if |s| - 1 in S then s[|s| - 1] else 0.0)
  }

  /** How many of the positions `0..n` lie in `S`. */
  ghost function Count(S: set<int>, n: nat): nat
  {
    if n == 0 then 0 else Count(S, n - 1) + (if n - 1 in S then 1 else 0)
  }

  /** `k` times `x`, as repeated addition. */
  ghost function Times(k: nat, x: real): real
  {
    if k == 0 then 0.0 else Times(k - 1, x) + x
  }

  /** A sequence is determined by its length and its entries; these two are given by their entries. */
  ghost function Zeros(n: nat): (z: seq<real>)
    ensures |z| == n
    ensures forall i {:trigger z[i]} :: 0 <= i < n ==> z[i] == 0.0
  {
    seq(n, _ => 0.0)
  }

  ghost function Plus(a: seq<real>, b: seq<real>): (r: seq<real>)
    requires |a| == |b|
    ensures |r| == |a|
    ensures forall i {:trigger r[i]} :: 0 <= i < |a| ==> r[i] == a[i] + b[i]
  {
    seq(|a|, i requires 0 <= i < |a| => a[i] + b[i])
  }

  lemma {:induction false} TimesIsProduct(k: nat, x: real)
    ensures Times(k, x) == k as real * x
  {
    if k > 0 {
      TimesIsProduct(k - 1, x);
      assert k as real * x == (k - 1) as real * x + x;
    }
  }

  lemma {:induction false} TimesSign(k: nat, x: real)
    ensures x <= 0.0 ==> Times(k, x) <= 0.0
    ensures x >= 0.0 ==> Times(k, x) >= 0.0
    ensures k > 0 && x < 0.0 ==> Times(k, x) < 0.0
  {
    if k > 0 {
      TimesSign(k - 1, x);
    }
  }

  lemma {:induction false} SumZeros(n: nat)
    ensures Sum(Zeros(n)) == 0.0
  {
    if n > 0 {
      assert Zeros(n)[..n - 1] == Zeros(n - 1);
      SumZeros(n - 1);
    }
  }

  lemma {:induction false} SumUpdate(s: seq<real>, i: nat, v: real)
    requires i < |s|
    ensures Sum(s[i := v]) == Sum(s) - s[i] + v
  {
    var n := |s| - 1;
    if i == n {
      assert s[i := v][..n] == s[..n];
    } else {
      assert s[i := v][..n] == s[..n][i := v];
      SumUpdate(s[..n], i, v);
    }
  }

  lemma SumTake(s: seq<real>, i: nat, x: real)
    requires i < |s|
    ensures Sum(s[i := s[i] - x]) == Sum(s) - x
  {
    SumUpdate(s, i, s[i] - x);
  }

  lemma {:induction false} SumAppend(s: seq<real>, v: real)
    ensures Sum(s + [v]) == Sum(s) + v
  {
    assert (s + [v])[..|s|] == s;
  }

  lemma {:induction false} SumPlus(a: seq<real>, b: seq<real>)
    requires |a| == |b|
    ensures Sum(Plus(a, b)) == Sum(a) + Sum(b)
  {
    if |a| > 0 {
      var n := |a| - 1;
      assert Plus(a, b)[..n] == Plus(a[..n], b[..n]);
      SumPlus(a[..n], b[..n]);
    }
  }

  lemma {:induction false} SumNonNegative(s: seq<real>)
    requires forall i :: 0 <= i < |s| ==> s[i] >= 0.0
    ensures Sum(s) >= 0.0
    ensures forall i :: 0 <= i < |s| ==> s[i] <= Sum(s)
  {
    if |s| > 0 {
      SumNonNegative(s[..|s| - 1]);
      forall i | 0 <= i < |s|
        ensures s[i] <= Sum(s)
      {
        assert i < |s| - 1 ==> s[..|s| - 1][i] == s[i];
      }
    }
  }

  /** A sequence all of whose elements are at most `x` has a sum of at most |s| times x. */
  lemma {:induction false} SumAtMost(s: seq<real>, x: real)
    requires forall i :: 0 <= i < |s| ==> s[i] <= x
    ensures Sum(s) <= Times(|s|, x)
  {
    if |s| > 0 {
      SumAtMost(s[..|s| - 1], x);
    }
  }

  lemma {:induction false} SumInUpdate(s: seq<real>, S: set<int>, i: nat, v: real)
    requires i < |s|
    ensures SumIn(s[i := v], S) == SumIn(s, S) + (if i in S then v - s[i] else 0.0)
  {
    var n := |s| - 1;
    if i == n {
      assert s[i := v][..n] == s[..n];
    } else {
      assert s[i := v][..n] == s[..n][i := v];
      SumInUpdate(s[..n], S, i, v);
    }
  }

  lemma {:induction false} SumInPlus(a: seq<real>, b: seq<real>, S: set<int>)
    requires |a| == |b|
    ensures SumIn(Plus(a, b), S) == SumIn(a, S) + SumIn(b, S)
  {
    if |a| > 0 {
      var n := |a| - 1;
      assert Plus(a, b)[..n] == Plus(a[..n], b[..n]);
      SumInPlus(a[..n], b[..n], S);
    }
  }

  /** Part of a sum of non-negative terms is at most the whole. */
  lemma {:induction false} SumInAtMostSum(s: seq<real>, S: set<int>)
    requires forall i :: 0 <= i < |s| ==> s[i] >= 0.0
    ensures SumIn(s, S) <= Sum(s)
  {
    if |s| > 0 {
      SumInAtMostSum(s[..|s| - 1], S);
    }
  }

  lemma {:induction false} SumInAtMost(s: seq<real>, S: set<int>, x: real)
    requires forall i :: 0 <= i < |s| && i in S ==> s[i] <= x
    ensures SumIn(s, S) <= Times(Count(S, |s|), x)
  {
    if |s| > 0 {
      SumInAtMost(s[..|s| - 1], S, x);
    }
  }

  /** Adding a position that was missing adds its element and one to the count. */
  lemma {:induction false} SumInInsert(s: seq<real>, S: set<int>, w: nat)
    requires w < |s| && w !in S
    ensures SumIn(s, S + {w}) == SumIn(s, S) + s[w]
    ensures Count(S + {w}, |s|) == Count(S, |s|) + 1
  {
    var n := |s| - 1;
    if w == n {
      SumInOutside(s[..n], S, w);
    } else {
      SumInInsert(s[..n], S, w);
    }
  }

  lemma {:induction false} SumInOutside(s: seq<real>, S: set<int>, w: nat)
    requires w >= |s|
    ensures SumIn(s, S + {w}) == SumIn(s, S)
    ensures Count(S + {w}, |s|) == Count(S, |s|)
  {
    if |s| > 0 {
      SumInOutside(s[..|s| - 1], S, w);
    }
  }

  lemma {:induction false} SumInSingleton(s: seq<real>, i: nat)
    requires i < |s|
    ensures SumIn(s, {i}) == s[i]
    ensures Count({i}, |s|) == 1
  {
    SumInEmpty(s);
    SumInInsert(s, {}, i);
    assert {} + {i} == {i};
  }

  lemma {:induction false} SumInEmpty(s: seq<real>)
    ensures SumIn(s, {}) == 0.0
    ensures Count({}, |s|) == 0
  {
    if |s| > 0 {
      SumInEmpty(s[..|s| - 1]);
    }
  }

  lemma {:induction false} SumInZeros(n: nat, S: set<int>)
    ensures SumIn(Zeros(n), S) == 0.0
  {
    if n > 0 {
      assert Zeros(n)[..n - 1] == Zeros(n - 1);
      SumInZeros(n - 1, S);
    }
  }

  lemma {:induction false} CountAtMost(S: set<int>, n: nat)
    ensures Count(S, n) <= n
  {
    if n > 0 {
      CountAtMost(S, n - 1);
    }
  }
}

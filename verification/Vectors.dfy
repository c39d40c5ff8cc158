/**
 * Embedding arithmetic over the reals. The square root is a parameter: any function that is a
 * non-negative square root on non-negative arguments.
 */
module Vectors {

  type SqrtFn = real -> real

  ghost predicate IsSqrt(sqrt: SqrtFn)
  {
    forall x: real :: x >= 0.0 ==> sqrt(x) >= 0.0 && sqrt(x) * sqrt(x) == x
  }

  ghost function Dot(a: seq<real>, b: seq<real>): real
    requires |a| == |b|
  {
    var n := |a| - 1;
    if |a| == 0 then 0.0 else Dot(a[..n], b[..n]) + a[n] * b[n]
  }

  ghost function Scaled(c: real, a: seq<real>): (r: seq<real>)
    ensures |r| == |a|
    ensures forall i {:trigger r[i]} :: 0 <= i < |a| ==> r[i] == c * a[i]
  {
    var n := |a| - 1;
    if |a| == 0 then [] else Scaled(c, a[..n]) + [c * a[n]]
  }

  function Ratio(d: real, ra: real, rb: real): real
    requires ra * rb != 0.0
  {
    d / (ra * rb)
  }

  ghost function Cosine(sqrt: SqrtFn, a: seq<real>, b: seq<real>): real
    requires IsSqrt(sqrt)
  {
    if |a| == 0 || |a| != |b| then 0.0
    else
      var na, nb := Dot(a, a), Dot(b, b);
      if na == 0.0 || nb == 0.0 then 0.0
      else
        NormsPositive(sqrt, a, b);
        Ratio(Dot(a, b), sqrt(na), sqrt(nb))
  }

  // ----- Squares and roots -----

  lemma {:induction false} DotSelfNotNegative(a: seq<real>)
    ensures Dot(a, a) >= 0.0
  {
    if |a| > 0 {
      DotSelfNotNegative(a[..|a| - 1]);
    }
  }

  lemma RootPositive(sqrt: SqrtFn, x: real)
    requires IsSqrt(sqrt) && x > 0.0
    ensures sqrt(x) > 0.0 && sqrt(x) * sqrt(x) == x
  {
  }

  lemma NormsPositive(sqrt: SqrtFn, a: seq<real>, b: seq<real>)
    requires IsSqrt(sqrt) && Dot(a, a) != 0.0 && Dot(b, b) != 0.0
    ensures sqrt(Dot(a, a)) > 0.0 && sqrt(Dot(a, a)) * sqrt(Dot(a, a)) == Dot(a, a)
    ensures sqrt(Dot(b, b)) > 0.0 && sqrt(Dot(b, b)) * sqrt(Dot(b, b)) == Dot(b, b)
    ensures sqrt(Dot(a, a)) * sqrt(Dot(b, b)) > 0.0
  {
    DotSelfNotNegative(a);
    DotSelfNotNegative(b);
    RootPositive(sqrt, Dot(a, a));
    RootPositive(sqrt, Dot(b, b));
  }

  lemma PositiveProduct(x: real, y: real)
    requires x > 0.0 && y > 0.0
    ensures x * y > 0.0
  {
  }

  lemma StrictSquares(x: real, y: real)
    requires 0.0 <= x < y
    ensures x * x < y * y
  {
    PositiveProduct(y - x, y + x);
    assert (y - x) * (y + x) == y * y - x * x;
  }

  lemma SameSquare(x: real, y: real)
    requires x >= 0.0 && y >= 0.0 && x * x == y * y
    ensures x == y
  {
    if x < y {
      StrictSquares(x, y);
    } else if y < x {
      StrictSquares(y, x);
    }
  }

  lemma SquareAtMost(x: real, y: real)
    requires y >= 0.0 && x * x <= y * y
    ensures -y <= x <= y
  {
    if x > y {
      StrictSquares(y, x);
    } else if x < -y {
      assert (-x) * (-x) == x * x;
      StrictSquares(y, -x);
    }
  }

  // ----- Cauchy-Schwarz -----

  lemma CauchyStep(d: real, p: real, q: real, x: real, y: real)
    requires p >= 0.0 && q >= 0.0 && SquareWithin(d, p, q)
    ensures SquareWithin(d + x * y, p + x * x, q + y * y)
  {
    CrossTerm(d, p, q, x, y);
    assert (d + x * y) * (d + x * y) == d * d + 2.0 * d * (x * y) + (x * y) * (x * y);
    assert (p + x * x) * (q + y * y) == p * q + p * (y * y) + q * (x * x) + (x * x) * (y * y);
    assert (x * y) * (x * y) == (x * x) * (y * y);
  }

  lemma SquareNotNegative(z: real)
    ensures z * z >= 0.0
  {
  }

  lemma CrossTerm(d: real, p: real, q: real, x: real, y: real)
    requires p >= 0.0 && q >= 0.0 && d * d <= p * q
    ensures 2.0 * d * (x * y) <= p * (y * y) + q * (x * x)
  {
    SquareNotNegative(x);
    if p == 0.0 {
      SquareAtMost(d, 0.0);
      assert d == 0.0;
      assert q * (x * x) >= 0.0;
    } else {
      var t := p * (y * y) + q * (x * x) - 2.0 * d * (x * y);
      var z := p * y - d * x;
      assert p * t == z * z + (p * q - d * d) * (x * x);
      SquareNotNegative(z);
      assert (p * q - d * d) * (x * x) >= 0.0;
      NonNegativeFactor(p, t);
    }
  }

  lemma NonNegativeFactor(p: real, t: real)
    requires p > 0.0 && p * t >= 0.0
    ensures t >= 0.0
  {
  }

  /** d * d is at most p * q. */
  ghost predicate SquareWithin(d: real, p: real, q: real)
  {
    d * d <= p * q
  }

  lemma {:induction false} CauchySchwarz(a: seq<real>, b: seq<real>)
    requires |a| == |b|
    ensures SquareWithin(Dot(a, b), Dot(a, a), Dot(b, b))
  {
    if |a| > 0 {
      var n := |a| - 1;
      var d, p, q := Dot(a[..n], b[..n]), Dot(a[..n], a[..n]), Dot(b[..n], b[..n]);
      assert SquareWithin(d, p, q) by { CauchySchwarz(a[..n], b[..n]); }
      assert p >= 0.0 by { DotSelfNotNegative(a[..n]); }
      assert q >= 0.0 by { DotSelfNotNegative(b[..n]); }
      var x, y := a[n], b[n];
      assert Dot(a, b) == d + x * y && Dot(a, a) == p + x * x && Dot(b, b) == q + y * y;
      CauchyStep(d, p, q, x, y);
    }
  }

  lemma {:induction false} DotSymmetric(a: seq<real>, b: seq<real>)
    requires |a| == |b|
    ensures Dot(a, b) == Dot(b, a)
  {
    if |a| > 0 {
      DotSymmetric(a[..|a| - 1], b[..|b| - 1]);
    }
  }

  lemma DotUnfold(a: seq<real>, b: seq<real>, n: int)
    requires |a| == |b| == n + 1
    ensures n < 0 ==> Dot(a, b) == 0.0
    ensures n >= 0 ==> Dot(a, b) == Dot(a[..n], b[..n]) + a[n] * b[n]
  {
  }

  lemma {:induction false} DotScaled(c: real, a: seq<real>, b: seq<real>)
    requires |a| == |b|
    ensures Dot(Scaled(c, a), b) == c * Dot(a, b)
  {
    hide Dot;
    var s, n := Scaled(c, a), |a| - 1;
    DotUnfold(s, b, n);
    DotUnfold(a, b, n);
    if n >= 0 {
      assert s[..n] == Scaled(c, a[..n]);
      DotScaled(c, a[..n], b[..n]);
      ScaledSum(c, Dot(a[..n], b[..n]), a[n], b[n], Dot(s[..n], b[..n]), s[n], Dot(s, b), Dot(a, b));
    }
  }

  lemma ScaledSum(c: real, d: real, x: real, y: real, e: real, z: real, left: real, right: real)
    requires e == c * d && z == c * x && left == e + z * y && right == d + x * y
    ensures left == c * right
  {
    assert z * y == c * (x * y);
  }

  // ----- The cosine -----

  lemma QuotientBounds(d: real, m: real)
    requires m > 0.0 && -m <= d <= m
    ensures -1.0 <= d / m <= 1.0
  {
    assert (1.0 - d / m) * m == m - d;
    NonNegativeFactor(m, 1.0 - d / m);
    assert (1.0 + d / m) * m == m + d;
    NonNegativeFactor(m, 1.0 + d / m);
  }

  lemma RatioInRange(d: real, na: real, nb: real, ra: real, rb: real)
    requires ra > 0.0 && rb > 0.0 && ra * ra == na && rb * rb == nb && SquareWithin(d, na, nb)
    ensures ra * rb > 0.0 && -1.0 <= Ratio(d, ra, rb) <= 1.0
  {
    PositiveProduct(ra, rb);
    assert (ra * rb) * (ra * rb) == (ra * ra) * (rb * rb);
    SquareAtMost(d, ra * rb);
    QuotientBounds(d, ra * rb);
  }

  /** The cosine of any two vectors, of whatever lengths, lies between -1 and 1. */
  lemma CosineInRange(sqrt: SqrtFn, a: seq<real>, b: seq<real>)
    requires IsSqrt(sqrt)
    ensures -1.0 <= Cosine(sqrt, a, b) <= 1.0
  {
    if |a| != 0 && |a| == |b| && Dot(a, a) != 0.0 && Dot(b, b) != 0.0 {
      var d, na, nb := Dot(a, b), Dot(a, a), Dot(b, b);
      assert SquareWithin(d, na, nb) by { CauchySchwarz(a, b); }
      NormsPositive(sqrt, a, b);
      RatioInRange(d, na, nb, sqrt(na), sqrt(nb));
    }
  }

  lemma RatioOfSelf(n: real, r: real)
    requires n > 0.0 && r * r == n
    ensures Ratio(n, r, r) == 1.0
  {
    SelfQuotient(n, r * r);
  }

  lemma SelfQuotient(n: real, m: real)
    requires m > 0.0 && n == m
    ensures n / m == 1.0
  {
  }

  /** A vector that is not all zero has cosine 1 with itself; the zero vector has cosine 0. */
  lemma CosineOfSelf(sqrt: SqrtFn, a: seq<real>)
    requires IsSqrt(sqrt)
    ensures Cosine(sqrt, a, a) == if Dot(a, a) > 0.0 then 1.0 else 0.0
  {
    var n := Dot(a, a);
    if |a| > 0 {
      CosineIs(sqrt, a, a, n, n, n);
      if n > 0.0 {
        RootPositive(sqrt, n);
        RatioOfSelf(n, sqrt(n));
      }
    }
  }

  lemma CosineSymmetric(sqrt: SqrtFn, a: seq<real>, b: seq<real>)
    requires IsSqrt(sqrt)
    ensures Cosine(sqrt, a, b) == Cosine(sqrt, b, a)
  {
    if |a| == |b| {
      DotSymmetric(a, b);
    }
  }

  lemma RootScaled(c: real, n: real, scaled: real, r: real, rs: real)
    requires c > 0.0 && r >= 0.0 && rs >= 0.0
    requires r * r == n && rs * rs == scaled && scaled == c * (c * n)
    ensures rs == c * r
  {
    assert (c * r) * (c * r) == c * (c * (r * r));
    assert c * r >= 0.0;
    SameSquare(rs, c * r);
  }

  lemma RootOfScaled(sqrt: SqrtFn, c: real, n: real, scaled: real)
    requires IsSqrt(sqrt) && c > 0.0 && n >= 0.0 && scaled >= 0.0 && scaled == c * (c * n)
    ensures sqrt(scaled) == c * sqrt(n)
  {
    RootScaled(c, n, scaled, sqrt(n), sqrt(scaled));
  }

  lemma DotScaledTwice(c: real, a: seq<real>)
    ensures Dot(Scaled(c, a), Scaled(c, a)) == c * (c * Dot(a, a))
  {
    hide Dot;
    var s := Scaled(c, a);
    var ss, mixed, aa := Dot(s, s), Dot(a, s), Dot(a, a);
    assert ss == c * mixed by { DotScaled(c, a, s); }
    assert mixed == c * aa by {
      DotSymmetric(a, s);
      DotScaled(c, a, a);
    }
  }

  lemma RatioScales(c: real, d: real, ra: real, rb: real)
    requires c > 0.0 && ra > 0.0 && rb > 0.0
    ensures ra * rb > 0.0 && (c * ra) * rb > 0.0
    ensures Ratio(c * d, c * ra, rb) == Ratio(d, ra, rb)
  {
    PositiveProduct(ra, rb);
    PositiveProduct(c, ra * rb);
    var m := ra * rb;
    assert (c * ra) * rb == c * m;
    assert d / m * (c * m) == c * d by { assert d / m * m == d; }
  }

  lemma ScaledZero(c: real, n: real, scaled: real)
    requires c > 0.0 && scaled == c * (c * n)
    ensures scaled == 0.0 <==> n == 0.0
  {
    if n > 0.0 {
      PositiveProduct(c, n);
      PositiveProduct(c, c * n);
    } else if n < 0.0 {
      PositiveProduct(c, -n);
      PositiveProduct(c, c * (-n));
    }
  }

  lemma CosineIs(sqrt: SqrtFn, a: seq<real>, b: seq<real>, d: real, na: real, nb: real)
    requires IsSqrt(sqrt) && |a| == |b| != 0
    requires d == Dot(a, b) && na == Dot(a, a) && nb == Dot(b, b)
    ensures na >= 0.0 && nb >= 0.0
    ensures na == 0.0 || nb == 0.0 ==> Cosine(sqrt, a, b) == 0.0
    ensures na != 0.0 && nb != 0.0 ==>
              sqrt(na) > 0.0 && sqrt(nb) > 0.0 && sqrt(na) * sqrt(nb) != 0.0
                && Cosine(sqrt, a, b) == Ratio(d, sqrt(na), sqrt(nb))
  {
    DotSelfNotNegative(a);
    DotSelfNotNegative(b);
    if na != 0.0 && nb != 0.0 {
      NormsPositive(sqrt, a, b);
    }
  }

  /** The cosine does not depend on the length of a vector. */
  lemma CosineIgnoresScale(sqrt: SqrtFn, c: real, a: seq<real>, b: seq<real>)
    requires IsSqrt(sqrt) && c > 0.0
    ensures Cosine(sqrt, Scaled(c, a), b) == Cosine(sqrt, a, b)
  {
    var s := Scaled(c, a);
    if |a| != 0 && |a| == |b| {
      var d, na, nb, ds, ns := Dot(a, b), Dot(a, a), Dot(b, b), Dot(s, b), Dot(s, s);
      assert ds == c * d by { DotScaled(c, a, b); }
      assert ns == c * (c * na) by { DotScaledTwice(c, a); }
      CosineIs(sqrt, a, b, d, na, nb);
      CosineIs(sqrt, s, b, ds, ns, nb);
      ScaledZero(c, na, ns);
      SameCosine(sqrt, c, d, na, nb, ns);
    }
  }

  lemma SameCosine(sqrt: SqrtFn, c: real, d: real, na: real, nb: real, ns: real)
    requires IsSqrt(sqrt) && c > 0.0 && na >= 0.0 && nb >= 0.0 && ns >= 0.0 && ns == c * (c * na)
    ensures na != 0.0 && nb != 0.0 && ns != 0.0 ==>
              && sqrt(na) * sqrt(nb) != 0.0 && sqrt(ns) * sqrt(nb) != 0.0
              && Ratio(c * d, sqrt(ns), sqrt(nb)) == Ratio(d, sqrt(na), sqrt(nb))
  {
    if na != 0.0 && nb != 0.0 && ns != 0.0 {
      RootOfScaled(sqrt, c, na, ns);
      RootPositive(sqrt, na);
      RootPositive(sqrt, nb);
      RatioScales(c, d, sqrt(na), sqrt(nb));
    }
  }

  // ----- The loops -----

  method CosineSimilarity(sqrt: SqrtFn, a: seq<real>, b: seq<real>) returns (score: real)
    requires IsSqrt(sqrt)
    ensures score == Cosine(sqrt, a, b)
    ensures -1.0 <= score <= 1.0
  {
    CosineInRange(sqrt, a, b);
    if |a| == 0 || |a| != |b| {
      return 0.0;
    }
    var dot, na, nb := 0.0, 0.0, 0.0;
    for i := 0 to |a|
      invariant dot == Dot(a[..i], b[..i]) && na == Dot(a[..i], a[..i]) && nb == Dot(b[..i], b[..i])
    {
      NextDot(a, b, i);
      NextDot(a, a, i);
      NextDot(b, b, i);
      dot := dot + a[i] * b[i];
      na := na + a[i] * a[i];
      nb := nb + b[i] * b[i];
    }
    assert a[..|a|] == a && b[..|b|] == b;
    CosineIs(sqrt, a, b, dot, na, nb);
    if na == 0.0 || nb == 0.0 {
      return 0.0;
    }
    score := Ratio(dot, sqrt(na), sqrt(nb));
  }

  lemma NextDot(a: seq<real>, b: seq<real>, i: nat)
    requires |a| == |b| && i < |a|
    ensures Dot(a[..i + 1], b[..i + 1]) == Dot(a[..i], b[..i]) + a[i] * b[i]
  {
    assert a[..i + 1][..i] == a[..i] && b[..i + 1][..i] == b[..i];
  }

  /** The vector divided by its norm; the zero vector as it is. */
  ghost function Normalized(sqrt: SqrtFn, v: seq<real>): (r: seq<real>)
    requires IsSqrt(sqrt)
    ensures |r| == |v|
  {
    if sqrt(Dot(v, v)) == 0.0 then v else Scaled(1.0 / sqrt(Dot(v, v)), v)
  }

  /** Returns its argument itself when the norm is zero, a new vector otherwise. */
  method NormalizeVector(sqrt: SqrtFn, v: array<real>) returns (out: array<real>)
    requires IsSqrt(sqrt)
    ensures out[..] == Normalized(sqrt, v[..])
    ensures sqrt(Dot(v[..], v[..])) == 0.0 ==> out == v
    ensures sqrt(Dot(v[..], v[..])) != 0.0 ==> fresh(out)
  {
    var sum := 0.0;
    for i := 0 to v.Length
      invariant sum == Dot(v[..i], v[..i])
    {
      assert v[..i + 1][..i] == v[..i];
      sum := sum + v[i] * v[i];
    }
    assert v[..v.Length] == v[..];
    var norm := sqrt(sum);
    if norm == 0.0 {
      return v;
    }
    out := new real[v.Length];
    for i := 0 to v.Length
      invariant forall j :: 0 <= j < i ==> out[j] == v[j] / norm
    {
      out[i] := v[i] / norm;
    }
    ghost var scaled := Scaled(1.0 / norm, v[..]);
    forall j | 0 <= j < v.Length
      ensures out[j] == scaled[j]
    {
      DivideIsScale(v[j], norm);
    }
    assert out[..] == scaled;
  }

  lemma DivideIsScale(x: real, n: real)
    requires n != 0.0
    ensures x / n == 1.0 / n * x
  {
    assert (x / n) * n == x;
    assert (1.0 / n * x) * n == x by {
      assert 1.0 / n * n == 1.0;
    }
  }

  lemma InverseRoot(n: real, r: real, c: real)
    requires r > 0.0 && r * r == n && c == 1.0 / r
    ensures c > 0.0 && c * (c * n) == 1.0
  {
    assert c * r == 1.0;
    NonNegativeFactor(r, c);
    assert c * (c * (r * r)) == (c * r) * (c * r);
  }

  /** Normalising keeps every cosine, and a vector that is not all zero gets norm 1. */
  lemma NormalizedKeepsCosine(sqrt: SqrtFn, v: seq<real>, b: seq<real>)
    requires IsSqrt(sqrt)
    ensures Cosine(sqrt, Normalized(sqrt, v), b) == Cosine(sqrt, v, b)
    ensures Dot(v, v) > 0.0 ==> Dot(Normalized(sqrt, v), Normalized(sqrt, v)) == 1.0
  {
    DotSelfNotNegative(v);
    var r := sqrt(Dot(v, v));
    assert r >= 0.0 && r * r == Dot(v, v);
    if r != 0.0 {
      var c := 1.0 / r;
      InverseRoot(Dot(v, v), r, c);
      CosineIgnoresScale(sqrt, c, v, b);
      DotScaledTwice(c, v);
    }
  }
}

/** The value of the cosine, with the sums written out, and when it is 1 or -1. */
module CosineGeometry {
  import opened RealSums
  import opened Vectors

  /** The products of the components. */
  ghost function Products(a: seq<real>, b: seq<real>): (p: seq<real>)
    requires |a| == |b|
    ensures |p| == |a|
    ensures forall i {:trigger p[i]} :: 0 <= i < |p| ==> p[i] == a[i] * b[i]
  {
    var n := |a| - 1;
    if n < 0 then [] else Products(a[..n], b[..n]) + [a[n] * b[n]]
  }

  lemma {:induction false} DotIsSum(a: seq<real>, b: seq<real>)
    requires |a| == |b|
    ensures Dot(a, b) == Sum(Products(a, b))
  {
    if |a| > 0 {
      var n := |a| - 1;
      DotIsSum(a[..n], b[..n]);
      assert Products(a, b)[..n] == Products(a[..n], b[..n]);
    }
  }

  /**
   * For vectors of one length, neither of them zero, the cosine times both norms is the sum of the products; in
   * every other case it is 0.
   */
  lemma CosineValue(sqrt: SqrtFn, a: seq<real>, b: seq<real>)
    requires IsSqrt(sqrt)
    ensures |a| == 0 || |a| != |b| ==> Cosine(sqrt, a, b) == 0.0
    ensures |a| == |b| && (Sum(Products(a, a)) == 0.0 || Sum(Products(b, b)) == 0.0) ==> Cosine(sqrt, a, b) == 0.0
    ensures |a| == |b| > 0 && Sum(Products(a, a)) != 0.0 && Sum(Products(b, b)) != 0.0 ==>
              && sqrt(Sum(Products(a, a))) * sqrt(Sum(Products(b, b))) > 0.0
              && Cosine(sqrt, a, b) * (sqrt(Sum(Products(a, a))) * sqrt(Sum(Products(b, b)))) == Sum(Products(a, b))
  {
    hide Dot;
    hide Sum;
    hide Products;
    if |a| == |b| {
      DotIsSum(a, b);
      DotIsSum(a, a);
      DotIsSum(b, b);
      if |a| > 0 {
        CosineTimesNorms(sqrt, a, b, Dot(a, b), Dot(a, a), Dot(b, b));
      }
    }
  }

  lemma CosineTimesNorms(sqrt: SqrtFn, a: seq<real>, b: seq<real>, d: real, na: real, nb: real)
    requires IsSqrt(sqrt) && |a| == |b| > 0 && d == Dot(a, b) && na == Dot(a, a) && nb == Dot(b, b)
    ensures na == 0.0 || nb == 0.0 ==> Cosine(sqrt, a, b) == 0.0
    ensures na != 0.0 && nb != 0.0 ==>
              sqrt(na) * sqrt(nb) > 0.0 && Cosine(sqrt, a, b) * (sqrt(na) * sqrt(nb)) == d
  {
    hide Dot;
    CosineIs(sqrt, a, b, d, na, nb);
    hide Cosine;
    if na != 0.0 && nb != 0.0 {
      PositiveProduct(sqrt(na), sqrt(nb));
      RatioTimes(d, sqrt(na), sqrt(nb));
    }
  }

  lemma RatioTimes(d: real, ra: real, rb: real)
    requires ra * rb != 0.0
    ensures Ratio(d, ra, rb) * (ra * rb) == d
  {
    var m := ra * rb;
    assert d / m * m == d;
  }

  // ----- Parallel vectors -----

  /** `b` without its part along `a`. */
  ghost function Rest(a: seq<real>, b: seq<real>, c: real): (r: seq<real>)
    requires |a| == |b|
    ensures |r| == |a|
    ensures forall i {:trigger r[i]} :: 0 <= i < |r| ==> r[i] == b[i] - c * a[i]
  {
    var n := |a| - 1;
    if n < 0 then [] else Rest(a[..n], b[..n], c) + [b[n] - c * a[n]]
  }

  lemma SquareOfRest(x: real, y: real, c: real)
    ensures (y - c * x) * (y - c * x) == y * y - 2.0 * c * (x * y) + c * (c * (x * x))
  {
    assert (y - c * x) * (y - c * x) == y * y - 2.0 * (c * x) * y + (c * x) * (c * x);
    assert (c * x) * (c * x) == c * (c * (x * x));
    assert 2.0 * (c * x) * y == 2.0 * c * (x * y);
  }

  lemma AddRest(c: real, d: real, p: real, q: real, r: real, x: real, y: real)
    requires r == q - 2.0 * c * d + c * (c * p)
    ensures r + (y - c * x) * (y - c * x)
         == (q + y * y) - 2.0 * c * (d + x * y) + c * (c * (p + x * x))
  {
    SquareOfRest(x, y, c);
    assert c * (c * (p + x * x)) == c * (c * p) + c * (c * (x * x));
    assert 2.0 * c * (d + x * y) == 2.0 * c * d + 2.0 * c * (x * y);
  }

  lemma {:induction false} NormOfRest(a: seq<real>, b: seq<real>, c: real)
    requires |a| == |b|
    ensures Dot(Rest(a, b, c), Rest(a, b, c)) == Dot(b, b) - 2.0 * c * Dot(a, b) + c * (c * Dot(a, a))
  {
    hide Dot;
    var r, n := Rest(a, b, c), |a| - 1;
    DotUnfold(r, r, n);
    DotUnfold(a, a, n);
    DotUnfold(a, b, n);
    DotUnfold(b, b, n);
    if n >= 0 {
      assert r[..n] == Rest(a[..n], b[..n], c);
      NormOfRest(a[..n], b[..n], c);
      AddRest(c, Dot(a[..n], b[..n]), Dot(a[..n], a[..n]), Dot(b[..n], b[..n]), Dot(r[..n], r[..n]), a[n], b[n]);
    }
  }

  lemma {:induction false} OnlyZeroHasNormZero(v: seq<real>, i: nat)
    requires Dot(v, v) == 0.0 && i < |v|
    ensures v[i] == 0.0
  {
    var n := |v| - 1;
    DotSelfNotNegative(v[..n]);
    BothZero(Dot(v[..n], v[..n]), v[n], v[n] * v[n]);
    if i < n {
      OnlyZeroHasNormZero(v[..n], i);
      assert v[..n][i] == v[i];
    }
  }

  lemma BothZero(d: real, x: real, sq: real)
    requires d >= 0.0 && sq == x * x && d + sq == 0.0
    ensures d == 0.0 && x == 0.0
  {
    assert sq >= 0.0 by { SquareNotNegative(x); }
    ZeroSquare(x);
  }

  lemma ZeroSquare(x: real)
    requires x * x <= 0.0
    ensures x == 0.0
  {
    SquareAtMost(x, 0.0);
  }


  /** The equality case of Cauchy-Schwarz: then one vector is a multiple of the other. */
  lemma EqualityMeansParallel(a: seq<real>, b: seq<real>, c: real)
    requires |a| == |b| && Dot(a, a) > 0.0 && SameSquares(Dot(a, b), Dot(a, a), Dot(b, b))
    requires c == Dot(a, b) / Dot(a, a)
    ensures b == Scaled(c, a)
  {
    hide Dot;
    hide Rest;
    assert Dot(Rest(a, b, c), Rest(a, b, c)) == 0.0 by {
      NormOfRest(a, b, c);
      NothingLeft(c, Dot(a, b), Dot(a, a), Dot(b, b));
    }
    forall i | 0 <= i < |b|
      ensures b[i] == Scaled(c, a)[i]
    {
      OnlyZeroHasNormZero(Rest(a, b, c), i);
      assert Rest(a, b, c)[i] == b[i] - c * a[i];
    }
  }

  ghost predicate SameSquares(d: real, p: real, q: real)
  {
    d * d == p * q
  }

  lemma NothingLeft(c: real, d: real, na: real, nb: real)
    requires na > 0.0 && SameSquares(d, na, nb) && c == d / na
    ensures nb - 2.0 * c * d + c * (c * na) == 0.0
  {
    assert c * na == d;
    assert c * (c * na) == c * d;
    assert (c * d) * na == d * d;
    assert (nb - c * d) * na == 0.0;
    if nb - c * d != 0.0 {
      NonZeroFactor(nb - c * d, na);
    }
  }

  lemma NonZeroFactor(x: real, y: real)
    requires x != 0.0 && y > 0.0
    ensures x * y != 0.0
  {
  }

  /** The cosine of a vector with a nonzero multiple of itself is the sign of the factor. */
  lemma CosineOfMultiple(sqrt: SqrtFn, a: seq<real>, c: real)
    requires IsSqrt(sqrt) && |a| > 0 && Dot(a, a) > 0.0 && c != 0.0
    ensures Cosine(sqrt, a, Scaled(c, a)) == if c > 0.0 then 1.0 else -1.0
  {
    hide Dot;
    var b, na := Scaled(c, a), Dot(a, a);
    var d, nb := Dot(a, b), Dot(b, b);
    assert d == c * na by {
      DotSymmetric(a, b);
      DotScaled(c, a, a);
    }
    assert nb == c * (c * na) by { DotScaledTwice(c, a); }
    CosineIs(sqrt, a, b, d, na, nb);
    hide Cosine;
    MultipleRatio(sqrt, c, d, na, nb);
  }

  lemma MultipleRatio(sqrt: SqrtFn, c: real, d: real, na: real, nb: real)
    requires IsSqrt(sqrt) && c != 0.0 && na > 0.0 && d == c * na && nb == c * (c * na) && nb >= 0.0
    ensures nb > 0.0 && sqrt(na) * sqrt(nb) > 0.0
    ensures Ratio(d, sqrt(na), sqrt(nb)) == if c > 0.0 then 1.0 else -1.0
  {
    var p := if c > 0.0 then c else -c;
    SquareOfSize(c, p, na);
    PositiveProduct(p, na);
    PositiveProduct(p, p * na);
    RootOfScaled(sqrt, p, na, nb);
    RootPositive(sqrt, na);
    RootPositive(sqrt, nb);
    hide IsSqrt;
    RatioOfMultiple(c, p, d, na, sqrt(na), sqrt(nb));
  }

  lemma SquareOfSize(c: real, p: real, n: real)
    requires p == c || p == -c
    ensures p * (p * n) == c * (c * n)
  {
  }

  lemma RatioOfMultiple(c: real, p: real, d: real, na: real, ra: real, rb: real)
    requires p > 0.0 && (c == p || c == -p) && na > 0.0 && d == c * na
    requires ra > 0.0 && ra * ra == na && rb > 0.0 && rb == p * ra
    ensures ra * rb > 0.0 && Ratio(d, ra, rb) == if c > 0.0 then 1.0 else -1.0
  {
    PositiveProduct(ra, rb);
    RatioTimes(d, ra, rb);
    SignOnly(Ratio(d, ra, rb), c, p, na, ra);
  }

  lemma SignOnly(x: real, c: real, p: real, na: real, r: real)
    requires na > 0.0 && r * r == na && p > 0.0 && (c == p || c == -p) && x * (r * (p * r)) == c * na
    ensures x == if c > 0.0 then 1.0 else -1.0
  {
    assert r * (p * r) == p * na;
    var m := p * na;
    PositiveProduct(p, na);
    var s := if c > 0.0 then 1.0 else -1.0;
    assert (x - s) * m == 0.0;
    if x != s {
      NonZeroFactor(x - s, m);
    }
  }

  /** The cosine is 1 exactly for positive multiples, and -1 exactly for negative ones. */
  lemma CosineIsOneIff(sqrt: SqrtFn, a: seq<real>, b: seq<real>)
    requires IsSqrt(sqrt) && |a| == |b| > 0 && Dot(a, a) > 0.0 && Dot(b, b) > 0.0
    ensures Cosine(sqrt, a, b) == 1.0 <==> exists c :: c > 0.0 && b == Scaled(c, a)
    ensures Cosine(sqrt, a, b) == -1.0 <==> exists c :: c < 0.0 && b == Scaled(c, a)
  {
    if x :| x != 0.0 && b == Scaled(x, a) {
      CosineOfMultiple(sqrt, a, x);
    }
    if Cosine(sqrt, a, b) == 1.0 || Cosine(sqrt, a, b) == -1.0 {
      var c := ExtremeIsParallel(sqrt, a, b);
      CosineOfMultiple(sqrt, a, c);
    }
    if x :| x > 0.0 && b == Scaled(x, a) {
      CosineOfMultiple(sqrt, a, x);
    }
    if x :| x < 0.0 && b == Scaled(x, a) {
      CosineOfMultiple(sqrt, a, x);
    }
  }

  lemma ExtremeIsParallel(sqrt: SqrtFn, a: seq<real>, b: seq<real>) returns (c: real)
    requires IsSqrt(sqrt) && |a| == |b| > 0 && Dot(a, a) > 0.0 && Dot(b, b) > 0.0
    requires Cosine(sqrt, a, b) == 1.0 || Cosine(sqrt, a, b) == -1.0
    ensures c != 0.0 && b == Scaled(c, a)
  {
    hide Dot;
    var d, na, nb := Dot(a, b), Dot(a, a), Dot(b, b);
    CosineIs(sqrt, a, b, d, na, nb);
    hide Cosine;
    ExtremeRatio(d, na, nb, sqrt(na), sqrt(nb));
    c := d / na;
    EqualityMeansParallel(a, b, c);
  }

  lemma ExtremeRatio(d: real, na: real, nb: real, ra: real, rb: real)
    requires na > 0.0 && nb > 0.0 && ra * ra == na && rb * rb == nb && ra * rb != 0.0
    requires Ratio(d, ra, rb) == 1.0 || Ratio(d, ra, rb) == -1.0
    ensures SameSquares(d, na, nb) && d / na != 0.0
  {
    RatioTimes(d, ra, rb);
    var m := ra * rb;
    assert d == m || d == -m;
    assert d * d == m * m;
    SquareOfProduct(ra, rb, na, nb);
    assert d / na * na == d;
  }

  lemma SquareOfProduct(x: real, y: real, p: real, q: real)
    requires x * x == p && y * y == q
    ensures (x * y) * (x * y) == p * q
  {
    assert (x * y) * (x * y) == (x * x) * (y * y);
  }
}

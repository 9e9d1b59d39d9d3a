/** What the correlations and the fitted line are, from the lists themselves, and when there is none. */
module CorrelationLaws {
  import opened Common
  import opened Statistics

  /** How far the lists move together about a and b: the products of the distances, added up. */
  function Together(x: seq<real>, y: seq<real>, a: real, b: real): real
    requires |x| == |y|
  {
    if x == [] then 0.0
    else
      var n := |x| - 1;
      Together(x[..n], y[..n], a, b) + (x[n] - a) * (y[n] - b)
  }

  lemma {:induction false} TogetherIsDot(x: seq<real>, y: seq<real>, a: real, b: real)
    requires |x| == |y|
    ensures Dot(Shifted(x, a), Shifted(y, b)) == Together(x, y, a, b)
  {
    if x != [] {
      var n := |x| - 1;
      TogetherIsDot(x[..n], y[..n], a, b);
      assert Shifted(x, a)[..n] == Shifted(x[..n], a) && Shifted(y, b)[..n] == Shifted(y[..n], b);
    }
  }

  predicate Constant(xs: seq<real>) { forall i | 0 <= i < |xs| :: xs[i] == xs[0] }

  lemma Spare(c: real, n: real)
    requires n > 0.0
    ensures c * n / n == c
  {
  }

  lemma {:induction false} SumOfConstant(xs: seq<real>, c: real)
    requires forall i | 0 <= i < |xs| :: xs[i] == c
    ensures Sum(xs) == c * |xs| as real
  {
    if xs != [] {
      SumOfConstant(xs[..|xs| - 1], c);
      assert c * |xs| as real == c * (|xs| - 1) as real + c;
    }
  }

  lemma {:induction false} NothingApart(xs: seq<real>, c: real)
    requires forall i | 0 <= i < |xs| :: xs[i] == c
    ensures Together(xs, xs, c, c) == 0.0
  {
    if xs != [] { NothingApart(xs[..|xs| - 1], c); }
  }

  /** A list has no spread about its mean exactly if all its values are equal. */
  lemma NoSpread(xs: seq<real>)
    requires xs != []
    ensures var s := Dot(Shifted(xs, Mean(xs)), Shifted(xs, Mean(xs))); s >= 0.0 && (s == 0.0 <==> Constant(xs))
  {
    var m := Mean(xs);
    DotSquareNonNegative(Shifted(xs, m));
    if Constant(xs) {
      SumOfConstant(xs, xs[0]);
      Spare(xs[0], |xs| as real);
      NothingApart(xs, m);
      TogetherIsDot(xs, xs, m, m);
    } else {
      var k :| 0 <= k < |xs| && xs[k] != xs[0];
      DotPositive(Shifted(xs, m), if xs[0] == m then k else 0);
    }
  }

  /** r is the correlation of lists that move this far apart and together. */
  predicate IsCorrelation(r: real, sxx: real, syy: real, sxy: real) {
    r * r * (sxx * syy) == sxy * sxy && (sxy > 0.0 ==> r > 0.0) && (sxy < 0.0 ==> r < 0.0) && (sxy == 0.0 ==> r == 0.0)
  }

  lemma Quotient(s: real, d: real, p: real, r: real)
    requires d > 0.0 && d * d == p && r == s / d
    ensures r * r * p == s * s && (s > 0.0 ==> r > 0.0) && (s < 0.0 ==> r < 0.0) && (s == 0.0 ==> r == 0.0)
  {
    QuotientBack(s, d, r);
    SquaresOf(s, d, p, r);
    QuotientSign(s, d, r);
  }

  lemma QuotientBack(s: real, d: real, r: real)
    requires d > 0.0 && r == s / d
    ensures r * d == s
  {
  }

  lemma SquaresOf(s: real, d: real, p: real, r: real)
    requires d * d == p && r * d == s
    ensures r * r * p == s * s
  {
    assert r * r * (d * d) == (r * d) * (r * d);
  }

  lemma QuotientSign(s: real, d: real, r: real)
    requires d > 0.0 && r * d == s
    ensures (s > 0.0 ==> r > 0.0) && (s < 0.0 ==> r < 0.0) && (s == 0.0 ==> r == 0.0)
  {
    if r > 0.0 { Positive(r, d); }
    if r < 0.0 {
      Positive(-r, d);
      assert (-r) * d == -(r * d);
    }
  }

  lemma CorrelationMeans(sxx: real, syy: real, sxy: real, sqrt: real -> real)
    requires sxx >= 0.0 && syy >= 0.0 && IsRoot(sqrt)
    ensures var q := Correlation(sxx, syy, sxy, sqrt);
            (q == None <==> sxx == 0.0 || syy == 0.0) && (q.Some? ==> IsCorrelation(q.value, sxx, syy, sxy))
  {
    if sxx != 0.0 && syy != 0.0 {
      ProductRoot(sqrt, sxx, syy);
      var d := sqrt(sxx * syy);
      Quotient(sxy, d, sxx * syy, sxy / d);
    }
  }

  /** There is a correlation for at least three pairs with differing values on both sides; its square is the share of the spread. */
  lemma PearsonMeans(x: seq<real>, y: seq<real>, sqrt: real -> real)
    requires IsRoot(sqrt)
    ensures Pearson(x, y, sqrt) == None <==> |x| < 3 || |x| != |y| || Constant(x) || Constant(y)
    ensures Pearson(x, y, sqrt).Some? ==>
              var (a, b) := (Mean(x), Mean(y));
              |x| == |y| && IsCorrelation(Pearson(x, y, sqrt).value, Together(x, x, a, a), Together(y, y, b, b), Together(x, y, a, b))
  {
    if |x| >= 3 && |x| == |y| {
      var (a, b) := (Mean(x), Mean(y));
      NoSpread(x);
      NoSpread(y);
      TogetherIsDot(x, x, a, a);
      TogetherIsDot(y, y, b, b);
      TogetherIsDot(x, y, a, b);
      CentredPearson(x, y, Shifted(x, a), Shifted(y, b), sqrt);
      CorrelationMeans(Together(x, x, a, a), Together(y, y, b, b), Together(x, y, a, b), sqrt);
    }
  }

  lemma Halved(n: nat, s: real)
    requires s == (n * (n + 1)) as real / 2.0
    ensures s == (n as real + 1.0) / 2.0 * n as real
  {
    assert (n * (n + 1)) as real == n as real * (n + 1) as real;
    Halves(n as real, s);
  }

  lemma Halves(n: real, s: real)
    requires s == n * (n + 1.0) / 2.0
    ensures s == (n + 1.0) / 2.0 * n
  {
  }

  lemma Divided(s: real, c: real, n: real)
    requires n > 0.0 && s == c * n
    ensures s / n == c
  {
  }

  lemma MeanRank(values: seq<real>)
    requires values != []
    ensures Mean(RanksOf(values)) == (|values| as real + 1.0) / 2.0
  {
    RanksTotal(values);
    Halved(|values|, Sum(RanksOf(values)));
    Divided(Sum(RanksOf(values)), (|values| as real + 1.0) / 2.0, |values| as real);
  }

  /** Spearman is the correlation of the two lists' ranks, whose mean is (n + 1) / 2. */
  lemma SpearmanMeans(x: seq<real>, y: seq<real>, sqrt: real -> real)
    requires IsRoot(sqrt)
    ensures Spearman(x, y, sqrt) == None <==> |x| < 3 || |x| != |y| || Constant(RanksOf(x)) || Constant(RanksOf(y))
    ensures Spearman(x, y, sqrt).Some? ==>
              var (u, v, m) := (RanksOf(x), RanksOf(y), (|x| as real + 1.0) / 2.0);
              |u| == |v| && IsCorrelation(Spearman(x, y, sqrt).value, Together(u, u, m, m), Together(v, v, m, m), Together(u, v, m, m))
  {
    if |x| >= 3 && |x| == |y| {
      PearsonMeans(RanksOf(x), RanksOf(y), sqrt);
      MeanRank(x);
      MeanRank(y);
    }
  }

  /** Exactly when ols gives no line and when it raises; the line it gives is the best one (OlsMinimises). */
  lemma OlsFails(x: seq<real>, y: seq<real>)
    ensures Ols(x, y) == NoFit <==> |x| < 3 || (y != [] && Constant(x))
    ensures Ols(x, y) == Raised <==> |x| >= 3 && (y == [] || (!Constant(x) && |x| != |y|))
  {
    if x != [] { NoSpread(x); }
  }
}

/** The fitted line of `calculateStats` (lines 62-66) against the
    definition it implements: the line that minimises the sum of squared
    vertical distances to the points. */
module LeastSquares {
  import opened JsNumber
  import opened Sums
  import opened Statistics

  /** Residual sum of squares of the line y = a * x + b, named over its
      recursive definition as the sums in Sums are. */
  function Sse(xs: seq<real>, ys: seq<real>, a: real, b: real): real
    requires |xs| == |ys|
  {
    SseFrom(xs, ys, a, b)
  }

  function SseFrom(xs: seq<real>, ys: seq<real>, a: real, b: real): real
    requires |xs| == |ys|
  {
    if |xs| == 0 then 0.0
    else Sq(ys[0] - (a * xs[0] + b)) + SseFrom(xs[1..], ys[1..], a, b)
  }

  lemma {:induction false} SseNonNegative(xs: seq<real>, ys: seq<real>, a: real, b: real)
    requires |xs| == |ys|
    ensures Sse(xs, ys, a, b) >= 0.0
  {
    if |xs| > 0 {
      SqNonNegative(ys[0] - (a * xs[0] + b));
      SseNonNegative(xs[1..], ys[1..], a, b);
    }
  }

  /** The residual sum of squares of y = a * x + b written with deviations
      from arbitrary centres mx and my, with e = my - a * mx - b:
      syy - 2 a sxy + a^2 sxx + 2 e (dy - a dx) + n e^2. */
  function Expanded(xs: seq<real>, ys: seq<real>, mx: real, my: real, a: real, b: real): real
    requires |xs| == |ys|
  {
    SumSq(ys, my) - 2.0 * Scale(a, CoSum(xs, ys, mx, my)) + Scale(Sq(a), SumSq(xs, mx))
      + 2.0 * Scale(my - a * mx - b, DevSum(ys, my) - a * DevSum(xs, mx))
      + Scale(|xs| as real, Sq(my - a * mx - b))
  }

  /** The residual of the first point, expanded the same way. */
  lemma {:induction false} FirstResidual(xs: seq<real>, ys: seq<real>, mx: real, my: real, a: real, b: real)
    requires |xs| == |ys| > 0
    ensures Sq(ys[0] - (a * xs[0] + b))
         == Sq(ys[0] - my) - 2.0 * Scale(a, (xs[0] - mx) * (ys[0] - my)) + Scale(Sq(a), Sq(xs[0] - mx))
          + 2.0 * Scale(my - a * mx - b, (ys[0] - my) - a * (xs[0] - mx)) + Sq(my - a * mx - b)
  {
  }

  /** The weighted sums of the expansion split off their first term, one
      sum at a time. */
  lemma {:induction false} SplitCoSum(xs: seq<real>, ys: seq<real>, mx: real, my: real, a: real)
    requires |xs| == |ys| > 0
    ensures Scale(a, CoSum(xs, ys, mx, my))
         == Scale(a, (xs[0] - mx) * (ys[0] - my)) + Scale(a, CoSum(xs[1..], ys[1..], mx, my))
  {
  }

  lemma {:induction false} SplitSumSq(xs: seq<real>, mx: real, w: real)
    requires |xs| > 0
    ensures Scale(w, SumSq(xs, mx)) == Scale(w, Sq(xs[0] - mx)) + Scale(w, SumSq(xs[1..], mx))
  {
  }

  lemma {:induction false} SplitDevSums(xs: seq<real>, ys: seq<real>, mx: real, my: real, a: real, e: real)
    requires |xs| == |ys| > 0
    ensures Scale(e, DevSum(ys, my) - a * DevSum(xs, mx))
         == Scale(e, (ys[0] - my) - a * (xs[0] - mx)) + Scale(e, DevSum(ys[1..], my) - a * DevSum(xs[1..], mx))
  {
  }

  lemma {:induction false} SplitCount(xs: seq<real>, w: real)
    requires |xs| > 0
    ensures Scale(|xs| as real, w) == Scale(|xs[1..]| as real, w) + w
  {
  }

  /** The expansion of a non-empty data set is the first point's expansion
      plus the expansion of the rest. */
  lemma {:induction false} ExpandedStep(xs: seq<real>, ys: seq<real>, mx: real, my: real, a: real, b: real)
    requires |xs| == |ys| > 0
    ensures Expanded(xs, ys, mx, my, a, b)
         == Sq(ys[0] - my) - 2.0 * Scale(a, (xs[0] - mx) * (ys[0] - my)) + Scale(Sq(a), Sq(xs[0] - mx))
          + 2.0 * Scale(my - a * mx - b, (ys[0] - my) - a * (xs[0] - mx)) + Sq(my - a * mx - b)
          + Expanded(xs[1..], ys[1..], mx, my, a, b)
  {
    SplitCoSum(xs, ys, mx, my, a);
    SplitSumSq(xs, mx, Sq(a));
    SplitDevSums(xs, ys, mx, my, a, my - a * mx - b);
    SplitCount(xs, Sq(my - a * mx - b));
    assert SumSq(ys, my) == Sq(ys[0] - my) + SumSq(ys[1..], my);
  }

  /** Over no points every sum, and so the expansion, is zero. */
  lemma {:induction false} EmptyExpanded(xs: seq<real>, ys: seq<real>, mx: real, my: real, a: real, b: real)
    requires |xs| == |ys| == 0
    ensures Expanded(xs, ys, mx, my, a, b) == 0.0
  {
    assert SumSq(xs, mx) == 0.0 && CoSum(xs, ys, mx, my) == 0.0 && DevSum(xs, mx) == 0.0;
    assert SumSq(ys, my) == 0.0 && DevSum(ys, my) == 0.0;
  }

  /** The residual sum of squares of any line, expanded around arbitrary
      centres. */
  lemma {:induction false} SseDecomposition(xs: seq<real>, ys: seq<real>, mx: real, my: real, a: real, b: real)
    requires |xs| == |ys|
    ensures Sse(xs, ys, a, b) == Expanded(xs, ys, mx, my, a, b)
  {
    if |xs| > 0 {
      SseDecomposition(xs[1..], ys[1..], mx, my, a, b);
      FirstResidual(xs, ys, mx, my, a, b);
      ExpandedStep(xs, ys, mx, my, a, b);
      assert Sse(xs, ys, a, b) == Sq(ys[0] - (a * xs[0] + b)) + Sse(xs[1..], ys[1..], a, b);
    } else {
      EmptyExpanded(xs, ys, mx, my, a, b);
    }
  }

  lemma ScaleZero(w: real, s: real)
    requires s == 0.0
    ensures Scale(w, s) == 0.0
  {
  }

  /** Around the means the cross terms of the expansion vanish. */
  lemma SseAtMeans(xs: seq<real>, ys: seq<real>, mx: real, my: real, a: real, b: real)
    requires |xs| == |ys|
    requires DevSum(xs, mx) == 0.0 && DevSum(ys, my) == 0.0
    ensures Sse(xs, ys, a, b)
         == SumSq(ys, my) - 2.0 * Scale(a, CoSum(xs, ys, mx, my)) + Scale(Sq(a), SumSq(xs, mx))
          + Scale(|xs| as real, Sq(my - a * mx - b))
  {
    SseDecomposition(xs, ys, mx, my, a, b);
    ScaleZero(my - a * mx - b, DevSum(ys, my) - a * DevSum(xs, mx));
  }

  /** Moving the slope away from m costs sxx * (a - m)^2, when m solves the
      normal equation m * sxx == sxy. */
  lemma SlopeGap(sxx: real, sxy: real, m: real, a: real)
    requires Scale(m, sxx) == sxy
    ensures (Scale(Sq(a), sxx) - 2.0 * Scale(a, sxy)) - (Scale(Sq(m), sxx) - 2.0 * Scale(m, sxy))
         == Scale(sxx, Sq(a - m))
  {
  }

  lemma NonNegativeProduct(p: real, q: real)
    requires p >= 0.0 && q >= 0.0
    ensures p * q >= 0.0
  {
  }

  lemma PositiveProductZero(p: real, q: real)
    requires p > 0.0 && p * q == 0.0
    ensures q == 0.0
  {
  }

  /** Relative to the line (m, c) that solves the normal equations, any
      line (a, b) has its residual sum of squares larger by exactly
      sxx * (a - m)^2 + n * (my - a * mx - b)^2. */
  lemma SseGap(xs: seq<real>, ys: seq<real>, mx: real, my: real, m: real, c: real, a: real, b: real)
    requires |xs| == |ys|
    requires DevSum(xs, mx) == 0.0 && DevSum(ys, my) == 0.0
    requires m * SumSq(xs, mx) == CoSum(xs, ys, mx, my)
    requires m * mx + c == my
    ensures Sse(xs, ys, a, b) - Sse(xs, ys, m, c)
         == SumSq(xs, mx) * Sq(a - m) + |xs| as real * Sq(my - a * mx - b)
  {
    SseAtMeans(xs, ys, mx, my, a, b);
    SseAtMeans(xs, ys, mx, my, m, c);
    SqZeroIff(my - m * mx - c);
    ScaleZero(|xs| as real, Sq(my - m * mx - c));
    assert Scale(m, SumSq(xs, mx)) == CoSum(xs, ys, mx, my);
    SlopeGap(SumSq(xs, mx), CoSum(xs, ys, mx, my), m, a);
    assert Scale(SumSq(xs, mx), Sq(a - m)) == SumSq(xs, mx) * Sq(a - m);
    assert Scale(|xs| as real, Sq(my - a * mx - b)) == |xs| as real * Sq(my - a * mx - b);
  }

  /** A sum of two non-negative gaps with positive weights is zero only
      when both gaps are; the second gap pins the intercept. */
  lemma MinimumAlgebra(sab: real, smc: real, sxx: real, n: real,
                       mx: real, my: real, m: real, c: real, a: real, b: real)
    requires sxx > 0.0 && n > 0.0
    requires m * mx + c == my
    requires sab - smc == Scale(sxx, Sq(a - m)) + Scale(n, Sq(my - a * mx - b))
    ensures smc <= sab
    ensures smc == sab ==> a == m && b == c
  {
    SqNonNegative(a - m);
    SqNonNegative(my - a * mx - b);
    NonNegativeProduct(sxx, Sq(a - m));
    NonNegativeProduct(n, Sq(my - a * mx - b));
    if smc == sab {
      PositiveProductZero(sxx, Sq(a - m));
      PositiveProductZero(n, Sq(my - a * mx - b));
      SqZeroIff(a - m);
      SqZeroIff(my - a * mx - b);
      assert a * mx == m * mx;
    }
  }

  /** The line solving the normal equations has the least residual sum of
      squares, and it is the only line that does when the x values spread. */
  lemma NormalEquationsMinimise(xs: seq<real>, ys: seq<real>, mx: real, my: real, m: real, c: real, a: real, b: real)
    requires |xs| == |ys| > 0
    requires DevSum(xs, mx) == 0.0 && DevSum(ys, my) == 0.0
    requires SumSq(xs, mx) > 0.0
    requires m * SumSq(xs, mx) == CoSum(xs, ys, mx, my)
    requires m * mx + c == my
    ensures Sse(xs, ys, m, c) <= Sse(xs, ys, a, b)
    ensures Sse(xs, ys, m, c) == Sse(xs, ys, a, b) ==> a == m && b == c
  {
    SseGap(xs, ys, mx, my, m, c, a, b);
    assert Scale(SumSq(xs, mx), Sq(a - m)) == SumSq(xs, mx) * Sq(a - m);
    assert Scale(|xs| as real, Sq(my - a * mx - b)) == |xs| as real * Sq(my - a * mx - b);
    MinimumAlgebra(Sse(xs, ys, a, b), Sse(xs, ys, m, c), SumSq(xs, mx), |xs| as real,
                   mx, my, m, c, a, b);
  }

  /** The slope and intercept of `calculateStats`, when defined, are the
      least-squares line: no line has a smaller residual sum of squares,
      and no other line has the same one. */
  lemma FittedLineIsLeastSquares(points: seq<Point>, a: real, b: real)
    requires CalculateStats(points).Ok? && CalculateStats(points).value.slope.Finite?
    ensures var st := CalculateStats(points).value;
            var xs := XValues(points);
            var ys := YValues(points);
            && Sse(xs, ys, st.slope.v, st.intercept.v) <= Sse(xs, ys, a, b)
            && (Sse(xs, ys, st.slope.v, st.intercept.v) == Sse(xs, ys, a, b)
                ==> a == st.slope.v && b == st.intercept.v)
  {
    var st := CalculateStats(points).value;
    var xs := XValues(points);
    var ys := YValues(points);
    SpreadZeroIffConstant(xs);
    MeanUnique(xs, st.xMean);
    NormalEquationsMinimise(xs, ys, st.xMean, st.yMean, st.slope.v, st.intercept.v, a, b);
  }

  /** The vertical distances from the points to the line y = a * x + b. */
  function Residuals(xs: seq<real>, ys: seq<real>, a: real, b: real): (r: seq<real>)
    requires |xs| == |ys|
    ensures |r| == |xs|
    ensures forall i :: 0 <= i < |xs| ==> r[i] == ys[i] - (a * xs[i] + b)
  {
    seq(|xs|, i requires 0 <= i < |xs| => ys[i] - (a * xs[i] + b))
  }

  lemma {:induction false} SseOfResiduals(xs: seq<real>, ys: seq<real>, a: real, b: real)
    requires |xs| == |ys|
    ensures Sse(xs, ys, a, b) == SumSq(Residuals(xs, ys, a, b), 0.0)
  {
    if |xs| > 0 {
      var r := Residuals(xs, ys, a, b);
      forall i | 0 <= i < |xs| - 1
        ensures r[1..][i] == Residuals(xs[1..], ys[1..], a, b)[i]
      {
        assert xs[1..][i] == xs[i + 1] && ys[1..][i] == ys[i + 1];
      }
      assert r[1..] == Residuals(xs[1..], ys[1..], a, b);
      assert r[0] - 0.0 == ys[0] - (a * xs[0] + b);
      SseOfResiduals(xs[1..], ys[1..], a, b);
    }
  }

  /** Sse is zero exactly when every point lies on the line. */
  lemma SseZeroIff(xs: seq<real>, ys: seq<real>, a: real, b: real)
    requires |xs| == |ys|
    ensures Sse(xs, ys, a, b) == 0.0 <==> forall i :: 0 <= i < |xs| ==> ys[i] == a * xs[i] + b
  {
    SseOfResiduals(xs, ys, a, b);
    SumSqZeroIff(Residuals(xs, ys, a, b), 0.0);
  }

  /** What is left over by the fitted line: syy - m * sxy. */
  lemma FittedResidual(xs: seq<real>, ys: seq<real>, mx: real, my: real, m: real, c: real)
    requires |xs| == |ys|
    requires DevSum(xs, mx) == 0.0 && DevSum(ys, my) == 0.0
    requires m * SumSq(xs, mx) == CoSum(xs, ys, mx, my)
    requires m * mx + c == my
    ensures Sse(xs, ys, m, c) == SumSq(ys, my) - m * CoSum(xs, ys, mx, my)
  {
    SseAtMeans(xs, ys, mx, my, m, c);
    SqZeroIff(my - m * mx - c);
    ScaleZero(|xs| as real, Sq(my - m * mx - c));
    assert Scale(m, SumSq(xs, mx)) == CoSum(xs, ys, mx, my);
    ResidualAlgebra(SumSq(xs, mx), CoSum(xs, ys, mx, my), m);
    assert Scale(m, CoSum(xs, ys, mx, my)) == m * CoSum(xs, ys, mx, my);
  }

  /** With m * sxx == sxy, the square term of the expansion equals m * sxy. */
  lemma ResidualAlgebra(sxx: real, sxy: real, m: real)
    requires Scale(m, sxx) == sxy
    ensures Scale(Sq(m), sxx) == Scale(m, sxy)
  {
    calc {
      Sq(m) * sxx;
      == (m * m) * sxx;
      == m * (m * sxx);
      == m * sxy;
    }
  }

  lemma ExplainedShare(r2: real, sxx: real, syy: real, sxy: real, m: real)
    requires sxx > 0.0
    requires r2 * (sxx * syy) == Sq(sxy)
    requires m * sxx == sxy
    ensures m * sxy == r2 * syy
  {
    calc {
      sxx * (m * sxy);
      == sxy * sxy;
      == r2 * (sxx * syy);
      == sxx * (r2 * syy);
    }
    PositiveProductZero(sxx, m * sxy - r2 * syy);
  }

  /** The fitted line leaves syy * (1 - r^2) unexplained. */
  lemma UnexplainedShare(xs: seq<real>, ys: seq<real>, mx: real, my: real, m: real, c: real, r2: real)
    requires |xs| == |ys|
    requires DevSum(xs, mx) == 0.0 && DevSum(ys, my) == 0.0
    requires SumSq(xs, mx) > 0.0 && SumSq(ys, my) > 0.0
    requires m * SumSq(xs, mx) == CoSum(xs, ys, mx, my)
    requires m * mx + c == my
    requires r2 * (SumSq(xs, mx) * SumSq(ys, my)) == Sq(CoSum(xs, ys, mx, my))
    ensures 0.0 <= r2 <= 1.0
    ensures Sse(xs, ys, m, c) == SumSq(ys, my) * (1.0 - r2)
    ensures r2 == 1.0 <==> Sse(xs, ys, m, c) == 0.0
  {
    FittedResidual(xs, ys, mx, my, m, c);
    ExplainedShare(r2, SumSq(xs, mx), SumSq(ys, my), CoSum(xs, ys, mx, my), m);
    SseNonNegative(xs, ys, m, c);
    RatioBounds(r2, SumSq(xs, mx), SumSq(ys, my), CoSum(xs, ys, mx, my), Sse(xs, ys, m, c));
  }

  /** r squared, when defined, lies in [0, 1]; the fitted line leaves
      syy * (1 - r^2) unexplained, so r^2 is 1 exactly when every point
      lies on the fitted line. */
  lemma CorrelationBounds(points: seq<Point>)
    requires CalculateStats(points).Ok? && CalculateStats(points).value.rSquared.Finite?
    ensures var st := CalculateStats(points).value;
            st.slope.Finite? && st.intercept.Finite? && 0.0 <= st.rSquared.v <= 1.0
    ensures var st := CalculateStats(points).value;
            Sse(XValues(points), YValues(points), st.slope.v, st.intercept.v)
            == SumSq(YValues(points), st.yMean) * (1.0 - st.rSquared.v)
    ensures var st := CalculateStats(points).value;
            st.rSquared.v == 1.0 <==> AllOnLine(points, st.slope.v, st.intercept.v)
  {
    var st := CalculateStats(points).value;
    DescribedBounds(XValues(points), YValues(points), st);
    PointsOnLineIff(points, st.slope.v, st.intercept.v);
  }

  /** CorrelationBounds for any record the sums describe. */
  lemma DescribedBounds(xs: seq<real>, ys: seq<real>, st: Stats)
    requires |xs| == |ys| > 0
    requires StatsDescribe(xs, ys, st) && st.rSquared.Finite?
    ensures st.slope.Finite? && st.intercept.Finite? && 0.0 <= st.rSquared.v <= 1.0
    ensures Sse(xs, ys, st.slope.v, st.intercept.v) == SumSq(ys, st.yMean) * (1.0 - st.rSquared.v)
    ensures st.rSquared.v == 1.0 <==> Sse(xs, ys, st.slope.v, st.intercept.v) == 0.0
  {
    DescribedSpread(xs, ys, st);
    UnexplainedShare(xs, ys, st.xMean, st.yMean, st.slope.v, st.intercept.v, st.rSquared.v);
  }

  /** Behind a defined r squared both coordinates spread, and so the line
      is defined. */
  lemma DescribedSpread(xs: seq<real>, ys: seq<real>, st: Stats)
    requires |xs| == |ys| > 0
    requires StatsDescribe(xs, ys, st) && st.rSquared.Finite?
    ensures SumSq(xs, st.xMean) > 0.0 && SumSq(ys, st.yMean) > 0.0
    ensures st.slope.Finite? && st.intercept.Finite?
  {
    SpreadZeroIffConstant(xs);
    SpreadZeroIffConstant(ys);
    MeanUnique(xs, st.xMean);
    MeanUnique(ys, st.yMean);
  }

  /** Every point lies on the line y = a * x + b. */
  predicate AllOnLine(points: seq<Point>, a: real, b: real)
  {
    forall i :: 0 <= i < |points| ==> points[i].y == a * points[i].x + b
  }

  /** SseZeroIff stated over the plotted points. */
  lemma PointsOnLineIff(points: seq<Point>, a: real, b: real)
    ensures Sse(XValues(points), YValues(points), a, b) == 0.0 <==> AllOnLine(points, a, b)
  {
    SseZeroIff(XValues(points), YValues(points), a, b);
  }

  lemma RatioBounds(r2: real, sxx: real, syy: real, sxy: real, sse: real)
    requires sxx > 0.0 && syy > 0.0
    requires r2 * (sxx * syy) == Sq(sxy)
    requires sse >= 0.0 && sse == syy - r2 * syy
    ensures 0.0 <= r2 <= 1.0
    ensures sse == syy * (1.0 - r2)
    ensures r2 == 1.0 <==> sse == 0.0
  {
    SqNonNegative(sxy);
    NonNegativeProduct(sxx, syy);
  }

  /** r has the sign of its numerator, the co-deviation sum; so has the slope. */
  lemma SlopeSignIsCorrelationSign(points: seq<Point>)
    requires CalculateStats(points).Ok? && CalculateStats(points).value.slope.Finite?
    ensures var st := CalculateStats(points).value;
            var sxy := CoSum(XValues(points), YValues(points), st.xMean, st.yMean);
            && (st.slope.v > 0.0 <==> sxy > 0.0)
            && (st.slope.v < 0.0 <==> sxy < 0.0)
  {
    var st := CalculateStats(points).value;
    var xs := XValues(points);
    SpreadZeroIffConstant(xs);
    MeanUnique(xs, st.xMean);
    SignOfQuotient(st.slope.v, SumSq(xs, st.xMean), CoSum(xs, YValues(points), st.xMean, st.yMean));
  }

  lemma SignOfQuotient(q: real, d: real, p: real)
    requires d > 0.0 && q * d == p
    ensures q > 0.0 <==> p > 0.0
    ensures q < 0.0 <==> p < 0.0
  {
    if q > 0.0 {
      assert q * d > 0.0 * d;
    } else if q < 0.0 {
      assert q * d < 0.0 * d;
    }
  }

  /** Pearson r itself (line 62), for the root `Math.sqrt` returns: it is
      defined exactly when r squared is, squares to it, lies in [-1, 1], and
      has the sign of the slope. */
  lemma CorrelationFromRoot(points: seq<Point>, root: real)
    requires |points| > 0
    requires var st := CalculateStats(points).value;
             RootOf(ClosedForm(XValues(points), YValues(points), st.xMean, st.yMean), root)
    ensures var st := CalculateStats(points).value;
            var r := Correlation(ClosedForm(XValues(points), YValues(points), st.xMean, st.yMean), root);
            && (r.Finite? <==> st.rSquared.Finite?)
            && (r.NaN? <==> st.rSquared.NaN?)
            && (r.Finite? ==> Sq(r.v) == st.rSquared.v && -1.0 <= r.v <= 1.0)
            && (r.Finite? ==> st.slope.Finite? && (r.v > 0.0 <==> st.slope.v > 0.0)
                                               && (r.v < 0.0 <==> st.slope.v < 0.0))
  {
    DescribedCorrelation(XValues(points), YValues(points), CalculateStats(points).value, root);
  }

  /** CorrelationFromRoot for any record the sums describe. */
  lemma DescribedCorrelation(xs: seq<real>, ys: seq<real>, st: Stats, root: real)
    requires |xs| == |ys| > 0
    requires StatsDescribe(xs, ys, st)
    requires RootOf(ClosedForm(xs, ys, st.xMean, st.yMean), root)
    ensures var r := Correlation(ClosedForm(xs, ys, st.xMean, st.yMean), root);
            && (r.Finite? <==> st.rSquared.Finite?)
            && (r.NaN? <==> st.rSquared.NaN?)
            && (r.Finite? ==> Sq(r.v) == st.rSquared.v && -1.0 <= r.v <= 1.0)
            && (r.Finite? ==> st.slope.Finite? && (r.v > 0.0 <==> st.slope.v > 0.0)
                                               && (r.v < 0.0 <==> st.slope.v < 0.0))
  {
    if st.rSquared.Finite? {
      DescribedSpread(xs, ys, st);
      CorrelationOfSums(xs, ys, st.xMean, st.yMean, root, st.rSquared.v, st.slope.v, st.intercept.v);
    } else {
      UndefinedCorrelation(xs, ys, st, root);
    }
  }

  /** Without spread in x or in y, r is 0 / 0. */
  lemma UndefinedCorrelation(xs: seq<real>, ys: seq<real>, st: Stats, root: real)
    requires |xs| == |ys| > 0
    requires StatsDescribe(xs, ys, st) && st.rSquared.NaN?
    requires RootOf(ClosedForm(xs, ys, st.xMean, st.yMean), root)
    ensures Correlation(ClosedForm(xs, ys, st.xMean, st.yMean), root).NaN?
  {
    SpreadZeroIffConstant(xs);
    SpreadZeroIffConstant(ys);
    MeanUnique(xs, st.xMean);
    MeanUnique(ys, st.yMean);
    DegenerateCoDeviation(xs, ys, st.xMean, st.yMean);
    ProductZeroIff(SumSq(xs, st.xMean), SumSq(ys, st.yMean));
  }

  /** r computed from the sums of data that vary in both coordinates. */
  lemma CorrelationOfSums(xs: seq<real>, ys: seq<real>, mx: real, my: real, root: real, r2: real, m: real, c: real)
    requires |xs| == |ys|
    requires DevSum(xs, mx) == 0.0 && DevSum(ys, my) == 0.0
    requires SumSq(xs, mx) > 0.0 && SumSq(ys, my) > 0.0
    requires m * SumSq(xs, mx) == CoSum(xs, ys, mx, my)
    requires m * mx + c == my
    requires r2 * (SumSq(xs, mx) * SumSq(ys, my)) == Sq(CoSum(xs, ys, mx, my))
    requires RootOf(ClosedForm(xs, ys, mx, my), root)
    ensures var r := Correlation(ClosedForm(xs, ys, mx, my), root);
            && r.Finite? && Sq(r.v) == r2 && -1.0 <= r.v <= 1.0
            && (r.v > 0.0 <==> m > 0.0) && (r.v < 0.0 <==> m < 0.0)
  {
    UnexplainedShare(xs, ys, mx, my, m, c, r2);
    ProductZeroIff(SumSq(xs, mx), SumSq(ys, my));
    var r := Correlation(ClosedForm(xs, ys, mx, my), root);
    CorrelationFacts(r.v, root, r2, m, SumSq(xs, mx), SumSq(ys, my), CoSum(xs, ys, mx, my));
  }

  /** r = sxy / sqrt(sxx * syy) against r^2 and the slope m = sxy / sxx. */
  lemma CorrelationFacts(q: real, root: real, r2: real, m: real, sxx: real, syy: real, sxy: real)
    requires sxx > 0.0 && syy > 0.0
    requires IsSqrt(root, sxx * syy)
    requires q * root == sxy && m * sxx == sxy
    requires r2 * (sxx * syy) == Sq(sxy) && r2 <= 1.0
    ensures Sq(q) == r2 && -1.0 <= q <= 1.0
    ensures q > 0.0 <==> m > 0.0
    ensures q < 0.0 <==> m < 0.0
  {
    RootRatio(q, root, r2, sxx, syy, sxy);
    SquareAboveOne(q);
    SignOfQuotient(m, sxx, sxy);
  }

  /** q = sxy / root with root the square root of sxx * syy: q squared is
      the r squared that satisfies r2 * (sxx * syy) = sxy^2, and q has the
      sign of sxy. */
  lemma RootRatio(q: real, root: real, r2: real, sxx: real, syy: real, sxy: real)
    requires sxx > 0.0 && syy > 0.0
    requires IsSqrt(root, sxx * syy)
    requires q * root == sxy
    requires r2 * (sxx * syy) == Sq(sxy)
    ensures Sq(q) == r2
    ensures q > 0.0 <==> sxy > 0.0
    ensures q < 0.0 <==> sxy < 0.0
  {
    NonNegativeProduct(sxx, syy);
    ProductZeroIff(sxx, syy);
    SqZeroIff(root);
    SqPositive(root);
    SquareOfProduct(q, root);
    calc {
      (Sq(q) - r2) * Sq(root);
      == Sq(q) * Sq(root) - r2 * Sq(root);
      == Sq(q * root) - r2 * (sxx * syy);
      == Sq(sxy) - Sq(sxy);
      == 0.0;
    }
    PositiveProductZero(Sq(root), Sq(q) - r2);
    SignOfQuotient(q, root, sxy);
  }

  lemma SquareOfProduct(a: real, b: real)
    ensures Sq(a * b) == Sq(a) * Sq(b)
  {
    calc {
      Sq(a * b);
      == (a * b) * (a * b);
      == (a * a) * (b * b);
    }
  }

  /** Outside [-1, 1] a square exceeds 1. */
  lemma SquareAboveOne(r: real)
    ensures r > 1.0 ==> Sq(r) > 1.0
    ensures r < -1.0 ==> Sq(r) > 1.0
  {
    if r > 1.0 {
      calc {
        Sq(r);
        == r * r;
        > 1.0 * r;
        > 1.0;
      }
    } else if r < -1.0 {
      calc {
        Sq(r);
        == (-r) * (-r);
        > 1.0 * (-r);
        > 1.0;
      }
    }
  }

  /** When x varies (the slope is defined), a line through every point is
      the line `calculateStats` returns. With every x equal the slope is
      0 / 0 = NaN even though lines through all the points exist. */
  lemma ExactFitIsFound(points: seq<Point>, a: real, b: real)
    requires CalculateStats(points).Ok? && CalculateStats(points).value.slope.Finite?
    requires AllOnLine(points, a, b)
    ensures CalculateStats(points).value.slope.v == a
    ensures CalculateStats(points).value.intercept.v == b
  {
    PointsOnLineIff(points, a, b);
    SseNonNegative(XValues(points), YValues(points),
                   CalculateStats(points).value.slope.v, CalculateStats(points).value.intercept.v);
    FittedLineIsLeastSquares(points, a, b);
  }

  /** Two values are constant exactly when they are equal. */
  lemma PairConstantIff(u: real, w: real)
    ensures Constant([u, w]) <==> u == w
  {
    if u == w {
      assert forall i :: 0 <= i < 2 ==> [u, w][i] == u;
    } else {
      assert [u, w][0] != [u, w][1];
    }
  }

  /** Two points with distinct x values are fitted exactly: the fitted line
      passes through both, and r squared is 1 unless the two y values
      coincide, in which case it is NaN. */
  lemma TwoPointsFitExactly(p: Point, q: Point)
    requires p.x != q.x
    ensures CalculateStats([p, q]).Ok?
    ensures var st := CalculateStats([p, q]).value;
            st.slope.Finite? && AllOnLine([p, q], st.slope.v, st.intercept.v)
    ensures var st := CalculateStats([p, q]).value;
            && (st.rSquared.NaN? <==> p.y == q.y)
            && (st.rSquared.Finite? ==> st.rSquared.v == 1.0)
  {
    assert XValues([p, q]) == [p.x, q.x];
    assert YValues([p, q]) == [p.y, q.y];
    PairConstantIff(p.x, q.x);
    PairConstantIff(p.y, q.y);
    var a := (q.y - p.y) / (q.x - p.x);
    assert a * (q.x - p.x) == q.y - p.y;
    assert AllOnLine([p, q], a, p.y - a * p.x);
    ExactFitIsFound([p, q], a, p.y - a * p.x);
    if CalculateStats([p, q]).value.rSquared.Finite? {
      CorrelationBounds([p, q]);
    }
  }
}

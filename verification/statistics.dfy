/** The statistics engine: `calculateStats` over a sequence of points.

    Math.sqrt has no counterpart over the reals here, so the record keeps
    the quantities whose square roots the source takes: the sample variances
    (xStd and yStd squared) and r squared. The sign of r is the sign of the
    slope (see LeastSquares.CorrelationFromRoot). */
module Statistics {
  import opened JsNumber
  import opened Sums

  /** A plotted point; `id` is its index in the dataset. */
  datatype Point = Point(x: real, y: real, id: nat)

  datatype Stats = Stats(
    xMean: real,
    yMean: real,
    xVariance: Num,   // xStd * xStd
    yVariance: Num,   // yStd * yStd
    rSquared: Num,    // r * r
    slope: Num,
    intercept: Num)

  /** `Array.prototype.reduce` without an initial value throws a TypeError
      on an empty array; that is what `stdDev` does for zero points. */
  datatype StatsError = EmptyReduce

  datatype Result<T> = Ok(value: T) | Failure(error: StatsError)

  /** The three sums the correlation loop accumulates. */
  datatype CoDeviations = CoDeviations(numerator: real, denomX: real, denomY: real)

  function XValues(points: seq<Point>): (xs: seq<real>)
    ensures |xs| == |points|
    ensures forall i :: 0 <= i < |points| ==> xs[i] == points[i].x
  {
    seq(|points|, i requires 0 <= i < |points| => points[i].x)
  }

  function YValues(points: seq<Point>): (ys: seq<real>)
    ensures |ys| == |points|
    ensures forall i :: 0 <= i < |points| ==> ys[i] == points[i].y
  {
    seq(|points|, i requires 0 <= i < |points| => points[i].y)
  }

  /** The arithmetic mean: the deviations from it cancel out. */
  function Mean(s: seq<real>): (m: real)
    requires |s| > 0
    ensures DevSum(s, m) == 0.0
  {
    var m := Sum(s) / |s| as real;
    DevSumLinear(s, m);
    m
  }

  /** The mean is the only value from which the deviations cancel. */
  lemma MeanUnique(s: seq<real>, m: real)
    requires |s| > 0
    ensures DevSum(s, m) == 0.0 <==> m == Mean(s)
  {
    DevSumLinear(s, m);
    DevSumLinear(s, Mean(s));
  }

  /** Every value sits on the mean exactly when all values are equal. */
  lemma {:induction false} FlatIffConstant(s: seq<real>)
    requires |s| > 0
    ensures AllEqual(s, Mean(s)) <==> Constant(s)
  {
    if Constant(s) {
      assert AllEqual(s, s[0]);
      SumOfAllEqual(s, s[0]);
      assert Mean(s) == s[0];
    }
  }

  /** Sum of squared deviations from the mean is zero exactly for constant data. */
  lemma SpreadZeroIffConstant(s: seq<real>)
    requires |s| > 0
    ensures SumSq(s, Mean(s)) >= 0.0
    ensures SumSq(s, Mean(s)) == 0.0 <==> Constant(s)
  {
    SumSqZeroIff(s, Mean(s));
    FlatIffConstant(s);
  }

  /** The square of `stdDev` (line 47): squared deviations summed and
      divided by n - 1. One value gives 0 / 0, which is NaN. */
  function SampleVariance(s: seq<real>): (v: Num)
    requires |s| > 0
    ensures v.Finite? <==> |s| >= 2
    ensures v.NaN? <==> |s| == 1
    ensures v.Finite? ==> v.v * (|s| as real - 1.0) == SumSq(s, Mean(s))
    ensures v.Finite? ==> v.v >= 0.0 && (v.v == 0.0 <==> Constant(s))
  {
    SpreadZeroIffConstant(s);
    assert |s| == 1 ==> Constant(s);
    Div(SumSq(s, Mean(s)), |s| as real - 1.0)
  }

  /** A single point: both means are its coordinates, and every division
      by n - 1 or by a spread is 0 / 0, so everything else is NaN. */
  lemma SinglePointIsDegenerate(p: Point)
    ensures CalculateStats([p]).Ok?
    ensures var st := CalculateStats([p]).value;
      && st.xMean == p.x && st.yMean == p.y
      && st.xVariance.NaN? && st.yVariance.NaN?
      && st.slope.NaN? && st.intercept.NaN? && st.rSquared.NaN?
  {
    var xs := XValues([p]);
    var ys := YValues([p]);
    assert xs == [p.x] && ys == [p.y];
    assert DevSum(xs[1..], p.x) == 0.0 && DevSum(ys[1..], p.y) == 0.0;
    MeanUnique(xs, p.x);
    MeanUnique(ys, p.y);
  }

  /** `r` is a value `Math.sqrt(v)` may return: the non-negative root of v.
      Dafny has no square root over the reals, so a root is a parameter
      constrained by this predicate wherever one is needed. */
  predicate IsSqrt(root: real, v: real)
  {
    root >= 0.0 && Sq(root) == v
  }

  /** The closed forms of the three sums the loop accumulates. */
  function ClosedForm(xs: seq<real>, ys: seq<real>, xMean: real, yMean: real): CoDeviations
    requires |xs| == |ys|
  {
    CoDeviations(CoSum(xs, ys, xMean, yMean), SumSq(xs, xMean), SumSq(ys, yMean))
  }

  /** `root` is what `Math.sqrt(denomX * denomY)` returns for these sums. */
  predicate RootOf(acc: CoDeviations, root: real)
  {
    IsSqrt(root, acc.denomX * acc.denomY)
  }

  /** Pearson r (line 62): the co-deviation sum over the square root of
      denomX * denomY, the root being supplied as `root`. Zero spread gives
      a zero divisor. */
  function Correlation(acc: CoDeviations, root: real): (r: Num)
    requires RootOf(acc, root)
    ensures r.Finite? <==> acc.denomX * acc.denomY != 0.0
    ensures r.Finite? ==> r.v * root == acc.numerator
    ensures r.NaN? <==> acc.denomX * acc.denomY == 0.0 && acc.numerator == 0.0
  {
    SqZeroIff(root);
    Div(acc.numerator, root)
  }

  /** `arr.reduce((a, b) => a + b, 0)` (line 42): a left fold from 0. The
      fold without a seed at line 47 adds the same terms to a non-empty
      array, so it computes the same sum. */
  method ReduceSum(s: seq<real>) returns (t: real)
    ensures t == Sum(s)
  {
    t := 0.0;
    var i := 0;
    while i < |s|
      invariant 0 <= i <= |s|
      invariant t == Sum(s[..i])
    {
      SumAppend(s[..i], s[i]);
      assert s[..i + 1] == s[..i] + [s[i]];
      t := t + s[i];
      i := i + 1;
    }
    assert s[..i] == s;
  }

  /** `arr.map(val => Math.pow(val - meanVal, 2))` (line 47). */
  function SquaredDeviations(s: seq<real>, m: real): (d: seq<real>)
    ensures |d| == |s|
    ensures forall i :: 0 <= i < |s| ==> d[i] == Sq(s[i] - m)
  {
    seq(|s|, i requires 0 <= i < |s| => Sq(s[i] - m))
  }

  /** Summing the mapped squares gives the sum of squared deviations. */
  lemma {:induction false} SumOfSquaredDeviations(s: seq<real>, m: real)
    ensures Sum(SquaredDeviations(s, m)) == SumSq(s, m)
  {
    if |s| > 0 {
      assert SquaredDeviations(s, m)[1..] == SquaredDeviations(s[1..], m);
      SumOfSquaredDeviations(s[1..], m);
    }
  }

  /** The accumulation loop of lines 52-61, statement for statement. */
  method Accumulate(xs: seq<real>, ys: seq<real>, xMean: real, yMean: real)
    returns (acc: CoDeviations)
    requires |xs| == |ys|
    ensures acc.numerator == CoSum(xs, ys, xMean, yMean)
    ensures acc.denomX == SumSq(xs, xMean)
    ensures acc.denomY == SumSq(ys, yMean)
  {
    var numerator := 0.0;
    var denomX := 0.0;
    var denomY := 0.0;
    var i := 0;
    while i < |xs|
      invariant 0 <= i <= |xs|
      invariant numerator == CoSum(xs[..i], ys[..i], xMean, yMean)
      invariant denomX == SumSq(xs[..i], xMean)
      invariant denomY == SumSq(ys[..i], yMean)
    {
      var dx := xs[i] - xMean;
      var dy := ys[i] - yMean;
      CoSumAppend(xs[..i], ys[..i], xMean, yMean, xs[i], ys[i]);
      SumSqAppend(xs[..i], xMean, xs[i]);
      SumSqAppend(ys[..i], yMean, ys[i]);
      assert xs[..i + 1] == xs[..i] + [xs[i]];
      assert ys[..i + 1] == ys[..i] + [ys[i]];
      numerator := numerator + dx * dy;
      denomX := denomX + dx * dx;
      denomY := denomY + dy * dy;
      i := i + 1;
    }
    assert xs[..i] == xs;
    assert ys[..i] == ys;
    acc := CoDeviations(numerator, denomX, denomY);
  }

  /** The statistics of one dataset (lines 37-77). Zero points make
      `stdDev` throw; otherwise every division is carried out as JavaScript
      does, so a degenerate dataset yields NaN rather than an error. */
  function CalculateStats(points: seq<Point>): (r: Result<Stats>)
    ensures r.Failure? <==> |points| == 0
    ensures r.Ok? ==> StatsDescribe(XValues(points), YValues(points), r.value)
  {
    if |points| == 0 then Failure(EmptyReduce)
    else
      StatsOfDescribes(XValues(points), YValues(points));
      Ok(StatsOf(XValues(points), YValues(points)))
  }

  /** What the seven numbers mean for the data they summarise. */
  ghost predicate StatsDescribe(xs: seq<real>, ys: seq<real>, st: Stats)
    requires |xs| == |ys| > 0
  {
    && MeansDescribe(xs, ys, st)
    && VariancesDescribe(xs, ys, st)
    && LineDescribes(xs, ys, st)
    && CorrelationDescribes(xs, ys, st)
  }

  /** The means: the deviations from them cancel. */
  ghost predicate MeansDescribe(xs: seq<real>, ys: seq<real>, st: Stats)
  {
    DevSum(xs, st.xMean) == 0.0 && DevSum(ys, st.yMean) == 0.0
  }

  /** The sample variances: defined from two points on, n - 1 divisor; a
      single point gives 0 / 0, which is NaN. */
  ghost predicate VariancesDescribe(xs: seq<real>, ys: seq<real>, st: Stats)
  {
    && (st.xVariance.Finite? <==> |xs| >= 2)
    && (st.yVariance.Finite? <==> |ys| >= 2)
    && (st.xVariance.NaN? <==> |xs| == 1)
    && (st.yVariance.NaN? <==> |ys| == 1)
    && (st.xVariance.Finite? ==> st.xVariance.v * (|xs| as real - 1.0) == SumSq(xs, st.xMean))
    && (st.yVariance.Finite? ==> st.yVariance.v * (|ys| as real - 1.0) == SumSq(ys, st.yMean))
  }

  /** The regression line: defined exactly when x varies, never infinite,
      solves the normal equation and passes through the mean point; without
      a slope the intercept is NaN as well. */
  ghost predicate LineDescribes(xs: seq<real>, ys: seq<real>, st: Stats)
    requires |xs| == |ys|
  {
    && (st.slope.Finite? <==> !Constant(xs))
    && (st.slope.NaN? <==> Constant(xs))
    && (st.intercept.Finite? <==> st.slope.Finite?)
    && (st.intercept.NaN? <==> st.slope.NaN?)
    && (st.slope.Finite? ==> st.slope.v * SumSq(xs, st.xMean) == CoSum(xs, ys, st.xMean, st.yMean))
    && (st.slope.Finite? ==> st.slope.v * st.xMean + st.intercept.v == st.yMean)
  }

  /** The correlation: defined exactly when both coordinates vary. */
  ghost predicate CorrelationDescribes(xs: seq<real>, ys: seq<real>, st: Stats)
    requires |xs| == |ys|
  {
    && (st.rSquared.Finite? <==> !Constant(xs) && !Constant(ys))
    && (st.rSquared.NaN? <==> Constant(xs) || Constant(ys))
    && (st.rSquared.Finite? ==>
          st.rSquared.v * (SumSq(xs, st.xMean) * SumSq(ys, st.yMean))
          == Sq(CoSum(xs, ys, st.xMean, st.yMean)))
  }

  /** `calculateStats` on a non-empty dataset, given as its two coordinate
      sequences. */
  function StatsOf(xs: seq<real>, ys: seq<real>): Stats
    requires |xs| == |ys| > 0
  {
    var xMean := Mean(xs);
    var yMean := Mean(ys);
    var numerator := CoSum(xs, ys, xMean, yMean);
    var denomX := SumSq(xs, xMean);
    var denomY := SumSq(ys, yMean);
    var slope := Div(numerator, denomX);
    SpreadZeroIffConstant(xs);
    SpreadZeroIffConstant(ys);
    DegenerateCoDeviation(xs, ys, xMean, yMean);
    Stats(
      xMean,
      yMean,
      SampleVariance(xs),
      SampleVariance(ys),
      SquaredCorrelation(numerator, denomX, denomY),
      slope,
      Intercept(slope, xMean, yMean))
  }

  /** The record `calculateStats` builds means what StatsDescribe says. */
  lemma StatsOfDescribes(xs: seq<real>, ys: seq<real>)
    requires |xs| == |ys| > 0
    ensures StatsDescribe(xs, ys, StatsOf(xs, ys))
  {
    StatsOfVariances(xs, ys);
    StatsOfLine(xs, ys);
    StatsOfCorrelation(xs, ys);
  }

  lemma StatsOfVariances(xs: seq<real>, ys: seq<real>)
    requires |xs| == |ys| > 0
    ensures VariancesDescribe(xs, ys, StatsOf(xs, ys))
  {
  }

  lemma StatsOfLine(xs: seq<real>, ys: seq<real>)
    requires |xs| == |ys| > 0
    ensures LineDescribes(xs, ys, StatsOf(xs, ys))
  {
    StatsOfSlope(xs, ys);
    StatsOfIntercept(xs, ys);
  }

  lemma StatsOfSlope(xs: seq<real>, ys: seq<real>)
    requires |xs| == |ys| > 0
    ensures var st := StatsOf(xs, ys);
            && (st.slope.Finite? <==> !Constant(xs))
            && (st.slope.NaN? <==> Constant(xs))
            && (st.slope.Finite? ==> st.slope.v * SumSq(xs, st.xMean) == CoSum(xs, ys, st.xMean, st.yMean))
  {
    SpreadZeroIffConstant(xs);
    DegenerateCoDeviation(xs, ys, Mean(xs), Mean(ys));
  }

  lemma StatsOfIntercept(xs: seq<real>, ys: seq<real>)
    requires |xs| == |ys| > 0
    ensures var st := StatsOf(xs, ys);
            && (st.intercept.Finite? <==> st.slope.Finite?)
            && (st.intercept.NaN? <==> st.slope.NaN?)
            && (st.slope.Finite? ==> st.slope.v * st.xMean + st.intercept.v == st.yMean)
  {
    StatsOfSlope(xs, ys);
  }

  lemma StatsOfCorrelation(xs: seq<real>, ys: seq<real>)
    requires |xs| == |ys| > 0
    ensures CorrelationDescribes(xs, ys, StatsOf(xs, ys))
  {
    SpreadZeroIffConstant(xs);
    SpreadZeroIffConstant(ys);
  }

  /** r squared (line 62, squared): numerator^2 / (denomX * denomY). It is
      defined exactly when both spreads are positive; a zero spread leaves
      no co-deviation either, so the division is then 0 / 0. */
  function SquaredCorrelation(numerator: real, denomX: real, denomY: real): (r2: Num)
    requires denomX >= 0.0 && denomY >= 0.0
    requires denomX == 0.0 || denomY == 0.0 ==> numerator == 0.0
    ensures r2.Finite? <==> denomX > 0.0 && denomY > 0.0
    ensures r2.NaN? <==> denomX == 0.0 || denomY == 0.0
    ensures r2.Finite? ==> r2.v * (denomX * denomY) == Sq(numerator)
  {
    ProductZeroIff(denomX, denomY);
    Div(Sq(numerator), denomX * denomY)
  }

  /** The intercept (line 66): yMean - slope * xMean, so that the line
      passes through the mean point; NaN when the slope is. */
  function Intercept(slope: Num, xMean: real, yMean: real): (b: Num)
    ensures b.Finite? <==> slope.Finite?
    ensures slope.NaN? ==> b.NaN?
    ensures b.Finite? ==> slope.v * xMean + b.v == yMean
  {
    Sub(Finite(yMean), Mul(slope, Finite(xMean)))
  }

  /** With no spread in x (or in y) there is no co-deviation either, so
      the unguarded divisions at lines 62 and 65 compute 0 / 0 (NaN) and
      never a non-zero over zero (an infinity). */
  lemma DegenerateCoDeviation(xs: seq<real>, ys: seq<real>, xMean: real, yMean: real)
    requires |xs| == |ys|
    ensures SumSq(xs, xMean) == 0.0 ==> CoSum(xs, ys, xMean, yMean) == 0.0
    ensures SumSq(ys, yMean) == 0.0 ==> CoSum(xs, ys, xMean, yMean) == 0.0
  {
    SumSqZeroIff(xs, xMean);
    SumSqZeroIff(ys, yMean);
    if AllEqual(xs, xMean) {
      CoSumOfFlatX(xs, ys, xMean, yMean);
    }
    if AllEqual(ys, yMean) {
      CoSumOfFlatX(ys, xs, yMean, xMean);
      CoSumSymmetric(xs, ys, xMean, yMean);
    }
  }

  lemma ProductZeroIff(a: real, b: real)
    requires a >= 0.0 && b >= 0.0
    ensures a * b >= 0.0
    ensures a * b == 0.0 <==> a == 0.0 || b == 0.0
  {
  }

  /** When every x is the same, `denomX` is 0 and lines 62-66 divide 0 by
      0: the slope, the intercept and r are all NaN. */
  lemma ConstantXLeavesNoLine(points: seq<Point>)
    requires |points| > 0 && Constant(XValues(points))
    ensures CalculateStats(points).Ok?
    ensures var st := CalculateStats(points).value;
            st.slope.NaN? && st.intercept.NaN? && st.rSquared.NaN?
  {
  }

  /** `mean` (line 42): the `reduce` sum divided by n. */
  method MeanByReduce(s: seq<real>) returns (m: real)
    requires |s| > 0
    ensures m == Mean(s)
    ensures DevSum(s, m) == 0.0
  {
    var t := ReduceSum(s);
    m := t / |s| as real;
  }

  /** The sum inside `stdDev` (line 47): squared deviations by `map`,
      added up by `reduce`. */
  method SquaresByReduce(s: seq<real>, m: real) returns (ss: real)
    ensures ss == SumSq(s, m)
  {
    ss := ReduceSum(SquaredDeviations(s, m));
    SumOfSquaredDeviations(s, m);
  }

  /** `calculateStats` written as the source runs it: the means by `reduce`,
      the sums of squares of `stdDev` by `map` and `reduce`, and the
      co-deviations by the loop. It agrees with the closed-form definition. */
  method ComputeStats(points: seq<Point>) returns (r: Result<Stats>)
    ensures r == CalculateStats(points)
  {
    var n := |points|;
    if n == 0 {
      return Failure(EmptyReduce);
    }
    var xs := XValues(points);
    var ys := YValues(points);
    var xMean := MeanByReduce(xs);
    var yMean := MeanByReduce(ys);
    var ssx := SquaresByReduce(xs, xMean);
    var ssy := SquaresByReduce(ys, yMean);
    var acc := Accumulate(xs, ys, xMean, yMean);
    SpreadZeroIffConstant(xs);
    SpreadZeroIffConstant(ys);
    DegenerateCoDeviation(xs, ys, xMean, yMean);
    var slope := Div(acc.numerator, acc.denomX);
    var intercept := Sub(Finite(yMean), Mul(slope, Finite(xMean)));
    r := Ok(Stats(
      xMean,
      yMean,
      Div(ssx, n as real - 1.0),
      Div(ssy, n as real - 1.0),
      SquaredCorrelation(acc.numerator, acc.denomX, acc.denomY),
      slope,
      intercept));
  }
}

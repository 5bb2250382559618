/** Anscombe's quartet: the four hardcoded datasets (src/App.jsx:7-24), their
    zip into indexed points (lines 27-34), and the figures the shared
    statistics cards display for them. */
module Anscombe {
  import opened JsNumber
  import opened Sums
  import opened Statistics

  /** One entry of `rawData`: its key and the two coordinate arrays. */
  datatype RawSet = RawSet(key: string, x: seq<real>, y: seq<real>)

  /** One entry of `datasets`: the display name, the key and the points. */
  datatype Dataset = Dataset(name: string, key: string, points: seq<Point>)

  /** The x values shared by datasets I, II and III. */
  const SharedX: seq<real> := [10.0, 8.0, 13.0, 9.0, 11.0, 14.0, 6.0, 4.0, 12.0, 7.0, 5.0]

  const YOne: seq<real> := [8.04, 6.95, 7.58, 8.81, 8.33, 9.96, 7.24, 4.26, 10.84, 4.82, 5.68]
  const YTwo: seq<real> := [9.14, 8.14, 8.74, 8.77, 9.26, 8.10, 6.13, 3.10, 9.13, 7.26, 4.74]
  const YThree: seq<real> := [7.46, 6.77, 12.74, 7.11, 7.81, 8.84, 6.08, 5.39, 8.15, 6.42, 5.73]

  /** Dataset IV: every x is 8 except the single outlier at index 7. */
  const XFour: seq<real> := [8.0, 8.0, 8.0, 8.0, 8.0, 8.0, 8.0, 19.0, 8.0, 8.0, 8.0]
  const YFour: seq<real> := [6.58, 5.76, 7.71, 8.84, 8.47, 7.04, 5.25, 12.50, 5.56, 7.91, 6.89]

  /** `rawData`, in the key order `Object.keys` yields. */
  const RawData: seq<RawSet> := [
    RawSet("I", SharedX, YOne),
    RawSet("II", SharedX, YTwo),
    RawSet("III", SharedX, YThree),
    RawSet("IV", XFour, YFour)
  ]

  /** `x.map((xVal, i) => ({ x: xVal, y: y[i], id: i }))`: one point per x value. */
  function Zip(xs: seq<real>, ys: seq<real>): (points: seq<Point>)
    requires |ys| >= |xs|
    ensures |points| == |xs|
    ensures forall i :: 0 <= i < |xs| ==> points[i] == Point(xs[i], ys[i], i)
  {
    seq(|xs|, i requires 0 <= i < |xs| => Point(xs[i], ys[i], i))
  }

  /** Projecting the zipped points back gives the x values and the paired
      prefix of the y values: nothing is reordered, dropped or invented. */
  lemma ZipRoundTrip(xs: seq<real>, ys: seq<real>)
    requires |ys| >= |xs|
    ensures XValues(Zip(xs, ys)) == xs
    ensures YValues(Zip(xs, ys)) == ys[..|xs|]
  {
  }

  /** The ids of the zipped points are their positions, so they are distinct. */
  lemma ZipIdsDistinct(xs: seq<real>, ys: seq<real>, i: int, j: int)
    requires |ys| >= |xs|
    requires 0 <= i < |xs| && 0 <= j < |xs|
    ensures Zip(xs, ys)[i].id == Zip(xs, ys)[j].id <==> i == j
  {
  }

  /** The callback of `Object.keys(rawData).map` (lines 27-34). */
  function MakeDataset(raw: RawSet): (d: Dataset)
    requires |raw.y| >= |raw.x|
    ensures d.key == raw.key
    ensures d.name == "Dataset " + raw.key
    ensures XValues(d.points) == raw.x && YValues(d.points) == raw.y[..|raw.x|]
  {
    ZipRoundTrip(raw.x, raw.y);
    Dataset("Dataset " + raw.key, raw.key, Zip(raw.x, raw.y))
  }

  /** The raw sets are well paired: eleven x values and eleven y values each. */
  lemma RawDataShape()
    ensures |RawData| == 4
    ensures forall k :: 0 <= k < 4 ==> |RawData[k].x| == 11 && |RawData[k].y| == 11
  {
  }

  /** `datasets` (lines 27-34). */
  function Datasets(): (ds: seq<Dataset>)
    ensures |ds| == |RawData|
    ensures forall k :: 0 <= k < |ds| ==> ds[k].key == RawData[k].key
    ensures forall k :: 0 <= k < |ds| ==> ds[k].name == "Dataset " + RawData[k].key
    ensures forall k :: 0 <= k < |ds| ==>
              XValues(ds[k].points) == RawData[k].x && YValues(ds[k].points) == RawData[k].y
  {
    RawDataShape();
    assert forall k :: 0 <= k < |RawData| ==> RawData[k].y[..|RawData[k].x|] == RawData[k].y;
    seq(|RawData|, k requires 0 <= k < |RawData| => MakeDataset(RawData[k]))
  }

  /** Each dataset holds eleven points; point i carries x[i], y[i] and id i. */
  lemma DatasetPoints(k: int, i: int)
    requires 0 <= k < 4 && 0 <= i < 11
    ensures |Datasets()[k].points| == 11
    ensures Datasets()[k].points[i] == Point(RawData[k].x[i], RawData[k].y[i], i)
  {
    RawDataShape();
  }

  /** The three sums behind one dataset's statistics, as exact rationals:
      the sum of y, the squared y deviations and the co-deviations. */
  datatype ExactSums = ExactSums(sumY: real, syy: real, sxy: real)

  /** The sums of datasets I to IV, in `RawData` order. */
  const Exact: seq<ExactSums> := [
    ExactSums(82.51, 1134999.0 / 27500.0, 55.01),
    ExactSums(82.51, 567549.0 / 13750.0, 55.0),
    ExactSums(82.5, 206131.0 / 5000.0, 54.97),
    ExactSums(82.51, 2267787.0 / 55000.0, 54.99)
  ]

  /** Eleven x values summing to 99 with squared deviations from 9 summing
      to 110, and y sums as recorded in e. */
  predicate HasSums(xs: seq<real>, ys: seq<real>, e: ExactSums)
  {
    && |xs| == 11 && |ys| == 11
    && Sum(xs) == 99.0 && SumSq(xs, 9.0) == 110.0
    && Sum(ys) == e.sumY
    && SumSq(ys, e.sumY / 11.0) == e.syy
    && CoSum(xs, ys, 9.0, e.sumY / 11.0) == e.sxy
  }

  lemma SharedXSums()
    ensures Sum(SharedX) == 99.0 && SumSq(SharedX, 9.0) == 110.0
  {
  }

  lemma XFourSums()
    ensures Sum(XFour) == 99.0 && SumSq(XFour, 9.0) == 110.0
  {
  }

  lemma YOneSum()
    ensures Sum(YOne) == 82.51
  {
  }

  lemma YOneSumSq()
    ensures SumSq(YOne, 82.51 / 11.0) == 1134999.0 / 27500.0
  {
  }

  lemma YOneCoSum()
    ensures CoSum(SharedX, YOne, 9.0, 82.51 / 11.0) == 55.01
  {
  }

  lemma DatasetOneSums()
    ensures HasSums(SharedX, YOne, Exact[0])
  {
    SharedXSums();
    YOneSum();
    YOneSumSq();
    YOneCoSum();
  }

  lemma YTwoSum()
    ensures Sum(YTwo) == 82.51
  {
  }

  lemma YTwoSumSq()
    ensures SumSq(YTwo, 82.51 / 11.0) == 567549.0 / 13750.0
  {
  }

  lemma YTwoCoSum()
    ensures CoSum(SharedX, YTwo, 9.0, 82.51 / 11.0) == 55.0
  {
  }

  lemma DatasetTwoSums()
    ensures HasSums(SharedX, YTwo, Exact[1])
  {
    SharedXSums();
    YTwoSum();
    YTwoSumSq();
    YTwoCoSum();
  }

  lemma YThreeSum()
    ensures Sum(YThree) == 82.5
  {
  }

  lemma YThreeSumSq()
    ensures SumSq(YThree, 82.5 / 11.0) == 206131.0 / 5000.0
  {
  }

  lemma YThreeCoSum()
    ensures CoSum(SharedX, YThree, 9.0, 82.5 / 11.0) == 54.97
  {
  }

  lemma DatasetThreeSums()
    ensures HasSums(SharedX, YThree, Exact[2])
  {
    SharedXSums();
    YThreeSum();
    YThreeSumSq();
    YThreeCoSum();
  }

  lemma YFourSum()
    ensures Sum(YFour) == 82.51
  {
  }

  lemma YFourSumSq()
    ensures SumSq(YFour, 82.51 / 11.0) == 2267787.0 / 55000.0
  {
  }

  lemma YFourCoSum()
    ensures CoSum(XFour, YFour, 9.0, 82.51 / 11.0) == 54.99
  {
  }

  lemma DatasetFourSums()
    ensures HasSums(XFour, YFour, Exact[3])
  {
    XFourSums();
    YFourSum();
    YFourSumSq();
    YFourCoSum();
  }

  /** Every raw set has the sums recorded for it. */
  lemma RawDataSums(k: int)
    requires 0 <= k < 4
    ensures HasSums(RawData[k].x, RawData[k].y, Exact[k])
  {
    if k == 0 {
      assert RawData[0].x == SharedX && RawData[0].y == YOne;
      DatasetOneSums();
    } else if k == 1 {
      assert RawData[1].x == SharedX && RawData[1].y == YTwo;
      DatasetTwoSums();
    } else if k == 2 {
      assert RawData[2].x == SharedX && RawData[2].y == YThree;
      DatasetThreeSums();
    } else {
      assert RawData[3].x == XFour && RawData[3].y == YFour;
      DatasetFourSums();
    }
  }

  /** `calculateStats` of a dataset depends only on its raw arrays. */
  lemma DatasetStats(k: int)
    requires 0 <= k < 4
    ensures CalculateStats(Datasets()[k].points) == Ok(StatsOf(RawData[k].x, RawData[k].y))
  {
    RawDataShape();
  }

  /** What `calculateStats` yields for eleven points with known sums. */
  lemma StatsFromSums(xs: seq<real>, ys: seq<real>, e: ExactSums)
    requires HasSums(xs, ys, e) && e.syy > 0.0
    ensures var st := StatsOf(xs, ys);
      && st.xMean == 9.0 && st.xVariance == Finite(11.0)
      && st.yMean == e.sumY / 11.0
      && st.yVariance.Finite? && st.yVariance.v * 10.0 == e.syy
      && st.slope.Finite? && st.slope.v * 110.0 == e.sxy
      && st.intercept.Finite? && st.intercept.v == st.yMean - st.slope.v * 9.0
      && st.rSquared.Finite? && st.rSquared.v * (110.0 * e.syy) == Sq(e.sxy)
  {
    DescribedBySums(xs, ys, StatsOf(xs, ys), e);
  }

  /** StatsFromSums for any record the sums describe. */
  lemma DescribedBySums(xs: seq<real>, ys: seq<real>, st: Stats, e: ExactSums)
    requires HasSums(xs, ys, e) && e.syy > 0.0
    requires StatsDescribe(xs, ys, st)
    ensures && st.xMean == 9.0 && st.xVariance == Finite(11.0)
            && st.yMean == e.sumY / 11.0
            && st.yVariance.Finite? && st.yVariance.v * 10.0 == e.syy
            && st.slope.Finite? && st.slope.v * 110.0 == e.sxy
            && st.intercept.Finite? && st.intercept.v == st.yMean - st.slope.v * 9.0
            && st.rSquared.Finite? && st.rSquared.v * (110.0 * e.syy) == Sq(e.sxy)
  {
    DevSumLinear(xs, 9.0);
    DevSumLinear(ys, e.sumY / 11.0);
    MeanUnique(xs, 9.0);
    MeanUnique(xs, st.xMean);
    MeanUnique(ys, e.sumY / 11.0);
    MeanUnique(ys, st.yMean);
    SpreadZeroIffConstant(xs);
    SpreadZeroIffConstant(ys);
  }

  /** The shared statistics cards (lines 262-266) against each dataset's
      exact statistics: the mean of x is 9 and its sample variance 11 for all
      four; the mean of y lies in [7.50, 7.505), so it shows as 7.50 whether
      rounded or truncated to two places; the sample variance of y lies in
      [4.12, 4.13) and r squared in [0.816 * 0.816, 0.817 * 0.817), so the
      cards' 4.12 and 0.816 are those figures truncated; every fitted line is
      y = 3.00 + 0.500 x to two and three places. */
  lemma SharedStatisticsCards(k: int)
    requires 0 <= k < 4
    ensures CalculateStats(Datasets()[k].points).Ok?
    ensures CardFigures(CalculateStats(Datasets()[k].points).value)
  {
    DatasetStats(k);
    RawDataFigures(k);
  }

  /** The figures every dataset shares, as intervals around the cards. */
  predicate CardFigures(st: Stats)
  {
    && st.xMean == 9.0 && st.xVariance == Finite(11.0)
    && 7.5 <= st.yMean < 7.505
    && st.yVariance.Finite? && 4.12 <= st.yVariance.v < 4.13
    && st.rSquared.Finite? && 0.665856 <= st.rSquared.v < 0.667489
    && st.slope.Finite? && 0.4995 <= st.slope.v < 0.5005
    && st.intercept.Finite? && 3.0 <= st.intercept.v < 3.005
  }

  lemma RawDataFigures(k: int)
    requires 0 <= k < 4
    ensures CardFigures(StatsOf(RawData[k].x, RawData[k].y))
  {
    RawDataSums(k);
    FiguresFromSums(RawData[k].x, RawData[k].y, Exact[k]);
  }

  lemma FiguresFromSums(xs: seq<real>, ys: seq<real>, e: ExactSums)
    requires HasSums(xs, ys, e) && e in Exact
    ensures CardFigures(StatsOf(xs, ys))
  {
    var st := StatsOf(xs, ys);
    StatsFromSums(xs, ys, e);
    CardBounds(e, st.rSquared.v);
  }

  /** The four recorded sums put every figure inside its card's interval. */
  lemma CardBounds(e: ExactSums, r2: real)
    requires e in Exact
    requires r2 * (110.0 * e.syy) == Sq(e.sxy)
    ensures 7.5 <= e.sumY / 11.0 < 7.505
    ensures 41.2 <= e.syy < 41.3
    ensures 0.665856 <= r2 < 0.667489
    ensures 54.945 <= e.sxy < 55.055
    ensures 3.0 <= e.sumY / 11.0 - e.sxy / 110.0 * 9.0 < 3.005
  {
  }

  /** Where rounding and truncation part ways. The sample variance of y is
      at least 4.125 for datasets I and II only, so rounded to two places it
      reads 4.13 there, not the card's 4.12. r squared is at least 0.8165^2
      for dataset IV only, so that chart's header, which rounds r to three
      places (line 106), reads 0.817 while the shared card says 0.816. */
  lemma CardRounding(k: int)
    requires 0 <= k < 4
    ensures CalculateStats(Datasets()[k].points).Ok?
    ensures RoundsApart(k, CalculateStats(Datasets()[k].points).value)
  {
    DatasetStats(k);
    RawDataRounding(k);
  }

  /** Dataset k's variance of y reaches 4.125 exactly for I and II, and its
      r squared reaches 0.8165^2 exactly for IV. */
  predicate RoundsApart(k: int, st: Stats)
  {
    && st.yVariance.Finite? && (st.yVariance.v >= 4.125 <==> k < 2)
    && st.rSquared.Finite? && (st.rSquared.v >= 0.8165 * 0.8165 <==> k == 3)
  }

  lemma RawDataRounding(k: int)
    requires 0 <= k < 4
    ensures RoundsApart(k, StatsOf(RawData[k].x, RawData[k].y))
  {
    var st := StatsOf(RawData[k].x, RawData[k].y);
    RawDataSums(k);
    StatsFromSums(RawData[k].x, RawData[k].y, Exact[k]);
    RoundingFromSums(k, st.yVariance.v, st.rSquared.v);
  }

  /** The recorded sums on either side of the rounding thresholds. */
  lemma RoundingFromSums(k: int, v: real, r2: real)
    requires 0 <= k < 4
    requires v * 10.0 == Exact[k].syy
    requires r2 * (110.0 * Exact[k].syy) == Sq(Exact[k].sxy)
    ensures v >= 4.125 <==> k < 2
    ensures r2 >= 0.8165 * 0.8165 <==> k == 3
  {
  }

  /** The points other than the one at index k. */
  function Without(points: seq<Point>, k: nat): seq<Point>
  {
    if k < |points| then points[..k] + points[k + 1..] else points
  }

  /** Dataset IV owes its regression line to a single point. With all its
      points the slope is defined (SharedStatisticsCards); without the
      outlier at index 7 every x is 8, `denomX` is 0, and the slope, the
      intercept and r are all NaN. */
  lemma OutlierCarriesDatasetFour()
    ensures var r := CalculateStats(Without(Zip(XFour, YFour), 7));
      r.Ok? && r.value.slope.NaN? && r.value.intercept.NaN? && r.value.rSquared.NaN?
  {
    OutlierDropped();
    ConstantXLeavesNoLine(Without(Zip(XFour, YFour), 7));
  }

  /** The ten points of dataset IV other than the outlier share x = 8. */
  lemma OutlierDropped()
    ensures |Without(Zip(XFour, YFour), 7)| == 10
    ensures forall i :: 0 <= i < 10 ==> XValues(Without(Zip(XFour, YFour), 7))[i] == 8.0
    ensures Constant(XValues(Without(Zip(XFour, YFour), 7)))
  {
    var pts := Zip(XFour, YFour);
    var rest := Without(pts, 7);
    assert rest == pts[..7] + pts[8..];
    var xs := XValues(rest);
    forall i | 0 <= i < |xs|
      ensures xs[i] == 8.0
    {
      if i < 7 {
        assert rest[i] == pts[i];
      } else {
        assert rest[i] == pts[i + 1];
      }
    }
  }
}

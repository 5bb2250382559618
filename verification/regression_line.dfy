/** The dashed regression line of each chart (src/App.jsx:93-96): two
    endpoints at the ends of the x axis, which runs from 0 to 20. */
module RegressionLine {
  import opened JsNumber
  import opened Statistics
  import opened LeastSquares

  /** One entry of `regressionData`: `{ x, yLine }`. */
  datatype LinePoint = LinePoint(x: real, yLine: Num)

  /** Left end of the chart's x axis. */
  const AxisStart: real := 0.0

  /** Right end of the chart's x axis. */
  const AxisEnd: real := 20.0

  /** `regressionData`: the line evaluated at x = 0 and x = 20. A NaN slope
      or intercept propagates into the heights it touches. */
  function RegressionData(st: Stats): (line: seq<LinePoint>)
    ensures |line| == 2 && line[0].x == AxisStart && line[1].x == AxisEnd
    ensures forall k :: 0 <= k < 2 ==>
              (line[k].yLine.Finite? <==> st.intercept.Finite? && (k == 0 || st.slope.Finite?))
    ensures forall k :: 0 <= k < 2 ==> st.slope.Finite? && st.intercept.Finite? ==>
              line[k].yLine.v == st.slope.v * line[k].x + st.intercept.v
    ensures st.intercept.NaN? ==> line[0].yLine.NaN? && line[1].yLine.NaN?
    ensures st.slope.NaN? ==> line[1].yLine.NaN?
  {
    [ LinePoint(AxisStart, st.intercept),
      LinePoint(AxisEnd, Add(Mul(st.slope, Finite(AxisEnd)), st.intercept)) ]
  }

  /** Height of the segment between the two endpoints above x. That the
      chart joins the two entries of `regressionData` by a straight segment
      is an assumption about the charting library's `Line` (its default
      linear interpolation), which is not part of this model. */
  function Interpolate(line: seq<LinePoint>, x: real): real
    requires |line| == 2 && line[0].yLine.Finite? && line[1].yLine.Finite?
    requires line[0].x != line[1].x
  {
    line[0].yLine.v
      + (line[1].yLine.v - line[0].yLine.v) * (x - line[0].x) / (line[1].x - line[0].x)
  }

  /** The chart draws the fitted line, given that the two endpoints are
      joined linearly (see Interpolate): when the slope is defined both
      endpoints are numbers, the segment through them is y = slope * x +
      intercept everywhere, so it passes through the mean point and is the
      least-squares line of the data; otherwise both endpoints are NaN and
      no line can be drawn. */
  lemma ChartShowsFittedLine(points: seq<Point>, x: real)
    requires CalculateStats(points).Ok?
    ensures var st := CalculateStats(points).value;
            var line := RegressionData(st);
            st.slope.NaN? <==> line[0].yLine.NaN? && line[1].yLine.NaN?
    ensures var st := CalculateStats(points).value;
            var line := RegressionData(st);
            st.slope.Finite? ==>
              && line[0].yLine.Finite? && line[1].yLine.Finite?
              && Interpolate(line, x) == st.slope.v * x + st.intercept.v
              && Interpolate(line, st.xMean) == st.yMean
  {
    var st := CalculateStats(points).value;
    if st.slope.Finite? {
      SegmentIsLine(st, x);
      SegmentIsLine(st, st.xMean);
    }
  }

  /** Between the two endpoints of a defined line, the segment is the line. */
  lemma SegmentIsLine(st: Stats, x: real)
    requires st.slope.Finite? && st.intercept.Finite?
    ensures var line := RegressionData(st);
            line[0].yLine.Finite? && line[1].yLine.Finite?
            && Interpolate(line, x) == st.slope.v * x + st.intercept.v
  {
    var line := RegressionData(st);
    var y0 := line[0].yLine.v;
    var y1 := line[1].yLine.v;
    assert y1 - y0 == st.slope.v * 20.0;
    calc {
      Interpolate(line, x);
      == y0 + (y1 - y0) * (x - 0.0) / 20.0;
      == y0 + st.slope.v * 20.0 * x / 20.0;
      == st.intercept.v + st.slope.v * x;
    }
  }

  /** The segment the chart draws leaves no smaller sum of squared
      residuals to any other line. */
  lemma ChartLineIsLeastSquares(points: seq<Point>, a: real, b: real)
    requires CalculateStats(points).Ok? && CalculateStats(points).value.slope.Finite?
    ensures var line := RegressionData(CalculateStats(points).value);
            var chartSlope := (line[1].yLine.v - line[0].yLine.v) / (AxisEnd - AxisStart);
            Sse(XValues(points), YValues(points), chartSlope, line[0].yLine.v)
              <= Sse(XValues(points), YValues(points), a, b)
  {
    var st := CalculateStats(points).value;
    var line := RegressionData(st);
    assert (line[1].yLine.v - line[0].yLine.v) / (AxisEnd - AxisStart) == st.slope.v;
    FittedLineIsLeastSquares(points, a, b);
  }
}

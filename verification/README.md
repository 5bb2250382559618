# Anscombe's quartet: a Dafny model of the statistics engine

The application shows Anscombe's quartet: four hardcoded datasets with nearly
identical summary statistics and very different scatter plots. Its one piece
of real logic is `calculateStats`. From a list of points it computes:

- the means of x and y;
- the sample standard deviations, with the n - 1 divisor;
- the three co-deviation sums `numerator`, `denomX` and `denomY`, accumulated in one loop;
- Pearson r;
- the least-squares slope and intercept.

Around it sit the `rawData` constants, their zip into indexed points (`datasets`),
and the two endpoints of the dashed regression line each chart draws.

The model works over exact reals, not IEEE-754 doubles. JavaScript's special
values are kept where the unguarded divisions can produce them. `JsNumber.Num`
is `Finite(v) | NaN | Inf(negative)`, and `Div`, `Mul`, `Add` and `Sub` follow
JavaScript's rules for NaN and the infinities.

Dafny has no square root over the reals, so `Stats` keeps the squares of what
the source returns:

- `xVariance` and `yVariance` instead of `xStd` and `yStd`;
- `rSquared` instead of `r`.

r itself appears only through `Statistics.Correlation`, which takes the root
that `Math.sqrt` would return as a parameter constrained by `IsSqrt`.

Zero points make `stdDev`'s seedless `reduce` throw a TypeError; the model
returns `Failure(EmptyReduce)`. One point makes every division by n - 1 or by a
spread compute 0 / 0, which is NaN.

Modules:

- `Sums`: the closed-form sums, defined once by recursion, and their algebra.
- `JsNumber`: JavaScript numbers and their arithmetic.
- `Statistics`: `calculateStats`, in two forms:
  - the closed-form function `CalculateStats`;
  - the method `ComputeStats`, which runs the `reduce` calls, the `map` and the loop as the source does.

  The predicate `StatsDescribe` says what the seven numbers mean.
- `LeastSquares`: the fitted line against the least-squares criterion it
  implements, and r against r squared.
- `RegressionLine`: the chart's two endpoints.
- `Anscombe`: the four datasets and the figures on the shared statistics cards.

## Model

| member | source | states |
|---|---|---|
| Sums.SumAppend | src/App.jsx:42 | one more element at the end of a `reduce` sum adds that element |
| Sums.CoSumAppend | src/App.jsx:58 | one more loop step adds dx * dy to the co-deviation sum |
| Sums.SumSqAppend | src/App.jsx:59-60 | one more loop step adds the squared deviation to `denomX` / `denomY` |
| Sums.SumSqZeroIff | src/App.jsx:59-60 | a sum of squared deviations is never negative, and it is zero exactly when every value equals the centre |
| Sums.CoSumOfFlatX | src/App.jsx:58 | when every x sits on its centre, the co-deviation sum is zero whatever the y values |
| Sums.CoSumSymmetric | src/App.jsx:58 | the co-deviation sum does not depend on which coordinate comes first |
| Sums.DevSumLinear | src/App.jsx:42 | the deviations from m add up to the sum minus n copies of m |
| Sums.SumOfAllEqual | src/App.jsx:42 | n copies of c add up to n * c |
| JsNumber.Div | src/App.jsx:65 | `a / b` is a number exactly when b is non-zero, and then it solves q * b = a; 0 / 0 is NaN and a non-zero over 0 an infinity of a's sign |
| JsNumber.Mul | src/App.jsx:66 | `a * b` is a number exactly when both operands are, NaN absorbs, and on numbers it is the product |
| JsNumber.Add | src/App.jsx:66 | `a + b` is a number exactly when both operands are, NaN absorbs, and on numbers it is the sum |
| JsNumber.Negate | src/App.jsx:66 | negation keeps numbers numbers and NaN NaN, and flips the value |
| JsNumber.Sub | src/App.jsx:66 | `a - b` is a number exactly when both operands are, NaN absorbs, and on numbers it is the difference |
| Statistics.XValues | src/App.jsx:39 | `points.map(p => p.x)` has one entry per point, the point's x |
| Statistics.YValues | src/App.jsx:40 | `points.map(p => p.y)` has one entry per point, the point's y |
| Statistics.Mean | src/App.jsx:42 | the deviations from the mean cancel out |
| Statistics.MeanUnique | src/App.jsx:42 | the mean is the only value from which the deviations cancel |
| Statistics.FlatIffConstant | src/App.jsx:42 | every value equals the mean exactly when all values are equal |
| Statistics.SpreadZeroIffConstant | src/App.jsx:47 | the sum of squared deviations from the mean is never negative, and it is zero exactly for constant data |
| Statistics.SampleVariance | src/App.jsx:47 | the squared `stdDev` is a number exactly from two values on; it is NaN for one value; times n - 1 it gives the sum of squared deviations; it is never negative and zero exactly for constant data |
| Statistics.ReduceSum | src/App.jsx:42 | the left fold of `reduce((a, b) => a + b, 0)` computes the sum |
| Statistics.SquaredDeviations | src/App.jsx:47 | `map(val => Math.pow(val - meanVal, 2))` keeps the length and squares each deviation |
| Statistics.SumOfSquaredDeviations | src/App.jsx:47 | adding up the mapped squares gives the sum of squared deviations |
| Statistics.MeanByReduce | src/App.jsx:42 | the `reduce` sum over n is the value the deviations cancel from |
| Statistics.SquaresByReduce | src/App.jsx:47 | `map` then `reduce` inside `stdDev` computes the sum of squared deviations |
| Statistics.Accumulate | src/App.jsx:52-61 | after the loop, `numerator`, `denomX` and `denomY` equal the closed-form co-deviation sum and the two sums of squared deviations |
| Statistics.Correlation | src/App.jsx:62 | r is a number exactly when denomX * denomY is non-zero, and then r * sqrt(denomX * denomY) = numerator; it is NaN exactly when there is no spread and no co-deviation |
| Statistics.SquaredCorrelation | src/App.jsx:62 | r squared is a number exactly when both spreads are positive, NaN exactly when one is zero, and it solves r2 * denomX * denomY = numerator^2 |
| Statistics.Intercept | src/App.jsx:66 | the intercept is a number exactly when the slope is, is NaN when the slope is, and puts the line through the mean point |
| Statistics.DegenerateCoDeviation | src/App.jsx:55-61 | a zero `denomX` or `denomY` comes with a zero `numerator`, so the divisions at lines 62 and 65 are 0 / 0 and never a non-zero over zero |
| Statistics.CalculateStats | src/App.jsx:37-77 | no points is an error and any points give a record; the record means what StatsDescribe says |
| Statistics.StatsOfDescribes | src/App.jsx:37-77 | the deviations from both means cancel; the variances are defined from two points on with the n - 1 divisor and are NaN for a single point; the slope is defined exactly when x varies, is NaN otherwise, solves slope * denomX = numerator, and with the intercept passes through the mean point; the intercept is NaN exactly when the slope is; r squared is defined exactly when both coordinates vary and solves r2 * denomX * denomY = numerator^2 |
| Statistics.StatsOfVariances | src/App.jsx:47-49 | both sample variances are defined exactly from two points on, are NaN exactly for a single point (0 / 0), and times n - 1 give the sums of squared deviations |
| Statistics.StatsOfSlope | src/App.jsx:65 | the slope is a number exactly when x is not constant, NaN exactly when it is, and solves slope * denomX = numerator |
| Statistics.StatsOfIntercept | src/App.jsx:66 | the intercept is defined exactly when the slope is and NaN exactly when the slope is NaN, and the line passes through (xMean, yMean) |
| Statistics.StatsOfCorrelation | src/App.jsx:62 | r squared is defined exactly when neither coordinate is constant and solves r2 * denomX * denomY = numerator^2 |
| Statistics.SinglePointIsDegenerate | src/App.jsx:37-77 | one point: the means are its coordinates and the variances, slope, intercept and r are all NaN |
| Statistics.ConstantXLeavesNoLine | src/App.jsx:62-66 | when every x is the same, the slope, the intercept and r are all NaN |
| Statistics.ComputeStats | src/App.jsx:37-77 | the statements of `calculateStats`, run in order, give the same result as the closed form, error included |
| LeastSquares.SseNonNegative | src/App.jsx:65-66 | a residual sum of squares is never negative |
| LeastSquares.SseDecomposition | src/App.jsx:65-66 | the residual sum of squares of any line, expanded around any centres, in terms of the co-deviation and squared-deviation sums |
| LeastSquares.SseAtMeans | src/App.jsx:65-66 | around the means the cross terms of that expansion vanish |
| LeastSquares.SseGap | src/App.jsx:65-66 | any line's residual sum of squares exceeds the fitted line's by denomX * (a - slope)^2 + n * (yMean - a * xMean - b)^2, the second term being the other line's miss at the mean point |
| LeastSquares.NormalEquationsMinimise | src/App.jsx:65-66 | when x varies, a line that solves the normal equations has the least residual sum of squares and no other line ties with it |
| LeastSquares.FittedLineIsLeastSquares | src/App.jsx:65-66 | the slope and intercept that `calculateStats` returns, when defined, are the unique least-squares line |
| LeastSquares.Residuals | src/App.jsx:65-66 | one vertical distance per point, from the point to the line |
| LeastSquares.SseOfResiduals | src/App.jsx:65-66 | the residual sum of squares is the sum of the squared residuals |
| LeastSquares.SseZeroIff | src/App.jsx:65-66 | the residual sum of squares is zero exactly when every point lies on the line |
| LeastSquares.FittedResidual | src/App.jsx:65-66 | the fitted line leaves denomY - slope * numerator unexplained |
| LeastSquares.UnexplainedShare | src/App.jsx:62-66 | r squared lies in [0, 1], the fitted line leaves denomY * (1 - r^2) unexplained, and r^2 is 1 exactly when nothing is left |
| LeastSquares.CorrelationBounds | src/App.jsx:62-66 | for `calculateStats`: a defined r squared lies in [0, 1], comes with a defined line, and is 1 exactly when every point lies on that line |
| LeastSquares.DescribedBounds | src/App.jsx:62-66 | CorrelationBounds for any record the sums describe |
| LeastSquares.PointsOnLineIff | src/App.jsx:65-66 | over the plotted points, a zero residual sum of squares means every point is on the line, and back |
| LeastSquares.SlopeSignIsCorrelationSign | src/App.jsx:62-65 | the slope is positive, or negative, exactly when `numerator` is |
| LeastSquares.CorrelationFromRoot | src/App.jsx:62 | r is defined exactly when r squared is, squares to it, lies in [-1, 1], and has the sign of the slope |
| LeastSquares.DescribedCorrelation | src/App.jsx:62 | CorrelationFromRoot for any record the sums describe |
| LeastSquares.UndefinedCorrelation | src/App.jsx:62 | with no spread in x or in y, r is NaN |
| LeastSquares.CorrelationOfSums | src/App.jsx:62 | for data that vary in both coordinates, r is a number in [-1, 1] that squares to r^2 and has the slope's sign |
| LeastSquares.ExactFitIsFound | src/App.jsx:65-66 | when x varies (the slope is defined), a line through every point is exactly the slope and intercept `calculateStats` returns; with constant x the slope is NaN instead (ConstantXLeavesNoLine) |
| LeastSquares.TwoPointsFitExactly | src/App.jsx:37-77 | two points with distinct x: the fitted line passes through both, and r squared is 1, or NaN when the two y values coincide |
| RegressionLine.RegressionData | src/App.jsx:93-96 | two endpoints at x = 0 and x = 20; each lies on y = slope * x + intercept when both are numbers; NaN propagates |
| RegressionLine.ChartShowsFittedLine | src/App.jsx:93-96 | a NaN slope makes both endpoints NaN; otherwise the drawn segment is the fitted line everywhere and passes through the mean point |
| RegressionLine.SegmentIsLine | src/App.jsx:93-96 | between the two endpoints of a defined line, the segment is y = slope * x + intercept |
| RegressionLine.ChartLineIsLeastSquares | src/App.jsx:93-96 | the segment the chart draws has no larger residual sum of squares than any other line |
| Anscombe.Zip | src/App.jsx:28-32 | one point per x value; point i carries x[i], y[i] and id i |
| Anscombe.ZipRoundTrip | src/App.jsx:28-32 | projecting the zipped points back gives the x values and the paired y values: nothing reordered, dropped or invented |
| Anscombe.ZipIdsDistinct | src/App.jsx:31 | two zipped points share an id exactly when they are the same point |
| Anscombe.MakeDataset | src/App.jsx:27-34 | a dataset is named "Dataset " + key, keeps its key, and its points project back to the raw arrays |
| Anscombe.RawDataShape | src/App.jsx:7-24 | four raw sets of eleven x values and eleven y values |
| Anscombe.Datasets | src/App.jsx:27-34 | one dataset per raw set, in key order, with its name, key and points |
| Anscombe.DatasetPoints | src/App.jsx:27-33 | each dataset holds eleven points; point i carries x[i], y[i] and id i |
| Anscombe.SharedXSums | src/App.jsx:9 | the x values of datasets I to III sum to 99, with squared deviations from 9 summing to 110 |
| Anscombe.XFourSums | src/App.jsx:21 | the x values of dataset IV sum to 99, with squared deviations from 9 summing to 110 |
| Anscombe.DatasetOneSums | src/App.jsx:9-10 | dataset I: eleven x values summing to 99 with squared deviations 110; the sum of y, its squared deviations and the co-deviations as exact rationals |
| Anscombe.DatasetTwoSums | src/App.jsx:13-14 | the same for dataset II |
| Anscombe.DatasetThreeSums | src/App.jsx:17-18 | the same for dataset III |
| Anscombe.DatasetFourSums | src/App.jsx:21-22 | the same for dataset IV |
| Anscombe.RawDataSums | src/App.jsx:7-24 | every raw set has the sums recorded for it |
| Anscombe.DatasetStats | src/App.jsx:27-37 | `calculateStats` of a dataset depends only on its raw arrays |
| Anscombe.StatsFromSums | src/App.jsx:42-66 | eleven points with those sums: mean of x 9, variance of x 11, mean of y sum / 11, and the variances, slope, intercept and r squared fixed by the sums |
| Anscombe.DescribedBySums | src/App.jsx:42-66 | StatsFromSums for any record the sums describe |
| Anscombe.CardBounds | src/App.jsx:262-266 | the four sets of recorded sums put every figure inside its card's interval |
| Anscombe.CardRounding | src/App.jsx:106 | the variance of y is at least 4.125 exactly for datasets I and II, so rounded it reads 4.13 rather than the card's 4.12; r squared is at least 0.8165^2 exactly for dataset IV, so its chart header rounds r to 0.817 while the card says 0.816 |
| Anscombe.RawDataRounding | src/App.jsx:7-24 | the same split stated on the closed form over each raw set |
| Anscombe.RoundingFromSums | src/App.jsx:7-24 | the recorded exact sums fall on those sides of 4.125 and 0.8165^2 |
| Anscombe.SharedStatisticsCards | src/App.jsx:262-266 | for all four datasets: mean of x exactly 9 and variance of x exactly 11; mean of y in [7.5, 7.505); variance of y in [4.12, 4.13); r squared in [0.816^2, 0.817^2); slope in [0.4995, 0.5005); intercept in [3, 3.005) |
| Anscombe.OutlierDropped | src/App.jsx:21 | without the point at index 7, dataset IV has ten points and every x is 8, so the x values are constant |
| Anscombe.OutlierCarriesDatasetFour | src/App.jsx:21-22 | without its outlier, dataset IV has no regression line: slope, intercept and r are all NaN |

## Left out

- The React components, JSX layout, `useState`, `useMemo` and the view-mode selector (src/App.jsx:79-356). They are UI plumbing with no logic beyond showing the selected tab.
- Recharts and lucide-react rendering: axes, scatter, tooltip and icons. They are calls into libraries outside this model. Only the data handed to the line chart (`regressionData`) is modelled. That the `Line` joins its two entries by a straight segment (its default linear type) is assumed in RegressionLine.Interpolate, not modelled.
- IEEE-754 rounding. Finite values are exact reals, so no property here speaks about rounding error. A zero divisor is taken as +0: every divisor in `calculateStats` is a count or a sum of squares.
- `toFixed` formatting (src/App.jsx:106, 154-166). No string is produced. The card figures are proved as intervals. Mean X, Mean Y and Variance X read as printed under rounding and truncation alike. Variance Y (4.12) and Correlation (0.816) are the exact figures truncated: rounded, the variance of y reads 4.13 for datasets I and II, and r reads 0.817 for dataset IV, which is what that chart's own header shows (Anscombe.CardRounding).
- Statistics.CalculateStats: returns the sample variances and r squared rather than `xStd`, `yStd` and `r`, because Dafny has no real square root. r is reached through Statistics.Correlation with the root supplied as a parameter.
- Statistics.ReduceSum: the seedless `reduce` inside `stdDev` (line 47) is modelled by the seeded fold from 0. On a non-empty array the two add the same terms. The empty array, where the seedless form throws, is the `EmptyReduce` error of CalculateStats.
- Anscombe.Zip: requires at least as many y values as x values. With fewer, JavaScript would pair the extra x values with `undefined`; every raw set has eleven of each.
- Anscombe.SharedStatisticsCards: proves r squared in an interval, not r = 0.816. Without a square root, r's value is stated through its square, and its sign through the slope (LeastSquares.CorrelationFromRoot).
- Anscombe.OutlierCarriesDatasetFour: states the reduced dataset as the zip of dataset IV's arrays with point 7 removed, not as an index into `Datasets()`. The full dataset's defined slope is part of SharedStatisticsCards.

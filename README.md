# Time-series core of Capura Analytics, in Dafny

Capura Analytics is an investment time-series tool. Its numerical core is
`TimeSeriesProcessor`, which offers three state-free operations over a series
of numbers:

- **`decompose(data, period)`** performs a classical additive decomposition,
  value = trend + seasonal + residual:
  - the trend is a centred moving average over `period` points (for an even
    period, `period + 1` points with both ends weighted one half);
  - the detrended values are averaged per phase `i mod period`;
  - the phase averages are centred and repeated along the series as the
    seasonal component;
  - the residual is what is left over;
  - a least-squares line through the defined trend points gives a slope and
    R².
- **`linearRegression(x, y)`** is the closed-form ordinary least-squares
  kernel.
- **`calculateACF(values, maxLag)`** is the sample autocorrelation function
  for lags 0 … min(maxLag, n − 1).

The project has four modules, one per file:

- `Series` (`series.dfy`): prefix sums `SumTo` and `Sum`, `Mean`, and the
  `Option` type that stands for the `null` slots of a series. It also holds
  the sum lemmas the other modules share.
- `LeastSquares` (`least_squares.dfy`): `linearRegression` as the method
  `LinearRegression`, with its two accumulator loops. It is proved equal to
  the closed-form function `Regression`, and `Regression` is proved to have
  these properties:
  - the denominator vanishes exactly for constant x;
  - R² lies in [0, 1];
  - the sums of squares decompose as n·SSres = n·SStot − slope²·denominator;
  - points on a line are fitted exactly.
- `Autocorrelation` (`autocorrelation.dfy`): `calculateACF` as the method
  `CalculateACF`, proved to return one entry per lag with the correlation
  given by the function `Correlation`. `Correlation` is proved to equal 1 at
  lag 0, to lie in [−1, 1], and to be 0 at every lag exactly for a constant
  series.
- `Decomposition` (`decomposition.dfy`): the loops (trend, phase buckets, the
  whole pipeline) are methods. Each is proved equal to a function, and the
  map/reduce steps (detrend, averages, centring, broadcast, residual) are
  functions. The decomposition is proved to have these properties:
  - it is additive, with components aligned with the input;
  - the trend is defined exactly on the indices the window fits;
  - the trend is the centred moving average;
  - the seasonal component repeats with the period and sums to zero over any
    full cycle;
  - the fit falls back to 0 on short series and is undefined on a single
    trend point;
  - a series on a straight line is recovered exactly, with a flat seasonal
    component, no residual, and the line's own slope.

Numbers are mathematical reals. JavaScript division by zero yields NaN or an
infinity; where that reaches a result, the model returns `None` instead.

## Model

| member | source | states |
|---|---|---|
| LeastSquares.LinearRegression | capura-analytics---professional-investment-time-series-tool/services/timeSeriesProcessor.ts:84-111 | The two-pass kernel returns exactly the closed-form least-squares fit `Regression(x, y)`. For no points that fit is slope 0 and R² 0. |
| LeastSquares.Sums | capura-analytics---professional-investment-time-series-tool/services/timeSeriesProcessor.ts:88-95 | The first loop leaves Σx, Σy, Σxy, Σx² and Σy² over all points. |
| LeastSquares.SquaredErrors | capura-analytics---professional-investment-time-series-tool/services/timeSeriesProcessor.ts:101-108 | The second loop leaves the sum of squared vertical distances from the line, and the sum of squared distances from the mean of y. |
| LeastSquares.DenominatorIsSpread | capura-analytics---professional-investment-time-series-tool/services/timeSeriesProcessor.ts:97 | The slope's denominator n·Σx² − (Σx)² equals n times the sum of squared deviations of x from their mean. |
| LeastSquares.DenominatorPositive | capura-analytics---professional-investment-time-series-tool/services/timeSeriesProcessor.ts:97 | Any two distinct x values make the denominator strictly positive, so the slope is a finite number. |
| LeastSquares.DenominatorZeroIffConstant | capura-analytics---professional-investment-time-series-tool/services/timeSeriesProcessor.ts:97 | The denominator is zero exactly when all x values are equal: this is the one case in which the source's slope is not a number. |
| LeastSquares.R2InUnitInterval | capura-analytics---professional-investment-time-series-tool/services/timeSeriesProcessor.ts:97-109 | Whenever R² is a number it lies between 0 and 1. |
| LeastSquares.ResidualAtMostTotal | capura-analytics---professional-investment-time-series-tool/services/timeSeriesProcessor.ts:102-108 | The fitted line leaves at most the squared error of the horizontal line at the mean of y: ssRes ≤ ssTot. |
| LeastSquares.ResidualDecomposition | capura-analytics---professional-investment-time-series-tool/services/timeSeriesProcessor.ts:97-108 | n·ssRes = n·ssTot − slope²·(n·Σx² − (Σx)²): the fit removes exactly the variation the slope explains. |
| LeastSquares.ExactLine | capura-analytics---professional-investment-time-series-tool/services/timeSeriesProcessor.ts:84-111 | Points lying on y = a·x + b, with two distinct x, are fitted with slope a. R² is 1, except for a flat line (a = 0), where ssTot is 0 and R² is not a number. |
| LeastSquares.ExactLineSlope | capura-analytics---professional-investment-time-series-tool/services/timeSeriesProcessor.ts:97 | The closed-form slope of points on y = a·x + b is a. |
| LeastSquares.ExactLineIntercept | capura-analytics---professional-investment-time-series-tool/services/timeSeriesProcessor.ts:98 | The intercept fitted to points on y = a·x + b, with x not constant, is b. |
| LeastSquares.ExactLineResidual | capura-analytics---professional-investment-time-series-tool/services/timeSeriesProcessor.ts:104-106 | Points lying on any line y = a·x + b, with x not constant, leave ssRes = 0 about the fitted line. |
| LeastSquares.ExactLineTotal | capura-analytics---professional-investment-time-series-tool/services/timeSeriesProcessor.ts:101-107 | For points on y = a·x + b with x not constant, ssTot is zero exactly when a = 0. |
| Autocorrelation.CalculateACF | capura-analytics---professional-investment-time-series-tool/services/timeSeriesProcessor.ts:114-131 | Returns min(maxLag, n − 1) + 1 entries (none for an empty series or a negative maxLag). Entry k carries lag k, so lags are 0, 1, 2, … in order, and its correlation is `Correlation(values, k)`. |
| Autocorrelation.LaggedSum | capura-analytics---professional-investment-time-series-tool/services/timeSeriesProcessor.ts:121-124 | The inner loop sums the products of deviations from the mean of the pairs lag apart. |
| Autocorrelation.LastLag | capura-analytics---professional-investment-time-series-tool/services/timeSeriesProcessor.ts:120 | The last reported lag is the smaller of maxLag and n − 1: it is at most both and equal to one of them. |
| Autocorrelation.LagCount | capura-analytics---professional-investment-time-series-tool/services/timeSeriesProcessor.ts:120 | The number of reported lags never exceeds n, and is zero exactly for an empty series or a negative maxLag. |
| Autocorrelation.Variance | capura-analytics---professional-investment-time-series-tool/services/timeSeriesProcessor.ts:117 | The variance is non-negative, and n times it is the sum of squared deviations from the mean. |
| Autocorrelation.LagZeroIsOne | capura-analytics---professional-investment-time-series-tool/services/timeSeriesProcessor.ts:116-128 | When the variance is non-zero, the lag-0 correlation is 1. |
| Autocorrelation.ConstantSeries | capura-analytics---professional-investment-time-series-tool/services/timeSeriesProcessor.ts:116-128 | A constant series has variance 0, and its correlation at every lag is reported as 0. |
| Autocorrelation.VarianceZeroIffConstant | capura-analytics---professional-investment-time-series-tool/services/timeSeriesProcessor.ts:116-128 | The variance is zero exactly for a constant series. In that case every correlation is 0. |
| Autocorrelation.CorrelationBounded | capura-analytics---professional-investment-time-series-tool/services/timeSeriesProcessor.ts:117-128 | Every autocorrelation lies in [−1, 1]. |
| Autocorrelation.LaggedBound | capura-analytics---professional-investment-time-series-tool/services/timeSeriesProcessor.ts:121-125 | The lagged covariance sum is bounded in absolute value by the sum of squared deviations (Cauchy–Schwarz for a shifted copy). |
| Decomposition.ComputeTrend | capura-analytics---professional-investment-time-series-tool/services/timeSeriesProcessor.ts:14-32 | The array filled with null and then set inside the loop equals `Trend`: the window average at every index whose window fits, and null elsewhere. |
| Decomposition.Window | capura-analytics---professional-investment-time-series-tool/services/timeSeriesProcessor.ts:18-29 | The inner loop's weighted sum over j = i − h … i + h equals the window sum, with both ends halved for an even period. |
| Decomposition.OddWindowSum | capura-analytics---professional-investment-time-series-tool/services/timeSeriesProcessor.ts:27-29 | For an odd period, the window sum is the plain sum of the values in the window. |
| Decomposition.EvenWindowSum | capura-analytics---professional-investment-time-series-tool/services/timeSeriesProcessor.ts:19-24 | For an even period, the window sum is the plain sum less half the first value and less half the last. |
| Decomposition.TrendIsCenteredAverage | capura-analytics---professional-investment-time-series-tool/services/timeSeriesProcessor.ts:15-31 | trend[i] is the sum of values[i − h … i + h] over period for an odd period. For an even period the two end values of that window count half. |
| Decomposition.TrendIndices | capura-analytics---professional-investment-time-series-tool/services/timeSeriesProcessor.ts:67-68 | The indices with a defined trend are exactly h, h + 1, …, n − h − 1, in order. |
| Decomposition.DefinedIndicesTo | capura-analytics---professional-investment-time-series-tool/services/timeSeriesProcessor.ts:67 | Every collected index is in range and has a defined trend. |
| Decomposition.Detrend | capura-analytics---professional-investment-time-series-tool/services/timeSeriesProcessor.ts:35-38 | The detrended value is defined exactly where the trend is, and adding the trend back gives the value. |
| Decomposition.PhaseBuckets | capura-analytics---professional-investment-time-series-tool/services/timeSeriesProcessor.ts:42-47 | The buckets filled by the push loop equal `Buckets`: one per phase, holding the defined detrended values of that phase in index order. |
| Decomposition.BucketMembers | capura-analytics---professional-investment-time-series-tool/services/timeSeriesProcessor.ts:43-46 | A number is in the bucket of phase p exactly when some non-null detrended entry at an index ≡ p (mod period) holds it. |
| Decomposition.PhaseAverageBounds | capura-analytics---professional-investment-time-series-tool/services/timeSeriesProcessor.ts:49-51 | When phase p has at least one defined detrended value, its average lies between any lower and upper bounds of those values; in particular it is c when they all equal c. The claim is stated directly over the detrended series, not over the bucket. |
| Decomposition.EmptyPhaseAverage | capura-analytics---professional-investment-time-series-tool/services/timeSeriesProcessor.ts:49-51 | A phase with no defined detrended value, such as one whose indices all lie at the edges, averages to 0. |
| Decomposition.Centered | capura-analytics---professional-investment-time-series-tool/services/timeSeriesProcessor.ts:53-55 | The centred phase values have one entry per phase and sum to zero. Each differs from phase 0 by exactly as much as its average does, so centring is the one shift of the averages that sums to zero. |
| Decomposition.Broadcast | capura-analytics---professional-investment-time-series-tool/services/timeSeriesProcessor.ts:57 | The seasonal series has one entry per observation. It starts with the centred profile (or a prefix of it, for a series shorter than one period), and repeats with the period: the entry at i + period equals the entry at i. |
| Decomposition.BroadcastCycleSum | capura-analytics---professional-investment-time-series-tool/services/timeSeriesProcessor.ts:57 | Any period consecutive entries of the repeated profile sum to the sum of the profile, whatever phase they start at. |
| Decomposition.SeasonalRepeats | capura-analytics---professional-investment-time-series-tool/services/timeSeriesProcessor.ts:57 | seasonal[i] == seasonal[i + period] whenever both are in range. |
| Decomposition.Residual | capura-analytics---professional-investment-time-series-tool/services/timeSeriesProcessor.ts:60-64 | The residual has one entry per observation and is defined exactly where the trend is. Adding trend and seasonal back to it gives the value. |
| Decomposition.SeasonalCycleSumsToZero | capura-analytics---professional-investment-time-series-tool/services/timeSeriesProcessor.ts:53-57 | Any full cycle of the seasonal component, starting anywhere, sums to zero. |
| Decomposition.Decompose | capura-analytics---professional-investment-time-series-tool/services/timeSeriesProcessor.ts:8-81 | The step-by-step pipeline returns exactly the decomposition `Decomposed(data, period)`, whose properties are the lemmas below. |
| Decomposition.DecompositionIsAdditive | capura-analytics---professional-investment-time-series-tool/services/timeSeriesProcessor.ts:9-81 | All components have length n and are index-aligned. `original` and `dates` are the input's, unchanged. The trend is defined exactly when h ≤ i < n − h, and the residual exactly where the trend is. Where both are defined, original = trend + seasonal + residual. |
| Decomposition.ShortSeriesFallback | capura-analytics---professional-investment-time-series-tool/services/timeSeriesProcessor.ts:67-71 | With n ≤ 2h no trend point exists, so the regression gets no points and slope and R² are both 0. |
| Decomposition.SinglePointFit | capura-analytics---professional-investment-time-series-tool/services/timeSeriesProcessor.ts:67-71 | With n = 2h + 1 there is a single trend point, the slope's denominator is zero, and slope and R² are not numbers. |
| Decomposition.SlopeDefined | capura-analytics---professional-investment-time-series-tool/services/timeSeriesProcessor.ts:67-71 | With n ≥ 2h + 2 the trend points have distinct x coordinates, so the slope is always a number. |
| Decomposition.LinearTrend | capura-analytics---professional-investment-time-series-tool/services/timeSeriesProcessor.ts:15-31 | The moving average of a series on a straight line reproduces the series wherever the window fits, for odd and even periods alike. |
| Decomposition.ExactTrendSeasonal | capura-analytics---professional-investment-time-series-tool/services/timeSeriesProcessor.ts:34-57 | If the trend equals the value wherever it is defined, the seasonal component is zero everywhere. |
| Decomposition.ExactTrendResidual | capura-analytics---professional-investment-time-series-tool/services/timeSeriesProcessor.ts:60-64 | If the trend equals the value wherever it is defined, the residual is 0 there and null elsewhere. |
| Decomposition.LinearTrendLine | capura-analytics---professional-investment-time-series-tool/services/timeSeriesProcessor.ts:67-71 | For a series on y = a·i + b with at least two trend points, the fit through the trend has slope a. R² is 1, or not a number when a = 0. |
| Decomposition.LinearDecomposition | capura-analytics---professional-investment-time-series-tool/services/timeSeriesProcessor.ts:8-81 | A series on a straight line (a constant series when a = 0) is decomposed into itself as trend wherever the window fits, zero seasonal, and zero residual. With at least two trend points, the slope is the line's own slope and R² is 1 (not a number for a constant series). |

## Left out

- Floating point: values are reals, so IEEE rounding, overflow and the
  non-associativity of the accumulating sums are not modelled. The NaN or
  infinity that a division by zero produces is `None`:
  - the slope, intercept and R² when all x are equal
    (`Regression` gives `Fit(None, None)`);
  - R² when ssTot is zero. JavaScript gives NaN or −Infinity there; the model
    gives `None` in both cases.
- Decomposition.Decompose: requires period ≥ 1. With period 0 the source
  divides by zero for the trend and then pushes into a bucket at index NaN,
  which throws for any non-empty series; that failure is not modelled.
- Decomposition.Decompose: the period is a natural number. The default
  argument 7, and fractional or negative periods (which a JavaScript
  `number` admits), are not modelled.
- Autocorrelation.CalculateACF: maxLag is an integer. The default argument 30
  and fractional values are not modelled. On an empty series the source
  computes a NaN mean and variance but reports no lag; the model reports no
  lag as well, and its placeholder mean and variance are never read.
- `Math.pow(d, 2)` is modelled as `d * d`.
- Dates are opaque: `DataPoint<D>` carries a date of any type `D` through to
  `dates` unchanged.
- The Σy² accumulated in `linearRegression` is computed (`Sums`) but, as in
  the source, never used. The intercept is computed but is not part of the
  result, as in the source.
- `types.ts` types `original` and `seasonal` as nullable arrays. Both are
  always full of numbers, so the model uses `seq<real>` for them.
- The user interface (`App.tsx`) is not part of this model:
  - spreadsheet reading and date parsing;
  - the fewer-than-five-rows guard before decomposing;
  - the choice of period;
  - charts.
- The text generation service (`services/geminiService.ts`) is not part of
  this model: it is a network call whose output is free text.

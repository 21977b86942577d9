# Price-series regression and signal analysis, modelled in Dafny

The repository analyses a historical price series in two programs.

`regression.cpp` reads a `Date,Price,...` CSV file and skips its header line. It keeps every row whose second
comma-separated field parses as a number, and numbers the kept rows as days 1..n. It then fits the
least-squares line price = slope · day + intercept with the closed form over the sums Σx, Σy, Σxy and Σx².
Finally it predicts the price of day n + 1.

`signalviz.py` does three analyses:

- It estimates the Hurst exponent from the standard deviation τ of lag differences, using a log-log line
  fit, and prints a classification of the estimate.
- It computes the positive-frequency half of the amplitude spectrum of the demeaned series.
- It stores a trailing rolling sample variance as a new column of the price table.

The Dafny project has four modules:

- `Wrappers` (`wrappers.dfy`): `Option` and `Result`.
- `Stats` (`stats.dfy`): sums, means, population and sample variance, and the "spread" identity
  n·Σx² − (Σx)² = n·Σ(x − mean)².
- `Regression` (`regression.dfy`): the C++ program.
  - The `readCSV` loop is a method proved against a line filter.
  - `assignXIndices` works in place on an array.
  - The `linearRegression` loop is proved against the closed form.
  - `predict` is a function, and `main` is a method that composes the steps.
  - The meaning of the fit is proved separately. It fails exactly when all x coincide, it recovers exact lines,
    it solves the normal equations and it minimises the squared error.
- `SignalViz` (`signalviz.dfy`): the Python analyses.
  - The lags, lag differences, τ and the doubled fitted slope.
  - The classification.
  - The `fftfreq` layout and the positive-bin mask.
  - Pandas' trailing rolling variance, and a `PriceFrame` class whose method stores the rolling-variance
    column.

Doubles are modelled as exact reals. Library primitives the code calls are parameters of the model:

- `std::stod` is `parse: string -> Option<real>` (None when it throws).
- `np.log` is `log`, and the square root inside `np.std` is `sqrt`.
- `|fft(x)[k]|` is `magnitude(x, k)`.

Lemmas about them assume only what the lemma states, such as `StrictlyIncreasing(log)` or `IsSqrt(sqrt)`.

### Edge behaviour of the code

- **Rolling window.** `plot_rolling_variance` (signalviz.py:93) passes the window straight to pandas. A window
  of 0 or 1 leaves every entry undefined, because the sample variance needs two values, and only a negative
  window raises (`RollingVariance`). main uses the default window of 20 (signalviz.py:148,
  `PriceFrame.PlotDefaultRollingVariance`).
- **Hurst estimate.** `hurst_exponent` (signalviz.py:112-116) neither filters the lags nor checks the length
  of the series.
  - With at most 5 values there are no lags and `np.polyfit` raises (`HurstNeedsLags`).
  - With 6 or 7 values there is exactly one lag. numpy then returns a rank-deficient minimum-norm answer
    (`HurstOfSingleLag`).
  - τ = 0 reaches `np.log` unfiltered.
- **Spectrum.** In `plot_fft` (signalviz.py:62-77) only an empty series fails, because `fft` raises on it.
  One value gives an empty spectrum. For even n, `fftfreq` lays the bin at ½ cycle per sample out as −½, so
  the positive mask drops it, and no retained frequency reaches ½ (`RetainedBelowNyquist`).
- **Main program.** `main` (regression.cpp:86-91) refuses an empty data set with status 1. A data set of
  exactly one point reaches `linearRegression`, whose zero denominator ends the program with `exit(1)`
  (regression.cpp:65-67).

## Model

| member | source | states |
|---|---|---|
| Regression.PriceField | regression.cpp:28-30 | the two `getline` calls succeed exactly when the line has a comma with at least one character after it; the price field then holds no comma |
| Regression.CommaIndex | regression.cpp:30 | the position where `getline(ss, date, ',')` stops: the first comma, or the end of the line when there is none |
| Regression.PriceFieldOfRow | regression.cpp:28-30 | a row `date,price` or `date,price,more` yields exactly `price` as the price field |
| Regression.LineValue | regression.cpp:28-36 | the price a line contributes: `stod` of its price field, none when the field is missing or `stod` throws; PriceField and PriceFieldOfRow state what the field is |
| Regression.KeptPoints | regression.cpp:27-42 | the points pushed for the lines after the header, at most one per line; KeptIndices and KeptPointsAreParsedLines state which lines and which prices |
| Regression.ReadRows | regression.cpp:24-43 | readCSV's result: the header line is skipped and the rest filtered; ReadCSV is proved to return it |
| Regression.KeptIndices | regression.cpp:27-42 | the indices of the lines that yield a price: strictly increasing, each such line, and every such line |
| Regression.KeptPointsAreParsedLines | regression.cpp:30-36 | point k is the parsed price of line KeptIndices[k], one point per kept line |
| Regression.KeptPointsAppend | regression.cpp:27-42 | filtering distributes over concatenation of lines, so file order is kept |
| Regression.ReadCSV | regression.cpp:24-43 | the loop skips the header and returns exactly the filtered points of the remaining lines |
| Regression.Numbered | regression.cpp:47-51 | the points after assignXIndices; NumberedColumns and NumberedXsEqualIff state its columns |
| Regression.AssignXIndices | regression.cpp:47-51 | in place: point i gets x = i + 1 and keeps its price; the length is unchanged |
| Regression.NumberedColumns | regression.cpp:47-51 | numbering keeps every price in order and gives day i + 1 to point i |
| Regression.NumberedXsEqualIff | regression.cpp:47-51 | the day numbers all coincide exactly when there are fewer than two points |
| Regression.FitFromSums | regression.cpp:64-71 | the closed form over n and the four sums, failing on a zero denominator; FitIsClosedForm states its quotients |
| Regression.Fit | regression.cpp:55-72 | linearRegression's result for the points; FitFailsIffAllXEqual, FitRecoversLine, FitPassesThroughMeans, NormalEquations and FitMinimizesSquaredError state what it means |
| Regression.LinearRegression | regression.cpp:55-72 | the accumulation loop returns the closed-form fit of the whole data set, or the zero-denominator error |
| Regression.EmptyDenominator | regression.cpp:56-65 | with no points the count, every sum and so the denominator are zero, which is the exit path at line 65 |
| Regression.FitIsClosedForm | regression.cpp:64-70 | a fit that succeeded had points and a non-zero denominator, and its slope and intercept are the closed-form quotients of the sums |
| Stats.Spread | regression.cpp:64 | n·Σx² − (Σx)² is never negative and is zero exactly when all x are equal |
| Regression.DenominatorSign | regression.cpp:64 | the fit's denominator is non-negative and zero exactly when all x coincide |
| Regression.FitFailsIffAllXEqual | regression.cpp:64-68 | linearRegression stops with an error exactly when every x is the same |
| Regression.FitRecoversLine | regression.cpp:69-70 | points on a line y = a·x + b with two distinct x are fitted with slope a and intercept b |
| Regression.FitRecoversAffine | regression.cpp:55-72 | a y column that is a·x + b over an x column with two distinct values is fitted with slope a and intercept b |
| Regression.FitPassesThroughMeans | regression.cpp:70 | a successful fit has points, and its line passes through (mean x, mean y) |
| Regression.FitSolvesNormalEquations | regression.cpp:57-70 | the fitted coefficients satisfy Σy = m·Σx + b·n and Σxy = m·Σx² + b·Σx |
| Regression.NormalEquations | regression.cpp:69-70 | the fitted residuals sum to zero and are orthogonal to x |
| Regression.FitMinimizesSquaredError | regression.cpp:55-72 | the fitted line's squared error is at most that of any other line |
| Regression.SumOfDays | regression.cpp:49 | day numbers 1..n sum to n(n+1)/2 |
| Regression.SumOfSquaredDays | regression.cpp:49 | squared day numbers sum to n(n+1)(2n+1)/6 |
| Regression.DaySumX | regression.cpp:47-59 | after numbering, linearRegression's Σx is n(n+1)/2 |
| Regression.DaySumXX | regression.cpp:47-62 | after numbering, linearRegression's Σx² is n(n+1)(2n+1)/6 |
| Regression.NumberedDenominator | regression.cpp:64 | over day numbers the denominator is n²(n² − 1)/12 |
| Regression.Predict | regression.cpp:75-77 | predict: slope · x + intercept; PredictOnLine and FitPassesThroughMeans state it on a given line and on the fit |
| Regression.PredictOnLine | regression.cpp:75-77 | predict with coefficients (a, b) at x is a·x + b |
| Regression.ForecastOf | regression.cpp:84-98 | main's outcome for a file; Run is proved to return it, and ForecastFailsIff, ForecastOfFit and ForecastOfLinearTrend state what it is |
| Regression.Run | regression.cpp:84-98 | main after the argument check: read, refuse empty data, number in place, fit and predict day n + 1 |
| Regression.ForecastFailsIff | regression.cpp:86-91 | the program stops with an error exactly when fewer than two lines yield a price, reporting no data exactly when none does |
| Regression.TrendFit | regression.cpp:47-72 | two or more prices a·d + b on days d = 1..n are fitted as exactly the line (a, b) |
| Regression.ForecastOfFit | regression.cpp:90-98 | whenever the numbered points are fitted, main predicts on the fitted line at day n + 1 |
| Regression.ForecastOfLinearTrend | regression.cpp:84-98 | a file whose n ≥ 2 prices lie on a·d + b over days d = 1..n is fitted as (a, b) and forecast at day n + 1 as predict((a, b), n + 1), whose value is a·(n + 1) + b |
| Stats.PopulationVariance | signalviz.py:113 | np.std's variance (divisor = count) is non-negative and zero exactly for equal values |
| Stats.SampleVariance | signalviz.py:93 | the rolling variance (divisor = count − 1) is non-negative and zero exactly for equal values |
| Stats.DemeanedSumsToZero | signalviz.py:71 | the demeaned series handed to the transform sums to zero |
| SignalViz.Lags | signalviz.py:112 | `range(2, min(100, len(ts)//2))`; LagsMembership, LagsIncreasing and LagsCount state its contents |
| SignalViz.LagsMembership | signalviz.py:112 | the lags are exactly the integers 2 ≤ l < min(100, ⌊n/2⌋) |
| SignalViz.LagsIncreasing | signalviz.py:112 | the lags are strictly increasing |
| SignalViz.LagsCount | signalviz.py:112 | no lags exactly for n ≤ 5, two or more exactly for n ≥ 8, never more than 98 |
| SignalViz.SubtractElements | signalviz.py:113 | np.subtract is element-wise |
| SignalViz.LagDifferences | signalviz.py:113 | `np.subtract(ts[lag:], ts[:-lag])`; LagDifferencesShape states its length and entries |
| SignalViz.Tau | signalviz.py:113 | `np.std` of the lag differences; TauSquared states its sign, its square and when it is zero |
| SignalViz.LagDifferencesShape | signalviz.py:113 | the lag differences have n − l entries, entry t being ts[t + l] − ts[t] |
| SignalViz.TauSquared | signalviz.py:113 | τ is non-negative, τ² is the population variance of the differences, and τ = 0 exactly when they are all equal |
| SignalViz.LogLogPoints | signalviz.py:115 | the points (log l, log τ(l)) handed to `np.polyfit`, one per lag |
| SignalViz.PolyfitSlope | signalviz.py:115 | `np.polyfit(x, y, 1)[0]`; PolyfitOfFit, SlopeIsLeastSquares, SlopeOfLine and PolyfitOfSinglePoint state its value |
| SignalViz.PolyfitOfSinglePoint | signalviz.py:115 | on one point (x, y) numpy's rank-deficient slope is y/(2x), and there is none when x = 0 |
| SignalViz.PolyfitOfFit | signalviz.py:115 | when the least-squares fit succeeds, np.polyfit's slope is its slope |
| SignalViz.SlopeIsLeastSquares | signalviz.py:115 | with distinct x the polyfit slope belongs to the line of least squared error |
| SignalViz.SlopeOfLine | signalviz.py:115 | points on y = h·x + b with distinct x have polyfit slope h |
| SignalViz.Hurst | signalviz.py:106-117 | `hurst_exponent` as written; HurstFromSlope, HurstNeedsLags, HurstOfSingleLag and HurstIsTwiceLeastSquaresSlope state it for every length |
| SignalViz.HurstOfPoints | signalviz.py:115-116 | twice the polyfit slope of given points; HurstOfPointsSlope states it |
| SignalViz.HurstOfPointsSlope | signalviz.py:116 | a polyfit slope s becomes the estimate 2s |
| SignalViz.HurstFromSlope | signalviz.py:116 | the estimate is twice the polyfit slope |
| SignalViz.HurstNeedsLags | signalviz.py:112-115 | the estimate raises for lack of lags exactly when the series has at most five values |
| SignalViz.HurstOfSingleLag | signalviz.py:112-116 | with six or seven values the estimate is log τ(2) / log 2, or undefined if log 2 were 0 |
| SignalViz.LogLagsDistinct | signalviz.py:112-115 | from eight values on, a strictly increasing log gives distinct log-lags |
| SignalViz.HurstIsTwiceLeastSquaresSlope | signalviz.py:112-116 | from eight values on, the estimate is twice the slope of the least-squares line of log τ against log lag |
| SignalViz.PowerLawSlope | signalviz.py:113-115 | if τ(l) = e^b·l^h over every lag, the fitted slope is h |
| SignalViz.HurstOfPowerLaw | signalviz.py:113-116 | as written, a series with τ(l) = e^b·l^h is estimated as 2h |
| SignalViz.BrownianScalingReadsAsTrending | signalviz.py:106-127 | as written, Brownian scaling τ ∝ √l is estimated as 1.0 and classified as trending |
| SignalViz.CorrectedHurst | signalviz.py:106-116 | the evidently intended estimate, the undoubled slope; CorrectedHurstOfPowerLaw and CorrectedBrownianScaling state it |
| SignalViz.CorrectedHurstOfPowerLaw | signalviz.py:106-116 | the undoubled slope recovers h, and so lies in [0, 1] when h does |
| SignalViz.CorrectedBrownianScaling | signalviz.py:106-125 | the undoubled slope classifies Brownian scaling as a random walk |
| SignalViz.Classify | signalviz.py:123-128 | mean-reverting exactly below 0.5, random walk exactly at 0.5, trending exactly above |
| SignalViz.ClassifyMonotone | signalviz.py:123-128 | a larger estimate never gives a less persistent indication |
| SignalViz.FftFreq | signalviz.py:72 | `fftfreq(n, d=1)`: n bins, 0 and the positive ones first, then the negative ones; FftFreqPositiveIff states its sign |
| SignalViz.FftFreqPositiveIff | signalviz.py:72-75 | an fftfreq bin is positive exactly for bins 1..⌊(n − 1)/2⌋ |
| SignalViz.PositiveMask | signalviz.py:75 | `xf > 0`, one flag per bin |
| SignalViz.Masked | signalviz.py:76-77 | boolean indexing `v[pos_mask]`; MaskedRange states what it keeps |
| SignalViz.Demeaned | signalviz.py:71 | `prices - np.mean(prices)`, as long as the prices; DemeanedSumsToZero states that it sums to zero |
| SignalViz.PositiveSpectrum | signalviz.py:62-77 | plot_fft up to the plot; PositiveSpectrumShape and RetainedBelowNyquist state its bins |
| SignalViz.PositiveBins | signalviz.py:71-77 | the mask keeps exactly bins 1..⌊(n − 1)/2⌋ of both the frequencies and the amplitudes of the demeaned series |
| SignalViz.MaskedRange | signalviz.py:75-77 | boolean indexing by a mask set on one contiguous range keeps exactly that range |
| SignalViz.PositiveSpectrumShape | signalviz.py:62-77 | ⌊(n − 1)/2⌋ bins remain, with frequencies k/n for k = 1, 2, …, positive and strictly increasing, each paired with the amplitude of the demeaned series at bin k |
| SignalViz.RetainedBelowNyquist | signalviz.py:72-77 | every retained frequency is below ½ cycle per sample |
| SignalViz.RollingVariance | signalviz.py:93 | `rolling(window).var()`, raising on a negative window; RollingVarianceShape states every entry |
| SignalViz.RollingVarianceShape | signalviz.py:93 | the column is aligned with the series; entry i is defined exactly when a full window of at least two ends at i, and is then non-negative and zero exactly for equal values |
| SignalViz.RollingVarianceOfConstant | signalviz.py:93 | a constant series has zero variance at every defined entry |
| SignalViz.PairVariance | signalviz.py:93 | the sample variance of two values is half their squared difference |
| SignalViz.RollingVarianceExample | signalviz.py:93 | 1, 2, 3, 4 with window 2 gives undefined, ½, ½, ½ |
| SignalViz.PriceFrame.PlotRollingVariance | signalviz.py:89-93 | stores the rolling variance of the Price column as the RollingVariance column, keeps the prices, and stores nothing for a negative window |
| SignalViz.PriceFrame.PlotDefaultRollingVariance | signalviz.py:89-93 | with main's window of 20 (signalviz.py:148) nothing raises; the stored column is aligned with the prices, undefined for the first 19 entries and the variance of the 20 prices ending at each later one |

## Left out

- File and console I/O. This covers opening the CSV, whose failure is `exit(1)` in readCSV, and `argc`
  handling. It also covers printing of results, all plotting, the data download of `apiaggregator.py`, and
  the pandas CSV loading and date sorting of `load_csv_data`. These are reading, writing and drawing, not
  computation.
- Floating-point rounding, overflow, NaN and infinity. Every double is an exact real. In particular:
  - `np.log(0)` for τ = 0 is just `log(0.0)` of the abstract `log`;
  - NaN input values that pandas would skip are not modelled.
- The conversion `std::stod` is abstract (`parse`). Its prefix parsing, whitespace handling and the
  exceptions it throws are whatever `parse` returns.
- The FFT itself is abstract (`magnitude`). Only the demeaning, the bin layout and the positive mask are
  modelled.
- The rolling variance is given by its definition, not by pandas' online update, which differs only in
  rounding.
- Regression.KeptPoints: the source leaves x uninitialised until assignXIndices; the model stores 0.0 there.
- SignalViz.PolyfitSlope: when all log-lags are equal, the model follows numpy's column-scaled minimum-norm
  least squares. When that common value is 0, it reports `DegenerateFit` in place of numpy's
  division-by-zero NaNs. With a strictly increasing log this arises only for a single lag.
- SignalViz.PriceFrame: the table holds only the Price column and the stored RollingVariance column. The Date
  column serves only the plot.

## Findings

| source | as written | input that shows it | evidently intended | confidence | as-written member | corrected member |
|---|---|---|---|---|---|---|
| signalviz.py:113-116 | τ is the standard deviation of the lag differences, and the log-log slope is then doubled. This reports 2H for a series whose τ grows as l^H, even though the docstring promises a value between 0 and 1. | any series of at least eight values whose lag-difference deviation grows as √l (Brownian scaling, H = ½) is estimated as 1.0 and labelled trending | either the slope itself (τ = std), or τ = √std before doubling; both give H | medium; not executed | SignalViz.BrownianScalingReadsAsTrending | SignalViz.CorrectedBrownianScaling |

The as-written estimate `SignalViz.Hurst` is kept as the model of the program. `SignalViz.CorrectedHurst`
is the intended estimate: it recovers the exponent of a power law (`SignalViz.CorrectedHurstOfPowerLaw`).

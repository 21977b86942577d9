/** The series analyses of signalviz.py: the Hurst-exponent estimate and its
    classification, the positive half of the amplitude spectrum, and the
    trailing rolling variance stored into the price frame.

    numpy, scipy and pandas primitives that the model cannot see are
    parameters: `log` (np.log), `sqrt` (the square root inside np.std) and
    `magnitude` (|fft(x)[k]|). Arithmetic is over exact reals. */
module SignalViz {
  import opened Wrappers
  import opened Stats
  import Regression

  datatype Error =
    | NoLags          // np.polyfit raises on empty input
    | DegenerateFit   // the rank-deficient fit numpy cannot scale (all log-lags 0)
    | EmptySeries     // fft of an empty array raises
    | NegativeWindow  // pandas refuses a negative rolling window

  // ---------------------------------------------------------------------
  // Hurst exponent (signalviz.py:106-117)
  // ---------------------------------------------------------------------

  /** The exclusive upper bound 100 on the lags. */
  const MaxLag: nat := 100

  function Min(a: int, b: int): int
  {
    if a < b then a else b
  }

  /** `range(2, min(100, n // 2))`. */
  function Lags(n: nat): (r: seq<nat>)
  {
    var hi := Min(MaxLag, n / 2);
    if hi <= 2 then [] else seq(hi - 2, k requires 0 <= k < hi - 2 => k + 2)
  }

  /** The lags are exactly the integers 2 <= l < min(100, n/2). */
  lemma LagsMembership(n: nat, l: int)
    ensures l in Lags(n) <==> 2 <= l < Min(MaxLag, n / 2)
  {
    if 2 <= l < Min(MaxLag, n / 2) {
      assert Lags(n)[l - 2] == l;
    }
  }

  /** They come in strictly increasing order, without repetition. */
  lemma LagsIncreasing(n: nat)
    ensures forall i, j :: 0 <= i < j < |Lags(n)| ==> Lags(n)[i] < Lags(n)[j]
  {
  }

  /** The lag set is empty exactly for series of at most five values, and
      holds two or more lags exactly from eight values on. */
  lemma LagsCount(n: nat)
    ensures |Lags(n)| == 0 <==> n <= 5
    ensures |Lags(n)| >= 2 <==> n >= 8
    ensures |Lags(n)| <= 98
  {
    var hi := Min(MaxLag, n / 2);
    if hi > 2 {
      assert |Lags(n)| == hi - 2;
    }
  }

  /** Element-wise `np.subtract(a, b)` of two equally long arrays. */
  function Subtract(a: seq<real>, b: seq<real>): (d: seq<real>)
    requires |a| == |b|
    ensures |d| == |a|
  {
    if |a| == 0 then [] else Subtract(a[..|a| - 1], b[..|b| - 1]) + [a[|a| - 1] - b[|b| - 1]]
  }

  lemma {:induction false} SubtractElements(a: seq<real>, b: seq<real>)
    requires |a| == |b|
    ensures forall t :: 0 <= t < |a| ==> Subtract(a, b)[t] == a[t] - b[t]
  {
    if |a| > 0 {
      SubtractElements(a[..|a| - 1], b[..|b| - 1]);
    }
  }

  /** `np.subtract(ts[lag:], ts[:-lag])`. */
  function LagDifferences(ts: seq<real>, lag: nat): seq<real>
    requires 0 < lag <= |ts|
  {
    Subtract(ts[lag..], ts[..|ts| - lag])
  }

  /** The difference sequence has n - lag entries, entry t being the change
      over lag steps starting at t. */
  lemma LagDifferencesShape(ts: seq<real>, lag: nat)
    requires 0 < lag <= |ts|
    ensures |LagDifferences(ts, lag)| == |ts| - lag
    ensures forall t :: 0 <= t < |ts| - lag ==> LagDifferences(ts, lag)[t] == ts[t + lag] - ts[t]
  {
    SubtractElements(ts[lag..], ts[..|ts| - lag]);
  }

  /** `sqrt` returns the non-negative square root of a non-negative value. */
  ghost predicate IsSqrt(sqrt: real -> real)
  {
    forall v :: v >= 0.0 ==> sqrt(v) >= 0.0 && sqrt(v) * sqrt(v) == v
  }

  /** τ(lag): `np.std` of the lag differences at its default ddof = 0. */
  function Tau(ts: seq<real>, lag: nat, sqrt: real -> real): real
    requires 0 < lag < |ts|
  {
    LagDifferencesShape(ts, lag);
    sqrt(PopulationVariance(LagDifferences(ts, lag)))
  }

  /** τ² is the population variance (divisor = count) of the differences, and
      τ is zero exactly when every lag-step change is the same. */
  lemma TauSquared(ts: seq<real>, lag: nat, sqrt: real -> real)
    requires 0 < lag < |ts| && IsSqrt(sqrt)
    ensures Tau(ts, lag, sqrt) >= 0.0
    ensures Tau(ts, lag, sqrt) * Tau(ts, lag, sqrt) == PopulationVariance(LagDifferences(ts, lag))
    ensures Tau(ts, lag, sqrt) == 0.0 <==> AllEqual(LagDifferences(ts, lag))
  {
    LagDifferencesShape(ts, lag);
    var v := PopulationVariance(LagDifferences(ts, lag));
    var t := sqrt(v);
    assert t >= 0.0 && t * t == v;
    if t != 0.0 {
      SquarePositive(t, v);
    }
  }

  /** `np.log` is strictly increasing on the positive reals. */
  ghost predicate StrictlyIncreasing(log: real -> real)
  {
    forall a: real, b: real :: 0.0 < a < b ==> log(a) < log(b)
  }

  /** The point (log lag, log τ(lag)) of one lag. */
  function LogLogPoint(ts: seq<real>, log: real -> real, sqrt: real -> real, lag: nat): Regression.DataPoint
    requires 0 < lag < |ts|
  {
    Regression.DataPoint(log(lag as real), log(Tau(ts, lag, sqrt)))
  }

  /** The log-log points handed to `np.polyfit`, one per lag. */
  function LogLogPoints(ts: seq<real>, log: real -> real, sqrt: real -> real): (p: seq<Regression.DataPoint>)
    ensures |p| == |Lags(|ts|)|
  {
    var lags := Lags(|ts|);
    seq(|lags|, k requires 0 <= k < |lags| => LogLogPoint(ts, log, sqrt, lags[k]))
  }

  /** The degree-1 slope `np.polyfit(x, y, 1)[0]`. With two or more distinct
      x it is the least-squares slope (the closed form of regression.cpp).
      When every x is the same x0 the fit is rank-deficient and numpy returns
      the minimum-norm solution of its column-scaled system, whose slope is
      mean(y) / (2·x0); with x0 = 0 the scaling divides by zero. */
  function PolyfitSlope(p: seq<Regression.DataPoint>): Result<real, Error>
  {
    if |p| == 0 then Err(NoLags)
    else match Regression.Fit(p)
      case Ok(c) => Ok(c.slope)
      case Err(_) =>
        if p[0].x != 0.0 then Ok(Mean(Regression.Ys(p)) / (2.0 * p[0].x)) else Err(DegenerateFit)
  }

  /** `hurst_exponent`: twice the fitted slope of log τ against log lag. */
  function Hurst(ts: seq<real>, log: real -> real, sqrt: real -> real): Result<real, Error>
  {
    HurstOfPoints(LogLogPoints(ts, log, sqrt))
  }

  /** Twice the polyfit slope of the given (log lag, log τ) points. */
  function HurstOfPoints(p: seq<Regression.DataPoint>): Result<real, Error>
  {
    match PolyfitSlope(p)
    case Ok(slope) => Ok(2.0 * slope)
    case Err(e) => Err(e)
  }

  /** A polyfit slope is doubled into the estimate. */
  lemma HurstOfPointsSlope(p: seq<Regression.DataPoint>, slope: real)
    requires PolyfitSlope(p) == Ok(slope)
    ensures HurstOfPoints(p) == Ok(2.0 * slope)
  {
  }

  /** A fit that succeeds is the slope numpy reports. */
  lemma PolyfitOfFit(p: seq<Regression.DataPoint>, c: Regression.Coefficients)
    requires Regression.Fit(p) == Ok(c)
    ensures PolyfitSlope(p) == Ok(c.slope)
  {
    Regression.FitFailsIffAllXEqual(p);
  }

  /** Short series have no lags and the fit raises. */
  lemma HurstNeedsLags(ts: seq<real>, log: real -> real, sqrt: real -> real)
    ensures Hurst(ts, log, sqrt) == Err(NoLags) <==> |ts| <= 5
  {
    LagsCount(|ts|);
  }

  /** Six or seven values give the single lag 2. One point cannot fix a
      line; numpy's minimum-norm answer makes the estimate log τ(2) / log 2. */
  lemma HurstOfSingleLag(ts: seq<real>, log: real -> real, sqrt: real -> real)
    requires 6 <= |ts| <= 7
    ensures Hurst(ts, log, sqrt) ==
      if log(2.0) != 0.0 then Ok(log(Tau(ts, 2, sqrt)) / log(2.0)) else Err(DegenerateFit)
  {
    var p := LogLogPoints(ts, log, sqrt);
    assert Lags(|ts|) == [2];
    assert p == [LogLogPoint(ts, log, sqrt, 2)];
    var x := log(2.0);
    var y := log(Tau(ts, 2, sqrt));
    PolyfitOfSinglePoint(p);
    if x != 0.0 {
      HurstOfPointsSlope(p, y / (2.0 * x));
      HalvedRatio(y, x);
    }
  }

  /** On a single point numpy's rank-deficient solution gives slope y/(2x),
      and none when x is zero. */
  lemma PolyfitOfSinglePoint(p: seq<Regression.DataPoint>)
    requires |p| == 1
    ensures PolyfitSlope(p) ==
      if p[0].x != 0.0 then Ok(p[0].y / (2.0 * p[0].x)) else Err(DegenerateFit)
  {
    var y := p[0].y;
    assert Regression.Xs(p) == [p[0].x] && Regression.Ys(p) == [y];
    Regression.FitFailsIffAllXEqual(p);
    assert Mean([y]) == y by {
      assert [y][..0] == [];
      assert Sum([y]) == Sum([]) + y;
    }
  }

  lemma HalvedRatio(y: real, x: real)
    requires x != 0.0
    ensures 2.0 * (y / (2.0 * x)) == y / x
  {
  }

  /** With two or more lags and a strictly increasing log, the log-lags are
      distinct, so the fit is the ordinary least-squares line. */
  lemma LogLagsDistinct(ts: seq<real>, log: real -> real, sqrt: real -> real)
    requires StrictlyIncreasing(log) && |ts| >= 8
    ensures !AllEqual(Regression.Xs(LogLogPoints(ts, log, sqrt)))
  {
    LagsCount(|ts|);
    var p := LogLogPoints(ts, log, sqrt);
    var xs := Regression.Xs(p);
    assert Lags(|ts|)[0] == 2 && Lags(|ts|)[1] == 3;
    assert xs[0] == log(2.0) && xs[1] == log(3.0);
    assert log(2.0) < log(3.0);
  }

  /** From eight values on, the estimate is twice the slope of the line that
      minimises the squared error over the log-log points. */
  lemma HurstIsTwiceLeastSquaresSlope(ts: seq<real>, log: real -> real, sqrt: real -> real,
                                      other: Regression.Coefficients)
    requires StrictlyIncreasing(log) && |ts| >= 8
    ensures Regression.Fit(LogLogPoints(ts, log, sqrt)).Ok?
    ensures Hurst(ts, log, sqrt) == Ok(2.0 * Regression.Fit(LogLogPoints(ts, log, sqrt)).value.slope)
    ensures Regression.SquaredError(LogLogPoints(ts, log, sqrt), Regression.Fit(LogLogPoints(ts, log, sqrt)).value)
         <= Regression.SquaredError(LogLogPoints(ts, log, sqrt), other)
  {
    HurstIsTwiceFitSlope(ts, log, sqrt);
    LogLogFitIsLeast(ts, log, sqrt, other);
  }

  lemma HurstIsTwiceFitSlope(ts: seq<real>, log: real -> real, sqrt: real -> real)
    requires StrictlyIncreasing(log) && |ts| >= 8
    ensures Regression.Fit(LogLogPoints(ts, log, sqrt)).Ok?
    ensures Hurst(ts, log, sqrt) == Ok(2.0 * Regression.Fit(LogLogPoints(ts, log, sqrt)).value.slope)
  {
    LogLagsDistinct(ts, log, sqrt);
    FitSlopeDoubled(LogLogPoints(ts, log, sqrt));
  }

  /** Points with distinct x are fitted, and their estimate is twice the
      fitted slope. */
  lemma FitSlopeDoubled(p: seq<Regression.DataPoint>)
    requires !AllEqual(Regression.Xs(p))
    ensures Regression.Fit(p).Ok?
    ensures HurstOfPoints(p) == Ok(2.0 * Regression.Fit(p).value.slope)
  {
    Regression.FitFailsIffAllXEqual(p);
    PolyfitOfFit(p, Regression.Fit(p).value);
    HurstOfPointsSlope(p, Regression.Fit(p).value.slope);
  }

  lemma LogLogFitIsLeast(ts: seq<real>, log: real -> real, sqrt: real -> real, other: Regression.Coefficients)
    requires StrictlyIncreasing(log) && |ts| >= 8
    ensures Regression.Fit(LogLogPoints(ts, log, sqrt)).Ok?
    ensures Regression.SquaredError(LogLogPoints(ts, log, sqrt), Regression.Fit(LogLogPoints(ts, log, sqrt)).value)
         <= Regression.SquaredError(LogLogPoints(ts, log, sqrt), other)
  {
    LogLagsDistinct(ts, log, sqrt);
    SlopeIsLeastSquares(LogLogPoints(ts, log, sqrt), other);
  }

  /** With distinct x, numpy's slope is that of the least-squares line. */
  lemma SlopeIsLeastSquares(p: seq<Regression.DataPoint>, other: Regression.Coefficients)
    requires !AllEqual(Regression.Xs(p))
    ensures Regression.Fit(p).Ok? && PolyfitSlope(p) == Ok(Regression.Fit(p).value.slope)
    ensures Regression.SquaredError(p, Regression.Fit(p).value) <= Regression.SquaredError(p, other)
  {
    Regression.FitFailsIffAllXEqual(p);
    var c := Regression.Fit(p).value;
    PolyfitOfFit(p, c);
    Regression.FitMinimizesSquaredError(p, c, other);
  }

  /** Points on the line y = h·x + b with distinct x have slope h. */
  lemma SlopeOfLine(p: seq<Regression.DataPoint>, h: real, b: real)
    requires !AllEqual(Regression.Xs(p))
    requires OnLine(p, h, b)
    ensures PolyfitSlope(p) == Ok(h)
  {
    Regression.FitRecoversLine(p, h, b);
    PolyfitOfFit(p, Regression.Coefficients(h, b));
  }

  /** The estimate of a series is twice the polyfit slope of its log-log
      points: HurstOfPointsSlope lifted from given points to the series, a
      separate step so that unfolding Hurst does not meet the doubling. */
  lemma HurstFromSlope(ts: seq<real>, log: real -> real, sqrt: real -> real, slope: real)
    requires PolyfitSlope(LogLogPoints(ts, log, sqrt)) == Ok(slope)
    ensures Hurst(ts, log, sqrt) == Ok(2.0 * slope)
  {
    HurstOfPointsSlope(LogLogPoints(ts, log, sqrt), slope);
  }

  /** τ follows the power law τ(l) = e^b · l^h over every lag: each
      log-log point lies on the line y = h·x + b. */
  ghost predicate PowerLaw(ts: seq<real>, log: real -> real, sqrt: real -> real, h: real, b: real)
  {
    OnLine(LogLogPoints(ts, log, sqrt), h, b)
  }

  /** Every point lies on the line y = h·x + b. */
  predicate OnLine(p: seq<Regression.DataPoint>, h: real, b: real)
  {
    forall i :: 0 <= i < |p| ==> p[i].y == h * p[i].x + b
  }

  /** As written: a series whose τ grows as l^H is reported as 2H. */
  lemma HurstOfPowerLaw(ts: seq<real>, log: real -> real, sqrt: real -> real, h: real, b: real)
    requires StrictlyIncreasing(log) && |ts| >= 8 && PowerLaw(ts, log, sqrt, h, b)
    ensures Hurst(ts, log, sqrt) == Ok(2.0 * h)
  {
    PowerLawSlope(ts, log, sqrt, h, b);
    HurstFromSlope(ts, log, sqrt, h);
  }

  /** The fitted slope of a power law is its exponent. */
  lemma PowerLawSlope(ts: seq<real>, log: real -> real, sqrt: real -> real, h: real, b: real)
    requires StrictlyIncreasing(log) && |ts| >= 8 && PowerLaw(ts, log, sqrt, h, b)
    ensures PolyfitSlope(LogLogPoints(ts, log, sqrt)) == Ok(h)
  {
    var p := LogLogPoints(ts, log, sqrt);
    assert !AllEqual(Regression.Xs(p)) by {
      LogLagsDistinct(ts, log, sqrt);
    }
    SlopeOfLine(p, h, b);
  }

  /** Brownian scaling (τ ∝ √l, true Hurst exponent ½) is reported as 1.0
      and classified as trending rather than as a random walk. */
  lemma BrownianScalingReadsAsTrending(ts: seq<real>, log: real -> real, sqrt: real -> real, b: real)
    requires StrictlyIncreasing(log) && |ts| >= 8 && PowerLaw(ts, log, sqrt, 0.5, b)
    ensures Hurst(ts, log, sqrt) == Ok(1.0)
    ensures Classify(1.0) == Trending
  {
    HurstOfPowerLaw(ts, log, sqrt, 0.5, b);
  }

  /** The estimate as evidently intended: with τ the standard deviation of
      the differences, log τ has slope H in log l, so the slope itself is the
      exponent (the usual form takes τ = √std, for which doubling is right). */
  function CorrectedHurst(ts: seq<real>, log: real -> real, sqrt: real -> real): Result<real, Error>
  {
    PolyfitSlope(LogLogPoints(ts, log, sqrt))
  }

  /** The corrected estimate recovers the exponent of a power law. */
  lemma CorrectedHurstOfPowerLaw(ts: seq<real>, log: real -> real, sqrt: real -> real, h: real, b: real)
    requires StrictlyIncreasing(log) && |ts| >= 8 && PowerLaw(ts, log, sqrt, h, b)
    ensures CorrectedHurst(ts, log, sqrt) == Ok(h)
    ensures 0.0 <= h <= 1.0 ==> 0.0 <= CorrectedHurst(ts, log, sqrt).value <= 1.0
  {
    PowerLawSlope(ts, log, sqrt, h, b);
  }

  /** ... and classifies Brownian scaling as a random walk. */
  lemma CorrectedBrownianScaling(ts: seq<real>, log: real -> real, sqrt: real -> real, b: real)
    requires StrictlyIncreasing(log) && |ts| >= 8 && PowerLaw(ts, log, sqrt, 0.5, b)
    ensures CorrectedHurst(ts, log, sqrt) == Ok(0.5)
    ensures Classify(CorrectedHurst(ts, log, sqrt).value) == RandomWalk
  {
    CorrectedHurstOfPowerLaw(ts, log, sqrt, 0.5, b);
  }

  // ---------------------------------------------------------------------
  // Classification (signalviz.py:119-128)
  // ---------------------------------------------------------------------

  datatype Indication = MeanReverting | RandomWalk | Trending

  /** The three printed indications, total and mutually exclusive. */
  function Classify(h: real): (i: Indication)
    ensures i == MeanReverting <==> h < 0.5
    ensures i == RandomWalk <==> h == 0.5
    ensures i == Trending <==> h > 0.5
  {
    if h < 0.5 then MeanReverting
    else if h == 0.5 then RandomWalk
    else Trending
  }

  function Rank(i: Indication): nat
  {
    match i
    case MeanReverting => 0
    case RandomWalk => 1
    case Trending => 2
  }

  /** A larger exponent never gives a less persistent indication. */
  lemma ClassifyMonotone(h1: real, h2: real)
    requires h1 <= h2
    ensures Rank(Classify(h1)) <= Rank(Classify(h2))
  {
  }

  // ---------------------------------------------------------------------
  // Amplitude spectrum (signalviz.py:62-77)
  // ---------------------------------------------------------------------

  /** `fftfreq(n, d=1)`: 0, 1/n, …, ⌊(n−1)/2⌋/n, then −⌊n/2⌋/n, …, −1/n. */
  function FftFreq(n: nat): (f: seq<real>)
    ensures |f| == n
  {
    seq(n, i requires 0 <= i < n =>
      if i <= (n - 1) / 2 then i as real / n as real else (i - n) as real / n as real)
  }

  /** A bin's frequency is positive exactly for bins 1 .. ⌊(n−1)/2⌋. */
  lemma FftFreqPositiveIff(n: nat, i: nat)
    requires i < n
    ensures FftFreq(n)[i] > 0.0 <==> 1 <= i <= (n - 1) / 2
  {
    var f := FftFreq(n)[i];
    if i <= (n - 1) / 2 {
      assert f == i as real / n as real;
      if i == 0 {
        assert f == 0.0;
      } else {
        assert f > 0.0;
      }
    } else {
      assert f == (i - n) as real / n as real;
      assert f < 0.0;
    }
  }

  /** `xf > 0`. */
  function PositiveMask(f: seq<real>): (m: seq<bool>)
    ensures |m| == |f|
  {
    seq(|f|, i requires 0 <= i < |f| => f[i] > 0.0)
  }

  /** `v[keep]`: the entries whose mask bit is set, in order. */
  function Masked<T>(v: seq<T>, keep: seq<bool>): (r: seq<T>)
    requires |keep| == |v|
    ensures |r| <= |v|
  {
    if |v| == 0 then []
    else Masked(v[..|v| - 1], keep[..|v| - 1]) + (if keep[|v| - 1] then [v[|v| - 1]] else [])
  }

  /** A mask set on exactly one contiguous range keeps that range. */
  lemma {:induction false} MaskedRange<T>(v: seq<T>, keep: seq<bool>, lo: nat, hi: nat)
    requires |keep| == |v| && lo <= hi <= |v|
    requires forall i :: 0 <= i < |v| ==> (keep[i] <==> lo <= i < hi)
    ensures Masked(v, keep) == v[lo..hi]
  {
    if |v| > 0 {
      var m := |v| - 1;
      if hi == |v| && lo < hi {
        MaskedRange(v[..m], keep[..m], lo, m);
        assert v[..m][lo..m] + [v[m]] == v[lo..hi];
      } else {
        var h := if hi == |v| then m else hi;
        var l := if lo > h then h else lo;
        MaskedRange(v[..m], keep[..m], l, h);
        assert v[..m][l..h] == v[lo..hi];
      }
    }
  }

  /** The positive half of the spectrum: bin frequencies and amplitudes. */
  datatype Spectrum = Spectrum(freqs: seq<real>, amps: seq<real>)

  /** `prices - np.mean(prices)`. */
  function Demeaned(prices: seq<real>): (d: seq<real>)
    requires |prices| > 0
    ensures |d| == |prices|
  {
    Shifted(prices, Mean(prices))
  }

  /** `plot_fft` up to the plot: demean, transform, keep the bins with a
      positive frequency. `magnitude(x, k)` stands for |fft(x)[k]|. */
  function PositiveSpectrum(prices: seq<real>, magnitude: (seq<real>, nat) -> real): Result<Spectrum, Error>
  {
    if |prices| == 0 then Err(EmptySeries)
    else
      var n := |prices|;
      var xf := FftFreq(n);
      var mask := PositiveMask(xf);
      var yf := seq(n, k requires 0 <= k < n => magnitude(Demeaned(prices), k));
      Ok(Spectrum(Masked(xf, mask), Masked(yf, mask)))
  }

  /** The mask keeps exactly bins 1 .. ⌊(n−1)/2⌋ of both the frequencies
      and the amplitudes of the demeaned series. */
  lemma PositiveBins(prices: seq<real>, magnitude: (seq<real>, nat) -> real)
    requires |prices| > 0
    ensures PositiveSpectrum(prices, magnitude).Ok?
    ensures PositiveSpectrum(prices, magnitude).value.freqs == FftFreq(|prices|)[1..(|prices| - 1) / 2 + 1]
    ensures var a := PositiveSpectrum(prices, magnitude).value.amps;
      |a| == (|prices| - 1) / 2 &&
      forall k :: 0 <= k < |a| ==> a[k] == magnitude(Demeaned(prices), k + 1)
  {
    var n := |prices|;
    var xf := FftFreq(n);
    var mask := PositiveMask(xf);
    var yf := seq(n, k requires 0 <= k < n => magnitude(Demeaned(prices), k));
    var hi := (n - 1) / 2 + 1;
    forall i | 0 <= i < n
      ensures mask[i] <==> 1 <= i < hi
    {
      FftFreqPositiveIff(n, i);
    }
    MaskedRange(xf, mask, 1, hi);
    MaskedRange(yf, mask, 1, hi);
  }

  /** The kept bins are k = 1 .. ⌊(n−1)/2⌋ with frequency k/n, in strictly
      increasing order, each paired with the amplitude of the demeaned
      series at that bin. */
  lemma PositiveSpectrumShape(prices: seq<real>, magnitude: (seq<real>, nat) -> real)
    requires |prices| > 0
    ensures PositiveSpectrum(prices, magnitude).Ok?
    ensures var s := PositiveSpectrum(prices, magnitude).value;
      |s.freqs| == |s.amps| == (|prices| - 1) / 2 &&
      (forall k :: 0 <= k < |s.freqs| ==>
        s.freqs[k] == (k + 1) as real / |prices| as real && s.freqs[k] > 0.0 &&
        s.amps[k] == magnitude(Demeaned(prices), k + 1)) &&
      (forall j, k :: 0 <= j < k < |s.freqs| ==> s.freqs[j] < s.freqs[k])
  {
    PositiveBins(prices, magnitude);
    var n := |prices|;
    var f := PositiveSpectrum(prices, magnitude).value.freqs;
    forall k | 0 <= k < |f|
      ensures f[k] == (k + 1) as real / n as real && f[k] > 0.0
    {
      FftFreqPositiveIff(n, k + 1);
    }
    forall j, k | 0 <= j < k < |f|
      ensures f[j] < f[k]
    {
      FrequencyOrder(j + 1, k + 1, n);
    }
  }

  /** No retained bin reaches ½ cycle per sample: for even n the Nyquist bin
      is laid out as −½ by fftfreq and is dropped with the negative half. */
  lemma RetainedBelowNyquist(prices: seq<real>, magnitude: (seq<real>, nat) -> real)
    requires |prices| > 0
    ensures forall k :: 0 <= k < |PositiveSpectrum(prices, magnitude).value.freqs| ==>
      PositiveSpectrum(prices, magnitude).value.freqs[k] < 0.5
  {
    PositiveSpectrumShape(prices, magnitude);
    var f := PositiveSpectrum(prices, magnitude).value.freqs;
    forall k | 0 <= k < |f|
      ensures f[k] < 0.5
    {
      BelowHalf((k + 1) as real, |prices| as real);
    }
  }

  lemma BelowHalf(x: real, n: real)
    requires n > 0.0 && 2.0 * x < n
    ensures x / n < 0.5
  {
    var q := x / n;
    assert q * n == x;
  }

  lemma FrequencyOrder(i: nat, j: nat, n: nat)
    requires i < j && n > 0
    ensures i as real / n as real < j as real / n as real
  {
  }

  // ---------------------------------------------------------------------
  // Rolling variance (signalviz.py:89-93)
  // ---------------------------------------------------------------------

  /** The `window` default of `plot_rolling_variance`. */
  const DefaultWindow: int := 20

  /** `df['Price'].rolling(window).var()`: entry i is the sample variance of
      the trailing window ending at i, undefined (NaN) until a full window is
      available; windows of 0 or 1 leave every entry undefined, because the
      sample variance needs two values. */
  function RollingVariance(ts: seq<real>, window: int): Result<seq<Option<real>>, Error>
  {
    if window < 0 then Err(NegativeWindow)
    else Ok(seq(|ts|, i requires 0 <= i < |ts| =>
      if window >= 2 && i >= window - 1 then Some(SampleVariance(ts[i - window + 1 .. i + 1])) else None))
  }

  /** The column is aligned index-for-index with the series; entry i is
      defined exactly when a full window ends at i, and is then a
      non-negative variance that is zero exactly for a window of equal
      values. */
  lemma RollingVarianceShape(ts: seq<real>, window: int)
    requires window >= 0
    ensures RollingVariance(ts, window).Ok?
    ensures var col := RollingVariance(ts, window).value;
      |col| == |ts| &&
      forall i :: 0 <= i < |ts| ==>
        (col[i].Some? <==> window >= 2 && i >= window - 1) &&
        (col[i].Some? ==>
          col[i].value >= 0.0 &&
          (col[i].value == 0.0 <==> AllEqual(ts[i - window + 1 .. i + 1])))
  {
  }

  /** A constant series has zero variance over every full window. */
  lemma RollingVarianceOfConstant(ts: seq<real>, window: int)
    requires window >= 0 && AllEqual(ts)
    ensures forall i :: 0 <= i < |ts| && RollingVariance(ts, window).value[i].Some? ==>
      RollingVariance(ts, window).value[i] == Some(0.0)
  {
    forall i | 0 <= i < |ts| && RollingVariance(ts, window).value[i].Some?
      ensures RollingVariance(ts, window).value[i] == Some(0.0)
    {
      SliceOfEqual(ts, i - window + 1, i + 1);
    }
  }

  lemma SliceOfEqual(s: seq<real>, lo: nat, hi: nat)
    requires lo <= hi <= |s| && AllEqual(s)
    ensures AllEqual(s[lo..hi])
  {
    var w := s[lo..hi];
    forall a, b | 0 <= a < |w| && 0 <= b < |w|
      ensures w[a] == w[b]
    {
      assert w[a] == s[lo + a] && w[b] == s[lo + b];
    }
  }

  /** 1, 2, 3, 4 over a window of two: undefined, then ½ three times. */
  lemma RollingVarianceExample()
    ensures RollingVariance([1.0, 2.0, 3.0, 4.0], 2) == Ok([None, Some(0.5), Some(0.5), Some(0.5)])
  {
    var ts := [1.0, 2.0, 3.0, 4.0];
    PairVariance(ts[0..2]);
    PairVariance(ts[1..3]);
    PairVariance(ts[2..4]);
    assert SampleVariance(ts[0..2]) == 0.5 && SampleVariance(ts[1..3]) == 0.5 && SampleVariance(ts[2..4]) == 0.5;
    var col := RollingVariance(ts, 2).value;
    assert col[0] == None;
    assert col[1] == Some(SampleVariance(ts[0..2]));
    assert col[2] == Some(SampleVariance(ts[1..3]));
    assert col[3] == Some(SampleVariance(ts[2..4]));
    assert col == [None, Some(0.5), Some(0.5), Some(0.5)];
  }

  /** The sample variance of two values is half their squared difference. */
  lemma PairVariance(s: seq<real>)
    requires |s| == 2
    ensures SampleVariance(s) == (s[1] - s[0]) * (s[1] - s[0]) / 2.0
  {
    PairSum(s);
    var m := Mean(s);
    var d := Shifted(s, m);
    PairSum(Squares(d));
  }

  lemma PairSum(s: seq<real>)
    requires |s| == 2
    ensures Sum(s) == s[0] + s[1]
  {
    assert s[..1][..0] == [];
    assert Sum(s[..1]) == s[0];
  }

  /** The price table as `plot_rolling_variance` updates it: the Price
      column and, once computed, the RollingVariance column. */
  class PriceFrame {
    var price: seq<real>
    var rollingVariance: Option<seq<Option<real>>>

    constructor (price: seq<real>)
      ensures this.price == price && rollingVariance == None
    {
      this.price := price;
      rollingVariance := None;
    }

    /** Computes the rolling variance of the Price column and stores it as
        the RollingVariance column; a negative window raises before
        anything is stored. Plotting is not modelled. */
    method PlotRollingVariance(window: int) returns (r: Result<seq<Option<real>>, Error>)
      modifies this
      ensures r == RollingVariance(old(price), window)
      ensures price == old(price)
      ensures rollingVariance == if r.Ok? then Some(r.value) else old(rollingVariance)
    {
      r := RollingVariance(price, window);
      if r.Ok? {
        rollingVariance := Some(r.value);
      }
    }

    /** main's call `plot_rolling_variance(df, window=20)`: the default
        window never raises, the stored column is aligned with the prices,
        and its first 19 entries are undefined while every later one holds
        the variance of the 20 prices ending there. */
    method PlotDefaultRollingVariance() returns (col: seq<Option<real>>)
      modifies this
      ensures price == old(price)
      ensures rollingVariance == Some(col)
      ensures col == RollingVariance(old(price), DefaultWindow).value
      ensures |col| == |price|
      ensures forall i :: 0 <= i < |col| ==>
        (col[i].Some? <==> i >= DefaultWindow - 1) &&
        (col[i].Some? ==> col[i].value == SampleVariance(price[i - DefaultWindow + 1 .. i + 1]))
    {
      RollingVarianceShape(price, DefaultWindow);
      var r := PlotRollingVariance(DefaultWindow);
      col := r.value;
    }
  }
}

/** The carbon-intensity forecast: a least-squares line, kept within bounds (magellan/carbon/forecast.py). */
module Forecast {
  import opened Common

  // ---------- Sums ----------

  function Sum(s: seq<real>): real {
    if s == [] then 0.0 else Sum(s[..|s| - 1]) + s[|s| - 1]
  }

  function Dot(s: seq<real>, t: seq<real>): real
    requires |s| == |t|
  {
    if s == [] then 0.0 else Dot(s[..|s| - 1], t[..|s| - 1]) + Times(s[|s| - 1], t[|s| - 1])
  }

  function Times(x: real, y: real): real {
    x * y
  }

  function Mean(s: seq<real>): real
    requires s != []
  {
    Sum(s) / |s| as real
  }

  function Shifted(s: seq<real>, origin: real): seq<real> {
    seq(|s|, i requires 0 <= i < |s| => s[i] - origin)
  }

  function Residual(x: real, y: real, intercept: real, slope: real): real {
    y - (intercept + slope * x)
  }

  function Residuals(xs: seq<real>, ys: seq<real>, intercept: real, slope: real): seq<real>
    requires |xs| == |ys|
  {
    seq(|xs|, i requires 0 <= i < |xs| => Residual(xs[i], ys[i], intercept, slope))
  }

  /** The sum of squared residuals. */
  function SquaredError(xs: seq<real>, ys: seq<real>, intercept: real, slope: real): real
    requires |xs| == |ys|
  {
    Dot(Residuals(xs, ys, intercept, slope), Residuals(xs, ys, intercept, slope))
  }

  // ---------- The fit ----------

  datatype Line = Line(intercept: real, slope: real)

  /** Hours before the latest sample. */
  function HoursToLatest(times: seq<real>): seq<real>
    requires times != []
  {
    seq(|times|, i requires 0 <= i < |times| => (times[i] - times[|times| - 1]) / 3600.0)
  }

  function SlopeOf(xs: seq<real>, ys: seq<real>): real
    requires |xs| == |ys| > 0
  {
    var us, vs := Shifted(xs, Mean(xs)), Shifted(ys, Mean(ys));
    if Dot(us, us) > 0.0 then Dot(us, vs) / Dot(us, us) else 0.0
  }

  function LinearFit(times: seq<real>, values: seq<real>): Line
    requires |times| == |values| > 0
  {
    var xs := HoursToLatest(times);
    var slope := SlopeOf(xs, values);
    Line(Mean(values) - slope * Mean(xs), slope)
  }

  // ---------- Its residuals are the least ----------

  lemma ShiftedPrefix(s: seq<real>, origin: real)
    requires s != []
    ensures Shifted(s, origin)[..|s| - 1] == Shifted(s[..|s| - 1], origin)
  {
  }

  lemma {:induction false} ShiftedSum(s: seq<real>, origin: real)
    ensures Sum(Shifted(s, origin)) == Sum(s) - |s| as real * origin
  {
    if s != [] {
      ShiftedPrefix(s, origin);
      ShiftedSum(s[..|s| - 1], origin);
      assert |s| as real * origin == (|s| - 1) as real * origin + origin;
    }
  }

  lemma CentredSum(s: seq<real>)
    requires s != []
    ensures Sum(Shifted(s, Mean(s))) == 0.0
  {
    ShiftedSum(s, Mean(s));
    var n := |s| as real;
    assert n * (Sum(s) / n) == Sum(s);
  }

  lemma SquareNonNegative(x: real)
    ensures x * x >= 0.0
  {
  }

  lemma {:induction false} DotSelfNonNegative(s: seq<real>)
    ensures Dot(s, s) >= 0.0
  {
    if s != [] {
      DotSelfNonNegative(s[..|s| - 1]);
      SquareNonNegative(s[|s| - 1]);
    }
  }

  /** If all abscissae coincide, nothing correlates with them. */
  lemma {:induction false} NoSpreadNoCorrelation(us: seq<real>, vs: seq<real>)
    requires |us| == |vs| && Dot(us, us) == 0.0
    ensures Dot(us, vs) == 0.0
  {
    if us != [] {
      var last := |us| - 1;
      DotSelfNonNegative(us[..last]);
      SquareNonNegative(us[last]);
      if us[last] != 0.0 {
        NonzeroSquare(us[last]);
      }
      NoSpreadNoCorrelation(us[..last], vs[..last]);
    }
  }

  lemma TimesPositive(x: real, y: real)
    requires (x > 0.0 && y > 0.0) || (x < 0.0 && y < 0.0)
    ensures Times(x, y) > 0.0
  {
    ProductPositive(x, y);
  }

  lemma NonzeroSquare(x: real)
    requires x != 0.0
    ensures Times(x, x) > 0.0
  {
    TimesPositive(x, x);
  }

  /** (v - b*u + c)^2, multiplied out. */
  lemma SquareExpands(u: real, v: real, b: real, c: real)
    ensures (v - b * u + c) * (v - b * u + c)
            == v * v + b * b * (u * u) + c * c - 2.0 * b * (u * v) + 2.0 * c * v - 2.0 * b * c * u
  {
  }

  /** How far the line passes above the means' crossing point. */
  function Offset(mx: real, my: real, a: real, b: real): real {
    my - a - b * mx
  }

  /** The error of any line, in terms of moments about any point. */
  function ErrorFromMoments(n: real, uu: real, vv: real, uv: real, u: real, v: real, b: real, c: real): real {
    vv + b * b * uu + n * (c * c) - 2.0 * b * uv + 2.0 * c * v - 2.0 * b * c * u
  }

  /** A residual, seen from the point that the moments are about. */
  function Deviation(u: real, v: real, b: real, c: real): real {
    v - b * u + c
  }

  lemma MomentsStep(n: real, uu: real, vv: real, uv: real, u: real, v: real, b: real, c: real, x: real, y: real)
    ensures ErrorFromMoments(n, uu, vv, uv, u, v, b, c) + Times(Deviation(x, y, b, c), Deviation(x, y, b, c))
            == ErrorFromMoments(n + 1.0, uu + Times(x, x), vv + Times(y, y), uv + Times(x, y), u + x, v + y, b, c)
  {
    SquareExpands(x, y, b, c);
    assert b * b * (uu + x * x) == b * b * uu + b * b * (x * x);
    assert 2.0 * b * (uv + x * y) == 2.0 * b * uv + 2.0 * b * (x * y);
    assert 2.0 * c * (v + y) == 2.0 * c * v + 2.0 * c * y;
    assert 2.0 * b * c * (u + x) == 2.0 * b * c * u + 2.0 * b * c * x;
    assert (n + 1.0) * (c * c) == n * (c * c) + c * c;
  }

  lemma {:induction false} ErrorExpands(xs: seq<real>, ys: seq<real>, mx: real, my: real, a: real, b: real)
    requires |xs| == |ys|
    ensures var us, vs := Shifted(xs, mx), Shifted(ys, my);
            SquaredError(xs, ys, a, b)
            == ErrorFromMoments(|xs| as real, Dot(us, us), Dot(vs, vs), Dot(us, vs), Sum(us), Sum(vs), b,
                                Offset(mx, my, a, b))
  {
    if xs == [] {
      assert Residuals(xs, ys, a, b) == [];
    } else {
      hide ErrorFromMoments, Times, Deviation, Residual, Offset;
      var last := |xs| - 1;
      var x, y, c := xs[last] - mx, ys[last] - my, Offset(mx, my, a, b);
      ErrorExpands(xs[..last], ys[..last], mx, my, a, b);
      ShiftedPrefix(xs, mx);
      ShiftedPrefix(ys, my);
      var us, vs := Shifted(xs[..last], mx), Shifted(ys[..last], my);
      MomentsStep(last as real, Dot(us, us), Dot(vs, vs), Dot(us, vs), Sum(us), Sum(vs), b, c, x, y);
      assert Residuals(xs, ys, a, b)[..last] == Residuals(xs[..last], ys[..last], a, b);
      ResidualIs(xs[last], ys[last], mx, my, a, b);
    }
  }

  lemma ResidualIs(x: real, y: real, mx: real, my: real, a: real, b: real)
    ensures Residual(x, y, a, b) == Deviation(x - mx, y - my, b, Offset(mx, my, a, b))
  {
    assert b * (x - mx) == b * x - b * mx;
  }

  /** Completing the square: what a line loses against the fitted slope. */
  lemma CompletedSquare(n: real, uu: real, vv: real, uv: real, b: real, c: real, m: real)
    requires uv == m * uu
    ensures ErrorFromMoments(n, uu, vv, uv, 0.0, 0.0, b, c)
            == ErrorFromMoments(n, uu, vv, uv, 0.0, 0.0, m, 0.0)
               + Times(n, Times(c, c)) + Times(uu, Times(b - m, b - m))
  {
    assert uu * ((b - m) * (b - m)) == b * b * uu - 2.0 * b * (m * uu) + m * m * uu;
    assert 2.0 * m * (m * uu) == 2.0 * (m * m * uu);
  }

  lemma FitFacts(times: seq<real>, values: seq<real>, a: real, b: real)
    requires |times| == |values| > 0
    ensures var xs := HoursToLatest(times);
            var fit := LinearFit(times, values);
            var c := Offset(Mean(xs), Mean(values), a, b);
            var uu := Dot(Shifted(xs, Mean(xs)), Shifted(xs, Mean(xs)));
            && uu >= 0.0
            && SquaredError(xs, values, a, b)
               == SquaredError(xs, values, fit.intercept, fit.slope) + Times(|xs| as real, Times(c, c))
                  + Times(uu, Times(b - fit.slope, b - fit.slope))
  {
    hide ErrorFromMoments, SquaredError, HoursToLatest, Mean, Times;
    var xs := HoursToLatest(times);
    var fit := LinearFit(times, values);
    assert |xs| == |times| by { SameLength(times); }
    var mx, my := Mean(xs), Mean(values);
    var us, vs := Shifted(xs, mx), Shifted(values, my);
    CentredSum(xs);
    CentredSum(values);
    DotSelfNonNegative(us);
    if Dot(us, us) == 0.0 {
      NoSpreadNoCorrelation(us, vs);
    }
    ErrorExpands(xs, values, mx, my, a, b);
    ErrorExpands(xs, values, mx, my, fit.intercept, fit.slope);
    assert Offset(mx, my, fit.intercept, fit.slope) == 0.0;
    SlopeSolves(Dot(us, us), Dot(us, vs), fit.slope);
    CompletedSquare(|xs| as real, Dot(us, us), Dot(vs, vs), Dot(us, vs), b, Offset(mx, my, a, b), fit.slope);
  }

  lemma SameLength(times: seq<real>)
    requires times != []
    ensures |HoursToLatest(times)| == |times|
  {
  }

  lemma SlopeSolves(uu: real, uv: real, m: real)
    requires uu >= 0.0 && (uu == 0.0 ==> uv == 0.0) && m == if uu > 0.0 then uv / uu else 0.0
    ensures uv == m * uu
  {
  }

  /** No line has a smaller sum of squared residuals than the fitted one, whatever the samples. */
  lemma FitIsLeastSquares(times: seq<real>, values: seq<real>, a: real, b: real)
    requires |times| == |values| > 0
    ensures var xs := HoursToLatest(times);
            var fit := LinearFit(times, values);
            SquaredError(xs, values, fit.intercept, fit.slope) <= SquaredError(xs, values, a, b)
  {
    hide SquaredError, LinearFit, Mean, HoursToLatest, Dot, Shifted, Times;
    FitFacts(times, values, a, b);
    SameLength(times);
    var xs := HoursToLatest(times);
    var fit := LinearFit(times, values);
    var c := Offset(Mean(xs), Mean(values), a, b);
    WeightedSquare(|xs| as real, c);
    WeightedSquare(Dot(Shifted(xs, Mean(xs)), Shifted(xs, Mean(xs))), b - fit.slope);
  }

  lemma WeightedSquare(x: real, y: real)
    requires x >= 0.0
    ensures Times(x, Times(y, y)) >= 0.0
    ensures x > 0.0 && Times(x, Times(y, y)) == 0.0 ==> y == 0.0
  {
    SquareNonNegative(y);
    if x > 0.0 && y != 0.0 {
      NonzeroSquare(y);
      TimesPositive(x, Times(y, y));
    }
  }

  lemma OnTheCrossing(mx: real, my: real, a: real, b: real)
    requires Offset(mx, my, a, b) == 0.0
    ensures a == my - b * mx
  {
  }

  /** With samples at two different times it is the only such line. */
  lemma FitIsUnique(times: seq<real>, values: seq<real>, a: real, b: real)
    requires |times| == |values| > 0
    requires var xs := HoursToLatest(times); Dot(Shifted(xs, Mean(xs)), Shifted(xs, Mean(xs))) > 0.0
    ensures var xs := HoursToLatest(times);
            var fit := LinearFit(times, values);
            SquaredError(xs, values, a, b) == SquaredError(xs, values, fit.intercept, fit.slope)
            ==> a == fit.intercept && b == fit.slope
  {
    hide SquaredError, Mean, HoursToLatest, Dot, Shifted, Times;
    FitFacts(times, values, a, b);
    SameLength(times);
    var xs := HoursToLatest(times);
    var fit := LinearFit(times, values);
    var c := Offset(Mean(xs), Mean(values), a, b);
    WeightedSquare(|xs| as real, c);
    WeightedSquare(Dot(Shifted(xs, Mean(xs)), Shifted(xs, Mean(xs))), b - fit.slope);
    if SquaredError(xs, values, a, b) == SquaredError(xs, values, fit.intercept, fit.slope) {
      assert c == 0.0 && b == fit.slope;
      OnTheCrossing(Mean(xs), Mean(values), a, b);
    }
  }

  lemma {:induction false} DotSelfPositive(s: seq<real>, k: nat)
    requires k < |s| && s[k] != 0.0
    ensures Dot(s, s) > 0.0
  {
    var last := |s| - 1;
    SquareNonNegative(s[last]);
    if k == last {
      DotSelfNonNegative(s[..last]);
      NonzeroSquare(s[last]);
    } else {
      DotSelfPositive(s[..last], k);
    }
  }

  lemma {:induction false} DotOfZeros(s: seq<real>)
    requires forall i | 0 <= i < |s| :: s[i] == 0.0
    ensures Dot(s, s) == 0.0
  {
    if s != [] {
      DotOfZeros(s[..|s| - 1]);
    }
  }

  /** Two different sample times are enough to fix the slope. */
  lemma TimesSpread(times: seq<real>, i: nat, j: nat)
    requires i < |times| && j < |times| && times[i] != times[j]
    ensures var xs := HoursToLatest(times); Dot(Shifted(xs, Mean(xs)), Shifted(xs, Mean(xs))) > 0.0
  {
    hide Dot, Mean;
    var xs := HoursToLatest(times);
    var us := Shifted(xs, Mean(xs));
    assert xs[i] != xs[j];
    DotSelfPositive(us, if us[i] != 0.0 then i else j);
  }

  /** Samples that lie on a line are fitted exactly: the level at the latest one, and the change an hour. */
  lemma LinearSeriesIsRecovered(times: seq<real>, values: seq<real>, level: real, perHour: real, i: nat, j: nat)
    requires |times| == |values| > 0 && i < |times| && j < |times| && times[i] != times[j]
    requires forall k | 0 <= k < |times| :: values[k] == level + perHour * ((times[k] - times[|times| - 1]) / 3600.0)
    ensures LinearFit(times, values) == Line(level, perHour)
  {
    hide LinearFit, Mean, Dot, Shifted;
    var xs, fit := HoursToLatest(times), LinearFit(times, values);
    DotOfZeros(Residuals(xs, values, level, perHour));
    FitIsLeastSquares(times, values, level, perHour);
    DotSelfNonNegative(Residuals(xs, values, fit.intercept, fit.slope));
    TimesSpread(times, i, j);
    FitIsUnique(times, values, level, perHour);
  }

  // ---------- The forecast ----------

  datatype Sample = Sample(at: real, level: real)

  datatype ForecastPolicy = ForecastPolicy(
    persistence: bool,               // the provider, instead of the linear trend
    historyPoints: nat,
    minimumPoints: nat,
    forecastSampleSeconds: real,
    maximumChangePerHour: real,
    staleAfterSeconds: real,
    fallback: Option<real>,
    confidenceFloor: real,
    persistenceConfidence: real,
    fallbackConfidence: real)

  datatype Source = LinearTrend | Persistence | ConfiguredFallback

  datatype Estimate = Estimate(
    average: real,
    current: real,
    source: Source,
    confidence: real,
    recent: bool,
    points: nat,
    slope: Option<real>,
    clamped: bool)

  datatype ForecastError = NoSamples

  predicate ValidForecastPolicy(p: ForecastPolicy) {
    && 1 <= p.minimumPoints <= p.historyPoints && p.forecastSampleSeconds > 0.0 && p.maximumChangePerHour >= 0.0
    && p.staleAfterSeconds > 0.0 && (p.fallback.Some? ==> p.fallback.value >= 0.0)
    && 0.0 <= p.confidenceFloor <= 1.0 && 0.0 <= p.persistenceConfidence <= 1.0 && 0.0 <= p.fallbackConfidence <= 1.0
  }

  /** The samples up to `observedAt`; the series is in time order. */
  function Known(series: seq<Sample>, observedAt: real): seq<Sample> {
    if series == [] then []
    else Known(series[..|series| - 1], observedAt)
         + if series[|series| - 1].at <= observedAt then [series[|series| - 1]] else []
  }

  function Tail(samples: seq<Sample>, count: nat): seq<Sample> {
    if |samples| <= count then samples else samples[|samples| - count..]
  }

  function LevelsOf(samples: seq<Sample>): seq<real> {
    seq(|samples|, i requires 0 <= i < |samples| => samples[i].level)
  }

  function TimesOf(samples: seq<Sample>): seq<real> {
    seq(|samples|, i requires 0 <= i < |samples| => samples[i].at)
  }

  /** The instants forecast, in hours after the latest sample. */
  function Offsets(start: real, duration: real, sampleSeconds: real): (offsets: seq<real>)
    requires sampleSeconds > 0.0
    ensures offsets != []
  {
    if duration == 0.0 then [start]
    else
      var count := OffsetCount(duration, sampleSeconds);
      seq(count, i requires 0 <= i < count => start + Share(duration / 3600.0, i, count - 1))
  }

  function OffsetCount(duration: real, sampleSeconds: real): (count: nat)
    requires sampleSeconds > 0.0
    ensures count >= 2
  {
    var wanted := (duration / sampleSeconds).Floor + 1;
    if wanted < 2 then 2 else wanted
  }

  /** `i` of `n` equal parts. */
  function Share(whole: real, i: nat, n: nat): real
    requires n > 0
  {
    whole * i as real / n as real
  }

  lemma CountFits(duration: real, sampleSeconds: real)
    requires sampleSeconds > 0.0 && duration > 0.0
    ensures var count := OffsetCount(duration, sampleSeconds);
            && duration < count as real * sampleSeconds
            && (count > 2 ==> (count - 1) as real * sampleSeconds <= duration)
  {
    var ratio, count := duration / sampleSeconds, OffsetCount(duration, sampleSeconds);
    RatioTimes(duration, sampleSeconds);
    StepsCover(ratio, count as real, sampleSeconds);
    if count > 2 {
      StepsWithin((count - 1) as real, ratio, sampleSeconds);
    }
  }

  lemma SharesAdd(whole: real, i: nat, n: nat)
    requires n > 0
    ensures Share(whole, i, n) * n as real == whole * i as real
    ensures Share(whole, 0, n) == 0.0 && Share(whole, n, n) == whole
  {
    WholeShare(whole, n as real);
  }

  /**
   The offsets start at the forecast's start, end a duration later and are evenly spaced, about a sample apart; a
   single one stands for no duration.
   */
  lemma OffsetsSpread(start: real, duration: real, sampleSeconds: real)
    requires sampleSeconds > 0.0 && duration >= 0.0
    ensures var o := Offsets(start, duration, sampleSeconds);
            && o[0] == start && o[|o| - 1] == start + duration / 3600.0
            && (duration == 0.0 <==> |o| == 1)
            && (forall i | 0 <= i < |o| :: (o[i] - start) * (|o| - 1) as real == duration / 3600.0 * i as real)
            && (duration > 0.0 ==> duration < |o| as real * sampleSeconds)
            && (|o| > 2 ==> (|o| - 1) as real * sampleSeconds <= duration)
  {
    hide Share, OffsetCount;
    var o := Offsets(start, duration, sampleSeconds);
    if duration > 0.0 {
      CountFits(duration, sampleSeconds);
      SharesAdd(duration / 3600.0, 0, |o| - 1);
      forall i | 0 <= i < |o| ensures (o[i] - start) * (|o| - 1) as real == duration / 3600.0 * i as real {
        SharesAdd(duration / 3600.0, i, |o| - 1);
      }
    }
  }

  lemma RatioTimes(x: real, y: real)
    requires y > 0.0
    ensures x / y * y == x
  {
  }

  lemma StepsWithin(count: real, ratio: real, step: real)
    requires count <= ratio && step > 0.0
    ensures count * step <= ratio * step
  {
    ProductNonNegative(ratio - count, step);
    assert (ratio - count) * step == ratio * step - count * step;
  }

  lemma StepsCover(ratio: real, count: real, step: real)
    requires ratio < count && step > 0.0
    ensures ratio * step < count * step
  {
    ProductPositive(count - ratio, step);
    assert (count - ratio) * step == count * step - ratio * step;
  }

  lemma WholeShare(x: real, n: real)
    requires n > 0.0
    ensures x * n / n == x && x * 0.0 / n == 0.0
  {
  }

  predicate InTimeOrder(series: seq<Sample>) {
    forall i, j | 0 <= i < j < |series| :: series[i].at <= series[j].at
  }

  /** Of a series in time order, exactly the samples up to `observedAt` are known: nothing from the future. */
  lemma {:induction false} KnownIsPast(series: seq<Sample>, observedAt: real)
    requires InTimeOrder(series)
    ensures var known := Known(series, observedAt);
            && |known| <= |series| && known == series[..|known|]
            && (forall i | 0 <= i < |known| :: series[i].at <= observedAt)
            && (forall i | |known| <= i < |series| :: series[i].at > observedAt)
  {
    if series != [] {
      var last := |series| - 1;
      KnownIsPast(series[..last], observedAt);
      assert Known(series, observedAt)
             == Known(series[..last], observedAt) + if series[last].at <= observedAt then [series[last]] else [];
    }
  }

  /** What the line predicts at each offset. */
  function OnLine(line: Line, offsets: seq<real>): seq<real> {
    seq(|offsets|, i requires 0 <= i < |offsets| => line.intercept + line.slope * offsets[i])
  }

  function Bounded(raw: real, lower: real, upper: real): real {
    MaxReal(0.0, MaxReal(lower, MinReal(upper, raw)))
  }

  /** The bounds leave the value as it is. */
  predicate Inside(raw: real, lower: real, upper: real) {
    MaxReal(lower, MinReal(upper, raw)) == raw
  }

  /** Bounds each predicted value and notes whether a bound was needed. */
  method BoundAll(line: Line, offsets: seq<real>, lower: real, upper: real)
    returns (predicted: seq<real>, clamped: bool)
    ensures |predicted| == |offsets|
    ensures forall i | 0 <= i < |offsets| :: predicted[i] == Bounded(OnLine(line, offsets)[i], lower, upper)
    ensures clamped <==> exists i | 0 <= i < |offsets| :: !Inside(OnLine(line, offsets)[i], lower, upper)
  {
    predicted, clamped := [], false;
    for i := 0 to |offsets|
      invariant |predicted| == i
      invariant forall j | 0 <= j < i :: predicted[j] == Bounded(OnLine(line, offsets)[j], lower, upper)
      invariant clamped <==> exists j | 0 <= j < i :: !Inside(OnLine(line, offsets)[j], lower, upper)
    {
      var raw := line.intercept + line.slope * offsets[i];
      assert raw == OnLine(line, offsets)[i];
      var bounded := MaxReal(lower, MinReal(upper, raw));
      if bounded != raw {
        clamped := true;
      }
      predicted := predicted + [MaxReal(0.0, bounded)];
    }
  }

  lemma {:induction false} MeanWithin(s: seq<real>, lower: real, upper: real)
    requires s != [] && forall x | x in s :: lower <= x <= upper
    ensures lower <= Mean(s) <= upper
  {
    SumWithin(s, lower, upper);
    var n := |s| as real;
    var mean := Mean(s);
    assert n * mean == Sum(s);
    if mean < lower {
      ProductPositive(lower - mean, n);
    } else if mean > upper {
      ProductPositive(mean - upper, n);
    }
  }

  lemma {:induction false} SumWithin(s: seq<real>, lower: real, upper: real)
    requires forall x | x in s :: lower <= x <= upper
    ensures |s| as real * lower <= Sum(s) <= |s| as real * upper
  {
    if s != [] {
      var last := |s| - 1;
      assert s[last] in s && forall x | x in s[..last] :: x in s;
      SumWithin(s[..last], lower, upper);
      assert |s| as real * lower == last as real * lower + lower;
      assert |s| as real * upper == last as real * upper + upper;
    }
  }

  function LowerBound(levels: seq<real>, policy: ForecastPolicy): real
    requires levels != []
  {
    MaxReal(0.0, Least(levels) - policy.maximumChangePerHour)
  }

  function UpperBound(levels: seq<real>, policy: ForecastPolicy): real
    requires levels != []
  {
    Greatest(levels) + policy.maximumChangePerHour
  }

  /** `max(floor, min(1, ...))` of the four factors. */
  function TrendConfidence(points: nat, policy: ForecastPolicy, fit: real, freshness: real, clamped: bool): real
    requires policy.historyPoints > 0
  {
    MaxReal(policy.confidenceFloor,
            MinReal(1.0, MinReal(1.0, points as real / policy.historyPoints as real) * fit * freshness
                         * if clamped then 0.75 else 1.0))
  }

  function Fallback(source: Source, level: real, confidence: real, recent: bool, points: nat): Estimate {
    Estimate(MaxReal(0.0, level), MaxReal(0.0, level), source, Clamp(confidence, 0.0, 1.0), recent, points, None, false)
  }

  /** The slope of the estimate: the fitted one, or the largest change an hour in the same direction. */
  predicate Steepness(slope: real, fitted: real, limit: real) {
    if fitted > limit then slope == limit else if fitted < -limit then slope == -limit else slope == fitted
  }

  /** Each predicted value is the line's, or the bound on the side where the line leaves the bounds. */
  ghost predicate Predicted(values: seq<real>, line: Line, offsets: seq<real>, lower: real, upper: real) {
    && |values| == |offsets|
    && forall i | 0 <= i < |offsets| ::
         var raw := line.intercept + line.slope * offsets[i];
         values[i] == if raw <= lower || upper <= lower then lower else if raw >= upper then upper else raw
  }

  /** The share of the wanted points, the fit relative to the levels, the freshness, and a quarter off if clamped. */
  ghost predicate Believed(confidence: real, history: seq<Sample>, policy: ForecastPolicy, rmse: real, freshness: real,
                           clamped: bool)
    requires history != [] && policy.historyPoints > 0
  {
    var levels := LevelsOf(history);
    var scale := MaxReal(MaxReal(Greatest(levels) - Least(levels), history[|history| - 1].level), 1.0);
    var fitFactor := MaxReal(0.0, 1.0 - rmse / scale);
    var share := MinReal(1.0, |history| as real / policy.historyPoints as real);
    confidence
    == MaxReal(policy.confidenceFloor, MinReal(1.0, share * fitFactor * freshness * if clamped then 0.75 else 1.0))
  }

  /** The whole trend estimate: mean, slope, clamping and confidence. */
  ghost predicate TrendExact(e: Estimate, history: seq<Sample>, start: real, duration: real, policy: ForecastPolicy,
                             freshness: real, values: seq<real>, rmse: real)
    requires history != [] && policy.forecastSampleSeconds > 0.0 && policy.historyPoints > 0
  {
    var levels := LevelsOf(history);
    var fit := LinearFit(TimesOf(history), levels);
    var offsets := Offsets((start - history[|history| - 1].at) / 3600.0, duration, policy.forecastSampleSeconds);
    var limit := policy.maximumChangePerHour;
    var lower, upper := MaxReal(0.0, Least(levels) - limit), Greatest(levels) + limit;
    && e.source.LinearTrend? && e.points == |history| && e.current == history[|history| - 1].level && e.recent
    && e.slope.Some? && Steepness(e.slope.value, fit.slope, limit)
    && Predicted(values, Line(fit.intercept, e.slope.value), offsets, lower, upper) && values != []
    && e.average == Mean(values)
    && (e.clamped <==> e.slope.value != fit.slope
                       || exists i | 0 <= i < |offsets| ::
                            !Inside(OnLine(Line(fit.intercept, e.slope.value), offsets)[i], lower, upper))
    && rmse >= 0.0
    && rmse * rmse == SquaredError(HoursToLatest(TimesOf(history)), levels, fit.intercept, fit.slope)
                      / |history| as real
    && Believed(e.confidence, history, policy, rmse, freshness, e.clamped)
  }

  /** What follows for a reader: bounds on the level and the confidence, and the fitted line itself unless clamped. */
  ghost predicate TrendSound(e: Estimate, history: seq<Sample>, start: real, duration: real, policy: ForecastPolicy)
    requires history != [] && policy.forecastSampleSeconds > 0.0
  {
    var levels := LevelsOf(history);
    && 0.0 <= e.confidence <= 1.0
    && LowerBound(levels, policy) <= e.average
    && ((forall i | 0 <= i < |history| :: history[i].level >= 0.0) ==> e.average <= UpperBound(levels, policy))
    && (!e.clamped ==>
          var fit := LinearFit(TimesOf(history), levels);
          e.slope == Some(fit.slope)
          && e.average == Mean(OnLine(fit, Offsets((start - history[|history| - 1].at) / 3600.0, duration,
                                                   policy.forecastSampleSeconds))))
  }

  lemma PredictedFromBounded(values: seq<real>, line: Line, offsets: seq<real>, lower: real, upper: real)
    requires |values| == |offsets| == |OnLine(line, offsets)| && lower >= 0.0
    requires forall i | 0 <= i < |offsets| :: values[i] == Bounded(OnLine(line, offsets)[i], lower, upper)
    ensures Predicted(values, line, offsets, lower, upper)
  {
    forall i | 0 <= i < |offsets|
      ensures var raw := line.intercept + line.slope * offsets[i];
              values[i] == if raw <= lower || upper <= lower then lower else if raw >= upper then upper else raw
    {
      assert OnLine(line, offsets)[i] == line.intercept + line.slope * offsets[i];
    }
  }

  lemma BoundedMean(line: Line, offsets: seq<real>, predicted: seq<real>, lower: real, upper: real)
    requires |predicted| == |offsets| > 0 && 0.0 <= lower
    requires forall i | 0 <= i < |offsets| :: predicted[i] == Bounded(OnLine(line, offsets)[i], lower, upper)
    ensures lower <= Mean(predicted) && (lower <= upper ==> Mean(predicted) <= upper)
    ensures (forall i | 0 <= i < |offsets| :: Inside(OnLine(line, offsets)[i], lower, upper)) ==>
              predicted == OnLine(line, offsets)
  {
    hide Mean;
    if lower <= upper {
      MeanWithin(predicted, lower, upper);
    } else {
      MeanWithin(predicted, lower, lower);
    }
  }

  lemma BoundsInOrder(history: seq<Sample>, policy: ForecastPolicy)
    requires history != [] && policy.maximumChangePerHour >= 0.0
    requires forall i | 0 <= i < |history| :: history[i].level >= 0.0
    ensures LowerBound(LevelsOf(history), policy) <= UpperBound(LevelsOf(history), policy)
  {
    var levels := LevelsOf(history);
    assert Least(levels) <= Greatest(levels);
  }

  lemma ErrorNonNegative(xs: seq<real>, ys: seq<real>, intercept: real, slope: real)
    requires |xs| == |ys|
    ensures SquaredError(xs, ys, intercept, slope) >= 0.0
  {
    DotSelfNonNegative(Residuals(xs, ys, intercept, slope));
  }

  lemma ConfidenceIsBelieved(confidence: real, history: seq<Sample>, policy: ForecastPolicy, rmse: real,
                             freshness: real, clamped: bool)
    requires ValidForecastPolicy(policy) && history != []
    requires var levels := LevelsOf(history);
             var scale := MaxReal(MaxReal(Greatest(levels) - Least(levels), history[|history| - 1].level), 1.0);
             confidence == TrendConfidence(|history|, policy, MaxReal(0.0, 1.0 - rmse / scale), freshness, clamped)
    ensures Believed(confidence, history, policy, rmse, freshness, clamped) && 0.0 <= confidence <= 1.0
  {
    hide Least, Greatest;
  }

  method Trend(history: seq<Sample>, start: real, duration: real, policy: ForecastPolicy, freshness: real,
               root: real -> real) returns (e: Estimate, ghost values: seq<real>, ghost rmse: real)
    requires ValidForecastPolicy(policy) && history != []
    requires forall x :: x >= 0.0 ==> root(x) >= 0.0 && root(x) * root(x) == x
    ensures TrendExact(e, history, start, duration, policy, freshness, values, rmse)
    ensures TrendSound(e, history, start, duration, policy)
  {
    hide LinearFit, Mean, Sum, Dot, Least, Greatest, OnLine, Offsets, SquaredError, HoursToLatest, Predicted, Inside;
    hide TrendConfidence, Believed;
    var times, levels := TimesOf(history), LevelsOf(history);
    var latest := history[|history| - 1];
    var fit := LinearFit(times, levels);
    var limit := policy.maximumChangePerHour;
    var slope := MaxReal(-limit, MinReal(limit, fit.slope));
    var least, greatest := Least(levels), Greatest(levels);
    var lower, upper := MaxReal(0.0, least - limit), greatest + limit;
    var offsets := Offsets((start - latest.at) / 3600.0, duration, policy.forecastSampleSeconds);
    var line := Line(fit.intercept, slope);
    assert |OnLine(line, offsets)| == |offsets| by { OnLineLength(line, offsets); }
    var predicted, clamped := BoundAll(line, offsets, lower, upper);
    BoundedMean(line, offsets, predicted, lower, upper);
    PredictedFromBounded(predicted, line, offsets, lower, upper);
    if forall i | 0 <= i < |history| :: history[i].level >= 0.0 {
      BoundsInOrder(history, policy);
    }
    SameLength(times);
    var meanSquare := SquaredError(HoursToLatest(times), levels, fit.intercept, fit.slope) / |levels| as real;
    var scale := MaxReal(MaxReal(greatest - least, latest.level), 1.0);
    ErrorNonNegative(HoursToLatest(times), levels, fit.intercept, fit.slope);
    QuotientNonNegative(SquaredError(HoursToLatest(times), levels, fit.intercept, fit.slope), |levels| as real);
    values, rmse := predicted, root(meanSquare);
    var fitFactor := MaxReal(0.0, 1.0 - root(meanSquare) / scale);
    var bounded := slope != fit.slope || clamped;
    e := Estimate(Mean(predicted), latest.level, LinearTrend,
                  TrendConfidence(|history|, policy, fitFactor, freshness, bounded), true, |history|, Some(slope),
                  bounded);
    ConfidenceIsBelieved(e.confidence, history, policy, rmse, freshness, bounded);
    assert !bounded ==> line == fit;
  }

  lemma OnLineLength(line: Line, offsets: seq<real>)
    ensures |OnLine(line, offsets)| == |offsets|
  {
  }

  /** Fewer and older samples count for less. */
  function Faded(confidence: real, share: real, freshness: real): real {
    confidence * share * freshness
  }

  /** The latest sample is too old to be used. */
  predicate Stale(history: seq<Sample>, observedAt: real, policy: ForecastPolicy)
    requires history != []
  {
    observedAt - history[|history| - 1].at > policy.staleAfterSeconds
  }

  /** A sample that was just taken counts fully, one on the verge of staleness not at all. */
  function Freshness(history: seq<Sample>, observedAt: real, policy: ForecastPolicy): real
    requires history != [] && policy.staleAfterSeconds > 0.0
  {
    MaxReal(0.0, 1.0 - MaxReal(0.0, observedAt - history[|history| - 1].at) / policy.staleAfterSeconds)
  }

  /** An estimate that only repeats a level repeats it for the whole horizon; negative levels count as none. */
  lemma FallbackRepeats(source: Source, level: real, confidence: real, recent: bool, points: nat)
    ensures var e := Fallback(source, level, confidence, recent, points);
            && e.average == e.current && (level >= 0.0 ==> e.average == level) && (level < 0.0 ==> e.average == 0.0)
            && (0.0 <= confidence <= 1.0 ==> e.confidence == confidence)
            && e.source == source && e.recent == recent && e.points == points && e.slope.None? && !e.clamped
  {
  }

  /** Freshness falls in proportion to age, from 1 to 0 at the age at which samples are stale. */
  lemma FreshnessFades(history: seq<Sample>, observedAt: real, policy: ForecastPolicy)
    requires history != [] && policy.staleAfterSeconds > 0.0
    ensures var age := observedAt - history[|history| - 1].at;
            var freshness := Freshness(history, observedAt, policy);
            if age <= 0.0 then freshness == 1.0 else if age >= policy.staleAfterSeconds then freshness == 0.0
            else freshness * policy.staleAfterSeconds == policy.staleAfterSeconds - age
  {
    var age, limit := observedAt - history[|history| - 1].at, policy.staleAfterSeconds;
    if age > 0.0 {
      var ratio := age / limit;
      assert ratio * limit == age;
      if age < limit {
        RatioBelowOne(age, limit);
        assert (1.0 - ratio) * limit == limit - ratio * limit;
      } else {
        assert ratio >= 1.0;
      }
    } else {
      assert 0.0 / limit == 0.0;
    }
  }

  lemma RatioBelowOne(x: real, y: real)
    requires x < y && y > 0.0
    ensures x / y < 1.0
  {
  }

  /** Confidence in the latest sample falls in proportion to the points that are missing and to its age. */
  lemma ConfidenceFades(confidence: real, points: nat, minimum: nat, freshness: real)
    requires 0 < points && 0 < minimum
    ensures var faded := Faded(confidence, MinReal(1.0, points as real / minimum as real), freshness);
            if points >= minimum then faded == confidence * freshness
            else faded * minimum as real == confidence * freshness * points as real
  {
    var share := points as real / minimum as real;
    assert share * minimum as real == points as real;
    if points >= minimum {
      assert share >= 1.0;
    } else {
      assert share < 1.0;
      FadedRegrouped(confidence, share, freshness, minimum as real);
    }
  }

  lemma FadedRegrouped(confidence: real, share: real, freshness: real, n: real)
    ensures Faded(confidence, share, freshness) * n == confidence * freshness * (share * n)
  {
  }

  /**
   The forecast for one node. `root` is the square root. The configured level stands in for missing or stale samples,
   the latest sample for a stale history without one and for one too short to fit; every other history gives a trend,
   which stays within one hour's largest change of the samples it was fitted to and is the mean of the fitted line
   itself unless it says it was clamped. An estimate is non-negative and its confidence lies in [0, 1].
   */
  method ForecastLevel(series: seq<Sample>, observedAt: real, start: real, requested: real, policy: ForecastPolicy,
                       root: real -> real)
    returns (r: Result<Estimate, ForecastError>)
    requires ValidForecastPolicy(policy)
    requires forall x :: x >= 0.0 ==> root(x) >= 0.0 && root(x) * root(x) == x
    ensures r.Ok? ==> 0.0 <= r.value.average && 0.0 <= r.value.confidence <= 1.0
    ensures var history := Tail(Known(series, observedAt), policy.historyPoints);
            if history == [] || Stale(history, observedAt, policy) then
              r == match policy.fallback
                   case Some(level) =>
                     Ok(Fallback(ConfiguredFallback, level, policy.fallbackConfidence, false, |history|))
                   case None =>
                     if history == [] then Err(NoSamples)
                     else Ok(Fallback(Persistence, history[|history| - 1].level, 0.0, false, |history|))
            else if policy.persistence || |history| < policy.minimumPoints then
              r == Ok(Fallback(Persistence, history[|history| - 1].level,
                               Faded(policy.persistenceConfidence,
                                     MinReal(1.0, |history| as real / policy.minimumPoints as real),
                                     Freshness(history, observedAt, policy)),
                               true, |history|))
            else
              && r.Ok?
              && TrendSound(r.value, history, start, MaxReal(0.0, requested), policy)
              && exists values: seq<real>, rmse: real ::
                   TrendExact(r.value, history, start, MaxReal(0.0, requested), policy,
                              Freshness(history, observedAt, policy), values, rmse)
  {
    hide Known, LinearFit, Mean, LowerBound, UpperBound, OnLine, Offsets, LevelsOf, TimesOf, TrendSound;
    hide Freshness, Faded, TrendExact;
    var duration := MaxReal(0.0, requested);
    var history := Tail(Known(series, observedAt), policy.historyPoints);
    if history == [] {
      return match policy.fallback
             case None => Err(NoSamples)
             case Some(level) => Ok(Fallback(ConfiguredFallback, level, policy.fallbackConfidence, false, 0));
    }
    var latest := history[|history| - 1];
    var age := MaxReal(0.0, observedAt - latest.at);
    var freshness := Freshness(history, observedAt, policy);
    if age > policy.staleAfterSeconds {
      return Ok(match policy.fallback
                case Some(level) => Fallback(ConfiguredFallback, level, policy.fallbackConfidence, false, |history|)
                case None => Fallback(Persistence, latest.level, 0.0, false, |history|));
    }
    if policy.persistence || |history| < policy.minimumPoints {
      var share := MinReal(1.0, |history| as real / policy.minimumPoints as real);
      return Ok(Fallback(Persistence, latest.level, Faded(policy.persistenceConfidence, share, freshness), true,
                         |history|));
    }
    var e, values, rmse := Trend(history, start, duration, policy, freshness, root);
    TrendIsValid(e, history, start, duration, policy);
    r := Ok(e);
  }

  lemma TrendIsValid(e: Estimate, history: seq<Sample>, start: real, duration: real, policy: ForecastPolicy)
    requires history != [] && policy.forecastSampleSeconds > 0.0 && TrendSound(e, history, start, duration, policy)
    ensures e.average >= 0.0 && 0.0 <= e.confidence <= 1.0
  {
  }
}

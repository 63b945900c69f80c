/** Statistics over a persona's exported days: Pearson correlation, weighted
    trends, base statistics, weekday/weekend patterns and the assembled
    result. The days are the `days` records of the persona file; a metric
    is a column of the frame pandas builds from them when some day carries
    it, and a day that does not carry it holds NaN (None) there. */
module Statistics {
  import opened Wrappers
  import opened Sorting
  import Numeric
  import Calendar

  datatype Metric = StepsCount | SleepHours | OtherMetric(name: string)

  datatype Day = Day(date: int, values: map<Metric, Option<real>>)

  /** `m in df.columns`. */
  predicate HasColumn(days: seq<Day>, m: Metric) {
    exists i :: 0 <= i < |days| && m in days[i].values
  }

  function ValueOf(d: Day, m: Metric): Option<real> {
    if m in d.values then d.values[m] else None
  }

  /** `df[m]`. */
  function ColumnOf(days: seq<Day>, m: Metric): (xs: seq<Option<real>>)
    ensures |xs| == |days| && forall i :: 0 <= i < |days| ==> xs[i] == ValueOf(days[i], m)
  {
    seq(|days|, i requires 0 <= i < |days| => ValueOf(days[i], m))
  }

  // ---------------------------------------------------------------------
  // Correlation

  /** `df[[m1, m2]].dropna()`: the rows where both metrics are present, as
      two aligned value lists. */
  function PairedValues(days: seq<Day>, m1: Metric, m2: Metric): (r: (seq<real>, seq<real>))
    ensures |r.0| == |r.1| <= |days|
  {
    if days == [] then ([], [])
    else
      var rest := PairedValues(days[1..], m1, m2);
      var x, y := ValueOf(days[0], m1), ValueOf(days[0], m2);
      if x.Some? && y.Some? then ([x.value] + rest.0, [y.value] + rest.1) else rest
  }

  function MeanOrZero(xs: seq<real>): real {
    if xs == [] then 0.0 else Numeric.Sum(xs) / (|xs| as real)
  }

  /** The sum of (x - mx)(y - my) over aligned lists. */
  function CoDeviation(xs: seq<real>, ys: seq<real>, mx: real, my: real): real
    requires |xs| == |ys|
  {
    if xs == [] then 0.0 else (xs[0] - mx) * (ys[0] - my) + CoDeviation(xs[1..], ys[1..], mx, my)
  }

  /** Pearson's r of aligned values, with the square root left as a
      parameter: None (NaN) when either list is constant, so that the
      denominator vanishes. */
  function Pearson(xs: seq<real>, ys: seq<real>, sqrt: real -> real): (r: Option<real>)
    requires |xs| == |ys|
  {
    var mx, my := MeanOrZero(xs), MeanOrZero(ys);
    Correlate(CoDeviation(xs, ys, mx, my), CoDeviation(xs, xs, mx, mx), CoDeviation(ys, ys, my, my), sqrt)
  }

  /** sxy / sqrt(sxx * syy), None when the denominator is 0. */
  function Correlate(sxy: real, sxx: real, syy: real, sqrt: real -> real): Option<real> {
    var den := sqrt(sxx * syy);
    if den == 0.0 then None else Some(sxy / den)
  }

  /** `calculate_correlation`: Pearson's r of the rows where both metrics
      are present; None when a column is absent, fewer than 3 rows pair up,
      or a column is constant over them (pandas gives NaN). */
  function CalculateCorrelation(days: seq<Day>, m1: Metric, m2: Metric, sqrt: real -> real): (r: Option<real>)
    ensures !HasColumn(days, m1) || !HasColumn(days, m2) ==> r == None
    ensures |PairedValues(days, m1, m2).0| < 3 ==> r == None
    ensures HasColumn(days, m1) && HasColumn(days, m2) && |PairedValues(days, m1, m2).0| >= 3 ==>
      r == Pearson(PairedValues(days, m1, m2).0, PairedValues(days, m1, m2).1, sqrt)
  {
    if !HasColumn(days, m1) || !HasColumn(days, m2) then None
    else
      var pv := PairedValues(days, m1, m2);
      if |pv.0| < 3 then None else Pearson(pv.0, pv.1, sqrt)
  }

  lemma {:induction false} PairedValuesSwap(days: seq<Day>, m1: Metric, m2: Metric)
    ensures PairedValues(days, m2, m1) == (PairedValues(days, m1, m2).1, PairedValues(days, m1, m2).0)
  {
    if days != [] {
      PairedValuesSwap(days[1..], m1, m2);
    }
  }

  lemma {:induction false} CoDeviationSymmetric(xs: seq<real>, ys: seq<real>, mx: real, my: real)
    requires |xs| == |ys|
    ensures CoDeviation(xs, ys, mx, my) == CoDeviation(ys, xs, my, mx)
  {
    if xs != [] {
      CoDeviationSymmetric(xs[1..], ys[1..], mx, my);
      assert (xs[0] - mx) * (ys[0] - my) == (ys[0] - my) * (xs[0] - mx);
    }
  }

  lemma PearsonSymmetric(xs: seq<real>, ys: seq<real>, sqrt: real -> real)
    requires |xs| == |ys|
    ensures Pearson(xs, ys, sqrt) == Pearson(ys, xs, sqrt)
  {
    var mx, my := MeanOrZero(xs), MeanOrZero(ys);
    CoDeviationSymmetric(xs, ys, mx, my);
    var sxx, syy := CoDeviation(xs, xs, mx, mx), CoDeviation(ys, ys, my, my);
    assert sxx * syy == syy * sxx;
  }

  /** The correlation of m1 with m2 is that of m2 with m1. */
  lemma CorrelationSymmetric(days: seq<Day>, m1: Metric, m2: Metric, sqrt: real -> real)
    ensures CalculateCorrelation(days, m1, m2, sqrt) == CalculateCorrelation(days, m2, m1, sqrt)
  {
    PairedValuesSwap(days, m1, m2);
    var pv := PairedValues(days, m1, m2);
    PearsonSymmetric(pv.0, pv.1, sqrt);
  }

  /** Every paired value of m1 is a present value of m1 on some day. */
  lemma {:induction false} PairedFromColumn(days: seq<Day>, m1: Metric, m2: Metric, c: real)
    requires forall i :: 0 <= i < |days| && ValueOf(days[i], m1).Some? ==> ValueOf(days[i], m1).value == c
    ensures forall x :: x in PairedValues(days, m1, m2).0 ==> x == c
  {
    if days != [] {
      forall i | 0 <= i < |days[1..]| && ValueOf(days[1..][i], m1).Some?
        ensures ValueOf(days[1..][i], m1).value == c
      {
        assert days[1..][i] == days[i + 1];
      }
      PairedFromColumn(days[1..], m1, m2, c);
    }
  }

  lemma {:induction false} CoDeviationAtMean(xs: seq<real>, c: real)
    requires forall x :: x in xs ==> x == c
    ensures CoDeviation(xs, xs, c, c) == 0.0
  {
    if xs != [] {
      assert xs[0] in xs;
      assert forall x :: x in xs[1..] ==> x in xs;
      CoDeviationAtMean(xs[1..], c);
    }
  }

  lemma MeanOfConstant(xs: seq<real>, c: real)
    requires xs != [] && forall x :: x in xs ==> x == c
    ensures MeanOrZero(xs) == c
  {
    Numeric.SumOfConstant(xs, c);
    var n := |xs| as real;
    assert n * c / n == c;
  }

  /** A metric that takes one value on every day it is present correlates
      with nothing (None), when the square root of 0 is 0: the standard
      deviation in the denominator of pandas' `corr` is 0 and it gives NaN. */
  lemma ConstantColumnNoCorrelation(days: seq<Day>, m1: Metric, m2: Metric, sqrt: real -> real, c: real)
    requires sqrt(0.0) == 0.0
    requires forall i :: 0 <= i < |days| && ValueOf(days[i], m1).Some? ==> ValueOf(days[i], m1).value == c
    ensures CalculateCorrelation(days, m1, m2, sqrt) == None
  {
    var pv := PairedValues(days, m1, m2);
    if HasColumn(days, m1) && HasColumn(days, m2) && |pv.0| >= 3 {
      PairedFromColumn(days, m1, m2, c);
      MeanOfConstant(pv.0, c);
      CoDeviationAtMean(pv.0, c);
      var my := MeanOrZero(pv.1);
      var syy := CoDeviation(pv.1, pv.1, my, my);
      assert CoDeviation(pv.0, pv.0, c, c) * syy == 0.0;
    }
  }

  /** sqrt is the non-negative square root on the non-negative reals. */
  ghost predicate IsSquareRoot(sqrt: real -> real) {
    forall v :: 0.0 <= v ==> 0.0 <= sqrt(v) && sqrt(v) * sqrt(v) == v
  }

  lemma {:induction false} SquaredDeviationsNonNegative(xs: seq<real>, m: real)
    ensures CoDeviation(xs, xs, m, m) >= 0.0
  {
    if xs != [] {
      SquaredDeviationsNonNegative(xs[1..], m);
      var d := xs[0] - m;
      assert d * d >= 0.0;
    }
  }

  lemma SquareMonotone(s: real, t: real)
    requires 0.0 <= s < t
    ensures s * s < t * t
  {
    var d := t - s;
    assert 0.0 <= s * d && 0.0 < t * d;
    assert t * t == s * s + s * d + t * d;
  }

  lemma RootOfSquare(sqrt: real -> real, s: real)
    requires IsSquareRoot(sqrt) && 0.0 <= s
    ensures sqrt(s * s) == s
  {
    var t := sqrt(s * s);
    assert 0.0 <= s * s;
    assert 0.0 <= t && t * t == s * s;
    if t < s {
      SquareMonotone(t, s);
    } else if s < t {
      SquareMonotone(s, t);
    }
  }

  lemma {:induction false} PairedWithItself(days: seq<Day>, m: Metric)
    ensures PairedValues(days, m, m).0 == PairedValues(days, m, m).1
  {
    if days != [] {
      PairedWithItself(days[1..], m);
    }
  }

  lemma CorrelateWithItself(s: real, sqrt: real -> real)
    requires sqrt(s * s) == s
    ensures Correlate(s, s, s, sqrt).Some? ==> Correlate(s, s, s, sqrt).value == 1.0
  {
    if s != 0.0 {
      assert s / s == 1.0;
    }
  }

  /** A metric correlates perfectly with itself: whenever the correlation is
      defined it is 1, for a true square root. */
  lemma SelfCorrelation(days: seq<Day>, m: Metric, sqrt: real -> real)
    requires IsSquareRoot(sqrt)
    ensures CalculateCorrelation(days, m, m, sqrt).Some? ==> CalculateCorrelation(days, m, m, sqrt).value == 1.0
  {
    PairedWithItself(days, m);
    var xs := PairedValues(days, m, m).0;
    var mx := MeanOrZero(xs);
    var sxx := CoDeviation(xs, xs, mx, mx);
    SquaredDeviationsNonNegative(xs, mx);
    RootOfSquare(sqrt, sxx);
    assert Pearson(xs, xs, sqrt) == Correlate(sxx, sxx, sxx, sqrt);
    CorrelateWithItself(sxx, sqrt);
    assert PairedValues(days, m, m) == (xs, xs);
  }

  // ---------------------------------------------------------------------
  // Trend

  datatype TrendKind = Increasing | Decreasing | Stable | InsufficientData

  datatype Trend = Trend(kind: TrendKind, slope: real)

  /** The classification thresholds are strict. */
  function Classify(slope: real, threshold: real): (k: TrendKind)
    ensures k != InsufficientData
    ensures k == Increasing <==> slope > threshold
    ensures k == Decreasing <==> !(slope > threshold) && slope < -threshold
  {
    if slope > threshold then Increasing
    else if slope < -threshold then Decreasing
    else Stable
  }

  /** A slope exactly at the threshold is stable, and for a non-negative
      threshold negating the slope swaps increasing and decreasing. */
  lemma ClassifyMirror(slope: real, threshold: real)
    requires threshold >= 0.0
    ensures Classify(threshold, threshold) == Stable && Classify(-threshold, threshold) == Stable
    ensures Classify(-slope, threshold) == match Classify(slope, threshold)
      case Increasing => Decreasing
      case Decreasing => Increasing
      case _ => Stable
  {
  }

  datatype Point = Point(date: int, value: real)

  /** The present values with their dates, in input order. */
  function PresentPoints(values: seq<Option<real>>, dates: seq<int>): (ps: seq<Point>)
    requires |values| == |dates|
    ensures |ps| == |Numeric.Present(values)|
  {
    if values == [] then []
    else
      var rest := PresentPoints(values[1..], dates[1..]);
      if values[0].Some? then [Point(dates[0], values[0].value)] + rest else rest
  }

  /** Values that all lie on the line a * date + b give points on that line. */
  lemma {:induction false} PresentPointsOnLine(values: seq<Option<real>>, dates: seq<int>, a: real, b: real)
    requires |values| == |dates|
    requires forall i :: 0 <= i < |values| && values[i].Some? ==> OnLine(Point(dates[i], values[i].value), a, b)
    ensures forall p :: p in PresentPoints(values, dates) ==> OnLine(p, a, b)
  {
    if values != [] {
      assert forall i :: 1 <= i < |values| ==> values[1..][i - 1] == values[i] && dates[1..][i - 1] == dates[i];
      PresentPointsOnLine(values[1..], dates[1..], a, b);
    }
  }

  /** The point lies on the line a * date + b. */
  predicate OnLine(p: Point, a: real, b: real) {
    p.value == a * (p.date as real) + b
  }

  function PointDate(p: Point): real { p.date as real }

  function Pow(d: real, k: nat): real {
    if k == 0 then 1.0 else d * Pow(d, k - 1)
  }

  /** `[decay ** (n - i - 1) for i in range(n)]`. */
  function RecencyWeights(n: nat, decay: real): (ws: seq<real>)
    ensures |ws| == n
  {
    seq(n, i requires 0 <= i < n => Pow(decay, n - i - 1))
  }

  /** The latest position gets weight 1, and every earlier one `decay` times
      the weight of the position after it. */
  lemma RecencyWeightsDecay(n: nat, decay: real)
    ensures n > 0 ==> RecencyWeights(n, decay)[n - 1] == 1.0
    ensures forall i :: 0 <= i < n - 1 ==> RecencyWeights(n, decay)[i] == decay * RecencyWeights(n, decay)[i + 1]
  {
    var ws := RecencyWeights(n, decay);
    if n > 0 {
      assert ws[n - 1] == Pow(decay, 0);
    }
    forall i | 0 <= i < n - 1 ensures ws[i] == decay * ws[i + 1] {
      assert ws[i] == Pow(decay, n - i - 1) && ws[i + 1] == Pow(decay, n - i - 2);
    }
  }

  /** The least-squares weights of `np.polyfit(..., w=ws)`: polyfit
      multiplies the residuals by w before squaring them. */
  function SquaredWeights(ws: seq<real>): (r: seq<real>)
    ensures |r| == |ws| && forall i :: 0 <= i < |ws| ==> r[i] == ws[i] * ws[i]
  {
    seq(|ws|, i requires 0 <= i < |ws| => ws[i] * ws[i])
  }

  /** x (the date), y (the value), 1, x^2 and x * y at every point. */
  function Xs(ps: seq<Point>): (r: seq<real>)
    ensures |r| == |ps| && forall i :: 0 <= i < |ps| ==> r[i] == ps[i].date as real
  {
    seq(|ps|, i requires 0 <= i < |ps| => ps[i].date as real)
  }

  function Ys(ps: seq<Point>): (r: seq<real>)
    ensures |r| == |ps| && forall i :: 0 <= i < |ps| ==> r[i] == ps[i].value
  {
    seq(|ps|, i requires 0 <= i < |ps| => ps[i].value)
  }

  function Ones(ps: seq<Point>): (r: seq<real>)
    ensures |r| == |ps| && forall i :: 0 <= i < |ps| ==> r[i] == 1.0
  {
    seq(|ps|, i requires 0 <= i < |ps| => 1.0)
  }

  function XXs(ps: seq<Point>): (r: seq<real>)
    ensures |r| == |ps| && forall i :: 0 <= i < |ps| ==> r[i] == (ps[i].date as real) * (ps[i].date as real)
  {
    seq(|ps|, i requires 0 <= i < |ps| => (ps[i].date as real) * (ps[i].date as real))
  }

  function XYs(ps: seq<Point>): (r: seq<real>)
    ensures |r| == |ps| && forall i :: 0 <= i < |ps| ==> r[i] == (ps[i].date as real) * ps[i].value
  {
    seq(|ps|, i requires 0 <= i < |ps| => (ps[i].date as real) * ps[i].value)
  }

  /** sum of w[i] * f[i]. */
  function WSum(ws: seq<real>, f: seq<real>): real
    requires |ws| == |f|
  {
    if ws == [] then 0.0 else ws[0] * f[0] + WSum(ws[1..], f[1..])
  }

  lemma {:induction false} WSumCombine(ws: seq<real>, f: seq<real>, g: seq<real>, h: seq<real>, a: real, b: real)
    requires |ws| == |f| == |g| == |h|
    requires forall i :: 0 <= i < |h| ==> h[i] == a * f[i] + b * g[i]
    ensures WSum(ws, h) == a * WSum(ws, f) + b * WSum(ws, g)
  {
    if ws != [] {
      WSumCombine(ws[1..], f[1..], g[1..], h[1..], a, b);
      CombineStep(ws[0], f[0], g[0], h[0], a, b,
                  WSum(ws[1..], f[1..]), WSum(ws[1..], g[1..]), WSum(ws[1..], h[1..]));
    }
  }

  lemma CombineStep(w: real, f: real, g: real, h: real, a: real, b: real, sf: real, sg: real, sh: real)
    requires h == a * f + b * g && sh == a * sf + b * sg
    ensures w * h + sh == a * (w * f + sf) + b * (w * g + sg)
  {
    assert w * h == a * (w * f) + b * (w * g);
  }

  /** The least-squares slope of the normal equations for the weighted sums
      S = sum W, Sx = sum W x, Sy = sum W y, Sxx = sum W x^2, Sxy = sum W x y;
      0 when the fit is not determined (all x coincide). */
  function SlopeOf(s: real, sx: real, sy: real, sxx: real, sxy: real): real {
    var d := Det(s, sx, sxx);
    if d == 0.0 then 0.0 else (s * sxy - sx * sy) / d
  }

  /** The determinant of the normal equations, from the sums of the weights,
      of w x and of w x^2. */
  function Det(s: real, sx: real, sxx: real): real {
    s * sxx - sx * sx
  }

  /** The determinant of the normal equations of a weighted fit. */
  function Determinant(ps: seq<Point>, ws: seq<real>): real
    requires |ws| == |ps|
  {
    Det(WSum(ws, Ones(ps)), WSum(ws, Xs(ps)), WSum(ws, XXs(ps)))
  }

  /** The slope `np.polyfit(x, y, 1, w=weights)` fits to the points. */
  function WeightedSlope(ps: seq<Point>, decay: real): real {
    var ws := SquaredWeights(RecencyWeights(|ps|, decay));
    SlopeOf(WSum(ws, Ones(ps)), WSum(ws, Xs(ps)), WSum(ws, Ys(ps)), WSum(ws, XXs(ps)), WSum(ws, XYs(ps)))
  }

  /** `identify_trend`: fewer than 3 present values is insufficient data with
      slope 0; otherwise the present points are sorted by date, fitted, and
      the slope classified. */
  function IdentifyTrend(values: seq<Option<real>>, dates: seq<int>, threshold: real, decay: real): (t: Trend)
    requires |values| == |dates|
    ensures |Numeric.Present(values)| < 3 <==> t.kind == InsufficientData
    ensures |Numeric.Present(values)| < 3 ==> t.slope == 0.0
    ensures |Numeric.Present(values)| >= 3 ==> t.kind == Classify(t.slope, threshold)
  {
    var ps := PresentPoints(values, dates);
    if |ps| < 3 then Trend(InsufficientData, 0.0)
    else
      var slope := WeightedSlope(StableSort(ps, PointDate), decay);
      Trend(Classify(slope, threshold), slope)
  }

  /** The sums of a fit where every y is a x + b. */
  lemma LinearSums(ps: seq<Point>, ws: seq<real>, a: real, b: real)
    requires |ws| == |ps|
    requires forall p :: p in ps ==> OnLine(p, a, b)
    ensures Affine(WSum(ws, Ys(ps)), WSum(ws, Xs(ps)), WSum(ws, Ones(ps)), a, b)
    ensures Affine(WSum(ws, XYs(ps)), WSum(ws, XXs(ps)), WSum(ws, Xs(ps)), a, b)
  {
    LinearYSum(ps, ws, a, b);
    LinearXYSum(ps, ws, a, b);
  }

  lemma LinearYSum(ps: seq<Point>, ws: seq<real>, a: real, b: real)
    requires |ws| == |ps|
    requires forall p :: p in ps ==> OnLine(p, a, b)
    ensures Affine(WSum(ws, Ys(ps)), WSum(ws, Xs(ps)), WSum(ws, Ones(ps)), a, b)
  {
    LinearYs(ps, a, b);
    WSumAffine(ws, Xs(ps), Ones(ps), Ys(ps), a, b);
  }

  lemma LinearXYSum(ps: seq<Point>, ws: seq<real>, a: real, b: real)
    requires |ws| == |ps|
    requires forall p :: p in ps ==> OnLine(p, a, b)
    ensures Affine(WSum(ws, XYs(ps)), WSum(ws, XXs(ps)), WSum(ws, Xs(ps)), a, b)
  {
    LinearXYs(ps, a, b);
    WSumAffine(ws, XXs(ps), Xs(ps), XYs(ps), a, b);
  }

  lemma WSumAffine(ws: seq<real>, f: seq<real>, g: seq<real>, h: seq<real>, a: real, b: real)
    requires |ws| == |f| == |g| == |h|
    requires forall i :: 0 <= i < |h| ==> h[i] == a * f[i] + b * g[i]
    ensures Affine(WSum(ws, h), WSum(ws, f), WSum(ws, g), a, b)
  {
    WSumCombine(ws, f, g, h, a, b);
  }

  lemma LinearYs(ps: seq<Point>, a: real, b: real)
    requires forall p :: p in ps ==> OnLine(p, a, b)
    ensures forall i :: 0 <= i < |ps| ==> Ys(ps)[i] == a * Xs(ps)[i] + b * Ones(ps)[i]
  {
    forall i | 0 <= i < |ps| ensures Ys(ps)[i] == a * Xs(ps)[i] + b * Ones(ps)[i] {
      assert OnLine(ps[i], a, b) by { assert ps[i] in ps; }
      LineProducts(Xs(ps)[i], Ys(ps)[i], a, b);
    }
  }

  lemma LinearXYs(ps: seq<Point>, a: real, b: real)
    requires forall p :: p in ps ==> OnLine(p, a, b)
    ensures forall i :: 0 <= i < |ps| ==> XYs(ps)[i] == a * XXs(ps)[i] + b * Xs(ps)[i]
  {
    forall i | 0 <= i < |ps| ensures XYs(ps)[i] == a * XXs(ps)[i] + b * Xs(ps)[i] {
      assert OnLine(ps[i], a, b) by { assert ps[i] in ps; }
      LineProducts(Xs(ps)[i], Ys(ps)[i], a, b);
    }
  }

  lemma LineProducts(x: real, y: real, a: real, b: real)
    requires y == a * x + b
    ensures y == a * x + b * 1.0 && x * y == a * (x * x) + b * x
  {
  }

  /** y is a x + b one. */
  predicate Affine(y: real, x: real, one: real, a: real, b: real) {
    y == a * x + b * one
  }

  lemma LinearSlope(s: real, sx: real, sy: real, sxx: real, sxy: real, a: real, b: real)
    requires Det(s, sx, sxx) != 0.0
    requires Affine(sy, sx, s, a, b) && Affine(sxy, sxx, sx, a, b)
    ensures SlopeOf(s, sx, sy, sxx, sxy) == a
  {
    var d := s * sxx - sx * sx;
    assert s * (a * sxx + b * sx) - sx * (a * sx + b * s) == a * d;
    assert a * d / d == a;
  }

  /** The fit recovers an exact line: when every point is on a * date + b and
      the fit is determined, the slope is a, whatever the weights. */
  lemma ExactLineSlope(ps: seq<Point>, decay: real, a: real, b: real)
    requires forall p :: p in ps ==> OnLine(p, a, b)
    requires Determinant(ps, SquaredWeights(RecencyWeights(|ps|, decay))) != 0.0
    ensures WeightedSlope(ps, decay) == a
  {
    var ws := SquaredWeights(RecencyWeights(|ps|, decay));
    LineFit(ps, ws, a, b);
  }

  /** The same for any weights of the right length. */
  lemma LineFit(ps: seq<Point>, ws: seq<real>, a: real, b: real)
    requires |ws| == |ps|
    requires forall p :: p in ps ==> OnLine(p, a, b)
    requires Determinant(ps, ws) != 0.0
    ensures SlopeOf(WSum(ws, Ones(ps)), WSum(ws, Xs(ps)), WSum(ws, Ys(ps)), WSum(ws, XXs(ps)), WSum(ws, XYs(ps))) == a
  {
    LinearSums(ps, ws, a, b);
    LinearSlope(WSum(ws, Ones(ps)), WSum(ws, Xs(ps)), WSum(ws, Ys(ps)), WSum(ws, XXs(ps)), WSum(ws, XYs(ps)), a, b);
  }

  /** A metric that moves by exactly a per day is a trend with slope a,
      classified by a against the threshold, once the fit is determined. */
  lemma ExactLineTrend(values: seq<Option<real>>, dates: seq<int>, threshold: real, decay: real, a: real, b: real)
    requires |values| == |dates| && |Numeric.Present(values)| >= 3
    requires forall i :: 0 <= i < |values| && values[i].Some? ==> OnLine(Point(dates[i], values[i].value), a, b)
    requires var ps := StableSort(PresentPoints(values, dates), PointDate);
      Determinant(ps, SquaredWeights(RecencyWeights(|ps|, decay))) != 0.0
    ensures IdentifyTrend(values, dates, threshold, decay) == Trend(Classify(a, threshold), a)
  {
    var raw := PresentPoints(values, dates);
    var ps := StableSort(raw, PointDate);
    StableSortCorrect(raw, PointDate);
    PresentPointsOnLine(values, dates, a, b);
    forall p | p in ps ensures OnLine(p, a, b) {
      assert p in multiset(raw);
    }
    ExactLineSlope(ps, decay, a, b);
  }

  // ---------------------------------------------------------------------
  // Base statistics

  /** The summary of one metric; every field stays 0.0 when the metric has
      no present value. The sample variance of one value is NaN (None). */
  datatype Summary = Summary(avg: real, variance: Option<real>, std: Option<real>, min: real, max: real)

  const ZeroSummary := Summary(0.0, Some(0.0), Some(0.0), 0.0, 0.0)

  datatype DateRange = DateRange(start: int, end: int)

  datatype BaseStats = BaseStats(steps: Summary, sleep: Summary, dateRange: Option<DateRange>)

  const EmptyBaseStats := BaseStats(ZeroSummary, ZeroSummary, None)

  function EarliestDate(days: seq<Day>): (d: int)
    requires days != []
    ensures exists i :: 0 <= i < |days| && days[i].date == d
    ensures forall i :: 0 <= i < |days| ==> d <= days[i].date
  {
    if |days| == 1 then days[0].date
    else
      var rest := EarliestDate(days[1..]);
      if days[0].date <= rest then days[0].date else rest
  }

  function LatestDate(days: seq<Day>): (d: int)
    requires days != []
    ensures exists i :: 0 <= i < |days| && days[i].date == d
    ensures forall i :: 0 <= i < |days| ==> days[i].date <= d
  {
    if |days| == 1 then days[0].date
    else
      var rest := LatestDate(days[1..]);
      if days[0].date >= rest then days[0].date else rest
  }

  /** The summary of the present values of a metric. */
  function SummaryOf(xs: seq<real>, sqrt: real -> real): Summary {
    if xs == [] then ZeroSummary
    else Summary(Numeric.Mean(xs).value, Numeric.SampleVariance(xs), Numeric.SampleStd(xs, sqrt),
                 Numeric.MinOf(xs), Numeric.MaxOf(xs))
  }

  /** The summary of metric m, or the zero summary when the column is absent. */
  function MetricSummary(days: seq<Day>, m: Metric, sqrt: real -> real): Summary {
    if HasColumn(days, m) then SummaryOf(Numeric.Present(ColumnOf(days, m)), sqrt) else ZeroSummary
  }

  /** What `calculate_base_stats` returns. */
  function BaseStatsOf(days: seq<Day>, sqrt: real -> real): BaseStats {
    if days == [] then EmptyBaseStats
    else BaseStats(MetricSummary(days, StepsCount, sqrt), MetricSummary(days, SleepHours, sqrt),
                   Some(DateRange(EarliestDate(days), LatestDate(days))))
  }

  /** `calculate_base_stats`: the defaults, then the date range, then the
      steps and the sleep summaries when they have present values. */
  method CalculateBaseStats(days: seq<Day>, sqrt: real -> real) returns (stats: BaseStats)
    ensures stats == BaseStatsOf(days, sqrt)
  {
    stats := EmptyBaseStats;
    if days == [] {
      return;
    }
    stats := stats.(dateRange := Some(DateRange(EarliestDate(days), LatestDate(days))));
    if HasColumn(days, StepsCount) {
      var steps := Numeric.Present(ColumnOf(days, StepsCount));
      if |steps| > 0 {
        stats := stats.(steps := Summary(Numeric.Mean(steps).value, Numeric.SampleVariance(steps),
                                         Numeric.SampleStd(steps, sqrt), Numeric.MinOf(steps), Numeric.MaxOf(steps)));
      }
    }
    if HasColumn(days, SleepHours) {
      var sleep := Numeric.Present(ColumnOf(days, SleepHours));
      if |sleep| > 0 {
        stats := stats.(sleep := Summary(Numeric.Mean(sleep).value, Numeric.SampleVariance(sleep),
                                         Numeric.SampleStd(sleep, sqrt), Numeric.MinOf(sleep), Numeric.MaxOf(sleep)));
      }
    }
  }

  /** A summary of present values: the average lies between the minimum and
      the maximum, which are values of the metric; the variance is NaN for a
      single value and non-negative otherwise. */
  lemma SummaryBounds(xs: seq<real>, sqrt: real -> real)
    requires xs != []
    ensures var s := SummaryOf(xs, sqrt);
      && s.min <= s.avg <= s.max
      && s.min in xs && s.max in xs
      && (forall x :: x in xs ==> s.min <= x <= s.max)
      && (s.variance.None? <==> |xs| == 1)
      && (s.variance.Some? ==> s.variance.value >= 0.0)
  {
    Numeric.MeanWithinRange(xs);
  }

  /** Base statistics of no days are all zero with no date range; of some
      days, the date range runs from the earliest to the latest date, and
      each metric's average lies between its minimum and maximum. */
  lemma BaseStatsCorrect(days: seq<Day>, sqrt: real -> real)
    ensures days == [] ==> BaseStatsOf(days, sqrt) == EmptyBaseStats
    ensures days != [] ==> var st := BaseStatsOf(days, sqrt);
      && st.dateRange.Some?
      && st.dateRange.value.start <= st.dateRange.value.end
      && (forall i :: 0 <= i < |days| ==> st.dateRange.value.start <= days[i].date <= st.dateRange.value.end)
      && st.steps.min <= st.steps.avg <= st.steps.max
      && st.sleep.min <= st.sleep.avg <= st.sleep.max
    ensures days != [] && HasColumn(days, StepsCount) && Numeric.Present(ColumnOf(days, StepsCount)) != [] ==>
      Some(BaseStatsOf(days, sqrt).steps.avg) == Numeric.Mean(Numeric.Present(ColumnOf(days, StepsCount)))
    ensures days != [] && HasColumn(days, SleepHours) && Numeric.Present(ColumnOf(days, SleepHours)) != [] ==>
      Some(BaseStatsOf(days, sqrt).sleep.avg) == Numeric.Mean(Numeric.Present(ColumnOf(days, SleepHours)))
  {
    if days != [] {
      var steps := Numeric.Present(ColumnOf(days, StepsCount));
      var sleep := Numeric.Present(ColumnOf(days, SleepHours));
      if steps != [] {
        SummaryBounds(steps, sqrt);
      }
      if sleep != [] {
        SummaryBounds(sleep, sqrt);
      }
    }
  }

  // ---------------------------------------------------------------------
  // Weekday patterns

  datatype Pattern = Pattern(weekdayAvg: real, weekendAvg: real, diff: real)

  datatype WeekdayPatterns = WeekdayPatterns(steps: Pattern, sleep: Pattern)

  const ZeroPattern := Pattern(0.0, 0.0, 0.0)

  /** The metric on weekend days (weekend = true) or weekdays. */
  function SideColumn(days: seq<Day>, m: Metric, weekend: bool): (xs: seq<Option<real>>)
    ensures |xs| <= |days|
  {
    if days == [] then []
    else
      (if Calendar.IsWeekend(days[0].date) == weekend then [ValueOf(days[0], m)] else [])
      + SideColumn(days[1..], m, weekend)
  }

  /** The pattern of metric m: each side's mean over its present values, 0.0
      for a side without any, and their difference even then. */
  function PatternOf(days: seq<Day>, m: Metric): Pattern {
    if !HasColumn(days, m) then ZeroPattern
    else
      var wd := Numeric.Present(SideColumn(days, m, false));
      var we := Numeric.Present(SideColumn(days, m, true));
      var wdAvg := if wd == [] then 0.0 else Numeric.Mean(wd).value;
      var weAvg := if we == [] then 0.0 else Numeric.Mean(we).value;
      Pattern(wdAvg, weAvg, weAvg - wdAvg)
  }

  /** `calculate_weekday_patterns`: the zero defaults, then the steps and
      the sleep patterns when those columns exist. */
  method CalculateWeekdayPatterns(days: seq<Day>) returns (patterns: WeekdayPatterns)
    ensures patterns == WeekdayPatterns(PatternOf(days, StepsCount), PatternOf(days, SleepHours))
  {
    patterns := WeekdayPatterns(ZeroPattern, ZeroPattern);
    if HasColumn(days, StepsCount) {
      var p := MetricPattern(days, StepsCount);
      patterns := patterns.(steps := p);
    }
    if HasColumn(days, SleepHours) {
      var p := MetricPattern(days, SleepHours);
      patterns := patterns.(sleep := p);
    }
  }

  method MetricPattern(days: seq<Day>, m: Metric) returns (p: Pattern)
    requires HasColumn(days, m)
    ensures p == PatternOf(days, m)
  {
    var wd := Numeric.Present(SideColumn(days, m, false));
    var we := Numeric.Present(SideColumn(days, m, true));
    p := ZeroPattern;
    if |wd| > 0 {
      p := p.(weekdayAvg := Numeric.Mean(wd).value);
    }
    if |we| > 0 {
      p := p.(weekendAvg := Numeric.Mean(we).value);
    }
    p := p.(diff := p.weekendAvg - p.weekdayAvg);
  }

  /** Every day is on exactly one side: the weekday and weekend present
      values together are the metric's present values, counted and summed. */
  lemma SidesPartition(days: seq<Day>, m: Metric)
    ensures |Numeric.Present(SideColumn(days, m, false))| + |Numeric.Present(SideColumn(days, m, true))|
            == |Numeric.Present(ColumnOf(days, m))|
    ensures Numeric.Sum(Numeric.Present(SideColumn(days, m, false))) + Numeric.Sum(Numeric.Present(SideColumn(days, m, true)))
            == Numeric.Sum(Numeric.Present(ColumnOf(days, m)))
  {
    SidesCount(days, m);
    SidesSum(days, m);
  }

  lemma {:induction false} SidesCount(days: seq<Day>, m: Metric)
    ensures |Numeric.Present(SideColumn(days, m, false))| + |Numeric.Present(SideColumn(days, m, true))|
            == |Numeric.Present(ColumnOf(days, m))|
  {
    if days != [] {
      SidesCount(days[1..], m);
      SidesHead(days, m);
    }
  }

  lemma {:induction false} SidesSum(days: seq<Day>, m: Metric)
    ensures Numeric.Sum(Numeric.Present(SideColumn(days, m, false))) + Numeric.Sum(Numeric.Present(SideColumn(days, m, true)))
            == Numeric.Sum(Numeric.Present(ColumnOf(days, m)))
  {
    if days != [] {
      SidesSum(days[1..], m);
      var head := Numeric.Present([ValueOf(days[0], m)]);
      var weekend := Calendar.IsWeekend(days[0].date);
      SidesHead(days, m);
      Numeric.SumAppend(head, Numeric.Present(ColumnOf(days[1..], m)));
      Numeric.SumAppend(head, Numeric.Present(SideColumn(days[1..], m, weekend)));
    }
  }

  /** The first day's value joins the column and its own side, not the other. */
  lemma SidesHead(days: seq<Day>, m: Metric)
    requires days != []
    ensures var head := Numeric.Present([ValueOf(days[0], m)]);
      && Numeric.Present(ColumnOf(days, m)) == head + Numeric.Present(ColumnOf(days[1..], m))
      && Numeric.Present(SideColumn(days, m, Calendar.IsWeekend(days[0].date)))
         == head + Numeric.Present(SideColumn(days[1..], m, Calendar.IsWeekend(days[0].date)))
      && SideColumn(days, m, !Calendar.IsWeekend(days[0].date)) == SideColumn(days[1..], m, !Calendar.IsWeekend(days[0].date))
  {
    var v := [ValueOf(days[0], m)];
    var weekend := Calendar.IsWeekend(days[0].date);
    assert ColumnOf(days, m) == v + ColumnOf(days[1..], m);
    Numeric.PresentAppend(v, ColumnOf(days[1..], m));
    assert SideColumn(days, m, weekend) == v + SideColumn(days[1..], m, weekend);
    Numeric.PresentAppend(v, SideColumn(days[1..], m, weekend));
  }

  /** The difference is weekend minus weekday, each side's average lies
      between its smallest and largest value, and a side with no values
      stays at 0.0. */
  lemma PatternCorrect(days: seq<Day>, m: Metric)
    ensures PatternOf(days, m).diff == PatternOf(days, m).weekendAvg - PatternOf(days, m).weekdayAvg
    ensures !HasColumn(days, m) ==> PatternOf(days, m) == ZeroPattern
    ensures HasColumn(days, m) && Numeric.Present(SideColumn(days, m, false)) == [] ==> PatternOf(days, m).weekdayAvg == 0.0
    ensures HasColumn(days, m) && Numeric.Present(SideColumn(days, m, true)) == [] ==> PatternOf(days, m).weekendAvg == 0.0
    ensures HasColumn(days, m) && Numeric.Present(SideColumn(days, m, false)) != [] ==>
      var wd := Numeric.Present(SideColumn(days, m, false));
      Numeric.MinOf(wd) <= PatternOf(days, m).weekdayAvg <= Numeric.MaxOf(wd)
    ensures HasColumn(days, m) && Numeric.Present(SideColumn(days, m, true)) != [] ==>
      var we := Numeric.Present(SideColumn(days, m, true));
      Numeric.MinOf(we) <= PatternOf(days, m).weekendAvg <= Numeric.MaxOf(we)
  {
    var wd := Numeric.Present(SideColumn(days, m, false));
    var we := Numeric.Present(SideColumn(days, m, true));
    if wd != [] {
      Numeric.MeanWithinRange(wd);
    }
    if we != [] {
      Numeric.MeanWithinRange(we);
    }
  }

  // ---------------------------------------------------------------------
  // The assembled result

  /** The persona file: `persona`, `id` and `start_date` may be missing. */
  datatype PersonaData = PersonaData(persona: Option<string>, id: Option<string>, startDate: Option<string>, days: seq<Day>)

  datatype Metadata = Metadata(persona: string, id: string, startDate: Option<string>, computedAt: string, daysCount: nat)

  /** An empty `correlations`, `trends` or `weekday_patterns` dict is the
      empty map, or None for the patterns. */
  datatype AllStatistics = AllStatistics(
    metadata: Metadata,
    baseStats: BaseStats,
    correlations: map<string, Option<real>>,
    trends: map<string, Option<Trend>>,
    weekdayPatterns: Option<WeekdayPatterns>)

  function DatesOf(days: seq<Day>): (ds: seq<int>)
    ensures |ds| == |days| && forall i :: 0 <= i < |days| ==> ds[i] == days[i].date
  {
    seq(|days|, i requires 0 <= i < |days| => days[i].date)
  }

  const TrendThreshold := 0.15
  const TrendDecay := 0.95

  /** The trend of metric m over the days, None when the column is absent. */
  function MetricTrend(days: seq<Day>, m: Metric): (t: Option<Trend>)
    ensures t.Some? <==> HasColumn(days, m)
  {
    if HasColumn(days, m) then Some(IdentifyTrend(ColumnOf(days, m), DatesOf(days), TrendThreshold, TrendDecay)) else None
  }

  function MetadataOf(data: PersonaData, now: string): (m: Metadata)
    ensures m.daysCount == |data.days|
    ensures m.persona == data.persona.GetOr("Unknown") && m.id == data.id.GetOr("Unknown")
    ensures m.startDate == if data.days == [] then None else Some(data.startDate.GetOr("Unknown"))
  {
    Metadata(data.persona.GetOr("Unknown"), data.id.GetOr("Unknown"),
             if data.days == [] then None else Some(data.startDate.GetOr("Unknown")), now, |data.days|)
  }

  /** `compute_all_statistics`; `now` is the `datetime.now()` timestamp. The
      correlations and trends of no days are empty and their weekday
      patterns absent. */
  function ComputeAllStatistics(data: PersonaData, now: string, sqrt: real -> real): (r: AllStatistics)
    ensures r.metadata == MetadataOf(data, now)
    ensures r.baseStats == BaseStatsOf(data.days, sqrt)
    ensures data.days == [] ==>
      r.correlations == map[] && r.trends == map[] && r.weekdayPatterns.None?
    ensures data.days != [] ==>
      && r.correlations == map["steps_sleep" := CalculateCorrelation(data.days, StepsCount, SleepHours, sqrt)]
      && r.trends == map["steps" := MetricTrend(data.days, StepsCount), "sleep" := MetricTrend(data.days, SleepHours)]
      && r.weekdayPatterns == Some(WeekdayPatterns(PatternOf(data.days, StepsCount), PatternOf(data.days, SleepHours)))
  {
    var days := data.days;
    if days == [] then
      AllStatistics(MetadataOf(data, now), BaseStatsOf(days, sqrt), map[], map[], None)
    else
      AllStatistics(
        MetadataOf(data, now),
        BaseStatsOf(days, sqrt),
        map["steps_sleep" := CalculateCorrelation(days, StepsCount, SleepHours, sqrt)],
        map["steps" := MetricTrend(days, StepsCount), "sleep" := MetricTrend(days, SleepHours)],
        Some(WeekdayPatterns(PatternOf(days, StepsCount), PatternOf(days, SleepHours))))
  }

  /** With no days, the base statistics are the zero defaults and the
      metadata has no start date. */
  lemma AllStatisticsOfNoDays(data: PersonaData, now: string, sqrt: real -> real)
    requires data.days == []
    ensures ComputeAllStatistics(data, now, sqrt).baseStats == EmptyBaseStats
    ensures ComputeAllStatistics(data, now, sqrt).metadata.startDate.None?
  {
    BaseStatsCorrect(data.days, sqrt);
  }

  /** With days, the result has exactly one correlation and two trends. */
  lemma AllStatisticsKeys(data: PersonaData, now: string, sqrt: real -> real)
    requires data.days != []
    ensures ComputeAllStatistics(data, now, sqrt).correlations.Keys == {"steps_sleep"}
    ensures ComputeAllStatistics(data, now, sqrt).trends.Keys == {"steps", "sleep"}
  {
    var r := ComputeAllStatistics(data, now, sqrt);
    var c := CalculateCorrelation(data.days, StepsCount, SleepHours, sqrt);
    var ts, tl := MetricTrend(data.days, StepsCount), MetricTrend(data.days, SleepHours);
    assert r.correlations == map["steps_sleep" := c];
    assert r.trends == map["steps" := ts, "sleep" := tl];
    TwoKeys(ts, tl);
  }

  lemma TwoKeys<V>(a: V, b: V)
    ensures map["steps" := a, "sleep" := b].Keys == {"steps", "sleep"}
  {
  }

  /** With days, there is a trend exactly for each metric that is a column. */
  lemma AllStatisticsTrends(data: PersonaData, now: string, sqrt: real -> real)
    requires data.days != []
    ensures ComputeAllStatistics(data, now, sqrt).trends["steps"].Some? <==> HasColumn(data.days, StepsCount)
    ensures ComputeAllStatistics(data, now, sqrt).trends["sleep"].Some? <==> HasColumn(data.days, SleepHours)
  {
    assert "steps" != "sleep" by { assert "steps"[1] != "sleep"[1]; }
  }

  /** The assembled result counts the days, has the base statistics of the
      days (zero with no date range when there are none), exactly one
      correlation and two trends for a non-empty file, and a trend exactly
      for the metrics that are columns. */
  lemma AllStatisticsShape(data: PersonaData, now: string, sqrt: real -> real)
    ensures var r := ComputeAllStatistics(data, now, sqrt);
      && r.metadata.daysCount == |data.days|
      && (data.days == [] ==> r.baseStats == EmptyBaseStats && r.metadata.startDate.None?)
      && (data.days != [] ==>
            && r.correlations.Keys == {"steps_sleep"}
            && r.trends.Keys == {"steps", "sleep"}
            && (r.trends["steps"].Some? <==> HasColumn(data.days, StepsCount))
            && (r.trends["sleep"].Some? <==> HasColumn(data.days, SleepHours))
            && r.metadata.startDate.Some?)
  {
    if data.days == [] {
      AllStatisticsOfNoDays(data, now, sqrt);
    } else {
      AllStatisticsKeys(data, now, sqrt);
      AllStatisticsTrends(data, now, sqrt);
    }
  }
}

/** The persona fitness scorers: clamped-linear (Persona A) and Gaussian
    (Persona B) proximity scores of a window's summary statistics, combined
    by weights that sum to 1. A statistic pandas reports as NaN (the mean of
    no values, the sample deviation of fewer than two) is `None`. The
    exponential and the square root are parameters. */
module PersonaScoring {
  import opened Wrappers
  import opened Frames
  import Numeric

  function Max(a: real, b: real): real { if a >= b then a else b }
  function Min(a: real, b: real): real { if a <= b then a else b }
  function Abs(x: real): real { if x < 0.0 then -x else x }

  /** `clamp01` on a defined value. */
  function Clamp01(x: real): (r: real)
    ensures 0.0 <= r <= 1.0
    ensures 0.0 <= x <= 1.0 ==> r == x
    ensures x < 0.0 ==> r == 0.0
    ensures x > 1.0 ==> r == 1.0
  {
    Max(0.0, Min(1.0, x))
  }

  /** Clamping twice is clamping once. */
  lemma Clamp01Idempotent(x: real)
    ensures Clamp01(Clamp01(x)) == Clamp01(x)
  {
  }

  /** `clamp01` as Python evaluates it on a float that may be NaN:
      `min(1.0, nan)` keeps its first argument, so NaN clamps to 1.0. */
  function Clamp01Py(x: Option<real>): (r: real)
    ensures 0.0 <= r <= 1.0
    ensures x.None? ==> r == 1.0
    ensures x.Some? ==> r == Clamp01(x.value)
  {
    match x
    case None => Max(0.0, 1.0)
    case Some(v) => Clamp01(v)
  }

  /** The intended reading of a component whose statistic is undefined: it
      earns nothing. */
  function Clamp01OrZero(x: Option<real>): (r: real)
    ensures 0.0 <= r <= 1.0
    ensures x.None? ==> r == 0.0
    ensures x.Some? ==> r == Clamp01(x.value)
  {
    match x
    case None => 0.0
    case Some(v) => Clamp01(v)
  }

  // ---------------------------------------------------------------------
  // Gaussian proximity

  /** What the model assumes of `np.exp` where the Gaussian uses it: one at
      zero, and in (0, 1] on the non-positive reals. */
  ghost predicate ExpOnNonPositive(exp: real -> real) {
    && exp(0.0) == 1.0
    && forall t :: t <= 0.0 ==> 0.0 < exp(t) <= 1.0
  }

  function Sq(x: real): real { x * x }

  lemma SqProperties(x: real)
    ensures Sq(x) >= 0.0
    ensures Sq(-x) == Sq(x)
  {
    if x < 0.0 {
      assert (-x) * (-x) >= 0.0;
    }
    assert (-x) * (-x) == x * x;
  }

  /** `gaussian(x, mu, sigma)`: exp(-(x - mu)^2 / (2 sigma^2)), written with
      the standardised deviation z = (x - mu) / sigma as exp(-z^2 / 2). */
  function Gaussian(x: real, mu: real, sigma: real, exp: real -> real): real
    requires sigma != 0.0
  {
    exp(-Sq((x - mu) / sigma) / 2.0)
  }

  /** The Gaussian score is 1 exactly on target and lies in (0, 1]. */
  lemma GaussianBounds(x: real, mu: real, sigma: real, exp: real -> real)
    requires sigma != 0.0 && ExpOnNonPositive(exp)
    ensures 0.0 < Gaussian(x, mu, sigma, exp) <= 1.0
    ensures Gaussian(mu, mu, sigma, exp) == 1.0
  {
    SqProperties((x - mu) / sigma);
    assert (mu - mu) / sigma == 0.0;
  }

  /** Being d above the target scores the same as being d below it. */
  lemma GaussianSymmetric(d: real, mu: real, sigma: real, exp: real -> real)
    requires sigma != 0.0
    ensures Gaussian(mu + d, mu, sigma, exp) == Gaussian(mu - d, mu, sigma, exp)
  {
    assert (mu - d - mu) / sigma == -((mu + d - mu) / sigma);
    SqProperties((mu + d - mu) / sigma);
  }

  /** std / max(mean, floor): the divisor is floored so it is never below
      `floor`; from the floor up it is the textbook coefficient of variation. */
  function CoefficientOfVariation(std: real, mean: real, floor: real): (cv: real)
    requires floor > 0.0
    ensures mean >= floor ==> cv == std / mean
    ensures mean < floor ==> cv == std / floor
  {
    std / Max(mean, floor)
  }

  // ---------------------------------------------------------------------
  // Persona A

  /** The statistics `score_persona_a` reads, in the window's units
      (steps per day, sleep minutes per night). */
  datatype FeaturesA = FeaturesA(
    meanSteps: Option<real>,
    stdSteps: Option<real>,
    meanSleepMinutes: Option<real>,
    weekdaySleepMinutes: Option<real>,
    weekendSleepMinutes: Option<real>)

  /** 1 - |mean_steps - 5000| / 5000, before clamping. */
  function ActivityArgA(meanSteps: real): real {
    1.0 - Abs(meanSteps - 5000.0) / 5000.0
  }

  /** 1 - |mean_sleep_h - 5.75| / 2 with the sleep converted to hours,
      before clamping. */
  function SleepArgA(meanSleepMinutes: real): real {
    1.0 - Abs(meanSleepMinutes / 60.0 - 5.75) / 2.0
  }

  /** The activity fit is 1 at exactly 5000 steps a day and 0 at no steps or
      at 10000 or more, falling linearly in between. */
  lemma ActivityFitShape(meanSteps: real)
    ensures Clamp01(ActivityArgA(5000.0)) == 1.0
    ensures meanSteps <= 0.0 || meanSteps >= 10000.0 ==> Clamp01(ActivityArgA(meanSteps)) == 0.0
    ensures 0.0 < meanSteps < 10000.0 ==> 0.0 < Clamp01(ActivityArgA(meanSteps)) <= 1.0
  {
  }

  /** The sleep fit is 1 at 5.75 hours (345 minutes) and 0 two or more hours
      away from it. */
  lemma SleepFitShape(meanSleepMinutes: real)
    ensures Clamp01(SleepArgA(345.0)) == 1.0
    ensures Abs(meanSleepMinutes / 60.0 - 5.75) >= 2.0 ==> Clamp01(SleepArgA(meanSleepMinutes)) == 0.0
    ensures Abs(meanSleepMinutes / 60.0 - 5.75) < 2.0 ==> Clamp01(SleepArgA(meanSleepMinutes)) > 0.0
  {
  }

  /** Each Persona A component, before clamping, as Python computes it: NaN
      (None) wherever one of its statistics is NaN. */
  function ActivityComponent(f: FeaturesA): Option<real> {
    if f.meanSteps.None? then None else Some(ActivityArgA(f.meanSteps.value))
  }

  function SleepComponent(f: FeaturesA): Option<real> {
    if f.meanSleepMinutes.None? then None else Some(SleepArgA(f.meanSleepMinutes.value))
  }

  /** `(we - wd) / 120 if notna(we) else 0`. */
  function WeekendComponent(f: FeaturesA): Option<real> {
    if f.weekendSleepMinutes.None? then Some(0.0)
    else if f.weekdaySleepMinutes.None? then None
    else Some((f.weekendSleepMinutes.value - f.weekdaySleepMinutes.value) / 120.0)
  }

  /** std(steps) / max(mean_steps, 1); `max(nan, 1)` is NaN. */
  function VariabilityComponent(f: FeaturesA): Option<real> {
    if f.stdSteps.None? || f.meanSteps.None? then None
    else Some(CoefficientOfVariation(f.stdSteps.value, f.meanSteps.value, 1.0))
  }

  /** `score_persona_a` as written: an undefined component clamps to 1. */
  function ScoreAAsWritten(f: FeaturesA): real {
    0.35 * Clamp01Py(ActivityComponent(f))
    + 0.35 * Clamp01Py(SleepComponent(f))
    + 0.20 * Clamp01Py(WeekendComponent(f))
    + 0.10 * Clamp01Py(VariabilityComponent(f))
  }

  /** `score_persona_a` as intended: an undefined component earns 0. */
  function ScoreA(f: FeaturesA): real {
    0.35 * Clamp01OrZero(ActivityComponent(f))
    + 0.35 * Clamp01OrZero(SleepComponent(f))
    + 0.20 * Clamp01OrZero(WeekendComponent(f))
    + 0.10 * Clamp01OrZero(VariabilityComponent(f))
  }

  /** Both readings of the Persona A score lie in [0, 1], because the weights
      0.35, 0.35, 0.20, 0.10 sum to 1 and every component is clamped. */
  lemma ScoreABounded(f: FeaturesA)
    ensures 0.35 + 0.35 + 0.20 + 0.10 == 1.0
    ensures 0.0 <= ScoreA(f) <= 1.0
    ensures 0.0 <= ScoreAAsWritten(f) <= 1.0
  {
  }

  /** When every statistic is defined (a window of at least two present step
      days, one present sleep day and one present weekday sleep day) the two
      readings agree. */
  lemma ScoreAAgreesWhenDefined(f: FeaturesA)
    requires f.meanSteps.Some? && f.stdSteps.Some? && f.meanSleepMinutes.Some?
    requires f.weekdaySleepMinutes.Some?
    ensures ScoreAAsWritten(f) == ScoreA(f)
  {
  }

  /** As written, weekend sleep without any weekday sleep counts as a full
      weekend rebound, and a single step day counts as full variability: each
      adds its whole weight to the score. */
  lemma UndefinedComponentsScoreFull(f: FeaturesA)
    requires f.weekendSleepMinutes.Some? && f.weekdaySleepMinutes.None?
    requires f.meanSteps.Some? && f.stdSteps.None? && f.meanSleepMinutes.Some?
    ensures Clamp01Py(WeekendComponent(f)) == 1.0 && Clamp01Py(VariabilityComponent(f)) == 1.0
    ensures ScoreAAsWritten(f) == ScoreA(f) + 0.30
  {
    assert Clamp01Py(ActivityComponent(f)) == Clamp01OrZero(ActivityComponent(f));
    assert Clamp01Py(SleepComponent(f)) == Clamp01OrZero(SleepComponent(f));
    assert Clamp01OrZero(WeekendComponent(f)) == 0.0 && Clamp01OrZero(VariabilityComponent(f)) == 0.0;
  }

  /** A window with one step day of 5000 steps and one weekend night of
      5.75 hours scores a perfect 1.0 as written, although it shows neither a
      weekend rebound nor any step variability; as intended it scores 0.7. */
  lemma WeekendOnlyWindowScoresPerfect()
    ensures ScoreAAsWritten(FeaturesA(Some(5000.0), None, Some(345.0), None, Some(345.0))) == 1.0
    ensures ScoreA(FeaturesA(Some(5000.0), None, Some(345.0), None, Some(345.0))) == 0.7
  {
    UndefinedComponentsScoreFull(FeaturesA(Some(5000.0), None, Some(345.0), None, Some(345.0)));
  }

  /** As intended, a window without weekday sleep earns no weekend rebound:
      its score is that of the same window without weekend sleep. */
  lemma ScoreANoReboundWithoutWeekdays(f: FeaturesA)
    requires f.weekdaySleepMinutes.None?
    ensures ScoreA(f) == ScoreA(f.(weekendSleepMinutes := None))
    ensures Clamp01OrZero(WeekendComponent(f)) == 0.0
  {
  }

  /** The weekend fit is 0 when no weekend sleep is present, and otherwise
      rises by 1 for every 120 minutes of extra weekend sleep, up to 1. */
  lemma WeekendFitShape(f: FeaturesA)
    ensures f.weekendSleepMinutes.None? ==> Clamp01OrZero(WeekendComponent(f)) == 0.0
    ensures f.weekendSleepMinutes.Some? && f.weekdaySleepMinutes.Some? ==>
      var rebound := f.weekendSleepMinutes.value - f.weekdaySleepMinutes.value;
      && (rebound <= 0.0 ==> Clamp01OrZero(WeekendComponent(f)) == 0.0)
      && (0.0 <= rebound <= 120.0 ==> Clamp01OrZero(WeekendComponent(f)) == rebound / 120.0)
      && (rebound >= 120.0 ==> Clamp01OrZero(WeekendComponent(f)) == 1.0)
  {
  }

  /** The sleep column restricted to weekday rows (weekend = false) or to
      weekend rows (weekend = true). */
  function SleepWhere(rows: seq<Row>, weekend: bool): (xs: seq<Option<real>>)
    requires forall i :: 0 <= i < |rows| ==> Sleep in rows[i].cells && rows[i].calendar.Some?
    ensures |xs| <= |rows|
  {
    if rows == [] then []
    else
      (if rows[0].calendar.value.isWeekend == weekend then [rows[0].cells[Sleep]] else [])
      + SleepWhere(rows[1..], weekend)
  }

  /** The statistics of a prepared window that Persona A is scored on. */
  function FeaturesOfA(w: Frame, sqrt: real -> real): (f: FeaturesA)
    requires WellFormed(w) && HasCalendar(w)
    ensures f.meanSteps.Some? <==> exists i :: 0 <= i < |w.rows| && w.rows[i].cells[Steps].Some?
  {
    var steps := Numeric.Present(Column(w, Steps));
    var sleep := Numeric.Present(Column(w, Sleep));
    assert (exists i :: 0 <= i < |w.rows| && w.rows[i].cells[Steps].Some?) <==> |steps| > 0 by {
      if exists i :: 0 <= i < |w.rows| && w.rows[i].cells[Steps].Some? {
        var i :| 0 <= i < |w.rows| && w.rows[i].cells[Steps].Some?;
        assert Column(w, Steps)[i] == Some(w.rows[i].cells[Steps].value);
      }
      if |steps| > 0 {
        assert Some(steps[0]) in Column(w, Steps);
      }
    }
    FeaturesA(
      Numeric.Mean(steps),
      Numeric.SampleStd(steps, sqrt),
      Numeric.Mean(sleep),
      Numeric.Mean(Numeric.Present(SleepWhere(w.rows, false))),
      Numeric.Mean(Numeric.Present(SleepWhere(w.rows, true))))
  }

  /** `score_persona_a` on a prepared window, as intended. */
  function ScorePersonaA(w: Frame, sqrt: real -> real): (s: real)
    requires WellFormed(w) && HasCalendar(w)
    ensures 0.0 <= s <= 1.0
  {
    ScoreABounded(FeaturesOfA(w, sqrt));
    ScoreA(FeaturesOfA(w, sqrt))
  }

  /** `score_persona_a` on a prepared window, as written. */
  function ScorePersonaAAsWritten(w: Frame, sqrt: real -> real): (s: real)
    requires WellFormed(w) && HasCalendar(w)
    ensures 0.0 <= s <= 1.0
  {
    ScoreABounded(FeaturesOfA(w, sqrt));
    ScoreAAsWritten(FeaturesOfA(w, sqrt))
  }

  // ---------------------------------------------------------------------
  // Persona B

  /** The statistics `score_persona_b` reads; sleep is in hours. */
  datatype FeaturesB = FeaturesB(
    meanSteps: Option<real>,
    stdSteps: Option<real>,
    meanSleepHours: Option<real>,
    stdSleepHours: Option<real>,
    meanRestingHr: Option<real>)

  /** `score_persona_b`: NaN (None) when any statistic it uses is NaN, since
      NaN propagates through `np.exp` and the weighted sum. */
  function ScoreB(f: FeaturesB, exp: real -> real): (s: Option<real>)
    ensures s.Some? <==>
      f.meanSteps.Some? && f.stdSteps.Some? && f.meanSleepHours.Some? && f.stdSleepHours.Some? && f.meanRestingHr.Some?
  {
    if f.meanSteps.None? || f.stdSteps.None? || f.meanSleepHours.None? || f.stdSleepHours.None? || f.meanRestingHr.None?
    then None
    else
      var cvSteps := CoefficientOfVariation(f.stdSteps.value, f.meanSteps.value, 1.0);
      var cvSleep := CoefficientOfVariation(f.stdSleepHours.value, f.meanSleepHours.value, 0.000001);
      Some(
        0.40 * Gaussian(f.meanSteps.value, 11000.0, 3000.0, exp)
        + 0.25 * Gaussian(cvSteps, 0.45, 0.15, exp)
        + 0.20 * Gaussian(cvSleep, 0.35, 0.15, exp)
        + 0.15 * Gaussian(f.meanRestingHr.value, 72.0, 6.0, exp))
  }

  /** A defined Persona B score lies in (0, 1]: the weights 0.40, 0.25,
      0.20, 0.15 sum to 1 and every Gaussian component lies in (0, 1]. A
      window exactly on every target scores 1. */
  lemma ScoreBBounded(f: FeaturesB, exp: real -> real)
    requires ExpOnNonPositive(exp)
    ensures 0.40 + 0.25 + 0.20 + 0.15 == 1.0
    ensures ScoreB(f, exp).Some? ==> 0.0 < ScoreB(f, exp).value <= 1.0
    ensures ScoreB(FeaturesB(Some(11000.0), Some(4950.0), Some(8.0), Some(2.8), Some(72.0)), exp) == Some(1.0)
  {
    if ScoreB(f, exp).Some? {
      var cvSteps := CoefficientOfVariation(f.stdSteps.value, f.meanSteps.value, 1.0);
      var cvSleep := CoefficientOfVariation(f.stdSleepHours.value, f.meanSleepHours.value, 0.000001);
      GaussianBounds(f.meanSteps.value, 11000.0, 3000.0, exp);
      GaussianBounds(cvSteps, 0.45, 0.15, exp);
      GaussianBounds(cvSleep, 0.35, 0.15, exp);
      GaussianBounds(f.meanRestingHr.value, 72.0, 6.0, exp);
    }
    GaussianBounds(11000.0, 11000.0, 3000.0, exp);
    GaussianBounds(0.45, 0.45, 0.15, exp);
    GaussianBounds(0.35, 0.35, 0.15, exp);
    GaussianBounds(72.0, 72.0, 6.0, exp);
    assert CoefficientOfVariation(4950.0, 11000.0, 1.0) == 0.45;
    assert CoefficientOfVariation(2.8, 8.0, 0.000001) == 0.35;
  }

  /** The statistics of a prepared window that Persona B is scored on; the
      resting heart rate column must exist (the source indexes it). */
  function FeaturesOfB(w: Frame, sqrt: real -> real): FeaturesB
    requires WellFormed(w) && RestingHr in w.columns
  {
    var steps := Numeric.Present(Column(w, Steps));
    var sleepHours := Numeric.Scale(Numeric.Present(Column(w, Sleep)), 60.0);
    var rhr := Numeric.Present(Column(w, RestingHr));
    FeaturesB(
      Numeric.Mean(steps), Numeric.SampleStd(steps, sqrt),
      Numeric.Mean(sleepHours), Numeric.SampleStd(sleepHours, sqrt),
      Numeric.Mean(rhr))
  }

  /** `score_persona_b` on a prepared window: defined exactly when the window
      has two present step days, two present sleep days and one present
      resting heart rate, and then in (0, 1]. */
  function ScorePersonaB(w: Frame, sqrt: real -> real, exp: real -> real): (s: Option<real>)
    requires WellFormed(w) && RestingHr in w.columns
    requires ExpOnNonPositive(exp)
    ensures s.Some? <==>
      && |Numeric.Present(Column(w, Steps))| >= 2
      && |Numeric.Present(Column(w, Sleep))| >= 2
      && |Numeric.Present(Column(w, RestingHr))| >= 1
    ensures s.Some? ==> 0.0 < s.value <= 1.0
  {
    ScoreBBounded(FeaturesOfB(w, sqrt), exp);
    ScoreB(FeaturesOfB(w, sqrt), exp)
  }
}

/** The pandas reductions the core relies on, over the values of a column
    that are present (`dropna()`): sum, mean, min, max and the sample
    variance with the n - 1 denominator. A missing cell (NaN) is `None`. */
module Numeric {
  import opened Wrappers

  /** `dropna()`: the present values, in order. */
  function Present(xs: seq<Option<real>>): (r: seq<real>)
    ensures |r| <= |xs|
    ensures forall v :: v in r <==> Some(v) in xs
  {
    if xs == [] then []
    else (if xs[0].Some? then [xs[0].value] else []) + Present(xs[1..])
  }

  lemma {:induction false} PresentAppend(xs: seq<Option<real>>, ys: seq<Option<real>>)
    ensures Present(xs + ys) == Present(xs) + Present(ys)
  {
    if xs == [] {
      assert xs + ys == ys;
    } else {
      assert (xs + ys)[1..] == xs[1..] + ys;
      PresentAppend(xs[1..], ys);
    }
  }

  function Sum(xs: seq<real>): real {
    if xs == [] then 0.0 else xs[0] + Sum(xs[1..])
  }

  lemma {:induction false} SumAppend(xs: seq<real>, ys: seq<real>)
    ensures Sum(xs + ys) == Sum(xs) + Sum(ys)
  {
    if xs == [] {
      assert xs + ys == ys;
    } else {
      assert (xs + ys)[1..] == xs[1..] + ys;
      SumAppend(xs[1..], ys);
    }
  }

  /** `Series.mean()` over present values; NaN (None) when there are none. */
  function Mean(xs: seq<real>): (m: Option<real>)
    ensures m.Some? <==> |xs| > 0
  {
    if xs == [] then None else Some(Sum(xs) / |xs| as real)
  }

  function MinOf(xs: seq<real>): (m: real)
    requires |xs| > 0
    ensures m in xs && forall x :: x in xs ==> m <= x
  {
    if |xs| == 1 then xs[0]
    else
      var rest := MinOf(xs[1..]);
      assert forall x :: x in xs ==> x == xs[0] || x in xs[1..];
      if xs[0] <= rest then xs[0] else rest
  }

  function MaxOf(xs: seq<real>): (m: real)
    requires |xs| > 0
    ensures m in xs && forall x :: x in xs ==> x <= m
  {
    if |xs| == 1 then xs[0]
    else
      var rest := MaxOf(xs[1..]);
      assert forall x :: x in xs ==> x == xs[0] || x in xs[1..];
      if xs[0] >= rest then xs[0] else rest
  }

  /** A sum of values bounded below and above by lo and hi lies between
      n * lo and n * hi. */
  lemma {:induction false} SumBounds(xs: seq<real>, lo: real, hi: real)
    requires forall x :: x in xs ==> lo <= x <= hi
    ensures |xs| as real * lo <= Sum(xs) <= |xs| as real * hi
  {
    if xs != [] {
      assert forall x :: x in xs[1..] ==> x in xs;
      SumBounds(xs[1..], lo, hi);
      assert lo <= xs[0] <= hi by { assert xs[0] in xs; }
      BoundsStep(|xs[1..]| as real, lo, hi, xs[0], Sum(xs[1..]));
      assert |xs| as real == |xs[1..]| as real + 1.0;
    }
  }

  /** One more value between lo and hi keeps a sum of m values between
      m * lo and m * hi within those bounds for m + 1 values. */
  lemma BoundsStep(m: real, lo: real, hi: real, x: real, s: real)
    requires m * lo <= s <= m * hi && lo <= x <= hi
    ensures (m + 1.0) * lo <= x + s <= (m + 1.0) * hi
  {
    assert (m + 1.0) * lo == m * lo + lo;
    assert (m + 1.0) * hi == m * hi + hi;
  }

  /** The mean of present values lies between their minimum and maximum. */
  lemma MeanWithinRange(xs: seq<real>)
    requires |xs| > 0
    ensures MinOf(xs) <= Mean(xs).value <= MaxOf(xs)
  {
    MeanBounds(xs, MinOf(xs), MaxOf(xs));
  }

  /** Values bounded by lo and hi have a mean bounded by lo and hi. */
  lemma MeanBounds(xs: seq<real>, lo: real, hi: real)
    requires |xs| > 0
    requires forall x :: x in xs ==> lo <= x <= hi
    ensures lo <= Mean(xs).value <= hi
  {
    SumBounds(xs, lo, hi);
    AverageBetween(lo, Sum(xs), hi, |xs| as real);
  }

  lemma AverageBetween(lo: real, s: real, hi: real, n: real)
    requires n > 0.0 && n * lo <= s <= n * hi
    ensures lo <= s / n <= hi
  {
  }

  lemma Square(d: real)
    ensures d * d >= 0.0
  {
    if d < 0.0 {
      assert d * d == (-d) * (-d);
    }
  }

  /** The sum of squared deviations from m. */
  function SquaredDeviations(xs: seq<real>, m: real): (s: real)
    ensures s >= 0.0
  {
    if xs == [] then 0.0
    else
      Square(xs[0] - m);
      (xs[0] - m) * (xs[0] - m) + SquaredDeviations(xs[1..], m)
  }

  /** `Series.var()` (ddof = 1): NaN (None) for fewer than two values. */
  function SampleVariance(xs: seq<real>): (v: Option<real>)
    ensures v.Some? <==> |xs| >= 2
    ensures v.Some? ==> v.value >= 0.0
  {
    if |xs| < 2 then None
    else Some(SquaredDeviations(xs, Mean(xs).value) / (|xs| - 1) as real)
  }

  /** `Series.std()`: the square root of the sample variance, with the
      square root left as a parameter. */
  function SampleStd(xs: seq<real>, sqrt: real -> real): (s: Option<real>)
    ensures s.Some? <==> |xs| >= 2
  {
    match SampleVariance(xs)
    case None => None
    case Some(v) => Some(sqrt(v))
  }

  lemma {:induction false} SquaredDeviationsOfConstant(xs: seq<real>, c: real)
    requires forall x :: x in xs ==> x == c
    ensures SquaredDeviations(xs, c) == 0.0
  {
    if xs != [] {
      assert forall x :: x in xs[1..] ==> x in xs;
      assert xs[0] in xs;
      SquaredDeviationsOfConstant(xs[1..], c);
    }
  }

  lemma {:induction false} SumOfConstant(xs: seq<real>, c: real)
    requires forall x :: x in xs ==> x == c
    ensures Sum(xs) == |xs| as real * c
  {
    if xs != [] {
      assert forall x :: x in xs[1..] ==> x in xs;
      assert xs[0] in xs;
      SumOfConstant(xs[1..], c);
      assert |xs| as real * c == (|xs[1..]| as real) * c + c;
    }
  }

  /** A column whose present values are all equal has that value as mean and
      zero sample variance. */
  lemma ConstantValues(xs: seq<real>, c: real)
    requires |xs| >= 2
    requires forall x :: x in xs ==> x == c
    ensures Mean(xs) == Some(c)
    ensures SampleVariance(xs) == Some(0.0)
  {
    SumOfConstant(xs, c);
    assert Sum(xs) / |xs| as real == c;
    SquaredDeviationsOfConstant(xs, c);
  }

  /** Dividing every value by a constant divides the sum by it. */
  function Scale(xs: seq<real>, d: real): (r: seq<real>)
    requires d != 0.0
    ensures |r| == |xs| && forall i :: 0 <= i < |xs| ==> r[i] == xs[i] / d
  {
    if xs == [] then [] else [xs[0] / d] + Scale(xs[1..], d)
  }

  lemma {:induction false} SumScale(xs: seq<real>, d: real)
    requires d != 0.0
    ensures Sum(Scale(xs, d)) == Sum(xs) / d
  {
    if xs != [] {
      SumScale(xs[1..], d);
      assert Scale(xs, d)[1..] == Scale(xs[1..], d);
    }
  }
}

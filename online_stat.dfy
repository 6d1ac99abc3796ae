/** The running statistic that every Go `Feature` keeps about one scalar
    measurement over the enrolled samples: mean, population variance,
    standard deviation, minimum and maximum, folded in one sample at a time.

    The four Go copies of `Feature.Update` share this recurrence; each copy's
    class is proved to implement `Step`. */
module OnlineStat {
  import opened Float

  datatype Stat = Stat(mean: real, variance: real, std: real, min: real, max: real)

  /** A Feature that was created but never updated holds Go's zero values. */
  const Zero := Stat(0.0, 0.0, 0.0, 0.0, 0.0)

  /** math.Sqrt is a library call: it enters the model as a parameter that
      returns the non-negative square root of a non-negative argument, and
      Sqrt(0) = 0 as Go documents it. */
  ghost predicate IsSqrt(sqrt: real -> real)
  {
    && sqrt(0.0) == 0.0
    && forall x: real {:trigger sqrt(x)} :: 0.0 <= x ==> 0.0 <= sqrt(x) && sqrt(x) * sqrt(x) == x
  }

  /** math.Pow(x, 2). */
  function Sq(x: real): real
  {
    x * x
  }

  /** One call of Update(value, n). Index 1 (re)initialises the statistic;
      any other index folds `value` in as the n-th sample: the mean is
      stat.Mean of {mean, value} weighted {n-1, 1}, the variance is updated
      from the OLD mean before the mean is overwritten, and min/max move only
      when the value lies beyond them. Index 0 makes the guarded copies panic
      and the unguarded ones divide by zero, so it is excluded. */
  function Step(s: Stat, value: real, n: int, sqrt: real -> real): Stat
    requires n != 0
  {
    if n == 1 then
      Stat(value, 0.0, 0.0, value, value)
    else
      var newMean := ((n - 1) as real * s.mean + 1.0 * value) / ((n - 1) as real + 1.0);
      var newVar := (s.variance + Sq(value - s.mean) / n as real) * ((n - 1) as real / n as real);
      Stat(newMean, newVar, sqrt(newVar),
           if value < s.min then value else s.min,
           if value > s.max then value else s.max)
  }

  /** The statistic after enrolling vs[0], vs[1], ... with sample indices
      1, 2, ..., as enrollment calls Extract(sample, i + 1). */
  function Feed(s0: Stat, vs: seq<real>, sqrt: real -> real): Stat
  {
    if vs == [] then s0 else Step(Feed(s0, vs[..|vs| - 1], sqrt), vs[|vs| - 1], |vs|, sqrt)
  }

  // ---- Reference definitions, independent of the recurrence ----

  function Sum(vs: seq<real>): real
  {
    if vs == [] then 0.0 else Sum(vs[..|vs| - 1]) + vs[|vs| - 1]
  }

  function SumOfSquares(vs: seq<real>): real
  {
    if vs == [] then 0.0 else SumOfSquares(vs[..|vs| - 1]) + Sq(vs[|vs| - 1])
  }

  /** Sum of squared deviations of vs from c. */
  function Deviation(vs: seq<real>, c: real): real
  {
    if vs == [] then 0.0 else Deviation(vs[..|vs| - 1], c) + Sq(vs[|vs| - 1] - c)
  }

  /** The arithmetic mean. */
  function Mean(vs: seq<real>): real
    requires vs != []
  {
    Sum(vs) / |vs| as real
  }

  /** The population variance: mean squared deviation from the mean. */
  function PopulationVariance(vs: seq<real>): real
    requires vs != []
  {
    Deviation(vs, Mean(vs)) / |vs| as real
  }

  function Minimum(vs: seq<real>): real
    requires vs != []
  {
    if |vs| == 1 then vs[0]
    else var m := Minimum(vs[..|vs| - 1]); if vs[|vs| - 1] < m then vs[|vs| - 1] else m
  }

  function Maximum(vs: seq<real>): real
    requires vs != []
  {
    if |vs| == 1 then vs[0]
    else var m := Maximum(vs[..|vs| - 1]); if vs[|vs| - 1] > m then vs[|vs| - 1] else m
  }

  // ---- Real arithmetic used below ----

  lemma SquareNonNegative(x: real)
    ensures Sq(x) >= 0.0
  {
    ProductOfEquals(x, x);
  }

  lemma ProductOfEquals(a: real, b: real)
    requires a == b
    ensures a * b >= 0.0
  {
    if a < 0.0 {
      assert a * b > 0.0;
    }
  }

  lemma Distributes(k: real, n: real, a: real)
    requires n == k + 1.0
    ensures n * a == k * a + a
  {
  }

  lemma ScaleMonotone(k: real, a: real, b: real)
    requires k >= 0.0 && a <= b
    ensures k * a <= k * b
  {
  }

  /** Dividing by a positive count: n * lo <= s <= n * hi gives lo <= s / n <= hi. */
  lemma QuotientBounds(s: real, n: real, lo: real, hi: real)
    requires n > 0.0 && n * lo <= s <= n * hi
    ensures lo <= s / n <= hi
  {
    var q := s / n;
    assert q * n == s;
  }

  lemma QuotientTimes(s: real, n: real)
    requires n != 0.0
    ensures (s / n) * n == s
  {
  }

  lemma SquareExpands(v: real, c: real)
    ensures Sq(v - c) == Sq(v) - 2.0 * c * v + Sq(c)
  {
  }

  /** The polynomial identity behind one variance step (k earlier samples of
      sum s = m k and sum of squares q, a new value v, n = k + 1). */
  lemma WelfordIdentity(k: real, n: real, s: real, m: real, q: real, v: real)
    requires n == k + 1.0 && s == m * k
    ensures (q - s * m) * n + Sq(v - m) * k == n * (q + Sq(v)) - (s + v) * (s + v)
  {
  }

  lemma MulEquals(a: real, b: real, n: real)
    requires a == b
    ensures a * n == b * n
  {
  }

  /** n samples with sum s and sum of squares q whose population variance is
      va, with the divisions cleared: n^2 va = n q - s^2. */
  ghost predicate VarianceScaled(va: real, n: real, q: real, s: real)
  {
    va * n * n == n * q - s * s
  }

  /** x (k / n) n = x k. */
  lemma TimesQuotient(x: real, k: real, n: real)
    requires n != 0.0
    ensures x * (k / n) * n == x * k
  {
    QuotientTimes(k, n);
  }

  /** (va + d / n) k n = va k n + d k. */
  lemma ClearDenominator(va: real, d: real, k: real, n: real)
    requires n != 0.0
    ensures (va + d / n) * k * n == va * k * n + d * k
  {
    QuotientTimes(d, n);
  }

  /** k^2 va = k q - s^2 with s = m k gives k va = q - s m. */
  lemma CancelCount(k: real, s: real, q: real, m: real, va: real)
    requires k > 0.0 && m * k == s && va * k * k == k * q - s * s
    ensures va * k == q - s * m
  {
    assert va * k * k == (q - s * m) * k;
    CancelFactor(va * k, q - s * m, k);
  }

  /** One step of the variance recurrence with the divisions cleared: if the
      old variance satisfies k^2 var = k q - s^2, the new one satisfies
      n^2 var' = n (q + v^2) - (s + v)^2 with n = k + 1. */
  lemma VarianceStep(k: real, n: real, s: real, q: real, m: real, va: real, v: real, r: real)
    requires k >= 1.0 && n == k + 1.0 && m * k == s && VarianceScaled(va, k, q, s)
    requires r == (va + Sq(v - m) / n) * (k / n)
    ensures VarianceScaled(r, n, q + Sq(v), s + v)
  {
    var a := va + Sq(v - m) / n;
    MulEquals(r, a * (k / n), n);
    TimesQuotient(a, k, n);
    MulEquals(r * n, a * k, n);
    ClearDenominator(va, Sq(v - m), k, n);
    assert r * n * n == va * k * n + Sq(v - m) * k;
    CancelCount(k, s, q, m, va);
    MulEquals(va * k, q - s * m, n);
    assert r * n * n == (q - s * m) * n + Sq(v - m) * k;
    WelfordIdentity(k, n, s, m, q, v);
  }

  /** The mean step: ((k m + v) / (k + 1)) (k + 1) = s + v when k m = s. */
  lemma MeanStep(k: real, n: real, s: real, m: real, v: real, r: real)
    requires k >= 1.0 && n == k + 1.0 && m * k == s
    requires r == (k * m + 1.0 * v) / n
    ensures r * n == s + v
  {
    QuotientTimes(k * m + 1.0 * v, n);
  }

  lemma QuotientNonNegative(d: real, n: real)
    requires d >= 0.0 && n > 0.0
    ensures d / n >= 0.0
  {
    QuotientBounds(d, n, 0.0, d / n);
  }

  lemma CancelFactor(a: real, b: real, n: real)
    requires n != 0.0 && a * n == b * n
    ensures a == b
  {
    assert (a - b) * n == 0.0;
  }

  /** The sum of squared deviations from c of n values with sum s and sum of
      squares q, expanded: d = q - 2 c s + n c^2. */
  ghost predicate Expanded(d: real, q: real, c: real, s: real, n: real)
  {
    d == q - 2.0 * c * s + n * Sq(c)
  }

  /** n^2 var = n q - s^2 for var = d / n, d = q - 2 m s + n m^2 and m = s / n. */
  lemma MomentsAlgebra(n: real, s: real, q: real, m: real, d: real, va: real)
    requires n > 0.0 && m == s / n
    requires Expanded(d, q, m, s, n) && va == d / n
    ensures VarianceScaled(va, n, q, s)
  {
    assert m * n == s;
    assert va * n == d;
    assert n * Sq(m) == m * s;
    assert va * n == q - m * s;
    assert va * n * n == q * n - (m * n) * s;
  }

  /** The scaled form determines the variance. */
  lemma VarianceScaledUnique(a: real, b: real, n: real, q: real, s: real)
    requires n > 0.0 && VarianceScaled(a, n, q, s) && VarianceScaled(b, n, q, s)
    ensures a == b
  {
    assert (a - b) * n * n == 0.0;
    CancelFactor((a - b) * n, 0.0, n);
    CancelFactor(a - b, 0.0, n);
  }

  /** a n = s determines a = s / n. */
  lemma QuotientUnique(a: real, s: real, n: real)
    requires n != 0.0 && a * n == s
    ensures a == s / n
  {
    QuotientTimes(s, n);
    CancelFactor(a, s / n, n);
  }

  // ---- Lemmas ----

  /** The statistic of n samples with sum `sum` and sum of squares `sq`, with
      the divisions cleared: n mean = sum and n^2 var = n sq - sum^2. */
  ghost predicate Scaled(st: Stat, n: real, sum: real, sq: real)
  {
    st.mean * n == sum && VarianceScaled(st.variance, n, sq, sum)
  }

  /** Step's fields for an index n >= 2, with the index as a real. */
  lemma StepFields(s: Stat, r: Stat, v: real, n: int, k: real, nr: real, sqrt: real -> real)
    requires n >= 2 && k == (n - 1) as real && nr == n as real && r == Step(s, v, n, sqrt)
    ensures r.mean == (k * s.mean + 1.0 * v) / nr
    ensures r.variance == (s.variance + Sq(v - s.mean) / nr) * (k / nr)
    ensures r.std == sqrt(r.variance)
  {
  }

  /** The scaled invariant carried over one step, on plain statistics. */
  lemma ScaledStep(s: Stat, r: Stat, v: real, k: real, nr: real, sum: real, sq: real)
    requires k >= 1.0 && nr == k + 1.0 && Scaled(s, k, sum, sq)
    requires r.mean == (k * s.mean + 1.0 * v) / nr
    requires r.variance == (s.variance + Sq(v - s.mean) / nr) * (k / nr)
    ensures Scaled(r, nr, sum + v, sq + Sq(v))
  {
    MeanStep(k, nr, sum, s.mean, v, r.mean);
    VarianceStep(k, nr, sum, sq, s.mean, s.variance, v, r.variance);
  }

  /** One update with index n >= 2 keeps the scaled invariant. */
  lemma StepScaled(s: Stat, v: real, n: int, k: real, nr: real, sum: real, sq: real, sqrt: real -> real)
    requires n >= 2 && k == (n - 1) as real && nr == n as real
    requires Scaled(s, k, sum, sq)
    ensures Scaled(Step(s, v, n, sqrt), nr, sum + v, sq + Sq(v))
  {
    var r := Step(s, v, n, sqrt);
    StepFields(s, r, v, n, k, nr, sqrt);
    ScaledStep(s, r, v, k, nr, sum, sq);
  }

  /** Feeding v1..vn with indices 1..n: the mean times n is the sum and the
      variance satisfies n^2 var = n * sum of squares - sum^2. */
  lemma {:induction false} FeedScaled(s0: Stat, vs: seq<real>, n: real, sqrt: real -> real)
    requires vs != [] && n == |vs| as real
    ensures Scaled(Feed(s0, vs, sqrt), n, Sum(vs), SumOfSquares(vs))
  {
    var p, v := vs[..|vs| - 1], vs[|vs| - 1];
    assert Sum(vs) == Sum(p) + v && SumOfSquares(vs) == SumOfSquares(p) + Sq(v);
    if |vs| == 1 {
      assert p == [];
      assert Feed(s0, vs, sqrt) == Stat(v, 0.0, 0.0, v, v);
    } else {
      FeedScaled(s0, p, |p| as real, sqrt);
      StepScaled(Feed(s0, p, sqrt), v, |vs|, |p| as real, n, Sum(p), SumOfSquares(p), sqrt);
    }
  }

  /** The minimum and maximum of the statistic are those of the values fed. */
  lemma {:induction false} FeedExtremes(s0: Stat, vs: seq<real>, sqrt: real -> real)
    requires vs != []
    ensures Feed(s0, vs, sqrt).min == Minimum(vs)
    ensures Feed(s0, vs, sqrt).max == Maximum(vs)
  {
    if |vs| > 1 {
      FeedExtremes(s0, vs[..|vs| - 1], sqrt);
    }
  }

  /** Expanding the square: sum (v - c)^2 = sum v^2 - 2 c sum v + n c^2. */
  lemma {:induction false} DeviationExpands(vs: seq<real>, n: real, c: real)
    requires n == |vs| as real
    ensures Expanded(Deviation(vs, c), SumOfSquares(vs), c, Sum(vs), n)
  {
    if vs != [] {
      var p, v := vs[..|vs| - 1], vs[|vs| - 1];
      DeviationExpands(p, |p| as real, c);
      SquareExpands(v, c);
      Distributes(|p| as real, n, Sq(c));
    }
  }

  /** The population variance in its one-pass form: n^2 var = n * sum v^2 - (sum v)^2. */
  lemma VarianceAsMoments(vs: seq<real>)
    requires vs != []
    ensures VarianceScaled(PopulationVariance(vs), |vs| as real, SumOfSquares(vs), Sum(vs))
  {
    var m := Mean(vs);
    DeviationExpands(vs, |vs| as real, m);
    MomentsAlgebra(|vs| as real, Sum(vs), SumOfSquares(vs), m, Deviation(vs, m), PopulationVariance(vs));
  }

  /** A statistic in scaled form for the values vs holds their mean and
      their population variance. */
  lemma ScaledMoments(st: Stat, vs: seq<real>)
    requires vs != [] && Scaled(st, |vs| as real, Sum(vs), SumOfSquares(vs))
    ensures st.mean == Mean(vs) && st.variance == PopulationVariance(vs)
  {
    QuotientUnique(st.mean, Sum(vs), |vs| as real);
    VarianceAsMoments(vs);
    VarianceScaledUnique(st.variance, PopulationVariance(vs), |vs| as real, SumOfSquares(vs), Sum(vs));
  }

  /** Feeding v1..vn with indices 1..n leaves their arithmetic mean, their
      population variance and their extremes in the statistic, whatever it
      held before. */
  lemma FeedMoments(s0: Stat, vs: seq<real>, sqrt: real -> real)
    requires vs != []
    ensures Feed(s0, vs, sqrt).mean == Mean(vs)
    ensures Feed(s0, vs, sqrt).variance == PopulationVariance(vs)
    ensures Feed(s0, vs, sqrt).min == Minimum(vs)
    ensures Feed(s0, vs, sqrt).max == Maximum(vs)
  {
    FeedExtremes(s0, vs, sqrt);
    FeedScaled(s0, vs, |vs| as real, sqrt);
    ScaledMoments(Feed(s0, vs, sqrt), vs);
  }

  lemma {:induction false} ExtremesBound(vs: seq<real>, i: int)
    requires 0 <= i < |vs|
    ensures Minimum(vs) <= vs[i] <= Maximum(vs)
  {
    if |vs| > 1 && i < |vs| - 1 {
      ExtremesBound(vs[..|vs| - 1], i);
    }
  }

  /** Every fed value lies between the extremes of the statistic. */
  lemma FeedWithinExtremes(s0: Stat, vs: seq<real>, sqrt: real -> real)
    requires vs != []
    ensures forall i :: 0 <= i < |vs| ==> Feed(s0, vs, sqrt).min <= vs[i] <= Feed(s0, vs, sqrt).max
  {
    FeedExtremes(s0, vs, sqrt);
    forall i | 0 <= i < |vs| ensures Minimum(vs) <= vs[i] <= Maximum(vs) {
      ExtremesBound(vs, i);
    }
  }

  /** The invariant every enrolled statistic keeps: the mean lies between the
      extremes, the variance is non-negative and the standard deviation is
      its non-negative square root. */
  ghost predicate Sound(st: Stat)
  {
    && st.min <= st.mean <= st.max
    && st.variance >= 0.0
    && st.std >= 0.0 && st.std * st.std == st.variance
  }

  /** For an index n >= 2 the extremes only widen: the new minimum is the
      smaller of the old minimum and the value, the new maximum the larger
      of the old maximum and the value, and a value between the old
      extremes leaves both as they were. */
  lemma StepExtremes(s: Stat, r: Stat, v: real, n: int, sqrt: real -> real)
    requires n >= 2 && r == Step(s, v, n, sqrt)
    ensures r.min <= s.min && s.max <= r.max && r.min <= v <= r.max
    ensures (r.min == s.min || r.min == v) && (r.max == s.max || r.max == v)
    ensures s.min <= v <= s.max ==> r.min == s.min && r.max == s.max
  {
  }

  /** The weighted mean (k m + v) / n of m and v, n = k + 1, lies in any
      interval holding both. */
  lemma WeightedMeanBounds(k: real, n: real, m: real, v: real, lo: real, hi: real, r: real)
    requires k >= 1.0 && n == k + 1.0 && lo <= m <= hi && lo <= v <= hi
    requires r == (k * m + 1.0 * v) / n
    ensures lo <= r <= hi
  {
    ScaleMonotone(k, lo, m);
    ScaleMonotone(k, m, hi);
    Distributes(k, n, lo);
    Distributes(k, n, hi);
    QuotientBounds(k * m + 1.0 * v, n, lo, hi);
  }

  /** (va + d / n) (k / n) >= 0 for va, d >= 0 and k, n > 0. */
  lemma UpdatedVarianceNonNegative(va: real, d: real, k: real, n: real, r: real)
    requires va >= 0.0 && d >= 0.0 && k > 0.0 && n > 0.0
    requires r == (va + d / n) * (k / n)
    ensures r >= 0.0
  {
    QuotientNonNegative(d, n);
    QuotientNonNegative(k, n);
    ScaleMonotone(k / n, 0.0, va + d / n);
  }

  /** The same, on plain statistics. */
  lemma SoundStep(s: Stat, r: Stat, v: real, k: real, nr: real, sqrt: real -> real)
    requires Sound(s) && IsSqrt(sqrt) && k >= 1.0 && nr == k + 1.0
    requires r.mean == (k * s.mean + 1.0 * v) / nr
    requires r.variance == (s.variance + Sq(v - s.mean) / nr) * (k / nr)
    requires r.min <= s.min && s.max <= r.max && r.min <= v <= r.max
    requires r.std == sqrt(r.variance)
    ensures Sound(r)
  {
    WeightedMeanBounds(k, nr, s.mean, v, r.min, r.max, r.mean);
    SquareNonNegative(v - s.mean);
    UpdatedVarianceNonNegative(s.variance, Sq(v - s.mean), k, nr, r.variance);
  }

  /** Index 1 establishes the invariant and every later index preserves it. */
  lemma StepSound(s: Stat, v: real, n: int, sqrt: real -> real)
    requires IsSqrt(sqrt) && n >= 1 && (n == 1 || Sound(s))
    ensures Sound(Step(s, v, n, sqrt))
  {
    if n >= 2 {
      var r := Step(s, v, n, sqrt);
      StepFields(s, r, v, n, (n - 1) as real, n as real, sqrt);
      StepExtremes(s, r, v, n, sqrt);
      SoundStep(s, r, v, (n - 1) as real, n as real, sqrt);
    }
  }

  lemma {:induction false} FeedSound(s0: Stat, vs: seq<real>, sqrt: real -> real)
    requires vs != [] && IsSqrt(sqrt)
    ensures Sound(Feed(s0, vs, sqrt))
  {
    if |vs| > 1 {
      FeedSound(s0, vs[..|vs| - 1], sqrt);
    }
    StepSound(Feed(s0, vs[..|vs| - 1], sqrt), vs[|vs| - 1], |vs|, sqrt);
  }

  /** After enrolling any non-empty sequence of values: every value lies in
      [min, max], so does the mean, the variance is non-negative and the
      standard deviation is its non-negative square root. */
  lemma FeedBounds(s0: Stat, vs: seq<real>, sqrt: real -> real)
    requires vs != [] && IsSqrt(sqrt)
    ensures forall i :: 0 <= i < |vs| ==> Feed(s0, vs, sqrt).min <= vs[i] <= Feed(s0, vs, sqrt).max
    ensures Sound(Feed(s0, vs, sqrt))
  {
    FeedWithinExtremes(s0, vs, sqrt);
    FeedSound(s0, vs, sqrt);
  }

  /** One more copy of x on a statistic of copies of x changes nothing but
      the standard deviation, which becomes sqrt(0) = 0. */
  lemma StepIdentical(s: Stat, x: real, n: int, sqrt: real -> real)
    requires IsSqrt(sqrt) && n >= 1
    requires n == 1 || s == Stat(x, 0.0, 0.0, x, x)
    ensures Step(s, x, n, sqrt) == Stat(x, 0.0, 0.0, x, x)
  {
    if n >= 2 {
      var r := Step(s, x, n, sqrt);
      StepFields(s, r, x, n, (n - 1) as real, n as real, sqrt);
      ConstantMean((n - 1) as real, n as real, x, r.mean);
    }
  }

  lemma ConstantMean(k: real, n: real, x: real, r: real)
    requires n == k + 1.0 && n > 0.0 && r == (k * x + 1.0 * x) / n
    ensures r == x
  {
    Distributes(k, n, x);
    QuotientUnique(x, k * x + 1.0 * x, n);
  }

  /** Enrolling n identical values leaves mean = min = max = value and zero
      variance and standard deviation. */
  lemma {:induction false} IdenticalValues(s0: Stat, vs: seq<real>, x: real, sqrt: real -> real)
    requires vs != [] && IsSqrt(sqrt)
    requires forall i :: 0 <= i < |vs| ==> vs[i] == x
    ensures Feed(s0, vs, sqrt) == Stat(x, 0.0, 0.0, x, x)
  {
    if |vs| > 1 {
      IdenticalValues(s0, vs[..|vs| - 1], x, sqrt);
    }
    StepIdentical(Feed(s0, vs[..|vs| - 1], sqrt), x, |vs|, sqrt);
  }

  /** Index 1 discards whatever the statistic held before. */
  lemma FirstSampleResets(s: Stat, t: Stat, value: real, sqrt: real -> real)
    ensures Step(s, value, 1, sqrt) == Step(t, value, 1, sqrt)
    ensures Step(s, value, 1, sqrt) == Stat(value, 0.0, 0.0, value, value)
  {
  }

  /** The standard score of `probe`'s mean against `template`:
      stat.StdScore(probe.mean, template.mean, template.std). */
  function ZScore(template: Stat, probe: Stat): (z: Float)
    ensures template.std != 0.0 ==> z.Finite? && probe.mean == template.mean + z.r * template.std
    ensures template.std == 0.0 ==> (z == NaN <==> probe.mean == template.mean)
    ensures template.std == 0.0 && probe.mean != template.mean ==> z.PosInf? || z.NegInf?
  {
    Div(probe.mean - template.mean, template.std)
  }
}

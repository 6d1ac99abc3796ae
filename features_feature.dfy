/** features/feature.go: an older version of the feature package. It names
    the area classes and four feature kinds, and keeps the same running
    statistic as signature/features/feature.go, including the panic on
    index 0. */
module FeaturesFeature {
  import opened Wrappers
  import opened Float
  import opened OnlineStat

  /** AreaType, in its iota order. */
  datatype AreaType = BasicArea | RowArea | ColArea | GridArea

  /** FeatureType, in its iota order (this version has no corners). */
  datatype FeatureType = Length | Gradient | Aspect | HOG

  /** The name tables that AreaType.String() and FeatureType.String()
      index; an integer outside the table panics with an index out of
      range, which `AreaName` and `FeatureName` report as None. */
  const AreaNames: seq<string> := ["BasicArea", "RowArea", "ColArea", "GridArea"]
  const FeatureNames: seq<string> := ["LengthFeature", "GradientFeature", "AspectFeature", "HOGFeature"]

  /** The Go value of each area type: the position of its own name in the
      table. */
  function AreaOrdinal(t: AreaType): (i: nat)
    ensures i < |AreaNames|
    ensures t == BasicArea ==> AreaNames[i] == "BasicArea"
    ensures t == RowArea ==> AreaNames[i] == "RowArea"
    ensures t == ColArea ==> AreaNames[i] == "ColArea"
    ensures t == GridArea ==> AreaNames[i] == "GridArea"
  {
    match t
    case BasicArea => 0
    case RowArea => 1
    case ColArea => 2
    case GridArea => 3
  }

  /** The Go value of each feature kind: the position of its own name in
      the table. */
  function FeatureOrdinal(t: FeatureType): (i: nat)
    ensures i < |FeatureNames|
    ensures t == Length ==> FeatureNames[i] == "LengthFeature"
    ensures t == Gradient ==> FeatureNames[i] == "GradientFeature"
    ensures t == Aspect ==> FeatureNames[i] == "AspectFeature"
    ensures t == HOG ==> FeatureNames[i] == "HOGFeature"
  {
    match t
    case Length => 0
    case Gradient => 1
    case Aspect => 2
    case HOG => 3
  }

  /** AreaType(i).String(). */
  function AreaName(i: int): (s: Option<string>)
    ensures s.Some? <==> 0 <= i < 4
  {
    if 0 <= i < |AreaNames| then Some(AreaNames[i]) else None
  }

  /** FeatureType(i).String(). */
  function FeatureName(i: int): (s: Option<string>)
    ensures s.Some? <==> 0 <= i < 4
  {
    if 0 <= i < |FeatureNames| then Some(FeatureNames[i]) else None
  }

  /** Every area type and feature kind prints as its own name, and two
      different values never print alike. */
  lemma NamesMatchTypes(a: AreaType, b: AreaType, f: FeatureType, g: FeatureType)
    ensures AreaName(AreaOrdinal(a)).Some? && FeatureName(FeatureOrdinal(f)).Some?
    ensures AreaName(AreaOrdinal(a)) == AreaName(AreaOrdinal(b)) <==> a == b
    ensures FeatureName(FeatureOrdinal(f)) == FeatureName(FeatureOrdinal(g)) <==> f == g
  {
  }

  /** One feature: its kind, its value function and the running statistic.
      `S` stands for *samples.Sample. */
  class Feature<S> {
    const kind: FeatureType
    const measure: S -> real
    var mean: real
    var variance: real
    var std: real
    var min: real
    var max: real

    function State(): Stat
      reads this
    {
      Stat(mean, variance, std, min, max)
    }

    /** NewLengthFeature: kind Length, value function `length`. */
    constructor NewLengthFeature(length: S -> real)
      ensures kind == Length && measure == length && State() == Zero
    {
      kind, measure := Length, length;
      mean, variance, std, min, max := 0.0, 0.0, 0.0, 0.0, 0.0;
    }

    /** NewGradientFeature: kind Gradient, value function `gradient`. */
    constructor NewGradientFeature(gradient: S -> real)
      ensures kind == Gradient && measure == gradient && State() == Zero
    {
      kind, measure := Gradient, gradient;
      mean, variance, std, min, max := 0.0, 0.0, 0.0, 0.0, 0.0;
    }

    /** NewAspectFeature: kind Aspect, value function `aspect`. */
    constructor NewAspectFeature(aspect: S -> real)
      ensures kind == Aspect && measure == aspect && State() == Zero
    {
      kind, measure := Aspect, aspect;
      mean, variance, std, min, max := 0.0, 0.0, 0.0, 0.0, 0.0;
    }

    /** NewHOGFeature: kind HOG, value function `histogramOfGradients`. */
    constructor NewHOGFeature(histogramOfGradients: S -> real)
      ensures kind == HOG && measure == histogramOfGradients && State() == Zero
    {
      kind, measure := HOG, histogramOfGradients;
      mean, variance, std, min, max := 0.0, 0.0, 0.0, 0.0, 0.0;
    }

    /** Update(sample, nSamples): index 0 panics, index 1 starts afresh,
        a later index folds the sample's value in. */
    method Update(sample: S, n: int, sqrt: real -> real)
      requires n != 0
      modifies this
      ensures State() == Step(old(State()), measure(sample), n, sqrt)
      ensures min <= measure(sample) <= max
    {
      ghost var before := State();
      var value := measure(sample);
      if n == 1 {
        mean := value;
        min := value;
        max := value;
        variance := 0.0;
        std := 0.0;
      } else {
        ghost var r := Step(before, value, n, sqrt);
        var newMean := ((n - 1) as real * mean + 1.0 * value) / ((n - 1) as real + 1.0);
        assert newMean == r.mean;
        var newVar := variance + Sq(value - mean) / n as real;
        newVar := newVar * ((n - 1) as real / n as real);
        assert newVar == r.variance;
        mean := newMean;
        variance := newVar;
        std := sqrt(newVar);
        if value > max {
          max := value;
        }
        if value < min {
          min := value;
        }
        assert min == r.min && max == r.max;
      }
    }

    /** Value() is the running mean. */
    function Value(): (v: real)
      reads this
      ensures v == State().mean
    {
      mean
    }

    /** Std() is the running standard deviation. */
    function Std(): (sd: real)
      reads this
      ensures sd == State().std
    {
      std
    }

    /** Score(other) = stat.StdScore(other.Value(), mean, std). */
    function Score(other: Feature<S>): (z: Float)
      reads this, other
      ensures std != 0.0 ==> z.Finite? && other.Value() == mean + z.r * std
      ensures std == 0.0 ==> (z == NaN <==> other.Value() == mean)
      ensures std == 0.0 ==> (z == PosInf <==> other.Value() > mean)
      ensures std == 0.0 ==> (z == NegInf <==> other.Value() < mean)
    {
      ZScore(State(), other.State())
    }
  }
}

/** signature/features/feature.go: the kinds of feature a template keeps,
    the switch that enables each kind, and one feature's running statistic
    over the enrolled samples. The value function of a feature (stroke
    length, gradient ratio, HOG, corners, aspect) is an OpenCV computation;
    it enters as an arbitrary function of the sample. */
module SignatureFeature {
  import opened Float
  import opened OnlineStat

  /** FeatureType, in its iota order. */
  datatype FeatureType = Length | Gradient | Aspect | HOG | Corners

  /** The table FeatureType.String() indexes. */
  const Names: seq<string> := ["LengthFeature", "GradientFeature", "AspectFeature", "HOGFeature", "CornersFeature"]

  /** The iota value of each kind: the position of its own name in the
      table. */
  function Ordinal(t: FeatureType): (i: nat)
    ensures i < |Names|
    ensures t == Length ==> Names[i] == "LengthFeature"
    ensures t == Gradient ==> Names[i] == "GradientFeature"
    ensures t == Aspect ==> Names[i] == "AspectFeature"
    ensures t == HOG ==> Names[i] == "HOGFeature"
    ensures t == Corners ==> Names[i] == "CornersFeature"
  {
    match t
    case Length => 0
    case Gradient => 1
    case Aspect => 2
    case HOG => 3
    case Corners => 4
  }

  /** FeatureType.String(): the table entry at the iota value. */
  function Name(t: FeatureType): string
  {
    Names[Ordinal(t)]
  }

  /** Different kinds print differently, so a name identifies its kind. */
  lemma NamesDistinct(a: FeatureType, b: FeatureType)
    ensures Name(a) == Name(b) <==> a == b
    ensures Ordinal(a) == Ordinal(b) <==> a == b
  {
  }

  /** The global FeatureFlags switch: the map has every kind set to true.
      As a set, a missing key (false in Go) is simply absent. */
  const FeatureFlags: set<FeatureType> := {Length, Gradient, Aspect, HOG, Corners}

  /** One feature of one area: its kind, its value function and the running
      statistic. `S` stands for *samples.Sample. */
  class Feature<S> {
    const kind: FeatureType
    const measure: S -> real
    var mean: real
    var variance: real
    var std: real
    var min: real
    var max: real

    function State(): Stat
      reads this
    {
      Stat(mean, variance, std, min, max)
    }

    /** A composite literal such as &Feature{fType: HOGFeatureType,
        function: histogramOfGradients}: the statistic fields are zero. */
    constructor (kind: FeatureType, measure: S -> real)
      ensures this.kind == kind && this.measure == measure
      ensures State() == Zero
    {
      this.kind := kind;
      this.measure := measure;
      mean, variance, std, min, max := 0.0, 0.0, 0.0, 0.0, 0.0;
    }

    /** Update(sample, nSamples). Index 0 panics. Index 1 starts the
        statistic afresh; a later index folds the sample's value in (what
        that computes over a whole enrollment is proved about `Step` and
        `Feed`), and the value always ends up within [min, max]. */
    method Update(sample: S, n: int, sqrt: real -> real)
      requires n != 0
      modifies this
      ensures State() == Step(old(State()), measure(sample), n, sqrt)
      ensures min <= measure(sample) <= max
    {
      ghost var before := State();
      var value := measure(sample);
      if n == 1 {
        mean := value;
        min := value;
        max := value;
        variance := 0.0;
        std := 0.0;
      } else {
        ghost var r := Step(before, value, n, sqrt);
        var newMean := ((n - 1) as real * mean + 1.0 * value) / ((n - 1) as real + 1.0);
        assert newMean == r.mean;
        var newVar := variance + Sq(value - mean) / n as real;
        newVar := newVar * ((n - 1) as real / n as real);
        assert newVar == r.variance;
        mean := newMean;
        variance := newVar;
        std := sqrt(newVar);
        if value > max {
          max := value;
        }
        if value < min {
          min := value;
        }
        assert min == r.min && max == r.max;
      }
    }

    /** Value() is the running mean. */
    function Value(): (v: real)
      reads this
      ensures v == State().mean
    {
      mean
    }

    /** Std() is the running standard deviation. */
    function Std(): (sd: real)
      reads this
      ensures sd == State().std
    {
      std
    }

    /** Score(other) = stat.StdScore(other.Value(), mean, std): how many of
        this feature's standard deviations other's mean lies from this mean.
        A zero deviation gives NaN for an equal mean and an infinity with
        the sign of the difference otherwise. */
    function Score(other: Feature<S>): (z: Float)
      reads this, other
      ensures std != 0.0 ==> z.Finite? && other.Value() == mean + z.r * std
      ensures std == 0.0 ==> (z == NaN <==> other.Value() == mean)
      ensures std == 0.0 ==> (z == PosInf <==> other.Value() > mean)
      ensures std == 0.0 ==> (z == NegInf <==> other.Value() < mean)
    {
      ZScore(State(), other.State())
    }
  }
}

/** features/features.go: the oldest feature type, identified by a name
    instead of a kind. Its Update has no guard for index 0: every index but
    1 takes the incremental branch. */
module FeaturesFeatures {
  import opened OnlineStat

  /** One named feature with its value function and running statistic.
      `S` stands for *samples.Sample. */
  class Feature<S> {
    const name: string
    const measure: S -> real
    var mean: real
    var variance: real
    var std: real
    var min: real
    var max: real

    function State(): Stat
      reads this
    {
      Stat(mean, variance, std, min, max)
    }

    /** NewFeature(name, function): the statistic fields are zero. */
    constructor NewFeature(name: string, f: S -> real)
      ensures Name() == name && measure == f && State() == Zero
    {
      this.name, measure := name, f;
      mean, variance, std, min, max := 0.0, 0.0, 0.0, 0.0, 0.0;
    }

    /** Name() returns the name the feature was made with. */
    function Name(): (s: string)
      ensures s == name
    {
      name
    }

    /** Update(sample, nSamples). Index 0 is not guarded here: Go would
        divide by float64(0) and store infinities or NaN, which this real
        model cannot hold, so the index must be non-zero. */
    method Update(sample: S, n: int, sqrt: real -> real)
      requires n != 0
      modifies this
      ensures State() == Step(old(State()), measure(sample), n, sqrt)
      ensures min <= measure(sample) <= max
    {
      ghost var before := State();
      var value := measure(sample);
      if n == 1 {
        mean := value;
        min := value;
        max := value;
        variance := 0.0;
        std := 0.0;
      } else {
        ghost var r := Step(before, value, n, sqrt);
        var newMean := ((n - 1) as real * mean + 1.0 * value) / ((n - 1) as real + 1.0);
        assert newMean == r.mean;
        var newVar := variance + Sq(value - mean) / n as real;
        newVar := newVar * ((n - 1) as real / n as real);
        assert newVar == r.variance;
        mean := newMean;
        variance := newVar;
        std := sqrt(newVar);
        if value > max {
          max := value;
        }
        if value < min {
          min := value;
        }
        assert min == r.min && max == r.max;
      }
    }
  }
}

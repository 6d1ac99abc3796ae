/** auth/features.go: the first prototype of the feature store. Its Feature
    exposes the statistic as public fields and, like features/features.go,
    does not guard index 0. It also sets up the per-cell length table of a
    grid feature set. */
module AuthFeatures {
  import opened OnlineStat

  /** One named feature with its value function and running statistic
      (Go's Mean, Var, Std, Min, Max). `I` stands for *Image. */
  class Feature<I> {
    const name: string
    const measure: I -> real
    var mean: real
    var variance: real
    var std: real
    var min: real
    var max: real

    function State(): Stat
      reads this
    {
      Stat(mean, variance, std, min, max)
    }

    /** A composite literal &Feature{Name: ..., Function: ...}. */
    constructor (name: string, f: I -> real)
      ensures this.name == name && measure == f && State() == Zero
    {
      this.name, measure := name, f;
      mean, variance, std, min, max := 0.0, 0.0, 0.0, 0.0, 0.0;
    }

    /** Update(sample, nSamples), with no guard for index 0 (Go would divide
        by zero there, which this real model cannot hold). */
    method Update(sample: I, n: int, sqrt: real -> real)
      requires n != 0
      modifies this
      ensures State() == Step(old(State()), measure(sample), n, sqrt)
      ensures min <= measure(sample) <= max
    {
      ghost var before := State();
      var value := measure(sample);
      if n == 1 {
        mean := value;
        min := value;
        max := value;
        variance := 0.0;
        std := 0.0;
      } else {
        ghost var r := Step(before, value, n, sqrt);
        var newMean := ((n - 1) as real * mean + 1.0 * value) / ((n - 1) as real + 1.0);
        assert newMean == r.mean;
        var newVar := variance + Sq(value - mean) / n as real;
        newVar := newVar * ((n - 1) as real / n as real);
        assert newVar == r.variance;
        mean := newMean;
        variance := newVar;
        std := sqrt(newVar);
        if value > max {
          max := value;
        }
        if value < min {
          min := value;
        }
        assert min == r.min && max == r.max;
      }
    }
  }

  /** math.MaxFloat64 = (2 - 2^-52) * 2^1023, exactly. */
  const MaxFloat64: real := 179769313486231570814527423731704356798070567525844996598917476803157260780028538760589558632766878171540458953514382464234321326889464182768467546703537516986049910576551282076245490090389328944075868508455133942304583236903222948165808559332123348274797826204144723168738177180919299881250404026184124858368.0

  /** The [3]float64 every cell starts from: {0, 0, MaxFloat64}. */
  const Unset: seq<real> := [0.0, 0.0, MaxFloat64]

  /** The zero value of a [3]float64, which make() fills new rows with. */
  const Zero3: seq<real> := [0.0, 0.0, 0.0]

  class LengthGridFeatures {
    var gridSize: (int, int)
    var stride: int
    var avgLength: seq<real>
    var lengths: seq<seq<seq<real>>>

    /** NewLengthGridFeatures(x, y, stride): x rows of y cells, every cell
        and the average set to {0, 0, MaxFloat64}. make() panics on a
        negative length. */
    constructor NewLengthGridFeatures(x: int, y: int, stride: int)
      requires x >= 0 && y >= 0
      ensures gridSize == (x, y) && this.stride == stride && avgLength == Unset
      ensures |lengths| == x
      ensures forall i :: 0 <= i < x ==> |lengths[i]| == y
      ensures forall i, j :: 0 <= i < |lengths| && 0 <= j < |lengths[i]| ==> lengths[i][j] == Unset
    {
      gridSize, this.stride, avgLength := (x, y), stride, Unset;
      lengths := seq(x, _ => []);
      new;
      var i := 0;
      while i < x
        invariant 0 <= i <= x && |lengths| == x
        invariant forall k :: 0 <= k < i ==> |lengths[k]| == y
        invariant forall k, j :: 0 <= k < i && 0 <= j < |lengths[k]| ==> lengths[k][j] == Unset
        invariant gridSize == (x, y) && this.stride == stride && avgLength == Unset
      {
        lengths := lengths[i := seq(y, _ => Zero3)];
        var j := 0;
        while j < y
          invariant 0 <= j <= y && |lengths| == x && |lengths[i]| == y
          invariant forall k :: 0 <= k < j ==> lengths[i][k] == Unset
          invariant forall k :: 0 <= k < i ==> |lengths[k]| == y
          invariant forall k, l :: 0 <= k < i && 0 <= l < |lengths[k]| ==> lengths[k][l] == Unset
          invariant gridSize == (x, y) && this.stride == stride && avgLength == Unset
        {
          lengths := lengths[i := lengths[i][j := Unset]];
          j := j + 1;
        }
        i := i + 1;
      }
    }
  }
}

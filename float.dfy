/** The float64 values that the scoring path can produce.

    Feature statistics are modelled as exact reals; only the z-score and the
    averages built from it can leave the reals, because a template feature
    whose standard deviation is zero makes Go divide by zero. Rounding is not
    modelled. */
module Float {

  datatype Float = Finite(r: real) | PosInf | NegInf | NaN

  /** x / y for finite operands as IEEE 754 divides: a non-zero x over zero
      is the infinity with x's sign, 0/0 is NaN. (The divisors of this
      model are square roots and lengths, never a negative zero.) */
  function Div(x: real, y: real): (q: Float)
    ensures y != 0.0 ==> q.Finite? && q.r * y == x
    ensures y == 0.0 ==> (q == NaN <==> x == 0.0)
    ensures y == 0.0 ==> (q == PosInf <==> x > 0.0) && (q == NegInf <==> x < 0.0)
  {
    if y != 0.0 then Finite(x / y)
    else if x > 0.0 then PosInf
    else if x < 0.0 then NegInf
    else NaN
  }

  /** math.Abs: NaN stays NaN, both infinities become +Inf. */
  function Abs(x: Float): (a: Float)
    ensures a != NegInf
    ensures a.Finite? <==> x.Finite?
    ensures a.Finite? ==> a.r >= 0.0 && (a.r == x.r || a.r == -x.r)
    ensures a == NaN <==> x == NaN
  {
    match x
    case Finite(v) => Finite(if v < 0.0 then -v else v)
    case NaN => NaN
    case _ => PosInf
  }

  /** IEEE addition: NaN absorbs, opposite infinities give NaN. */
  function Add(x: Float, y: Float): Float
  {
    match (x, y)
    case (NaN, _) => NaN
    case (_, NaN) => NaN
    case (PosInf, NegInf) => NaN
    case (NegInf, PosInf) => NaN
    case (PosInf, _) => PosInf
    case (_, PosInf) => PosInf
    case (NegInf, _) => NegInf
    case (_, NegInf) => NegInf
    case (Finite(a), Finite(b)) => Finite(a + b)
  }

  lemma AddCommutes(x: Float, y: Float)
    ensures Add(x, y) == Add(y, x)
  {
  }

  lemma AddAssociates(x: Float, y: Float, z: Float)
    ensures Add(Add(x, y), z) == Add(x, Add(y, z))
  {
  }

  /** gonum's floats.Sum: a left-to-right running sum starting at 0. */
  function Sum(xs: seq<Float>): Float
  {
    if xs == [] then Finite(0.0) else Add(Sum(xs[..|xs| - 1]), xs[|xs| - 1])
  }

  /** x / float64(n). */
  function Quotient(x: Float, n: nat): Float
  {
    match x
    case Finite(v) => Div(v, n as real)
    case _ => x
  }

  /** gonum's stat.Mean(xs, nil): the sum over the length, so NaN when xs is empty. */
  function Mean(xs: seq<Float>): Float
  {
    Quotient(Sum(xs), |xs|)
  }

  /** score * weight. */
  function Mul(x: Float, w: real): Float
  {
    match x
    case Finite(v) => Finite(v * w)
    case NaN => NaN
    case PosInf => if w > 0.0 then PosInf else if w < 0.0 then NegInf else NaN
    case NegInf => if w > 0.0 then NegInf else if w < 0.0 then PosInf else NaN
  }

  /** x >= t for a finite threshold t: every comparison with NaN is false. */
  predicate AtLeast(x: Float, t: real)
  {
    match x
    case Finite(v) => v >= t
    case PosInf => true
    case NegInf => false
    case NaN => false
  }
}

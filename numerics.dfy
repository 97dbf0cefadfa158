/** Option and Result, used for the renderer's `std::optional` results and for the
    mesh loader's exceptions. */
module Wrappers {
  datatype Option<+T> = None | Some(value: T)

  datatype Result<+T> = Ok(value: T) | Err(message: string)
}

/** What the renderer takes from `<cmath>`, `<algorithm>` and `<limits>`.

    Single-precision floats are modelled by `real`.  The transcendental functions are not
    defined here: a `MathLib` is any choice of them, passed to every operation that calls
    one, and the only facts used about them are the laws below, taken as preconditions. */
module Numerics {
  /** `std::sqrt`, `std::tan`, `std::sin`, `std::cos` and `std::pow` on floats. */
  datatype MathLib = MathLib(
    sqrt: real -> real,
    tan: real -> real,
    sin: real -> real,
    cos: real -> real,
    pow: (real, real) -> real)

  /** The one fact the model needs about `sqrt`: on non-negative input it is the
      non-negative square root. */
  ghost predicate SqrtLaw(m: MathLib) {
    forall d :: 0.0 <= d ==> 0.0 <= m.sqrt(d) && m.sqrt(d) * m.sqrt(d) == d
  }

  /** The one fact used about `pow`: a non-negative base gives a non-negative power. */
  ghost predicate PowLaw(m: MathLib) {
    forall b, e :: 0.0 <= b ==> 0.0 <= m.pow(b, e)
  }

  /** `std::numeric_limits<float>::max()`, the largest finite float. */
  const FLT_MAX: real := 340282346638528859811704183484516925440.0

  /** `std::numeric_limits<float>::min()`: the smallest POSITIVE normal float, 2^-126,
      not the most negative one. */
  const FLT_MIN: real := 1.0 / 85070591730234615865843651857942052864.0

  /** `std::min(a, b)`, which answers `b < a ? b : a`. */
  function Min(a: real, b: real): (r: real)
    ensures r <= a && r <= b
    ensures r == a || r == b
  {
    if b < a then b else a
  }

  /** `std::max(a, b)`, which answers `a < b ? b : a`. */
  function Max(a: real, b: real): (r: real)
    ensures a <= r && b <= r
    ensures r == a || r == b
  {
    if a < b then b else a
  }

  /** `std::abs` on a float. */
  function Abs(x: real): (r: real)
    ensures 0.0 <= r && (r == x || r == -x)
  {
    if x < 0.0 then -x else x
  }
}

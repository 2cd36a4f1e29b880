/**
 * Real-number helpers shared by the geometry, vectoriser and angle code.
 * Coordinates are exact reals; the transcendental functions of the host
 * numeric library (numpy / math) are supplied as a `Host` value, so every
 * proof holds for whatever cos, sin, sqrt, hypot, atan2 and float() parser are used.
 */
module Numerics {
  import opened Outcomes

  type NonNegReal = r: real | r >= 0.0

  /** The numeric library the Python code calls into. */
  datatype Host = Host(
    parseFloat: string -> Option<real>,   // Python `float(str)`; None where it raises ValueError
    cos: real -> real,
    sin: real -> real,
    sqrt: NonNegReal -> NonNegReal,
    hypot: (real, real) -> NonNegReal,    // `np.linalg.norm` of a 2-vector, `np.hypot(x, y)`
    atan2: (real, real) -> real           // `np.arctan2(y, x)`
  )

  /** `np.pi` / `math.pi`, as the double it is. */
  const Pi: real := 3.141592653589793

  function Abs(x: real): (r: real)
    ensures r >= 0.0 && (r == x || r == -x)
  {
    if x < 0.0 then -x else x
  }

  function Min(a: real, b: real): (r: real)
    ensures r <= a && r <= b && (r == a || r == b)
  {
    if a <= b then a else b
  }

  function Max(a: real, b: real): (r: real)
    ensures r >= a && r >= b && (r == a || r == b)
  {
    if a >= b then a else b
  }

  /** `np.deg2rad`. */
  function Deg2Rad(d: real): real {
    d * Pi / 180.0
  }

  /** `np.degrees`. */
  function Degrees(r: real): real {
    r * 180.0 / Pi
  }

  /** `k * m` for an integer `k`. */
  function Multiple(k: int, m: real): real {
    k as real * m
  }

  /** Python's float `x % m` for a positive modulus: the remainder takes the divisor's sign. */
  function RealMod(x: real, m: real): (r: real)
    requires m > 0.0
    ensures 0.0 <= r < m
    ensures exists k: int :: x == Multiple(k, m) + r
  {
    var k := (x / m).Floor;
    FloorDivBounds(x, m);
    assert x == Multiple(k, m) + (x - k as real * m);
    x - k as real * m
  }

  lemma FloorDivBounds(x: real, m: real)
    requires m > 0.0
    ensures (x / m).Floor as real * m <= x < (x / m).Floor as real * m + m
  {
    var q := x / m;
    var k := q.Floor as real;
    assert k <= q < k + 1.0;
    assert q * m == x;
    MulMonotone(k, q, m);
    MulStrictMonotone(q, k + 1.0, m);
    assert (k + 1.0) * m == k * m + m;
    assert x < k * m + m;
  }

  lemma MulMonotone(a: real, b: real, m: real)
    requires a <= b && m > 0.0
    ensures a * m <= b * m
  {
    assert (b - a) * m >= 0.0;
  }

  lemma MulStrictMonotone(a: real, b: real, m: real)
    requires a < b && m > 0.0
    ensures a * m < b * m
  {
    assert (b - a) * m > 0.0;
  }

  lemma MulNonNeg(a: real, b: real)
    requires a >= 0.0 && b >= 0.0
    ensures a * b >= 0.0
  {
  }

  /** Scaling a non-negative number by a factor in [0, 1] keeps it between 0 and itself. */
  lemma MulFraction(a: real, t: real)
    requires a >= 0.0 && 0.0 <= t <= 1.0
    ensures 0.0 <= a * t <= a
  {
    MulNonNeg(a, t);
    MulNonNeg(a, 1.0 - t);
    assert a * (1.0 - t) == a - a * t;
  }

  /** `math.ceil` / `np.ceil`: the least integer not below `x`. */
  function Ceil(x: real): (n: int)
    ensures n as real >= x && (n - 1) as real < x
  {
    if x.Floor as real == x then x.Floor else x.Floor + 1
  }

  /** Python's `round(x)` and `np.round(x)`: nearest integer, ties to the even one. */
  function RoundHalfEven(x: real): (n: int)
    ensures Abs(x - n as real) <= 0.5
    ensures Abs(x - n as real) == 0.5 ==> n % 2 == 0
  {
    var f := x.Floor;
    var d := x - f as real;
    if d < 0.5 then f
    else if d > 0.5 then f + 1
    else if f % 2 == 0 then f
    else f + 1
  }

  /** Python's `int(x)` on a float: truncation toward zero. */
  function Trunc(x: real): (n: int)
    ensures Abs(n as real) <= Abs(x) && Abs(x - n as real) < 1.0
  {
    if x >= 0.0 then x.Floor else -((-x).Floor)
  }

  /** `min(max(x, lo), hi)` on integers. */
  function ClampInt(x: int, lo: int, hi: int): (r: int)
    requires lo <= hi
    ensures lo <= r <= hi
    ensures lo <= x <= hi ==> r == x
    ensures x < lo ==> r == lo
    ensures x > hi ==> r == hi
  {
    if x < lo then lo else if x > hi then hi else x
  }
}

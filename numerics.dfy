/**
 * The floating-point library the two tools call. The transcendental functions
 * and Python's round are not re-specified: every operation that needs them
 * takes them as parameters, bundled in Ops.
 */
module Numerics {
  /** math.sqrt, math.cos, math.sin, math.atan2, math.radians, math.degrees and round(x, n). */
  datatype Ops = Ops(
    sqrt: real -> real,
    cos: real -> real,
    sin: real -> real,
    atan2: (real, real) -> real,
    radians: real -> real,
    degrees: real -> real,
    round: (real, int) -> real)

  /** What the proofs about normals and shading assume of sqrt: it is the non-negative square root. */
  ghost predicate SqrtSound(sqrt: real -> real) {
    && sqrt(0.0) == 0.0
    && forall x: real :: 0.0 <= x ==> 0.0 <= sqrt(x) && sqrt(x) * sqrt(x) == x
  }

  /** What the proof about hex corners assumes of cos and sin. */
  ghost predicate TrigSound(ops: Ops) {
    forall t: real :: ops.cos(t) * ops.cos(t) + ops.sin(t) * ops.sin(t) == 1.0
  }

  /** What the proof about rounded points assumes of round: rounding a rounded value again changes nothing. */
  ghost predicate RoundStable(ops: Ops) {
    forall x: real, n: int :: ops.round(ops.round(x, n), n) == ops.round(x, n)
  }

  /** math.ceil, as an integer. */
  function Ceil(x: real): (n: int)
    ensures x <= n as real < x + 1.0
  {
    -((-x).Floor)
  }

  /** Python's max(a, b) on two floats. */
  function Max(a: real, b: real): (m: real)
    ensures m >= a && m >= b
    ensures m == a || m == b
  {
    if b > a then b else a
  }

  /** Python's min of two numbers: the first when they tie. */
  function Min(a: real, b: real): (m: real)
    ensures m <= a && m <= b
    ensures m == a || m == b
  {
    if b < a then b else a
  }

  /** A number whose square is positive is not zero. */
  lemma PositiveRoot(m: real, s: real)
    ensures m * m == s && s > 0.0 ==> m != 0.0
  {
  }

  lemma MulAtLeastOne(d: int, k: int)
    requires d > 0 && k >= 1
    ensures d * k >= d
  {
  }

  /** n = r + d q with 0 <= r < d fixes the quotient and the remainder. */
  lemma DivModUnique(n: int, d: int, q: int, r: int)
    requires d > 0 && 0 <= r < d && n == r + d * q
    ensures n / d == q && n % d == r
  {
    var q', r' := n / d, n % d;
    assert d * (q - q') == r' - r;
    if q > q' {
      MulAtLeastOne(d, q - q');
    } else if q < q' {
      MulAtLeastOne(d, q' - q);
    }
  }
}

/** The few JavaScript `Math` functions the simulation uses, over exact reals.
    Floating-point rounding, NaN and negative zero are not modelled. */
module JsMath {

  /** `Math.abs` */
  function Abs(x: real): (r: real)
    ensures 0.0 <= r && (r == x || r == -x)
  {
    if x < 0.0 then -x else x
  }

  /** `Math.sign`: -1, 0 or 1, so that x is its sign times its magnitude */
  function Sign(x: real): (r: real)
    ensures r == -1.0 || r == 0.0 || r == 1.0
    ensures x == r * Abs(x)
    ensures r == 0.0 <==> x == 0.0
  {
    if x < 0.0 then -1.0 else if x > 0.0 then 1.0 else 0.0
  }

  /** `Math.min` of two numbers */
  function Min(a: real, b: real): (r: real)
    ensures r <= a && r <= b && (r == a || r == b)
  {
    if a <= b then a else b
  }

  /** `Math.max` of two numbers */
  function Max(a: real, b: real): (r: real)
    ensures a <= r && b <= r && (r == a || r == b)
  {
    if a <= b then b else a
  }

  /** `Math.round`: the nearest integer, halves rounded up (towards +infinity) */
  function Round(x: real): (r: int)
    ensures x - 0.5 < r as real <= x + 0.5
  {
    (x + 0.5).Floor
  }
}

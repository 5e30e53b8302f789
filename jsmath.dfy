// The parts of JavaScript's `Math` the model needs, on exact integers.
module JsMath {
  /** `Math.ceil(a / b)` for a positive divisor. */
  function CeilDiv(a: int, b: int): (r: int)
    requires b > 0
    ensures b * (r - 1) < a <= b * r
    ensures a >= 0 ==> r >= 0
  {
    (a + b - 1) / b
  }

  /** `Math.max(0, x)`. */
  function NonNegative(x: int): (r: int)
    ensures r >= 0 && r >= x && (r == 0 || r == x)
  {
    if x < 0 then 0 else x
  }

  /** Truncation toward zero, which `new Date(x)` applies to a finite time value. */
  function Trunc(x: real): (r: int)
    ensures x >= 0.0 ==> r as real <= x < r as real + 1.0
    ensures x < 0.0 ==> r as real - 1.0 < x <= r as real
  {
    if x >= 0.0 then x.Floor else -((-x).Floor)
  }
}

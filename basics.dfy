/** Small shared vocabulary: an optional value and the `Math.max` / `Math.min` helpers. */
module Basics {

  datatype Option<+T> = None | Some(value: T)

  function Max(a: int, b: int): int
  {
    if a >= b then a else b
  }

  function Min(a: int, b: int): int
  {
    if a <= b then a else b
  }

  function MaxReal(a: real, b: real): real
  {
    if a >= b then a else b
  }

  /** Division by a positive number keeps the order. */
  lemma DivMonotone(x: real, y: real, d: real)
    requires 0.0 <= x <= y && d > 0.0
    ensures x / d <= y / d
  {
    assert y / d - x / d == (y - x) / d;
  }

  lemma DivAtMostOne(x: real, d: real)
    requires 0.0 <= x <= d && d > 0.0
    ensures x / d <= 1.0
  {
    DivMonotone(x, d, d);
    assert d / d == 1.0;
  }

  lemma DivBelowOne(x: real, d: real)
    requires 0.0 <= x < d
    ensures x / d < 1.0
  {
    assert d / d - x / d == (d - x) / d;
    assert d / d == 1.0;
  }

  lemma MulDivCancel(x: real, d: real)
    requires d > 0.0
    ensures x / d * d == x
  {
  }

  lemma MulLess(a: real, b: real, d: real)
    requires a < b && d > 0.0
    ensures a * d < b * d
  {
  }
}

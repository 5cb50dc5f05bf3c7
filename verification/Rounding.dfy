/** The two `Decimal.quantize` modes the program uses, on exact numbers. */
module Rounding {

  /** `ROUND_HALF_UP`: nearest integer, ties away from zero. */
  function HalfUp(x: real): (n: int)
    ensures -0.5 <= n as real - x <= 0.5
  {
    if x >= 0.0 then (x + 0.5).Floor else -((0.5 - x).Floor)
  }

  /** `ROUND_HALF_EVEN`, the default context's mode: nearest integer, ties to the even neighbour. */
  function HalfEven(x: real): (n: int)
    ensures -0.5 <= n as real - x <= 0.5
  {
    var low := x.Floor;
    var rest := x - low as real;
    if rest < 0.5 then low
    else if rest > 0.5 then low + 1
    else if low % 2 == 0 then low else low + 1
  }

  /** `value.quantize(Decimal("0.01"), rounding=ROUND_HALF_UP)` for `scale == 100.0`, and so on. */
  function QuantizeHalfUp(x: real, scale: real): real
    requires scale > 0.0
  {
    HalfUp(x * scale) as real / scale
  }

  function QuantizeHalfEven(x: real, scale: real): real
    requires scale > 0.0
  {
    HalfEven(x * scale) as real / scale
  }

  lemma HalfUpMonotone(x: real, y: real)
    requires x <= y
    ensures HalfUp(x) <= HalfUp(y)
  {
  }

  lemma HalfEvenMonotone(x: real, y: real)
    requires x <= y
    ensures HalfEven(x) <= HalfEven(y)
  {
  }

  lemma HalfUpKeepsIntegers(n: int)
    ensures HalfUp(n as real) == n
  {
  }

  /** The modes differ at ties only: half-up leaves zero, half-even goes to the even side. */
  lemma TieBreaks(n: int)
    ensures HalfUp(n as real + 0.5) == if n >= 0 then n + 1 else n
    ensures HalfEven(n as real + 0.5) == if n % 2 == 0 then n else n + 1
  {
    assert (n as real + 0.5).Floor == n;
    if n >= 0 {
      assert (n as real + 0.5 + 0.5).Floor == n + 1;
    } else {
      assert (0.5 - (n as real + 0.5)).Floor == -n;
    }
  }

  lemma MulMonotone(x: real, y: real, c: real)
    requires x <= y && c >= 0.0
    ensures x * c <= y * c
  {
  }

  lemma DivMonotone(x: real, y: real, c: real)
    requires x <= y && c > 0.0
    ensures x / c <= y / c
  {
    assert (x / c) * c == x && (y / c) * c == y;
  }

  lemma QuantizeHalfUpMonotone(x: real, y: real, scale: real)
    requires x <= y && scale > 0.0
    ensures QuantizeHalfUp(x, scale) <= QuantizeHalfUp(y, scale)
  {
    MulMonotone(x, y, scale);
    HalfUpMonotone(x * scale, y * scale);
    DivMonotone(HalfUp(x * scale) as real, HalfUp(y * scale) as real, scale);
  }

  lemma QuantizeHalfEvenMonotone(x: real, y: real, scale: real)
    requires x <= y && scale > 0.0
    ensures QuantizeHalfEven(x, scale) <= QuantizeHalfEven(y, scale)
  {
    MulMonotone(x, y, scale);
    HalfEvenMonotone(x * scale, y * scale);
    DivMonotone(HalfEven(x * scale) as real, HalfEven(y * scale) as real, scale);
  }

  lemma DivError(n: real, y: real, scale: real)
    requires scale > 0.0 && -0.5 <= n - y <= 0.5
    ensures -(0.5 / scale) <= n / scale - y / scale <= 0.5 / scale
  {
    DivMonotone(n - y, 0.5, scale);
    DivMonotone(y - n, 0.5, scale);
    assert (n - y) / scale == n / scale - y / scale;
    assert (y - n) / scale == y / scale - n / scale;
  }

  lemma Scaled(x: real, y: real, scale: real)
    requires scale > 0.0 && x * scale == y
    ensures y / scale == x
    ensures QuantizeHalfUp(x, scale) == HalfUp(y) as real / scale
    ensures QuantizeHalfEven(x, scale) == HalfEven(y) as real / scale
  {
    assert HalfUp(x * scale) == HalfUp(y);
    assert QuantizeHalfUp(x, scale) == HalfUp(x * scale) as real / scale;
    assert HalfUp(x * scale) as real == HalfUp(y) as real;
  }

  /** A quantized value is within half a unit of the exact one. */
  lemma QuantizeErrors(x: real, scale: real)
    requires scale > 0.0
    ensures -(0.5 / scale) <= QuantizeHalfUp(x, scale) - x <= 0.5 / scale
    ensures -(0.5 / scale) <= QuantizeHalfEven(x, scale) - x <= 0.5 / scale
  {
    var y := x * scale;
    Scaled(x, y, scale);
    DivError(HalfUp(y) as real, y, scale);
    DivError(HalfEven(y) as real, y, scale);
  }

  /** A value already on the grid is left alone. */
  lemma QuantizeOnGrid(n: int, scale: real)
    requires scale > 0.0
    ensures QuantizeHalfUp(n as real / scale, scale) == n as real / scale
  {
    Scaled(n as real / scale, n as real, scale);
    HalfUpKeepsIntegers(n);
  }
}

/** Rounding to a number of decimals, ties to the even neighbour, on exact reals. */
module Rounding {

  function RoundHalfEven(y: real): int {
    var f := y.Floor;
    var d := y - f as real;
    if d < 0.5 then f else if d > 0.5 then f + 1 else if f % 2 == 0 then f else f + 1
  }

  /** `x` rounded to a multiple of `1 / scale`. */
  function RoundTo(x: real, scale: real): real
    requires scale > 0.0
  {
    RoundHalfEven(x * scale) as real / scale
  }

  lemma RoundHalfEvenNear(y: real)
    ensures y - 0.5 <= RoundHalfEven(y) as real <= y + 0.5
  {
  }

  /** Rounding moves a number by at most half a unit. */
  lemma RoundToNear(x: real, scale: real)
    requires scale > 0.0
    ensures (x - RoundTo(x, scale)) * scale <= 0.5 && (RoundTo(x, scale) - x) * scale <= 0.5
  {
    RoundHalfEvenNear(x * scale);
    var y := RoundHalfEven(x * scale) as real;
    assert y / scale * scale == y;
    Times(x, y / scale, scale);
    Times(y / scale, x, scale);
  }

  lemma Times(x: real, y: real, scale: real)
    ensures (x - y) * scale == x * scale - y * scale
  {
  }

  /** Rounding never reverses an order. */
  lemma RoundHalfEvenMonotone(x: real, y: real)
    requires x <= y
    ensures RoundHalfEven(x) <= RoundHalfEven(y)
  {
    if x.Floor == y.Floor {
      assert x - x.Floor as real <= y - y.Floor as real;
    } else {
      assert x.Floor + 1 <= y.Floor;
    }
  }

  lemma RoundToMonotone(x: real, y: real, scale: real)
    requires scale > 0.0 && x <= y
    ensures RoundTo(x, scale) <= RoundTo(y, scale)
  {
    assert x * scale <= y * scale;
    RoundHalfEvenMonotone(x * scale, y * scale);
    Divide(RoundHalfEven(x * scale), RoundHalfEven(y * scale), scale);
  }

  lemma Divide(a: int, b: int, scale: real)
    requires scale > 0.0 && a <= b
    ensures a as real / scale <= b as real / scale
  {
  }

  /** Numbers more than a unit apart stay apart. */
  lemma RoundToApart(x: real, y: real, scale: real)
    requires scale > 0.0 && (y - x) * scale > 1.0
    ensures RoundTo(x, scale) < RoundTo(y, scale)
  {
    Times(y, x, scale);
    RoundHalfEvenNear(x * scale);
    RoundHalfEvenNear(y * scale);
    var a, b := RoundHalfEven(x * scale), RoundHalfEven(y * scale);
    assert a < b;
    assert (a as real) / scale < (b as real) / scale;
  }

  /** Whole numbers stay, and a half goes to the even neighbour. */
  lemma HalvesGoEven(n: int)
    ensures RoundHalfEven(n as real) == n
    ensures RoundHalfEven(n as real + 0.5) % 2 == 0
    ensures n <= RoundHalfEven(n as real + 0.5) <= n + 1
  {
    assert (n as real).Floor == n && (n as real + 0.5).Floor == n;
  }
}

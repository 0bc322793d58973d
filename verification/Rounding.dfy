/** Decimal rounding. Prices and money are real numbers; `round` takes the nearest grid
    point and sends a tie to the even one. */
module Rounding {

  const HALF_STEP_2: real := 0.005
  const HALF_STEP_4: real := 0.00005

  /** Nearest integer, ties to the even neighbour. */
  function RoundInt(y: real): (n: int)
    ensures y - 0.5 <= n as real <= y + 0.5
    ensures (n as real == y + 0.5 || n as real == y - 0.5) ==> n % 2 == 0
  {
    var f := y.Floor;
    var frac := y - f as real;
    if frac < 0.5 then f
    else if frac > 0.5 then f + 1
    else if f % 2 == 0 then f
    else f + 1
  }

  function Round2(x: real): (r: real)
    ensures x - HALF_STEP_2 <= r <= x + HALF_STEP_2
  {
    RoundInt(x * 100.0) as real / 100.0
  }

  function Round3(x: real): real {
    RoundInt(x * 1000.0) as real / 1000.0
  }

  function Round4(x: real): (r: real)
    ensures x - HALF_STEP_4 <= r <= x + HALF_STEP_4
  {
    RoundInt(x * 10000.0) as real / 10000.0
  }

  /** Rounding never swaps two values. */
  lemma {:induction false} RoundIntMonotone(x: real, y: real)
    requires x <= y
    ensures RoundInt(x) <= RoundInt(y)
  {
  }

  /** An integer is within half of y, and even if it is half away. */
  predicate Nearest(y: real, n: int) {
    2.0 * y - 1.0 <= 2.0 * n as real <= 2.0 * y + 1.0
    && (Apart(y, n) ==> n % 2 == 0)
  }

  /** Half way to the next integer. */
  predicate Apart(y: real, n: int) { 2.0 * n as real == 2.0 * y - 1.0 || 2.0 * n as real == 2.0 * y + 1.0 }

  lemma {:induction false} RoundIntIs(y: real, n: int)
    ensures RoundInt(y) == n <==> Nearest(y, n)
  {
    var m := RoundInt(y);
    if Nearest(y, n) && m != n {
      assert n == m + 1 || n == m - 1;
      assert Apart(y, m) && Apart(y, n);
      assert false;
    }
  }

  /** Rounding to 2, 3 and 4 decimals: the nearest multiple of the step, ties to the even one. */
  lemma {:induction false} RoundsToGrid(x: real, n: int)
    ensures 100.0 * Round2(x) == n as real <==> Nearest(100.0 * x, n)
    ensures 1000.0 * Round3(x) == n as real <==> Nearest(1000.0 * x, n)
    ensures 10000.0 * Round4(x) == n as real <==> Nearest(10000.0 * x, n)
  {
    RoundIntIs(100.0 * x, n);
    RoundIntIs(1000.0 * x, n);
    RoundIntIs(10000.0 * x, n);
  }
}

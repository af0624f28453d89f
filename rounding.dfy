/** Exact stand-ins, on rationals, for Python's built-in `round`.
    Python rounds halves to the even neighbour, both for `round(x)` and for
    `round(x, 4)`; these functions do the same on exact values. */
module Rounding {

  /** `round(x)` with no digits: the integer nearest to `x`, a tie going to
      the even neighbour. */
  function RoundHalfEven(x: real): (n: int)
    ensures x - 0.5 <= n as real <= x + 0.5
    ensures (n as real == x - 0.5 || n as real == x + 0.5) ==> n % 2 == 0
  {
    var f := x.Floor;
    var frac := x - f as real;
    if frac < 0.5 then f
    else if frac > 0.5 then f + 1
    else if f % 2 == 0 then f else f + 1
  }

  /** The two postconditions of RoundHalfEven pin its result down: no other
      integer is within one half of `x` and even on a tie. */
  lemma RoundHalfEvenUnique(x: real, n: int)
    requires x - 0.5 <= n as real <= x + 0.5
    requires (n as real == x - 0.5 || n as real == x + 0.5) ==> n % 2 == 0
    ensures n == RoundHalfEven(x)
  {
    var m := RoundHalfEven(x);
    // Two distinct integers within one half of x would be a tie pair, and
    // only one integer of such a pair is even.
    assert -1 <= n - m <= 1;
  }

  lemma RoundHalfEvenMonotone(x: real, y: real)
    requires x <= y
    ensures RoundHalfEven(x) <= RoundHalfEven(y)
  {
    var fx, fy := x.Floor, y.Floor;
    if fx == fy {
      assert x - fx as real <= y - fy as real;
    } else {
      assert fx < fy;
    }
  }

  /** `round(x, 4)`: `x` rounded half-even to four decimal places. */
  function Round4(x: real): (r: real)
    ensures x - 0.00005 <= r <= x + 0.00005
  {
    RoundHalfEven(x * 10000.0) as real / 10000.0
  }

  lemma Round4Monotone(x: real, y: real)
    requires x <= y
    ensures Round4(x) <= Round4(y)
  {
    RoundHalfEvenMonotone(x * 10000.0, y * 10000.0);
  }

  /** A value that already has at most four decimals is left as it is. */
  lemma Round4Exact(n: int)
    ensures Round4(n as real / 10000.0) == n as real / 10000.0
  {
    var x := n as real / 10000.0;
    assert x * 10000.0 == n as real;
    RoundHalfEvenUnique(n as real, n);
  }

  /** Rounding keeps a value of the unit interval inside it. */
  lemma Round4UnitInterval(x: real)
    requires 0.0 <= x <= 1.0
    ensures 0.0 <= Round4(x) <= 1.0
  {
    Round4Exact(0);
    Round4Exact(10000);
    Round4Monotone(0.0, x);
    Round4Monotone(x, 1.0);
  }

  /** Values more than one unit of the fourth decimal apart stay strictly
      ordered after rounding. */
  lemma Round4Strict(x: real, y: real)
    requires x + 0.0001 < y
    ensures Round4(x) < Round4(y)
  {
  }
}

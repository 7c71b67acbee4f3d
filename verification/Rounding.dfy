/** Rounding to a whole number of cents or hundredths of an hour.

    Python's `round` sends a tie to the even neighbour; `Decimal.quantize` with
    ROUND_HALF_UP sends a tie away from zero. Both act here on exact reals that
    count cents (or hundredths), so the result is an integer. */
module Rounding {

  /** The nearest, and of two equally near the even one. */
  function RoundHalfEven(x: real): (r: int)
    ensures -0.5 <= x - r as real <= 0.5
    ensures x - r as real == 0.5 || x - r as real == -0.5 ==> r % 2 == 0
  {
    var below := x.Floor;
    var rest := x - below as real;
    if rest < 0.5 then below
    else if rest > 0.5 then below + 1
    else if below % 2 == 0 then below
    else below + 1
  }

  /** The nearest, and of two equally near the one further from nothing. */
  function RoundHalfUp(x: real): (r: int)
    ensures -0.5 <= x - r as real <= 0.5
    ensures x - r as real == 0.5 ==> x < 0.0
    ensures x - r as real == -0.5 ==> x > 0.0
  {
    if x >= 0.0 then (x + 0.5).Floor else -((0.5 - x).Floor)
  }

  lemma RoundHalfEvenMonotone(x: real, y: real)
    requires x <= y
    ensures RoundHalfEven(x) <= RoundHalfEven(y)
  {
    if y - x < 1.0 && x.Floor != y.Floor {
      assert y.Floor == x.Floor + 1;
    }
  }

  lemma ScaleMonotone(factor: real, x: real, y: real)
    requires 0.0 <= factor && x <= y
    ensures factor * x <= factor * y
  {
    assert factor * (y - x) >= 0.0;
  }

  /** A rate of a whole amount, rounded: interest on a balance. */
  function RoundedShare(rate: real, amount: int): int {
    RoundHalfEven(Share(rate, amount))
  }

  function Share(rate: real, amount: int): real {
    rate * amount as real
  }

  lemma ShareMonotone(rate: real, less: nat, more: nat)
    requires 0.0 <= rate && less <= more
    ensures 0.0 <= Share(rate, less) <= Share(rate, more)
  {
    ScaleMonotone(rate, 0.0, less as real);
    ScaleMonotone(rate, less as real, more as real);
  }

  lemma RoundedShareMonotone(rate: real, less: nat, more: nat)
    requires 0.0 <= rate && less <= more
    ensures 0 <= RoundedShare(rate, less) <= RoundedShare(rate, more)
  {
    ShareMonotone(rate, less, more);
    RoundHalfEvenMonotone(0.0, Share(rate, less));
    RoundHalfEvenMonotone(Share(rate, less), Share(rate, more));
  }
}

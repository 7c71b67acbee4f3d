/** Division facts the solver does not find for a divisor it does not know. */
module Arithmetic {

  lemma ShiftByMultiple(x: int, times: int, n: int)
    requires n >= 1
    ensures (x + times * n) % n == x % n
    ensures (x + times * n) / n == x / n + times
  {
    var q, r := x / n, x % n;
    Distribute(q, times, n);
    DivisionUnique(x + times * n, n, q + times, r);
  }

  lemma Distribute(a: int, b: int, n: int)
    ensures (a + b) * n == a * n + b * n
  {
  }

  lemma ShiftOnce(x: int, n: int)
    requires n >= 1
    ensures (x + n) % n == x % n && (x + n) / n == x / n + 1
  {
    ShiftByMultiple(x, 1, n);
  }

  lemma TimesMonotone(a: int, b: int, n: nat)
    requires a <= b
    ensures a * n <= b * n
  {
    assert 0 <= (b - a) * n;
  }

  lemma DivisionUnique(x: int, n: int, q: int, r: int)
    requires n >= 1 && x == q * n + r && 0 <= r < n
    ensures x / n == q && x % n == r
  {
    var q', r' := x / n, x % n;
    assert x == q' * n + r';
    if q < q' {
      TimesMonotone(q + 1, q', n);
    } else if q' < q {
      TimesMonotone(q' + 1, q, n);
    }
  }

  /** A grid of step `n` begun at `first`: its first point, then the grid one step on. */
  predicate OnGrid(x: int, first: int, n: int)
    requires n >= 1
  {
    x >= first && (x - first) % n == 0
  }

  lemma GridStep(x: int, first: int, n: int)
    requires n >= 1
    ensures OnGrid(x, first, n) <==> x == first || OnGrid(x, first + n, n)
  {
    ShiftOnce(x - first - n, n);
    assert x - first - n + n == x - first;
    if first <= x < first + n {
      DivisionUnique(x - first, n, 0, x - first);
    }
  }

  /** Two grids a whole number of steps apart agree wherever both have begun. */
  lemma GridShift(x: int, first: int, times: int, n: int)
    requires n >= 1 && x >= first && x >= first + times * n
    ensures OnGrid(x, first, n) <==> OnGrid(x, first + times * n, n)
  {
    ShiftByMultiple(x - first - times * n, times, n);
    assert x - first - times * n + times * n == x - first;
  }
}

/** Lira and cent arithmetic (backend/internal/catalog/usd.go).
    Lira prices and cents are unbounded integers, dollar amounts and rates are reals. */
module Money {

  /** n is the integer nearest x, the one farther from zero when two are. */
  predicate Nearest(n: int, x: real) {
    if x >= 0.0 then -0.5 < n as real - x <= 0.5 else -0.5 <= n as real - x < 0.5
  }

  /** Go's math.Round and PostgreSQL's round(numeric). */
  function Round(x: real): (n: int)
    ensures Nearest(n, x)
  {
    if x >= 0.0 then (x + 0.5).Floor else -((-x + 0.5).Floor)
  }

  function RoundTo5(v: real): (n: int)
    ensures n % 5 == 0 && Nearest(n / 5, v / 5.0)
    ensures -2.5 <= n as real - v <= 2.5
  {
    var q := Round(v / 5.0);
    assert -2.5 <= (q * 5) as real - v <= 2.5 by {
      assert v / 5.0 * 5.0 == v;
      assert (q * 5) as real == q as real * 5.0;
    }
    q * 5
  }

  /** Cents at an exchange rate, in lira rounded to the nearest 5. */
  function UsdToSyp(cents: int, rate: real): (syp: int)
    ensures syp % 5 == 0
    ensures -2.5 <= syp as real - cents as real * rate / 100.0 <= 2.5
  {
    RoundTo5(cents as real * rate / 100.0)
  }

  function DollarsToCents(d: real): int {
    Round(d * 100.0)
  }

  lemma RoundOfInt(n: int)
    ensures Round(n as real) == n
  {
  }

  /** The copy of a dollar price made by DuplicateItem loses nothing. */
  lemma CentsRoundTrip(cents: int)
    ensures DollarsToCents(cents as real / 100.0) == cents
  {
    assert cents as real / 100.0 * 100.0 == cents as real;
    RoundOfInt(cents);
  }

  lemma RoundMonotone(x: real, y: real)
    requires x <= y
    ensures Round(x) <= Round(y)
  {
    if x >= 0.0 {
      assert (x + 0.5).Floor <= (y + 0.5).Floor;
    } else if y < 0.0 {
      assert (-y + 0.5).Floor <= (-x + 0.5).Floor;
    } else {
      assert (-x + 0.5).Floor >= 0;
    }
  }

}

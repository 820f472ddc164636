/** Exact money: whole units bought by an amount of capital. */
module Money {
  /** The quotient rounded down. */
  function FloorDiv(capital: real, price: real): int
    requires price != 0.0
  {
    (capital / price).Floor
  }

  /** The greatest whole number of units that capital buys at a price; 0 when
    * there is no capital (`_whole_units` in volcanoes/risk/trade_policies.py). */
  function WholeUnits(capital: real, price: real): (n: nat)
    requires price > 0.0
  {
    if capital <= 0.0 then 0
    else
      QuotientNotNegative(capital, price);
      FloorDiv(capital, price)
  }

  lemma QuotientNotNegative(capital: real, price: real)
    requires price > 0.0 && capital >= 0.0
    ensures FloorDiv(capital, price) >= 0
  {
  }

  /** A floor quotient is at least n exactly when n units fit the capital. */
  lemma FloorQuotient(capital: real, price: real, n: int)
    requires price > 0.0
    ensures n <= FloorDiv(capital, price) <==> n as real * price <= capital
  {
    var q := capital / price;
    assert q * price == capital;
    assert n <= q.Floor <==> n as real <= q;
    if n as real <= q {
      Scale(n as real, q, price);
    } else {
      ScaleStrict(q, n as real, price);
    }
  }

  lemma Scale(a: real, b: real, c: real)
    requires a <= b && c >= 0.0
    ensures a * c <= b * c
  {
  }

  lemma ScaleStrict(a: real, b: real, c: real)
    requires a < b && c > 0.0
    ensures a * c < b * c
  {
  }

  /** For at least one unit, comparing with the floor quotient and comparing the
    * cost with the capital are the same test, whatever the sign of the capital. */
  lemma WholeUnitsFit(capital: real, price: real, n: int)
    requires price > 0.0 && n >= 1
    ensures n <= WholeUnits(capital, price) <==> n as real * price <= capital
  {
    if capital > 0.0 {
      FloorQuotient(capital, price, n);
    } else {
      ScaleStrict(0.0, n as real, price);
    }
  }

  function Max(a: real, b: real): real { if a >= b then a else b }

  function Min(a: real, b: real): real { if a <= b then a else b }
}

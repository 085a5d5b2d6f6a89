/**
 Amounts of money. A value "to the cent" is represented by its whole number of cents.

 `Cents` is the rounding that the evidence check applies (quantize to 0.01, ROUND_HALF_UP:
 a tie moves away from zero). PostgreSQL's NUMERIC(12,2) rounds a tie away from zero too, so the
 same function is the value that the refunds ledger stores.
 */
module Money {
  function Cents(value: real): (c: int)
    ensures -0.5 <= value * 100.0 - c as real <= 0.5
    ensures value >= 0.0 ==> c >= 0 && value * 100.0 - c as real < 0.5
  {
    if value >= 0.0 then (value * 100.0 + 0.5).Floor else -(0.5 - value * 100.0).Floor
  }

  function FromCents(c: int): real {
    c as real / 100.0
  }

  function AtRate(value: real, rate: real): real {
    value * rate
  }

  /** An amount to the cent, converted at a rate, to the cent. */
  function Converted(amount: real, rate: real): int {
    Cents(AtRate(FromCents(Cents(amount)), rate))
  }

  /** Rounding is determined by the rule alone: the nearest cent, a tie going away from zero. */
  lemma CentsIsNearestTieAwayFromZero(value: real, c: int)
    ensures c == Cents(value) <==>
            var error := value * 100.0 - c as real;
            && -0.5 <= error <= 0.5
            && (error == 0.5 ==> value < 0.0)
            && (error == -0.5 ==> value > 0.0)
  {
    var n := Cents(value);
    if value >= 0.0 {
      assert n as real <= value * 100.0 + 0.5 < n as real + 1.0;
    } else {
      assert -n as real <= 0.5 - value * 100.0 < -n as real + 1.0;
    }
    var error := value * 100.0 - c as real;
    if c > n {
      assert c as real >= n as real + 1.0;
    } else if c < n {
      assert c as real <= n as real - 1.0;
    }
  }

  /** A conversion starts from the amount to the cent, multiplies once, and goes to the nearest cent the same way. */
  lemma ConvertedIsNearestTieAwayFromZero(amount: real, rate: real, c: int)
    ensures c == Converted(amount, rate) <==>
            var product := Cents(amount) as real / 100.0 * rate;
            var error := product * 100.0 - c as real;
            && -0.5 <= error <= 0.5
            && (error == 0.5 ==> product < 0.0)
            && (error == -0.5 ==> product > 0.0)
  {
    var value := Cents(amount) as real / 100.0;
    assert AtRate(value, rate) == Cents(amount) as real / 100.0 * rate;
    CentsIsNearestTieAwayFromZero(AtRate(value, rate), c);
  }

  lemma CentsMonotone(a: real, b: real)
    requires a <= b
    ensures Cents(a) <= Cents(b)
  {
    CentsIsNearestTieAwayFromZero(a, Cents(a));
    CentsIsNearestTieAwayFromZero(b, Cents(b));
    assert a * 100.0 <= b * 100.0;
  }

  /** A value that is already a whole number of cents is left alone. */
  lemma CentsIdempotent(c: int)
    ensures Cents(FromCents(c)) == c
  {
    CentsIsNearestTieAwayFromZero(FromCents(c), c);
  }

  /**
   What the two roundings can hide: converting the rounded amount and rounding again lets at most
   half a cent of the currency (converted) plus half a cent of the target through.
   */
  lemma ConvertedWithinLimit(amount: real, rate: real, limit: int)
    requires amount >= 0.0 && rate > 0.0
    requires Converted(amount, rate) <= limit
    ensures amount * rate < FromCents(limit) + 0.005 + 0.005 * rate
  {
    var rounded := FromCents(Cents(amount));
    CentsBelow(amount, Cents(amount));
    ProductNonNegative(rounded, rate);
    CentsBelow(AtRate(rounded, rate), limit);
    ProductMonotone(amount, rounded + 0.005, rate);
    Distribute(rounded, 0.005, rate);
  }

  /** A whole number of cents whose exact value is within the limit converts to something within the limit. */
  lemma ExactValueWithin(amount: real, c: int, rate: real, limit: real)
    requires amount == c as real / 100.0 && amount * rate <= limit
    ensures Cents(amount) == c && Converted(amount, rate) <= Cents(limit)
  {
    CentsIdempotent(c);
    CentsMonotone(AtRate(amount, rate), limit);
  }

  lemma CentsBelow(value: real, limit: int)
    requires value >= 0.0 && Cents(value) <= limit
    ensures value < FromCents(limit) + 0.005
  {
    assert value * 100.0 - Cents(value) as real < 0.5;
  }

  lemma Distribute(x: real, y: real, rate: real)
    ensures AtRate(x + y, rate) == AtRate(x, rate) + y * rate
  {
  }

  lemma ProductNonNegative(x: real, rate: real)
    requires x >= 0.0 && rate > 0.0
    ensures AtRate(x, rate) >= 0.0
  {
  }

  lemma ProductMonotone(x: real, y: real, rate: real)
    requires x < y && rate > 0.0
    ensures AtRate(x, rate) < AtRate(y, rate)
  {
    ProductPositive(y - x, rate);
    assert (y - x) * rate == y * rate - x * rate;
  }

  lemma ProductPositive(x: real, rate: real)
    requires x > 0.0 && rate > 0.0
    ensures x * rate > 0.0
  {
  }
}

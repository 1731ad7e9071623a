/** The NUMERIC(18,2) arithmetic behind every balance and every transaction row.

    A request carries its amount as a decimal string of any length; PostgreSQL
    computes with that exact value and rounds only when the result is stored in
    a column, ties away from zero. Column values are therefore whole cents. */
module Numeric {
  import opened Wrappers

  /** The number mantissa / 10^scale. */
  datatype Decimal = Decimal(mantissa: int, scale: nat)

  /** NUMERIC(18,2) holds magnitudes below 10^16, that is, below 10^18 cents. */
  const CENTS_LIMIT := 1_000_000_000_000_000_000

  function Pow10(n: nat): (p: int)
    ensures p >= 1
  {
    if n == 0 then 1 else 10 * Pow10(n - 1)
  }

  /** An amount is Scaled(a) / Unit(a) cents. */
  function Unit(a: Decimal): (d: int)
    ensures d >= 1
  {
    Pow10(a.scale)
  }

  function Scaled(a: Decimal): int {
    100 * a.mantissa
  }

  /** x / d rounded to an integer, ties away from zero. */
  function Round(x: int, d: int): int
    requires d >= 1
  {
    if x >= 0 then (2 * x + d) / (2 * d) else -((-2 * x + d) / (2 * d))
  }

  /** Storing x / d cents in a NUMERIC(18,2) column: None is the overflow error. */
  function ToColumn(x: int, d: int): Option<int>
    requires d >= 1
  {
    var r := Round(x, d);
    if -CENTS_LIMIT < r < CENTS_LIMIT then Some(r) else None
  }

  /** `balance >= $1`, decided on the unrounded amount. */
  predicate Covers(balance: int, a: Decimal) {
    balance * Unit(a) >= Scaled(a)
  }

  /** `balance = balance - $1`. */
  function Minus(balance: int, a: Decimal): Option<int> {
    ToColumn(balance * Unit(a) - Scaled(a), Unit(a))
  }

  /** `balance = balance + $1`. */
  function Plus(balance: int, a: Decimal): Option<int> {
    ToColumn(balance * Unit(a) + Scaled(a), Unit(a))
  }

  /** The amount as a transaction row stores it. */
  function Stored(a: Decimal): Option<int> {
    ToColumn(Scaled(a), Unit(a))
  }

  /** The part of the amount beyond whole cents is exactly half a cent. */
  predicate HalfCent(a: Decimal) {
    2 * (Scaled(a) % Unit(a)) == Unit(a)
  }

  /** The amount is a whole number of cents. */
  predicate TwoDecimal(a: Decimal) {
    Scaled(a) % Unit(a) == 0
  }

  /** What a credit adds: the amount to the nearest cent, ties up. */
  function CreditCents(a: Decimal): int {
    Scaled(a) / Unit(a) + if 2 * (Scaled(a) % Unit(a)) >= Unit(a) then 1 else 0
  }

  /** What a debit removes: the amount to the nearest cent, ties down. */
  function DebitCents(a: Decimal): int {
    Scaled(a) / Unit(a) + if 2 * (Scaled(a) % Unit(a)) > Unit(a) then 1 else 0
  }

  /** The amount as a number. */
  ghost function Value(a: Decimal): real {
    a.mantissa as real / Pow10(a.scale) as real
  }

  lemma CrossMultiply(m: real, d: real, b: real)
    requires d > 0.0
    ensures m / d <= b <==> m <= b * d
  {
    var q := m / d;
    assert m == q * d;
    if q <= b {
      assert (b - q) * d >= 0.0;
    } else {
      assert (q - b) * d > 0.0;
    }
  }

  /** The guard compares exact values: a balance of whole cents covers an amount of any scale
      if and only if the amount is at most the balance. */
  lemma CoversIsAtMost(balance: int, a: Decimal)
    ensures Covers(balance, a) <==> Value(a) <= balance as real / 100.0
  {
    var d := Unit(a);
    CrossMultiply(a.mantissa as real, d as real, balance as real / 100.0);
    assert (balance as real / 100.0) * d as real * 100.0 == (balance * d) as real;
    assert Scaled(a) as real == 100.0 * a.mantissa as real;
  }

  // --- division facts ---

  /** Multiplying by a positive number keeps order, with room to spare. */
  lemma ProductOrder(p: int, q: int, d: int)
    requires d >= 1
    ensures p < q ==> p * d + d <= q * d
    ensures p <= q ==> p * d <= q * d
  {
    var gap := q - p;
    assert q * d == p * d + gap * d;
    if gap >= 1 {
      assert gap * d >= d;
    }
  }

  lemma QuotientIs(x: int, d: int, q: int)
    requires d >= 1 && q * d <= x < q * d + d
    ensures x / d == q
  {
    var k := x / d;
    assert x == k * d + x % d;
    ProductOrder(k, q, d);
    ProductOrder(q, k, d);
  }

  /** Rounding a non-negative number given as a quotient and a remainder. */
  lemma RoundParts(q: int, r: int, d: int)
    requires d >= 1 && 0 <= r < d && q * d + r >= 0
    ensures Round(q * d + r, d) == q + if 2 * r >= d then 1 else 0
  {
    var up := if 2 * r >= d then 1 else 0;
    var x := 2 * (q * d + r) + d;
    assert (q + up) * (2 * d) == 2 * (q * d) + 2 * up * d;
    QuotientIs(x, 2 * d, q + up);
  }

  /** m is within d / 2 of x, and on a tie is the one further from zero. */
  predicate Near(x: int, d: int, m: int) {
    Abs(2 * (x - m)) <= d && (Abs(2 * (x - m)) == d ==> Abs(m) > Abs(x))
  }

  predicate IsNearest(x: int, d: int, r: int) {
    Near(x, d, r * d)
  }

  lemma RoundIsNearestNat(x: int, d: int)
    requires d >= 1 && x >= 0
    ensures IsNearest(x, d, Round(x, d)) && Round(x, d) >= 0
  {
    var m := Round(x, d);
    assert 2 * x + d == m * (2 * d) + (2 * x + d) % (2 * d);
    assert m * (2 * d) == 2 * (m * d);
    ProductOrder(m, 0, d);
  }

  /** Two multiples at least d apart are not both nearest to x: a tie goes away from zero. */
  lemma NotBothNearest(x: int, d: int, low: int, high: int)
    requires d >= 1 && low + d <= high && (low >= 0 || low + d <= 0)
    ensures !(Near(x, d, low) && Near(x, d, high))
  {
  }

  lemma NearestIsUnique(x: int, d: int, r: int, k: int)
    requires d >= 1 && IsNearest(x, d, r) && IsNearest(x, d, k)
    ensures r == k
  {
    var low, high := if r < k then r else k, if r < k then k else r;
    ProductOrder(low, high, d);
    ProductOrder(low, 0, d);
    ProductOrder(0, low, d);
    if low < high {
      NotBothNearest(x, d, low * d, high * d);
    }
  }

  /** Round returns the nearest integer, ties away from zero, and no other integer is. */
  lemma RoundIsNearest(x: int, d: int, r: int)
    requires d >= 1
    ensures r == Round(x, d) <==> IsNearest(x, d, r)
  {
    var k := Round(x, d);
    if x >= 0 {
      RoundIsNearestNat(x, d);
    } else {
      RoundIsNearestNat(-x, d);
      assert k * d == -(Round(-x, d) * d) by { assert k == -Round(-x, d); }
    }
    if IsNearest(x, d, r) {
      NearestIsUnique(x, d, r, k);
    }
  }

  function Abs(x: int): int {
    if x >= 0 then x else -x
  }

  // --- what the three statements store ---

  lemma Regroup(b: int, q: int, r: int, d: int)
    ensures b * d - (q * d + r) == (b - q) * d - r
    ensures b * d - (q * d + r) == (b - q - 1) * d + (d - r)
  {
  }

  /** Taking q units and a remainder r away from b whole units. */
  lemma RoundDifference(b: int, q: int, r: int, d: int)
    requires d >= 1 && 0 <= r < d && 0 <= q && q * d + r <= b * d
    ensures Round(b * d - (q * d + r), d) == b - q - if 2 * r > d then 1 else 0
    ensures q + (if r > 0 then 1 else 0) <= b
  {
    Regroup(b, q, r, d);
    var rest := b - q;
    ProductOrder(rest, 0, d);
    ProductOrder(rest, 1, d);
    if r == 0 {
      RoundParts(rest, 0, d);
    } else {
      RoundParts(rest - 1, d - r, d);
    }
  }

  /** An amount as whole cents q and a remainder r. */
  lemma CentParts(a: Decimal) returns (q: int, r: int)
    requires a.mantissa > 0
    ensures Scaled(a) == q * Unit(a) + r && 0 <= r < Unit(a) && 0 <= q
    ensures CreditCents(a) == q + if 2 * r >= Unit(a) then 1 else 0
    ensures DebitCents(a) == q + if 2 * r > Unit(a) then 1 else 0
  {
    q, r := Scaled(a) / Unit(a), Scaled(a) % Unit(a);
    ProductOrder(q, 0, Unit(a));
  }

  /** A debit that the guard lets through never crosses zero and never overflows. */
  lemma MinusExact(balance: int, a: Decimal)
    requires 0 <= balance < CENTS_LIMIT && a.mantissa > 0 && Covers(balance, a)
    ensures Minus(balance, a) == Some(balance - DebitCents(a))
    ensures 0 <= DebitCents(a) <= balance
  {
    var q, r := CentParts(a);
    RoundDifference(balance, q, r, Unit(a));
  }

  lemma PlusExact(balance: int, a: Decimal)
    requires 0 <= balance && a.mantissa > 0
    ensures Plus(balance, a) == if balance + CreditCents(a) < CENTS_LIMIT then Some(balance + CreditCents(a)) else None
    ensures CreditCents(a) >= 0
  {
    var q, r := CentParts(a);
    var d := Unit(a);
    assert (balance + q) * d == balance * d + q * d;
    ProductOrder(0, balance + q, d);
    RoundParts(balance + q, r, d);
  }

  lemma StoredExact(a: Decimal)
    requires a.mantissa > 0
    ensures Stored(a) == if CreditCents(a) < CENTS_LIMIT then Some(CreditCents(a)) else None
  {
    PlusExact(0, a);
  }

  /** The column holds exactly the values of two decimals that lie strictly between -10^16 and 10^16; the
      largest is 9999999999999999.99. */
  lemma ColumnBound(x: int, d: int)
    requires d >= 1
    ensures var v := Round(x, d) as real / 100.0;
            && (ToColumn(x, d).Some? <==> -10000000000000000.0 < v < 10000000000000000.0)
            && (ToColumn(x, d).Some? <==> -9999999999999999.99 <= v <= 9999999999999999.99)
  {
  }

  /** A credit adds what the row records; a debit removes one cent less exactly
      when the amount ends in half a cent. */
  lemma DebitCreditGap(a: Decimal)
    ensures CreditCents(a) - DebitCents(a) == if HalfCent(a) then 1 else 0
    ensures TwoDecimal(a) ==> !HalfCent(a) && CreditCents(a) * Unit(a) == Scaled(a)
  {
    assert Scaled(a) == Scaled(a) / Unit(a) * Unit(a) + Scaled(a) % Unit(a);
  }

  /** Every literal with at most two digits after the point is a whole number of cents. */
  lemma TwoDigitsAreTwoDecimal(a: Decimal)
    requires a.scale <= 2
    ensures TwoDecimal(a)
  {
    assert Pow10(1) == 10 && Pow10(2) == 100;
    if a.scale == 0 {
      QuotientIs(Scaled(a), 1, Scaled(a));
    } else if a.scale == 1 {
      QuotientIs(Scaled(a), 10, 10 * a.mantissa);
    } else {
      QuotientIs(Scaled(a), 100, a.mantissa);
    }
  }

  /** Trailing zeros do not matter: "1.5" and "1.50" debit, credit and store alike. */
  lemma TrailingZero(a: Decimal, balance: int)
    ensures var z := Decimal(10 * a.mantissa, a.scale + 1);
            && Covers(balance, z) == Covers(balance, a)
            && Minus(balance, z) == Minus(balance, a)
            && Plus(balance, z) == Plus(balance, a)
            && Stored(z) == Stored(a)
  {
    var d, n := Unit(a), Scaled(a);
    assert Pow10(a.scale + 1) == 10 * d;
    assert balance * (10 * d) == 10 * (balance * d);
    RoundScale(balance * d - n, d);
    RoundScale(balance * d + n, d);
    RoundScale(n, d);
  }

  /** Scaling number and unit alike keeps the nearest multiple. */
  lemma NearestScales(x: int, d: int, r: int)
    requires IsNearest(x, d, r)
    ensures IsNearest(10 * x, 10 * d, r)
  {
    var m := r * d;
    assert r * (10 * d) == 10 * m;
    NearScales(x, d, m);
  }

  lemma NearScales(x: int, d: int, m: int)
    requires Near(x, d, m)
    ensures Near(10 * x, 10 * d, 10 * m)
  {
  }

  lemma RoundScale(x: int, d: int)
    requires d >= 1
    ensures Round(10 * x, 10 * d) == Round(x, d)
  {
    RoundIsNearest(x, d, Round(x, d));
    NearestScales(x, d, Round(x, d));
    RoundIsNearest(10 * x, 10 * d, Round(x, d));
  }
}

/** Exact decimal money and the two roundings the payroll engine applies
    (whole units and whole cents). Amounts are exact reals: the engine's
    IEEE doubles are not modelled. */
module Money {

  /** x has no fractional part. */
  predicate IsWhole(x: real) {
    x.Floor as real == x
  }

  /** x is a whole number of cents. */
  predicate IsCents(x: real) {
    IsWhole(x * 100.0)
  }

  /** JavaScript's Math.round: the nearest whole number, halves rounded up. */
  function Round(x: real): (r: real)
    ensures IsWhole(r)
    ensures x - 0.5 < r <= x + 0.5
    ensures 0.0 <= x ==> 0.0 <= r
  {
    (x + 0.5).Floor as real
  }

  /** Math.round(x * 100) / 100: the nearest whole cent, halves rounded up. */
  function RoundCents(x: real): (r: real)
    ensures IsCents(r)
    ensures x - 0.005 < r <= x + 0.005
    ensures 0.0 <= x ==> 0.0 <= r
  {
    Round(x * 100.0) / 100.0
  }

  function Min(a: real, b: real): real {
    if a <= b then a else b
  }

  function Max(a: real, b: real): real {
    if a >= b then a else b
  }

  /** Rounding never reverses the order of two amounts. */
  lemma RoundMonotone(x: real, y: real)
    requires x <= y
    ensures Round(x) <= Round(y)
  {
    var a, b := (x + 0.5).Floor, (y + 0.5).Floor;
    assert (a as real) <= y + 0.5 < (b as real) + 1.0;
    assert a < b + 1;
  }

  /** Rounding to cents never reverses the order of two amounts. */
  lemma RoundCentsMonotone(x: real, y: real)
    requires x <= y
    ensures RoundCents(x) <= RoundCents(y)
  {
    RoundMonotone(x * 100.0, y * 100.0);
  }

  /** A whole amount is its own rounding. */
  lemma RoundWhole(w: real)
    requires IsWhole(w)
    ensures Round(w) == w
  {
    var n, m := w.Floor, (w + 0.5).Floor;
    assert (m - n) as real <= 0.5 && -0.5 < (m - n) as real;
    assert m - n == 0;
  }

  lemma MulNonNegative(a: real, b: real)
    ensures 0.0 <= a && 0.0 <= b ==> 0.0 <= a * b
  {
  }

  /** Whole amounts are closed under subtraction. */
  lemma WholeDifference(a: real, b: real)
    requires IsWhole(a) && IsWhole(b)
    ensures IsWhole(a - b)
  {
    var A, B := a.Floor, b.Floor;
    assert a - b == (A - B) as real;
  }

  /** A whole amount strictly between -3 and 3 is between -2 and 2. */
  lemma WholeWithinTwo(d: real)
    requires IsWhole(d) && -3.0 < d < 3.0
    ensures -2.0 <= d <= 2.0
  {
    var n := d.Floor;
    assert -3 < n < 3;
  }

  /** Two different whole-cent amounts are at least one cent apart. */
  lemma CentsApart(x: real, a: real)
    requires IsCents(x) && IsCents(a) && a < x
    ensures a + 0.01 <= x
  {
    var X, A := (x * 100.0).Floor, (a * 100.0).Floor;
    assert A < X;
  }

  /** Whole cents are closed under subtraction. */
  lemma CentsDifference(a: real, b: real)
    requires IsCents(a) && IsCents(b)
    ensures IsCents(a - b)
  {
    var A, B := (a * 100.0).Floor, (b * 100.0).Floor;
    assert (a - b) * 100.0 == (A - B) as real;
  }
}

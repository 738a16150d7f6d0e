/** The generic progressive-bracket evaluator (progTax) and the two
    proportional-rate tables it is used with: the United States federal
    table and the California table. */
module Progressive {
  import opened Money
  import opened Tables

  /** One row of a proportional-rate table: income in [li, ls] is taxed at rate. */
  datatype Bracket = Bracket(li: real, ls: Upper, rate: real)

  /** Federal income-tax brackets on annual taxable income. */
  const IRS_FED: seq<Bracket> := [
    Bracket(0.0, Finite(11925.0), 0.10), Bracket(11925.0, Finite(48475.0), 0.12),
    Bracket(48475.0, Finite(103350.0), 0.22), Bracket(103350.0, Finite(197300.0), 0.24),
    Bracket(197300.0, Finite(250525.0), 0.32), Bracket(250525.0, Finite(626350.0), 0.35),
    Bracket(626350.0, Infinity, 0.37)
  ]

  /** California income-tax brackets on annual taxable income. */
  const CA_FTB: seq<Bracket> := [
    Bracket(0.0, Finite(10756.0), 0.01), Bracket(10756.0, Finite(25499.0), 0.02),
    Bracket(25499.0, Finite(40245.0), 0.04), Bracket(40245.0, Finite(55866.0), 0.06),
    Bracket(55866.0, Finite(70606.0), 0.08), Bracket(70606.0, Finite(360659.0), 0.093),
    Bracket(360659.0, Finite(432787.0), 0.103), Bracket(432787.0, Finite(721314.0), 0.113),
    Bracket(721314.0, Infinity, 0.123)
  ]

  /** The reducer of progTax: what one bracket adds to the running total. */
  function Contribution(income: real, b: Bracket): real {
    if income <= b.li then 0.0 else (MinUpper(income, b.ls) - b.li) * b.rate
  }

  /** A bracket's contribution is nothing at or below its lower bound and,
      on a non-empty bracket, the rate times the part of the income inside
      it. */
  lemma ContributionIsShare(income: real, b: Bracket)
    ensures income <= b.li ==> Contribution(income, b) == 0.0
    ensures AtMost(b.li, b.ls) ==> Contribution(income, b) == Share(income, b)
  {
  }

  /** Array.prototype.reduce of Contribution over the table, from the total t. */
  function Reduce(t: real, income: real, bs: seq<Bracket>): real
    decreases |bs|
  {
    if bs == [] then t else Reduce(t + Contribution(income, bs[0]), income, bs[1..])
  }

  /** progTax(income, brackets). */
  function ProgTax(income: real, bs: seq<Bracket>): real {
    Reduce(0.0, income, bs)
  }

  // ----- A reference definition and the shape of a well-built table -----

  /** The length of the part of [lo, hi] that lies at or below x. */
  function Width(x: real, lo: real, hi: Upper): (w: real)
    ensures 0.0 <= w
    ensures lo <= x && AtMost(x, hi) ==> w == x - lo
    ensures x <= lo ==> w == 0.0
  {
    Max(0.0, MinUpper(x, hi) - lo)
  }

  /** A bracket's rate times the part of the income that falls inside it. */
  function Share(income: real, b: Bracket): real {
    b.rate * Width(income, b.li, b.ls)
  }

  /** Progressive tax stated directly: the sum of every bracket's share. */
  function MarginalSum(income: real, bs: seq<Bracket>): real
    decreases |bs|
  {
    if bs == [] then 0.0 else Share(income, bs[0]) + MarginalSum(income, bs[1..])
  }

  /** Every bracket is a non-empty range with a non-negative rate. */
  predicate WellFormed(bs: seq<Bracket>) {
    forall i :: 0 <= i < |bs| ==> AtMost(bs[i].li, bs[i].ls) && 0.0 <= bs[i].rate
  }

  /** Each bracket starts exactly where the previous one stops. */
  ghost predicate Contiguous(bs: seq<Bracket>) {
    forall i, j :: 0 <= i < j < |bs| && j == i + 1 ==> bs[i].ls == Finite(bs[j].li)
  }

  predicate RatesWithin(bs: seq<Bracket>, lo: real, hi: real) {
    forall i :: 0 <= i < |bs| ==> lo <= bs[i].rate <= hi
  }

  /** A complete table: from 0 upwards without gaps or overlaps, the last
      bracket unbounded, every rate in [lo, hi]. */
  ghost predicate TaxTable(bs: seq<Bracket>, lo: real, hi: real) {
    && |bs| > 0
    && bs[0].li == 0.0
    && bs[|bs| - 1].ls.Infinity?
    && WellFormed(bs)
    && Contiguous(bs)
    && 0.0 <= lo
    && RatesWithin(bs, lo, hi)
  }

  lemma IrsFedIsTaxTable()
    ensures TaxTable(IRS_FED, 0.10, 0.37)
  {
  }

  lemma CaFtbIsTaxTable()
    ensures TaxTable(CA_FTB, 0.01, 0.123)
  {
  }

  // ----- Helpers -----

  lemma TailKeepsShape(bs: seq<Bracket>)
    requires |bs| > 0 && WellFormed(bs)
    ensures WellFormed(bs[1..])
    ensures Contiguous(bs) ==> Contiguous(bs[1..])
  {
    var rest := bs[1..];
    forall i | 0 <= i < |rest| ensures AtMost(rest[i].li, rest[i].ls) && 0.0 <= rest[i].rate {
      assert rest[i] == bs[i + 1];
    }
    if Contiguous(bs) {
      forall i, j | 0 <= i < j < |rest| && j == i + 1 ensures rest[i].ls == Finite(rest[j].li) {
        assert rest[i] == bs[i + 1] && rest[j] == bs[j + 1];
      }
    }
  }

  lemma TailKeepsRates(bs: seq<Bracket>, lo: real, hi: real)
    requires |bs| > 0 && RatesWithin(bs, lo, hi)
    ensures RatesWithin(bs[1..], lo, hi)
  {
    forall i | 0 <= i < |bs| - 1 ensures lo <= bs[1..][i].rate <= hi {
      assert bs[1..][i] == bs[i + 1];
    }
  }

  lemma MulBetween(d: real, lo: real, r: real, hi: real)
    requires 0.0 <= d && lo <= r <= hi
    ensures lo * d <= r * d <= hi * d
  {
    assert (r - lo) * d >= 0.0;
    assert (hi - r) * d >= 0.0;
  }

  lemma WidthMonotone(x: real, y: real, lo: real, hi: Upper)
    requires x <= y
    ensures Width(x, lo, hi) <= Width(y, lo, hi)
  {
  }

  lemma WidthSplit(x: real, lo: real, m: real, hi: Upper)
    requires lo <= m && AtMost(m, hi)
    ensures Width(x, lo, hi) == Width(x, lo, Finite(m)) + Width(x, m, hi)
  {
  }

  /** g lies between lo and hi times d: the shape of every marginal-rate
      bound below. */
  predicate Between(lo: real, hi: real, d: real, g: real) {
    lo * d <= g <= hi * d
  }

  /** A bracket's share grows by between lo and hi times the growth of the
      part of the income inside it. */
  lemma ShareStep(x: real, y: real, b: Bracket, lo: real, hi: real)
    requires x <= y && lo <= b.rate <= hi
    ensures Between(lo, hi, Width(y, b.li, b.ls) - Width(x, b.li, b.ls), Share(y, b) - Share(x, b))
  {
    WidthMonotone(x, y, b.li, b.ls);
    StepBounds(Width(x, b.li, b.ls), Width(y, b.li, b.ls), lo, b.rate, hi);
  }

  lemma StepBounds(wx: real, wy: real, lo: real, r: real, hi: real)
    requires wx <= wy && lo <= r <= hi
    ensures lo * (wy - wx) <= r * wy - r * wx <= hi * (wy - wx)
  {
    MulBetween(wy - wx, lo, r, hi);
  }

  lemma ShareNonNegative(x: real, y: real, b: Bracket)
    requires x <= y && 0.0 <= b.rate
    ensures 0.0 <= Share(x, b) <= Share(y, b)
  {
    var wx, wy := Width(x, b.li, b.ls), Width(y, b.li, b.ls);
    WidthMonotone(x, y, b.li, b.ls);
    MulBetween(b.rate, wx, wy, wy);
    MulBetween(b.rate, 0.0, wx, wx);
  }

  /** Bounds on two steps add up to a bound on their sum. */
  lemma AddBounds(lo: real, hi: real, d1: real, g1: real, d2: real, g2: real)
    requires Between(lo, hi, d1, g1) && Between(lo, hi, d2, g2)
    ensures Between(lo, hi, d1 + d2, g1 + g2)
  {
    assert lo * (d1 + d2) == lo * d1 + lo * d2;
    assert hi * (d1 + d2) == hi * d1 + hi * d2;
  }

  /** Equal factors give equal products, which the solver does not always
      see when the factors are different terms. */
  lemma SameScaled(a: real, b: real, d: real)
    requires a == b
    ensures a * d == b * d
  {
  }

  /** Rewrites a bound with equal amounts, which the solver does not do by
      itself under a product. */
  lemma Transfer(lo: real, hi: real, d: real, d': real, g: real, g': real)
    requires d == d' && g == g' && Between(lo, hi, d, g)
    ensures Between(lo, hi, d', g')
  {
  }

  /** Inside a bracket, the share grows at exactly the bracket's rate. */
  lemma ShareInside(x: real, y: real, b: Bracket)
    requires b.li <= x <= y && AtMost(y, b.ls)
    ensures Share(y, b) - Share(x, b) == b.rate * (y - x)
  {
    assert Width(y, b.li, b.ls) == y - b.li && Width(x, b.li, b.ls) == x - b.li;
    assert b.rate * (y - b.li) - b.rate * (x - b.li) == b.rate * (y - x);
  }

  /** Above a bracket's top, the bracket's share no longer grows. */
  lemma ShareFlat(x: real, y: real, b: Bracket)
    requires AtMost(b.li, b.ls) && b.ls.Finite? && b.ls.v <= x <= y
    ensures Share(x, b) == Share(y, b)
  {
    assert Width(x, b.li, b.ls) == Width(y, b.li, b.ls);
  }

  /** Lower bounds never decrease along a well-built table. */
  lemma {:induction false} LowerBoundsAscend(bs: seq<Bracket>, i: nat, j: nat)
    requires WellFormed(bs) && Contiguous(bs) && i <= j < |bs|
    ensures bs[i].li <= bs[j].li
    decreases j - i
  {
    if i < j {
      LowerBoundsAscend(bs, i, j - 1);
      assert bs[j - 1].ls == Finite(bs[j].li);
    }
  }

  lemma {:induction false} MarginalSumAppend(income: real, a: seq<Bracket>, b: seq<Bracket>)
    ensures MarginalSum(income, a + b) == MarginalSum(income, a) + MarginalSum(income, b)
    decreases |a|
  {
    if a == [] {
      assert a + b == b;
    } else {
      assert (a + b)[1..] == a[1..] + b;
      MarginalSumAppend(income, a[1..], b);
    }
  }

  // ----- What the evaluator computes -----

  /** Folding the reducer from a running total t adds exactly the sum of
      the brackets' shares to t. */
  lemma {:induction false} ReduceAddsMarginalSum(t: real, income: real, bs: seq<Bracket>)
    requires WellFormed(bs)
    ensures Reduce(t, income, bs) == t + MarginalSum(income, bs)
    decreases |bs|
  {
    if bs != [] {
      var b := bs[0];
      assert AtMost(b.li, b.ls);
      assert Contribution(income, b) == Share(income, b);
      TailKeepsShape(bs);
      ReduceAddsMarginalSum(t + Contribution(income, b), income, bs[1..]);
    }
  }

  /** progTax is the sum, over the brackets, of the rate times the part of
      the income inside the bracket. */
  lemma ProgTaxIsMarginalSum(income: real, bs: seq<Bracket>)
    requires WellFormed(bs)
    ensures ProgTax(income, bs) == MarginalSum(income, bs)
  {
    ReduceAddsMarginalSum(0.0, income, bs);
  }

  /** No bracket of a gap-free table is reached by an income at or below
      its first lower bound. */
  lemma {:induction false} NothingAboveIncome(income: real, bs: seq<Bracket>)
    requires WellFormed(bs) && Contiguous(bs)
    requires |bs| > 0 ==> income <= bs[0].li
    ensures MarginalSum(income, bs) == 0.0
    decreases |bs|
  {
    if bs != [] {
      assert Share(income, bs[0]) == 0.0;
      TailKeepsShape(bs);
      if |bs| > 1 {
        assert bs[0].ls == Finite(bs[1].li);
      }
      NothingAboveIncome(income, bs[1..]);
    }
  }

  /** Brackets whose lower bound is at or above the income contribute
      nothing: the tax equals the tax on the brackets below them. */
  lemma ProgTaxIgnoresBracketsAbove(income: real, bs: seq<Bracket>, k: nat)
    requires WellFormed(bs) && Contiguous(bs)
    requires k < |bs| && income <= bs[k].li
    ensures ProgTax(income, bs) == ProgTax(income, bs[..k])
  {
    assert bs == bs[..k] + bs[k..];
    MarginalSumAppend(income, bs[..k], bs[k..]);
    var upper := bs[k..];
    assert WellFormed(upper) && Contiguous(upper) by {
      forall i, j | 0 <= i < j < |upper| && j == i + 1 ensures upper[i].ls == Finite(upper[j].li) {
        assert upper[i] == bs[k + i] && upper[j] == bs[k + j];
      }
    }
    NothingAboveIncome(income, upper);
    assert WellFormed(bs[..k]);
    ProgTaxIsMarginalSum(income, bs);
    ProgTaxIsMarginalSum(income, bs[..k]);
  }

  lemma {:induction false} MarginalSumMonotone(x: real, y: real, bs: seq<Bracket>)
    requires WellFormed(bs) && x <= y
    ensures 0.0 <= MarginalSum(x, bs) <= MarginalSum(y, bs)
    decreases |bs|
  {
    if bs != [] {
      ShareNonNegative(x, y, bs[0]);
      TailKeepsShape(bs);
      MarginalSumMonotone(x, y, bs[1..]);
    }
  }

  /** progTax over any table of non-empty brackets with non-negative rates
      is never negative and never decreases as the income grows. */
  lemma ProgTaxMonotone(x: real, y: real, bs: seq<Bracket>)
    requires WellFormed(bs)
    requires x <= y
    ensures 0.0 <= ProgTax(x, bs) <= ProgTax(y, bs)
  {
    ProgTaxIsMarginalSum(x, bs);
    ProgTaxIsMarginalSum(y, bs);
    MarginalSumMonotone(x, y, bs);
  }

  /** An income at or below the first lower bound of a gap-free table owes nothing. */
  lemma ProgTaxZeroBelowFirst(x: real, bs: seq<Bracket>)
    requires WellFormed(bs) && Contiguous(bs) && |bs| > 0
    requires x <= bs[0].li
    ensures ProgTax(x, bs) == 0.0
  {
    ProgTaxIsMarginalSum(x, bs);
    NothingAboveIncome(x, bs);
  }

  /** The total length of the parts of the brackets at or below x. */
  function WidthSum(x: real, bs: seq<Bracket>): real
    decreases |bs|
  {
    if bs == [] then 0.0 else Width(x, bs[0].li, bs[0].ls) + WidthSum(x, bs[1..])
  }

  /** Between two incomes, the tax grows by at least the lowest and at most
      the highest rate times the growth of the taxed widths. */
  lemma {:induction false} MarginalSumBetween(x: real, y: real, bs: seq<Bracket>, lo: real, hi: real)
    requires RatesWithin(bs, lo, hi) && x <= y
    ensures Between(lo, hi, WidthSum(y, bs) - WidthSum(x, bs), MarginalSum(y, bs) - MarginalSum(x, bs))
    decreases |bs|
  {
    if bs == [] {
      Transfer(lo, hi, 0.0, WidthSum(y, bs) - WidthSum(x, bs), 0.0, MarginalSum(y, bs) - MarginalSum(x, bs));
    } else {
      var b, rest := bs[0], bs[1..];
      var dw, ds := Width(y, b.li, b.ls) - Width(x, b.li, b.ls), Share(y, b) - Share(x, b);
      var rw, rs := WidthSum(y, rest) - WidthSum(x, rest), MarginalSum(y, rest) - MarginalSum(x, rest);
      ShareStep(x, y, b, lo, hi);
      TailKeepsRates(bs, lo, hi);
      MarginalSumBetween(x, y, rest, lo, hi);
      AddBounds(lo, hi, dw, ds, rw, rs);
      Transfer(lo, hi, dw + rw, WidthSum(y, bs) - WidthSum(x, bs), ds + rs, MarginalSum(y, bs) - MarginalSum(x, bs));
    }
  }

  /** The brackets of a gap-free table tile the range from its first lower
      bound to its last upper bound. */
  lemma {:induction false} WidthSumTiles(x: real, bs: seq<Bracket>)
    requires |bs| > 0 && WellFormed(bs) && Contiguous(bs)
    ensures AtMost(bs[0].li, bs[|bs| - 1].ls)
    ensures WidthSum(x, bs) == Width(x, bs[0].li, bs[|bs| - 1].ls)
    decreases |bs|
  {
    var b, rest := bs[0], bs[1..];
    if |bs| > 1 {
      TailKeepsShape(bs);
      assert b.ls == Finite(rest[0].li);
      assert rest[|rest| - 1] == bs[|bs| - 1];
      WidthSumTiles(x, rest);
      WidthSplit(x, b.li, rest[0].li, bs[|bs| - 1].ls);
    }
  }

  /** On a complete table the taxed widths grow exactly as the income does,
      so the sum of the shares grows by lo to hi times the step. */
  lemma MarginalSumRate(x: real, y: real, bs: seq<Bracket>, lo: real, hi: real)
    requires TaxTable(bs, lo, hi)
    requires 0.0 <= x <= y
    ensures Between(lo, hi, y - x, MarginalSum(y, bs) - MarginalSum(x, bs))
  {
    MarginalSumBetween(x, y, bs, lo, hi);
    WidthSumTiles(x, bs);
    WidthSumTiles(y, bs);
    Transfer(lo, hi, WidthSum(y, bs) - WidthSum(x, bs), y - x,
             MarginalSum(y, bs) - MarginalSum(x, bs), MarginalSum(y, bs) - MarginalSum(x, bs));
  }

  /** For a complete table with rates in [lo, hi], raising a non-negative
      income from x to y raises the tax by at least lo and at most hi times
      the step: the tax is continuous, with no jump at any bracket boundary. */
  lemma ProgTaxMarginalRate(x: real, y: real, bs: seq<Bracket>, lo: real, hi: real)
    requires TaxTable(bs, lo, hi)
    requires 0.0 <= x <= y
    ensures lo * (y - x) <= ProgTax(y, bs) - ProgTax(x, bs) <= hi * (y - x)
  {
    ProgTaxIsMarginalSum(x, bs);
    ProgTaxIsMarginalSum(y, bs);
    MarginalSumRate(x, y, bs, lo, hi);
    Transfer(lo, hi, y - x, y - x,
             MarginalSum(y, bs) - MarginalSum(x, bs), ProgTax(y, bs) - ProgTax(x, bs));
  }

  /** The average rate of a complete table lies between its lowest and its
      highest rate. */
  lemma ProgTaxRateBounds(x: real, bs: seq<Bracket>, lo: real, hi: real)
    requires TaxTable(bs, lo, hi)
    requires 0.0 <= x
    ensures lo * x <= ProgTax(x, bs) <= hi * x
  {
    ProgTaxMarginalRate(0.0, x, bs, lo, hi);
    ProgTaxZeroBelowFirst(0.0, bs);
    Transfer(lo, hi, x - 0.0, x, ProgTax(x, bs) - ProgTax(0.0, bs), ProgTax(x, bs));
  }

  /** The sum of the shares, taken apart into the first bracket and the rest. */
  lemma MarginalSumSplit(x: real, y: real, bs: seq<Bracket>)
    requires |bs| > 0
    ensures MarginalSum(y, bs) - MarginalSum(x, bs)
         == (Share(y, bs[0]) - Share(x, bs[0])) + (MarginalSum(y, bs[1..]) - MarginalSum(x, bs[1..]))
  {
  }

  /** Inside the first bracket only that bracket's share grows. */
  lemma MarginalSumInFirst(x: real, y: real, bs: seq<Bracket>)
    requires WellFormed(bs) && Contiguous(bs) && |bs| > 0
    requires bs[0].li <= x <= y && AtMost(y, bs[0].ls)
    ensures MarginalSum(y, bs) - MarginalSum(x, bs) == bs[0].rate * (y - x)
  {
    TailKeepsShape(bs);
    if |bs| > 1 {
      assert bs[0].ls == Finite(bs[1].li) && bs[1..][0] == bs[1];
    }
    NothingAboveIncome(x, bs[1..]);
    NothingAboveIncome(y, bs[1..]);
    ShareInside(x, y, bs[0]);
    MarginalSumSplit(x, y, bs);
  }

  /** Above the first bracket's top, only the later brackets' shares grow. */
  lemma MarginalSumAboveFirst(x: real, y: real, bs: seq<Bracket>)
    requires WellFormed(bs) && Contiguous(bs) && |bs| > 1
    requires bs[1].li <= x <= y
    ensures MarginalSum(y, bs) - MarginalSum(x, bs) == MarginalSum(y, bs[1..]) - MarginalSum(x, bs[1..])
  {
    assert bs[0].ls == Finite(bs[1].li);
    ShareFlat(x, y, bs[0]);
    MarginalSumSplit(x, y, bs);
  }

  /** Inside bracket k, whose rate is rate, the tax grows at exactly that
      rate. */
  lemma {:induction false} MarginalSumInBracket(x: real, y: real, bs: seq<Bracket>, k: nat, rate: real)
    requires WellFormed(bs) && Contiguous(bs) && k < |bs| && bs[k].rate == rate
    requires bs[k].li <= x <= y && AtMost(y, bs[k].ls)
    ensures MarginalSum(y, bs) - MarginalSum(x, bs) == rate * (y - x)
    decreases k
  {
    if k == 0 {
      MarginalSumInFirst(x, y, bs);
      SameScaled(bs[0].rate, rate, y - x);
    } else {
      TailKeepsShape(bs);
      LowerBoundsAscend(bs, 1, k);
      MarginalSumAboveFirst(x, y, bs);
      assert bs[1..][k - 1] == bs[k];
      MarginalSumInBracket(x, y, bs[1..], k - 1, rate);
    }
  }

  /** progTax inside bracket k: the tax at y exceeds the tax at x by the
      bracket's rate times y - x, so the tax at a bracket boundary plus the
      bracket's rate on the excess is the tax anywhere in that bracket. */
  lemma ProgTaxInBracket(x: real, y: real, bs: seq<Bracket>, k: nat)
    requires WellFormed(bs) && Contiguous(bs) && k < |bs|
    requires bs[k].li <= x <= y && AtMost(y, bs[k].ls)
    ensures ProgTax(y, bs) - ProgTax(x, bs) == bs[k].rate * (y - x)
  {
    ProgTaxIsMarginalSum(x, bs);
    ProgTaxIsMarginalSum(y, bs);
    MarginalSumInBracket(x, y, bs, k, bs[k].rate);
  }
}

/** The result that both country pipelines return: one pay period's gross,
    its itemised deductions, the net and the displayed rates. */
module Payslip {
  import opened Money
  import opened Tables

  /** One labelled deduction line, in the order the engine lists it. */
  datatype LineItem = LineItem(concept: string, amount: real)

  /** A rate as Number.prototype.toFixed(1) shows it: a percentage rounded
      to one decimal, or a non-number (NaN or an infinity) when the amount
      it is taken of is zero. */
  datatype Rate = Percent(value: real) | NotFinite

  /** Everything calcMX and calcUS return; fedRate and caRate exist only
      in the United States result. */
  datatype Breakdown = Breakdown(
    currency: string,
    regime: string,
    base: real,
    deds: seq<LineItem>,
    totalDed: real,
    net: real,
    effectiveRate: Rate,
    fedRate: Option<Rate>,
    caRate: Option<Rate>)

  /** The amount toFixed(1) shows: the nearest tenth, halves rounded away
      from zero (toFixed rounds the magnitude and restores the sign). */
  function ToFixed1(x: real): (r: real)
    ensures x - 0.05 <= r <= x + 0.05
    ensures 0.0 <= x ==> 0.0 <= r
    ensures x <= 0.0 ==> r <= 0.0
    ensures IsWhole(r * 10.0)
  {
    WholeDifference(0.0, Round(-x * 10.0));
    if x < 0.0 then -(Round(-x * 10.0) / 10.0) else Round(x * 10.0) / 10.0
  }

  /** ((part / whole) * 100).toFixed(1): NaN or an infinity when whole is 0. */
  function RatePercent(part: real, whole: real): (r: Rate)
    ensures r.NotFinite? <==> whole == 0.0
    ensures r.Percent? ==> part / whole * 100.0 - 0.05 <= r.value <= part / whole * 100.0 + 0.05
  {
    if whole == 0.0 then NotFinite else Percent(ToFixed1(part / whole * 100.0))
  }

  /** A rate of 0 to bound percent is shown as one from 0 to bound. */
  lemma ToFixed1Within(x: real, bound: real)
    requires 0.0 <= x <= bound && IsWhole(bound * 10.0)
    ensures 0.0 <= ToFixed1(x) <= bound
  {
    RoundMonotone(x * 10.0, bound * 10.0);
    RoundWhole(bound * 10.0);
  }

  /** A part of at most bound percent of a positive whole shows as a rate
      from 0 to bound. */
  lemma RateWithin(part: real, whole: real, bound: real)
    requires 0.0 <= bound && IsWhole(bound * 10.0)
    ensures 0.0 < whole && 0.0 <= part <= bound / 100.0 * whole ==>
      RatePercent(part, whole).Percent? && 0.0 <= RatePercent(part, whole).value <= bound
  {
    if 0.0 < whole && 0.0 <= part <= bound / 100.0 * whole {
      var q := part / whole;
      assert 0.0 <= q;
      assert q * whole == part;
      assert q <= bound / 100.0;
      ToFixed1Within(q * 100.0, bound);
    }
  }

  /** The sum of the amounts of a list of line items. */
  function SumAmounts(items: seq<LineItem>): real
    decreases |items|
  {
    if items == [] then 0.0 else items[0].amount + SumAmounts(items[1..])
  }

  /** The sum of five line items, written out. */
  lemma SumAmountsFive(items: seq<LineItem>)
    requires |items| == 5
    ensures SumAmounts(items)
         == items[0].amount + items[1].amount + items[2].amount + items[3].amount + items[4].amount
  {
    assert items[4..][1..] == [];
    assert SumAmounts(items[4..]) == items[4].amount;
    assert items[3..][1..] == items[4..];
    assert SumAmounts(items[3..]) == items[3].amount + SumAmounts(items[4..]);
    assert items[2..][1..] == items[3..];
    assert SumAmounts(items[2..]) == items[2].amount + SumAmounts(items[3..]);
    assert items[1..][1..] == items[2..];
    assert SumAmounts(items[1..]) == items[1].amount + SumAmounts(items[2..]);
  }
}

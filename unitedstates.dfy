/** The United States pipeline: federal income tax, Social Security and
    Medicare, California income tax and California SDI, computed on the
    annualised salary and paid back per pay period. */
module UnitedStates {
  import opened Money
  import opened Tables
  import opened Progressive
  import opened Payslip

  /** Pay periods in a year: "weekly" 52, "biweekly" 26, any other name 12. */
  function PeriodsPerYear(payroll: string): (n: real)
    ensures n == 52.0 <==> payroll == "weekly"
    ensures n == 26.0 <==> payroll == "biweekly"
    ensures n == 12.0 <==> payroll != "weekly" && payroll != "biweekly"
  {
    if payroll == "weekly" then 52.0 else if payroll == "biweekly" then 26.0 else 12.0
  }

  const FED_STANDARD_DEDUCTION: real := 15000.0
  const CA_STANDARD_DEDUCTION: real := 5363.0
  /** Annual earnings above the wage base pay no Social Security. */
  const SS_WAGE_BASE: real := 176100.0
  const SS_RATE: real := 0.062
  const MEDICARE_RATE: real := 0.0145
  /** Annual earnings above the threshold pay the additional Medicare tax. */
  const MEDICARE_THRESHOLD: real := 200000.0
  const MEDICARE_SURTAX_RATE: real := 0.009
  const SDI_RATE: real := 0.011

  /** Math.max(0, annual - deduction): the income left to tax. */
  function Taxable(annual: real, deduction: real): (r: real)
    ensures 0.0 <= r
    ensures annual <= deduction ==> r == 0.0
    ensures deduction < annual ==> r == annual - deduction
  {
    Max(0.0, annual - deduction)
  }

  /** The two progressive tables calcUS applies: the federal one and the
      California one. */
  datatype UsTables = UsTables(fed: seq<Bracket>, ca: seq<Bracket>)

  /** Complete tables with federal rates from 10% to 37% and California
      rates from 1% to 12.3%. */
  ghost predicate ValidTables(tables: UsTables) {
    TaxTable(tables.fed, 0.10, 0.37) && TaxTable(tables.ca, 0.01, 0.123)
  }

  /** IRS_FED and CA_FTB. */
  const US_TABLES: UsTables := UsTables(IRS_FED, CA_FTB)

  lemma UsTablesValid()
    ensures ValidTables(US_TABLES)
  {
    IrsFedIsTaxTable();
    CaFtbIsTaxTable();
  }

  /** The annual federal income tax on the income above the standard
      deduction: between 10% and 37% of that income, nothing up to it. */
  function FedTax(annual: real, table: seq<Bracket>): (r: real)
    requires TaxTable(table, 0.10, 0.37)
    ensures 0.10 * Taxable(annual, FED_STANDARD_DEDUCTION) <= r
         <= 0.37 * Taxable(annual, FED_STANDARD_DEDUCTION)
    ensures annual <= FED_STANDARD_DEDUCTION ==> r == 0.0
  {
    ProgTaxRateBounds(Taxable(annual, FED_STANDARD_DEDUCTION), table, 0.10, 0.37);
    ProgTax(Taxable(annual, FED_STANDARD_DEDUCTION), table)
  }

  /** The annual California income tax on the income above its standard
      deduction: between 1% and 12.3% of that income, nothing up to it. */
  function CaTax(annual: real, table: seq<Bracket>): (r: real)
    requires TaxTable(table, 0.01, 0.123)
    ensures 0.01 * Taxable(annual, CA_STANDARD_DEDUCTION) <= r
         <= 0.123 * Taxable(annual, CA_STANDARD_DEDUCTION)
    ensures annual <= CA_STANDARD_DEDUCTION ==> r == 0.0
  {
    ProgTaxRateBounds(Taxable(annual, CA_STANDARD_DEDUCTION), table, 0.01, 0.123);
    ProgTax(Taxable(annual, CA_STANDARD_DEDUCTION), table)
  }

  /** Social Security on the annual income, capped at the wage base. */
  function SocialSecurity(annual: real): (ss: real)
    ensures annual <= SS_WAGE_BASE ==> ss == annual * SS_RATE
    ensures SS_WAGE_BASE <= annual ==> ss == SS_WAGE_BASE * SS_RATE
  {
    Min(annual, SS_WAGE_BASE) * SS_RATE
  }

  /** Medicare, with the additional tax on the part above the threshold. */
  function Medicare(annual: real): (med: real)
    ensures annual <= MEDICARE_THRESHOLD ==> med == annual * MEDICARE_RATE
    ensures MEDICARE_THRESHOLD < annual ==>
      med == annual * MEDICARE_RATE + (annual - MEDICARE_THRESHOLD) * MEDICARE_SURTAX_RATE
  {
    annual * MEDICARE_RATE + Max(0.0, annual - MEDICARE_THRESHOLD) * MEDICARE_SURTAX_RATE
  }

  /** California State Disability Insurance on the whole annual income. */
  function Sdi(annual: real): (r: real)
    ensures r == 0.011 * annual
    ensures 0.0 <= annual ==> 0.0 <= r
  {
    annual * SDI_RATE
  }

  /** Math.round(x / periods): an annual amount as paid in one period. */
  function Deannualise(x: real, periods: real): (r: real)
    requires 0.0 < periods
    ensures IsWhole(r)
    ensures x / periods - 0.5 < r <= x / periods + 0.5
    ensures 0.0 <= x ==> 0.0 <= r
  {
    Round(x / periods)
  }

  /** The annual amounts behind the five deduction lines. */
  datatype Annual = Annual(fed: real, ss: real, med: real, ca: real, sdi: real)

  function AnnualAmounts(annual: real, tables: UsTables): (t: Annual)
    requires ValidTables(tables)
    ensures 0.0 <= annual ==> 0.0 <= t.fed <= 0.37 * annual && 0.0 <= t.ca <= 0.123 * annual
  {
    Annual(FedTax(annual, tables.fed), SocialSecurity(annual), Medicare(annual),
           CaTax(annual, tables.ca), Sdi(annual))
  }

  /** The part of calcUS after the annual amounts are known: five lines,
      each rounded on its own, and their sum as the total deduction. */
  function UsSlip(salary: real, annual: real, t: Annual, periods: real): (r: Breakdown)
    requires 0.0 < periods
    ensures r.currency == "USD" && r.regime == "IRS+CA"
    ensures r.base == salary && r.net == salary - r.totalDed
    ensures |r.deds| == 5
    ensures r.deds[0] == LineItem("Federal Income Tax (IRS)", Deannualise(t.fed, periods))
    ensures r.deds[1] == LineItem("Social Security 6.2%", Deannualise(t.ss, periods))
    ensures r.deds[2] == LineItem("Medicare 1.45%", Deannualise(t.med, periods))
    ensures r.deds[3] == LineItem("CA State Tax (FTB)", Deannualise(t.ca, periods))
    ensures r.deds[4] == LineItem("CA SDI 1.1%", Deannualise(t.sdi, periods))
    ensures r.totalDed == SumAmounts(r.deds)
    ensures r.effectiveRate == RatePercent(r.totalDed, salary)
    ensures r.fedRate == Some(RatePercent(t.fed, annual))
    ensures r.caRate == Some(RatePercent(t.ca, annual))
    ensures 0.0 < annual && 0.0 <= t.fed <= 0.37 * annual ==>
      r.fedRate.value.Percent? && 0.0 <= r.fedRate.value.value <= 37.0
    ensures 0.0 < annual && 0.0 <= t.ca <= 0.123 * annual ==>
      r.caRate.value.Percent? && 0.0 <= r.caRate.value.value <= 12.3
  {
    RateWithin(t.fed, annual, 37.0);
    RateWithin(t.ca, annual, 12.3);
    var deds := [
      LineItem("Federal Income Tax (IRS)", Deannualise(t.fed, periods)),
      LineItem("Social Security 6.2%", Deannualise(t.ss, periods)),
      LineItem("Medicare 1.45%", Deannualise(t.med, periods)),
      LineItem("CA State Tax (FTB)", Deannualise(t.ca, periods)),
      LineItem("CA SDI 1.1%", Deannualise(t.sdi, periods))
    ];
    var totalDed := deds[0].amount + deds[1].amount + deds[2].amount + deds[3].amount + deds[4].amount;
    SumAmountsFive(deds);
    Breakdown("USD", "IRS+CA", salary, deds, totalDed, salary - totalDed,
              RatePercent(totalDed, salary),
              Some(RatePercent(t.fed, annual)), Some(RatePercent(t.ca, annual)))
  }

  /** calcUS once the number of pay periods and the tables are known. */
  function UsPay(salary: real, periods: real, tables: UsTables): (r: Breakdown)
    requires 0.0 < periods && ValidTables(tables)
    ensures r.currency == "USD" && r.regime == "IRS+CA"
    ensures r.base == salary && r.net == salary - r.totalDed
    ensures |r.deds| == 5 && r.totalDed == SumAmounts(r.deds)
    ensures r.fedRate.Some? && r.caRate.Some?
    ensures r.effectiveRate.NotFinite? <==> salary == 0.0
    ensures r.fedRate.value.NotFinite? <==> salary == 0.0
    ensures r.caRate.value.NotFinite? <==> salary == 0.0
    ensures 0.0 < salary ==> r.fedRate.value.Percent? && 0.0 <= r.fedRate.value.value <= 37.0
    ensures 0.0 < salary ==> r.caRate.value.Percent? && 0.0 <= r.caRate.value.value <= 12.3
  {
    var annual := salary * periods;
    AnnualIsZero(salary, periods);
    UsSlip(salary, annual, AnnualAmounts(annual, tables), periods)
  }

  /** calcUS(salary, payroll): salary is per pay period. */
  function CalcUS(salary: real, payroll: string): (r: Breakdown)
    ensures r.currency == "USD" && r.regime == "IRS+CA"
    ensures r.base == salary && r.net == salary - r.totalDed
    ensures |r.deds| == 5 && r.totalDed == SumAmounts(r.deds)
    ensures r.fedRate.Some? && r.caRate.Some?
    ensures r.effectiveRate.NotFinite? <==> salary == 0.0
    ensures r.fedRate.value.NotFinite? <==> salary == 0.0
    ensures r.caRate.value.NotFinite? <==> salary == 0.0
    ensures 0.0 < salary ==> r.fedRate.value.Percent? && 0.0 <= r.fedRate.value.value <= 37.0
    ensures 0.0 < salary ==> r.caRate.value.Percent? && 0.0 <= r.caRate.value.value <= 12.3
  {
    UsTablesValid();
    UsPay(salary, PeriodsPerYear(payroll), US_TABLES)
  }

  /** A positive number of periods makes the annual income zero exactly
      when the salary is. */
  lemma AnnualIsZero(salary: real, periods: real)
    requires 0.0 < periods
    ensures salary * periods == 0.0 <==> salary == 0.0
    ensures 0.0 < salary ==> 0.0 < salary * periods
  {
    if salary < 0.0 {
      assert salary * periods < 0.0 * periods;
    } else if 0.0 < salary {
      assert 0.0 * periods < salary * periods;
    }
  }
}

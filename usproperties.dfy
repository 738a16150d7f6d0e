/** What the United States pipeline guarantees: every deduction line grows
    with the salary by at most its top rate, the net grows too up to the
    per-line rounding, Social Security stops at the wage base, and the
    worked cases. Lemmas about one pay period hold for any tables of the
    right shape; the calcUS lemmas apply them to IRS_FED and CA_FTB. */
module UnitedStatesProperties {
  import opened Money
  import opened Tables
  import opened Progressive
  import opened Payslip
  import opened UnitedStates

  // ----- The annual amounts -----

  /** Taking off a deduction never makes two incomes further apart. */
  lemma TaxableGrowth(a1: real, a2: real, deduction: real)
    requires a1 <= a2
    ensures 0.0 <= Taxable(a2, deduction) - Taxable(a1, deduction) <= a2 - a1
  {
  }

  /** A tax from a complete table on the income above a deduction never
      falls as the income rises, and rises by at most the top rate. */
  lemma TaxAboveDeductionGrowth(a1: real, a2: real, deduction: real, bs: seq<Bracket>, lo: real, hi: real)
    requires TaxTable(bs, lo, hi) && a1 <= a2
    ensures var t1, t2 := Taxable(a1, deduction), Taxable(a2, deduction);
      0.0 <= ProgTax(t2, bs) - ProgTax(t1, bs) <= hi * (a2 - a1)
  {
    var t1, t2 := Taxable(a1, deduction), Taxable(a2, deduction);
    TaxableGrowth(a1, a2, deduction);
    ProgTaxMarginalRate(t1, t2, bs, lo, hi);
    assert 0.0 <= lo <= bs[0].rate <= hi;
    var d, dt := t2 - t1, ProgTax(t2, bs) - ProgTax(t1, bs);
    assert lo * d <= dt <= hi * d;
    MulBetween(d, 0.0, lo, hi);
    assert 0.0 <= dt;
    MulBetween(hi, d, a2 - a1, a2 - a1);
    assert d * hi <= (a2 - a1) * hi;
    assert dt <= hi * (a2 - a1);
  }

  /** A higher income never pays less federal tax, and at most 37% of the
      difference more. */
  lemma FedTaxGrowth(a1: real, a2: real, table: seq<Bracket>)
    requires TaxTable(table, 0.10, 0.37) && a1 <= a2
    ensures 0.0 <= FedTax(a2, table) - FedTax(a1, table) <= 0.37 * (a2 - a1)
  {
    TaxAboveDeductionGrowth(a1, a2, FED_STANDARD_DEDUCTION, table, 0.10, 0.37);
  }

  /** A higher income never pays less California tax, and at most 12.3%
      of the difference more. */
  lemma CaTaxGrowth(a1: real, a2: real, table: seq<Bracket>)
    requires TaxTable(table, 0.01, 0.123) && a1 <= a2
    ensures 0.0 <= CaTax(a2, table) - CaTax(a1, table) <= 0.123 * (a2 - a1)
  {
    TaxAboveDeductionGrowth(a1, a2, CA_STANDARD_DEDUCTION, table, 0.01, 0.123);
  }

  /** Social Security grows at 6.2% up to the wage base and not at all above it. */
  lemma SocialSecurityGrowth(a1: real, a2: real)
    requires a1 <= a2
    ensures 0.0 <= SocialSecurity(a2) - SocialSecurity(a1) <= SS_RATE * (a2 - a1)
    ensures SS_WAGE_BASE <= a1 ==> SocialSecurity(a1) == SocialSecurity(a2)
  {
  }

  /** Medicare grows at 1.45%, and at 2.35% above the threshold. */
  lemma MedicareGrowth(a1: real, a2: real)
    requires a1 <= a2
    ensures MEDICARE_RATE * (a2 - a1) <= Medicare(a2) - Medicare(a1)
                 <= (MEDICARE_RATE + MEDICARE_SURTAX_RATE) * (a2 - a1)
  {
  }

  /** An amount that grows by between 0 and rate times d. */
  predicate Grows(x1: real, x2: real, rate: real, d: real) {
    0.0 <= x2 - x1 <= rate * d
  }

  /** Each annual amount of t2 is at least that of t1, and exceeds it by at
      most its top rate times d. */
  predicate AnnualGrows(t1: Annual, t2: Annual, d: real) {
    && Grows(t1.fed, t2.fed, 0.37, d)
    && Grows(t1.ss, t2.ss, 0.062, d)
    && Grows(t1.med, t2.med, 0.0235, d)
    && Grows(t1.ca, t2.ca, 0.123, d)
    && Grows(t1.sdi, t2.sdi, 0.011, d)
  }

  /** Each annual amount grows with the income, by at most its top rate. */
  lemma AnnualAmountsGrow(a1: real, a2: real, d: real, tables: UsTables)
    requires ValidTables(tables) && a1 <= a2 && d == a2 - a1
    ensures AnnualGrows(AnnualAmounts(a1, tables), AnnualAmounts(a2, tables), d)
  {
    FedTaxGrowth(a1, a2, tables.fed);
    SocialSecurityGrowth(a1, a2);
    MedicareGrowth(a1, a2);
    CaTaxGrowth(a1, a2, tables.ca);
  }

  // ----- One pay period -----

  /** The five lines of a pay period, each an annual amount paid back per
      period, and their sum. */
  lemma PayLines(salary: real, p: real, tables: UsTables)
    requires 0.0 < p && ValidTables(tables)
    ensures var r, t := UsPay(salary, p, tables), AnnualAmounts(salary * p, tables);
      && r.deds[0].amount == Deannualise(t.fed, p)
      && r.deds[1].amount == Deannualise(t.ss, p)
      && r.deds[2].amount == Deannualise(t.med, p)
      && r.deds[3].amount == Deannualise(t.ca, p)
      && r.deds[4].amount == Deannualise(t.sdi, p)
      && r.totalDed == r.deds[0].amount + r.deds[1].amount + r.deds[2].amount
                     + r.deds[3].amount + r.deds[4].amount
  {
    SumAmountsFive(UsPay(salary, p, tables).deds);
  }

  /** An annual amount that grows by at most rate times a year of salary
      growth gives a per-period line that grows by less than rate times the
      salary growth plus one whole unit of rounding. */
  lemma LineGrowth(x1: real, x2: real, rate: real, ds: real, p: real)
    requires 0.0 < p && 0.0 <= ds && 0.0 <= rate
    requires Grows(x1, x2, rate, ds * p)
    ensures 0.0 <= Deannualise(x2, p) - Deannualise(x1, p) < rate * ds + 1.0
  {
    assert x2 / p - x1 / p == (x2 - x1) / p;
    assert (x2 - x1) / p <= rate * ds;
    RoundMonotone(x1 / p, x2 / p);
  }

  /** Annual amounts that grow with a year of salary growth give five lines
      that grow by less than their top rates times the salary growth plus
      one. */
  lemma LinesGrow(t1: Annual, t2: Annual, ds: real, p: real)
    requires 0.0 < p && 0.0 <= ds
    requires AnnualGrows(t1, t2, ds * p)
    ensures 0.0 <= Deannualise(t2.fed, p) - Deannualise(t1.fed, p) < 0.37 * ds + 1.0
    ensures 0.0 <= Deannualise(t2.ss, p) - Deannualise(t1.ss, p) < 0.062 * ds + 1.0
    ensures 0.0 <= Deannualise(t2.med, p) - Deannualise(t1.med, p) < 0.0235 * ds + 1.0
    ensures 0.0 <= Deannualise(t2.ca, p) - Deannualise(t1.ca, p) < 0.123 * ds + 1.0
    ensures 0.0 <= Deannualise(t2.sdi, p) - Deannualise(t1.sdi, p) < 0.011 * ds + 1.0
  {
    LineGrowth(t1.fed, t2.fed, 0.37, ds, p);
    LineGrowth(t1.ss, t2.ss, 0.062, ds, p);
    LineGrowth(t1.med, t2.med, 0.0235, ds, p);
    LineGrowth(t1.ca, t2.ca, 0.123, ds, p);
    LineGrowth(t1.sdi, t2.sdi, 0.011, ds, p);
  }

  /** A raise of ds a period is a raise of ds * p over p periods. */
  lemma ScaledDifference(s1: real, s2: real, ds: real, p: real)
    requires 0.0 < p && s1 <= s2 && ds == s2 - s1
    ensures s1 * p <= s2 * p && s2 * p - s1 * p == ds * p
  {
  }

  /** The annual amounts of two salaries paid over the same periods grow
      as AnnualGrows says. */
  lemma PayAnnualGrows(s1: real, s2: real, ds: real, p: real, tables: UsTables)
    requires 0.0 < p && ValidTables(tables) && s1 <= s2 && ds == s2 - s1
    ensures AnnualGrows(AnnualAmounts(s1 * p, tables), AnnualAmounts(s2 * p, tables), ds * p)
  {
    ScaledDifference(s1, s2, ds, p);
    AnnualAmountsGrow(s1 * p, s2 * p, ds * p, tables);
  }

  /** Each line of a higher salary is at least the same line of a lower
      one, and exceeds it by less than its top rate times the raise plus one. */
  lemma PayLinesGrow(s1: real, s2: real, p: real, tables: UsTables)
    requires 0.0 < p && ValidTables(tables) && s1 <= s2
    ensures var r1, r2 := UsPay(s1, p, tables), UsPay(s2, p, tables);
      && 0.0 <= r2.deds[0].amount - r1.deds[0].amount < 0.37 * (s2 - s1) + 1.0
      && 0.0 <= r2.deds[1].amount - r1.deds[1].amount < 0.062 * (s2 - s1) + 1.0
      && 0.0 <= r2.deds[2].amount - r1.deds[2].amount < 0.0235 * (s2 - s1) + 1.0
      && 0.0 <= r2.deds[3].amount - r1.deds[3].amount < 0.123 * (s2 - s1) + 1.0
      && 0.0 <= r2.deds[4].amount - r1.deds[4].amount < 0.011 * (s2 - s1) + 1.0
  {
    var ds := s2 - s1;
    PayAnnualGrows(s1, s2, ds, p, tables);
    LinesGrow(AnnualAmounts(s1 * p, tables), AnnualAmounts(s2 * p, tables), ds, p);
    PayLines(s1, p, tables);
    PayLines(s2, p, tables);
  }

  /** The total deductions of a higher salary are at least those of a
      lower one, and exceed them by less than 58.95% of the raise plus five. */
  lemma PayTotalGrows(s1: real, s2: real, p: real, tables: UsTables)
    requires 0.0 < p && ValidTables(tables) && s1 <= s2
    ensures var r1, r2 := UsPay(s1, p, tables), UsPay(s2, p, tables);
      0.0 <= r2.totalDed - r1.totalDed < 0.5895 * (s2 - s1) + 5.0
  {
    PayLinesGrow(s1, s2, p, tables);
    PayLines(s1, p, tables);
    PayLines(s2, p, tables);
  }

  /** calcUS is the pay of its payroll's periods under IRS_FED and CA_FTB. */
  lemma CalcUSIsPay(salary: real, payroll: string)
    ensures ValidTables(US_TABLES) && 0.0 < PeriodsPerYear(payroll)
    ensures CalcUS(salary, payroll) == UsPay(salary, PeriodsPerYear(payroll), US_TABLES)
  {
    UsTablesValid();
  }

  /** Every deduction line of calcUS for a higher salary is at least the
      line for a lower salary, and grows by less than its top rate (37%,
      6.2%, 2.35%, 12.3%, 1.1%) times the raise plus one. */
  lemma CalcUSLinesGrow(s1: real, s2: real, payroll: string)
    requires s1 <= s2
    ensures var r1, r2 := CalcUS(s1, payroll), CalcUS(s2, payroll);
      && 0.0 <= r2.deds[0].amount - r1.deds[0].amount < 0.37 * (s2 - s1) + 1.0
      && 0.0 <= r2.deds[1].amount - r1.deds[1].amount < 0.062 * (s2 - s1) + 1.0
      && 0.0 <= r2.deds[2].amount - r1.deds[2].amount < 0.0235 * (s2 - s1) + 1.0
      && 0.0 <= r2.deds[3].amount - r1.deds[3].amount < 0.123 * (s2 - s1) + 1.0
      && 0.0 <= r2.deds[4].amount - r1.deds[4].amount < 0.011 * (s2 - s1) + 1.0
  {
    CalcUSIsPay(s1, payroll);
    CalcUSIsPay(s2, payroll);
    PayLinesGrow(s1, s2, PeriodsPerYear(payroll), US_TABLES);
  }

  /** A raise never costs more than 58.95% of itself plus five units of
      rounding: the total deductions never fall, and the net is monotone
      up to the rounding of the five lines. */
  lemma CalcUSNetGrows(s1: real, s2: real, payroll: string)
    requires s1 <= s2
    ensures CalcUS(s1, payroll).totalDed <= CalcUS(s2, payroll).totalDed
    ensures CalcUS(s2, payroll).net - CalcUS(s1, payroll).net > 0.4105 * (s2 - s1) - 5.0
  {
    CalcUSIsPay(s1, payroll);
    CalcUSIsPay(s2, payroll);
    PayTotalGrows(s1, s2, PeriodsPerYear(payroll), US_TABLES);
  }

  /** The Social Security line of a pay period. */
  lemma PaySocialSecurity(salary: real, p: real, tables: UsTables)
    requires 0.0 < p && ValidTables(tables)
    ensures UsPay(salary, p, tables).deds[1]
         == LineItem("Social Security 6.2%", Deannualise(SocialSecurity(salary * p), p))
  {
  }

  /** Above the wage base the Social Security line of a pay period no
      longer depends on the salary: any two salaries there show the same
      line. */
  lemma PaySocialSecurityCapped(s1: real, s2: real, p: real, tables: UsTables)
    requires 0.0 < p && ValidTables(tables)
    requires SS_WAGE_BASE <= s1 * p && SS_WAGE_BASE <= s2 * p
    ensures UsPay(s1, p, tables).deds[1] == UsPay(s2, p, tables).deds[1]
    ensures UsPay(s1, p, tables).deds[1].amount == Deannualise(SS_WAGE_BASE * SS_RATE, p)
  {
    PaySocialSecurity(s1, p, tables);
    PaySocialSecurity(s2, p, tables);
  }

  /** Above the wage base the Social Security line of calcUS no longer
      depends on the salary: any two salaries there show the same line. */
  lemma SocialSecurityLineCapped(s1: real, s2: real, payroll: string)
    requires SS_WAGE_BASE <= s1 * PeriodsPerYear(payroll)
    requires SS_WAGE_BASE <= s2 * PeriodsPerYear(payroll)
    ensures CalcUS(s1, payroll).deds[1] == CalcUS(s2, payroll).deds[1]
    ensures CalcUS(s1, payroll).deds[1].amount
         == Deannualise(SS_WAGE_BASE * SS_RATE, PeriodsPerYear(payroll))
  {
    CalcUSIsPay(s1, payroll);
    CalcUSIsPay(s2, payroll);
    PaySocialSecurityCapped(s1, s2, PeriodsPerYear(payroll), US_TABLES);
  }

  // ----- Worked cases -----

  lemma Monthly()
    ensures PeriodsPerYear("monthly") == 12.0
  {
  }

  /** Per-line rounding can make a raise lower the net: one cent more a
      month rounds the Social Security line up from 0 to 1. */
  lemma NetNotMonotone()
    ensures CalcUS(8.06, "monthly").net == 8.06
    ensures CalcUS(8.07, "monthly").net == 7.07
  {
    CalcUSIsPay(8.06, "monthly");
    CalcUSIsPay(8.07, "monthly");
    Monthly();
    NetBelowRounding(US_TABLES);
    NetAtRounding(US_TABLES);
  }

  /** 8.06 a month: every line rounds down to 0. */
  lemma NetBelowRounding(tables: UsTables)
    requires ValidTables(tables)
    ensures UsPay(8.06, 12.0, tables).net == 8.06
  {
    assert AnnualAmounts(96.72, tables) == Annual(0.0, 5.99664, 1.40244, 0.0, 1.06392);
    PayLines(8.06, 12.0, tables);
    assert Deannualise(5.99664, 12.0) == 0.0;
  }

  /** 8.07 a month: the Social Security line, 0.50034, rounds up to 1. */
  lemma NetAtRounding(tables: UsTables)
    requires ValidTables(tables)
    ensures UsPay(8.07, 12.0, tables).net == 7.07
  {
    assert AnnualAmounts(96.84, tables) == Annual(0.0, 6.00408, 1.40418, 0.0, 1.06524);
    PayLines(8.07, 12.0, tables);
    assert Deannualise(6.00408, 12.0) == 1.0;
  }

  /** The federal line and the federal rate of a pay period come from the
      annual federal tax. */
  lemma PayFederal(salary: real, p: real, tables: UsTables)
    requires 0.0 < p && ValidTables(tables)
    ensures var r, fed := UsPay(salary, p, tables), FedTax(salary * p, tables.fed);
      && r.deds[0].amount == Deannualise(fed, p)
      && r.fedRate == Some(RatePercent(fed, salary * p))
  {
  }

  /** A pay period whose annual income is within the federal standard
      deduction shows no federal tax and a federal rate of 0, although the
      lowest federal rate is 10%. */
  lemma PayFedRateZero(salary: real, p: real, tables: UsTables)
    requires 0.0 < p && ValidTables(tables)
    requires 0.0 < salary * p <= FED_STANDARD_DEDUCTION
    ensures UsPay(salary, p, tables).fedRate == Some(Percent(0.0))
    ensures UsPay(salary, p, tables).deds[0].amount == 0.0
  {
    PayFederal(salary, p, tables);
    assert FedTax(salary * p, tables.fed) == 0.0;
    assert Deannualise(0.0, p) == 0.0;
    assert RatePercent(0.0, salary * p) == Percent(0.0);
  }

  /** A salary whose annual income is within the federal standard
      deduction (up to 1250 a month) shows no federal tax and a federal
      rate of 0. */
  lemma CalcUSFedRateZero(salary: real, payroll: string)
    requires 0.0 < salary * PeriodsPerYear(payroll) <= FED_STANDARD_DEDUCTION
    ensures CalcUS(salary, payroll).fedRate == Some(Percent(0.0))
    ensures CalcUS(salary, payroll).deds[0].amount == 0.0
  {
    CalcUSIsPay(salary, payroll);
    PayFedRateZero(salary, PeriodsPerYear(payroll), US_TABLES);
  }

  /** The federal table on 234999.88, bracket by bracket. */
  lemma IrsFedWorked()
    ensures ProgTax(234999.88, IRS_FED) == 52262.9616
  {
    IrsFedIsTaxTable();
    ProgTaxZeroBelowFirst(0.0, IRS_FED);
    ProgTaxInBracket(0.0, 11925.0, IRS_FED, 0);
    ProgTaxInBracket(11925.0, 48475.0, IRS_FED, 1);
    ProgTaxInBracket(48475.0, 103350.0, IRS_FED, 2);
    ProgTaxInBracket(103350.0, 197300.0, IRS_FED, 3);
    ProgTaxInBracket(197300.0, 234999.88, IRS_FED, 4);
  }

  /** Federal tax on 249999.88 a year: the standard deduction leaves
      234999.88 to tax. */
  lemma FedTaxWorked()
    ensures FedTax(249999.88, IRS_FED) == 52262.9616
  {
    IrsFedIsTaxTable();
    assert Taxable(249999.88, FED_STANDARD_DEDUCTION) == 234999.88;
    IrsFedWorked();
  }

  /** 52262.9616 of 249999.88 is 20.905...%, shown as 20.9. */
  lemma FedRateWorked()
    ensures RatePercent(52262.9616, 249999.88) == Percent(20.9)
  {
    var x := 52262.9616 / 249999.88 * 100.0;
    assert 20.9 < x < 20.91;
    assert Round(x * 10.0) == 209.0;
  }

  /** A biweekly salary of 9615.38 (249999.88 a year) shows a federal rate
      of 20.9, well below its 32% marginal rate. */
  lemma CalcUSBiweeklyWorked()
    ensures CalcUS(9615.38, "biweekly").fedRate == Some(Percent(20.9))
  {
    CalcUSIsPay(9615.38, "biweekly");
    assert PeriodsPerYear("biweekly") == 26.0;
    PayFederal(9615.38, 26.0, US_TABLES);
    FedTaxWorked();
    FedRateWorked();
  }
}

# Payroll tax engine of the time-clock dashboard, in Dafny

The dashboard computes one pay period of an employee's payslip under one
of two regimes. The Mexican regime covers IMSS contributions, ISR from the
SAT monthly table, and the employment subsidy. The United States regime
covers federal income tax, Social Security, Medicare, California income tax
and California SDI. The dashboard then adds the payslips of a payroll cut
into totals, both overall and per location. This project models that
engine and proves what it computes.

Money is an exact `real`:

- `Math.round(x)` is `Floor(x + 0.5)` (`Money.Round`).
- `Math.round(x * 100) / 100` is `Money.RoundCents`.
- The `Infinity` upper bound of a table row is `Tables.Upper.Infinity`.
- A `toFixed(1)` rate keeps its value: the nearest tenth, halves away
  from zero.
- A rate taken of zero, which JavaScript shows as `NaN` or `Infinity`, is
  `Payslip.Rate.NotFinite`.

Modules:

- `Money`, `Tables`, `Payslip`: rounding, table rows with open tops, and
  the breakdown both regimes return.
- `Progressive`: `progTax` as the fold the code performs. It is proved
  equal to a direct sum of per-bracket shares, and from that sum come the
  properties: ignoring brackets above the income, monotonicity, rate
  bounds, and the exact marginal rate inside a bracket.
- `UnitedStates`, `UnitedStatesProperties`: `calcUS` and what it
  guarantees.
- `Mexico`, `MexicoProperties`: `calcMX` and what it guarantees, including
  the one-cent gaps of the SAT tables.
- `Payroll`: the dispatcher, the `handleProcess` selection, and the
  payroll-cut totals and `byLoc` grouping.

Each regime is written in three layers:

- A slip function (`UsSlip`, `MxSlip`) takes the amounts already computed.
- A pay function (`UsPay`, `MxPay`) takes the period count and the tables
  as parameters.
- The entry point (`CalcUS`, `CalcMX`) fixes them to the code's constants.

The general properties are proved on the pay functions, for any valid
tables, and carried to the entry points. The worked cases pin their inputs
through `requires` clauses, so that the table arithmetic is evaluated one
small step at a time.

Behaviour of the code that a reader might not expect, all modelled as written:

- The dispatcher tests only `country === "US"`; every other country string,
  including an unknown one, is paid under the Mexican regime.
- No input is validated. A negative or zero salary, or an unknown period
  name, produces a result. An unknown period name falls back to monthly (1
  period in Mexico, 12 a year in the United States).
- In Mexico the salary is monthly and `base` is `Math.round(salary / div)`.
  In the United States the salary is per period and `base` is the salary
  itself.
- In Mexico `totalDed` is rounded once from the monthly IMSS total plus the
  ISR after subsidy. It is not the sum of the rounded lines: the two can
  differ by up to 2 (`Mexico.MxSlip`). The subsidy line is shown as a credit
  but is not subtracted from `totalDed` again, because it is already netted
  into the ISR.
- The SAT tables leave one-cent gaps between rows. A monthly ISR base
  inside a gap matches no ISR row, so the last row is used. Depending on
  the gap, that row's ISR is negative and clamps to 0 (at 11128.015,
  `MexicoProperties.GapWorked`), or positive and charged in full (3552.40
  at 49233.005, `MexicoProperties.UpperGapIsr`). The subsidy is looked up
  in the subsidy table, whose rows are its own: at 11128.015 its last row
  gives 0, and at 746.045, a gap of the ISR table, its first row gives the
  full 407.02 (`MexicoProperties.LowerGapSubsidy`). A salary in whole
  cents can never land in a gap (`Mexico.CentSalaryFindsRows`).
- The net pay is not monotone in the salary, because every line is rounded
  on its own. In the United States one cent more a month can lower the net
  by 0.99 (`UnitedStatesProperties.NetNotMonotone`). What holds instead is
  in `UnitedStatesProperties.CalcUSNetGrows`.
- The displayed federal rate can be 0 for a positive salary, because the
  standard deduction comes before the brackets.

## Model

| member | source | states |
|---|---|---|
| Money.Round | timeclock-app/src/App.jsx:83 | Math.round gives a whole number within half a unit of x, halves rounded up, and is non-negative on non-negative x |
| Money.RoundCents | timeclock-app/src/App.jsx:78 | Math.round(x*100)/100 gives whole cents within half a cent of x, and is non-negative on non-negative x |
| Money.RoundMonotone | timeclock-app/src/App.jsx:114-118 | rounding never reverses the order of two amounts |
| Money.RoundCentsMonotone | timeclock-app/src/App.jsx:87 | rounding to cents never reverses the order of two amounts |
| Tables.MinUpper | timeclock-app/src/App.jsx:72 | Math.min(x, ls) with ls possibly Infinity: at most x and within ls, x itself when x is within ls, ls when ls is finite and below x |
| Tables.CentStepsCover | timeclock-app/src/App.jsx:45-58 | a table whose rows step by exactly one cent covers every whole-cent amount at or above its first lower bound |
| Payslip.ToFixed1 | timeclock-app/src/App.jsx:101 | toFixed(1) is a whole number of tenths within 0.05 of the value, and keeps its sign |
| Payslip.RatePercent | timeclock-app/src/App.jsx:100-101 | (part/whole*100).toFixed(1) is not a number exactly when whole is 0, and is otherwise within 0.05 of the percentage |
| Payslip.RateWithin | timeclock-app/src/App.jsx:128-130 | a part of at most bound percent of a positive whole shows as a rate from 0 to bound |
| Payslip.SumAmountsFive | timeclock-app/src/App.jsx:119 | the sum of five line items is their five amounts added |
| Progressive.Width | timeclock-app/src/App.jsx:71-72 | the part of a bracket at or below the income is non-negative, is income - li inside the bracket, and is 0 at or below li |
| Progressive.IrsFedIsTaxTable | timeclock-app/src/App.jsx:59-63 | IRS_FED starts at 0, each bracket starts where the previous one stops, the last is unbounded, and its rates lie from 10% to 37% |
| Progressive.CaFtbIsTaxTable | timeclock-app/src/App.jsx:64-68 | CA_FTB has the same shape, with rates from 1% to 12.3% |
| Progressive.ContributionIsShare | timeclock-app/src/App.jsx:71-72 | the reducer adds nothing for a bracket at or above the income, and otherwise, on a non-empty bracket, the rate times the part of the income inside it |
| Progressive.ReduceAddsMarginalSum | timeclock-app/src/App.jsx:70-73 | folding the progTax reducer from a running total adds exactly the sum of the brackets' shares |
| Progressive.ProgTaxIsMarginalSum | timeclock-app/src/App.jsx:70-73 | progTax is the sum over the brackets of the rate times the part of the income inside the bracket |
| Progressive.MarginalSumAppend | timeclock-app/src/App.jsx:70-73 | the sum of shares over two tables placed one after the other is the sum of their sums |
| Progressive.NothingAboveIncome | timeclock-app/src/App.jsx:71 | brackets of a gap-free table that start at or above the income add nothing |
| Progressive.ProgTaxIgnoresBracketsAbove | timeclock-app/src/App.jsx:71 | progTax over a gap-free table equals progTax over the brackets before the first one starting at or above the income |
| Progressive.MarginalSumMonotone | timeclock-app/src/App.jsx:70-73 | the sum of shares is non-negative and non-decreasing in the income |
| Progressive.ProgTaxMonotone | timeclock-app/src/App.jsx:70-73 | progTax on non-empty brackets with non-negative rates is non-negative and non-decreasing in the income |
| Progressive.ProgTaxZeroBelowFirst | timeclock-app/src/App.jsx:71 | an income at or below the first lower bound owes nothing |
| Progressive.WidthSumTiles | timeclock-app/src/App.jsx:59-73 | the brackets of a gap-free table tile the range from the first lower bound to the last upper bound |
| Progressive.MarginalSumBetween | timeclock-app/src/App.jsx:70-73 | between two incomes the sum of shares grows by between the lowest and the highest rate times the growth of the taxed widths |
| Progressive.ProgTaxMarginalRate | timeclock-app/src/App.jsx:70-73 | on a complete table, raising a non-negative income by d raises progTax by between lo*d and hi*d |
| Progressive.ProgTaxRateBounds | timeclock-app/src/App.jsx:70-73 | on a complete table, progTax of a non-negative income x lies between lo*x and hi*x |
| Progressive.MarginalSumInBracket | timeclock-app/src/App.jsx:72 | inside bracket k the sum of shares grows at exactly bracket k's rate |
| Progressive.ProgTaxInBracket | timeclock-app/src/App.jsx:72 | inside bracket k progTax grows at exactly bracket k's rate |
| UnitedStates.PeriodsPerYear | timeclock-app/src/App.jsx:105 | 52 exactly for "weekly", 26 exactly for "biweekly", and 12 exactly for every other name |
| UnitedStates.Taxable | timeclock-app/src/App.jsx:107 | Math.max(0, annual - deduction) is non-negative, 0 up to the deduction, and annual - deduction above it |
| UnitedStates.UsTablesValid | timeclock-app/src/App.jsx:59-68 | IRS_FED and CA_FTB are complete tables with their rate ranges |
| UnitedStates.FedTax | timeclock-app/src/App.jsx:107-108 | the federal tax lies between 10% and 37% of the income above the standard deduction, and is 0 up to the deduction |
| UnitedStates.CaTax | timeclock-app/src/App.jsx:111-112 | the California tax lies between 1% and 12.3% of the income above its standard deduction, and is 0 up to the deduction |
| UnitedStates.SocialSecurity | timeclock-app/src/App.jsx:109 | 6.2% of the annual income up to the wage base, and 6.2% of the wage base from there on |
| UnitedStates.Sdi | timeclock-app/src/App.jsx:113 | California SDI is 1.1% of the annual income, non-negative on a non-negative income |
| UnitedStates.Medicare | timeclock-app/src/App.jsx:110 | 1.45% of the annual income up to 200000; above it, 1.45% plus 0.9% of the excess |
| UnitedStates.Deannualise | timeclock-app/src/App.jsx:114-118 | an annual amount paid per period is a whole number within half a unit of amount/periods, and is non-negative for a non-negative amount |
| UnitedStates.AnnualAmounts | timeclock-app/src/App.jsx:106-113 | on a non-negative income, the federal tax is between 0 and 37% of it and the California tax between 0 and 12.3% |
| UnitedStates.UsSlip | timeclock-app/src/App.jsx:114-130 | five lines, each an annual amount rounded per period; the total is their sum; net = salary - total; the federal and California rates are their taxes over the annual income, within 0..37 and 0..12.3 |
| UnitedStates.UsPay | timeclock-app/src/App.jsx:104-131 | currency USD; base = salary; net = base - total; total = sum of the lines; every rate is NaN exactly when the salary is 0; on a positive salary the federal rate is within 0..37 and the California rate within 0..12.3 |
| UnitedStates.CalcUS | timeclock-app/src/App.jsx:104-131 | the same as UsPay, for calcUS on the code's period counts and tables |
| UnitedStates.AnnualIsZero | timeclock-app/src/App.jsx:106 | the annual income is 0 exactly when the salary is 0, and is positive when the salary is |
| UnitedStatesProperties.TaxableGrowth | timeclock-app/src/App.jsx:107 | the income above a deduction grows by between 0 and the income's growth |
| UnitedStatesProperties.TaxAboveDeductionGrowth | timeclock-app/src/App.jsx:107-112 | progTax on the income above a deduction never falls and grows by at most the top rate times the income's growth |
| UnitedStatesProperties.FedTaxGrowth | timeclock-app/src/App.jsx:107-108 | the federal tax never falls as the income grows, and grows by at most 37% of the growth |
| UnitedStatesProperties.CaTaxGrowth | timeclock-app/src/App.jsx:111-112 | the California tax never falls as the income grows, and grows by at most 12.3% of the growth |
| UnitedStatesProperties.SocialSecurityGrowth | timeclock-app/src/App.jsx:109 | Social Security grows by at most 6.2% of the income's growth, and not at all above the wage base |
| UnitedStatesProperties.MedicareGrowth | timeclock-app/src/App.jsx:110 | Medicare grows by between 1.45% and 2.35% of the income's growth |
| UnitedStatesProperties.AnnualAmountsGrow | timeclock-app/src/App.jsx:106-113 | each of the five annual amounts grows with the income, by at most its top rate |
| UnitedStatesProperties.PayLines | timeclock-app/src/App.jsx:114-126 | the five lines are the five annual amounts, each rounded per period, and the total is their sum |
| UnitedStatesProperties.LineGrowth | timeclock-app/src/App.jsx:114-118 | a line whose annual amount grows by at most rate times a year of the raise grows by between 0 and less than rate times the raise plus 1 |
| UnitedStatesProperties.LinesGrow | timeclock-app/src/App.jsx:114-118 | the five lines grow with their annual amounts, each by less than its top rate times the raise plus 1 |
| UnitedStatesProperties.PayAnnualGrows | timeclock-app/src/App.jsx:106-113 | a per-period raise makes every annual amount grow within its rate bound |
| UnitedStatesProperties.PayLinesGrow | timeclock-app/src/App.jsx:114-126 | every line for a higher salary is at least the line for a lower one, and exceeds it by less than its top rate times the raise plus 1 |
| UnitedStatesProperties.PayTotalGrows | timeclock-app/src/App.jsx:119 | the total deductions never fall with the salary, and grow by less than 58.95% of the raise plus 5, the sum of the five top rates (37% + 6.2% + 2.35% + 12.3% + 1.1%) |
| UnitedStatesProperties.CalcUSIsPay | timeclock-app/src/App.jsx:104-106 | calcUS is the pay of its payroll's period count under IRS_FED and CA_FTB |
| UnitedStatesProperties.CalcUSLinesGrow | timeclock-app/src/App.jsx:104-126 | every calcUS line is non-decreasing in the salary, within its rate bound plus 1 |
| UnitedStatesProperties.CalcUSNetGrows | timeclock-app/src/App.jsx:119-127 | calcUS's total deductions never fall with the salary, and a raise lowers the net by less than 5, since the net grows by more than 41.05% of the raise minus 5 |
| UnitedStatesProperties.PaySocialSecurity | timeclock-app/src/App.jsx:109-122 | the Social Security line is the capped annual Social Security rounded per period |
| UnitedStatesProperties.PaySocialSecurityCapped | timeclock-app/src/App.jsx:109-115 | above the wage base, two salaries show the same Social Security line: the wage base times 6.2% per period |
| UnitedStatesProperties.SocialSecurityLineCapped | timeclock-app/src/App.jsx:109-115 | the same for calcUS |
| UnitedStatesProperties.NetNotMonotone | timeclock-app/src/App.jsx:114-127 | 8.06 a month nets 8.06, but 8.07 a month nets 7.07 |
| UnitedStatesProperties.NetBelowRounding | timeclock-app/src/App.jsx:114-127 | at 8.06 a month every line rounds to 0 |
| UnitedStatesProperties.NetAtRounding | timeclock-app/src/App.jsx:114-127 | at 8.07 a month the Social Security line rounds up to 1 |
| UnitedStatesProperties.PayFederal | timeclock-app/src/App.jsx:108-129 | the federal line and the federal rate both come from the annual federal tax |
| UnitedStatesProperties.PayFedRateZero | timeclock-app/src/App.jsx:107-129 | a positive annual income within the standard deduction shows a federal rate of 0.0 and a federal line of 0 |
| UnitedStatesProperties.CalcUSFedRateZero | timeclock-app/src/App.jsx:107-129 | the same for calcUS |
| UnitedStatesProperties.IrsFedWorked | timeclock-app/src/App.jsx:59-73 | progTax(234999.88, IRS_FED) = 52262.9616 |
| UnitedStatesProperties.FedTaxWorked | timeclock-app/src/App.jsx:107-108 | an annual income of 249999.88 owes 52262.9616 federal tax |
| UnitedStatesProperties.FedRateWorked | timeclock-app/src/App.jsx:129 | 52262.9616 of 249999.88 shows as 20.9 |
| UnitedStatesProperties.CalcUSBiweeklyWorked | timeclock-app/src/App.jsx:104-131 | a biweekly salary of 9615.38 shows a federal rate of 20.9 |
| Mexico.CalcIMSS | timeclock-app/src/App.jsx:75-79 | on the salary capped at 113.14*25*30, sickness and maternity is 0.375% + 0.25% = 0.625%, disability and life 0.625%, old age 1.125%, 2.375% in all; the total is whole cents within half a cent of that sum |
| Mexico.ImssNonNegative | timeclock-app/src/App.jsx:75-79 | on a non-negative salary every contribution and the total are non-negative |
| Mexico.ImssCapped | timeclock-app/src/App.jsx:76 | above the ceiling the contributions are those of the ceiling |
| Mexico.ImssMonotone | timeclock-app/src/App.jsx:75-79 | a higher salary never lowers a contribution or the total |
| Mexico.PeriodsPerMonth | timeclock-app/src/App.jsx:82 | 4.33 exactly for "semanal", 2 exactly for "quincenal", and 1 exactly for every other name |
| Mexico.PerPeriod | timeclock-app/src/App.jsx:93-99 | Math.round(x*f) is a whole number within half a unit of x*f, non-negative for non-negative x |
| Mexico.PerPeriodNear | timeclock-app/src/App.jsx:91-99 | with f = 1/div, the rounded amount is within half a unit of x/div |
| Mexico.FindIsrRow | timeclock-app/src/App.jsx:86 | a row the ISR search finds is a row of the table that contains the base |
| Mexico.FindSubsidyRow | timeclock-app/src/App.jsx:88 | a row the subsidy search finds is a row of the table that contains the base |
| Mexico.FindIsrRowFirst | timeclock-app/src/App.jsx:86 | the ISR search returns the first row that contains the base |
| Mexico.FindIsrRowNone | timeclock-app/src/App.jsx:86 | the ISR search finds nothing exactly when no row contains the base |
| Mexico.FindSubsidyRowFirst | timeclock-app/src/App.jsx:88 | the subsidy search returns the first row that contains the base |
| Mexico.FindSubsidyRowNone | timeclock-app/src/App.jsx:88 | the subsidy search finds nothing exactly when no row contains the base |
| Mexico.MxTablesValid | timeclock-app/src/App.jsx:45-58 | SAT_ISR has a last row to fall back on, and no SAT_SUBSIDIO amount is negative |
| Mexico.IsrRowFor | timeclock-app/src/App.jsx:86 | the ISR row used is always a row of the table |
| Mexico.Subsidy | timeclock-app/src/App.jsx:88-89 | the subsidy is never negative |
| Mexico.IsrBruto | timeclock-app/src/App.jsx:86-87 | the ISR before the subsidy is whole cents within half a cent of the chosen row's fixed fee plus its percentage of the excess of the base over the row's lower bound |
| Mexico.BaseIsr | timeclock-app/src/App.jsx:85 | the ISR base is the salary less 2.375% of the capped salary, to within half a cent |
| Mexico.IsrExact | timeclock-app/src/App.jsx:87 | the unrounded ISR of a row is its fixed fee at the lower bound and at least that fee above it when the percentage is non-negative |
| Mexico.IsrOnRow | timeclock-app/src/App.jsx:87 | the ISR a row levies is whole cents within half a cent of ff + (x - li) * pct/100 |
| Mexico.IsrOnRowAtLowerBound | timeclock-app/src/App.jsx:87 | at a row's lower bound the ISR is the row's fixed fee, when that fee is whole cents |
| Mexico.IsrOnRowMonotone | timeclock-app/src/App.jsx:87 | within one row with a non-negative percentage, a higher base never lowers the ISR |
| Mexico.IsrNeto | timeclock-app/src/App.jsx:90 | the ISR after the subsidy is non-negative, at least ISR minus subsidy, and equal to it whenever positive |
| Mexico.MxSlip | timeclock-app/src/App.jsx:91-101 | five labelled lines; the ISR line and the three IMSS lines are each whole and within half a unit of their monthly amount divided by div; the subsidy line is a whole credit within half a unit of subsidio/div; the ISR line is non-negative and the subsidy line non-positive; the total is a whole number within half a unit of (IMSS total + ISR)/div and within 2 of the four deduction lines; net = base - total; the rate is (total/base*100).toFixed(1), NaN exactly when base is 0 |
| Mexico.MxPay | timeclock-app/src/App.jsx:81-102 | base = Math.round(salary/div); ISR line >= 0; subsidy line <= 0; total whole, non-negative for a non-negative salary, and within 2 of the lines; net = base - total; the rate is (total/base*100).toFixed(1); the line amounts are in MexicoProperties.MxPayLines |
| Mexico.CalcMX | timeclock-app/src/App.jsx:81-102 | currency MXN; five lines with the ISR line >= 0 and the subsidy line <= 0; net = base - total; total >= 0 on a non-negative salary; the rate is (total/base*100).toFixed(1), NaN exactly when base is 0; the line amounts are in MexicoProperties.CalcMXLines |
| Mexico.IsrRowForFirst | timeclock-app/src/App.jsx:86 | the ISR row is the first row containing the base |
| Mexico.IsrRowForFallback | timeclock-app/src/App.jsx:86 | a base no row contains is taxed on the last row |
| Mexico.SubsidyFirst | timeclock-app/src/App.jsx:88-89 | the subsidy is that of the first subsidy row containing the base |
| Mexico.SubsidyNone | timeclock-app/src/App.jsx:89 | a base no subsidy row contains gets 0 |
| Mexico.SubsidyZeroAbove | timeclock-app/src/App.jsx:53-58 | from 7382.34 a month upwards the subsidy is 0 |
| Mexico.SubsidyBounded | timeclock-app/src/App.jsx:88-89 | a bound on every table amount bounds the subsidy |
| Mexico.SubsidyAtMost | timeclock-app/src/App.jsx:88-89 | the subsidy never exceeds 407.02 a month |
| Mexico.IsrTableSteps | timeclock-app/src/App.jsx:45-52 | each SAT_ISR row starts one cent above the previous row's top; lower bounds are whole cents; the last row is unbounded |
| Mexico.SubsidyTableSteps | timeclock-app/src/App.jsx:53-58 | the same for SAT_SUBSIDIO |
| Mexico.CentSalaryBase | timeclock-app/src/App.jsx:85 | on a non-negative whole-cent salary the ISR base is whole cents and non-negative |
| Mexico.CentSalaryFindsRows | timeclock-app/src/App.jsx:85-89 | a non-negative whole-cent salary never lands in a gap: both searches find a row |
| Mexico.LinesNearTotal | timeclock-app/src/App.jsx:93-99 | the once-rounded total is within 2 of the four rounded deduction lines |
| Mexico.RoundingsApart | timeclock-app/src/App.jsx:93-99 | one rounding of a sum and four roundings of its parts differ by at most 2 |
| MexicoProperties.CalcMXIsPay | timeclock-app/src/App.jsx:81-82 | calcMX is MxPay with the payroll's period count on SAT_ISR and SAT_SUBSIDIO |
| MexicoProperties.MxPayTotal | timeclock-app/src/App.jsx:84-99 | the total is within half a unit of (IMSS total + ISR after subsidy)/div; the subsidy line is within half a unit of -subsidy/div |
| MexicoProperties.CalcMXTotal | timeclock-app/src/App.jsx:83-100 | net = Math.round(salary/div) - total; the total is a whole number within half a unit of (IMSS total + ISR after subsidy)/div |
| MexicoProperties.CalcMXSubsidyLine | timeclock-app/src/App.jsx:88-97 | the subsidy line is within half a unit of -subsidy/div, and is 0 from an ISR base of 7382.34 upwards |
| MexicoProperties.MxPayIsSlip | timeclock-app/src/App.jsx:83-99 | MxPay is MxSlip on the rounded base, calcIMSS, the ISR after subsidy and the subsidy of the base salary - IMSS total |
| MexicoProperties.CalcMXFortnightly | timeclock-app/src/App.jsx:82 | a "quincenal" payroll divides by 2 |
| MexicoProperties.CalcMXMonthly | timeclock-app/src/App.jsx:82 | any payroll other than "semanal" and "quincenal" divides by 1 |
| MexicoProperties.QuincenalWorked | timeclock-app/src/App.jsx:81-102 | 25000 a month paid fortnightly: base 12500, lines 1773, 78, 78, 141, 0, total 2069, net 10431, rate 16.6 |
| MexicoProperties.QuincenalMonthly | timeclock-app/src/App.jsx:76-90 | for 25000: IMSS 156.25, 156.25, 281.25 (total 593.75), ISR after subsidy 3545.18, no subsidy |
| MexicoProperties.QuincenalIsr | timeclock-app/src/App.jsx:86-90 | an ISR base of 24406.25 falls in the sixth row and pays 3545.18, with no subsidy |
| MexicoProperties.SubsidyWorked | timeclock-app/src/App.jsx:81-102 | 5000 a month: no ISR, the subsidy line is -325, total 119 = the IMSS total alone, net 4881 |
| MexicoProperties.SubsidyMonthly | timeclock-app/src/App.jsx:76-90 | for 5000: IMSS total 118.75, ISR base 4881.25, ISR after subsidy 0, subsidy 324.87 |
| MexicoProperties.SubsidyIsr | timeclock-app/src/App.jsx:86-90 | a base of 4881.25 is in the second ISR row and the seventh subsidy row; the subsidy exceeds the ISR, which clamps to 0 |
| MexicoProperties.UpperGapIsr | timeclock-app/src/App.jsx:85-90 | 49233.005 matches no ISR row, so the last row is used; it gives 3552.40, and with no subsidy the ISR after subsidy is 3552.40 |
| MexicoProperties.LowerGapSubsidy | timeclock-app/src/App.jsx:85-90 | 746.045 matches no ISR row, so the last row is used, but the first subsidy row contains it: the subsidy is 407.02 and the ISR after subsidy is 0 |
| MexicoProperties.InNoIsrRow | timeclock-app/src/App.jsx:86 | the bases 746.045 and 49233.005 lie in none of the SAT_ISR rows |
| MexicoProperties.GapLastRowIsr | timeclock-app/src/App.jsx:87 | the last ISR row levies 3552.40 on 49233.005 and -13418.03 on 746.045 |
| MexicoProperties.GapWorked | timeclock-app/src/App.jsx:81-102 | 11398.735 a month: total 271 = the IMSS total alone, net 11128, because the ISR base lands in a gap |
| MexicoProperties.GapMonthly | timeclock-app/src/App.jsx:85-90 | for 11398.735: the ISR base 11128.015 is in no ISR row, the last row is used, the ISR clamps to 0 and there is no subsidy |
| MexicoProperties.GapThirdRow | timeclock-app/src/App.jsx:87-99 | had the third row been used, the total would be 1164 |
| MexicoProperties.MxPayLines | timeclock-app/src/App.jsx:91-97 | each line is whole and within half a unit of its monthly amount (ISR after subsidy, the three IMSS contributions) divided by div; the subsidy credit is whole |
| MexicoProperties.CalcMXLines | timeclock-app/src/App.jsx:82-97 | the same for calcMX, with div the payroll's periods per month and the SAT tables |
| MexicoProperties.IsrOnRowWorked | timeclock-app/src/App.jsx:46-51 | the ISR of the sixth, second, last and third rows on the worked bases: 3545.18, 278.97, -9784.34, 893.63 |
| Payroll.CalcPayroll | timeclock-app/src/App.jsx:133 | the result is in USD exactly when the country is "US", and in MXN otherwise; net = base - total; a US base is the salary |
| Payroll.Filter | timeclock-app/src/App.jsx:1547-1551 | filter keeps exactly the elements that satisfy the test, never lengthens the list, and every element it keeps satisfies the test |
| Payroll.FilterCount | timeclock-app/src/App.jsx:1547-1551 | filter keeps each passing element as many times as the list holds it, and drops the rest |
| Payroll.FilterConcat | timeclock-app/src/App.jsx:1547-1551 | filtering a concatenation is the concatenation of the filtered parts: order is kept |
| Payroll.ActiveEmployees | timeclock-app/src/App.jsx:1547 | exactly the employees whose status is "active" |
| Payroll.MatchesForm | timeclock-app/src/App.jsx:1552-1553 | a match has the form's country (or the form says "all") and the form's pay type (or "all"); a form of "all" and "all" matches everyone |
| Payroll.ProcessEmployees | timeclock-app/src/App.jsx:1550-1557 | every processed employee is active and matches the form's country and pay type, or "all" |
| Payroll.ProcessSelects | timeclock-app/src/App.jsx:1547-1557 | an employee is processed exactly when they are active and match both conditions, as many times as they are listed |
| Payroll.CutCurrency | timeclock-app/src/App.jsx:1550-1553 | a cut for "US" holds only USD results, a cut for any other single country only MXN results |
| Payroll.Results | timeclock-app/src/App.jsx:1213 | one result per processed employee, in order, each with that employee's calcPayroll |
| Payroll.ResultsBalanced | timeclock-app/src/App.jsx:1213 | every result's net is its gross less its deductions |
| Payroll.Sum | timeclock-app/src/App.jsx:1214-1216 | a column total over non-negative amounts is non-negative, and a single result's total is its own amount |
| Payroll.SumBalanced | timeclock-app/src/App.jsx:1214-1216 | over balanced results the net total is the gross total less the deductions total |
| Payroll.TotalsOf | timeclock-app/src/App.jsx:1214-1221 | the gross and deductions totals are the column sums, and net = gross - deductions |
| Payroll.FilterBalanced | timeclock-app/src/App.jsx:1219 | a location's results are balanced when all results are |
| Payroll.DateOrDash | timeclock-app/src/App.jsx:1227 | a missing date shows as the dash "—"; a given date shows as itself |
| Payroll.MakeCut | timeclock-app/src/App.jsx:1225-1233 | the saved cut counts the processed employees, its totals are the column sums with net = gross - deductions, and it is pending and created by "admin" |
| Payroll.AtLocation | timeclock-app/src/App.jsx:1219 | exactly the results whose employee is at the location |
| Payroll.ByLoc | timeclock-app/src/App.jsx:1218-1223 | the entries follow the location list (stated by Payroll.ByLocOrder); every entry is at a listed location, is non-empty, holds exactly that location's results, and has the column sums with net = gross - deductions; every listed location that has results gets an entry |
| Payroll.ByLocOrder | timeclock-app/src/App.jsx:1218-1223 | the entries' locations are exactly the listed locations that have results, in the list's order and once per listing, so a location listed twice gets two entries |
| Payroll.ByLocOncePerLocation | timeclock-app/src/App.jsx:1218-1223 | a location named at most once in the list has at most one entry |
| Payroll.ByLocMembers | timeclock-app/src/App.jsx:1218-1223 | a processed employee at a listed location is in that location's entry, and every result in an entry is at the entry's location |

## Left out

- The React views, the modals, the component state and the styling are not modelled.
- `timeclock-app/src/hooks/useDB.js` is not part of this model. It is the
  Supabase reads and writes and the field-name aliasing. The same holds for
  `timeclock-app/src/lib/supabase.js`, the client set up from the
  environment.
- The saved cut's creation date (`new Date()`) is left out. It comes from
  the clock.
- The cut's `loc` entry holds only the location's id: the other location
  fields are only displayed.
- Employee fields the engine does not read (name, department, role, avatar,
  hire date) are left out.
- `toLocaleString` display strings are left out.
- `toFixed(1)` is modelled as the number it shows, not as a string.
- IEEE-754 doubles are not modelled. Money is exact, so representation
  error and `NaN`/`Infinity` propagation on non-numeric input do not arise.
- The model assumes numeric inputs.
- The `b.r || b.rate || 0` fallback in `progTax` is left out. Every
  bracket of both tables has a rate, so the modelled bracket always carries
  one.
- The `db?.employees || []` and `db.locations || []` defaults are left out:
  the model takes the lists themselves.
- Mexico.CalcMX: its own contract does not state `base =
  Math.round(salary / div)` or the line amounts. Those facts are stated on
  `Mexico.MxPay` and `Mexico.MxSlip` and carried to `calcMX` by
  `MexicoProperties.CalcMXIsPay`, `MexicoProperties.CalcMXTotal` and
  `MexicoProperties.CalcMXLines`.
- Payroll.ByLoc: it does not state that the per-location totals add up to
  the cut's totals. The code does not promise this either: an employee at
  an unlisted location is in no entry.

/** The Mexican pipeline: IMSS employee contributions, the ISR withholding
    of article 96 of the Ley del ISR with its fixed-fee table, and the
    employment subsidy, on a monthly salary paid weekly, fortnightly or
    monthly. */
module Mexico {
  import opened Money
  import opened Tables
  import opened Payslip

  /** One row of the monthly ISR table: on income in [li, ls] the tax is
      the fixed fee ff plus pct percent of the excess over li. */
  datatype IsrRow = IsrRow(li: real, ls: Upper, ff: real, pct: real)

  /** One row of the monthly employment-subsidy table. */
  datatype SubsidyRow = SubsidyRow(li: real, ls: Upper, s: real)

  const SAT_ISR: seq<IsrRow> := [
    IsrRow(0.0, Finite(746.04), 0.0, 1.92), IsrRow(746.05, Finite(6332.05), 14.32, 6.40),
    IsrRow(6332.06, Finite(11128.01), 371.83, 10.88), IsrRow(11128.02, Finite(12935.82), 893.63, 16.00),
    IsrRow(12935.83, Finite(15487.71), 1182.88, 17.92), IsrRow(15487.72, Finite(31236.49), 1640.18, 21.36),
    IsrRow(31236.50, Finite(49233.00), 5004.12, 23.52), IsrRow(49233.01, Finite(93993.90), 9236.89, 30.00),
    IsrRow(93993.91, Finite(125325.20), 22665.17, 32.00), IsrRow(125325.21, Finite(375975.61), 32691.18, 34.00),
    IsrRow(375975.62, Infinity, 117912.32, 35.00)
  ]

  const SAT_SUBSIDIO: seq<SubsidyRow> := [
    SubsidyRow(0.0, Finite(1768.96), 407.02), SubsidyRow(1768.97, Finite(2653.38), 406.83),
    SubsidyRow(2653.39, Finite(3472.84), 406.62), SubsidyRow(3472.85, Finite(3537.87), 392.77),
    SubsidyRow(3537.88, Finite(4446.15), 382.46), SubsidyRow(4446.16, Finite(4717.18), 354.23),
    SubsidyRow(4717.19, Finite(5335.42), 324.87), SubsidyRow(5335.43, Finite(6224.67), 294.63),
    SubsidyRow(6224.68, Finite(7113.90), 253.54), SubsidyRow(7113.91, Finite(7382.33), 217.61),
    SubsidyRow(7382.34, Infinity, 0.0)
  ]

  /** The contribution base is capped at 25 times 113.14 a day for 30 days. */
  const IMSS_CEILING: real := 113.14 * 25.0 * 30.0

  /** The four employee IMSS contribution rates, summed. */
  const IMSS_RATE: real := 0.00375 + 0.0025 + 0.00625 + 0.01125

  /** The employee's IMSS contributions: sickness and maternity, disability
      and life, old age, and their total rounded to cents. */
  datatype Imss = Imss(enf: real, inv: real, ces: real, total: real)

  /** calcIMSS(sal): the three contributions on the capped base, and their
      total rounded to the nearest cent. */
  function CalcIMSS(sal: real): (r: Imss)
    ensures r.enf == 0.00625 * Min(sal, IMSS_CEILING)
    ensures r.inv == 0.00625 * Min(sal, IMSS_CEILING)
    ensures r.ces == 0.01125 * Min(sal, IMSS_CEILING)
    ensures r.enf + r.inv + r.ces == IMSS_RATE * Min(sal, IMSS_CEILING)
    ensures IsCents(r.total)
    ensures r.enf + r.inv + r.ces - 0.005 < r.total <= r.enf + r.inv + r.ces + 0.005
  {
    var sbc := Min(sal, IMSS_CEILING);
    Imss(sbc * 0.00375 + sbc * 0.0025, sbc * 0.00625, sbc * 0.01125,
         RoundCents(sbc * 0.00375 + sbc * 0.0025 + sbc * 0.00625 + sbc * 0.01125))
  }

  /** On a non-negative salary every contribution is non-negative. */
  lemma ImssNonNegative(sal: real)
    ensures var r := CalcIMSS(sal);
      0.0 <= sal ==> 0.0 <= r.enf && 0.0 <= r.inv && 0.0 <= r.ces && 0.0 <= r.total
  {
  }

  /** Above the ceiling the contributions no longer grow. */
  lemma ImssCapped(sal: real)
    requires IMSS_CEILING <= sal
    ensures CalcIMSS(sal) == CalcIMSS(IMSS_CEILING)
  {
  }

  /** A higher salary never lowers a contribution. */
  lemma ImssMonotone(s1: real, s2: real)
    requires s1 <= s2
    ensures var a, b := CalcIMSS(s1), CalcIMSS(s2);
      a.enf <= b.enf && a.inv <= b.inv && a.ces <= b.ces && a.total <= b.total
  {
    var x1, x2 := Min(s1, IMSS_CEILING), Min(s2, IMSS_CEILING);
    var t1 := x1 * 0.00375 + x1 * 0.0025 + x1 * 0.00625 + x1 * 0.01125;
    var t2 := x2 * 0.00375 + x2 * 0.0025 + x2 * 0.00625 + x2 * 0.01125;
    RoundMonotone(t1 * 100.0, t2 * 100.0);
  }

  /** Pay periods per month, from the Spanish period name; any other name
      is paid monthly. */
  function PeriodsPerMonth(payroll: string): (div: real)
    ensures div == 4.33 <==> payroll == "semanal"
    ensures div == 2.0 <==> payroll == "quincenal"
    ensures div == 1.0 <==> payroll != "semanal" && payroll != "quincenal"
  {
    if payroll == "semanal" then 4.33 else if payroll == "quincenal" then 2.0 else 1.0
  }

  /** Math.round(x * f), with f = 1 / div: a monthly amount as paid in one
      of div periods, rounded to a whole unit. */
  function PerPeriod(x: real, f: real): (r: real)
    requires 0.0 < f
    ensures IsWhole(r)
    ensures x * f - 0.5 < r <= x * f + 0.5
    ensures 0.0 <= x ==> 0.0 <= r
  {
    MulNonNegative(x, f);
    Round(x * f)
  }

  /** A monthly amount paid in one of div periods is within half a unit
      of the amount divided by div. */
  lemma PerPeriodNear(x: real, div: real)
    requires 1.0 <= div
    ensures IsWhole(PerPeriod(x, 1.0 / div))
    ensures x / div - 0.5 < PerPeriod(x, 1.0 / div) <= x / div + 0.5
  {
    assert x * (1.0 / div) == x / div;
  }

  /** baseISR >= row.li && baseISR <= row.ls, where ls may be Infinity. */
  predicate InIsrRow(x: real, row: IsrRow) {
    Within(x, row.li, row.ls)
  }

  predicate InSubsidyRow(x: real, row: SubsidyRow) {
    Within(x, row.li, row.ls)
  }

  /** SAT_ISR.find(...): the first row that contains x, if any. */
  function FindIsrRow(x: real, rows: seq<IsrRow>): (r: Option<IsrRow>)
    ensures r.Some? ==> r.value in rows && InIsrRow(x, r.value)
    decreases |rows|
  {
    if rows == [] then None
    else if InIsrRow(x, rows[0]) then Some(rows[0])
    else FindIsrRow(x, rows[1..])
  }

  /** SAT_SUBSIDIO.find(...): the first row that contains x, if any. */
  function FindSubsidyRow(x: real, rows: seq<SubsidyRow>): (r: Option<SubsidyRow>)
    ensures r.Some? ==> r.value in rows && InSubsidyRow(x, r.value)
    decreases |rows|
  {
    if rows == [] then None
    else if InSubsidyRow(x, rows[0]) then Some(rows[0])
    else FindSubsidyRow(x, rows[1..])
  }

  /** The search returns the first row that contains x. */
  lemma {:induction false} FindIsrRowFirst(x: real, rows: seq<IsrRow>, j: nat)
    requires j < |rows| && InIsrRow(x, rows[j])
    requires forall k :: 0 <= k < j ==> !InIsrRow(x, rows[k])
    ensures FindIsrRow(x, rows) == Some(rows[j])
    decreases j
  {
    if j > 0 {
      assert !InIsrRow(x, rows[0]);
      assert rows[1..][j - 1] == rows[j];
      FindIsrRowFirst(x, rows[1..], j - 1);
    }
  }

  /** The search finds nothing only when no row contains x. */
  lemma {:induction false} FindIsrRowNone(x: real, rows: seq<IsrRow>)
    ensures FindIsrRow(x, rows).None? <==> forall k :: 0 <= k < |rows| ==> !InIsrRow(x, rows[k])
    decreases |rows|
  {
    if rows != [] {
      FindIsrRowNone(x, rows[1..]);
      assert forall k :: 1 <= k < |rows| ==> rows[k] == rows[1..][k - 1];
    }
  }

  lemma {:induction false} FindSubsidyRowFirst(x: real, rows: seq<SubsidyRow>, j: nat)
    requires j < |rows| && InSubsidyRow(x, rows[j])
    requires forall k :: 0 <= k < j ==> !InSubsidyRow(x, rows[k])
    ensures FindSubsidyRow(x, rows) == Some(rows[j])
    decreases j
  {
    if j > 0 {
      assert !InSubsidyRow(x, rows[0]);
      assert rows[1..][j - 1] == rows[j];
      FindSubsidyRowFirst(x, rows[1..], j - 1);
    }
  }

  lemma {:induction false} FindSubsidyRowNone(x: real, rows: seq<SubsidyRow>)
    ensures FindSubsidyRow(x, rows).None? <==> forall k :: 0 <= k < |rows| ==> !InSubsidyRow(x, rows[k])
    decreases |rows|
  {
    if rows != [] {
      FindSubsidyRowNone(x, rows[1..]);
      assert forall k :: 1 <= k < |rows| ==> rows[k] == rows[1..][k - 1];
    }
  }

  /** The two tables calcMX reads. */
  datatype MxTables = MxTables(isr: seq<IsrRow>, subsidy: seq<SubsidyRow>)

  /** An ISR table with a last row to fall back on, and no negative
      subsidy. */
  predicate ValidMxTables(tables: MxTables) {
    && |tables.isr| > 0
    && forall i :: 0 <= i < |tables.subsidy| ==> 0.0 <= tables.subsidy[i].s
  }

  /** SAT_ISR and SAT_SUBSIDIO. */
  const MX_TABLES: MxTables := MxTables(SAT_ISR, SAT_SUBSIDIO)

  lemma MxTablesValid()
    ensures ValidMxTables(MX_TABLES)
  {
  }

  /** The ISR row for a monthly base: the first row that contains it, or
      the last row when none does. */
  function IsrRowFor(x: real, rows: seq<IsrRow>): (row: IsrRow)
    requires |rows| > 0
    ensures row in rows
  {
    match FindIsrRow(x, rows)
    case Some(row) => row
    case None => rows[|rows| - 1]
  }

  /** The monthly employment subsidy for a base: that of the first subsidy
      row containing it, or 0 when no row does. */
  function Subsidy(x: real, rows: seq<SubsidyRow>): (s: real)
    requires forall i :: 0 <= i < |rows| ==> 0.0 <= rows[i].s
    ensures 0.0 <= s
  {
    match FindSubsidyRow(x, rows)
    case Some(row) => row.s
    case None => 0.0
  }

  /** The monthly ISR before the subsidy, rounded to cents: the fixed fee
      plus the row's percentage of the excess over its lower bound. */
  function IsrBruto(x: real, rows: seq<IsrRow>): (r: real)
    requires |rows| > 0
    ensures IsCents(r)
    ensures var row := IsrRowFor(x, rows);
      row.ff + (x - row.li) * (row.pct / 100.0) - 0.005 < r <= row.ff + (x - row.li) * (row.pct / 100.0) + 0.005
  {
    IsrOnRow(x, IsrRowFor(x, rows))
  }

  /** The row's fixed fee plus its percentage of the excess of x over the
      row's lower bound, before rounding. */
  function IsrExact(x: real, row: IsrRow): (r: real)
    ensures x == row.li ==> r == row.ff
    ensures row.li <= x && 0.0 <= row.pct ==> row.ff <= r
  {
    MulNonNegative(x - row.li, row.pct / 100.0);
    row.ff + (x - row.li) * (row.pct / 100.0)
  }

  /** The ISR a row levies on x, to the nearest cent. */
  function IsrOnRow(x: real, row: IsrRow): (r: real)
    ensures IsCents(r)
    ensures row.ff + (x - row.li) * (row.pct / 100.0) - 0.005 < r <= row.ff + (x - row.li) * (row.pct / 100.0) + 0.005
  {
    RoundCents(IsrExact(x, row))
  }

  /** At a row's lower bound the ISR is the row's fixed fee, when that fee
      is in whole cents. */
  lemma IsrOnRowAtLowerBound(row: IsrRow)
    requires IsCents(row.ff)
    ensures IsrOnRow(row.li, row) == row.ff
  {
    assert IsrExact(row.li, row) == row.ff;
    RoundWhole(row.ff * 100.0);
    assert RoundCents(row.ff) == row.ff;
  }

  /** Within a row with a non-negative percentage, a higher base never
      lowers the ISR. */
  lemma IsrOnRowMonotone(x1: real, x2: real, row: IsrRow)
    requires x1 <= x2 && 0.0 <= row.pct
    ensures IsrOnRow(x1, row) <= IsrOnRow(x2, row)
  {
    var rate := row.pct / 100.0;
    MulNonNegative(x2 - x1, rate);
    assert IsrExact(x2, row) - IsrExact(x1, row) == (x2 - x1) * rate;
    RoundCentsMonotone(IsrExact(x1, row), IsrExact(x2, row));
  }

  /** The monthly ISR after the subsidy, clamped at zero. */
  function IsrNeto(x: real, tables: MxTables): (r: real)
    requires ValidMxTables(tables)
    ensures 0.0 <= r
    ensures IsrBruto(x, tables.isr) - Subsidy(x, tables.subsidy) <= r
    ensures 0.0 < r ==> r == IsrBruto(x, tables.isr) - Subsidy(x, tables.subsidy)
  {
    Max(0.0, IsrBruto(x, tables.isr) - Subsidy(x, tables.subsidy))
  }

  /** The monthly base on which ISR is withheld: salary less the IMSS total. */
  function BaseIsr(salary: real): (r: real)
    ensures salary - IMSS_RATE * Min(salary, IMSS_CEILING) - 0.005 <= r
    ensures r < salary - IMSS_RATE * Min(salary, IMSS_CEILING) + 0.005
  {
    salary - CalcIMSS(salary).total
  }

  /** The per-period part of calcMX, once the IMSS contributions, the ISR
      after subsidy and the subsidy are known as monthly amounts: every line
      and the total are rounded to whole units of one of div periods. */
  function MxSlip(base: real, imss: Imss, isrNeto: real, subsidio: real, div: real): (r: Breakdown)
    requires 1.0 <= div
    requires imss.enf + imss.inv + imss.ces - 0.005 < imss.total <= imss.enf + imss.inv + imss.ces + 0.005
    ensures r.currency == "MXN" && r.regime == "SAT MX"
    ensures r.base == base && r.net == r.base - r.totalDed
    ensures r.fedRate.None? && r.caRate.None?
    ensures |r.deds| == 5
    ensures r.deds[0].concept == "ISR Art. 96 LISR"
    ensures r.deds[1].concept == "IMSS Enf. y Maternidad"
    ensures r.deds[2].concept == "IMSS Invalidez y Vida"
    ensures r.deds[3].concept == "IMSS Cesantía y Vejez"
    ensures r.deds[4].concept == "Subsidio al Empleo"
    ensures 0.0 <= isrNeto ==> 0.0 <= r.deds[0].amount
    ensures 0.0 <= subsidio ==> r.deds[4].amount <= 0.0
    ensures 0.0 <= imss.total + isrNeto ==> 0.0 <= r.totalDed
    ensures r.effectiveRate.NotFinite? <==> base == 0.0
    ensures r.effectiveRate == RatePercent(r.totalDed, base)
    ensures -2.0 <= r.totalDed - (r.deds[0].amount + r.deds[1].amount + r.deds[2].amount + r.deds[3].amount) <= 2.0
    ensures IsWhole(r.totalDed)
    ensures (imss.total + isrNeto) / div - 0.5 < r.totalDed <= (imss.total + isrNeto) / div + 0.5
    ensures IsWhole(r.deds[0].amount) && isrNeto / div - 0.5 < r.deds[0].amount <= isrNeto / div + 0.5
    ensures IsWhole(r.deds[1].amount) && imss.enf / div - 0.5 < r.deds[1].amount <= imss.enf / div + 0.5
    ensures IsWhole(r.deds[2].amount) && imss.inv / div - 0.5 < r.deds[2].amount <= imss.inv / div + 0.5
    ensures IsWhole(r.deds[3].amount) && imss.ces / div - 0.5 < r.deds[3].amount <= imss.ces / div + 0.5
    ensures IsWhole(-r.deds[4].amount)
    ensures -(subsidio / div) - 0.5 <= r.deds[4].amount < -(subsidio / div) + 0.5
    ensures subsidio == 0.0 ==> r.deds[4].amount == 0.0
  {
    var f := 1.0 / div;
    var deds := [
      LineItem("ISR Art. 96 LISR", PerPeriod(isrNeto, f)),
      LineItem("IMSS Enf. y Maternidad", PerPeriod(imss.enf, f)),
      LineItem("IMSS Invalidez y Vida", PerPeriod(imss.inv, f)),
      LineItem("IMSS Cesantía y Vejez", PerPeriod(imss.ces, f)),
      LineItem("Subsidio al Empleo", -PerPeriod(subsidio, f))
    ];
    var totalDed := PerPeriod(imss.total + isrNeto, f);
    LinesNearTotal(isrNeto, imss.enf, imss.inv, imss.ces, imss.total, f);
    PerPeriodNear(imss.total + isrNeto, div);
    PerPeriodNear(isrNeto, div);
    PerPeriodNear(imss.enf, div);
    PerPeriodNear(imss.inv, div);
    PerPeriodNear(imss.ces, div);
    PerPeriodNear(subsidio, div);
    assert PerPeriod(0.0, f) == 0.0;
    Breakdown("MXN", "SAT MX", base, deds, totalDed, base - totalDed,
              RatePercent(totalDed, base), None, None)
  }

  /** calcMX once the number of pay periods in a month and the tables are
      known. */
  function MxPay(salary: real, div: real, tables: MxTables): (r: Breakdown)
    requires 1.0 <= div && ValidMxTables(tables)
    ensures r.currency == "MXN" && r.regime == "SAT MX"
    ensures r.net == r.base - r.totalDed
    ensures r.fedRate.None? && r.caRate.None?
    ensures |r.deds| == 5
    ensures r.deds[0].concept == "ISR Art. 96 LISR" && 0.0 <= r.deds[0].amount
    ensures r.deds[1].concept == "IMSS Enf. y Maternidad"
    ensures r.deds[2].concept == "IMSS Invalidez y Vida"
    ensures r.deds[3].concept == "IMSS Cesantía y Vejez"
    ensures r.deds[4].concept == "Subsidio al Empleo" && r.deds[4].amount <= 0.0
    ensures 0.0 <= salary ==> 0.0 <= r.totalDed
    ensures r.effectiveRate.NotFinite? <==> r.base == 0.0
    ensures -2.0 <= r.totalDed - (r.deds[0].amount + r.deds[1].amount + r.deds[2].amount + r.deds[3].amount) <= 2.0
    ensures r.base == Round(salary / div)
    ensures r.effectiveRate == RatePercent(r.totalDed, r.base)
    ensures IsWhole(r.totalDed)
  {
    ImssNonNegative(salary);
    MxSlip(Round(salary / div), CalcIMSS(salary), IsrNeto(BaseIsr(salary), tables),
           Subsidy(BaseIsr(salary), tables.subsidy), div)
  }

  /** calcMX(salary, payroll): salary is monthly, the result is for one
      pay period. */
  function CalcMX(salary: real, payroll: string): (r: Breakdown)
    ensures r.currency == "MXN" && r.regime == "SAT MX"
    ensures |r.deds| == 5 && r.fedRate.None? && r.caRate.None?
    ensures r.deds[0].concept == "ISR Art. 96 LISR" && 0.0 <= r.deds[0].amount
    ensures r.deds[4].concept == "Subsidio al Empleo" && r.deds[4].amount <= 0.0
    ensures r.effectiveRate.NotFinite? <==> r.base == 0.0
    ensures r.net == r.base - r.totalDed
    ensures r.effectiveRate == RatePercent(r.totalDed, r.base)
    ensures 0.0 <= salary ==> 0.0 <= r.totalDed
  {
    MxTablesValid();
    // The same choice as PeriodsPerMonth, spelled out so that every
    // division is by a constant.
    if payroll == "semanal" then MxPay(salary, 4.33, MX_TABLES)
    else if payroll == "quincenal" then MxPay(salary, 2.0, MX_TABLES)
    else MxPay(salary, 1.0, MX_TABLES)
  }

  // ----- The row lookups against their first-match definition -----

  /** The ISR row is the first row containing the base, when one does. */
  lemma IsrRowForFirst(x: real, rows: seq<IsrRow>, j: nat)
    requires j < |rows| && InIsrRow(x, rows[j])
    requires forall k :: 0 <= k < j ==> !InIsrRow(x, rows[k])
    ensures IsrRowFor(x, rows) == rows[j]
  {
    FindIsrRowFirst(x, rows, j);
  }

  /** A base that no row contains is taxed on the last row. */
  lemma IsrRowForFallback(x: real, rows: seq<IsrRow>)
    requires |rows| > 0
    requires forall k :: 0 <= k < |rows| ==> !InIsrRow(x, rows[k])
    ensures IsrRowFor(x, rows) == rows[|rows| - 1]
  {
    FindIsrRowNone(x, rows);
  }

  /** The subsidy is that of the first subsidy row containing the base. */
  lemma SubsidyFirst(x: real, rows: seq<SubsidyRow>, j: nat)
    requires forall i :: 0 <= i < |rows| ==> 0.0 <= rows[i].s
    requires j < |rows| && InSubsidyRow(x, rows[j])
    requires forall k :: 0 <= k < j ==> !InSubsidyRow(x, rows[k])
    ensures Subsidy(x, rows) == rows[j].s
  {
    FindSubsidyRowFirst(x, rows, j);
  }

  /** A base that no subsidy row contains gets no subsidy. */
  lemma SubsidyNone(x: real, rows: seq<SubsidyRow>)
    requires forall i :: 0 <= i < |rows| ==> 0.0 <= rows[i].s
    requires forall k :: 0 <= k < |rows| ==> !InSubsidyRow(x, rows[k])
    ensures Subsidy(x, rows) == 0.0
  {
    FindSubsidyRowNone(x, rows);
  }

  /** From 7382.34 a month upwards there is no subsidy. */
  lemma SubsidyZeroAbove(x: real)
    requires 7382.34 <= x
    ensures ValidMxTables(MX_TABLES) && Subsidy(x, SAT_SUBSIDIO) == 0.0
  {
    MxTablesValid();
    var last := |SAT_SUBSIDIO| - 1;
    assert forall k :: 0 <= k < last ==> !InSubsidyRow(x, SAT_SUBSIDIO[k]);
    SubsidyFirst(x, SAT_SUBSIDIO, last);
  }

  /** A subsidy is one of the table's subsidies or 0, so a bound on the
      table's subsidies bounds it. */
  lemma SubsidyBounded(x: real, rows: seq<SubsidyRow>, bound: real)
    requires 0.0 <= bound
    requires forall i :: 0 <= i < |rows| ==> 0.0 <= rows[i].s <= bound
    ensures Subsidy(x, rows) <= bound
  {
    match FindSubsidyRow(x, rows)
    case Some(row) =>
      var i :| 0 <= i < |rows| && rows[i] == row;
    case None =>
  }

  /** No subsidy exceeds 407.02 a month. */
  lemma SubsidyAtMost(x: real)
    ensures ValidMxTables(MX_TABLES) && Subsidy(x, SAT_SUBSIDIO) <= 407.02
  {
    MxTablesValid();
    SubsidyBounded(x, SAT_SUBSIDIO, 407.02);
  }

  // ----- The one-cent gaps -----

  /** Each table row starts one cent above the previous row's top. */
  lemma IsrTableSteps()
    ensures CentSteps(SAT_ISR, (row: IsrRow) => row.li, (row: IsrRow) => row.ls)
  {
    forall i | 0 <= i < |SAT_ISR| ensures IsCents(SAT_ISR[i].li) {
      var n := (SAT_ISR[i].li * 100.0).Floor;
      assert n as real == SAT_ISR[i].li * 100.0;
    }
    forall i, j | 0 <= i < j < |SAT_ISR| && j == i + 1
      ensures SAT_ISR[i].ls.Finite? && SAT_ISR[j].li == SAT_ISR[i].ls.v + 0.01
    {
    }
  }

  lemma SubsidyTableSteps()
    ensures CentSteps(SAT_SUBSIDIO, (row: SubsidyRow) => row.li, (row: SubsidyRow) => row.ls)
  {
    forall i | 0 <= i < |SAT_SUBSIDIO| ensures IsCents(SAT_SUBSIDIO[i].li) {
      var n := (SAT_SUBSIDIO[i].li * 100.0).Floor;
      assert n as real == SAT_SUBSIDIO[i].li * 100.0;
    }
    forall i, j | 0 <= i < j < |SAT_SUBSIDIO| && j == i + 1
      ensures SAT_SUBSIDIO[i].ls.Finite? && SAT_SUBSIDIO[j].li == SAT_SUBSIDIO[i].ls.v + 0.01
    {
    }
  }

  /** On a whole-cent salary the IMSS total never exceeds the salary, and
      the ISR base is a non-negative whole number of cents. */
  lemma CentSalaryBase(salary: real)
    requires IsCents(salary) && 0.0 <= salary
    ensures IsCents(BaseIsr(salary)) && 0.0 <= BaseIsr(salary)
  {
    var imss := CalcIMSS(salary);
    CentsDifference(salary, imss.total);
    if salary > 0.0 {
      assert IsCents(0.0);
      CentsApart(salary, 0.0);
    }
  }

  /** A whole-cent salary never lands in a gap: both lookups find a row,
      so neither the last-row fallback nor the zero subsidy is used. */
  lemma CentSalaryFindsRows(salary: real)
    requires IsCents(salary) && 0.0 <= salary
    ensures FindIsrRow(BaseIsr(salary), SAT_ISR).Some?
    ensures FindSubsidyRow(BaseIsr(salary), SAT_SUBSIDIO).Some?
  {
    var x := BaseIsr(salary);
    CentSalaryBase(salary);
    var isrLo, isrHi := (row: IsrRow) => row.li, (row: IsrRow) => row.ls;
    IsrTableSteps();
    CentStepsCover(SAT_ISR, isrLo, isrHi, x);
    var i :| 0 <= i < |SAT_ISR| && Within(x, isrLo(SAT_ISR[i]), isrHi(SAT_ISR[i]));
    assert InIsrRow(x, SAT_ISR[i]);
    FindIsrRowNone(x, SAT_ISR);
    var subLo, subHi := (row: SubsidyRow) => row.li, (row: SubsidyRow) => row.ls;
    SubsidyTableSteps();
    CentStepsCover(SAT_SUBSIDIO, subLo, subHi, x);
    var j :| 0 <= j < |SAT_SUBSIDIO| && Within(x, subLo(SAT_SUBSIDIO[j]), subHi(SAT_SUBSIDIO[j]));
    assert InSubsidyRow(x, SAT_SUBSIDIO[j]);
    FindSubsidyRowNone(x, SAT_SUBSIDIO);
  }

  // ----- The deduction lines against the total -----

  /** The total deduction is rounded once from the unrounded IMSS total and
      ISR, the four lines each on their own: the two can differ, but by at
      most two units. */
  lemma LinesNearTotal(isr: real, enf: real, inv: real, ces: real, total: real, f: real)
    requires 0.0 < f <= 1.0
    requires enf + inv + ces - 0.005 < total <= enf + inv + ces + 0.005
    ensures var lines := PerPeriod(isr, f) + PerPeriod(enf, f) + PerPeriod(inv, f) + PerPeriod(ces, f);
      -2.0 <= PerPeriod(total + isr, f) - lines <= 2.0
  {
    ScaledSumNear(isr, enf, inv, ces, total, f);
    RoundingsApart(PerPeriod(total + isr, f), PerPeriod(isr, f), PerPeriod(enf, f),
                   PerPeriod(inv, f), PerPeriod(ces, f),
                   (total + isr) * f, isr * f, enf * f, inv * f, ces * f);
  }

  /** Scaling by a factor of at most one keeps a half-cent error within
      half a cent. */
  lemma ScaledSumNear(isr: real, enf: real, inv: real, ces: real, total: real, f: real)
    requires 0.0 < f <= 1.0
    requires enf + inv + ces - 0.005 < total <= enf + inv + ces + 0.005
    ensures var sum := isr * f + enf * f + inv * f + ces * f;
      sum - 0.005 <= (total + isr) * f <= sum + 0.005
  {
    var e := total - (enf + inv + ces);
    assert -0.005 <= e * f <= 0.005 by {
      if 0.0 <= e {
        assert e * f <= e * 1.0;
      } else {
        assert e * 1.0 <= e * f;
      }
    }
    assert (total + isr) * f == e * f + isr * f + enf * f + inv * f + ces * f;
  }

  /** One whole number within half a unit of T, four within half a unit of
      A, B, C and D, and T within half a cent of A + B + C + D: the one and
      the sum of the four are at most two apart. */
  lemma RoundingsApart(t: real, a: real, b: real, c: real, d: real,
                       T: real, A: real, B: real, C: real, D: real)
    requires IsWhole(t) && IsWhole(a) && IsWhole(b) && IsWhole(c) && IsWhole(d)
    requires T - 0.5 < t <= T + 0.5 && A - 0.5 < a <= A + 0.5 && B - 0.5 < b <= B + 0.5
    requires C - 0.5 < c <= C + 0.5 && D - 0.5 < d <= D + 0.5
    requires A + B + C + D - 0.005 <= T <= A + B + C + D + 0.005
    ensures -2.0 <= t - (a + b + c + d) <= 2.0
  {
    WholeDifference(t, a);
    WholeDifference(t - a, b);
    WholeDifference(t - a - b, c);
    WholeDifference(t - a - b - c, d);
    assert t - (a + b + c + d) == t - a - b - c - d;
    WholeWithinTwo(t - a - b - c - d);
  }
}

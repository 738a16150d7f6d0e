/** What the Mexican pipeline guarantees: the total deduction is the
    monthly IMSS total plus ISR after subsidy, paid back per period; the
    subsidy is shown as a credit but never lowers the total; and the worked
    cases, including a base that falls into a one-cent gap of the ISR table. */
module MexicoProperties {
  import opened Money
  import opened Tables
  import opened Payslip
  import opened Mexico

  /** calcMX is MxPay on the SAT tables. */
  lemma CalcMXIsPay(salary: real, payroll: string)
    ensures ValidMxTables(MX_TABLES) && 1.0 <= PeriodsPerMonth(payroll)
    ensures CalcMX(salary, payroll) == MxPay(salary, PeriodsPerMonth(payroll), MX_TABLES)
  {
    MxTablesValid();
    if payroll == "semanal" {
      assert PeriodsPerMonth(payroll) == 4.33;
    } else if payroll == "quincenal" {
      assert PeriodsPerMonth(payroll) == 2.0;
    } else {
      assert PeriodsPerMonth(payroll) == 1.0;
    }
  }

  /** The total deduction is the IMSS total plus the ISR after subsidy,
      divided by the period count and rounded once; the subsidy line is the
      subsidy divided the same way and rounded, as a credit. */
  lemma MxPayTotal(salary: real, div: real, tables: MxTables)
    requires 1.0 <= div && ValidMxTables(tables)
    ensures (CalcIMSS(salary).total + IsrNeto(BaseIsr(salary), tables)) / div - 0.5 < MxPay(salary, div, tables).totalDed
    ensures MxPay(salary, div, tables).totalDed <= (CalcIMSS(salary).total + IsrNeto(BaseIsr(salary), tables)) / div + 0.5
    ensures -(Subsidy(BaseIsr(salary), tables.subsidy) / div) - 0.5 <= MxPay(salary, div, tables).deds[4].amount
    ensures MxPay(salary, div, tables).deds[4].amount < -(Subsidy(BaseIsr(salary), tables.subsidy) / div) + 0.5
  {
    ImssNonNegative(salary);
  }

  /** The pay-period base is the monthly salary divided by the period
      count, rounded; the total deduction is the IMSS total plus the ISR
      after subsidy, divided the same way and rounded once. The subsidy
      enters the total only through the ISR it offsets. */
  lemma CalcMXTotal(salary: real, payroll: string)
    ensures ValidMxTables(MX_TABLES)
    ensures CalcMX(salary, payroll).net == Round(salary / PeriodsPerMonth(payroll)) - CalcMX(salary, payroll).totalDed
    ensures IsWhole(CalcMX(salary, payroll).totalDed)
    ensures (CalcIMSS(salary).total + IsrNeto(BaseIsr(salary), MX_TABLES)) / PeriodsPerMonth(payroll) - 0.5
            < CalcMX(salary, payroll).totalDed
    ensures CalcMX(salary, payroll).totalDed
            <= (CalcIMSS(salary).total + IsrNeto(BaseIsr(salary), MX_TABLES)) / PeriodsPerMonth(payroll) + 0.5
  {
    CalcMXIsPay(salary, payroll);
    MxPayTotal(salary, PeriodsPerMonth(payroll), MX_TABLES);
  }

  /** The subsidy line is the monthly subsidy for the ISR base, divided by
      the period count and rounded, shown as a credit; it is 0 from a base
      of 7382.34 upwards. */
  lemma CalcMXSubsidyLine(salary: real, payroll: string)
    ensures ValidMxTables(MX_TABLES)
    ensures -(Subsidy(BaseIsr(salary), SAT_SUBSIDIO) / PeriodsPerMonth(payroll)) - 0.5
            <= CalcMX(salary, payroll).deds[4].amount
    ensures CalcMX(salary, payroll).deds[4].amount
            < -(Subsidy(BaseIsr(salary), SAT_SUBSIDIO) / PeriodsPerMonth(payroll)) + 0.5
    ensures 7382.34 <= BaseIsr(salary) ==> CalcMX(salary, payroll).deds[4].amount == 0.0
  {
    CalcMXIsPay(salary, payroll);
    MxPayTotal(salary, PeriodsPerMonth(payroll), MX_TABLES);
    if 7382.34 <= BaseIsr(salary) {
      SubsidyZeroAbove(BaseIsr(salary));
    }
  }

  /** Each line of a pay period is its monthly amount divided by the period
      count and rounded to a whole unit: the ISR after subsidy, the three
      IMSS contributions, and the subsidy as a credit. */
  lemma MxPayLines(salary: real, div: real, tables: MxTables)
    requires 1.0 <= div && ValidMxTables(tables)
    ensures var r, imss, isr := MxPay(salary, div, tables), CalcIMSS(salary), IsrNeto(BaseIsr(salary), tables);
      && IsWhole(r.deds[0].amount) && isr / div - 0.5 < r.deds[0].amount <= isr / div + 0.5
      && IsWhole(r.deds[1].amount) && imss.enf / div - 0.5 < r.deds[1].amount <= imss.enf / div + 0.5
      && IsWhole(r.deds[2].amount) && imss.inv / div - 0.5 < r.deds[2].amount <= imss.inv / div + 0.5
      && IsWhole(r.deds[3].amount) && imss.ces / div - 0.5 < r.deds[3].amount <= imss.ces / div + 0.5
      && IsWhole(-r.deds[4].amount)
  {
    MxPayIsSlip(salary, div, tables);
  }

  /** The same for calcMX: each line is its monthly amount divided by the
      payroll's period count and rounded. */
  lemma CalcMXLines(salary: real, payroll: string)
    ensures ValidMxTables(MX_TABLES)
    ensures var r, imss, isr, div := CalcMX(salary, payroll), CalcIMSS(salary), IsrNeto(BaseIsr(salary), MX_TABLES), PeriodsPerMonth(payroll);
      && IsWhole(r.deds[0].amount) && isr / div - 0.5 < r.deds[0].amount <= isr / div + 0.5
      && IsWhole(r.deds[1].amount) && imss.enf / div - 0.5 < r.deds[1].amount <= imss.enf / div + 0.5
      && IsWhole(r.deds[2].amount) && imss.inv / div - 0.5 < r.deds[2].amount <= imss.inv / div + 0.5
      && IsWhole(r.deds[3].amount) && imss.ces / div - 0.5 < r.deds[3].amount <= imss.ces / div + 0.5
      && IsWhole(-r.deds[4].amount)
  {
    CalcMXIsPay(salary, payroll);
    MxPayLines(salary, PeriodsPerMonth(payroll), MX_TABLES);
  }

  /** MxPay is MxSlip on the monthly IMSS contributions, the ISR after
      subsidy and the subsidy. */
  lemma MxPayIsSlip(salary: real, div: real, tables: MxTables)
    requires 1.0 <= div && ValidMxTables(tables)
    ensures MxPay(salary, div, tables)
         == MxSlip(Round(salary / div), CalcIMSS(salary), IsrNeto(BaseIsr(salary), tables),
                   Subsidy(BaseIsr(salary), tables.subsidy), div)
  {
  }

  /** A fortnightly payroll divides by 2. */
  lemma CalcMXFortnightly(salary: real, payroll: string)
    requires payroll == "quincenal"
    ensures ValidMxTables(MX_TABLES)
    ensures CalcMX(salary, payroll) == MxPay(salary, 2.0, MX_TABLES)
  {
    MxTablesValid();
  }

  /** A payroll that is neither weekly nor fortnightly is paid monthly. */
  lemma CalcMXMonthly(salary: real, payroll: string)
    requires payroll != "semanal" && payroll != "quincenal"
    ensures ValidMxTables(MX_TABLES)
    ensures CalcMX(salary, payroll) == MxPay(salary, 1.0, MX_TABLES)
  {
    MxTablesValid();
  }

  // ----- Worked cases -----

  /** 25000 a month paid fortnightly: ISR base 24406.25 in the sixth row,
      no subsidy; 2069 of the 12500 are withheld. */
  lemma QuincenalWorked(salary: real, payroll: string)
    requires salary == 25000.0 && payroll == "quincenal"
    ensures CalcMX(salary, payroll)
         == Breakdown("MXN", "SAT MX", 12500.0,
              [LineItem("ISR Art. 96 LISR", 1773.0), LineItem("IMSS Enf. y Maternidad", 78.0),
               LineItem("IMSS Invalidez y Vida", 78.0), LineItem("IMSS Cesantía y Vejez", 141.0),
               LineItem("Subsidio al Empleo", 0.0)],
              2069.0, 10431.0, Percent(16.6), None, None)
  {
    QuincenalSlip();
    CalcMXFortnightly(salary, payroll);
    QuincenalPay(salary);
  }

  lemma QuincenalPay(salary: real)
    requires salary == 25000.0
    ensures ValidMxTables(MX_TABLES)
    ensures MxPay(salary, 2.0, MX_TABLES)
         == MxSlip(12500.0, Imss(156.25, 156.25, 281.25, 593.75), 3545.18, 0.0, 2.0)
  {
    QuincenalMonthly(salary);
    MxPayIsSlip(salary, 2.0, MX_TABLES);
  }

  /** The monthly amounts behind the fortnightly slip on 25000. */
  lemma QuincenalMonthly(salary: real)
    requires salary == 25000.0
    ensures Round(salary / 2.0) == 12500.0
    ensures CalcIMSS(salary) == Imss(156.25, 156.25, 281.25, 593.75)
    ensures ValidMxTables(MX_TABLES) && IsrNeto(BaseIsr(salary), MX_TABLES) == 3545.18
    ensures Subsidy(BaseIsr(salary), SAT_SUBSIDIO) == 0.0
  {
    assert CalcIMSS(25000.0) == Imss(156.25, 156.25, 281.25, 593.75);
    assert BaseIsr(salary) == 24406.25;
    QuincenalIsr();
  }

  /** The slip on those amounts. */
  lemma QuincenalSlip()
    ensures MxSlip(12500.0, Imss(156.25, 156.25, 281.25, 593.75), 3545.18, 0.0, 2.0)
         == Breakdown("MXN", "SAT MX", 12500.0,
              [LineItem("ISR Art. 96 LISR", 1773.0), LineItem("IMSS Enf. y Maternidad", 78.0),
               LineItem("IMSS Invalidez y Vida", 78.0), LineItem("IMSS Cesantía y Vejez", 141.0),
               LineItem("Subsidio al Empleo", 0.0)],
              2069.0, 10431.0, Percent(16.6), None, None)
  {
    assert PerPeriod(4138.93, 0.5) == 2069.0;
  }

  /** The ISR on a base of 24406.25: 1640.18 plus 21.36% of the excess over
      15487.72. */
  lemma QuincenalIsr()
    ensures ValidMxTables(MX_TABLES) && Subsidy(24406.25, SAT_SUBSIDIO) == 0.0
    ensures IsrNeto(24406.25, MX_TABLES) == 3545.18
  {
    IsrRowForFirst(24406.25, SAT_ISR, 5);
    SubsidyZeroAbove(24406.25);
    IsrOnRowWorked();
  }

  /** 5000 a month: the subsidy of 324.87 exceeds the ISR of 278.97, so no
      ISR is withheld, the subsidy line shows -325, and the total is the
      IMSS total alone. */
  lemma SubsidyWorked(salary: real, payroll: string)
    requires salary == 5000.0 && payroll == "mensual"
    ensures CalcMX(salary, payroll)
         == Breakdown("MXN", "SAT MX", 5000.0,
              [LineItem("ISR Art. 96 LISR", 0.0), LineItem("IMSS Enf. y Maternidad", 31.0),
               LineItem("IMSS Invalidez y Vida", 31.0), LineItem("IMSS Cesantía y Vejez", 56.0),
               LineItem("Subsidio al Empleo", -325.0)],
              119.0, 4881.0, Percent(2.4), None, None)
  {
    SubsidySlip();
    CalcMXMonthly(salary, payroll);
    SubsidyPay(salary);
  }

  lemma SubsidyPay(salary: real)
    requires salary == 5000.0
    ensures ValidMxTables(MX_TABLES)
    ensures MxPay(salary, 1.0, MX_TABLES)
         == MxSlip(5000.0, Imss(31.25, 31.25, 56.25, 118.75), 0.0, 324.87, 1.0)
  {
    SubsidyMonthly(salary);
    MxPayIsSlip(salary, 1.0, MX_TABLES);
  }

  /** The monthly amounts behind the slip on 5000. */
  lemma SubsidyMonthly(salary: real)
    requires salary == 5000.0
    ensures Round(salary / 1.0) == 5000.0
    ensures CalcIMSS(salary) == Imss(31.25, 31.25, 56.25, 118.75)
    ensures ValidMxTables(MX_TABLES) && IsrNeto(BaseIsr(salary), MX_TABLES) == 0.0
    ensures Subsidy(BaseIsr(salary), SAT_SUBSIDIO) == 324.87
  {
    assert CalcIMSS(5000.0) == Imss(31.25, 31.25, 56.25, 118.75);
    assert BaseIsr(salary) == 4881.25;
    SubsidyIsr();
  }

  /** The slip on those amounts. */
  lemma SubsidySlip()
    ensures MxSlip(5000.0, Imss(31.25, 31.25, 56.25, 118.75), 0.0, 324.87, 1.0)
         == Breakdown("MXN", "SAT MX", 5000.0,
              [LineItem("ISR Art. 96 LISR", 0.0), LineItem("IMSS Enf. y Maternidad", 31.0),
               LineItem("IMSS Invalidez y Vida", 31.0), LineItem("IMSS Cesantía y Vejez", 56.0),
               LineItem("Subsidio al Empleo", -325.0)],
              119.0, 4881.0, Percent(2.4), None, None)
  {
  }

  /** A base of 4881.25 is in the second ISR row and the seventh subsidy row. */
  lemma SubsidyIsr()
    ensures ValidMxTables(MX_TABLES) && Subsidy(4881.25, SAT_SUBSIDIO) == 324.87
    ensures IsrNeto(4881.25, MX_TABLES) == 0.0
  {
    MxTablesValid();
    IsrRowForFirst(4881.25, SAT_ISR, 1);
    SubsidyOf4881();
    IsrOnRowWorked();
  }

  /** A base of 4881.25 is first contained in the seventh subsidy row. */
  lemma SubsidyOf4881()
    ensures ValidMxTables(MX_TABLES) && Subsidy(4881.25, SAT_SUBSIDIO) == 324.87
  {
    MxTablesValid();
    SubsidyFirst(4881.25, SAT_SUBSIDIO, 6);
  }

  /** A monthly salary of 11398.735 leaves an ISR base of 11128.015, inside
      the gap between the third row's top (11128.01) and the fourth row's
      bottom (11128.02). No row contains it, so the last row is used, its
      ISR is negative and clamps to 0: the total is the IMSS total alone,
      271 instead of the 1164 the third row gives (ISR 893.63). */
  lemma GapWorked(salary: real, payroll: string)
    requires salary == 11398.735 && payroll == "mensual"
    ensures CalcMX(salary, payroll)
         == Breakdown("MXN", "SAT MX", 11399.0,
              [LineItem("ISR Art. 96 LISR", 0.0), LineItem("IMSS Enf. y Maternidad", 71.0),
               LineItem("IMSS Invalidez y Vida", 71.0), LineItem("IMSS Cesantía y Vejez", 128.0),
               LineItem("Subsidio al Empleo", 0.0)],
              271.0, 11128.0, Percent(2.4), None, None)
  {
    GapSlip();
    CalcMXMonthly(salary, payroll);
    GapPay(salary);
  }

  lemma GapPay(salary: real)
    requires salary == 11398.735
    ensures ValidMxTables(MX_TABLES)
    ensures MxPay(salary, 1.0, MX_TABLES)
         == MxSlip(11399.0, Imss(71.24209375, 71.24209375, 128.23576875, 270.72), 0.0, 0.0, 1.0)
  {
    GapMonthly(salary);
    MxPayIsSlip(salary, 1.0, MX_TABLES);
  }

  /** The monthly amounts behind the slip on 11398.735. */
  lemma GapMonthly(salary: real)
    requires salary == 11398.735
    ensures Round(salary / 1.0) == 11399.0
    ensures CalcIMSS(salary) == Imss(71.24209375, 71.24209375, 128.23576875, 270.72)
    ensures forall k :: 0 <= k < |SAT_ISR| ==> !InIsrRow(BaseIsr(salary), SAT_ISR[k])
    ensures IsrRowFor(BaseIsr(salary), SAT_ISR) == SAT_ISR[|SAT_ISR| - 1]
    ensures ValidMxTables(MX_TABLES) && IsrNeto(BaseIsr(salary), MX_TABLES) == 0.0
    ensures Subsidy(BaseIsr(salary), SAT_SUBSIDIO) == 0.0
  {
    assert CalcIMSS(11398.735) == Imss(71.24209375, 71.24209375, 128.23576875, 270.72);
    assert BaseIsr(salary) == 11128.015;
    GapIsr();
  }

  /** The slip on those amounts. */
  lemma GapSlip()
    ensures MxSlip(11399.0, Imss(71.24209375, 71.24209375, 128.23576875, 270.72), 0.0, 0.0, 1.0)
         == Breakdown("MXN", "SAT MX", 11399.0,
              [LineItem("ISR Art. 96 LISR", 0.0), LineItem("IMSS Enf. y Maternidad", 71.0),
               LineItem("IMSS Invalidez y Vida", 71.0), LineItem("IMSS Cesantía y Vejez", 128.0),
               LineItem("Subsidio al Empleo", 0.0)],
              271.0, 11128.0, Percent(2.4), None, None)
  {
    assert PerPeriod(270.72, 1.0) == 271.0;
  }

  /** Had the third row been used, the ISR would be 893.63 and the total
      1164. */
  lemma GapThirdRow()
    ensures Round(270.72 + IsrOnRow(11128.015, SAT_ISR[2])) == 1164.0
  {
    IsrOnRowWorked();
    assert Round(270.72 + 893.63) == 1164.0;
  }

  /** The ISR each row used above levies on its base. */
  lemma IsrOnRowWorked()
    ensures IsrOnRow(24406.25, SAT_ISR[5]) == 3545.18
    ensures IsrOnRow(4881.25, SAT_ISR[1]) == 278.97
    ensures IsrOnRow(11128.015, SAT_ISR[|SAT_ISR| - 1]) == -9784.34
    ensures IsrOnRow(11128.015, SAT_ISR[2]) == 893.63
  {
    assert IsrOnRow(24406.25, IsrRow(15487.72, Finite(31236.49), 1640.18, 21.36)) == 3545.18;
    assert IsrOnRow(4881.25, IsrRow(746.05, Finite(6332.05), 14.32, 6.40)) == 278.97;
    assert IsrOnRow(11128.015, IsrRow(375975.62, Infinity, 117912.32, 35.00)) == -9784.34;
    assert IsrOnRow(11128.015, IsrRow(6332.06, Finite(11128.01), 371.83, 10.88)) == 893.63;
  }

  /** 49233.005 falls in the gap between the seventh and eighth ISR rows.
      The last row then levies a positive ISR, which is charged in full,
      since from 7382.34 upwards there is no subsidy. */
  lemma UpperGapIsr()
    ensures IsrRowFor(49233.005, SAT_ISR) == SAT_ISR[|SAT_ISR| - 1]
    ensures IsrBruto(49233.005, SAT_ISR) == 3552.40
    ensures ValidMxTables(MX_TABLES) && IsrNeto(49233.005, MX_TABLES) == 3552.40
  {
    GapLastRowIsr();
    InNoIsrRow(49233.005);
    IsrRowForFallback(49233.005, SAT_ISR);
    SubsidyZeroAbove(49233.005);
  }

  /** 746.045 falls in the gap between the first and second ISR rows, but
      the subsidy table has its own rows: its first row contains 746.045,
      so the full subsidy of 407.02 applies. The last ISR row levies a
      negative ISR there, and the ISR after subsidy is 0. */
  lemma LowerGapSubsidy()
    ensures IsrRowFor(746.045, SAT_ISR) == SAT_ISR[|SAT_ISR| - 1]
    ensures ValidMxTables(MX_TABLES) && Subsidy(746.045, SAT_SUBSIDIO) == 407.02
    ensures IsrNeto(746.045, MX_TABLES) == 0.0
  {
    GapLastRowIsr();
    InNoIsrRow(746.045);
    IsrRowForFallback(746.045, SAT_ISR);
    MxTablesValid();
    SubsidyFirst(746.045, SAT_SUBSIDIO, 0);
  }

  /** The bases 746.045 and 49233.005 lie in no ISR row. */
  lemma InNoIsrRow(x: real)
    requires x == 746.045 || x == 49233.005
    ensures forall k :: 0 <= k < |SAT_ISR| ==> !InIsrRow(x, SAT_ISR[k])
  {
  }

  /** The ISR the last row levies on the two gap bases. */
  lemma GapLastRowIsr()
    ensures IsrOnRow(49233.005, SAT_ISR[|SAT_ISR| - 1]) == 3552.40
    ensures IsrOnRow(746.045, SAT_ISR[|SAT_ISR| - 1]) == -13418.03
  {
    assert IsrOnRow(49233.005, IsrRow(375975.62, Infinity, 117912.32, 35.00)) == 3552.40;
    assert IsrOnRow(746.045, IsrRow(375975.62, Infinity, 117912.32, 35.00)) == -13418.03;
  }

  /** 11128.015 is in no ISR row, gets the last row and no subsidy, and
      its ISR after subsidy is 0. */
  lemma GapIsr()
    ensures forall k :: 0 <= k < |SAT_ISR| ==> !InIsrRow(11128.015, SAT_ISR[k])
    ensures IsrRowFor(11128.015, SAT_ISR) == SAT_ISR[|SAT_ISR| - 1]
    ensures ValidMxTables(MX_TABLES)
    ensures IsrNeto(11128.015, MX_TABLES) == 0.0 && Subsidy(11128.015, SAT_SUBSIDIO) == 0.0
  {
    IsrRowForFallback(11128.015, SAT_ISR);
    SubsidyZeroAbove(11128.015);
    IsrOnRowWorked();
  }
}

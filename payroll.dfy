/** The payroll run: the dispatcher that picks a country pipeline for an
    employee, the selection of the employees a payroll cut processes, the
    cut's totals and its breakdown by location. */
module Payroll {
  import opened Tables
  import opened Payslip
  import opened Mexico
  import opened UnitedStates

  /** The employee fields the payroll run reads. */
  datatype Employee = Employee(
    id: string,
    status: string,
    payroll: string,
    salary: real,
    location: string,
    country: string)

  /** calcPayroll: "US" employees go through the United States pipeline,
      every other country string through the Mexican one. */
  function CalcPayroll(e: Employee): (r: Breakdown)
    ensures r.currency == "USD" <==> e.country == "US"
    ensures r.currency == "MXN" <==> e.country != "US"
    ensures r.regime == (if e.country == "US" then "IRS+CA" else "SAT MX")
    ensures |r.deds| == 5
    ensures r.net == r.base - r.totalDed
    ensures e.country == "US" ==> r.base == e.salary
  {
    if e.country == "US" then CalcUS(e.salary, e.payroll) else CalcMX(e.salary, e.payroll)
  }

  // ----- Array.prototype.filter -----

  /** The elements of s that satisfy p, in their order in s. */
  function Filter<T(==,!new)>(s: seq<T>, p: T -> bool): (r: seq<T>)
    ensures |r| <= |s|
    ensures forall i :: 0 <= i < |r| ==> p(r[i])
    ensures forall x :: x in r <==> x in s && p(x)
    decreases |s|
  {
    if s == [] then [] else (if p(s[0]) then [s[0]] else []) + Filter(s[1..], p)
  }

  /** Filtering keeps every element that satisfies p as many times as s
      holds it, and drops every other one. */
  lemma {:induction false} FilterCount<T(!new)>(s: seq<T>, p: T -> bool, x: T)
    ensures multiset(Filter(s, p))[x] == if p(x) then multiset(s)[x] else 0
    decreases |s|
  {
    if s != [] {
      assert s == [s[0]] + s[1..];
      FilterCount(s[1..], p, x);
    }
  }

  /** Filtering a concatenation filters each part and keeps them in
      order: filter is order-preserving. */
  lemma {:induction false} FilterConcat<T(!new)>(a: seq<T>, b: seq<T>, p: T -> bool)
    ensures Filter(a + b, p) == Filter(a, p) + Filter(b, p)
    decreases |a|
  {
    if a != [] {
      assert (a + b)[1..] == a[1..] + b;
      FilterConcat(a[1..], b, p);
    } else {
      assert a + b == b;
    }
  }

  // ----- handleProcess -----

  /** activeEmps: the employees whose status is "active". */
  function ActiveEmployees(emps: seq<Employee>): (r: seq<Employee>)
    ensures forall e :: e in r <==> e in emps && e.status == "active"
  {
    Filter(emps, (e: Employee) => e.status == "active")
  }

  /** The payroll-cut form: the pay type and country to process, each of
      which may be "all", and the period's first and last dates. */
  datatype CutForm = CutForm(cutType: string, from: string, to: string, country: string)

  /** The cut's country and pay-type conditions. */
  predicate MatchesForm(e: Employee, form: CutForm): (b: bool)
    ensures b ==> form.country == "all" || e.country == form.country
    ensures b ==> form.cutType == "all" || e.payroll == form.cutType
    ensures form.country == "all" && form.cutType == "all" ==> b
  {
    && (form.country == "all" || e.country == form.country)
    && (form.cutType == "all" || e.payroll == form.cutType)
  }

  /** handleProcess: the active employees that match the form's country and
      pay type, in their original order. */
  function ProcessEmployees(emps: seq<Employee>, form: CutForm): (r: seq<Employee>)
    ensures forall e :: e in r ==> e.status == "active" && MatchesForm(e, form)
  {
    Filter(ActiveEmployees(emps), (e: Employee) => MatchesForm(e, form))
  }

  /** An employee is processed exactly when they are active and match both
      conditions; each one is processed as many times as they are listed. */
  lemma ProcessSelects(emps: seq<Employee>, form: CutForm)
    ensures forall e :: e in ProcessEmployees(emps, form)
                    <==> e in emps && e.status == "active" && MatchesForm(e, form)
    ensures forall e :: multiset(ProcessEmployees(emps, form))[e]
                     == if e.status == "active" && MatchesForm(e, form) then multiset(emps)[e] else 0
  {
    var active := (e: Employee) => e.status == "active";
    var matching := (e: Employee) => MatchesForm(e, form);
    assert ActiveEmployees(emps) == Filter(emps, active);
    assert ProcessEmployees(emps, form) == Filter(Filter(emps, active), matching);
    forall e
      ensures multiset(ProcessEmployees(emps, form))[e]
           == if e.status == "active" && MatchesForm(e, form) then multiset(emps)[e] else 0
    {
      FilterCount(emps, active, e);
      FilterCount(Filter(emps, active), matching, e);
    }
  }

  /** A cut for the "US" country holds only dollar results, a cut for any
      other single country only peso results. */
  lemma CutCurrency(emps: seq<Employee>, form: CutForm)
    requires form.country != "all"
    ensures forall e :: e in ProcessEmployees(emps, form) ==>
      CalcPayroll(e).currency == (if form.country == "US" then "USD" else "MXN")
  {
  }

  // ----- Results and totals -----

  /** One processed employee and their breakdown. */
  datatype PayResult = PayResult(emp: Employee, breakdown: Breakdown)

  /** results: every processed employee with the result of calcPayroll. */
  function Results(emps: seq<Employee>): (rs: seq<PayResult>)
    ensures |rs| == |emps|
    ensures forall i :: 0 <= i < |rs| ==> rs[i].emp == emps[i] && rs[i].breakdown == CalcPayroll(emps[i])
  {
    seq(|emps|, i requires 0 <= i < |emps| => PayResult(emps[i], CalcPayroll(emps[i])))
  }

  /** Every result's net is its gross less its deductions. */
  predicate Balanced(rs: seq<PayResult>) {
    forall i :: 0 <= i < |rs| ==> rs[i].breakdown.net == rs[i].breakdown.base - rs[i].breakdown.totalDed
  }

  /** The results of calcPayroll are balanced. */
  lemma ResultsBalanced(emps: seq<Employee>)
    ensures Balanced(Results(emps))
  {
    var rs := Results(emps);
    forall i | 0 <= i < |rs|
      ensures rs[i].breakdown.net == rs[i].breakdown.base - rs[i].breakdown.totalDed
    {
      var r := CalcPayroll(emps[i]);
      assert rs[i].breakdown == r;
    }
  }

  /** The three amounts the cut adds up. */
  datatype Column = Gross | Deductions | Net

  function Amount(b: Breakdown, c: Column): real {
    match c
    case Gross => b.base
    case Deductions => b.totalDed
    case Net => b.net
  }

  /** results.reduce((s, r) => s + r.breakdown.<column>, 0), added from the
      left. */
  function Sum(rs: seq<PayResult>, c: Column): (r: real)
    ensures (forall i :: 0 <= i < |rs| ==> 0.0 <= Amount(rs[i].breakdown, c)) ==> 0.0 <= r
    ensures |rs| == 1 ==> r == Amount(rs[0].breakdown, c)
    decreases |rs|
  {
    if rs == [] then 0.0 else Sum(rs[..|rs| - 1], c) + Amount(rs[|rs| - 1].breakdown, c)
  }

  /** Over balanced results, the net total is the gross total less the
      deductions total. */
  lemma {:induction false} SumBalanced(rs: seq<PayResult>)
    requires Balanced(rs)
    ensures Sum(rs, Net) == Sum(rs, Gross) - Sum(rs, Deductions)
    decreases |rs|
  {
    if rs != [] {
      var init := rs[..|rs| - 1];
      assert Balanced(init) by {
        forall i | 0 <= i < |init|
          ensures init[i].breakdown.net == init[i].breakdown.base - init[i].breakdown.totalDed
        {
          assert init[i] == rs[i];
        }
      }
      SumBalanced(init);
    }
  }

  /** The three totals of a group of results. */
  datatype Totals = Totals(gross: real, ded: real, net: real)

  function TotalsOf(rs: seq<PayResult>): (t: Totals)
    requires Balanced(rs)
    ensures t.net == t.gross - t.ded
    ensures t.gross == Sum(rs, Gross) && t.ded == Sum(rs, Deductions)
  {
    SumBalanced(rs);
    Totals(Sum(rs, Gross), Sum(rs, Deductions), Sum(rs, Net))
  }

  /** A filtered part of balanced results is balanced. */
  lemma FilterBalanced(rs: seq<PayResult>, p: PayResult -> bool)
    requires Balanced(rs)
    ensures Balanced(Filter(rs, p))
  {
    var r := Filter(rs, p);
    forall i | 0 <= i < |r|
      ensures r[i].breakdown.net == r[i].breakdown.base - r[i].breakdown.totalDed
    {
      assert r[i] in rs;
      var k :| 0 <= k < |rs| && rs[k] == r[i];
    }
  }

  // ----- The saved cut -----

  /** The record handleConfirm saves, without its creation date. */
  datatype PayrollCut = PayrollCut(
    period: string,
    cutType: string,
    country: string,
    employees: nat,
    grossTotal: real,
    totalDed: real,
    netTotal: real,
    status: string,
    createdBy: string)

  /** `${d || "—"}`: a missing date shows as a dash. */
  function DateOrDash(d: string): (r: string)
    ensures r != []
    ensures d != [] ==> r == d
    ensures d == [] ==> r == "—"
  {
    if d == [] then "—" else d
  }

  /** The cut handleConfirm saves for the processed employees: pending,
      created by "admin", with net total equal to gross total less
      deductions. */
  function MakeCut(emps: seq<Employee>, form: CutForm): (c: PayrollCut)
    ensures c.employees == |emps|
    ensures c.netTotal == c.grossTotal - c.totalDed
    ensures c.grossTotal == Sum(Results(emps), Gross) && c.totalDed == Sum(Results(emps), Deductions)
    ensures c.period == DateOrDash(form.from) + " al " + DateOrDash(form.to)
    ensures c.cutType == form.cutType && c.country == form.country
    ensures c.status == "pendiente" && c.createdBy == "admin"
  {
    ResultsBalanced(emps);
    var t := TotalsOf(Results(emps));
    PayrollCut(DateOrDash(form.from) + " al " + DateOrDash(form.to), form.cutType, form.country,
               |emps|, t.gross, t.ded, t.net, "pendiente", "admin")
  }

  // ----- byLoc -----

  /** One location's entry: its results and their totals. */
  datatype LocGroup = LocGroup(loc: string, results: seq<PayResult>, totals: Totals)

  /** The results of the employees at a location. */
  function AtLocation(rs: seq<PayResult>, loc: string): (r: seq<PayResult>)
    ensures forall x :: x in r <==> x in rs && x.emp.location == loc
  {
    Filter(rs, (x: PayResult) => x.emp.location == loc)
  }

  /** The locations of a list of entries, in order. */
  function Locations(gs: seq<LocGroup>): (ls: seq<string>)
    ensures |ls| == |gs| && forall i :: 0 <= i < |gs| ==> ls[i] == gs[i].loc
  {
    seq(|gs|, i requires 0 <= i < |gs| => gs[i].loc)
  }

  lemma LocationsCons(gs: seq<LocGroup>)
    requires gs != []
    ensures Locations(gs) == [gs[0].loc] + Locations(gs[1..])
  {
    var a, b := Locations(gs), [gs[0].loc] + Locations(gs[1..]);
    assert |a| == |b|;
    forall i | 0 <= i < |a|
      ensures a[i] == b[i]
    {
      if i > 0 {
        assert b[i] == Locations(gs[1..])[i - 1] == gs[1..][i - 1].loc;
      }
    }
  }

  /** A location has processed employees. */
  predicate Staffed(rs: seq<PayResult>, loc: string) {
    AtLocation(rs, loc) != []
  }

  /** byLoc: one entry per listed location that has employees, in the
      order of the location list, each with that location's results and
      their totals. A location listed twice gets two entries. */
  function ByLoc(locs: seq<string>, rs: seq<PayResult>): (gs: seq<LocGroup>)
    requires Balanced(rs)
    ensures |gs| <= |locs|
    ensures forall g :: g in gs ==>
      && g.loc in locs
      && g.results != []
      && g.results == AtLocation(rs, g.loc)
      && g.totals.gross == Sum(g.results, Gross)
      && g.totals.ded == Sum(g.results, Deductions)
      && g.totals.net == g.totals.gross - g.totals.ded
    ensures forall loc :: loc in locs && AtLocation(rs, loc) != [] ==>
      exists g :: g in gs && g.loc == loc
    decreases |locs|
  {
    if locs == [] then []
    else
      var here := AtLocation(rs, locs[0]);
      FilterBalanced(rs, (x: PayResult) => x.emp.location == locs[0]);
      var rest := ByLoc(locs[1..], rs);
      if here == [] then rest else [LocGroup(locs[0], here, TotalsOf(here))] + rest
  }

  /** The entries follow the location list: exactly the listed locations
      that have employees, in the list's order and as often as listed. */
  lemma {:induction false} ByLocOrder(locs: seq<string>, rs: seq<PayResult>)
    requires Balanced(rs)
    ensures Locations(ByLoc(locs, rs)) == Filter(locs, (loc: string) => Staffed(rs, loc))
    decreases |locs|
  {
    if locs != [] {
      var staffed := (loc: string) => Staffed(rs, loc);
      var gs, rest := ByLoc(locs, rs), ByLoc(locs[1..], rs);
      ByLocOrder(locs[1..], rs);
      assert Filter(locs, staffed) == (if staffed(locs[0]) then [locs[0]] else []) + Filter(locs[1..], staffed);
      if Staffed(rs, locs[0]) {
        assert gs[0].loc == locs[0] && gs[1..] == rest;
        LocationsCons(gs);
      } else {
        assert gs == rest;
      }
    }
  }

  /** Each location has at most one entry when the location list names
      each location at most once. */
  lemma ByLocOncePerLocation(locs: seq<string>, rs: seq<PayResult>, loc: string)
    requires Balanced(rs)
    requires multiset(locs)[loc] <= 1
    ensures multiset(Locations(ByLoc(locs, rs)))[loc] <= 1
  {
    ByLocOrder(locs, rs);
    FilterCount(locs, (l: string) => Staffed(rs, l), loc);
  }

  /** Every processed employee at a listed location is in that location's
      entry, and every result in an entry is at the entry's location. */
  lemma ByLocMembers(locs: seq<string>, rs: seq<PayResult>, x: PayResult)
    requires Balanced(rs)
    requires x in rs && x.emp.location in locs
    ensures exists g :: g in ByLoc(locs, rs) && g.loc == x.emp.location && x in g.results
    ensures forall g, y :: g in ByLoc(locs, rs) && y in g.results ==> y in rs && y.emp.location == g.loc
  {
    var loc := x.emp.location;
    var gs := ByLoc(locs, rs);
    assert x in AtLocation(rs, loc);
    assert forall l :: l in locs && AtLocation(rs, l) != [] ==> exists g :: g in gs && g.loc == l;
    var g :| g in gs && g.loc == loc;
    assert x in g.results;
  }
}

/** What every table of the tax engine shares: rows over a closed range
    [li, ls] whose top may be JavaScript's Infinity. */
module Tables {
  import opened Money

  datatype Option<T> = None | Some(value: T)

  /** A row's upper bound: a finite amount or JavaScript's Infinity. */
  datatype Upper = Finite(v: real) | Infinity

  predicate AtMost(x: real, u: Upper) {
    u.Infinity? || x <= u.v
  }

  /** x lies in the closed range [lo, hi]. */
  predicate Within(x: real, lo: real, hi: Upper) {
    lo <= x && AtMost(x, hi)
  }

  /** Math.min(x, hi). */
  function MinUpper(x: real, hi: Upper): (r: real)
    ensures r <= x && AtMost(r, hi)
    ensures AtMost(x, hi) ==> r == x
    ensures hi.Finite? && hi.v < x ==> r == hi.v
  {
    match hi
    case Infinity => x
    case Finite(v) => if x <= v then x else v
  }

  /** Rows whose lower bounds are whole cents, each row starting exactly
      one cent above the previous row's upper bound, the last row
      unbounded: the shape of the Mexican ISR and subsidy tables. */
  ghost predicate CentSteps<T>(rows: seq<T>, lo: T -> real, hi: T -> Upper) {
    && |rows| > 0
    && hi(rows[|rows| - 1]).Infinity?
    && (forall i :: 0 <= i < |rows| ==> IsCents(lo(rows[i])))
    && (forall i, j :: 0 <= i < j < |rows| && j == i + 1 ==>
          hi(rows[i]).Finite? && lo(rows[j]) == hi(rows[i]).v + 0.01)
  }

  /** In a one-cent-step table, a whole-cent amount above row k's top
      reaches row k + 1. */
  lemma CentStepsNext<T>(rows: seq<T>, lo: T -> real, hi: T -> Upper, x: real, k: nat)
    requires CentSteps(rows, lo, hi) && k < |rows|
    requires IsCents(x) && !AtMost(x, hi(rows[k]))
    ensures k + 1 < |rows| && lo(rows[k + 1]) <= x
  {
    assert k + 1 < |rows|;
    var top := hi(rows[k]).v;
    assert lo(rows[k + 1]) == top + 0.01;
    assert IsCents(lo(rows[k + 1]));
    assert IsCents(top) by {
      assert top == lo(rows[k + 1]) - 0.01;
      CentsDifference(lo(rows[k + 1]), 0.01);
    }
    CentsApart(x, top);
  }

  /** From row k on, a one-cent-step table covers every whole-cent amount at
      or above row k's lower bound. */
  lemma {:induction false} CentStepsCoverFrom<T>(rows: seq<T>, lo: T -> real, hi: T -> Upper, x: real, k: nat)
    requires CentSteps(rows, lo, hi) && k < |rows|
    requires IsCents(x) && lo(rows[k]) <= x
    ensures exists i :: k <= i < |rows| && Within(x, lo(rows[i]), hi(rows[i]))
    decreases |rows| - k
  {
    if AtMost(x, hi(rows[k])) {
      assert Within(x, lo(rows[k]), hi(rows[k]));
    } else {
      CentStepsNext(rows, lo, hi, x, k);
      CentStepsCoverFrom(rows, lo, hi, x, k + 1);
    }
  }

  /** A one-cent-step table leaves no whole-cent amount at or above its
      first lower bound uncovered: only an amount with a fraction of a cent
      can fall into one of its gaps. */
  lemma CentStepsCover<T>(rows: seq<T>, lo: T -> real, hi: T -> Upper, x: real)
    requires CentSteps(rows, lo, hi)
    requires IsCents(x) && lo(rows[0]) <= x
    ensures exists i :: 0 <= i < |rows| && Within(x, lo(rows[i]), hi(rows[i]))
  {
    CentStepsCoverFrom(rows, lo, hi, x, 0);
  }
}

/**
 * IRRSolver (`compute_irr`): the internal rate of return of a yearly cash-flow
 * series, searched by bisection on [-0.9, 1.0]. A series whose flows never
 * change sign has no rate of return and gives None.
 */
module Irr {
  import opened Numeric

  /**
   * Net present value at `rate`: flow t is divided by (1 + rate)^t, summed left
   * to right as Python's `sum` over `enumerate` does.
   */
  function Npv(cashflows: seq<real>, rate: real): real
    requires rate > -1.0
  {
    if cashflows == [] then 0.0
    else
      var t := |cashflows| - 1;
      PowPositive(1.0 + rate, t);
      Npv(cashflows[..t], rate) + cashflows[t] / Pow(1.0 + rate, t)
  }

  /** Every flow is >= 0, or every flow is <= 0 (true of the empty series). */
  predicate NoSignChange(cashflows: seq<real>) {
    || (forall i :: 0 <= i < |cashflows| ==> cashflows[i] >= 0.0)
    || (forall i :: 0 <= i < |cashflows| ==> cashflows[i] <= 0.0)
  }

  /** Where a bisection run stopped: its last bracket, the midpoint it returns, and whether |NPV| < tol was reached. */
  datatype Probe = Probe(low: real, high: real, mid: real, converged: bool)

  /**
   * `iters` bisection steps from [low, high]: stop at the midpoint when its NPV
   * is within `tol` of zero or the steps run out; otherwise keep the half whose
   * lower end has a positive NPV.
   */
  function Bisect(cashflows: seq<real>, tol: real, low: real, high: real, iters: nat): (p: Probe)
    requires -1.0 < low < high && iters >= 1
    decreases iters
    ensures low <= p.low < p.mid < p.high <= high
    ensures p.mid == (p.low + p.high) / 2.0
    ensures p.converged ==> Abs(Npv(cashflows, p.mid)) < tol
    ensures !p.converged ==> Abs(Npv(cashflows, p.mid)) >= tol || iters == 1
  {
    var mid := (low + high) / 2.0;
    var npv := Npv(cashflows, mid);
    if Abs(npv) < tol then Probe(low, high, mid, true)
    else if iters == 1 then Probe(low, high, mid, false)
    else if npv > 0.0 then Bisect(cashflows, tol, mid, high, iters - 1)
    else Bisect(cashflows, tol, low, mid, iters - 1)
  }

  /** The rate `compute_irr` returns. */
  function IrrOf(cashflows: seq<real>, tol: real, maxIter: int): Option<real>
    requires maxIter >= 1 || NoSignChange(cashflows)
  {
    if NoSignChange(cashflows) then None
    else Some(Bisect(cashflows, tol, -0.9, 1.0, maxIter).mid)
  }

  method ComputeIrr(cashflows: seq<real>, tol: real, maxIter: int) returns (irr: Option<real>)
    requires maxIter >= 1 || NoSignChange(cashflows)
    ensures irr.None? <==> NoSignChange(cashflows)
    ensures irr.Some? ==> -0.9 < irr.value < 1.0
    ensures irr == IrrOf(cashflows, tol, maxIter)
  {
    if NoSignChange(cashflows) {
      return None;
    }
    ghost var target := Bisect(cashflows, tol, -0.9, 1.0, maxIter);
    var low, high := -0.9, 1.0;
    var mid := 0.0;
    var i := 0;
    while i < maxIter
      invariant 0 <= i <= maxIter
      invariant -0.9 <= low < high <= 1.0
      invariant i < maxIter ==> Bisect(cashflows, tol, low, high, maxIter - i) == target
      invariant i == maxIter ==> mid == target.mid
    {
      mid := (low + high) / 2.0;
      var npv := Npv(cashflows, mid);
      if Abs(npv) < tol {
        return Some(mid);
      }
      if npv > 0.0 {
        low := mid;
      } else {
        high := mid;
      }
      i := i + 1;
    }
    return Some(mid);
  }

  // ---------------------------------------------------------------------------
  // What a bisection run guarantees
  // ---------------------------------------------------------------------------

  /**
   * The search keeps a bracket: a lower end that has moved off `low0` has a
   * positive NPV, an upper end that has moved off `high0` a non-positive NPV.
   */
  predicate Brackets(cashflows: seq<real>, low: real, high: real, low0: real, high0: real)
    requires low > -1.0 && high > -1.0
  {
    && (low == low0 || Npv(cashflows, low) > 0.0)
    && (high == high0 || Npv(cashflows, high) <= 0.0)
  }

  lemma {:induction false} BisectKeepsBracket(cashflows: seq<real>, tol: real, low: real, high: real, iters: nat,
                                              low0: real, high0: real)
    requires -1.0 < low < high && iters >= 1
    requires Brackets(cashflows, low, high, low0, high0)
    decreases iters
    ensures Brackets(cashflows, Bisect(cashflows, tol, low, high, iters).low,
                     Bisect(cashflows, tol, low, high, iters).high, low0, high0)
  {
    var mid := (low + high) / 2.0;
    var npv := Npv(cashflows, mid);
    if Abs(npv) >= tol && iters > 1 {
      if npv > 0.0 {
        BisectKeepsBracket(cashflows, tol, mid, high, iters - 1, low0, high0);
      } else {
        BisectKeepsBracket(cashflows, tol, low, mid, iters - 1, low0, high0);
      }
    }
  }

  /** `w` halved `n` times. */
  function Halved(w: real, n: nat): real
    decreases n
  {
    if n == 0 then w else Halved(w / 2.0, n - 1)
  }

  lemma {:induction false} HalvedTimesPower(w: real, n: nat)
    decreases n
    ensures Halved(w, n) * Pow(2.0, n) == w
  {
    if n > 0 {
      HalvedTimesPower(w / 2.0, n - 1);
      assert Halved(w, n) * Pow(2.0, n) == 2.0 * (Halved(w / 2.0, n - 1) * Pow(2.0, n - 1));
    }
  }

  /** A run that used all its steps halved the bracket once per step but the last. */
  lemma {:induction false} BisectHalvesBracket(cashflows: seq<real>, tol: real, low: real, high: real, iters: nat)
    requires -1.0 < low < high && iters >= 1
    requires !Bisect(cashflows, tol, low, high, iters).converged
    decreases iters
    ensures Bisect(cashflows, tol, low, high, iters).high - Bisect(cashflows, tol, low, high, iters).low
              == Halved(high - low, iters - 1)
  {
    var mid := (low + high) / 2.0;
    if iters > 1 && Abs(Npv(cashflows, mid)) >= tol {
      if Npv(cashflows, mid) > 0.0 {
        BisectHalvesBracket(cashflows, tol, mid, high, iters - 1);
        assert high - mid == (high - low) / 2.0;
      } else {
        BisectHalvesBracket(cashflows, tol, low, mid, iters - 1);
        assert mid - low == (high - low) / 2.0;
      }
    }
  }

  /**
   * The rate returned for a series with a sign change lies strictly inside
   * (-0.9, 1.0), so 1 + rate > 0.1; either its NPV is within `tol` of zero,
   * or all `maxIter` steps were used and it is the midpoint of a bracket of
   * width 1.9 halved maxIter - 1 times whose moved ends have NPVs of opposite signs.
   */
  lemma IrrOutcome(cashflows: seq<real>, tol: real, maxIter: int)
    requires maxIter >= 1 && !NoSignChange(cashflows)
    ensures IrrOf(cashflows, tol, maxIter) == Some(Bisect(cashflows, tol, -0.9, 1.0, maxIter).mid)
    ensures -0.9 < IrrOf(cashflows, tol, maxIter).value < 1.0
    ensures 1.0 + IrrOf(cashflows, tol, maxIter).value > 0.1
    ensures Bisect(cashflows, tol, -0.9, 1.0, maxIter).converged ==>
              Abs(Npv(cashflows, IrrOf(cashflows, tol, maxIter).value)) < tol
    ensures !Bisect(cashflows, tol, -0.9, 1.0, maxIter).converged ==>
              (Bisect(cashflows, tol, -0.9, 1.0, maxIter).high - Bisect(cashflows, tol, -0.9, 1.0, maxIter).low)
                 == Halved(1.9, maxIter - 1)
    ensures Brackets(cashflows, Bisect(cashflows, tol, -0.9, 1.0, maxIter).low,
                     Bisect(cashflows, tol, -0.9, 1.0, maxIter).high, -0.9, 1.0)
  {
    BisectKeepsBracket(cashflows, tol, -0.9, 1.0, maxIter, -0.9, 1.0);
    if !Bisect(cashflows, tol, -0.9, 1.0, maxIter).converged {
      BisectHalvesBracket(cashflows, tol, -0.9, 1.0, maxIter);
      assert 1.0 - -0.9 == 1.9;
    }
  }

  function Sum(xs: seq<real>): real {
    if xs == [] then 0.0 else Sum(xs[..|xs| - 1]) + xs[|xs| - 1]
  }

  lemma {:induction false} PowOne(n: nat)
    ensures Pow(1.0, n) == 1.0
  {
    if n > 0 {
      PowOne(n - 1);
    }
  }

  /** At a zero rate nothing is discounted: the NPV is the plain sum of the flows. */
  lemma {:induction false} NpvAtZeroRate(cashflows: seq<real>)
    ensures Npv(cashflows, 0.0) == Sum(cashflows)
  {
    if cashflows != [] {
      var t := |cashflows| - 1;
      NpvAtZeroRate(cashflows[..t]);
      PowOne(t);
    }
  }

  /** A series without a negative flow has no rate of return; nor has the empty series. */
  lemma NoRateWithoutOutlay(cashflows: seq<real>, tol: real, maxIter: int)
    requires forall i :: 0 <= i < |cashflows| ==> cashflows[i] >= 0.0
    ensures IrrOf(cashflows, tol, maxIter) == None
  {
  }

  /** An outlay followed by a return has a sign change, so a rate is returned. */
  lemma OutlayThenReturnHasRate(outlay: real, back: real, tol: real, maxIter: int)
    requires outlay < 0.0 && back > 0.0 && maxIter >= 1
    ensures IrrOf([outlay, back], tol, maxIter).Some?
  {
    assert [outlay, back][0] < 0.0;
    assert [outlay, back][1] > 0.0;
  }
}

/**
 * AmortizationScheduler (`build_amortization_schedule`): a constant-annuity
 * loan schedule, one row per year, each row paying the year's interest on the
 * balance carried in and repaying the rest of the annuity as principal, with
 * the balance floored at 0.
 */
module Amortization {
  import opened Numeric

  datatype AmortizationRow = AmortizationRow(
    year: int,
    payment: real,
    interest: real,
    principal: real,
    remaining: real)

  /** For x > 1, 1 - 1/x lies strictly between 0 and 1. */
  lemma OneMinusInverse(x: real)
    requires x > 1.0
    ensures 0.0 < 1.0 - 1.0 / x < 1.0
  {
    assert 1.0 / x < x / x;
  }

  /**
   * The constant annual payment: straight-line `debt / years` at a zero rate,
   * otherwise the annuity `debt * r / (1 - (1 + r)^-years)`.
   */
  function AnnualPayment(debt: real, rate: real, years: int): real
    requires rate >= 0.0 && years >= 1
  {
    if rate == 0.0 then debt / years as real
    else
      PowAboveOne(1.0 + rate, years);
      OneMinusInverse(Pow(1.0 + rate, years));
      debt * (rate / (1.0 - 1.0 / Pow(1.0 + rate, years)))
  }

  /** `count` rows numbered from `year`, starting from the balance `balance`. */
  function Rows(payment: real, rate: real, balance: real, year: int, count: nat): seq<AmortizationRow>
    decreases count
  {
    if count == 0 then []
    else
      var interest := balance * rate;
      var principal := payment - interest;
      var remaining := Max(0.0, balance - principal);
      [AmortizationRow(year, payment, interest, principal, remaining)]
        + Rows(payment, rate, remaining, year + 1, count - 1)
  }

  /** Inputs for which the source returns an empty schedule. */
  predicate NoLoan(debt: real, rate: real, years: int) {
    debt <= 0.0 || rate < 0.0 || years <= 0
  }

  function Schedule(debt: real, rate: real, years: int): seq<AmortizationRow> {
    if NoLoan(debt, rate, years) then []
    else Rows(AnnualPayment(debt, rate, years), rate, debt, 1, years)
  }

  method BuildAmortizationSchedule(debt: real, rate: real, years: int) returns (schedule: seq<AmortizationRow>)
    ensures schedule == Schedule(debt, rate, years)
  {
    if debt <= 0.0 || rate < 0.0 || years <= 0 {
      return [];
    }
    var r := rate;
    var n := years;
    var payment: real;
    if r == 0.0 {
      payment := debt / n as real;
    } else {
      PowAboveOne(1.0 + r, n);
      OneMinusInverse(Pow(1.0 + r, n));
      payment := debt * (r / (1.0 - 1.0 / Pow(1.0 + r, n)));
    }
    schedule := [];
    var remaining := debt;
    var year := 1;
    while year <= n
      invariant 1 <= year <= n + 1
      invariant schedule + Rows(payment, r, remaining, year, n - year + 1) == Rows(payment, r, debt, 1, n)
    {
      var interest := remaining * r;
      var principal := payment - interest;
      var next := Max(0.0, remaining - principal);
      var row := AmortizationRow(year, payment, interest, principal, next);
      assert Rows(payment, r, remaining, year, n - year + 1)
             == [row] + Rows(payment, r, next, year + 1, n - year);
      assert schedule + ([row] + Rows(payment, r, next, year + 1, n - year))
             == (schedule + [row]) + Rows(payment, r, next, year + 1, n - year);
      schedule := schedule + [row];
      remaining := next;
      year := year + 1;
    }
    assert Rows(payment, r, remaining, year, 0) == [];
    assert schedule + [] == schedule;
  }

  // ---------------------------------------------------------------------------
  // Shape of the schedule and the per-row recurrence
  // ---------------------------------------------------------------------------

  /** The balance a row starts from: the debt for the first row, else the previous row's remaining balance. */
  function BalanceBefore(debt: real, rows: seq<AmortizationRow>, i: nat): real
    requires i <= |rows|
  {
    if i == 0 then debt else rows[i - 1].remaining
  }

  predicate RowFollows(row: AmortizationRow, before: real, rate: real) {
    && row.interest == before * rate
    && row.principal == row.payment - row.interest
    && row.remaining == Max(0.0, before - row.principal)
    && row.remaining >= 0.0
  }

  lemma {:induction false} RowsShape(payment: real, rate: real, balance: real, year: int, count: nat)
    decreases count
    ensures |Rows(payment, rate, balance, year, count)| == count
    ensures forall i :: 0 <= i < count ==>
              Rows(payment, rate, balance, year, count)[i].year == year + i
              && Rows(payment, rate, balance, year, count)[i].payment == payment
    ensures forall i :: 0 <= i < count ==>
              RowFollows(Rows(payment, rate, balance, year, count)[i],
                         BalanceBefore(balance, Rows(payment, rate, balance, year, count), i), rate)
  {
    if count > 0 {
      var rows := Rows(payment, rate, balance, year, count);
      var next := Max(0.0, balance - (payment - balance * rate));
      var tail := Rows(payment, rate, next, year + 1, count - 1);
      RowsShape(payment, rate, next, year + 1, count - 1);
      assert rows == [rows[0]] + tail;
      forall i | 1 <= i < count
        ensures RowFollows(rows[i], BalanceBefore(balance, rows, i), rate)
      {
        assert rows[i] == tail[i - 1];
        assert BalanceBefore(balance, rows, i) == BalanceBefore(next, tail, i - 1);
      }
    }
  }

  /**
   * The schedule is empty exactly when debt <= 0, rate < 0 or years <= 0;
   * otherwise it has one row per year, numbered 1..years, all with the same
   * payment, and every row pays interest on the balance carried in, repays
   * payment - interest as principal and carries max(0, balance - principal).
   */
  lemma ScheduleShape(debt: real, rate: real, years: int)
    ensures Schedule(debt, rate, years) == [] <==> NoLoan(debt, rate, years)
    ensures !NoLoan(debt, rate, years) ==>
              var s := Schedule(debt, rate, years);
              && |s| == years
              && (forall i :: 0 <= i < |s| ==> s[i].year == i + 1 && s[i].payment == s[0].payment)
              && (forall i :: 0 <= i < |s| ==> RowFollows(s[i], BalanceBefore(debt, s, i), rate))
  {
    if !NoLoan(debt, rate, years) {
      RowsShape(AnnualPayment(debt, rate, years), rate, debt, 1, years);
    }
  }

  /** At a zero rate the payment is debt / years and no row pays interest. */
  lemma ZeroRateIsStraightLine(debt: real, years: int)
    requires debt > 0.0 && years >= 1
    ensures forall row :: row in Schedule(debt, 0.0, years) ==>
              row.payment == debt / years as real && row.interest == 0.0
  {
    var s := Schedule(debt, 0.0, years);
    ScheduleShape(debt, 0.0, years);
    forall row | row in s
      ensures row.payment == debt / years as real && row.interest == 0.0
    {
      var i :| 0 <= i < |s| && s[i] == row;
      assert s[i].payment == s[0].payment;
    }
  }

  // ---------------------------------------------------------------------------
  // The balance never increases
  // ---------------------------------------------------------------------------

  /** The annual payment covers at least the first year's interest. */
  lemma PaymentCoversInterest(debt: real, rate: real, years: int)
    requires debt > 0.0 && rate >= 0.0 && years >= 1
    ensures AnnualPayment(debt, rate, years) >= debt * rate
  {
    if rate > 0.0 {
      PowAboveOne(1.0 + rate, years);
      var q := 1.0 - 1.0 / Pow(1.0 + rate, years);
      OneMinusInverse(Pow(1.0 + rate, years));
      assert rate / q >= rate by {
        assert rate / q * q == rate;
        assert rate * q <= rate;
      }
      assert debt * (rate / q) >= debt * rate;
    } else {
      assert debt / years as real >= 0.0;
    }
  }

  predicate Shrinks(row: AmortizationRow, before: real, bound: real) {
    row.principal >= 0.0 && row.remaining <= before && row.remaining <= bound
  }

  lemma {:induction false} RowsNonIncreasing(payment: real, rate: real, balance: real, bound: real, year: int, count: nat)
    requires rate >= 0.0 && 0.0 <= balance <= bound && payment >= bound * rate
    decreases count
    ensures forall i :: 0 <= i < |Rows(payment, rate, balance, year, count)| ==>
              Shrinks(Rows(payment, rate, balance, year, count)[i],
                      BalanceBefore(balance, Rows(payment, rate, balance, year, count), i), bound)
  {
    if count > 0 {
      var rows := Rows(payment, rate, balance, year, count);
      var interest := balance * rate;
      assert interest <= bound * rate;
      var next := Max(0.0, balance - (payment - interest));
      var tail := Rows(payment, rate, next, year + 1, count - 1);
      assert rows == [AmortizationRow(year, payment, interest, payment - interest, next)] + tail;
      RowsNonIncreasing(payment, rate, next, bound, year + 1, count - 1);
      forall i | 0 <= i < |rows|
        ensures Shrinks(rows[i], BalanceBefore(balance, rows, i), bound)
      {
        if i > 0 {
          assert rows[i] == tail[i - 1];
          assert BalanceBefore(balance, rows, i) == BalanceBefore(next, tail, i - 1);
          assert Shrinks(tail[i - 1], BalanceBefore(next, tail, i - 1), bound);
        } else {
          assert rows[0].principal == payment - interest >= 0.0;
          assert rows[0].remaining == next <= balance;
        }
      }
    }
  }

  /**
   * Every row repays a non-negative principal, so the remaining balance never
   * increases from one row to the next and never exceeds the debt.
   */
  lemma ScheduleBalanceNonIncreasing(debt: real, rate: real, years: int)
    ensures forall i :: 0 <= i < |Schedule(debt, rate, years)| ==>
              var s := Schedule(debt, rate, years);
              && s[i].principal >= 0.0
              && 0.0 <= s[i].remaining <= BalanceBefore(debt, s, i)
              && s[i].remaining <= debt
  {
    if !NoLoan(debt, rate, years) {
      PaymentCoversInterest(debt, rate, years);
      RowsShape(AnnualPayment(debt, rate, years), rate, debt, 1, years);
      RowsNonIncreasing(AnnualPayment(debt, rate, years), rate, debt, debt, 1, years);
      var s := Schedule(debt, rate, years);
      assert forall i :: 0 <= i < |s| ==> Shrinks(s[i], BalanceBefore(debt, s, i), debt);
    }
  }

  // ---------------------------------------------------------------------------
  // In exact arithmetic the schedule repays the debt exactly
  // ---------------------------------------------------------------------------

  function TotalPrincipal(rows: seq<AmortizationRow>): real {
    if rows == [] then 0.0 else rows[0].principal + TotalPrincipal(rows[1..])
  }

  /** The balance left after the rows: the last row's remaining balance, or `start` when there are none. */
  function FinalBalance(start: real, rows: seq<AmortizationRow>): real {
    if rows == [] then start else rows[|rows| - 1].remaining
  }

  /** The annuity payment a satisfies a * ((1+r)^n - 1) == D r (1+r)^n. */
  lemma AnnuityPaymentForm(debt: real, rate: real, years: int)
    requires rate > 0.0 && years >= 1
    ensures Pow(1.0 + rate, years) > 1.0
    ensures AnnualPayment(debt, rate, years) * (Pow(1.0 + rate, years) - 1.0)
              == debt * rate * Pow(1.0 + rate, years)
  {
    var p := Pow(1.0 + rate, years);
    PowAboveOne(1.0 + rate, years);
    OneMinusInverse(p);
    PaymentAlgebra(debt, rate, p, AnnualPayment(debt, rate, years));
  }

  lemma PaymentAlgebra(d: real, r: real, p: real, a: real)
    requires p > 1.0 && 1.0 - 1.0 / p != 0.0
    requires a == d * (r / (1.0 - 1.0 / p))
    ensures a * (p - 1.0) == d * r * p
  {
    var u := 1.0 - 1.0 / p;
    assert u * p == p - 1.0;
    assert (r / u) * u == r;
    calc {
      a * (p - 1.0);
      d * (r / u) * (u * p);
      d * ((r / u) * u) * p;
      d * r * p;
    }
  }

  /** One annuity year in closed form: b q == D (P - P^k) gives next q == D (P - P^(k+1)). */
  lemma AnnuityStepAlgebra(d: real, r: real, p: real, q: real, a: real, b: real, pk: real, pk1: real)
    requires b * q == d * (p - pk) && a * q == d * r * p && pk1 == (1.0 + r) * pk
    ensures (b - (a - b * r)) * q == d * (p - pk1)
  {
    calc {
      (b - (a - b * r)) * q;
      (b * q) * (1.0 + r) - a * q;
      d * (p - pk) * (1.0 + r) - d * r * p;
      d * (p - pk1);
    }
  }

  lemma NonNegativeFactor(x: real, q: real, y: real)
    requires x * q == y && y >= 0.0 && q > 0.0
    ensures x >= 0.0
  {
  }

  /** One row whose balance stays above the floor: it repays `a - b r` and leaves `b - (a - b r)`. */
  lemma UnflooredRow(a: real, r: real, b: real, year: int, count: nat)
    requires count >= 1 && b - (a - b * r) >= 0.0
    ensures Rows(a, r, b, year, count)
              == [AmortizationRow(year, a, b * r, a - b * r, b - (a - b * r))]
                 + Rows(a, r, b - (a - b * r), year + 1, count - 1)
  {
  }

  /** A first row that repays part of `b` and leaves the rest, followed by rows that repay the rest. */
  lemma Telescope(b: real, row: AmortizationRow, tail: seq<AmortizationRow>)
    requires row.principal + row.remaining == b
    requires FinalBalance(row.remaining, tail) == 0.0 && TotalPrincipal(tail) == row.remaining
    ensures FinalBalance(b, [row] + tail) == 0.0
    ensures TotalPrincipal([row] + tail) == b
  {
    var rows := [row] + tail;
    assert rows[1..] == tail;
    if tail != [] {
      assert rows[|rows| - 1] == tail[|tail| - 1];
    }
  }

  /** Rows whose every year stays unfloored repay the principal sum and leave the final balance. */
  lemma RowsTelescope(a: real, r: real, b: real, year: int, count: nat, next: real)
    requires count >= 1 && next == b - (a - b * r) && next >= 0.0
    requires FinalBalance(next, Rows(a, r, next, year + 1, count - 1)) == 0.0
    requires TotalPrincipal(Rows(a, r, next, year + 1, count - 1)) == next
    ensures FinalBalance(b, Rows(a, r, b, year, count)) == 0.0
    ensures TotalPrincipal(Rows(a, r, b, year, count)) == b
  {
    UnflooredRow(a, r, b, year, count);
    Telescope(b, AmortizationRow(year, a, b * r, a - b * r, next), Rows(a, r, next, year + 1, count - 1));
  }

  /** One annuity year keeps the balance in closed form and non-negative. */
  lemma AnnuityStep(d: real, r: real, n: nat, k: nat, a: real, b: real)
    requires d >= 0.0 && r > 0.0 && k < n
    requires Pow(1.0 + r, n) > 1.0
    requires a * (Pow(1.0 + r, n) - 1.0) == d * r * Pow(1.0 + r, n)
    requires b * (Pow(1.0 + r, n) - 1.0) == d * (Pow(1.0 + r, n) - Pow(1.0 + r, k))
    ensures (b - (a - b * r)) * (Pow(1.0 + r, n) - 1.0) == d * (Pow(1.0 + r, n) - Pow(1.0 + r, k + 1))
    ensures b - (a - b * r) >= 0.0
  {
    var p := Pow(1.0 + r, n);
    var pk1 := Pow(1.0 + r, k + 1);
    AnnuityStepAlgebra(d, r, p, p - 1.0, a, b, Pow(1.0 + r, k), pk1);
    PowMonotone(1.0 + r, k + 1, n);
    ProductNonNegative(d, p - pk1);
    NonNegativeFactor(b - (a - b * r), p - 1.0, d * (p - pk1));
  }

  lemma ProductNonNegative(x: real, y: real)
    requires x >= 0.0 && y >= 0.0
    ensures x * y >= 0.0
  {
  }

  /**
   * From year k of n on, a balance b with b ((1+r)^n - 1) == D ((1+r)^n - (1+r)^k)
   * never hits the floor, ends at exactly 0, and the principal repaid sums to b.
   */
  lemma {:induction false} AnnuityRowsRepay(d: real, r: real, n: nat, k: nat, a: real, b: real, year: int)
    requires d >= 0.0 && r > 0.0 && k <= n
    requires Pow(1.0 + r, n) > 1.0
    requires a * (Pow(1.0 + r, n) - 1.0) == d * r * Pow(1.0 + r, n)
    requires b * (Pow(1.0 + r, n) - 1.0) == d * (Pow(1.0 + r, n) - Pow(1.0 + r, k))
    decreases n - k
    ensures FinalBalance(b, Rows(a, r, b, year, n - k)) == 0.0
    ensures TotalPrincipal(Rows(a, r, b, year, n - k)) == b
  {
    var p := Pow(1.0 + r, n);
    var q := p - 1.0;
    if k == n {
      NonNegativeFactor(b, q, 0.0);
      NonNegativeFactor(-b, q, 0.0);
    } else {
      var next := b - (a - b * r);
      AnnuityStep(d, r, n, k, a, b);
      AnnuityRowsRepay(d, r, n, k + 1, a, next, year + 1);
      RowsTelescope(a, r, b, year, n - k, next);
    }
  }

  /** The straight-line counterpart: a balance b with b n == D (n - k) is repaid exactly. */
  lemma {:induction false} StraightLineRowsRepay(d: real, n: nat, k: nat, a: real, b: real, year: int)
    requires d >= 0.0 && 1 <= n && k <= n
    requires a * n as real == d && b * n as real == d * (n - k) as real
    decreases n - k
    ensures FinalBalance(b, Rows(a, 0.0, b, year, n - k)) == 0.0
    ensures TotalPrincipal(Rows(a, 0.0, b, year, n - k)) == b
  {
    if k == n {
      NonNegativeFactor(b, n as real, 0.0);
      NonNegativeFactor(-b, n as real, 0.0);
    } else {
      var next := b - (a - b * 0.0);
      assert next * n as real == d * (n - k - 1) as real;
      NonNegativeFactor(next, n as real, d * (n - k - 1) as real);
      StraightLineRowsRepay(d, n, k + 1, a, next, year + 1);
      RowsTelescope(a, 0.0, b, year, n - k, next);
    }
  }

  /**
   * Computed exactly, a schedule pays the whole debt back: the last row's
   * remaining balance is 0 and the principal column sums to the debt.
   */
  lemma ScheduleRepaysDebt(debt: real, rate: real, years: int)
    requires !NoLoan(debt, rate, years)
    ensures |Schedule(debt, rate, years)| == years
    ensures Schedule(debt, rate, years)[years - 1].remaining == 0.0
    ensures TotalPrincipal(Schedule(debt, rate, years)) == debt
  {
    var a := AnnualPayment(debt, rate, years);
    var rows := Rows(a, rate, debt, 1, years);
    assert Schedule(debt, rate, years) == rows;
    RowsLength(a, rate, debt, 1, years);
    if rate == 0.0 {
      StraightLineRepaysDebt(debt, years, a);
    } else {
      AnnuityRepaysDebt(debt, rate, years, a);
    }
    assert rows != [];
    assert FinalBalance(debt, rows) == rows[years - 1].remaining;
  }

  lemma {:induction false} RowsLength(payment: real, rate: real, balance: real, year: int, count: nat)
    decreases count
    ensures |Rows(payment, rate, balance, year, count)| == count
  {
    if count > 0 {
      RowsLength(payment, rate, Max(0.0, balance - (payment - balance * rate)), year + 1, count - 1);
    }
  }

  lemma StraightLineRepaysDebt(debt: real, years: int, a: real)
    requires debt > 0.0 && years >= 1 && a == AnnualPayment(debt, 0.0, years)
    ensures FinalBalance(debt, Rows(a, 0.0, debt, 1, years)) == 0.0
    ensures TotalPrincipal(Rows(a, 0.0, debt, 1, years)) == debt
  {
    assert a == debt / years as real;
    assert a * years as real == debt;
    StraightLineRowsRepay(debt, years, 0, a, debt, 1);
  }

  lemma AnnuityRepaysDebt(debt: real, rate: real, years: int, a: real)
    requires debt > 0.0 && rate > 0.0 && years >= 1 && a == AnnualPayment(debt, rate, years)
    ensures FinalBalance(debt, Rows(a, rate, debt, 1, years)) == 0.0
    ensures TotalPrincipal(Rows(a, rate, debt, 1, years)) == debt
  {
    AnnuityPaymentForm(debt, rate, years);
    assert Pow(1.0 + rate, 0) == 1.0;
    AnnuityRowsRepay(debt, rate, years, 0, a, debt, 1);
  }
}

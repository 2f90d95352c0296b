/** The monthly repayment loop shared by the EMI, loan-amount, interest-rate,
    tenure and debt-payoff screens: each month the balance earns one month's
    interest and the payment is taken off it. Everything here is exact
    arithmetic on reals; rounding happens only when a row is displayed. */
module Amortization {
  import opened Numeric

  /** One pass of the loop body: `interest = balance * rate`,
      `principalPaid = payment - interest`, `balance -= principalPaid`. */
  datatype Month = Month(interest: real, principalPaid: real, balance: real)

  /** The balance the loop body leaves behind. */
  function Next(balance: real, rate: real, payment: real): real
  {
    balance - (payment - balance * rate)
  }

  function Step(balance: real, rate: real, payment: real): (m: Month)
    ensures m.interest + m.principalPaid == payment
    ensures m.balance == Next(balance, rate, payment)
  {
    var interest := balance * rate;
    Month(interest, payment - interest, balance - (payment - interest))
  }

  /** The balance after `k` months of the loop. */
  function Balance(loan: real, rate: real, payment: real, k: nat): real
  {
    if k == 0 then loan else Next(Balance(loan, rate, payment, k - 1), rate, payment)
  }

  /** Month `i + 1` of the loop (counting from zero). */
  function MonthAt(loan: real, rate: real, payment: real, i: nat): Month
  {
    Step(Balance(loan, rate, payment, i), rate, payment)
  }

  /** Running the loop for `k` months is one month from the loan followed by
      `k - 1` months from the balance that month leaves. */
  lemma {:induction false} BalanceFront(loan: real, rate: real, payment: real, k: nat)
    requires k >= 1
    ensures Balance(loan, rate, payment, k) == Balance(Next(loan, rate, payment), rate, payment, k - 1)
    decreases k
  {
    if k > 1 {
      BalanceFront(loan, rate, payment, k - 1);
    }
  }

  /** The balance in closed form: the loan compounded for `k` months, less
      every payment compounded from the month it was made. */
  lemma {:induction false} BalanceClosed(loan: real, rate: real, payment: real, k: nat)
    ensures Balance(loan, rate, payment, k) == loan * Pow(1.0 + rate, k) - payment * GeomSum(1.0 + rate, k)
    decreases k
  {
    if k == 0 {
      assert Pow(1.0 + rate, k) == 1.0 && GeomSum(1.0 + rate, k) == 0.0;
    } else {
      BalanceClosed(Next(loan, rate, payment), rate, payment, k - 1);
      ClosedStep(loan, rate, payment, k);
    }
  }

  /** One month of `BalanceClosed`: the closed form for the balance the first
      month leaves gives the closed form for the loan. */
  lemma ClosedStep(loan: real, rate: real, payment: real, k: nat)
    requires k >= 1
    requires var next := Next(loan, rate, payment);
             Balance(next, rate, payment, k - 1) == next * Pow(1.0 + rate, k - 1) - payment * GeomSum(1.0 + rate, k - 1)
    ensures Balance(loan, rate, payment, k) == loan * Pow(1.0 + rate, k) - payment * GeomSum(1.0 + rate, k)
  {
    var next := Next(loan, rate, payment);
    var p, g := Pow(1.0 + rate, k - 1), GeomSum(1.0 + rate, k - 1);
    var p', g' := Pow(1.0 + rate, k), GeomSum(1.0 + rate, k);
    assert p' == (1.0 + rate) * p && g' == g + p;
    BalanceFront(loan, rate, payment, k);
    FrontAlgebra(loan, rate, payment, next, p, g, p', g');
  }

  /** The algebra of one step of `BalanceClosed`. */
  lemma FrontAlgebra(loan: real, rate: real, payment: real, next: real, p: real, g: real, p': real, g': real)
    requires next == loan - (payment - loan * rate)
    requires p' == (1.0 + rate) * p && g' == g + p
    ensures next * p - payment * g == loan * p' - payment * g'
  {
  }

  /** The level payment that repays `loan` in exactly `n` months at monthly
      rate `rate`: `loan * r * q^n / (q^n - 1)` with `q = 1 + r`. Defined
      whenever the denominator is not zero (a zero rate makes it 0 / 0). */
  function Annuity(loan: real, rate: real, n: nat): (a: real)
    requires Pow(1.0 + rate, n) != 1.0
    ensures a * (Pow(1.0 + rate, n) - 1.0) == loan * rate * Pow(1.0 + rate, n)
  {
    loan * rate * Pow(1.0 + rate, n) / (Pow(1.0 + rate, n) - 1.0)
  }

  /** The principal that `n` payments of `payment` repay at monthly rate `rate`:
      `payment * (q^n - 1) / (r * q^n)`. */
  function PresentValue(payment: real, rate: real, n: nat): (v: real)
    requires rate * Pow(1.0 + rate, n) != 0.0
    ensures v * (rate * Pow(1.0 + rate, n)) == payment * (Pow(1.0 + rate, n) - 1.0)
  {
    payment * (Pow(1.0 + rate, n) - 1.0) / (rate * Pow(1.0 + rate, n))
  }

  lemma {:induction false} PowOne(n: nat)
    ensures Pow(1.0, n) == 1.0
    decreases n
  {
    if n > 0 {
      PowOne(n - 1);
    }
  }

  /** A non-zero rate: a zero rate makes every power of `1 + rate` equal to one. */
  lemma RateNonZero(rate: real, n: nat)
    requires Pow(1.0 + rate, n) != 1.0
    ensures rate != 0.0
  {
    if rate == 0.0 {
      PowOne(n);
      assert false;
    }
  }

  /** `rate * (1 + q + ... + q^(n-1)) == q^n - 1`. */
  lemma RateTimesGeom(rate: real, n: nat)
    ensures rate * GeomSum(1.0 + rate, n) == Pow(1.0 + rate, n) - 1.0
  {
    GeomSumClosed(1.0 + rate, n);
  }

  /** The annuity payment clears the loan: after `n` months the balance is exactly zero. */
  lemma AnnuityClears(loan: real, rate: real, n: nat)
    requires Pow(1.0 + rate, n) != 1.0
    ensures Balance(loan, rate, Annuity(loan, rate, n), n) == 0.0
  {
    BalanceClosed(loan, rate, Annuity(loan, rate, n), n);
    AnnuityTimesGeom(loan, rate, n);
  }

  /** The same for exponents of either sign. */
  lemma IRateNonZero(rate: real, n: int)
    requires 1.0 + rate != 0.0 || n >= 0
    requires IPow(1.0 + rate, n) != 1.0
    ensures rate != 0.0
  {
    if rate == 0.0 {
      if n >= 0 {
        PowOne(n);
      } else {
        PowOne(-n);
      }
      assert false;
    }
  }

  /** The `n` annuity payments, each compounded to month `n`, are worth the loan compounded to month `n`. */
  lemma AnnuityTimesGeom(loan: real, rate: real, n: nat)
    requires Pow(1.0 + rate, n) != 1.0
    ensures Annuity(loan, rate, n) * GeomSum(1.0 + rate, n) == loan * Pow(1.0 + rate, n)
  {
    RateTimesGeom(rate, n);
    RateNonZero(rate, n);
    AnnuityAlgebra(loan, rate, Pow(1.0 + rate, n), GeomSum(1.0 + rate, n), Annuity(loan, rate, n));
  }

  lemma AnnuityAlgebra(loan: real, rate: real, p: real, g: real, a: real)
    requires rate != 0.0 && rate * g == p - 1.0 && a * (p - 1.0) == loan * rate * p
    ensures a * g == loan * p
  {
    assert (a * g) * rate == a * (p - 1.0);
    Cancel(a * g, loan * p, rate);
  }

  /** The present value is repaid by its payments: after `n` months the balance is exactly zero. */
  lemma PresentValueClears(payment: real, rate: real, n: nat)
    requires rate * Pow(1.0 + rate, n) != 0.0
    ensures Balance(PresentValue(payment, rate, n), rate, payment, n) == 0.0
  {
    BalanceClosed(PresentValue(payment, rate, n), rate, payment, n);
    PresentValueTimesPow(payment, rate, n);
  }

  /** The present value compounded to month `n` is worth the `n` payments compounded to month `n`. */
  lemma PresentValueTimesPow(payment: real, rate: real, n: nat)
    requires rate * Pow(1.0 + rate, n) != 0.0
    ensures PresentValue(payment, rate, n) * Pow(1.0 + rate, n) == payment * GeomSum(1.0 + rate, n)
  {
    RateTimesGeom(rate, n);
    PresentValueAlgebra(payment, rate, Pow(1.0 + rate, n), GeomSum(1.0 + rate, n), PresentValue(payment, rate, n));
  }

  lemma PresentValueAlgebra(payment: real, rate: real, p: real, g: real, v: real)
    requires rate * p != 0.0 && rate * g == p - 1.0 && v * (rate * p) == payment * (p - 1.0)
    ensures v * p == payment * g
  {
    assert (v * p) * rate == (payment * g) * rate;
    Cancel(v * p, payment * g, rate);
  }

  /** Payment from principal and principal from payment are inverse to each other. */
  lemma AnnuityPresentValueInverse(loan: real, payment: real, rate: real, n: nat)
    requires rate != 0.0 && Pow(1.0 + rate, n) != 1.0 && Pow(1.0 + rate, n) != 0.0
    ensures PresentValue(Annuity(loan, rate, n), rate, n) == loan
    ensures Annuity(PresentValue(payment, rate, n), rate, n) == payment
  {
    InverseAlgebra(loan, rate, Pow(1.0 + rate, n), Annuity(loan, rate, n), PresentValue(Annuity(loan, rate, n), rate, n));
    InverseAlgebra'(payment, rate, Pow(1.0 + rate, n), PresentValue(payment, rate, n),
                    Annuity(PresentValue(payment, rate, n), rate, n));
  }

  lemma InverseAlgebra(loan: real, rate: real, p: real, a: real, v: real)
    requires rate != 0.0 && p != 1.0 && p != 0.0
    requires a * (p - 1.0) == loan * rate * p
    requires v * (rate * p) == a * (p - 1.0)
    ensures v == loan
  {
    assert v * (rate * p) == loan * (rate * p);
    Cancel(v, loan, rate * p);
  }

  lemma InverseAlgebra'(payment: real, rate: real, p: real, w: real, a: real)
    requires rate != 0.0 && p != 1.0 && p != 0.0
    requires w * (rate * p) == payment * (p - 1.0)
    requires a * (p - 1.0) == w * rate * p
    ensures a == payment
  {
    var c := p - 1.0;
    assert a * c == w * rate * p;
    assert w * rate * p == w * (rate * p);
    assert a * c == payment * c;
    Cancel(a, payment, c);
  }

  /** Each month repays `1 + rate` times the principal of the month before. */
  lemma PrincipalGrows(loan: real, rate: real, payment: real, i: nat)
    ensures MonthAt(loan, rate, payment, i + 1).principalPaid
         == (1.0 + rate) * MonthAt(loan, rate, payment, i).principalPaid
  {
    var b := Balance(loan, rate, payment, i);
    assert Balance(loan, rate, payment, i + 1) == b * (1.0 + rate) - payment;
    calc {
      MonthAt(loan, rate, payment, i + 1).principalPaid;
      payment - (b * (1.0 + rate) - payment) * rate;
      (1.0 + rate) * (payment - b * rate);
    }
  }

  /** `k` equal payments, the screens' `payment * months`. */
  function Paid(payment: real, k: int): real
  {
    payment * k as real
  }

  /** One more payment adds one payment to the total paid (the running `totalPaid += payment`). */
  lemma PaidSucc(payment: real, k: nat)
    ensures Paid(payment, k + 1) == Paid(payment, k) + payment
  {
  }

  /** Principal repaid in the first `k` months. */
  function PrincipalTotal(loan: real, rate: real, payment: real, k: nat): real
  {
    if k == 0 then 0.0 else PrincipalTotal(loan, rate, payment, k - 1) + MonthAt(loan, rate, payment, k - 1).principalPaid
  }

  /** Interest charged in the first `k` months. */
  function InterestTotal(loan: real, rate: real, payment: real, k: nat): real
  {
    if k == 0 then 0.0 else InterestTotal(loan, rate, payment, k - 1) + MonthAt(loan, rate, payment, k - 1).interest
  }

  /** The principal column adds up to what has been taken off the loan, and the
      interest column to the rest of the payments. */
  lemma {:induction false} ColumnTotals(loan: real, rate: real, payment: real, k: nat)
    ensures PrincipalTotal(loan, rate, payment, k) == loan - Balance(loan, rate, payment, k)
    ensures InterestTotal(loan, rate, payment, k) == Paid(payment, k) - (loan - Balance(loan, rate, payment, k))
    decreases k
  {
    if k > 0 {
      ColumnTotals(loan, rate, payment, k - 1);
    }
  }

  /** Under the annuity payment the principal column adds up to the loan and
      the interest column to the payments less the loan. */
  lemma AnnuityColumns(loan: real, rate: real, n: nat)
    requires Pow(1.0 + rate, n) != 1.0
    ensures PrincipalTotal(loan, rate, Annuity(loan, rate, n), n) == loan
    ensures InterestTotal(loan, rate, Annuity(loan, rate, n), n) == Paid(Annuity(loan, rate, n), n) - loan
  {
    AnnuityClears(loan, rate, n);
    ColumnTotals(loan, rate, Annuity(loan, rate, n), n);
  }

  // ---------------------------------------------------------------------
  // The rows as the screens push them.

  /** A pushed row: `{month, principalPaid, interest, totalPayment, balance}`,
      every figure rounded with `Math.round`. */
  datatype ChartRow = ChartRow(month: nat, principalPaid: int, interest: int, totalPayment: int, balance: int)

  /** `balance > 0 ? Math.round(balance) : '0'`: a paid-off or overpaid balance shows as zero. */
  function ShownBalance(b: real): (r: int)
    ensures r >= 0
    ensures b <= 0.0 ==> r == 0
    ensures b > 0.0 ==> r as real - 0.5 <= b < r as real + 0.5
  {
    if b > 0.0 then Round(b) else 0
  }

  /** The row pushed for month `i + 1`. */
  function Display(loan: real, rate: real, payment: real, i: nat): ChartRow
  {
    var m := MonthAt(loan, rate, payment, i);
    ChartRow(i + 1, Round(m.principalPaid), Round(m.interest), Round(payment), ShownBalance(m.balance))
  }

  /** The rows of the first `count` months. */
  function Chart(loan: real, rate: real, payment: real, count: nat): (rows: seq<ChartRow>)
  {
    seq(count, i requires 0 <= i => Display(loan, rate, payment, i))
  }

  /** The screens' `for` loop, statement by statement: it pushes exactly the
      rows of `Chart` and leaves `balance` at the closed-form balance. */
  method RunSchedule(loan: real, rate: real, payment: real, count: nat) returns (rows: seq<ChartRow>, balance: real)
    ensures rows == Chart(loan, rate, payment, count)
    ensures balance == Balance(loan, rate, payment, count)
    ensures forall i :: 0 <= i < count ==> rows[i].month == i + 1
  {
    balance := loan;
    rows := [];
    var i := 0;
    while i < count
      invariant 0 <= i <= count
      invariant balance == Balance(loan, rate, payment, i)
      invariant rows == Chart(loan, rate, payment, i)
    {
      var interest := balance * rate;
      var principalPaid := payment - interest;
      balance := balance - principalPaid;
      rows := rows + [ChartRow(i + 1, Round(principalPaid), Round(interest), Round(payment), ShownBalance(balance))];
      i := i + 1;
    }
  }

  /** The sum of the rounded principal column. */
  function RoundedPrincipal(rows: seq<ChartRow>): int
  {
    if |rows| == 0 then 0 else RoundedPrincipal(rows[..|rows| - 1]) + rows[|rows| - 1].principalPaid
  }

  /** The sum of the rounded interest column. */
  function RoundedInterest(rows: seq<ChartRow>): int
  {
    if |rows| == 0 then 0 else RoundedInterest(rows[..|rows| - 1]) + rows[|rows| - 1].interest
  }

  /** Rounding each row moves the column sums by at most half a unit per row. */
  lemma {:induction false} RoundedColumnsNear(loan: real, rate: real, payment: real, k: nat)
    ensures var rows := Chart(loan, rate, payment, k);
            var dp := RoundedPrincipal(rows) as real - PrincipalTotal(loan, rate, payment, k);
            var di := RoundedInterest(rows) as real - InterestTotal(loan, rate, payment, k);
            -(k as real) * 0.5 <= dp <= k as real * 0.5 && -(k as real) * 0.5 <= di <= k as real * 0.5
    decreases k
  {
    if k > 0 {
      RoundedColumnsNear(loan, rate, payment, k - 1);
      var rows := Chart(loan, rate, payment, k);
      assert rows[..k - 1] == Chart(loan, rate, payment, k - 1);
      var m := MonthAt(loan, rate, payment, k - 1);
      assert rows[k - 1].principalPaid == Round(m.principalPaid);
      assert rows[k - 1].interest == Round(m.interest);
    }
  }

  // ---------------------------------------------------------------------
  // Running the loop until the balance is paid off.

  /** The `while (balance > 0)` loop reaches a non-positive balance. */
  ghost predicate LoopEnds(loan: real, rate: real, payment: real)
  {
    exists k: nat :: Balance(loan, rate, payment, k) <= 0.0
  }

  /** The guard the tenure and payoff loops lack: nothing is owed, or the
      payment is positive and exceeds the first month's interest. */
  predicate Repayable(loan: real, rate: real, payment: real)
  {
    loan <= 0.0 || (payment > 0.0 && payment > loan * rate)
  }

  /** The least a month takes off any balance in `(0, loan]`. */
  function Drop(loan: real, rate: real, payment: real): real
  {
    if rate >= 0.0 then payment - loan * rate else payment
  }

  lemma DropPositive(loan: real, rate: real, payment: real)
    requires loan > 0.0 && Repayable(loan, rate, payment)
    ensures Drop(loan, rate, payment) > 0.0
  {
  }

  /** While the balance is positive and at most the loan, a month lowers it by at least `Drop`. */
  lemma StepDrops(loan: real, rate: real, payment: real, b: real)
    requires loan > 0.0 && Repayable(loan, rate, payment) && 0.0 < b <= loan
    ensures Next(b, rate, payment) <= b - Drop(loan, rate, payment)
  {
    if rate >= 0.0 {
      assert (loan - b) * rate >= 0.0;
    } else {
      assert b * rate < 0.0;
    }
  }

  /** A bound on the months still needed to clear a balance `b` when each takes off at least `d`. */
  function Remaining(b: real, d: real): nat
    requires d > 0.0
  {
    if b > 0.0 then
      assert b / d > 0.0;
      (b / d).Floor + 1
    else 0
  }

  lemma RemainingDecreases(b: real, b': real, d: real)
    requires d > 0.0 && b > 0.0 && b' <= b - d
    ensures Remaining(b', d) < Remaining(b, d)
  {
    if b' > 0.0 {
      QuotientBelow(b', b, d);
    }
  }

  /** Taking at least `d` off a balance takes at least 1 off its quotient by `d`. */
  lemma QuotientBelow(b': real, b: real, d: real)
    requires d > 0.0 && b' <= b - d
    ensures b' / d <= b / d - 1.0
  {
    var x, y := b' / d, b / d;
    DivCancel(b', d);
    DivCancel(b, d);
    assert (y - 1.0) * d == y * d - d;
    DivBelow(x, y - 1.0, d);
  }

  /** Comparing two quotients by comparing their products with a positive divisor. */
  lemma DivBelow(x: real, y: real, d: real)
    requires d > 0.0 && x * d <= y * d
    ensures x <= y
  {
    assert (y - x) * d >= 0.0;
  }

  /** Once the payment does not exceed the interest on the loan, the balance
      never falls below the loan: the loop runs forever. */
  lemma {:induction false} StuckBalance(loan: real, rate: real, payment: real, k: nat)
    requires loan > 0.0 && rate >= 0.0 && payment <= loan * rate
    ensures Balance(loan, rate, payment, k) >= loan
    decreases k
  {
    if k > 0 {
      StuckBalance(loan, rate, payment, k - 1);
      var b := Balance(loan, rate, payment, k - 1);
      assert (b - loan) * rate >= 0.0;
    }
  }

  /** Under the guard the loop ends: some month leaves a non-positive balance. */
  lemma {:induction false} PaidWithin(loan: real, rate: real, payment: real, j: nat)
    requires loan > 0.0 && Repayable(loan, rate, payment)
    requires Balance(loan, rate, payment, j) <= loan
    ensures exists k: nat :: k >= j && Balance(loan, rate, payment, k) <= 0.0
    decreases Remaining(Balance(loan, rate, payment, j), Drop(loan, rate, payment))
  {
    var b := Balance(loan, rate, payment, j);
    if b > 0.0 {
      DropPositive(loan, rate, payment);
      StepDrops(loan, rate, payment, b);
      RemainingDecreases(b, Balance(loan, rate, payment, j + 1), Drop(loan, rate, payment));
      PaidWithin(loan, rate, payment, j + 1);
    }
  }

  /** At a negative rate above -100% the guard fails only for a payment of at
      most 0, and then a positive balance stays positive: the loop runs forever. */
  lemma {:induction false} StuckPositive(loan: real, rate: real, payment: real, k: nat)
    requires loan > 0.0 && -1.0 < rate < 0.0 && payment <= 0.0
    ensures Balance(loan, rate, payment, k) > 0.0
    decreases k
  {
    if k > 0 {
      StuckPositive(loan, rate, payment, k - 1);
      NextPositive(Balance(loan, rate, payment, k - 1), rate, payment);
    }
  }

  /** A positive balance at a rate above -100% stays positive under a payment of at most 0. */
  lemma NextPositive(b: real, rate: real, payment: real)
    requires b > 0.0 && rate > -1.0 && payment <= 0.0
    ensures Next(b, rate, payment) > 0.0
  {
    ProductPositive(b, 1.0 + rate);
    assert Next(b, rate, payment) == b * (1.0 + rate) - payment;
  }

  /** For a rate above -100% the loop ends exactly when the guard holds. */
  lemma LoopEndsIffRepayable(loan: real, rate: real, payment: real)
    requires rate > -1.0
    ensures LoopEnds(loan, rate, payment) <==> Repayable(loan, rate, payment)
  {
    if loan <= 0.0 {
      assert Balance(loan, rate, payment, 0) <= 0.0;
    } else if Repayable(loan, rate, payment) {
      PaidWithin(loan, rate, payment, 0);
    } else if rate >= 0.0 {
      forall k: nat ensures Balance(loan, rate, payment, k) > 0.0 {
        StuckBalance(loan, rate, payment, k);
      }
    } else {
      assert payment <= 0.0 by { assert loan * rate < 0.0; }
      forall k: nat ensures Balance(loan, rate, payment, k) > 0.0 {
        StuckPositive(loan, rate, payment, k);
      }
    }
  }

  /** At a rate of exactly -100% the guard is not exact: with no payment the
      balance drops to 0 after one month, so the loop ends although the guard
      fails. */
  lemma MinusHundredEnds(loan: real)
    requires loan > 0.0
    ensures LoopEnds(loan, -1.0, 0.0) && !Repayable(loan, -1.0, 0.0)
  {
    assert Balance(loan, -1.0, 0.0, 1) <= 0.0;
  }

  /** With a rate above -100% and a positive first principal payment, every
      later principal payment is positive too. */
  lemma {:induction false} PrincipalPositive(loan: real, rate: real, payment: real, i: nat)
    requires rate > -1.0 && MonthAt(loan, rate, payment, 0).principalPaid > 0.0
    ensures MonthAt(loan, rate, payment, i).principalPaid > 0.0
    decreases i
  {
    if i > 0 {
      PrincipalPositive(loan, rate, payment, i - 1);
      PrincipalGrows(loan, rate, payment, i - 1);
      GrownPositive(MonthAt(loan, rate, payment, i - 1).principalPaid, rate, MonthAt(loan, rate, payment, i).principalPaid);
    }
  }

  lemma GrownPositive(p: real, rate: real, q: real)
    requires p > 0.0 && rate > -1.0 && q == (1.0 + rate) * p
    ensures q > 0.0
  {
    ProductPositive(1.0 + rate, p);
  }

  /** At a positive rate, once the first payment beats the interest the balance
      falls every month and the principal repaid rises every month. */
  lemma ScheduleMonotone(loan: real, rate: real, payment: real, i: nat)
    requires rate > 0.0 && payment > loan * rate
    ensures Balance(loan, rate, payment, i + 1) < Balance(loan, rate, payment, i)
    ensures MonthAt(loan, rate, payment, i + 1).principalPaid > MonthAt(loan, rate, payment, i).principalPaid
  {
    PrincipalPositive(loan, rate, payment, i);
    PrincipalGrows(loan, rate, payment, i);
  }
}

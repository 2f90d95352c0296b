/** The debt-payoff screen (`calculateDebtPayoff`): the same monthly loop as
    the tenure screen, recording each month's unclamped balance, interest,
    principal and running total paid. The loop has no guard against a
    payment that does not cover the interest; `Calculate` adds that guard.
    The payment-strategy picker is never read by the calculation, so it is
    not an input here. */
module DebtPayoff {
  import opened Options
  import opened Numeric
  import opened Amortization

  /** A result row, every figure rounded with `Math.round`. */
  datatype PayoffRow = PayoffRow(month: nat, balance: int, interest: int, principal: int, totalPaid: int)

  datatype Outcome =
      /** The rows the loop pushed (none when the balance is not positive or does not parse). */
    | Rows(rows: seq<PayoffRow>)
      /** A positive balance with an unparseable rate or payment: the loop
          pushes one row for month 1 whose balance and principal are NaN, and
          stops. Its interest is a number when the rate is one, and its total
          paid when the payment is one. */
    | UndefinedRow(interest: Option<int>, totalPaid: Option<int>)
      /** The payment never clears the balance, so the loop would not end. */
    | NeverRepaid

  /** The row pushed for month `i + 1`: the balance is shown as it is, even when negative. */
  function PayoffRowAt(loan: real, rate: real, payment: real, i: nat): PayoffRow
  {
    var m := MonthAt(loan, rate, payment, i);
    PayoffRow(i + 1, Round(m.balance), Round(m.interest), Round(m.principalPaid), Round(Paid(payment, i + 1)))
  }

  /** The first `count` rows. */
  function PayoffRows(loan: real, rate: real, payment: real, count: nat): seq<PayoffRow>
  {
    seq(count, i requires 0 <= i => PayoffRowAt(loan, rate, payment, i))
  }

  /** One more month appends that month's row. */
  lemma RowsGrow(loan: real, rate: real, payment: real, count: nat)
    ensures PayoffRows(loan, rate, payment, count + 1)
            == PayoffRows(loan, rate, payment, count) + [PayoffRowAt(loan, rate, payment, count)]
  {
  }

  /** The loop as written, on a balance of 5000 at 24% a year with a payment of
      50: the first month's interest is 100, so the loop never exits. */
  lemma AsWrittenNeverEnds()
    ensures !LoopEnds(5000.0, MonthlyRate(24.0), 50.0)
  {
    forall k: nat ensures Balance(5000.0, MonthlyRate(24.0), 50.0, k) > 0.0 {
      StuckBalance(5000.0, MonthlyRate(24.0), 50.0, k);
    }
  }

  /** Overpaying shows a negative last balance: 150 against a balance of 100 at 0%. */
  lemma LastBalanceUnclamped()
    ensures PayoffRowAt(100.0, 0.0, 150.0, 0).balance == -50
    ensures Balance(100.0, 0.0, 150.0, 1) <= 0.0
  {
  }

  /** The loop with the missing guard. */
  method Calculate(balance: Option<real>, annualRate: Option<real>, monthlyPayment: Option<real>) returns (o: Outcome)
    ensures o == Rows([]) <==> balance.None? || balance.value <= 0.0
    ensures o.UndefinedRow? <==> balance.Some? && balance.value > 0.0 && (annualRate.None? || monthlyPayment.None?)
    ensures o.UndefinedRow? ==>
              (o.interest.Some? <==> annualRate.Some?)
              && (annualRate.Some? ==> o.interest.value == Round(balance.value * MonthlyRate(annualRate.value)))
              && (o.totalPaid.Some? <==> monthlyPayment.Some?)
              && (monthlyPayment.Some? ==> o.totalPaid.value == Round(monthlyPayment.value))
    ensures o.NeverRepaid? <==> balance.Some? && annualRate.Some? && monthlyPayment.Some?
                                && !Repayable(balance.value, MonthlyRate(annualRate.value), monthlyPayment.value)
    ensures o.Rows? && |o.rows| > 0 ==>
              balance.Some? && annualRate.Some? && monthlyPayment.Some?
              && var loan, rate, payment := balance.value, MonthlyRate(annualRate.value), monthlyPayment.value;
                 Balance(loan, rate, payment, |o.rows|) <= 0.0
                 && (forall k :: 0 <= k < |o.rows| ==> Balance(loan, rate, payment, k) > 0.0)
                 && o.rows == PayoffRows(loan, rate, payment, |o.rows|)
  {
    if balance.None? || balance.value <= 0.0 {
      return Rows([]);
    }
    if annualRate.None? || monthlyPayment.None? {
      var interest := if annualRate.Some? then Some(Round(balance.value * MonthlyRate(annualRate.value))) else None;
      var totalPaid := if monthlyPayment.Some? then Some(Round(0.0 + monthlyPayment.value)) else None;
      return UndefinedRow(interest, totalPaid);
    }
    var loan, rate, payment := balance.value, MonthlyRate(annualRate.value), monthlyPayment.value;
    if !Repayable(loan, rate, payment) {
      return NeverRepaid;
    }
    var rows := Payoff(loan, rate, payment);
    o := Rows(rows);
  }

  /** The `while (balanceAmount > 0)` loop on a positive balance the payment
      can repay: it stops at the first month whose balance is at most 0. */
  method Payoff(loan: real, rate: real, payment: real) returns (rows: seq<PayoffRow>)
    requires loan > 0.0 && Repayable(loan, rate, payment)
    ensures |rows| > 0
    ensures Balance(loan, rate, payment, |rows|) <= 0.0
    ensures forall k :: 0 <= k < |rows| ==> Balance(loan, rate, payment, k) > 0.0
    ensures rows == PayoffRows(loan, rate, payment, |rows|)
  {
    DropPositive(loan, rate, payment);
    var balanceAmount := loan;
    var month: nat := 0;
    var totalPaid := 0.0;
    var calculations: seq<PayoffRow> := [];
    while balanceAmount > 0.0
      invariant balanceAmount == Balance(loan, rate, payment, month)
      invariant totalPaid == Paid(payment, month)
      invariant calculations == PayoffRows(loan, rate, payment, month)
      invariant forall k :: 0 <= k < month ==> Balance(loan, rate, payment, k) > 0.0
      invariant balanceAmount <= loan
      decreases Remaining(balanceAmount, Drop(loan, rate, payment))
    {
      ghost var before := balanceAmount;
      StepDrops(loan, rate, payment, balanceAmount);
      PaidSucc(payment, month);
      var interest := balanceAmount * rate;
      var principal := payment - interest;
      balanceAmount := balanceAmount - principal;
      assert balanceAmount == Next(before, rate, payment);
      totalPaid := totalPaid + payment;
      month := month + 1;
      calculations := calculations + [PayoffRow(month, Round(balanceAmount), Round(interest), Round(principal), Round(totalPaid))];
      RowsGrow(loan, rate, payment, month - 1);
      RemainingDecreases(before, balanceAmount, Drop(loan, rate, payment));
      if balanceAmount <= 0.0 {
        break;
      }
    }
    rows := calculations;
  }
}

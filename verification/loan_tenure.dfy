/** The loan-tenure screen (`calculateTenure`): it runs the repayment loop
    month by month until the balance is no longer positive and reports how
    many months that took. As written the loop has no guard against an EMI
    that does not cover the interest; `Calculate` adds that guard. */
module LoanTenure {
  import opened Options
  import opened Numeric
  import opened Amortization

  datatype Outcome =
    | InvalidInput
      /** The EMI never repays the loan, so the loop would not end. */
    | EmiTooSmall
    | Plan(totalMonths: nat, years: nat, remainingMonths: nat, totalInterest: int, totalAmount: int,
           chart: seq<ChartRow>)

  /** The loop as written, on a loan of 100000 at 12% a year with an EMI of
      500: the first month's interest is already 1000, so the balance never
      drops and `while (balance > 0)` never exits. */
  lemma AsWrittenNeverEnds()
    ensures !LoopEnds(100000.0, MonthlyRate(12.0), 500.0)
  {
    forall k: nat ensures Balance(100000.0, MonthlyRate(12.0), 500.0, k) > 0.0 {
      StuckBalance(100000.0, MonthlyRate(12.0), 500.0, k);
    }
  }

  /** The loop with the missing guard: an EMI that cannot repay the loan is
      reported instead of looping forever. */
  method Calculate(emi: Option<real>, loanAmount: Option<real>, annualRate: Option<real>) returns (o: Outcome)
    ensures o.InvalidInput? <==> emi.None? || loanAmount.None? || annualRate.None?
    ensures o.EmiTooSmall? <==> emi.Some? && loanAmount.Some? && annualRate.Some?
                                && !Repayable(loanAmount.value, MonthlyRate(annualRate.value), emi.value)
    ensures o.Plan? ==>
              var loan, rate, payment := loanAmount.value, MonthlyRate(annualRate.value), emi.value;
              Balance(loan, rate, payment, o.totalMonths) <= 0.0
              && (forall k :: 0 <= k < o.totalMonths ==> Balance(loan, rate, payment, k) > 0.0)
              && o.chart == Chart(loan, rate, payment, o.totalMonths)
              && o.years * 12 + o.remainingMonths == o.totalMonths && o.remainingMonths < 12
              && o.totalAmount == Round(Paid(payment, o.totalMonths))
              && o.totalInterest == Round(Paid(payment, o.totalMonths) - loan)
    ensures o.Plan? && o.totalMonths > 0 ==> o.chart[o.totalMonths - 1].balance == 0
    ensures o.Plan? && loanAmount.value <= 0.0 ==> o.totalMonths == 0 && o.chart == []
  {
    if emi.None? || loanAmount.None? || annualRate.None? {
      return InvalidInput;
    }
    var loan, rate, payment := loanAmount.value, MonthlyRate(annualRate.value), emi.value;
    if !Repayable(loan, rate, payment) {
      return EmiTooSmall;
    }
    if loan > 0.0 {
      DropPositive(loan, rate, payment);
    }
    var balance := loan;
    var months: nat := 0;
    var rows: seq<ChartRow> := [];
    while balance > 0.0
      invariant balance == Balance(loan, rate, payment, months)
      invariant rows == Chart(loan, rate, payment, months)
      invariant forall k :: 0 <= k < months ==> Balance(loan, rate, payment, k) > 0.0
      invariant balance <= loan
      decreases if loan > 0.0 then Remaining(balance, Drop(loan, rate, payment)) else 0
    {
      ghost var before := balance;
      StepDrops(loan, rate, payment, balance);
      var interest := balance * rate;
      var principalPaid := payment - interest;
      balance := balance - principalPaid;
      assert balance == Next(before, rate, payment);
      months := months + 1;
      rows := rows + [ChartRow(months, Round(principalPaid), Round(interest), Round(payment), ShownBalance(balance))];
      RemainingDecreases(before, balance, Drop(loan, rate, payment));
    }
    o := Plan(months, months / 12, months % 12, Round(Paid(payment, months) - loan), Round(Paid(payment, months)), rows);
  }
}

/** The loan-amount screen (`calculateLoan` in the loan calculator): the
    principal that a given EMI repays over a term, the totals with charges,
    and the repayment schedule of that principal. */
module LoanCalculator {
  import opened Options
  import opened Numeric
  import opened Amortization
  import Emi

  datatype Outcome =
    | InvalidInput
      /** A rate of -1200% over a positive term with a non-zero EMI: `(1 + r)^n`
          is 0, so the formula divides `-emi` by the negative zero `r * 0`, and
          the principal is an infinity with the sign of the EMI. */
    | Unbounded(negative: bool)
      /** The principal formula is NaN: a zero rate makes it 0 / 0, as does a
          rate of -1200% over a positive term with an EMI of 0, and the same
          rate over a negative term makes it Infinity / Infinity. */
    | NotANumber
    | Plan(principalAmount: int, totalInterest: int, totalCharges: int, totalAmount: int, chart: seq<ChartRow>)

  /** The guard: the EMI or the rate does not parse, or neither term field is positive. */
  predicate Rejected(emi: Option<real>, annualRate: Option<real>, years: Option<int>, months: Option<int>)
  {
    emi.None? || annualRate.None? || (years.GetOr(0) <= 0 && months.GetOr(0) <= 0)
  }

  /** Whether the principal formula has a value for a term of `n` months: a
      non-zero rate, and a finite non-zero `(1 + r)^n`. */
  predicate HasValue(annualRate: real, n: int)
  {
    MonthlyRate(annualRate) != 0.0 && (1.0 + MonthlyRate(annualRate) != 0.0 || n == 0)
  }

  /** Whether the principal formula divides a non-zero numerator by 0: a zero
      base `1 + r` raised to a positive term, under a non-zero EMI. */
  predicate Infinite(emi: real, annualRate: real, n: int)
  {
    1.0 + MonthlyRate(annualRate) == 0.0 && n > 0 && emi != 0.0
  }

  /** The exact principal `emi * (x - 1) / (r * x)` with `x = (1 + r)^n`, for a
      term of either sign. */
  function Principal(emi: real, annualRate: real, n: int): (v: real)
    requires HasValue(annualRate, n)
    ensures var x := IPow(1.0 + MonthlyRate(annualRate), n);
            x != 0.0 && v * (MonthlyRate(annualRate) * x) == emi * (x - 1.0)
  {
    var r := MonthlyRate(annualRate);
    var x := IPow(1.0 + r, n);
    assert x != 0.0 by {
      if 1.0 + r != 0.0 {
        IPowNonZero(1.0 + r, n);
      }
    }
    ProductNonZero(r, x);
    DivCancel(emi * (x - 1.0), r * x);
    emi * (x - 1.0) / (r * x)
  }

  function Calculate(emi: Option<real>, annualRate: Option<real>, years: Option<int>, months: Option<int>,
                     charges: Option<real>): (o: Outcome)
    ensures o.InvalidInput? <==> Rejected(emi, annualRate, years, months)
    ensures o.Unbounded? <==> !Rejected(emi, annualRate, years, months)
                              && Infinite(emi.value, annualRate.value, TermOrZero(years, months))
    ensures o.Unbounded? ==> (o.negative <==> emi.value < 0.0)
    ensures o.NotANumber? <==> !Rejected(emi, annualRate, years, months)
                               && !HasValue(annualRate.value, TermOrZero(years, months))
                               && !Infinite(emi.value, annualRate.value, TermOrZero(years, months))
    ensures o.Plan? ==> o.principalAmount == Round(Principal(emi.value, annualRate.value, TermOrZero(years, months)))
    ensures o.Plan? ==> |o.chart| == Passes(TermOrZero(years, months))
    ensures o.Plan? && charges.None? ==> o.totalCharges == 0
  {
    if Rejected(emi, annualRate, years, months) then InvalidInput
    else
      var n := TermOrZero(years, months);
      if Infinite(emi.value, annualRate.value, n) then Unbounded(emi.value < 0.0)
      else if !HasValue(annualRate.value, n) then NotANumber
      else
        var rate := MonthlyRate(annualRate.value);
        var principal := Principal(emi.value, annualRate.value, n);
        var totalInterest := Paid(emi.value, n) - principal;
        var totalCharges := charges.GetOr(0.0);
        Plan(Round(principal), Round(totalInterest), Round(totalCharges),
             Round(principal + totalInterest + totalCharges), Chart(principal, rate, emi.value, Passes(n)))
  }

  /** For a positive term the principal is the present value of the `n` EMIs. */
  lemma PrincipalIsPresentValue(emi: real, annualRate: real, n: int)
    requires HasValue(annualRate, n) && n >= 1
    ensures MonthlyRate(annualRate) * Pow(1.0 + MonthlyRate(annualRate), n) != 0.0
    ensures Principal(emi, annualRate, n) == PresentValue(emi, MonthlyRate(annualRate), n)
  {
    var r := MonthlyRate(annualRate);
    PowNonZero(1.0 + r, n);
    ProductNonZero(r, Pow(1.0 + r, n));
    Cancel(Principal(emi, annualRate, n), PresentValue(emi, r, n), r * Pow(1.0 + r, n));
  }

  /** Over a positive term the computed principal is exactly repaid by the
      EMI: the balance after the last month is zero and the last row shows zero. */
  lemma PlanPaysOff(emi: real, annualRate: real, years: Option<int>, months: Option<int>, charges: Option<real>)
    requires Calculate(Some(emi), Some(annualRate), years, months, charges).Plan?
    requires TermOrZero(years, months) >= 1
    ensures Balance(Principal(emi, annualRate, TermOrZero(years, months)), MonthlyRate(annualRate), emi, TermOrZero(years, months)) == 0.0
    ensures var chart := Calculate(Some(emi), Some(annualRate), years, months, charges).chart;
            chart[|chart| - 1].balance == 0
  {
    PrincipalIsPresentValue(emi, annualRate, TermOrZero(years, months));
    PresentValueClears(emi, MonthlyRate(annualRate), TermOrZero(years, months));
  }

  /** Whatever the principal comes out as, the total amount is every EMI plus the charges. */
  lemma TotalIsPaymentsAndCharges(emi: real, annualRate: real, years: Option<int>, months: Option<int>, charges: Option<real>)
    requires Calculate(Some(emi), Some(annualRate), years, months, charges).Plan?
    ensures Calculate(Some(emi), Some(annualRate), years, months, charges).totalAmount
         == Round(Paid(emi, TermOrZero(years, months)) + charges.GetOr(0.0))
  {
  }

  /** A term that passes the guard can still total zero months: -1 years and
      12 months gives a principal of 0, no schedule and only the charges,
      where the EMI screen divides `P * r` by 0 for the same term and shows
      an infinite payment (NaN for a principal of 0). */
  lemma ZeroTermPlan(emi: real, annualRate: real, charges: Option<real>, loan: real)
    requires annualRate != 0.0
    ensures var o := Calculate(Some(emi), Some(annualRate), Some(-1), Some(12), charges);
            o.Plan? && o.principalAmount == 0 && o.chart == [] && o.totalAmount == Round(charges.GetOr(0.0))
    ensures var e := Emi.Calculate(Some(loan), Some(annualRate), Some(-1), Some(12));
            (loan != 0.0 ==> e.Unbounded? && (e.negative <==> loan * annualRate < 0.0))
            && (loan == 0.0 ==> e.NotANumber?)
  {
    assert TermOrZero(Some(-1), Some(12)) == 0;
    assert Term(-1, 12) == 0;
    if loan != 0.0 {
      ProductNonZero(loan, MonthlyRate(annualRate));
    }
  }

  /** Feeding the EMI screen's exact payment back in recovers its principal,
      for a term of either sign. */
  lemma EmiThenLoan(loan: real, annualRate: real, years: int, months: int)
    requires annualRate > -1200.0
    requires Emi.Calculate(Some(loan), Some(annualRate), Some(years), Some(months)).Plan?
    ensures var o := Calculate(Some(Emi.Payment(loan, annualRate, Term(years, months))), Some(annualRate), Some(years), Some(months), None);
            o.Plan? && o.principalAmount == Round(loan)
  {
    var n := Term(years, months);
    assert TermOrZero(Some(years), Some(months)) == n;
    PaymentThenPrincipal(loan, annualRate, n);
  }

  /** The principal that an annuity payment pays off is the loan it was
      computed from. */
  lemma PaymentThenPrincipal(loan: real, annualRate: real, n: int)
    requires annualRate > -1200.0 && Emi.HasValue(annualRate, n)
    ensures HasValue(annualRate, n)
    ensures Principal(Emi.Payment(loan, annualRate, n), annualRate, n) == loan
  {
    var r := MonthlyRate(annualRate);
    var a := Emi.Payment(loan, annualRate, n);
    IRateNonZero(r, n);
    IPowNonZero(1.0 + r, n);
    InverseAlgebra(loan, r, IPow(1.0 + r, n), a, Principal(a, annualRate, n));
  }

  /** Feeding the computed principal into the EMI screen gives back the EMI,
      for any term other than zero months. */
  lemma LoanThenEmi(emi: real, annualRate: real, years: int, months: int)
    requires annualRate > -1200.0 && Term(years, months) != 0
    requires Calculate(Some(emi), Some(annualRate), Some(years), Some(months), None).Plan?
    ensures var o := Emi.Calculate(Some(Principal(emi, annualRate, Term(years, months))), Some(annualRate), Some(years), Some(months));
            o.Plan? && o.monthlyPayment == Round(emi)
  {
    var n := Term(years, months);
    assert TermOrZero(Some(years), Some(months)) == n;
    PrincipalThenPayment(emi, annualRate, n);
  }

  /** The annuity payment on a present value is the payment it was
      discounted from, for any term other than zero months. */
  lemma PrincipalThenPayment(emi: real, annualRate: real, n: int)
    requires annualRate > -1200.0 && n != 0 && HasValue(annualRate, n)
    ensures Emi.HasValue(annualRate, n)
    ensures Emi.Payment(Principal(emi, annualRate, n), annualRate, n) == emi
  {
    var r := MonthlyRate(annualRate);
    IPowNotOne(1.0 + r, n);
    var v := Principal(emi, annualRate, n);
    assert Emi.HasValue(annualRate, n);
    InverseAlgebra'(emi, r, IPow(1.0 + r, n), v, Emi.Payment(v, annualRate, n));
  }

  lemma ProductNonZero(x: real, y: real)
    requires x != 0.0 && y != 0.0
    ensures x * y != 0.0
  {
  }
}

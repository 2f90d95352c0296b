/** The EMI screen (`calculateemi`): the level monthly payment for a
    principal, an annual rate and a term in years and months, the headline
    totals, and the month-by-month schedule handed to the payment-details
    screen. */
module Emi {
  import opened Options
  import opened Numeric
  import opened Amortization

  datatype Outcome =
    | InvalidInput
      /** `(1 + r)^n == 1` under a non-zero `P * r`: the payment divides it by
          0 and is an infinity with the sign of `P * r`; the totals are NaN. */
    | Unbounded(negative: bool)
      /** The guard passed but a term field is NaN, or the payment formula is
          NaN: 0 / 0 when `(1 + r)^n == 1` and `P * r == 0`, and
          Infinity / Infinity when a zero base meets a negative exponent. */
    | NotANumber
    | Plan(monthlyPayment: int, totalInterest: int, totalAmount: int, chart: seq<ChartRow>)

  /** A term field that is a positive whole number (a blank field reads as 0,
      an unparseable one as NaN, and `parseInt` accepts a minus sign). */
  predicate Positive(x: Option<int>)
  {
    x.Some? && x.value > 0
  }

  /** The guard: principal and rate parse and one term field is positive. */
  predicate Accepted(principal: Option<real>, annualRate: Option<real>, years: Option<int>, months: Option<int>)
  {
    principal.Some? && annualRate.Some? && (Positive(years) || Positive(months))
  }

  /** Whether the payment formula has a value for a term of `n` months:
      `(1 + r)^n` is finite and it is not 1. */
  predicate HasValue(annualRate: real, n: int)
  {
    var q := 1.0 + MonthlyRate(annualRate);
    (q != 0.0 || n >= 0) && IPow(q, n) != 1.0
  }

  /** Whether the guarded inputs give the payment formula a value: both term
      fields are numbers and the formula has a value for their total. */
  predicate Defined(annualRate: real, years: Option<int>, months: Option<int>)
  {
    years.Some? && months.Some? && HasValue(annualRate, Term(years.value, months.value))
  }

  /** Whether the guarded inputs make the payment formula divide a non-zero
      numerator by 0: both term fields are numbers, `(1 + r)^n` is finite and
      equal to 1, and `P * r` is not 0. */
  predicate Infinite(loan: real, annualRate: real, years: Option<int>, months: Option<int>)
  {
    years.Some? && months.Some? &&
    var q, n := 1.0 + MonthlyRate(annualRate), Term(years.value, months.value);
    (q != 0.0 || n >= 0) && IPow(q, n) == 1.0 && loan * MonthlyRate(annualRate) != 0.0
  }

  /** The exact payment `P * r * x / (x - 1)` with `x = (1 + r)^n`, for a term
      of either sign. */
  function Payment(loan: real, annualRate: real, n: int): (a: real)
    requires HasValue(annualRate, n)
    ensures var x := IPow(1.0 + MonthlyRate(annualRate), n);
            a * (x - 1.0) == loan * MonthlyRate(annualRate) * x
  {
    var x := IPow(1.0 + MonthlyRate(annualRate), n);
    loan * MonthlyRate(annualRate) * x / (x - 1.0)
  }

  function Calculate(principal: Option<real>, annualRate: Option<real>, years: Option<int>, months: Option<int>): (o: Outcome)
    ensures o.InvalidInput? <==> !Accepted(principal, annualRate, years, months)
    ensures o.Unbounded? <==> Accepted(principal, annualRate, years, months) && Infinite(principal.value, annualRate.value, years, months)
    ensures o.Unbounded? ==> (o.negative <==> principal.value * MonthlyRate(annualRate.value) < 0.0)
    ensures o.NotANumber? <==> Accepted(principal, annualRate, years, months) && !Defined(annualRate.value, years, months)
                               && !Infinite(principal.value, annualRate.value, years, months)
    ensures o.Plan? ==> o.monthlyPayment == Round(Payment(principal.value, annualRate.value, Term(years.value, months.value)))
    ensures o.Plan? ==> |o.chart| == Passes(Term(years.value, months.value))
    ensures o.Plan? ==> forall i :: 0 <= i < |o.chart| ==> o.chart[i].month == i + 1
  {
    if !Accepted(principal, annualRate, years, months) then InvalidInput
    else if Infinite(principal.value, annualRate.value, years, months) then
      Unbounded(principal.value * MonthlyRate(annualRate.value) < 0.0)
    else if !Defined(annualRate.value, years, months) then NotANumber
    else
      var loan := principal.value;
      var n := Term(years.value, months.value);
      var rate := MonthlyRate(annualRate.value);
      var payment := Payment(loan, annualRate.value, n);
      var totalInterest := Paid(payment, n) - loan;
      Plan(Round(payment), Round(totalInterest), Round(loan + totalInterest), Chart(loan, rate, payment, Passes(n)))
  }

  /** For a positive term the payment is the annuity that repays the loan in `n` months. */
  lemma PaymentIsAnnuity(loan: real, annualRate: real, n: int)
    requires HasValue(annualRate, n) && n >= 1
    ensures Pow(1.0 + MonthlyRate(annualRate), n) != 1.0
    ensures Payment(loan, annualRate, n) == Annuity(loan, MonthlyRate(annualRate), n)
  {
    var p := Pow(1.0 + MonthlyRate(annualRate), n);
    Cancel(Payment(loan, annualRate, n), Annuity(loan, MonthlyRate(annualRate), n), p - 1.0);
  }

  /** A plan over a positive term repays the loan: the exact balance after the
      last month is zero, and the last row shows a zero balance. */
  lemma PlanPaysOff(loan: real, annualRate: real, years: int, months: int)
    requires Calculate(Some(loan), Some(annualRate), Some(years), Some(months)).Plan?
    requires Term(years, months) >= 1
    ensures Balance(loan, MonthlyRate(annualRate), Payment(loan, annualRate, Term(years, months)), Term(years, months)) == 0.0
    ensures var chart := Calculate(Some(loan), Some(annualRate), Some(years), Some(months)).chart;
            chart[|chart| - 1].balance == 0
  {
    PaymentIsAnnuity(loan, annualRate, Term(years, months));
    AnnuityClears(loan, MonthlyRate(annualRate), Term(years, months));
  }

  /** The total amount is the payment times the number of months. */
  lemma PlanAmount(loan: real, annualRate: real, years: int, months: int)
    requires Calculate(Some(loan), Some(annualRate), Some(years), Some(months)).Plan?
    ensures Calculate(Some(loan), Some(annualRate), Some(years), Some(months)).totalAmount
         == Round(Paid(Payment(loan, annualRate, Term(years, months)), Term(years, months)))
  {
  }

  /** Over a positive term the headline interest is the schedule's interest
      column added up, and the principal column adds up to the loan. */
  lemma PlanColumns(loan: real, annualRate: real, years: int, months: int)
    requires Calculate(Some(loan), Some(annualRate), Some(years), Some(months)).Plan?
    requires Term(years, months) >= 1
    ensures Calculate(Some(loan), Some(annualRate), Some(years), Some(months)).totalInterest
         == Round(InterestTotal(loan, MonthlyRate(annualRate), Payment(loan, annualRate, Term(years, months)), Term(years, months)))
    ensures PrincipalTotal(loan, MonthlyRate(annualRate), Payment(loan, annualRate, Term(years, months)), Term(years, months)) == loan
  {
    PaymentIsAnnuity(loan, annualRate, Term(years, months));
    AnnuityColumns(loan, MonthlyRate(annualRate), Term(years, months));
  }

  /** For a whole-rupee principal the rounded figures still add up: total amount
      is total interest plus the principal. */
  lemma WholePrincipalAddsUp(loan: int, annualRate: real, years: int, months: int)
    requires Calculate(Some(loan as real), Some(annualRate), Some(years), Some(months)).Plan?
    ensures var o := Calculate(Some(loan as real), Some(annualRate), Some(years), Some(months));
            o.totalAmount == o.totalInterest + loan
  {
    RoundShift(Paid(Payment(loan as real, annualRate, Term(years, months)), Term(years, months)) - loan as real, loan);
  }

  /** A negative year count is taken at its word: -1 years and 13 months is
      the one-month plan. */
  lemma OneMonthFromNegativeYears(loan: real, annualRate: real)
    ensures Calculate(Some(loan), Some(annualRate), Some(-1), Some(13))
         == Calculate(Some(loan), Some(annualRate), Some(0), Some(1))
  {
  }

  /** A negative month count can make the whole term negative: 2 years and
      -30 months passes the guard with `n == -6`, and at a positive rate on a
      positive loan the screen shows a negative EMI and an empty schedule. */
  lemma NegativeTermPlan(loan: real, annualRate: real)
    requires loan > 0.0 && annualRate > 0.0
    ensures var o := Calculate(Some(loan), Some(annualRate), Some(2), Some(-30));
            o.Plan? && o.chart == [] && o.monthlyPayment == Round(Payment(loan, annualRate, -6))
    ensures HasValue(annualRate, -6) && Payment(loan, annualRate, -6) < 0.0
  {
    var q := 1.0 + MonthlyRate(annualRate);
    PowAboveOne(q, 6);
    ReciprocalBelowOne(IPow(q, -6), Pow(q, 6));
    NegativePayment(loan, MonthlyRate(annualRate), IPow(q, -6), Payment(loan, annualRate, -6));
    assert Term(2, -30) == -6;
  }

  /** `a * (x - 1) == loan * r * x` with `0 < x < 1` makes `a` negative. */
  lemma NegativePayment(loan: real, r: real, x: real, a: real)
    requires loan > 0.0 && r > 0.0 && 0.0 < x < 1.0
    requires a * (x - 1.0) == loan * r * x
    ensures a < 0.0
  {
    ProductPositive(loan, r);
    ProductPositive(loan * r, x);
    var b := -a;
    assert b * (1.0 - x) == loan * r * x;
    SignFromProduct(b, 1.0 - x);
  }

  /** At a positive rate on a positive loan over a positive term the payment beats the first month's
      interest, so the balance falls and the principal repaid rises every month. */
  lemma PlanMonotone(loan: real, annualRate: real, n: int, i: nat)
    requires loan > 0.0 && annualRate > 0.0 && n >= 1 && HasValue(annualRate, n)
    ensures var rate := MonthlyRate(annualRate);
            var payment := Payment(loan, annualRate, n);
            Balance(loan, rate, payment, i + 1) < Balance(loan, rate, payment, i)
            && MonthAt(loan, rate, payment, i + 1).principalPaid > MonthAt(loan, rate, payment, i).principalPaid
  {
    var rate := MonthlyRate(annualRate);
    PaymentIsAnnuity(loan, annualRate, n);
    PowAboveOne(1.0 + rate, n);
    AnnuityAboveInterest(loan, rate, Pow(1.0 + rate, n), Annuity(loan, rate, n));
    ScheduleMonotone(loan, rate, Annuity(loan, rate, n), i);
  }

  /** `a * (p - 1) == loan * rate * p` with `p > 1` puts `a` above `loan * rate`. */
  lemma AnnuityAboveInterest(loan: real, rate: real, p: real, a: real)
    requires loan > 0.0 && rate > 0.0 && p > 1.0
    requires a * (p - 1.0) == loan * rate * p
    ensures a > loan * rate
  {
    var x, y := a - loan * rate, p - 1.0;
    assert x * y == loan * rate;
    ProductPositive(loan, rate);
    SignFromProduct(x, y);
  }
}

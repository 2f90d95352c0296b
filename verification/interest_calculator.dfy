/** The interest-rate screen (`calculateLoan` in the interest calculator): it
    finds the monthly rate at which a loan is repaid by a given EMI by halving
    the interval [0, 1] until it is at most 0.000001 wide, then rebuilds the
    repayment schedule at that rate. */
module InterestCalculator {
  import opened Options
  import opened Numeric
  import opened Amortization

  /** The loop's stopping width, the source's `0.000001`. */
  const Tolerance: real := 0.000001

  /** The final width, 2^-20. */
  const Step: real := 1.0 / 1048576.0

  /** `w` halved `k` times: the width of the search interval after `k` passes. */
  function Halved(w: real, k: nat): real
  {
    if k == 0 then w else Halved(w, k - 1) / 2.0
  }

  /** Halving first and then `k` more times is halving `k + 1` times. */
  lemma {:induction false} HalvedFront(w: real, k: nat)
    ensures Halved(w / 2.0, k) == Halved(w, k) / 2.0
    decreases k
  {
    if k > 0 {
      HalvedFront(w, k - 1);
    }
  }

  lemma {:induction false} HalvedPositive(w: real, k: nat)
    requires w > 0.0
    ensures Halved(w, k) > 0.0
    decreases k
  {
    if k > 0 {
      HalvedPositive(w, k - 1);
    }
  }

  /** More halvings leave a narrower interval. */
  lemma {:induction false} HalvedMonotone(w: real, a: nat, b: nat)
    requires w > 0.0 && a <= b
    ensures Halved(w, b) <= Halved(w, a)
    decreases b
  {
    if a < b {
      HalvedMonotone(w, a, b - 1);
      HalvedPositive(w, b - 1);
    }
  }

  /** 2^-20 <= 0.000001 < 2^-19: the loop stops after exactly 20 passes. */
  lemma TwentyPasses()
    ensures Halved(1.0, 20) == Step <= Tolerance < Halved(1.0, 19)
  {
    assert Halved(1.0, 10) == 1.0 / 1024.0;
  }

  /** The EMI a loan needs at monthly rate `mid`, the loop's `estimate`. A
      term of zero months makes the power 1 and divides `loan * mid` by 0:
      an infinity with the loan's sign, or NaN for a loan of 0. */
  function Estimate(loan: real, mid: real, n: int): (e: Number)
    requires 0.0 < mid
    ensures e.NaN? <==> n == 0 && loan == 0.0
    ensures e.Infinity? <==> n == 0 && loan != 0.0
    ensures e.Infinity? ==> (e.negative <==> loan < 0.0)
    ensures e.Finite? ==> var x := IPow(1.0 + mid, n); e.value * (x - 1.0) == loan * mid * x
  {
    var x := IPow(1.0 + mid, n);
    assert x == 1.0 <==> n == 0 by {
      if n != 0 {
        IPowNotOne(1.0 + mid, n);
      }
    }
    assert loan * mid < 0.0 <==> loan < 0.0 by {
      if loan < 0.0 {
        assert loan * mid < 0.0 * mid;
      } else {
        assert loan * mid >= 0.0 * mid;
      }
    }
    Divide(loan * mid * x, x - 1.0)
  }

  /** The loop's test `estimate > emiNumber`: an infinite estimate passes it
      exactly when it is positive, and a NaN one never does. */
  predicate Above(loan: real, emi: real, n: int, mid: real)
    requires 0.0 < mid
  {
    GreaterThan(Estimate(loan, mid, n), emi)
  }

  /** For a positive term the estimate is the annuity that repays the loan in `n` months. */
  lemma EstimateIsAnnuity(loan: real, mid: real, n: int)
    requires 0.0 < mid && n >= 1
    ensures Pow(1.0 + mid, n) != 1.0
    ensures Estimate(loan, mid, n) == Finite(Annuity(loan, mid, n))
  {
    PowAboveOne(1.0 + mid, n);
    Cancel(Estimate(loan, mid, n).value, Annuity(loan, mid, n), Pow(1.0 + mid, n) - 1.0);
  }

  /** The search interval is bracketed: the lower end is 0 or its estimate does
      not exceed the EMI, and the upper end is 1 or its estimate does. */
  predicate Brackets(loan: real, emi: real, n: int, low: real, high: real)
  {
    (low == 0.0 || (low > 0.0 && !Above(loan, emi, n, low)))
    && (high == 1.0 || (high > 0.0 && Above(loan, emi, n, high)))
  }

  /** The search as a recursive definition: `steps` halvings of `[low, high]`. */
  function Search(loan: real, emi: real, n: int, low: real, high: real, steps: nat): (r: (real, real))
    requires 0.0 <= low < high <= 1.0
    ensures 0.0 <= r.0 < r.1 <= 1.0
    decreases steps
  {
    if steps == 0 then (low, high)
    else
      var mid := (low + high) / 2.0;
      if Above(loan, emi, n, mid) then Search(loan, emi, n, low, mid, steps - 1)
      else Search(loan, emi, n, mid, high, steps - 1)
  }

  /** Each halving keeps the interval bracketed and inside the one it started from. */
  lemma {:induction false} SearchBrackets(loan: real, emi: real, n: int, low: real, high: real, steps: nat)
    requires 0.0 <= low < high <= 1.0 && Brackets(loan, emi, n, low, high)
    ensures var r := Search(loan, emi, n, low, high, steps);
            Brackets(loan, emi, n, r.0, r.1) && low <= r.0 && r.1 <= high
    decreases steps
  {
    if steps > 0 {
      var mid := (low + high) / 2.0;
      if Above(loan, emi, n, mid) {
        SearchBrackets(loan, emi, n, low, mid, steps - 1);
      } else {
        SearchBrackets(loan, emi, n, mid, high, steps - 1);
      }
    }
  }

  /** `steps` passes shrink the interval to `high - low` halved `steps` times. */
  lemma {:induction false} SearchWidth(loan: real, emi: real, n: int, low: real, high: real, steps: nat)
    requires 0.0 <= low < high <= 1.0
    ensures Search(loan, emi, n, low, high, steps).1 - Search(loan, emi, n, low, high, steps).0 == Halved(high - low, steps)
    decreases steps
  {
    if steps > 0 {
      var mid := (low + high) / 2.0;
      HalvedFront(high - low, steps - 1);
      if Above(loan, emi, n, mid) {
        SearchWidth(loan, emi, n, low, mid, steps - 1);
      } else {
        SearchWidth(loan, emi, n, mid, high, steps - 1);
      }
    }
  }

  /** One pass of the search: the half the midpoint estimate points to. */
  lemma SearchStep(loan: real, emi: real, n: int, low: real, high: real, steps: nat)
    requires 0.0 <= low < high <= 1.0 && steps > 0
    ensures var mid := (low + high) / 2.0;
            var e := Estimate(loan, mid, n);
            Search(loan, emi, n, low, high, steps)
            == if GreaterThan(e, emi) then Search(loan, emi, n, low, mid, steps - 1)
               else Search(loan, emi, n, mid, high, steps - 1)
  {
  }

  /** The `while (high - low > 0.000001)` loop, statement by statement: it
      performs exactly the 20 passes of `Search` and ends bracketed. */
  method Bisect(loan: real, emi: real, n: int) returns (low: real, high: real)
    ensures (low, high) == Search(loan, emi, n, 0.0, 1.0, 20)
    ensures 0.0 <= low < high <= 1.0 && high - low == Step
    ensures Brackets(loan, emi, n, low, high)
  {
    low, high := 0.0, 1.0;
    ghost var k: nat := 0;
    TwentyPasses();
    while high - low > Tolerance
      invariant k <= 20
      invariant 0.0 <= low < high <= 1.0
      invariant high - low == Halved(1.0, k)
      invariant Search(loan, emi, n, low, high, 20 - k) == Search(loan, emi, n, 0.0, 1.0, 20)
      decreases 20 - k
    {
      if k == 20 {
        assert false;
      }
      var mid := (low + high) / 2.0;
      var estimate := Estimate(loan, mid, n);
      SearchStep(loan, emi, n, low, high, 20 - k);
      if GreaterThan(estimate, emi) {
        high := mid;
      } else {
        low := mid;
      }
      k := k + 1;
    }
    if k < 20 {
      HalvedMonotone(1.0, k, 19);
    }
    SearchBrackets(loan, emi, n, 0.0, 1.0, 20);
  }

  datatype Outcome =
    | InvalidInput
    | Plan(monthlyRate: real, annualPercent: real, totalInterest: int, totalAmount: int, chart: seq<ChartRow>)

  method Calculate(emi: Option<real>, loanAmount: Option<real>, years: Option<int>, months: Option<int>) returns (o: Outcome)
    ensures o.InvalidInput? <==> emi.None? || loanAmount.None? || (years.GetOr(0) <= 0 && months.GetOr(0) <= 0)
    ensures o.Plan? ==> var n := TermOrZero(years, months);
                        o.monthlyRate == Search(loanAmount.value, emi.value, n, 0.0, 1.0, 20).0
                        && o.annualPercent == o.monthlyRate * 1200.0
                        && 0.0 <= o.monthlyRate < 1.0
                        && (o.monthlyRate == 0.0 || !Above(loanAmount.value, emi.value, n, o.monthlyRate))
                        && (o.monthlyRate + Step == 1.0 || Above(loanAmount.value, emi.value, n, o.monthlyRate + Step))
                        && o.totalAmount == Round(Paid(emi.value, n))
                        && o.totalInterest == Round(Paid(emi.value, n) - loanAmount.value)
                        && o.chart == Chart(loanAmount.value, o.monthlyRate, emi.value, Passes(n))
  {
    if emi.None? || loanAmount.None? || (years.GetOr(0) <= 0 && months.GetOr(0) <= 0) {
      return InvalidInput;
    }
    var n := TermOrZero(years, months);
    var low, high := Bisect(loanAmount.value, emi.value, n);
    var monthlyRate := low;
    var totalInterest := Paid(emi.value, n) - loanAmount.value;
    var totalAmount := loanAmount.value + totalInterest;
    var rows, balance := RunSchedule(loanAmount.value, monthlyRate, emi.value, Passes(n));
    o := Plan(monthlyRate, monthlyRate * 12.0 * 100.0, Round(totalInterest), Round(totalAmount), rows);
  }

  /** At a term of zero months a loan of at most 0 gives an estimate of
      -Infinity or NaN, which never exceeds the EMI, so each pass raises the
      low end and `steps` passes leave it `high - low` halved `steps` times
      below `high`. */
  lemma {:induction false} SearchZeroTerm(loan: real, emi: real, low: real, high: real, steps: nat)
    requires 0.0 <= low < high <= 1.0 && loan <= 0.0
    ensures Search(loan, emi, 0, low, high, steps).0 == high - Halved(high - low, steps)
    decreases steps
  {
    if steps > 0 {
      var mid := (low + high) / 2.0;
      assert !Above(loan, emi, 0, mid);
      SearchZeroTerm(loan, emi, mid, high, steps - 1);
      HalvedFront(high - low, steps - 1);
      assert high - mid == (high - low) / 2.0;
    }
  }

  /** At a term of zero months a positive loan gives an estimate of
      +Infinity, which exceeds every EMI, so each pass lowers the high end
      and the low end never moves. */
  lemma {:induction false} SearchZeroTermPositive(loan: real, emi: real, low: real, high: real, steps: nat)
    requires 0.0 <= low < high <= 1.0 && loan > 0.0
    ensures Search(loan, emi, 0, low, high, steps).0 == low
    ensures Search(loan, emi, 0, low, high, steps).1 == low + Halved(high - low, steps)
    decreases steps
  {
    if steps > 0 {
      var mid := (low + high) / 2.0;
      assert Above(loan, emi, 0, mid);
      SearchZeroTermPositive(loan, emi, low, mid, steps - 1);
      HalvedFront(high - low, steps - 1);
      assert mid - low == (high - low) / 2.0;
    }
  }

  /** A term that passes the guard can still total zero months: with -1 years
      and 12 months the screen reports a monthly rate of 0 for a positive
      loan, and of 1 - 2^-20 otherwise. */
  lemma ZeroTermRate(loan: real, emi: real)
    ensures TermOrZero(Some(-1), Some(12)) == 0
    ensures loan > 0.0 ==> Search(loan, emi, 0, 0.0, 1.0, 20).0 == 0.0
    ensures loan <= 0.0 ==> Search(loan, emi, 0, 0.0, 1.0, 20).0 == 1.0 - Step
  {
    TwentyPasses();
    if loan > 0.0 {
      SearchZeroTermPositive(loan, emi, 0.0, 1.0, 20);
    } else {
      SearchZeroTerm(loan, emi, 0.0, 1.0, 20);
    }
  }
}

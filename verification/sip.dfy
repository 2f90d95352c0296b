/** The SIP screen (`calculateSIP`): a fixed monthly investment, at a monthly
    rate of `annual / 100 / 12`, over a whole number of years, valued with the
    annuity-due formula `P * ((1 + r)^n - 1) * (1 + r) / r`; plus one chart
    point per year. `parseFloat` lets the number of years be negative, and
    the screen then shows a negative investment and an empty chart. */
module Sip {
  import opened Options
  import opened Numeric

  datatype ChartPoint = ChartPoint(year: nat, invested: real, gain: Option<real>)

  datatype Outcome =
    | Alert   // "Please fil all input fields correctly."
      /** The three rounded figures (the total and the return are NaN at a 0% rate) and the chart. */
    | Totals(invested: int, estimatedReturn: Option<int>, total: Option<int>, chart: seq<ChartPoint>)

  /** The chart point of `year`: invested `P * 12 * year` and the return over it. */
  function Point(p: real, r: real, year: nat): ChartPoint
  {
    var m := DueValue(p, r, MonthsIn(year));
    ChartPoint(year, p * 12.0 * year as real, if m.Some? then Some(m.value - p * 12.0 * year as real) else None)
  }

  function Chart(p: real, r: real, years: nat): (c: seq<ChartPoint>)
    ensures |c| == years
    ensures forall i :: 0 <= i < years ==> c[i] == Point(p, r, i + 1)
  {
    seq(years, i requires 0 <= i < years => Point(p, r, i + 1))
  }

  /** The months in `years` years, `parseFloat(timePeriod) * 12`: negative
      for a negative number of years. */
  function Months(years: int): (n: int)
    ensures n >= 0 <==> years >= 0
  {
    years * 12
  }

  /** What `n` monthly deposits of `p` pay in (negative for a negative term). */
  function PaidIn(p: real, n: int): real
  {
    p * n as real
  }

  /** The closed form `P * ((1 + r)^n - 1) * (1 + r) / r` for a term of either
      sign. Over a term of no negative length it is the closed form the other
      saving screens share, NaN (none) only at `r == 0`, where it is 0 / 0.
      Under a negative term `Math.pow` gives the reciprocal power, and a zero
      base `1 + r` gives Infinity, which `(Infinity - 1) * 0` turns into NaN. */
  function Total(p: real, r: real, n: int): (v: Option<real>)
    ensures v.Some? <==> r != 0.0 && (1.0 + r != 0.0 || n >= 0)
  {
    if n >= 0 then DueValue(p, r, n)
    else if r == 0.0 || 1.0 + r == 0.0 then None
    else Some(ReciprocalForm(p, r, n))
  }

  /** The closed form over a negative term `n`, where `Math.pow` gives the
      reciprocal power. */
  function ReciprocalForm(p: real, r: real, n: int): real
    requires n < 0 && r != 0.0 && 1.0 + r != 0.0
  {
    p * ((IPow(1.0 + r, n) - 1.0) * (1.0 + r)) / r
  }

  /** Whether the total has a value: a non-zero rate, and not a rate of
      -1200% (a zero base) over a negative number of years. */
  predicate Finite(annualRate: real, years: int)
  {
    annualRate != 0.0 && (annualRate != -1200.0 || years >= 0)
  }

  function Calculate(monthly: Option<real>, annualRate: Option<real>, years: Option<int>): (o: Outcome)
    ensures o.Alert? <==> monthly.None? || annualRate.None? || years.None?
    ensures o.Totals? ==> (o.total.Some? <==> Finite(annualRate.value, years.value))
                          && (o.estimatedReturn.Some? <==> Finite(annualRate.value, years.value))
                          && o.chart == Chart(monthly.value, MonthlyRate(annualRate.value), Passes(years.value))
                          && o.invested == Round(PaidIn(monthly.value, Months(years.value)))
                          && (o.total.Some? ==>
                                o.total.value == Round(Total(monthly.value, MonthlyRate(annualRate.value), Months(years.value)).value))
  {
    if monthly.None? || annualRate.None? || years.None? then Alert
    else
      var p, r, n := monthly.value, MonthlyRate(annualRate.value), Months(years.value);
      var invested := PaidIn(p, n);
      var total := Total(p, r, n);
      Totals(Round(invested),
             if total.Some? then Some(Round(total.value - invested)) else None,
             if total.Some? then Some(Round(total.value)) else None,
             Chart(p, r, Passes(years.value)))
  }

  /** Chart point `i` is year `i + 1`, with `12 * P * year` invested. */
  lemma ChartYears(monthly: Option<real>, annualRate: Option<real>, years: Option<int>)
    requires Calculate(monthly, annualRate, years).Totals?
    ensures var c := Calculate(monthly, annualRate, years).chart;
            forall i :: 0 <= i < |c| ==> c[i].year == i + 1 && c[i].invested == 12.0 * monthly.value * (i + 1) as real
  {
  }

  /** The displayed invested amount and return add up to the displayed total,
      up to the one unit that rounding each of them separately can lose. */
  lemma TotalsAddUp(monthly: Option<real>, annualRate: Option<real>, years: Option<int>)
    requires Calculate(monthly, annualRate, years).Totals?
    requires Finite(annualRate.value, years.value)
    ensures var o := Calculate(monthly, annualRate, years);
            o.total.value - 1 <= o.invested + o.estimatedReturn.value <= o.total.value + 1
  {
    var p, r, n := monthly.value, MonthlyRate(annualRate.value), Months(years.value);
    RoundSum(PaidIn(p, n), Total(p, r, n).value - PaidIn(p, n));
  }

  /** The shown total is the rounded value of the deposits themselves, and
      the shown investment is the rounded sum paid in. */
  lemma TotalIsDeposits(monthly: real, annualRate: real, years: nat)
    requires annualRate != 0.0
    ensures var o := Calculate(Some(monthly), Some(annualRate), Some(years));
            o.total == Some(Round(monthly * DueSum(1.0 + MonthlyRate(annualRate), MonthsIn(years))))
            && o.invested == Round(PaidIn(monthly, MonthsIn(years)))
  {
    DueValueIsDeposits(monthly, MonthlyRate(annualRate), MonthsIn(years));
  }

  /** The value of `-n` monthly deposits of `p`, each grown month by month,
      then discounted back over those `-n` months, with its sign flipped: what
      the closed form is over a negative term `n`. */
  function Unwound(p: real, r: real, n: int): real
    requires n < 0 && 1.0 + r != 0.0
  {
    PowNonZero(1.0 + r, -n);
    -(p * DueSum(1.0 + r, -n)) / Pow(1.0 + r, -n)
  }

  /** A negative number of years gets past the check: the chart is empty, the
      investment is negative, and the total is the value of the `-12 * years`
      deposits, discounted back over those months, with its sign flipped. */
  lemma NegativeYears(monthly: real, annualRate: real, years: int)
    requires years < 0 && annualRate != 0.0 && annualRate != -1200.0
    ensures Months(years) < 0
    ensures var o := Calculate(Some(monthly), Some(annualRate), Some(years));
            o.Totals? && o.chart == [] && (monthly >= 1.0 ==> o.invested < 0)
            && o.total == Some(Round(Unwound(monthly, MonthlyRate(annualRate), Months(years))))
  {
    DiscountedDeposits(monthly, MonthlyRate(annualRate), Months(years));
    ShownTotal(monthly, annualRate, years, Unwound(monthly, MonthlyRate(annualRate), Months(years)));
    if monthly >= 1.0 {
      assert PaidIn(monthly, Months(years)) <= -12.0 by {
        assert Months(years) as real <= -12.0;
        assert monthly * Months(years) as real <= 1.0 * Months(years) as real;
      }
    }
  }

  /** The screen shows the closed form rounded, whatever its value. */
  lemma ShownTotal(monthly: real, annualRate: real, years: int, t: real)
    requires Total(monthly, MonthlyRate(annualRate), Months(years)) == Some(t)
    ensures Calculate(Some(monthly), Some(annualRate), Some(years)).total == Some(Round(t))
  {
  }

  /** Over a negative term the closed form, with `Math.pow`'s reciprocal
      power, is the deposits' value discounted back over the term. */
  lemma DiscountedDeposits(p: real, r: real, n: int)
    requires n < 0 && r != 0.0 && 1.0 + r != 0.0
    ensures Total(p, r, n) == Some(Unwound(p, r, n))
  {
    var q, k := 1.0 + r, -n;
    var x, d, u := Pow(q, k), DueSum(q, k), IPow(q, n);
    assert ReciprocalForm(p, r, n) == p * ((u - 1.0) * q) / r;
    assert Unwound(p, r, n) == -(p * d) / x;
    assert p * ((u - 1.0) * q) / r == -(p * d) / x by {
      PowNonZero(q, k);
      DueSumAtRate(r, k);
      assert u * x == 1.0 && r * d == (x - 1.0) * q;
      Discount(p, r, q, x, d, u);
    }
  }

  /** The algebra of `DiscountedDeposits`, over plain numbers: with `u` the
      reciprocal of `x` and `r * d == (x - 1) * q`, the closed form's
      `p * ((u - 1) * q) / r` is `-(p * d) / x`. */
  lemma Discount(p: real, r: real, q: real, x: real, d: real, u: real)
    requires r != 0.0 && x != 0.0 && u * x == 1.0 && r * d == (x - 1.0) * q
    ensures p * ((u - 1.0) * q) / r == -(p * d) / x
  {
    var a := (u - 1.0) * q;
    assert a * x == -(r * d) by {
      assert a * x == (u * x - x) * q;
    }
    assert a == -(r * d) / x;
  }

  /** The last chart point shows the same maturity as the totals: its
      invested amount plus its gain is the value of all the deposits. */
  lemma ChartEndsAtTotal(monthly: real, annualRate: real, years: nat)
    requires years >= 1 && annualRate != 0.0
    ensures var r := MonthlyRate(annualRate);
            var last := Chart(monthly, r, years)[years - 1];
            last.gain.Some?
            && last.invested + last.gain.value == monthly * DueSum(1.0 + r, MonthsIn(years))
  {
    PointIsDeposits(monthly, MonthlyRate(annualRate), years);
  }

  /** A chart point's invested amount and gain make up the value of the
      deposits up to its year. */
  lemma PointIsDeposits(p: real, r: real, year: nat)
    requires r != 0.0
    ensures var pt := Point(p, r, year);
            pt.gain.Some? && pt.invested + pt.gain.value == p * DueSum(1.0 + r, MonthsIn(year))
  {
    DueValueIsDeposits(p, r, MonthsIn(year));
  }
}

/** The savings screen (`calculateSavings`, `handleClear`): an initial sum
    and a monthly deposit, compounded at one of four frequencies over a
    number of years. Each frequency is turned into a number of compounding
    periods per year close to twelve, so the exponent is fractional and
    `Math.pow` is the parameter `pow`; `parseFloat` is the parameter `num`. */
module Savings {
  import opened Options
  import opened Numeric

  /** The frequency picker; "monthly" is selected at start. */
  datatype Frequency = Annually | Semiannually | Quarterly | Monthly

  /** The figures shown: none yet, NaN (a 0% rate divides 0 by 0), or the
      rounded final value and interest. */
  datatype Figures = Hidden | NotANumber | Shown(final: int, interest: int)

  datatype Screen = Screen(initial: string, deposit: string, rate: string, years: string,
                           frequency: Frequency, figures: Figures)

  /** The periods-per-year table as written. */
  function Periods(f: Frequency): (k: real)
    ensures 11.9 < k <= 12.0
  {
    match f
    case Annually => 11.96168
    case Semiannually => 11.982267
    case Quarterly => 11.992849
    case Monthly => 12.0
  }

  /** The table grows with the compounding frequency, and only "monthly"
      uses twelve periods. */
  lemma PeriodsOrdered()
    ensures Periods(Annually) < Periods(Semiannually) < Periods(Quarterly) < Periods(Monthly) == 12.0
  {
  }

  /** The final value as written: the initial sum compounded `t = n * k`
      times at `c = r / k`, plus the deposits' annuity scaled by `k / 12`
      unless monthly; none at `c == 0`. */
  function Final(p: real, d: real, r: real, n: real, f: Frequency, pow: (real, real) -> real): (v: Option<real>)
    ensures v.Some? <==> r != 0.0
  {
    var k := Periods(f);
    var c, t := r / k, n * k;
    if c == 0.0 then None
    else
      var x := pow(1.0 + c, t);
      Some(p * x + d * ((x - 1.0) / c) * (if f == Monthly then 1.0 else k / 12.0))
  }

  /** What was paid in: the initial sum and twelve deposits a year. */
  function PaidIn(p: real, d: real, n: real): real
  {
    p + d * n * 12.0
  }

  /** `calculateSavings`: any field that does not parse raises an alert and
      changes nothing; otherwise the figures are the final value and the
      interest earned over what was paid in. */
  function Calculate(s: Screen, num: string -> Option<real>, pow: (real, real) -> real): (r: Screen)
    ensures r.(figures := s.figures) == s
    ensures num(s.initial).None? || num(s.deposit).None? || num(s.rate).None? || num(s.years).None? ==> r == s
    ensures num(s.initial).Some? && num(s.deposit).Some? && num(s.rate).Some? && num(s.years).Some? ==>
              var p, d, n := num(s.initial).value, num(s.deposit).value, num(s.years).value;
              var v := Final(p, d, num(s.rate).value / 100.0, n, s.frequency, pow);
              (r.figures.NotANumber? <==> num(s.rate).value == 0.0)
              && (r.figures.Shown? ==>
                    r.figures.final == Round(v.value) && r.figures.interest == Round(v.value - PaidIn(p, d, n)))
  {
    var p, d, rate, n := num(s.initial), num(s.deposit), num(s.rate), num(s.years);
    if p.None? || d.None? || rate.None? || n.None? then s
    else
      var v := Final(p.value, d.value, rate.value / 100.0, n.value, s.frequency, pow);
      s.(figures := if v.None? then NotANumber else Shown(Round(v.value), Round(v.value - PaidIn(p.value, d.value, n.value))))
  }

  /** The ordinary-annuity quotient is the sum of the deposits' growth. */
  lemma AnnuityQuotient(c: real, m: nat)
    requires c != 0.0
    ensures (Pow(1.0 + c, m) - 1.0) / c == GeomSum(1.0 + c, m)
  {
    GeomSumClosed(1.0 + c, m);
    assert (1.0 + c) - 1.0 == c;
    assert c * GeomSum(1.0 + c, m) == Pow(1.0 + c, m) - 1.0;
  }

  /** Monthly compounding over whole years, with `pow` agreeing with whole
      powers, is the usual month-by-month saving: the initial sum grows for
      every month, and the deposit made at the end of month `j` grows for the
      months after it. */
  lemma MonthlyIsDeposits(p: real, d: real, r: real, years: nat, pow: (real, real) -> real)
    requires r != 0.0
    requires forall x: real, m: nat :: pow(x, m as real) == Pow(x, m)
    ensures var v := Final(p, d, r, years as real, Monthly, pow);
            v.Some? && v.value == p * Pow(1.0 + r / 12.0, years * 12) + d * GeomSum(1.0 + r / 12.0, years * 12)
  {
    assert years as real * 12.0 == (years * 12) as real;
    AnnuityQuotient(r / 12.0, years * 12);
  }

  /** The interest earned and what was paid in make up the final value. */
  lemma InterestAddsUp(s: Screen, num: string -> Option<real>, pow: (real, real) -> real)
    requires Calculate(s, num, pow).figures.Shown?
    requires num(s.initial).Some? && num(s.deposit).Some? && num(s.rate).Some? && num(s.years).Some?
    ensures var f := Calculate(s, num, pow).figures;
            var paid := PaidIn(num(s.initial).value, num(s.deposit).value, num(s.years).value);
            f.final - 1 <= Round(paid) + f.interest <= f.final + 1
  {
    var p, d, n := num(s.initial).value, num(s.deposit).value, num(s.years).value;
    var v := Final(p, d, num(s.rate).value / 100.0, n, s.frequency, pow).value;
    RoundSum(PaidIn(p, d, n), v - PaidIn(p, d, n));
  }

  /** `handleClear`: the four fields blank and no figures; the chosen
      frequency stays. */
  function Clear(s: Screen): (r: Screen)
    ensures r.frequency == s.frequency && r.figures.Hidden?
    ensures r.initial == "" && r.deposit == "" && r.rate == "" && r.years == ""
  {
    Screen("", "", "", "", s.frequency, Hidden)
  }

  /** Calculating after a clear raises the alert, as `parseFloat` reads a
      blank field as NaN, and the screen stays cleared. */
  lemma ClearThenCalculate(s: Screen, num: string -> Option<real>, pow: (real, real) -> real)
    requires num("").None?
    ensures Calculate(Clear(s), num, pow) == Clear(s)
  {
  }
}

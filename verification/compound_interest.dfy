/** The compound-interest screen (`calculateCompoundInterest`, `clearFields`):
    a principal compounded at one of five frequencies over a time in years.
    The time is read with `parseFloat`, so `Math.pow` is the parameter `pow`;
    `parseFloat` is the parameter `num`. */
module CompoundInterest {
  import opened Options
  import opened Numeric

  /** The frequency picker, whose items are the keys of `frequencyMap`;
      "Annually" is selected at start, so the frequency is never unknown. */
  datatype Frequency = Annually | Semiannually | Quarterly | Monthly | Daily

  /** `frequencyMap`: compoundings per year. */
  function PerYear(f: Frequency): (n: nat)
    ensures n in {1, 2, 4, 12, 365}
  {
    match f
    case Annually => 1
    case Semiannually => 2
    case Quarterly => 4
    case Monthly => 12
    case Daily => 365
  }

  /** The field texts, the picker, and the three results; the results block
      renders only while `amount` is set. */
  datatype Screen = Screen(principal: string, rate: string, time: string, frequency: Frequency,
                           amount: Option<int>, shownPrincipal: Option<int>, interest: Option<int>)

  /** `A = P * (1 + r / n)^(n t)`. */
  function Amount(p: real, r: real, t: real, f: Frequency, pow: (real, real) -> real): real
  {
    var n := PerYear(f) as real;
    p * pow(1.0 + r / n, n * t)
  }

  /** `calculateCompoundInterest`: a field that does not parse raises an
      alert and changes nothing; otherwise the amount and the principal are
      rounded, and the interest is their difference. */
  function Calculate(s: Screen, num: string -> Option<real>, pow: (real, real) -> real): (r: Screen)
    ensures r.(amount := s.amount, shownPrincipal := s.shownPrincipal, interest := s.interest) == s
    ensures num(s.principal).None? || num(s.rate).None? || num(s.time).None? ==> r == s
    ensures num(s.principal).Some? && num(s.rate).Some? && num(s.time).Some? ==>
              r.amount == Some(Round(Amount(num(s.principal).value, num(s.rate).value / 100.0, num(s.time).value, s.frequency, pow)))
              && r.shownPrincipal == Some(Round(num(s.principal).value))
              && r.interest.Some?
  {
    var p, rate, t := num(s.principal), num(s.rate), num(s.time);
    if p.None? || rate.None? || t.None? then s
    else
      var a := Round(Amount(p.value, rate.value / 100.0, t.value, s.frequency, pow));
      s.(amount := Some(a), shownPrincipal := Some(Round(p.value)), interest := Some(a - Round(p.value)))
  }

  /** The interest is taken from the rounded figures, so the shown principal
      and interest add up to the shown total exactly. */
  lemma ShownFiguresAddUp(s: Screen, num: string -> Option<real>, pow: (real, real) -> real)
    requires num(s.principal).Some? && num(s.rate).Some? && num(s.time).Some?
    ensures var r := Calculate(s, num, pow);
            r.shownPrincipal.value + r.interest.value == r.amount.value
  {
  }

  /** Over whole years, with `pow` agreeing with whole powers, compounding
      `n` times a year for `t` years is `n t` growth steps of `r / n` each. */
  lemma WholeYears(p: real, r: real, t: nat, f: Frequency, pow: (real, real) -> real)
    requires forall x: real, m: nat :: pow(x, m as real) == Pow(x, m)
    ensures Amount(p, r, t as real, f, pow) == p * Pow(1.0 + r / PerYear(f) as real, PerYear(f) * t)
  {
    assert PerYear(f) as real * t as real == (PerYear(f) * t) as real;
  }

  /** Annual compounding over one year adds exactly the yearly rate. */
  lemma OneYearAnnually(p: real, r: real, pow: (real, real) -> real)
    requires forall x: real, m: nat :: pow(x, m as real) == Pow(x, m)
    ensures Amount(p, r, 1.0, Annually, pow) == p * (1.0 + r)
  {
    WholeYears(p, r, 1, Annually, pow);
    assert Pow(1.0 + r, 1) == 1.0 + r;
  }

  /** `clearFields`: the fields blank, the picker back to "Annually" and the
      amount unset, which hides the results; the shown principal and interest
      keep their old values, out of sight. */
  function Clear(s: Screen): (r: Screen)
    ensures r.principal == "" && r.rate == "" && r.time == "" && r.frequency == Annually && r.amount.None?
    ensures r.shownPrincipal == s.shownPrincipal && r.interest == s.interest
  {
    s.(principal := "", rate := "", time := "", frequency := Annually, amount := None)
  }

  /** Calculating after a clear raises the alert and leaves the screen cleared. */
  lemma ClearThenCalculate(s: Screen, num: string -> Option<real>, pow: (real, real) -> real)
    requires num("").None?
    ensures Calculate(Clear(s), num, pow) == Clear(s)
  {
  }
}

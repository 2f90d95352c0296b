/** The inflation screen (`calculateFutureValue`, `handleClear`): what an
    amount grows to at a yearly inflation rate over a number of years. The
    years are read with `parseFloat`, so `Math.pow` is the parameter `pow`;
    `parseFloat` is the parameter `num`. */
module Inflation {
  import opened Options
  import opened Numeric

  /** The three field texts and the rounded future value, none before the
      first calculation and after a clear. */
  datatype Screen = Screen(initial: string, rate: string, years: string, futureValue: Option<int>)

  /** `P * (1 + r)^n`. */
  function Future(p: real, r: real, n: real, pow: (real, real) -> real): real
  {
    p * pow(1.0 + r, n)
  }

  /** `calculateFutureValue`: a field that does not parse raises an alert and
      changes nothing; otherwise the rounded future value is shown. */
  function Calculate(s: Screen, num: string -> Option<real>, pow: (real, real) -> real): (r: Screen)
    ensures r.(futureValue := s.futureValue) == s
    ensures num(s.initial).None? || num(s.rate).None? || num(s.years).None? ==> r == s
    ensures num(s.initial).Some? && num(s.rate).Some? && num(s.years).Some? ==>
              r.futureValue == Some(Round(Future(num(s.initial).value, num(s.rate).value / 100.0, num(s.years).value, pow)))
  {
    var p, rate, n := num(s.initial), num(s.rate), num(s.years);
    if p.None? || rate.None? || n.None? then s
    else s.(futureValue := Some(Round(Future(p.value, rate.value / 100.0, n.value, pow))))
  }

  /** Over whole years, with `pow` agreeing with whole powers, the amount is
      unchanged after no years and grows by `1 + r` each further year. */
  lemma YearByYear(p: real, r: real, n: nat, pow: (real, real) -> real)
    requires forall x: real, m: nat :: pow(x, m as real) == Pow(x, m)
    ensures Future(p, r, 0.0, pow) == p
    ensures Future(p, r, (n + 1) as real, pow) == Future(p, r, n as real, pow) * (1.0 + r)
  {
    assert pow(1.0 + r, 0 as real) == Pow(1.0 + r, 0);
    assert pow(1.0 + r, (n + 1) as real) == Pow(1.0 + r, n + 1);
    PowSucc(1.0 + r, n);
  }

  /** A positive amount at a positive rate only grows. */
  lemma Grows(p: real, r: real, n: nat, pow: (real, real) -> real)
    requires forall x: real, m: nat :: pow(x, m as real) == Pow(x, m)
    requires p > 0.0 && r > 0.0 && n >= 1
    ensures Future(p, r, n as real, pow) > p
  {
    PowAboveOne(1.0 + r, n);
    assert pow(1.0 + r, n as real) == Pow(1.0 + r, n);
    assert p * Pow(1.0 + r, n) - p == p * (Pow(1.0 + r, n) - 1.0);
    ProductPositive(p, Pow(1.0 + r, n) - 1.0);
  }

  /** `handleClear`: the three fields blank and no future value. */
  function Clear(s: Screen): (r: Screen)
    ensures r.initial == "" && r.rate == "" && r.years == "" && r.futureValue.None?
  {
    Screen("", "", "", None)
  }

  /** Calculating after a clear raises the alert and leaves the screen cleared. */
  lemma ClearThenCalculate(s: Screen, num: string -> Option<real>, pow: (real, real) -> real)
    requires num("").None?
    ensures Calculate(Clear(s), num, pow) == Clear(s)
  {
  }
}

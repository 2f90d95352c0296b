/** The mutual-fund screen (`calculateMutualFund`, `handleClear`): an initial
    investment compounded once a year at a yearly return over a number of
    years. The years are read with `parseFloat`, so `Math.pow` is the
    parameter `pow`; `parseFloat` is the parameter `num`. */
module MutualFund {
  import opened Options
  import opened Numeric

  /** The three field texts and the two rounded results, none before the
      first calculation and after a clear. */
  datatype Screen = Screen(initial: string, rate: string, years: string,
                           finalAmount: Option<int>, interest: Option<int>)

  /** `A = P * (1 + r / n)^(n t)` with `n = 1`. */
  function Amount(p: real, r: real, t: real, pow: (real, real) -> real): real
  {
    p * pow(1.0 + r / 1.0, 1.0 * t)
  }

  /** `calculateMutualFund`: a field that does not parse raises an alert and
      changes nothing; otherwise the final amount and the interest over the
      investment are rounded separately. */
  function Calculate(s: Screen, num: string -> Option<real>, pow: (real, real) -> real): (r: Screen)
    ensures r.(finalAmount := s.finalAmount, interest := s.interest) == s
    ensures num(s.initial).None? || num(s.rate).None? || num(s.years).None? ==> r == s
    ensures num(s.initial).Some? && num(s.rate).Some? && num(s.years).Some? ==>
              var p := num(s.initial).value;
              var a := Amount(p, num(s.rate).value / 100.0, num(s.years).value, pow);
              r.finalAmount == Some(Round(a)) && r.interest == Some(Round(a - p))
  {
    var p, rate, t := num(s.initial), num(s.rate), num(s.years);
    if p.None? || rate.None? || t.None? then s
    else
      var a := Amount(p.value, rate.value / 100.0, t.value, pow);
      s.(finalAmount := Some(Round(a)), interest := Some(Round(a - p.value)))
  }

  /** Once-a-year compounding is plain annual growth `P * (1 + r)^t`. */
  lemma AnnualGrowth(p: real, r: real, t: real, pow: (real, real) -> real)
    ensures Amount(p, r, t, pow) == p * pow(1.0 + r, t)
  {
    assert r / 1.0 == r && 1.0 * t == t;
  }

  /** Both results are truthy: present and not 0. */
  predicate Shown(s: Screen)
  {
    s.finalAmount.Some? && s.finalAmount.value != 0 && s.interest.Some? && s.interest.value != 0
  }

  /** What `{finalAmount && interestAmount && (<View>…)}` evaluates to: null
      renders nothing, two non-zero numbers render the results block, and a
      0 is handed to the enclosing `<View>` as a bare number, which React
      Native refuses to render outside `<Text>`: a render error. */
  datatype Rendered = Nothing | Results | StrayZero

  function Render(s: Screen): (v: Rendered)
    ensures v.Results? <==> Shown(s)
    ensures v.StrayZero? <==> s.finalAmount == Some(0) || (s.finalAmount.Some? && s.finalAmount.value != 0 && s.interest == Some(0))
    ensures s.finalAmount.None? ==> v.Nothing?
  {
    if s.finalAmount.None? then Nothing
    else if s.finalAmount.value == 0 then StrayZero
    else if s.interest.None? then Nothing
    else if s.interest.value == 0 then StrayZero
    else Results
  }

  /** At a 0% return the interest is 0, so the guard hands the bare 0 to the
      `<View>` and the screen fails to render, whatever the final amount. */
  lemma ZeroRateRenderError(s: Screen, num: string -> Option<real>, pow: (real, real) -> real)
    requires num(s.initial).Some? && num(s.rate) == Some(0.0) && num(s.years).Some?
    requires pow(1.0, num(s.years).value) == 1.0
    ensures Calculate(s, num, pow).interest == Some(0)
    ensures Render(Calculate(s, num, pow)) == StrayZero
  {
    var p := num(s.initial).value;
    assert Amount(p, 0.0, num(s.years).value, pow) == p;
  }

  /** Growth compounded year by year: `k` times a factor of `1 + r`. */
  function Compounded(p: real, r: real, k: nat): real
  {
    if k == 0 then p else Compounded(p, r, k - 1) * (1.0 + r)
  }

  lemma {:induction false} CompoundedClosed(p: real, r: real, k: nat)
    ensures Compounded(p, r, k) == p * Pow(1.0 + r, k)
    decreases k
  {
    if k > 0 {
      CompoundedClosed(p, r, k - 1);
      PowSucc(1.0 + r, k - 1);
    }
  }

  /** Over a whole number of years, with `pow` agreeing with whole powers, the
      final amount is the investment grown year by year at the yearly return. */
  lemma WholeYears(s: Screen, num: string -> Option<real>, pow: (real, real) -> real, k: nat)
    requires num(s.initial).Some? && num(s.rate).Some? && num(s.years) == Some(k as real)
    requires pow(1.0 + num(s.rate).value / 100.0, k as real) == Pow(1.0 + num(s.rate).value / 100.0, k)
    ensures Calculate(s, num, pow).finalAmount == Some(Round(Compounded(num(s.initial).value, num(s.rate).value / 100.0, k)))
  {
    var p, r := num(s.initial).value, num(s.rate).value / 100.0;
    CompoundedClosed(p, r, k);
    AnnualGrowth(p, r, k as real, pow);
    assert Amount(p, r, k as real, pow) == Compounded(p, r, k);
  }

  /** The shown interest is the shown final amount less the investment, to
      within the one unit that separate rounding can lose. */
  lemma InterestAddsUp(p: real, r: real, t: real, pow: (real, real) -> real)
    ensures var a := Amount(p, r, t, pow);
            Round(a) - 1 <= Round(p) + Round(a - p) <= Round(a) + 1
  {
    RoundSum(p, Amount(p, r, t, pow) - p);
  }

  /** `handleClear`: the three fields blank and no results. */
  function Clear(s: Screen): (r: Screen)
    ensures r.initial == "" && r.rate == "" && r.years == "" && r.finalAmount.None? && r.interest.None?
    ensures Render(r) == Nothing
  {
    Screen("", "", "", None, None)
  }

  /** Calculating after a clear raises the alert and leaves the screen cleared. */
  lemma ClearThenCalculate(s: Screen, num: string -> Option<real>, pow: (real, real) -> real)
    requires num("").None?
    ensures Calculate(Clear(s), num, pow) == Clear(s)
  {
  }
}

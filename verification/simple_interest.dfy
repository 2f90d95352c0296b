/** The simple-interest screen (`calculateInterest`, `clearFields`):
    `SI = P * R * T / 100` and the total `P + SI`, each rounded for display.
    `parseFloat` is the parameter `num`. */
module SimpleInterest {
  import opened Options
  import opened Numeric

  /** The three field texts and the three rounded results; the results
      block renders while the interest and the total are set. */
  datatype Screen = Screen(principal: string, rate: string, time: string,
                           shownPrincipal: Option<int>, interest: Option<int>, total: Option<int>)

  /** `P * R * T / 100`, with `R` in percent a year and `T` in years. */
  function Interest(p: real, r: real, t: real): real
  {
    p * r * t / 100.0
  }

  /** `calculateInterest`: a field that does not parse raises an alert and
      changes nothing; otherwise the principal, the interest and the total
      `P + SI` are each rounded. */
  function Calculate(s: Screen, num: string -> Option<real>): (r: Screen)
    ensures r.(shownPrincipal := s.shownPrincipal, interest := s.interest, total := s.total) == s
    ensures num(s.principal).None? || num(s.rate).None? || num(s.time).None? ==> r == s
    ensures num(s.principal).Some? && num(s.rate).Some? && num(s.time).Some? ==>
              var p, si := num(s.principal).value, Interest(num(s.principal).value, num(s.rate).value, num(s.time).value);
              r.shownPrincipal == Some(Round(p)) && r.interest == Some(Round(si)) && r.total == Some(Round(p + si))
  {
    var p, rate, t := num(s.principal), num(s.rate), num(s.time);
    if p.None? || rate.None? || t.None? then s
    else
      var si := Interest(p.value, rate.value, t.value);
      s.(shownPrincipal := Some(Round(p.value)), interest := Some(Round(si)), total := Some(Round(p.value + si)))
  }

  /** No principal, no rate or no time earns nothing. */
  lemma ZeroFactor(p: real, r: real, t: real)
    requires p == 0.0 || r == 0.0 || t == 0.0
    ensures Interest(p, r, t) == 0.0
  {
  }

  /** The interest is linear in each of the three: splitting the principal,
      the rate or the time splits the interest the same way. */
  lemma Linear(p: real, q: real, r: real, s: real, t: real, u: real)
    ensures Interest(p + q, r, t) == Interest(p, r, t) + Interest(q, r, t)
    ensures Interest(p, r + s, t) == Interest(p, r, t) + Interest(p, s, t)
    ensures Interest(p, r, t + u) == Interest(p, r, t) + Interest(p, r, u)
  {
  }

  /** One year at `R` percent earns `R / 100` of the principal. */
  lemma OneYear(p: real, r: real)
    ensures p + Interest(p, r, 1.0) == p * (1.0 + r / 100.0)
  {
  }

  /** The shown principal and interest add up to the shown total to within
      the one unit that separate rounding can lose. */
  lemma TotalAddsUp(s: Screen, num: string -> Option<real>)
    requires num(s.principal).Some? && num(s.rate).Some? && num(s.time).Some?
    ensures var r := Calculate(s, num);
            r.total.value - 1 <= r.shownPrincipal.value + r.interest.value <= r.total.value + 1
  {
    var p := num(s.principal).value;
    RoundSum(p, Interest(p, num(s.rate).value, num(s.time).value));
  }

  /** `clearFields`: the fields blank and all three results unset. */
  function Clear(s: Screen): (r: Screen)
    ensures r.principal == "" && r.rate == "" && r.time == ""
    ensures r.shownPrincipal.None? && r.interest.None? && r.total.None?
  {
    Screen("", "", "", None, None, None)
  }

  /** Calculating after a clear raises the alert and leaves the screen cleared. */
  lemma ClearThenCalculate(s: Screen, num: string -> Option<real>)
    requires num("").None?
    ensures Calculate(Clear(s), num) == Clear(s)
  {
  }
}

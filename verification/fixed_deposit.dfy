/** The fixed-deposit screen (`calculateFD`, `clearAll`): a deposit compounded
    quarterly over a tenure given in years, months and days, and the interest
    split per payout period. The tenure is fractional in general, so
    `Math.pow` is the parameter `pow`; `parseFloat` and `parseInt` are the
    parameters `num` and `whole` (`None` for NaN). */
module FixedDeposit {
  import opened Options
  import opened Numeric

  /** The payout picker; "On Maturity" is selected at start. */
  datatype PayoutKind = OnMaturity | Monthly | Quarterly | ShortTerm

  /** The payout result: `null` (nothing shown), or a rounded amount, none
      when the division by a zero tenure gives NaN or an infinity. */
  datatype Payout = NoPayout | Periodic(amount: Option<int>)

  datatype Screen = Screen(deposit: string, rate: string, payoutKind: PayoutKind,
                           years: string, months: string, days: string,
                           maturity: Option<int>, interest: Option<int>, payout: Payout)

  /** Payouts per year: twelve monthly, four quarterly, two short-term
      (six months each); none when the interest is paid at maturity. */
  function PerYear(k: PayoutKind): (n: Option<nat>)
    ensures n.None? <==> k == OnMaturity
    ensures n.Some? ==> n.value in {2, 4, 12}
  {
    match k
    case OnMaturity => None
    case Monthly => Some(12)
    case Quarterly => Some(4)
    case ShortTerm => Some(2)
  }

  /** One tenure field in years: a blank field adds nothing, a filled one
      adds its `parseInt` value over `units` (12 months or 365 days a year). */
  function Part(text: string, whole: string -> Option<int>, units: real): (t: Option<real>)
    requires units > 0.0
    ensures text == "" ==> t == Some(0.0)
    ensures text != "" ==> (t.Some? <==> whole(text).Some?)
    ensures t.Some? && text != "" ==> t.value * units == whole(text).value as real
  {
    if text == "" then Some(0.0)
    else match whole(text)
      case None => None
      case Some(k) => Some(k as real / units)
  }

  /** The tenure in years; none when a filled field does not parse. */
  function Tenure(years: string, months: string, days: string, whole: string -> Option<int>): (t: Option<real>)
    ensures t.Some? <==> Part(years, whole, 1.0).Some? && Part(months, whole, 12.0).Some? && Part(days, whole, 365.0).Some?
    ensures t.Some? ==> t.value == Part(years, whole, 1.0).value + Part(months, whole, 12.0).value + Part(days, whole, 365.0).value
  {
    var y, m, d := Part(years, whole, 1.0), Part(months, whole, 12.0), Part(days, whole, 365.0);
    if y.Some? && m.Some? && d.Some? then Some(y.value + m.value + d.value) else None
  }

  /** The amount at maturity, `P * (1 + r / 4)^(4 t)`. */
  function Maturity(p: real, r: real, t: real, pow: (real, real) -> real): real
  {
    p * pow(1.0 + r / 4.0, 4.0 * t)
  }

  /** The interest paid per period, unrounded: none at a zero tenure. */
  function PerPeriod(interest: real, perYear: nat, t: real): (v: Option<real>)
    requires perYear > 0
    ensures v.Some? <==> t != 0.0
    ensures v.Some? ==> v.value * (t * perYear as real) == interest
  {
    if t == 0.0 then None
    else
      var periods := t * perYear as real;
      DivCancel(interest, periods);
      Some(interest / periods)
  }

  /** `calculateFD`: a deposit, rate or tenure that does not parse returns
      without changing anything. */
  function Calculate(s: Screen, num: string -> Option<real>, whole: string -> Option<int>,
                     pow: (real, real) -> real): (r: Screen)
    ensures var t := Tenure(s.years, s.months, s.days, whole);
            num(s.deposit).None? || num(s.rate).None? || t.None? ==> r == s
    ensures var p, t := num(s.deposit), Tenure(s.years, s.months, s.days, whole);
            p.Some? && num(s.rate).Some? && t.Some? ==>
              var a := Maturity(p.value, num(s.rate).value / 100.0, t.value, pow);
              r.maturity == Some(Round(a)) && r.interest == Some(Round(a - p.value))
              && (r.payout.NoPayout? <==> s.payoutKind == OnMaturity)
              && (r.payout.Periodic? ==>
                    var v := PerPeriod(a - p.value, PerYear(s.payoutKind).value, t.value);
                    r.payout.amount.Some? == v.Some? && (v.Some? ==> r.payout.amount.value == Round(v.value)))
    ensures r.(maturity := s.maturity, interest := s.interest, payout := s.payout) == s
  {
    var p, rate, t := num(s.deposit), num(s.rate), Tenure(s.years, s.months, s.days, whole);
    if p.None? || rate.None? || t.None? then s
    else
      var a := Maturity(p.value, rate.value / 100.0, t.value, pow);
      var interest := a - p.value;
      var payout :=
        match PerYear(s.payoutKind)
        case None => NoPayout
        case Some(k) =>
          var v := PerPeriod(interest, k, t.value);
          Periodic(if v.Some? then Some(Round(v.value)) else None);
      s.(maturity := Some(Round(a)), interest := Some(Round(interest)), payout := payout)
  }

  /** The deposit and the interest make up the maturity amount, before
      rounding exactly and after it to within one unit. */
  lemma InterestAddsUp(p: real, r: real, t: real, pow: (real, real) -> real)
    ensures var a := Maturity(p, r, t, pow);
            p + (a - p) == a && Round(a) - 1 <= Round(p) + Round(a - p) <= Round(a) + 1
  {
    RoundSum(p, Maturity(p, r, t, pow) - p);
  }

  /** With months and days blank and `pow` agreeing with whole powers, a
      tenure of `y` whole years compounds `4 y` times. */
  lemma WholeYears(p: real, r: real, years: string, whole: string -> Option<int>, pow: (real, real) -> real)
    requires years != "" && whole(years).Some? && whole(years).value >= 0
    requires forall x: real, n: nat :: pow(x, n as real) == Pow(x, n)
    ensures var t := Tenure(years, "", "", whole);
            t.Some? && Maturity(p, r, t.value, pow) == p * Pow(1.0 + r / 4.0, 4 * whole(years).value)
  {
    var y: nat := whole(years).value;
    assert 4.0 * (y as real) == (4 * y) as real;
  }

  /** A tenure of 18 months, or of one year and six months, is one and a half years. */
  lemma MonthsCount(whole: string -> Option<int>)
    requires whole("18") == Some(18) && whole("1") == Some(1) && whole("6") == Some(6)
    ensures Tenure("", "18", "", whole) == Some(1.5)
    ensures Tenure("1", "6", "", whole) == Some(1.5)
  {
  }

  /** All tenure fields blank: a tenure of 0, so a periodic payout divides by
      0 and shows no number. */
  lemma BlankTenure(s: Screen, num: string -> Option<real>, whole: string -> Option<int>, pow: (real, real) -> real)
    requires s.years == "" && s.months == "" && s.days == ""
    requires num(s.deposit).Some? && num(s.rate).Some? && s.payoutKind != OnMaturity
    ensures Calculate(s, num, whole, pow).payout == Periodic(None)
  {
  }

  /** `clearAll`: every field blank, the payout back to "On Maturity" and no
      results. */
  function Clear(s: Screen): (r: Screen)
    ensures r.payoutKind == OnMaturity && r.maturity.None? && r.interest.None? && r.payout.NoPayout?
    ensures r.deposit == "" && r.rate == "" && r.years == "" && r.months == "" && r.days == ""
  {
    Screen("", "", OnMaturity, "", "", "", None, None, NoPayout)
  }

  /** Calculating after a clear reads a blank deposit, which `parseFloat`
      reads as NaN, so the screen stays cleared. */
  lemma ClearThenCalculate(s: Screen, num: string -> Option<real>, whole: string -> Option<int>, pow: (real, real) -> real)
    requires num("").None?
    ensures Calculate(Clear(s), num, whole, pow) == Clear(s)
  {
  }
}

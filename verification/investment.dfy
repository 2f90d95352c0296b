/** The investment screen (`calculateInvestment`): a one-time deposit
    compounded once a year, or a recurring monthly deposit compounded monthly,
    over a whole number of years, with one chart point per year. The source
    does no validation, so a field that does not parse gives NaN everywhere;
    here that is the outcome `NotANumber`. */
module Investment {
  import opened Options
  import opened Numeric

  /** The two radio buttons; "one-time" is selected at start. */
  datatype Kind = OneTime | Recurring

  datatype ChartPoint = ChartPoint(year: nat, invested: real, gain: Option<real>)

  datatype Outcome =
    | NotANumber
      /** The three rounded figures and the chart. */
    | Figures(maturity: int, invested: int, interest: int, chart: seq<ChartPoint>)

  /** The recurring loop: month `i` of `n` adds `p * (1 + m)^(n - i)`, the
      deposit made `n - i` months before maturity. */
  method RecurringMaturity(p: real, m: real, n: nat) returns (maturity: real)
    ensures maturity == p * DueSum(1.0 + m, n)
  {
    maturity := 0.0;
    var i := 0;
    while i < n
      invariant 0 <= i <= n
      invariant maturity + p * DueSum(1.0 + m, n - i) == p * DueSum(1.0 + m, n)
    {
      assert DueSum(1.0 + m, n - i) == DueSum(1.0 + m, n - i - 1) + Pow(1.0 + m, n - i);
      maturity := maturity + p * Pow(1.0 + m, n - i);
      i := i + 1;
    }
  }

  /** A one-time deposit `p` after `n` annual compoundings at rate `r`. */
  function Grown(p: real, r: real, n: nat): real
  {
    p * Pow(1.0 + r, n)
  }

  /** The chart point of `year`: a one-time deposit's value after `year`
      annual compoundings, or the recurring closed form after `12 * year`
      months (none at a 0% rate, where it is 0/0). */
  function Point(kind: Kind, p: real, annual: real, year: nat): ChartPoint
  {
    match kind
    case OneTime => ChartPoint(year, p, Some(Grown(p, annual, year) - p))
    case Recurring =>
      var v := DueValue(p, annual / 12.0, MonthsIn(year));
      ChartPoint(year, p * 12.0 * year as real, if v.Some? then Some(v.value - p * 12.0 * year as real) else None)
  }

  function Chart(kind: Kind, p: real, annual: real, years: nat): (c: seq<ChartPoint>)
    ensures |c| == years
    ensures forall i :: 0 <= i < years ==> c[i] == Point(kind, p, annual, i + 1)
  {
    seq(years, i requires 0 <= i < years => Point(kind, p, annual, i + 1))
  }

  /** The value at maturity the screen works out, unrounded: the grown
      one-time deposit, or the sum of the monthly deposits with their growth. */
  function Matured(kind: Kind, p: real, annual: real, years: nat): real
  {
    match kind
    case OneTime => Grown(p, annual, years)
    case Recurring => p * DueSum(1.0 + annual / 12.0, MonthsIn(years))
  }

  /** The amount paid in: the one deposit, or one deposit a month. */
  function Invested(kind: Kind, p: real, years: nat): real
  {
    match kind
    case OneTime => p
    case Recurring => p * MonthsIn(years) as real
  }

  /** `calculateInvestment` with the amount, the annual rate in percent and
      the duration in whole years. */
  method Calculate(kind: Kind, amount: Option<real>, ratePercent: Option<real>, years: Option<nat>)
    returns (o: Outcome)
    ensures o.NotANumber? <==> amount.None? || ratePercent.None? || years.None?
    ensures o.Figures? ==>
              var p, r := amount.value, ratePercent.value / 100.0;
              o.maturity == Round(Matured(kind, p, r, years.value))
              && o.invested == Round(Invested(kind, p, years.value))
              && o.interest == Round(Matured(kind, p, r, years.value) - Invested(kind, p, years.value))
              && o.chart == Chart(kind, p, r, years.value)
  {
    if amount.None? || ratePercent.None? || years.None? {
      return NotANumber;
    }
    var p, r := amount.value, ratePercent.value / 100.0;
    var maturity: real;
    match kind {
      case OneTime =>
        maturity := Grown(p, r, years.value);
      case Recurring =>
        maturity := RecurringMaturity(p, r / 12.0, MonthsIn(years.value));
        assert maturity == Matured(Recurring, p, r, years.value);
    }
    var invested := Invested(kind, p, years.value);
    o := Figures(Round(maturity), Round(invested), Round(maturity - invested), Chart(kind, p, r, years.value));
  }

  /** The shown interest is the shown maturity less the shown investment, up
      to the one unit that rounding each figure separately can lose. */
  lemma InterestIsDifference(kind: Kind, p: real, annual: real, years: nat)
    ensures var maturity, invested := Matured(kind, p, annual, years), Invested(kind, p, years);
            Round(maturity) - 1 <= Round(invested) + Round(maturity - invested) <= Round(maturity) + 1
  {
    RoundSum(Invested(kind, p, years), Matured(kind, p, annual, years) - Invested(kind, p, years));
  }

  /** Chart point `i` is year `i + 1`, with `P` invested once or `12 * P * year`
      invested monthly. */
  lemma ChartYears(kind: Kind, p: real, annual: real, years: nat)
    ensures var c := Chart(kind, p, annual, years);
            forall i :: 0 <= i < years ==>
              c[i].year == i + 1
              && c[i].invested == (if kind == OneTime then p else 12.0 * p * (i + 1) as real)
  {
  }

  /** The last one-time chart point shows the maturity: the deposit plus its
      gain is `P * (1 + r)^years`. */
  lemma OneTimeChartEndsAtMaturity(p: real, annual: real, years: nat)
    requires years >= 1
    ensures var last := Chart(OneTime, p, annual, years)[years - 1];
            last.gain.Some? && last.invested + last.gain.value == Matured(OneTime, p, annual, years)
  {
  }

  /** The last recurring chart point, computed with the closed form, shows the
      same maturity as the month-by-month loop, for any non-zero rate. */
  lemma RecurringChartEndsAtMaturity(p: real, annual: real, years: nat)
    requires years >= 1 && annual != 0.0
    ensures var last := Chart(Recurring, p, annual, years)[years - 1];
            last.gain.Some? && last.invested + last.gain.value == Matured(Recurring, p, annual, years)
  {
    DueValueIsDeposits(p, annual / 12.0, MonthsIn(years));
  }

  /** Year by year, a one-time deposit's chart value grows by `1 + r`. */
  lemma {:induction false} OneTimeGrowth(p: real, annual: real, years: nat, i: nat)
    requires i + 1 < years
    ensures var c := Chart(OneTime, p, annual, years);
            c[i + 1].invested + c[i + 1].gain.value == (c[i].invested + c[i].gain.value) * (1.0 + annual)
  {
    PowSucc(1.0 + annual, i + 1);
  }

  /** The screen: the selected kind, the three field texts and what is shown. */
  datatype Screen = Screen(kind: Kind, amount: string, rate: string, duration: string, shown: Option<Outcome>)

  /** `clearFields`: empties the fields, the three result lines and the chart;
      the selected kind stays. */
  function Clear(s: Screen): (r: Screen)
    ensures r.kind == s.kind && r.shown.None?
    ensures r.amount == "" && r.rate == "" && r.duration == ""
  {
    Screen(s.kind, "", "", "", None)
  }
}

/** The pension screen (`calculateNPS`): monthly contributions from the given
    age up to 60, compounded monthly, then a split of the pension wealth into
    a lump sum and an annuity paying a monthly pension. The source does no
    validation: a field that does not parse, or a 0% rate (0/0), leaves the
    figures that depend on it NaN, which is `None` here, and the others as
    numbers. The age is read with `parseInt`, so the period is a whole number
    of months, negative past 60. */
module Nps {
  import opened Options
  import opened Numeric

  /** The four rounded figures, each `None` where JavaScript gets NaN. */
  datatype Figures = Figures(totalInvestment: Option<int>, pensionWealth: Option<int>,
                             lumpsum: Option<int>, monthlyPension: Option<int>)

  /** Months of contribution: `(60 - age) * 12`. */
  function Months(age: int): (m: int)
    ensures m % 12 == 0
    ensures m > 0 <==> age < 60
  {
    (60 - age) * 12
  }

  /** The pension wealth as written, `c * ((1 + i)^m - 1) / i * (1 + i)` with
      the monthly rate `i`; none at `i == 0` (0/0) and when a base of 0 is
      raised to a negative power. */
  function Wealth(c: real, i: real, m: int): (w: Option<real>)
    ensures w.Some? <==> i != 0.0 && (1.0 + i != 0.0 || m >= 0)
  {
    if i == 0.0 || (1.0 + i == 0.0 && m < 0) then None
    else Some(c * ((IPow(1.0 + i, m) - 1.0) / i) * (1.0 + i))
  }

  /** The share of the wealth paid out at once. */
  function Lumpsum(wealth: real, annuityShare: real): real
  {
    wealth * (1.0 - annuityShare)
  }

  /** The share of the wealth that buys the annuity. */
  function Annuity(wealth: real, annuityShare: real): real
  {
    wealth * annuityShare
  }

  /** One month's pension from the annuity at its yearly rate. */
  function Pension(annuity: real, annuityRate: real): real
  {
    annuity * annuityRate / 12.0
  }

  /** The pension wealth from the three fields it reads. */
  function WealthOf(age: Option<int>, contribution: Option<real>, ratePercent: Option<real>): (w: Option<real>)
    ensures w.Some? ==> age.Some? && contribution.Some? && ratePercent.Some?
  {
    if age.None? || contribution.None? || ratePercent.None? then None
    else Wealth(contribution.value, ratePercent.value / 100.0 / 12.0, Months(age.value))
  }

  /** `calculateNPS`: the age, the contribution, the rate in percent, the
      annuity share in percent and the annuity rate in percent. Each figure
      is NaN exactly when a field it reads is, or it reads the wealth and the
      wealth formula has no value. */
  function Calculate(age: Option<int>, contribution: Option<real>, ratePercent: Option<real>,
                     annuityPercent: Option<real>, annuityRatePercent: Option<real>): (o: Figures)
    ensures o.totalInvestment.Some? <==> age.Some? && contribution.Some?
    ensures o.totalInvestment.Some? ==> o.totalInvestment.value == Round(contribution.value * Months(age.value) as real)
    ensures o.pensionWealth.Some? <==> WealthOf(age, contribution, ratePercent).Some?
    ensures o.lumpsum.Some? <==> o.pensionWealth.Some? && annuityPercent.Some?
    ensures o.monthlyPension.Some? <==> o.lumpsum.Some? && annuityRatePercent.Some?
    ensures o.pensionWealth.Some? ==>
              var w := WealthOf(age, contribution, ratePercent).value;
              o.pensionWealth.value == Round(w)
              && (annuityPercent.Some? ==> o.lumpsum.value == Round(Lumpsum(w, annuityPercent.value / 100.0)))
              && (annuityPercent.Some? && annuityRatePercent.Some? ==>
                    o.monthlyPension.value == Round(Pension(Annuity(w, annuityPercent.value / 100.0), annuityRatePercent.value / 100.0)))
  {
    var w := WealthOf(age, contribution, ratePercent);
    Figures(
      if age.Some? && contribution.Some? then Some(Round(contribution.value * Months(age.value) as real)) else None,
      if w.Some? then Some(Round(w.value)) else None,
      if w.Some? && annuityPercent.Some? then Some(Round(Lumpsum(w.value, annuityPercent.value / 100.0))) else None,
      if w.Some? && annuityPercent.Some? && annuityRatePercent.Some? then
        Some(Round(Pension(Annuity(w.value, annuityPercent.value / 100.0), annuityRatePercent.value / 100.0)))
      else None)
  }

  /** At a 0% rate the wealth formula is 0 / 0: the wealth, lump sum and
      pension are NaN, while the total investment is still shown. */
  lemma ZeroRateKeepsInvestment(age: int, contribution: real, annuityPercent: Option<real>, annuityRatePercent: Option<real>)
    ensures var o := Calculate(Some(age), Some(contribution), Some(0.0), annuityPercent, annuityRatePercent);
            o.totalInvestment == Some(Round(contribution * Months(age) as real))
            && o.pensionWealth.None? && o.lumpsum.None? && o.monthlyPension.None?
  {
    var o := Calculate(Some(age), Some(contribution), Some(0.0), annuityPercent, annuityRatePercent);
    assert o.totalInvestment.Some?;
    assert o.totalInvestment.value == Round(contribution * Months(age) as real);
    assert 0.0 / 100.0 / 12.0 == 0.0;
  }

  lemma WealthQuotient(c: real, i: real, x: real, d: real)
    requires i != 0.0 && i * d == (x - 1.0) * (1.0 + i)
    ensures c * ((x - 1.0) / i) * (1.0 + i) == c * d
  {
    var g := (x - 1.0) / i;
    DivCancel(x - 1.0, i);
    assert (g * (1.0 + i)) * i == d * i;
    Cancel(g * (1.0 + i), d, i);
  }

  /** Over a period that has not ended, the wealth is the value of the
      contributions themselves: the `k`-th last grows for `k` months. */
  lemma WealthIsContributions(c: real, i: real, m: nat)
    requires i != 0.0
    ensures Wealth(c, i, m).Some? && Wealth(c, i, m).value == c * DueSum(1.0 + i, m)
  {
    DueSumAtRate(i, m);
    WealthQuotient(c, i, Pow(1.0 + i, m), DueSum(1.0 + i, m));
  }

  /** The lump sum and the annuity share out the whole wealth. */
  lemma SplitAddsUp(wealth: real, annuityShare: real)
    ensures Lumpsum(wealth, annuityShare) + Annuity(wealth, annuityShare) == wealth
  {
  }

  /** Twelve months of pension are the annuity's yearly return. */
  lemma PensionIsYearlyReturn(annuity: real, annuityRate: real)
    ensures 12.0 * Pension(annuity, annuityRate) == annuity * annuityRate
  {
  }

  /** An age past 60 gives a negative period, and with it a total investment
      of at most 0 for a positive contribution, below 0 from a contribution of 1. */
  lemma PastSixty(age: int, contribution: real, ratePercent: Option<real>, annuityPercent: Option<real>, annuityRatePercent: Option<real>)
    requires age > 60 && contribution > 0.0
    ensures var o := Calculate(Some(age), Some(contribution), ratePercent, annuityPercent, annuityRatePercent);
            o.totalInvestment.Some? && o.totalInvestment.value <= 0
            && (contribution >= 1.0 ==> o.totalInvestment.value < 0)
  {
    var m := Months(age);
    assert m <= -12;
    assert contribution * (m + 12) as real <= 0.0;
    RoundMonotone(contribution * m as real, -12.0 * contribution);
    RoundMonotone(-12.0 * contribution, 0.0);
    if contribution >= 1.0 {
      RoundMonotone(-12.0 * contribution, -12.0);
    }
  }

  /** At 60 nothing is contributed and nothing is accumulated. */
  lemma AtSixty(c: real, i: real)
    requires i != 0.0
    ensures Wealth(c, i, Months(60)) == Some(0.0)
  {
  }

  /** The screen: the five field texts and the results, none before the
      first calculation. */
  datatype Screen = Screen(age: string, contribution: string, rate: string, annuityPercent: string,
                           annuityRate: string, results: Option<Figures>)

  /** `clearFields`: all five fields emptied, the results hidden. */
  function Clear(s: Screen): (r: Screen)
    ensures r.results.None?
    ensures r.age == "" && r.contribution == "" && r.rate == "" && r.annuityPercent == "" && r.annuityRate == ""
  {
    Screen("", "", "", "", "", None)
  }
}

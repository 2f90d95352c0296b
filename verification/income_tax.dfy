/** The income-tax screen: taxable income is gross income less deductions and
    exemptions, and tax follows the seven 2020 single-filer brackets of the
    United States federal income tax (section 3.01, Table 3, of IRS Revenue
    Procedure 2019-44); credits come off the tax and the result is rounded. */
module IncomeTax {
  import opened Options
  import opened Numeric

  /** The upper edges of the first six brackets. */
  const Thresholds: seq<real> := [9875.0, 40125.0, 85525.0, 163300.0, 207350.0, 518400.0]

  /** The marginal rate of each of the seven brackets. */
  const Rates: seq<real> := [0.10, 0.12, 0.22, 0.24, 0.32, 0.35, 0.37]

  /** `parseFloat(x) || 0` on each field: a blank or unparseable one counts as 0. */
  function TaxableIncome(gross: Option<real>, deductions: Option<real>, exemptions: Option<real>): (t: real)
    ensures t + deductions.GetOr(0.0) + exemptions.GetOr(0.0) == gross.GetOr(0.0)
  {
    gross.GetOr(0.0) - deductions.GetOr(0.0) - exemptions.GetOr(0.0)
  }

  /** `calculateTax`: the if-chain as written, one literal formula per branch. */
  function Tax(x: real): real
  {
    if x <= 9875.0 then x * 0.10
    else if x <= 40125.0 then 9875.0 * 0.10 + (x - 9875.0) * 0.12
    else if x <= 85525.0 then 9875.0 * 0.10 + (40125.0 - 9875.0) * 0.12 + (x - 40125.0) * 0.22
    else if x <= 163300.0 then
      9875.0 * 0.10 + (40125.0 - 9875.0) * 0.12 + (85525.0 - 40125.0) * 0.22 + (x - 85525.0) * 0.24
    else if x <= 207350.0 then
      9875.0 * 0.10 + (40125.0 - 9875.0) * 0.12 + (85525.0 - 40125.0) * 0.22 + (163300.0 - 85525.0) * 0.24
      + (x - 163300.0) * 0.32
    else if x <= 518400.0 then
      9875.0 * 0.10 + (40125.0 - 9875.0) * 0.12 + (85525.0 - 40125.0) * 0.22 + (163300.0 - 85525.0) * 0.24
      + (207350.0 - 163300.0) * 0.32 + (x - 207350.0) * 0.35
    else
      9875.0 * 0.10 + (40125.0 - 9875.0) * 0.12 + (85525.0 - 40125.0) * 0.22 + (163300.0 - 85525.0) * 0.24
      + (207350.0 - 163300.0) * 0.32 + (518400.0 - 207350.0) * 0.35 + (x - 518400.0) * 0.37
  }

  /** The lower edge of bracket `k`. */
  function Floor(k: nat): real
    requires k < 7
  {
    if k == 0 then 0.0 else Thresholds[k - 1]
  }

  /** The part of an income `x` that falls in bracket `k`. */
  function Portion(x: real, k: nat): (p: real)
    requires k < 7
    ensures 0.0 <= p
    ensures k < 6 ==> p <= Thresholds[k] - Floor(k)
  {
    if x <= Floor(k) then 0.0
    else if k < 6 && x >= Thresholds[k] then Thresholds[k] - Floor(k)
    else x - Floor(k)
  }

  /** The bracket table read the usual way: each bracket's rate applied to the
      part of the income that falls in it, over the first `k` brackets. */
  function Marginal(x: real, k: nat): real
    requires k <= 7
  {
    if k == 0 then 0.0 else Marginal(x, k - 1) + Rates[k - 1] * Portion(x, k - 1)
  }

  /** For a non-negative income the if-chain is the bracket table: its
      constants are the table's thresholds and rates. */
  lemma TaxIsMarginal(x: real)
    requires x >= 0.0
    ensures Tax(x) == Marginal(x, 7)
  {
    assert Marginal(x, 1) == 0.10 * Portion(x, 0);
    assert Marginal(x, 2) == Marginal(x, 1) + 0.12 * Portion(x, 1);
    assert Marginal(x, 3) == Marginal(x, 2) + 0.22 * Portion(x, 2);
    assert Marginal(x, 4) == Marginal(x, 3) + 0.24 * Portion(x, 3);
    assert Marginal(x, 5) == Marginal(x, 4) + 0.32 * Portion(x, 4);
    assert Marginal(x, 6) == Marginal(x, 5) + 0.35 * Portion(x, 5);
    assert Marginal(x, 7) == Marginal(x, 6) + 0.37 * Portion(x, 6);
  }

  /** Between any two incomes the tax rises by at least the lowest and at most
      the highest marginal rate times the difference: the branches meet at
      every threshold, so the tax is continuous and non-decreasing. */
  lemma TaxSlope(x: real, y: real)
    requires x <= y
    ensures 0.10 * (y - x) <= Tax(y) - Tax(x) <= 0.37 * (y - x)
  {
  }

  /** Adjacent branch formulas agree at every threshold. */
  lemma TaxContinuous(k: nat, e: real)
    requires k < 6 && e > 0.0
    ensures var t := Thresholds[k];
            Tax(t) - 0.37 * e <= Tax(t - e) <= Tax(t) <= Tax(t + e) <= Tax(t) + 0.37 * e
  {
    TaxSlope(Thresholds[k] - e, Thresholds[k]);
    TaxSlope(Thresholds[k], Thresholds[k] + e);
  }

  /** On a non-negative income the tax is between 10% and 37% of it. */
  lemma TaxBounds(x: real)
    requires x >= 0.0
    ensures 0.0 <= 0.10 * x <= Tax(x) <= 0.37 * x
  {
    TaxSlope(0.0, x);
  }

  /** A negative taxable income falls in the first branch and gives a negative tax. */
  lemma NegativeIncome(x: real)
    requires x < 0.0
    ensures Tax(x) == 0.10 * x < 0.0
  {
  }

  /** `handleCalculate`: the tax on the taxable income, less credits (a blank
      or unparseable field counting as 0), rounded. */
  function TaxOwed(gross: Option<real>, deductions: Option<real>, exemptions: Option<real>, credits: Option<real>): (owed: int)
    ensures (owed as real) - 0.5 <= Tax(TaxableIncome(gross, deductions, exemptions)) - credits.GetOr(0.0) < (owed as real) + 0.5
  {
    Round(Tax(TaxableIncome(gross, deductions, exemptions)) - credits.GetOr(0.0))
  }

  /** More gross income never lowers the tax owed. */
  lemma OwedMonotone(g1: real, g2: real, deductions: Option<real>, exemptions: Option<real>, credits: Option<real>)
    requires g1 <= g2
    ensures TaxOwed(Some(g1), deductions, exemptions, credits) <= TaxOwed(Some(g2), deductions, exemptions, credits)
  {
    TaxSlope(TaxableIncome(Some(g1), deductions, exemptions), TaxableIncome(Some(g2), deductions, exemptions));
    RoundMonotone(Tax(TaxableIncome(Some(g1), deductions, exemptions)) - credits.GetOr(0.0),
                  Tax(TaxableIncome(Some(g2), deductions, exemptions)) - credits.GetOr(0.0));
  }

  /** A whole-dollar credit lowers the tax owed by exactly that amount. */
  lemma CreditLowersOwed(gross: Option<real>, deductions: Option<real>, exemptions: Option<real>, credit: int)
    ensures TaxOwed(gross, deductions, exemptions, Some(credit as real))
         == TaxOwed(gross, deductions, exemptions, None) - credit
  {
    RoundShift(Tax(TaxableIncome(gross, deductions, exemptions)) - credit as real, credit);
  }
}

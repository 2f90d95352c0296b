/** The payment-details screen: it adds up the principal and interest
    columns of a repayment schedule and shows them as a two-slice donut with
    percentage shares. */
module PaymentDetails {
  import opened Options
  import opened Numeric
  import opened Amortization
  import Emi

  /** A donut slice; the percentage is absent when the total is zero (the source's NaN or Infinity). */
  datatype Slice = Slice(key: string, value: int, percentage: Option<int>)

  datatype Details = Details(totalPrincipal: int, totalInterest: int, totalAmount: int, donut: seq<Slice>)

  /** `Math.round((part / total) * 100)`. */
  function Share(part: int, total: int): (s: Option<int>)
    ensures s.Some? <==> total != 0
  {
    if total == 0 then None else Some(Round(part as real / total as real * 100.0))
  }

  function Summarize(chart: seq<ChartRow>): (d: Details)
    ensures d.totalPrincipal == RoundedPrincipal(chart) && d.totalInterest == RoundedInterest(chart)
    ensures d.totalAmount == d.totalPrincipal + d.totalInterest
    ensures |d.donut| == 2
    ensures d.donut[0] == Slice("Principal", d.totalPrincipal, Share(d.totalPrincipal, d.totalAmount))
    ensures d.donut[1] == Slice("Interest", d.totalInterest, Share(d.totalInterest, d.totalAmount))
  {
    var totalPrincipal := RoundedPrincipal(chart);
    var totalInterest := RoundedInterest(chart);
    var totalAmount := totalPrincipal + totalInterest;
    Details(totalPrincipal, totalInterest, totalAmount,
            [Slice("Principal", totalPrincipal, Share(totalPrincipal, totalAmount)),
             Slice("Interest", totalInterest, Share(totalInterest, totalAmount))])
  }

  /** Before rounding the two shares make up the whole. */
  lemma UnroundedSharesAddUp(principal: int, interest: int)
    requires principal + interest != 0
    ensures principal as real / (principal + interest) as real * 100.0
          + interest as real / (principal + interest) as real * 100.0 == 100.0
  {
    var t := (principal + interest) as real;
    assert principal as real / t + interest as real / t == (principal as real + interest as real) / t;
  }

  /** After rounding the two percentages add up to 100, or to 101 when both
      shares end in exactly one half (`Math.round` rounds halves up). */
  lemma SharesAddUp(chart: seq<ChartRow>)
    requires Summarize(chart).totalAmount != 0
    ensures var d := Summarize(chart);
            d.donut[0].percentage.Some? && d.donut[1].percentage.Some?
            && 100 <= d.donut[0].percentage.value + d.donut[1].percentage.value <= 101
  {
    var d := Summarize(chart);
    UnroundedSharesAddUp(d.totalPrincipal, d.totalInterest);
    RoundedComplement(d.totalPrincipal as real / d.totalAmount as real * 100.0,
                      d.totalInterest as real / d.totalAmount as real * 100.0);
  }

  /** Rounding two reals that add to 100 gives two integers adding to 100 or 101. */
  lemma RoundedComplement(x: real, y: real)
    requires x + y == 100.0
    ensures 100 <= Round(x) + Round(y) <= 101
  {
  }

  /** On an EMI plan of `n >= 1` months the donut's totals stay within half a
      rupee per month of the exact loan and the exact interest. */
  lemma EmiDetailsNear(loan: real, annualRate: real, years: int, months: int)
    requires Emi.Calculate(Some(loan), Some(annualRate), Some(years), Some(months)).Plan?
    requires Term(years, months) >= 1
    ensures var d := Summarize(Emi.Calculate(Some(loan), Some(annualRate), Some(years), Some(months)).chart);
            var n := Term(years, months) as real;
            var interest := InterestTotal(loan, MonthlyRate(annualRate), Emi.Payment(loan, annualRate, Term(years, months)), Term(years, months));
            -n * 0.5 <= d.totalPrincipal as real - loan <= n * 0.5
            && -n * 0.5 <= d.totalInterest as real - interest <= n * 0.5
  {
    Emi.PlanColumns(loan, annualRate, years, months);
    RoundedColumnsNear(loan, MonthlyRate(annualRate), Emi.Payment(loan, annualRate, Term(years, months)), Term(years, months));
  }
}

/** The flat tax screen (`calculateTax`, `clearFields`): income times a rate
    in percent, less a deduction. `parseFloat` is the parameter `num`. */
module Tax {
  import opened Options
  import opened Numeric
  import IndianWords

  /** The three field texts and the unrounded tax, none before the first
      calculation and after a clear. */
  datatype Screen = Screen(income: string, rate: string, deduction: string, totalTax: Option<real>)

  /** `income * rate / 100 - deduction`. */
  function Owed(income: real, ratePercent: real, deduction: real): real
  {
    income * (ratePercent / 100.0) - deduction
  }

  /** `calculateTax`: a field that does not parse raises an alert and changes
      nothing. */
  function Calculate(s: Screen, num: string -> Option<real>): (r: Screen)
    ensures r.(totalTax := s.totalTax) == s
    ensures num(s.income).None? || num(s.rate).None? || num(s.deduction).None? ==> r == s
    ensures num(s.income).Some? && num(s.rate).Some? && num(s.deduction).Some? ==>
              r.totalTax == Some(Owed(num(s.income).value, num(s.rate).value, num(s.deduction).value))
  {
    var income, rate, deduction := num(s.income), num(s.rate), num(s.deduction);
    if income.None? || rate.None? || deduction.None? then s
    else s.(totalTax := Some(Owed(income.value, rate.value, deduction.value)))
  }

  /** Every extra unit of deduction takes exactly one unit off the tax. */
  lemma DeductionLowersTax(income: real, ratePercent: real, deduction: real, d: real)
    ensures Owed(income, ratePercent, deduction + d) == Owed(income, ratePercent, deduction) - d
  {
  }

  /** At a non-zero rate the tax determines the income: adding the deduction
      back and dividing by the rate gives the income that was entered. */
  lemma IncomeFromTax(s: Screen, num: string -> Option<real>)
    requires num(s.income).Some? && num(s.rate).Some? && num(s.deduction).Some?
    requires num(s.rate).value != 0.0
    ensures var tax := Calculate(s, num).totalTax.value;
            (tax + num(s.deduction).value) * 100.0 / num(s.rate).value == num(s.income).value
  {
    var income, rate, deduction := num(s.income).value, num(s.rate).value, num(s.deduction).value;
    var tax := Calculate(s, num).totalTax.value;
    assert tax + deduction == income * (rate / 100.0);
    assert income * (rate / 100.0) * 100.0 == income * rate;
  }

  /** A deduction above the tax on the income makes the tax negative; from
      half a unit below zero the rounded figure handed to the formatter is
      negative, outside the amounts the formatter covers. */
  lemma NegativeTax(income: real, ratePercent: real, deduction: real)
    requires deduction > income * (ratePercent / 100.0)
    ensures Owed(income, ratePercent, deduction) < 0.0
    ensures Owed(income, ratePercent, deduction) < -0.5 ==> Round(Owed(income, ratePercent, deduction)) < 0
  {
  }

  /** The rounded tax the formatter can write out in words. */
  predicate InWordsDomain(tax: real)
  {
    0 <= Round(tax) < IndianWords.Limit
  }

  /** `clearFields`: the fields blank and the result hidden. */
  function Clear(s: Screen): (r: Screen)
    ensures r.income == "" && r.rate == "" && r.deduction == "" && r.totalTax.None?
  {
    Screen("", "", "", None)
  }

  /** Calculating after a clear raises the alert and leaves the screen cleared. */
  lemma ClearThenCalculate(s: Screen, num: string -> Option<real>)
    requires num("").None?
    ensures Calculate(Clear(s), num) == Clear(s)
  {
  }
}

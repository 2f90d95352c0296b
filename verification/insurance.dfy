/** The insurance screen (`calculateCoverage`, `clearFields`): the cover a
    household needs, and a premium at 5 per 1000 of cover. There is no
    validation: a field that does not parse makes both figures NaN, the
    outcome `NotANumber` here. `parseFloat` is the parameter `num`. This
    screen's copy of the formatter returns "₹ <grouped> (<words>)". */
module Insurance {
  import opened Options
  import opened Numeric
  import opened Text
  import IndianWords

  /** The two figures: blank before the first calculation and after a clear
      (the results block is hidden), NaN, or the cover and the premium. */
  datatype Figures = Blank | NotANumber | Figures(coverage: real, premium: real)

  datatype Screen = Screen(income: string, years: string, debts: string, goals: string,
                           existing: string, figures: Figures)

  /** `income * years + debts + goals - existing cover`. */
  function Coverage(income: real, years: real, debts: real, goals: real, existing: real): real
  {
    income * years + debts + goals - existing
  }

  /** `coverage / 1000 * 5`. */
  function Premium(coverage: real): real
  {
    coverage / 1000.0 * 5.0
  }

  /** `calculateCoverage`. */
  function Calculate(s: Screen, num: string -> Option<real>): (r: Screen)
    ensures r.(figures := s.figures) == s
    ensures r.figures.NotANumber? <==>
              num(s.income).None? || num(s.years).None? || num(s.debts).None? || num(s.goals).None? || num(s.existing).None?
    ensures r.figures.Figures? ==>
              r.figures.coverage == Coverage(num(s.income).value, num(s.years).value, num(s.debts).value,
                                              num(s.goals).value, num(s.existing).value)
              && r.figures.premium == Premium(r.figures.coverage)
  {
    var i, y, d, g, e := num(s.income), num(s.years), num(s.debts), num(s.goals), num(s.existing);
    if i.None? || y.None? || d.None? || g.None? || e.None? then s.(figures := NotANumber)
    else
      var c := Coverage(i.value, y.value, d.value, g.value, e.value);
      s.(figures := Figures(c, Premium(c)))
  }

  /** The premium is one two-hundredth of the cover, so it has the cover's
      sign: existing cover beyond the need gives a negative premium. */
  lemma PremiumShare(coverage: real)
    ensures Premium(coverage) * 200.0 == coverage
    ensures (Premium(coverage) > 0.0 <==> coverage > 0.0) && (Premium(coverage) < 0.0 <==> coverage < 0.0)
  {
  }

  /** More existing cover lowers the need one for one. */
  lemma ExistingCoverOffsets(income: real, years: real, debts: real, goals: real, existing: real, more: real)
    ensures Coverage(income, years, debts, goals, existing + more) == Coverage(income, years, debts, goals, existing) - more
  {
  }

  /** This screen's formatter: the rupee sign, the grouped amount (`locale`
      stands for `toLocaleString('en-IN')`) and the words in brackets. */
  function Formatted(n: nat, locale: int -> string): string
    requires n < IndianWords.Limit
  {
    "\U{20B9} " + locale(n) + " (" + IndianWords.InWords(n) + ")"
  }

  /** The words in brackets are the canonical formatter's words, joined by
      single spaces; "Zero" for 0. */
  lemma FormattedWords(n: nat, locale: int -> string)
    requires n < IndianWords.Limit
    ensures n > 0 ==> Formatted(n, locale) == "\U{20B9} " + locale(n) + " (" + Join(IndianWords.Words(n)) + ")"
    ensures n == 0 ==> Formatted(n, locale) == "\U{20B9} " + locale(0) + " (Zero)"
  {
    IndianWords.InWordsIsJoin(n);
  }

  /** `clearFields`: all five fields blank and the results hidden. */
  function Clear(s: Screen): (r: Screen)
    ensures r.income == "" && r.years == "" && r.debts == "" && r.goals == "" && r.existing == ""
    ensures r.figures.Blank?
  {
    Screen("", "", "", "", "", Blank)
  }

  /** Calculating after a clear reads blank fields, which `parseFloat` reads
      as NaN, so both figures are NaN. */
  lemma ClearThenCalculate(s: Screen, num: string -> Option<real>)
    requires num("").None?
    ensures Calculate(Clear(s), num).figures.NotANumber?
  {
  }
}

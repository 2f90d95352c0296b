/** The percentage screen (`calculatePercentage`, `clearAll`): what percent
    one value is of another. `parseFloat` is the parameter `num`; the
    two-decimal text of the percentage is not modelled. */
module Percentage {
  import opened Options
  import opened Numeric

  datatype Result = Blank | InvalidInput | Percent(value: real)

  datatype Screen = Screen(part: string, whole: string, result: Result, calculated: bool)

  /** `calculatePercentage`: a result only when both values parse and the
      whole is not 0; the calculated flag is set either way. */
  function Calculate(s: Screen, num: string -> Option<real>): (r: Screen)
    ensures r.part == s.part && r.whole == s.whole && r.calculated
    ensures r.result.InvalidInput? <==> num(s.part).None? || num(s.whole).None? || num(s.whole).value == 0.0
    ensures r.result.Percent? ==> r.result.value * num(s.whole).value == num(s.part).value * 100.0
  {
    var p, w := num(s.part), num(s.whole);
    if p.Some? && w.Some? && w.value != 0.0 then
      DivCancel(p.value, w.value);
      s.(result := Percent((p.value / w.value) * 100.0), calculated := true)
    else s.(result := InvalidInput, calculated := true)
  }

  /** The whole is 100 percent of itself, and nothing is 0 percent. */
  lemma Extremes(s: Screen, num: string -> Option<real>)
    requires num(s.whole).Some? && num(s.whole).value != 0.0
    ensures num(s.part) == num(s.whole) ==> Calculate(s, num).result == Percent(100.0)
    ensures num(s.part) == Some(0.0) ==> Calculate(s, num).result == Percent(0.0)
  {
    var w := num(s.whole).value;
    if num(s.part) == num(s.whole) {
      DivCancel(w, w);
    }
  }

  /** `clearAll`: both fields blank, no result, the flag down. */
  function Clear(s: Screen): (r: Screen)
    ensures r.part == "" && r.whole == "" && r.result.Blank? && !r.calculated
  {
    Screen("", "", Blank, false)
  }

  /** Calculating after a clear shows 'Invalid input' and raises the flag. */
  lemma ClearThenCalculate(s: Screen, num: string -> Option<real>)
    requires num("").None?
    ensures Calculate(Clear(s), num) == Screen("", "", InvalidInput, true)
  {
  }
}

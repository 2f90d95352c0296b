/** The fuel-efficiency screen (`calculateEfficiency`, `clearAll`): distance
    per unit of fuel. `parseFloat` is the parameter `num`; the two-decimal
    text is not modelled. */
module FuelEfficiency {
  import opened Options
  import opened Numeric

  datatype Result = Blank | InvalidInput | Efficiency(value: real)

  datatype Screen = Screen(distance: string, fuel: string, result: Result)

  /** `calculateEfficiency`: a result only when both values parse and the
      fuel is not 0. */
  function Calculate(s: Screen, num: string -> Option<real>): (r: Screen)
    ensures r.distance == s.distance && r.fuel == s.fuel
    ensures r.result.InvalidInput? <==> num(s.distance).None? || num(s.fuel).None? || num(s.fuel).value == 0.0
    ensures r.result.Efficiency? ==> r.result.value * num(s.fuel).value == num(s.distance).value
  {
    var d, f := num(s.distance), num(s.fuel);
    if d.Some? && f.Some? && f.value != 0.0 then
      DivCancel(d.value, f.value);
      s.(result := Efficiency(d.value / f.value))
    else s.(result := InvalidInput)
  }

  /** Positive inputs give a positive efficiency, and a screen whose distance
      reads twice as much on the same fuel shows twice the efficiency. */
  lemma Proportional(s: Screen, t: Screen, num: string -> Option<real>)
    requires num(s.distance).Some? && num(s.fuel).Some? && num(s.fuel).value != 0.0
    requires t.fuel == s.fuel && num(t.distance) == Some(2.0 * num(s.distance).value)
    ensures num(s.distance).value > 0.0 && num(s.fuel).value > 0.0 ==> Calculate(s, num).result.value > 0.0
    ensures Calculate(t, num).result.value == 2.0 * Calculate(s, num).result.value
  {
    var d, f := num(s.distance).value, num(s.fuel).value;
    var e := Calculate(s, num).result.value;
    if d > 0.0 && f > 0.0 {
      SignFromProduct(e, f);
    }
    Cancel(Calculate(t, num).result.value, 2.0 * e, f);
  }

  /** `clearAll`: both fields blank and no result. */
  function Clear(s: Screen): (r: Screen)
    ensures r.distance == "" && r.fuel == "" && r.result.Blank?
  {
    Screen("", "", Blank)
  }

  /** Calculating after a clear shows 'Invalid input', as `parseFloat` reads a
      blank field as NaN. */
  lemma ClearThenCalculate(s: Screen, num: string -> Option<real>)
    requires num("").None?
    ensures Calculate(Clear(s), num).result.InvalidInput?
  {
  }
}

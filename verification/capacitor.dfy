/** The capacitor screen (`calculateEnergy`, `clearAll`): the energy
    `0.5 * C * V^2 / 1000` stored in a capacitor. `parseFloat` is the
    parameter `num`; the three-decimal text is not modelled. */
module Capacitor {
  import opened Options

  /** The energy line: blank, NaN (a filled field that does not parse), or a value. */
  datatype Energy = Blank | NotANumber | Energy(value: real)

  datatype Screen = Screen(capacitance: string, voltage: string, energy: Energy)

  function Stored(c: real, v: real): real
  {
    0.5 * c * (v * v) / 1000.0
  }

  /** `calculateEnergy`: only with both fields filled; otherwise the line is blanked. */
  function Calculate(s: Screen, num: string -> Option<real>): (r: Screen)
    ensures r.capacitance == s.capacitance && r.voltage == s.voltage
    ensures r.energy.Blank? <==> s.capacitance == "" || s.voltage == ""
    ensures r.energy.NotANumber? <==> s.capacitance != "" && s.voltage != "" && (num(s.capacitance).None? || num(s.voltage).None?)
    ensures r.energy.Energy? ==> r.energy.value * 2000.0 == num(s.capacitance).value * (num(s.voltage).value * num(s.voltage).value)
  {
    if s.capacitance != "" && s.voltage != "" then
      var c, v := num(s.capacitance), num(s.voltage);
      s.(energy := if c.Some? && v.Some? then Energy(Stored(c.value, v.value)) else NotANumber)
    else s.(energy := Blank)
  }

  /** The energy is never negative for a non-negative capacitance, whatever
      the voltage's sign, and doubling the voltage quadruples it. */
  lemma EnergyShape(c: real, v: real)
    ensures c >= 0.0 ==> Stored(c, v) >= 0.0
    ensures Stored(c, 2.0 * v) == 4.0 * Stored(c, v)
    ensures Stored(c, -v) == Stored(c, v)
  {
    if c >= 0.0 {
      assert v * v >= 0.0;
      assert c * (v * v) >= 0.0;
    }
  }

  /** `clearAll`: both fields and the energy blank. */
  function Clear(s: Screen): (r: Screen)
    ensures r.capacitance == "" && r.voltage == "" && r.energy.Blank?
  {
    Screen("", "", Blank)
  }

  /** Calculating after a clear keeps the energy line blank. */
  lemma ClearThenCalculate(s: Screen, num: string -> Option<real>)
    ensures Calculate(Clear(s), num) == Clear(s)
  {
  }
}

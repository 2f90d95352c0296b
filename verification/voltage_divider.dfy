/** The voltage-divider screen (`calculateOutputVoltage`, `clearAll`):
    `Vout = Vin * R2 / (R1 + R2)`. As written, the numerator multiplies the
    field texts, which JavaScript converts with `Number` (the parameter
    `num`), while the denominator reads both resistances with `parseInt` (the
    parameter `whole`), which drops any fraction. The two readings of R2
    disagree for a fractional resistance, and the output can then exceed the
    input voltage. `Calculate` reads every field the same way and is what the
    rest of the model uses; `AsWritten` keeps the mixed reading. The
    two-decimal text of the output is not modelled. */
module VoltageDivider {
  import opened Options
  import opened Numeric

  /** The output line: blank, not a number (NaN or an infinity), or a voltage. */
  datatype Output = Blank | NotANumber | Volts(value: real)

  datatype Screen = Screen(vin: string, r1: string, r2: string, vout: Output)

  /** Every field is filled (JavaScript string truthiness). */
  predicate AllFilled(s: Screen)
  {
    s.vin != "" && s.r1 != "" && s.r2 != ""
  }

  /** The divider formula. */
  function Divided(vin: real, r1: real, r2: real): real
    requires r1 + r2 != 0.0
  {
    vin * r2 / (r1 + r2)
  }

  /** `calculateOutputVoltage` as written: `Number` above the line, `parseInt` below it. */
  function AsWritten(s: Screen, num: string -> Option<real>, whole: string -> Option<int>): (r: Screen)
    ensures r.(vout := s.vout) == s
    ensures r.vout.Blank? <==> !AllFilled(s)
    ensures r.vout.Volts? ==>
              num(s.vin).Some? && num(s.r2).Some? && whole(s.r1).Some? && whole(s.r2).Some?
              && var d := (whole(s.r1).value + whole(s.r2).value) as real;
                 d != 0.0 && r.vout.value * d == num(s.vin).value * num(s.r2).value
  {
    if !AllFilled(s) then s.(vout := Blank)
    else
      var vin, r2, w1, w2 := num(s.vin), num(s.r2), whole(s.r1), whole(s.r2);
      if vin.None? || r2.None? || w1.None? || w2.None? || w1.value + w2.value == 0 then s.(vout := NotANumber)
      else
        var d := (w1.value + w2.value) as real;
        DivCancel(vin.value * r2.value, d);
        s.(vout := Volts(vin.value * r2.value / d))
  }

  /** With Vin "10", R1 "0" and R2 "1.5", the mixed reading divides 15 by 1
      and shows 15 V out of a 10 V input. */
  lemma AsWrittenExceedsInput(num: string -> Option<real>, whole: string -> Option<int>)
    requires num("10") == Some(10.0) && num("1.5") == Some(1.5)
    requires whole("0") == Some(0) && whole("1.5") == Some(1)
    ensures AsWritten(Screen("10", "0", "1.5", Blank), num, whole).vout == Volts(15.0)
  {
  }

  /** `calculateOutputVoltage` with every field read by the same `num`, so
      that the same R2 stands above and below the line. */
  function Calculate(s: Screen, num: string -> Option<real>): (r: Screen)
    ensures r.(vout := s.vout) == s
    ensures r.vout.Blank? <==> !AllFilled(s)
    ensures r.vout.NotANumber? <==>
              AllFilled(s) && (num(s.vin).None? || num(s.r1).None? || num(s.r2).None?
                               || num(s.r1).value + num(s.r2).value == 0.0)
    ensures r.vout.Volts? ==> r.vout.value == Divided(num(s.vin).value, num(s.r1).value, num(s.r2).value)
  {
    if !AllFilled(s) then s.(vout := Blank)
    else
      var vin, r1, r2 := num(s.vin), num(s.r1), num(s.r2);
      if vin.None? || r1.None? || r2.None? || r1.value + r2.value == 0.0 then s.(vout := NotANumber)
      else s.(vout := Volts(Divided(vin.value, r1.value, r2.value)))
  }

  /** A divider never raises the voltage: for a non-negative input and
      resistances `R1 >= 0`, `R2 > 0` the output lies between 0 and the
      input, and with no upper resistance it is the input itself. */
  lemma WithinInput(vin: real, r1: real, r2: real)
    requires vin >= 0.0 && r1 >= 0.0 && r2 > 0.0
    ensures 0.0 <= Divided(vin, r1, r2) <= vin
    ensures r1 == 0.0 ==> Divided(vin, r1, r2) == vin
  {
    var d := r1 + r2;
    var q := Divided(vin, r1, r2);
    DivCancel(vin * r2, d);
    assert q * d == vin * r2;
    if r1 == 0.0 {
      Cancel(q, vin, r2);
    }
  }

  /** Whole-number resistances read the same either way, so the mixed
      reading agrees with `Calculate` on them. */
  lemma AgreeOnWholeResistances(s: Screen, num: string -> Option<real>, whole: string -> Option<int>)
    requires whole(s.r1).Some? && whole(s.r2).Some?
    requires num(s.r1) == Some(whole(s.r1).value as real) && num(s.r2) == Some(whole(s.r2).value as real)
    ensures AsWritten(s, num, whole) == Calculate(s, num)
  {
  }

  /** `clearAll`: all four fields blank. */
  function Clear(s: Screen): (r: Screen)
    ensures r.vin == "" && r.r1 == "" && r.r2 == "" && r.vout.Blank?
  {
    Screen("", "", "", Blank)
  }

  /** Calculating after a clear leaves the output blank. */
  lemma ClearThenCalculate(s: Screen, num: string -> Option<real>)
    ensures Calculate(Clear(s), num) == Clear(s)
  {
  }
}

/** The distance converter (`convertDistance`, `clearInput`): one of three
    fixed-factor conversions. `parseFloat` is the parameter `num`; the
    two-decimal text of the value is not modelled. */
module Distance {
  import opened Options

  /** The picker; "kmToMiles" is selected at start. */
  datatype Conversion = KmToMiles | MilesToKm | MetersToFeet

  datatype Output = Blank | InvalidInput | Converted(value: real, unit: string)

  datatype Screen = Screen(input: string, conversion: Conversion, output: Output)

  /** The factor of each conversion. */
  function Factor(c: Conversion): (k: real)
    ensures k > 0.0
  {
    match c
    case KmToMiles => 0.621371
    case MilesToKm => 1.60934
    case MetersToFeet => 3.28084
  }

  /** The unit name after the value. */
  function Unit(c: Conversion): string
  {
    match c
    case KmToMiles => "Miles"
    case MilesToKm => "Kilometers"
    case MetersToFeet => "Feet"
  }

  function Convert(c: Conversion, x: real): real
  {
    x * Factor(c)
  }

  /** `convertDistance`: 'Invalid Input' for a value that does not parse. */
  function Calculate(s: Screen, num: string -> Option<real>): (r: Screen)
    ensures r.input == s.input && r.conversion == s.conversion
    ensures r.output.InvalidInput? <==> num(s.input).None?
    ensures r.output.Converted? ==> r.output.value == Convert(s.conversion, num(s.input).value)
                                    && r.output.unit == Unit(s.conversion)
  {
    match num(s.input)
    case None => s.(output := InvalidInput)
    case Some(x) => s.(output := Converted(Convert(s.conversion, x), Unit(s.conversion)))
  }

  /** Every conversion is linear. */
  lemma Linear(c: Conversion, a: real, b: real)
    ensures Convert(c, 0.0) == 0.0
    ensures Convert(c, a + b) == Convert(c, a) + Convert(c, b)
    ensures a < b ==> Convert(c, a) < Convert(c, b)
  {
  }

  /** Kilometres to miles and back loses less than three millionths of the
      distance: the two factors are not exact inverses. */
  lemma RoundTrip(x: real)
    ensures var back := Convert(MilesToKm, Convert(KmToMiles, x));
            back == x * 0.99999720514 && (x > 0.0 ==> x - 0.000003 * x < back < x)
  {
  }

  /** `clearInput`: the input and the output blank; the conversion stays. */
  function Clear(s: Screen): (r: Screen)
    ensures r.input == "" && r.output.Blank? && r.conversion == s.conversion
  {
    s.(input := "", output := Blank)
  }

  /** Converting after a clear shows 'Invalid Input', as `parseFloat` reads
      a blank field as NaN; the conversion stays. */
  lemma ClearThenCalculate(s: Screen, num: string -> Option<real>)
    requires num("").None?
    ensures Calculate(Clear(s), num) == s.(input := "", output := InvalidInput)
  {
  }
}

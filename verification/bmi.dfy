/** The BMI screen (`calculateBMI`): body-mass index from a weight in
    kilograms and a height in centimetres, and the weight-status band it
    falls in. `parse` stands for `parseFloat` (`None` for NaN); the two-decimal
    display of the index is not modelled. */
module Bmi {
  import opened Options
  import opened Numeric

  datatype Status = Underweight | Normal | Overweight | Obese

  datatype Outcome =
    | MissingField    // "Please enter both weight and height"
    | InvalidValues   // "Please enter valid numerical values"
    | Index(bmi: real, status: Status)

  /** The band test as written: each `else if` re-tests its lower bound, and
      the bands leave [24.9, 25) to the final `else`. */
  function Classify(bmi: real): Status
  {
    if bmi < 18.5 then Underweight
    else if bmi >= 18.5 && bmi < 24.9 then Normal
    else if bmi >= 25.0 && bmi < 29.9 then Overweight
    else Obese
  }

  /** The four bands, each as an interval of the index; the gap [24.9, 25)
      between "Normal" and "Overweight" falls to "Obese". */
  lemma Bands(bmi: real)
    ensures Classify(bmi) == Underweight <==> bmi < 18.5
    ensures Classify(bmi) == Normal <==> 18.5 <= bmi < 24.9
    ensures Classify(bmi) == Overweight <==> 25.0 <= bmi < 29.9
    ensures Classify(bmi) == Obese <==> (24.9 <= bmi < 25.0 || bmi >= 29.9)
  {
  }

  /** The divisor as written, `height / 10 * height / 10`: the height in
      centimetres, squared, over 100. */
  function Divisor(height: real): (d: real)
    requires height > 0.0
    ensures d > 0.0
    ensures d * 100.0 == height * height
  {
    var tenth := height / 10.0;
    ProductPositive(tenth, height);
    assert tenth * height * 10.0 == height * height;
    tenth * height / 10.0
  }

  /** The index formula as written: `weight * 100 / divisor`. */
  function Formula(weight: real, height: real): (bmi: real)
    requires height > 0.0
  {
    weight * 100.0 / Divisor(height)
  }

  /** The formula is the usual `10000 * weight / height^2`, positive for a
      positive weight. */
  lemma FormulaIsIndex(weight: real, height: real)
    requires height > 0.0
    ensures Formula(weight, height) * (height * height) == 10000.0 * weight
    ensures weight > 0.0 ==> Formula(weight, height) > 0.0
  {
    DivCancel(weight * 100.0, Divisor(height));
    if weight > 0.0 {
      SignFromProduct(Formula(weight, height), Divisor(height));
    }
  }

  function Calculate(weight: string, height: string, parse: string -> Option<real>): (o: Outcome)
    ensures o.MissingField? <==> weight == "" || height == ""
    ensures o.InvalidValues? <==>
              weight != "" && height != ""
              && !(parse(weight).Some? && parse(height).Some? && parse(weight).value > 0.0 && parse(height).value > 0.0)
    ensures o.Index? ==> o.bmi > 0.0 && o.status == Classify(o.bmi)
  {
    if weight == "" || height == "" then MissingField
    else
      var w, h := parse(weight), parse(height);
      if w.None? || h.None? || h.value <= 0.0 || w.value <= 0.0 then InvalidValues
      else
        FormulaIsIndex(w.value, h.value);
        var bmi := Formula(w.value, h.value);
        Index(bmi, Classify(bmi))
  }

  /** An accepted input gets exactly the index `10000 * weight / height^2`. */
  lemma CalculateIndex(weight: string, height: string, parse: string -> Option<real>)
    requires Calculate(weight, height, parse).Index?
    ensures var w, h := parse(weight).value, parse(height).value;
            Calculate(weight, height, parse).bmi * (h * h) == 10000.0 * w
  {
    FormulaIsIndex(parse(weight).value, parse(height).value);
  }

  /** The screen: the two field texts and the index and band shown, none
      before the first accepted calculation. */
  datatype Screen = Screen(weight: string, height: string, shown: Option<Outcome>)

  /** The calculate button: an alert leaves the screen as it was; an accepted
      input shows its index and band. */
  function Press(s: Screen, parse: string -> Option<real>): (r: Screen)
    ensures r.weight == s.weight && r.height == s.height
    ensures r.shown != s.shown ==> r.shown == Some(Calculate(s.weight, s.height, parse)) && r.shown.value.Index?
    ensures Calculate(s.weight, s.height, parse).Index? ==> r.shown == Some(Calculate(s.weight, s.height, parse))
  {
    var o := Calculate(s.weight, s.height, parse);
    if o.Index? then s.(shown := Some(o)) else s
  }

  /** `clearAll`: both fields empty and nothing shown. */
  function Clear(s: Screen): (r: Screen)
    ensures r.weight == "" && r.height == "" && r.shown.None?
  {
    Screen("", "", None)
  }

  /** Calculating after a clear only raises the "both fields" alert. */
  lemma ClearThenCalculate(s: Screen, parse: string -> Option<real>)
    ensures Calculate(Clear(s).weight, Clear(s).height, parse).MissingField?
    ensures Press(Clear(s), parse) == Clear(s)
  {
  }
}

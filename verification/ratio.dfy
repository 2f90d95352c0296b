/** The ratio screen. Its first section solves the proportion `a:b = c:d` for
    whichever one of the four fields is left empty; its second scales a
    width and a height down or up by a factor. Fields are texts: "filled" is
    JavaScript string truthiness, and the arithmetic reads each text with
    `Number` (the parameter `num`, `None` for NaN). A result is a `Number`,
    which keeps the infinities a division by zero gives apart from NaN;
    `show` stands for its `toString`, which is not modelled. */
module Ratio {
  import opened Options
  import opened Numeric

  datatype Field = A | B | C | D

  /** The proportion section: the four field texts, the field last solved
      (`highlightedValue`, none while it is '') and the result line. */
  datatype Proportion = Proportion(a: string, b: string, c: string, d: string,
                                   highlighted: Option<Field>, result: string)

  const NeedThree: string := "Please enter only three values."

  const EmptyProportion: Proportion := Proportion("", "", "", "", None, "")

  /** A text field counts as filled when it is not empty, so "0" is filled. */
  predicate Filled(s: string)
  {
    s != ""
  }

  /** How many of the four fields are filled. */
  function FilledCount(p: Proportion): (n: nat)
    ensures n <= 4
  {
    (if Filled(p.a) then 1 else 0) + (if Filled(p.b) then 1 else 0)
    + (if Filled(p.c) then 1 else 0) + (if Filled(p.d) then 1 else 0)
  }

  /** The field `calculateRatio` solves for: the first of D, C, B, A whose
      pattern of three filled fields matches. */
  function Missing(p: Proportion): (m: Option<Field>)
    ensures m.Some? <==> FilledCount(p) == 3
    ensures m == Some(A) ==> !Filled(p.a)
    ensures m == Some(B) ==> !Filled(p.b)
    ensures m == Some(C) ==> !Filled(p.c)
    ensures m == Some(D) ==> !Filled(p.d)
  {
    if Filled(p.a) && Filled(p.b) && Filled(p.c) && !Filled(p.d) then Some(D)
    else if Filled(p.a) && Filled(p.b) && !Filled(p.c) && Filled(p.d) then Some(C)
    else if Filled(p.a) && !Filled(p.b) && Filled(p.c) && Filled(p.d) then Some(B)
    else if !Filled(p.a) && Filled(p.b) && Filled(p.c) && Filled(p.d) then Some(A)
    else None
  }

  /** `(x * y) / z`: NaN when an operand is NaN, otherwise the division. */
  function Quotient(x: Option<real>, y: Option<real>, z: Option<real>): (q: Number)
    ensures q.Finite? <==> x.Some? && y.Some? && z.Some? && z.value != 0.0
    ensures q.Finite? ==> q.value * z.value == x.value * y.value
    ensures q.Infinity? <==> x.Some? && y.Some? && z == Some(0.0) && x.value * y.value != 0.0
    ensures q.Infinity? ==> (q.negative <==> x.value * y.value < 0.0)
  {
    if x.Some? && y.Some? && z.Some? then Divide(x.value * y.value, z.value) else NaN
  }

  /** The value for field `f` from the numbers read from the fields. When
      there is one, it completes the proportion `a:b = c:d` in `f`'s place:
      the cross products agree. */
  function SolveFor(f: Field, a: Option<real>, b: Option<real>, c: Option<real>, d: Option<real>): (v: Number)
    ensures v.Finite? ==>
              match f
              case D => a.Some? && b.Some? && c.Some? && v.value * a.value == c.value * b.value
              case C => a.Some? && b.Some? && d.Some? && v.value * b.value == a.value * d.value
              case B => a.Some? && c.Some? && d.Some? && v.value * c.value == a.value * d.value
              case A => b.Some? && c.Some? && d.Some? && v.value * d.value == c.value * b.value
  {
    match f
    case D => Quotient(c, b, a)
    case C => Quotient(a, d, b)
    case B => Quotient(a, d, c)
    case A => Quotient(c, b, d)
  }

  /** The value computed for the missing field. */
  function Solved(p: Proportion, num: string -> Option<real>): Number
    requires Missing(p).Some?
  {
    SolveFor(Missing(p).value, num(p.a), num(p.b), num(p.c), num(p.d))
  }

  /** The left side of the result line: `a || 'A'` and `b || 'B'`. */
  function Label(p: Proportion): string
  {
    (if Filled(p.a) then p.a else "A") + ":" + (if Filled(p.b) then p.b else "B")
  }

  /** `calculateRatio`. */
  function Solve(p: Proportion, num: string -> Option<real>, show: Number -> string): (r: Proportion)
    ensures Missing(p).None? ==> r == p.(result := NeedThree)
    ensures Missing(p).Some? ==> r.highlighted == Missing(p)
  {
    match Missing(p)
    case None => p.(result := NeedThree)
    case Some(f) =>
      var v := show(Solved(p, num));
      match f
      case D => p.(d := v, highlighted := Some(D), result := Label(p) + " = " + p.c + ":" + v)
      case C => p.(c := v, highlighted := Some(C), result := Label(p) + " = " + v + ":" + p.d)
      case B => p.(b := v, highlighted := Some(B), result := Label(p) + " = " + p.a + ":" + v)
      case A => p.(a := v, highlighted := Some(A), result := Label(p) + " = " + v + ":" + p.b)
  }

  /** The text of one field. */
  function Text(p: Proportion, f: Field): string
  {
    match f
    case A => p.a
    case B => p.b
    case C => p.c
    case D => p.d
  }

  /** Solving writes the computed value into the missing field and touches no
      other field; when the value shows as a non-empty text, all four fields
      are filled afterwards. */
  lemma SolveFillsMissing(p: Proportion, num: string -> Option<real>, show: Number -> string)
    requires Missing(p).Some?
    ensures var r := Solve(p, num, show);
            var f := Missing(p).value;
            Text(r, f) == show(Solved(p, num))
            && (forall g :: g != f ==> Text(r, g) == Text(p, g))
            && (show(Solved(p, num)) != "" ==> FilledCount(r) == 4)
  {
  }

  /** Any other pattern of filled fields leaves every field and the
      highlight as they were. */
  lemma RejectKeepsFields(p: Proportion, num: string -> Option<real>, show: Number -> string)
    requires FilledCount(p) != 3
    ensures var r := Solve(p, num, show);
            r.result == NeedThree && r.highlighted == p.highlighted
            && forall g :: Text(r, g) == Text(p, g)
  {
  }

  /** A field holding "0" counts as filled, so it can be the divisor: with
      A = "0" and D empty, D comes out as an infinity, or as NaN when C * B is 0. */
  lemma ZeroDivisor(p: Proportion, num: string -> Option<real>)
    requires p.a == "0" && num("0") == Some(0.0)
    requires Filled(p.b) && Filled(p.c) && !Filled(p.d)
    requires num(p.b).Some? && num(p.c).Some?
    ensures Missing(p) == Some(D)
    ensures Solved(p, num).NaN? <==> num(p.c).value * num(p.b).value == 0.0
    ensures Solved(p, num).Infinity? <==> num(p.c).value * num(p.b).value != 0.0
  {
  }

  datatype Mode = Shrink | Enlarge

  /** The picker value the result line shows. */
  function ModeName(m: Mode): string
  {
    match m
    case Shrink => "shrink"
    case Enlarge => "enlarge"
  }

  /** The scaling section. */
  datatype Scaling = Scaling(width: string, height: string, factor: string, mode: Mode,
                             scaledWidth: string, scaledHeight: string, result: string, calculated: bool)

  const NeedAll: string := "Please enter all three values."

  /** One side scaled: divided by the factor to shrink, multiplied to enlarge;
      NaN when a text is NaN, and a shrink by 0 is the division's infinity or NaN. */
  function Scaled(x: Option<real>, f: Option<real>, m: Mode): (y: Number)
    ensures y.Finite? <==> x.Some? && f.Some? && (m == Shrink ==> f.value != 0.0)
    ensures y.Finite? && m == Shrink ==> y.value * f.value == x.value
    ensures y.Finite? && m == Enlarge ==> y.value == x.value * f.value
    ensures y.Infinity? <==> x.Some? && f == Some(0.0) && m == Shrink && x.value != 0.0
  {
    if x.None? || f.None? then NaN
    else if m == Shrink then Divide(x.value, f.value)
    else Finite(x.value * f.value)
  }

  /** `calculateScaling`. */
  function Scale(s: Scaling, num: string -> Option<real>, show: Number -> string): (r: Scaling)
    ensures r.width == s.width && r.height == s.height && r.factor == s.factor && r.mode == s.mode
    ensures !(Filled(s.width) && Filled(s.height) && Filled(s.factor)) ==> r == s.(result := NeedAll)
    ensures Filled(s.width) && Filled(s.height) && Filled(s.factor) ==>
              r.calculated
              && r.scaledWidth == show(Scaled(num(s.width), num(s.factor), s.mode))
              && r.scaledHeight == show(Scaled(num(s.height), num(s.factor), s.mode))
  {
    if Filled(s.width) && Filled(s.height) && Filled(s.factor) then
      var w := show(Scaled(num(s.width), num(s.factor), s.mode));
      var h := show(Scaled(num(s.height), num(s.factor), s.mode));
      s.(scaledWidth := w, scaledHeight := h, calculated := true,
         result := " " + s.width + ":" + s.height + " " + ModeName(s.mode) + " " + s.factor + " times = " + w + ":" + h)
    else s.(result := NeedAll)
  }

  /** Scaling keeps the aspect ratio: `scaledWidth / scaledHeight == width / height`,
      stated with the divisions multiplied out. */
  lemma ScalingKeepsRatio(w: Option<real>, h: Option<real>, f: Option<real>, m: Mode)
    requires Scaled(w, f, m).Finite? && Scaled(h, f, m).Finite?
    ensures Scaled(w, f, m).value * h.value == Scaled(h, f, m).value * w.value
  {
    var sw, sh := Scaled(w, f, m).value, Scaled(h, f, m).value;
    if m == Shrink {
      Cancel(sw * h.value, sh * w.value, f.value);
    }
  }

  /** Shrinking and then enlarging by the same non-zero factor gives the side back. */
  lemma ShrinkThenEnlarge(x: real, f: real)
    requires f != 0.0
    ensures var y := Scaled(Some(Scaled(Some(x), Some(f), Shrink).value), Some(f), Enlarge);
            y == Finite(x)
  {
  }

  /** The whole screen: the two sections side by side. */
  datatype Screen = Screen(proportion: Proportion, scaling: Scaling)

  /** `clearRatioInputs`: empties the proportion section and leaves scaling alone. */
  function ClearRatio(s: Screen): (r: Screen)
    ensures r.scaling == s.scaling
    ensures FilledCount(r.proportion) == 0 && r.proportion.highlighted.None? && r.proportion.result == ""
  {
    s.(proportion := EmptyProportion)
  }

  /** `clearScalingInputs`: empties the scaling section but keeps the chosen
      mode, and leaves the proportion alone. */
  function ClearScaling(s: Screen): (r: Screen)
    ensures r.proportion == s.proportion && r.scaling.mode == s.scaling.mode
    ensures !r.scaling.calculated && r.scaling.result == "" && r.scaling.scaledWidth == "" && r.scaling.scaledHeight == ""
    ensures !Filled(r.scaling.width) && !Filled(r.scaling.height) && !Filled(r.scaling.factor)
  {
    s.(scaling := Scaling("", "", "", s.scaling.mode, "", "", "", false))
  }

  /** After either clear, pressing calculate in that section only asks for input again. */
  lemma ClearThenCalculate(s: Screen, num: string -> Option<real>, show: Number -> string)
    ensures Solve(ClearRatio(s).proportion, num, show).result == NeedThree
    ensures Scale(ClearScaling(s).scaling, num, show).result == NeedAll
  {
    assert FilledCount(ClearRatio(s).proportion) == 0;
  }
}

/** The retirement screen (`calculateFutureValue`, `renderFutureValue`): a
    present value grown at a yearly rate for a whole number of years
    (`parseInt`), shown as one line "Future Value: ₹ <amount> (<words>)"
    that the renderer cuts at ": " into a label and a value. */
module Retirement {
  import opened Options
  import opened Numeric
  import opened Text
  import IndianWords

  datatype Outcome =
    | Alert                      // "Please fill in all fields correctly."
    | Unbounded(negative: bool)  // a non-zero PV times 0 raised to a negative power: an infinity of PV's sign
    | NotANumber                 // a PV of 0 times that Infinity: NaN
    | Value(fv: int)

  /** `PV * (1 + r)^n` for a whole `n` of either sign. */
  function Future(pv: real, r: real, n: int): real
    requires 1.0 + r != 0.0 || n >= 0
  {
    pv * IPow(1.0 + r, n)
  }

  /** `calculateFutureValue`: the present value, the rate in percent and the
      years; the rounded future value. */
  function Calculate(pv: Option<real>, ratePercent: Option<real>, years: Option<int>): (o: Outcome)
    ensures o.Alert? <==> pv.None? || ratePercent.None? || years.None?
    ensures o.Unbounded? || o.NotANumber? <==> !o.Alert? && ratePercent.value == -100.0 && years.value < 0
    ensures o.Unbounded? ==> pv.value != 0.0 && (o.negative <==> pv.value < 0.0)
    ensures o.NotANumber? ==> pv.value == 0.0
    ensures o.Value? ==> o.fv == Round(Future(pv.value, ratePercent.value / 100.0, years.value))
  {
    if pv.None? || ratePercent.None? || years.None? then Alert
    else if 1.0 + ratePercent.value / 100.0 == 0.0 && years.value < 0 then
      if pv.value == 0.0 then NotANumber else Unbounded(pv.value < 0.0)
    else Value(Round(Future(pv.value, ratePercent.value / 100.0, years.value)))
  }

  /** No years means no growth. */
  lemma NoYears(pv: real, r: real)
    ensures Future(pv, r, 0) == pv
  {
  }

  /** One more year multiplies the future value by `1 + r`, whatever the sign
      of the years. */
  lemma OneMoreYear(pv: real, r: real, n: int)
    requires 1.0 + r != 0.0 || n >= 0
    ensures Future(pv, r, n + 1) == Future(pv, r, n) * (1.0 + r)
  {
    IPowSucc(1.0 + r, n);
  }

  const Label: string := "Future Value"

  /** The value part of the line: "₹ <grouped amount> (<words>)". */
  function Shown(grouped: string, words: string): string
  {
    "\U{20B9} " + grouped + " (" + words + ")"
  }

  /** The result line for an amount the formatter covers; `locale` stands for
      `toLocaleString('en-IN')`. */
  function Line(fv: nat, locale: int -> string): string
    requires fv < IndianWords.Limit
  {
    Label + ": " + Shown(locale(fv), IndianWords.InWords(fv))
  }

  /** `split(': ')`: the parts between the separators. */
  function Split(s: string): (parts: seq<string>)
    ensures |parts| >= 1
    decreases |s|
  {
    if |s| < 2 then [s]
    else if s[0] == ':' && s[1] == ' ' then [""] + Split(s[2..])
    else
      var t := Split(s[1..]);
      [[s[0]] + t[0]] + t[1..]
  }

  /** A text without ':' is not split. */
  lemma {:induction false} SplitNoColon(s: string)
    requires ':' !in s
    ensures Split(s) == [s]
    decreases |s|
  {
    if |s| >= 2 {
      assert s[0] != ':' && ':' !in s[1..];
      SplitNoColon(s[1..]);
      assert [s[0]] + s[1..] == s;
    }
  }

  /** A text without ':' before the first separator is the first part. */
  lemma {:induction false} SplitAfter(p: string, rest: string)
    requires ':' !in p
    ensures Split(p + ": " + rest) == [p] + Split(rest)
    decreases |p|
  {
    if |p| == 0 {
      assert (p + ": " + rest)[2..] == rest;
    } else {
      assert (p + ": " + rest)[1..] == p[1..] + ": " + rest;
      SplitAfter(p[1..], rest);
      assert [p[0]] + p[1..] == p;
    }
  }

  lemma NoColonJoined(a: string, b: string)
    requires ':' !in a && ':' !in b
    ensures ':' !in a + b
  {
  }

  /** The formatter writes letters and spaces only. */
  lemma WordsHaveNoColon(n: nat)
    requires n < IndianWords.Limit
    ensures ':' !in IndianWords.InWords(n)
  {
    if n > 0 {
      IndianWords.PositiveIsTidy(n);
    }
  }

  /** Two texts without ':' joined by one separator split back into the two. */
  lemma SplitPair(p: string, v: string)
    requires ':' !in p && ':' !in v
    ensures Split(p + ": " + v) == [p, v]
  {
    SplitAfter(p, v);
    SplitNoColon(v);
  }

  lemma ShownHasNoColon(grouped: string, words: string)
    requires ':' !in grouped && ':' !in words
    ensures ':' !in Shown(grouped, words)
  {
    NoColonJoined("\U{20B9} ", grouped);
    NoColonJoined("\U{20B9} " + grouped, " (");
    NoColonJoined("\U{20B9} " + grouped + " (", words);
    NoColonJoined("\U{20B9} " + grouped + " (" + words, ")");
  }

  /** What `renderFutureValue` prints: "<label>:" and then " <value>". */
  function Render(name: string, value: string): string
  {
    name + ":" + " " + value
  }

  lemma RenderRestores(p: string, v: string)
    ensures Render(p, v) == p + ": " + v
  {
    assert ":" + " " == ": ";
    assert (p + ":") + (" " + v) == p + (": " + v);
  }

  lemma LabelHasNoColon()
    ensures ':' !in Label
  {
    assert forall i :: 0 <= i < |Label| ==> Label[i] != ':';
  }

  /** `renderFutureValue`: splitting the line gives back exactly the label and
      the value, and printing them as "<label>:" and " <value>" restores the
      line, as long as the grouped amount itself has no ':'. */
  lemma SplitLine(fv: nat, locale: int -> string)
    requires fv < IndianWords.Limit && ':' !in locale(fv)
    ensures var parts := Split(Line(fv, locale));
            |parts| == 2 && parts[0] == Label && parts[1] == Shown(locale(fv), IndianWords.InWords(fv))
            && Render(parts[0], parts[1]) == Line(fv, locale)
  {
    var words := IndianWords.InWords(fv);
    WordsHaveNoColon(fv);
    ShownHasNoColon(locale(fv), words);
    LabelHasNoColon();
    SplitPair(Label, Shown(locale(fv), words));
    RenderRestores(Label, Shown(locale(fv), words));
  }

  /** The screen: the three field texts and the result line, "" when none. */
  datatype Screen = Screen(presentValue: string, rate: string, years: string, futureValue: string)

  /** `clearFields`: everything emptied, so nothing is rendered. */
  function Clear(s: Screen): (r: Screen)
    ensures r.presentValue == "" && r.rate == "" && r.years == "" && r.futureValue == ""
  {
    Screen("", "", "", "")
  }
}

/** The Indian-numbering words formatter `convertToIndianWords`
    (src/screens/SIPCalculator.js:6-48). The same text is pasted into most
    result screens; every copy is this function. */
module IndianWords {
  import opened Text
  import opened Options

  const Ones: seq<string> := ["", "One", "Two", "Three", "Four", "Five", "Six", "Seven", "Eight", "Nine"]
  const Tens: seq<string> := ["", "Ten", "Twenty", "Thirty", "Forty", "Fifty", "Sixty", "Seventy", "Eighty", "Ninety"]
  const Teens: seq<string> := ["Ten", "Eleven", "Twelve", "Thirteen", "Fourteen", "Fifteen", "Sixteen", "Seventeen", "Eighteen", "Nineteen"]

  /** The largest amount the tables can spell: a crore count above 99 would
      index past the end of `tens`. */
  const Limit: nat := 1000000000

  /** `numToWords`: a number below one hundred in words; zero is the empty text. */
  function TwoDigits(num: nat): string
    requires num < 100
  {
    if num == 0 then ""
    else if num < 10 then Ones[num]
    else if num < 20 then Teens[num - 10]
    else Trim(Tens[num / 10] + " " + Ones[num % 10])
  }

  function Crore(n: nat): nat { n / 10000000 }
  function Lakh(n: nat): nat { (n % 10000000) / 100000 }
  function Thousand(n: nat): nat { (n % 100000) / 1000 }
  function Hundreds(n: nat): nat { (n % 1000) / 100 }
  function Remainder(n: nat): nat { n % 100 }

  /** One `words += ...` step of `inWords`: the count, its unit and a space,
      or nothing for a zero count. */
  function Group(count: nat, unit: string): string
    requires count < 100
  {
    if count > 0 then TwoDigits(count) + " " + unit + " " else ""
  }

  /** `inWords`, the formatter itself. */
  function InWords(n: nat): string
    requires n < Limit
  {
    if n == 0 then "Zero"
    else
      Trim(Group(Crore(n), "Crore") + Group(Lakh(n), "Lakh") + Group(Thousand(n), "Thousand")
           + Group(Hundreds(n), "Hundred") + (if Remainder(n) > 0 then TwoDigits(Remainder(n)) else ""))
  }

  // ---------------------------------------------------------------------
  // Reference definition: the same text as a list of words.

  /** The words naming a number below one hundred. */
  function DigitWords(k: nat): seq<string>
    requires k < 100
  {
    if k == 0 then []
    else if k < 10 then [Ones[k]]
    else if k < 20 then [Teens[k - 10]]
    else if k % 10 == 0 then [Tens[k / 10]]
    else [Tens[k / 10], Ones[k % 10]]
  }

  function GroupWords(count: nat, unit: string): seq<string>
    requires count < 100
  {
    if count > 0 then DigitWords(count) + [unit] else []
  }

  /** The crore, lakh, thousand and hundred groups in that order, zero groups omitted. */
  function LabelledWords(n: nat): seq<string>
    requires n < Limit
  {
    GroupWords(Crore(n), "Crore") + GroupWords(Lakh(n), "Lakh") + GroupWords(Thousand(n), "Thousand")
    + GroupWords(Hundreds(n), "Hundred")
  }

  /** The words of the amount: "Zero" alone, or the labelled groups followed by the remainder. */
  function Words(n: nat): seq<string>
    requires n < Limit
  {
    if n == 0 then ["Zero"] else LabelledWords(n) + DigitWords(Remainder(n))
  }

  // ---------------------------------------------------------------------
  // Facts about the tables.

  lemma OnesAreWords()
    ensures forall i :: 1 <= i < 10 ==> IsWord(Ones[i])
  {
    assert IsWord(Ones[1]);
    assert IsWord(Ones[2]);
    assert IsWord(Ones[3]);
    assert IsWord(Ones[4]);
    assert IsWord(Ones[5]);
    assert IsWord(Ones[6]);
    assert IsWord(Ones[7]);
    assert IsWord(Ones[8]);
    assert IsWord(Ones[9]);
  }

  lemma TensAreWords()
    ensures forall i :: 1 <= i < 10 ==> IsWord(Tens[i])
  {
    assert IsWord(Tens[1]);
    assert IsWord(Tens[2]);
    assert IsWord(Tens[3]);
    assert IsWord(Tens[4]);
    assert IsWord(Tens[5]);
    assert IsWord(Tens[6]);
    assert IsWord(Tens[7]);
    assert IsWord(Tens[8]);
    assert IsWord(Tens[9]);
  }

  lemma TeensAreWords()
    ensures forall i :: 0 <= i < 10 ==> IsWord(Teens[i])
  {
    LowTeensAreWords();
    HighTeensAreWords();
  }

  lemma LowTeensAreWords()
    ensures forall i :: 0 <= i < 5 ==> IsWord(Teens[i])
  {
    assert IsWord(Teens[0]);
    assert IsWord(Teens[1]);
    assert IsWord(Teens[2]);
    assert IsWord(Teens[3]);
    assert IsWord(Teens[4]);
  }

  lemma HighTeensAreWords()
    ensures forall i :: 5 <= i < 10 ==> IsWord(Teens[i])
  {
    assert IsWord(Teens[5]);
    assert IsWord(Teens[6]);
    assert IsWord(Teens[7]);
    assert IsWord(Teens[8]);
    assert IsWord(Teens[9]);
  }

  lemma TablesAreWords()
    ensures forall i :: 1 <= i < 10 ==> IsWord(Ones[i]) && IsWord(Tens[i])
    ensures forall i :: 0 <= i < 10 ==> IsWord(Teens[i])
  {
    OnesAreWords();
    TensAreWords();
    TeensAreWords();
  }

  lemma LabelsAreWords()
    ensures IsWord("Crore") && IsWord("Lakh") && IsWord("Thousand") && IsWord("Hundred")
  {
  }

  lemma DigitWordsAreWords(k: nat)
    requires k < 100
    ensures AllWords(DigitWords(k))
    ensures k > 0 <==> |DigitWords(k)| > 0
  {
    TablesAreWords();
  }

  lemma GroupWordsAreWords(count: nat, unit: string)
    requires count < 100 && IsWord(unit)
    ensures AllWords(GroupWords(count, unit))
    ensures count > 0 <==> |GroupWords(count, unit)| > 0
  {
    DigitWordsAreWords(count);
  }

  lemma AllWordsAppend(a: seq<string>, b: seq<string>)
    requires AllWords(a) && AllWords(b)
    ensures AllWords(a + b)
  {
    assert forall i :: |a| <= i < |a + b| ==> (a + b)[i] == b[i - |a|];
  }

  // ---------------------------------------------------------------------
  // Properties of the formatter.

  /** Zero spells "Zero", and the two-digit helper spells zero as the empty text. */
  lemma ZeroCases()
    ensures InWords(0) == "Zero"
    ensures TwoDigits(0) == ""
  {
  }

  /** The two-digit helper: a ones word below ten, a teens word below twenty,
      otherwise a tens word, followed by one space and a ones word only when the
      last digit is not zero — the `trim` never leaves a trailing space. */
  lemma TwoDigitsShape(k: nat)
    requires 1 <= k < 100
    ensures k < 10 ==> TwoDigits(k) == Ones[k]
    ensures 10 <= k < 20 ==> TwoDigits(k) == Teens[k - 10]
    ensures 20 <= k && k % 10 == 0 ==> TwoDigits(k) == Tens[k / 10]
    ensures 20 <= k && k % 10 != 0 ==> TwoDigits(k) == Tens[k / 10] + " " + Ones[k % 10]
    ensures Tidy(TwoDigits(k))
  {
    TwoDigitsIsJoin(k);
    DigitWordsAreWords(k);
    JoinTidy(DigitWords(k));
  }

  lemma TwoDigitsIsJoin(k: nat)
    requires k < 100
    ensures TwoDigits(k) == Join(DigitWords(k))
  {
    TablesAreWords();
    if k >= 20 {
      var q, d := k / 10, k % 10;
      if d == 0 {
        assert Tens[q] + " " + Ones[d] == Tens[q] + " ";
        JoinTidy([Tens[q]]);
        TrailingSpaceTrimmed(Tens[q]);
      } else {
        JoinTidy([Tens[q], Ones[d]]);
        assert Join([Tens[q], Ones[d]]) == Tens[q] + " " + Ones[d];
        TidyIsTrimmed(Tens[q] + " " + Ones[d]);
      }
    }
  }

  lemma GroupIsSpaced(count: nat, unit: string)
    requires count < 100
    ensures Group(count, unit) == Spaced(GroupWords(count, unit))
  {
    if count > 0 {
      TwoDigitsIsJoin(count);
      DigitWordsAreWords(count);
      JoinThenSpace(DigitWords(count));
      SpacedAppend(DigitWords(count), [unit]);
      assert Spaced([unit]) == unit + " ";
    }
  }

  /** The group split: the five counts rebuild the amount, and each fits its table. */
  lemma GroupSplit(n: nat)
    requires n < Limit
    ensures n == Crore(n) * 10000000 + Lakh(n) * 100000 + Thousand(n) * 1000 + Hundreds(n) * 100 + Remainder(n)
    ensures Crore(n) < 100 && Lakh(n) < 100 && Thousand(n) < 100 && Hundreds(n) < 10 && Remainder(n) < 100
  {
    var m1 := n % 10000000;
    var m2 := m1 % 100000;
    var m3 := m2 % 1000;
    assert n == Crore(n) * 10000000 + m1;
    assert m1 == Lakh(n) * 100000 + m2;
    assert n == (Crore(n) * 100 + Lakh(n)) * 100000 + m2;
    assert m2 == n % 100000;
    assert m2 == Thousand(n) * 1000 + m3;
    assert n == ((Crore(n) * 100 + Lakh(n)) * 100 + Thousand(n)) * 1000 + m3;
    assert m3 == n % 1000;
    assert m3 == Hundreds(n) * 100 + m3 % 100;
    assert n == (((Crore(n) * 100 + Lakh(n)) * 100 + Thousand(n)) * 10 + Hundreds(n)) * 100 + m3 % 100;
    assert m3 % 100 == n % 100;
  }

  /** Every table lookup stays in range exactly when the amount is below 10^9:
      the crore count is the only one that can reach one hundred. */
  lemma DomainIsLimit(n: nat)
    ensures Crore(n) < 100 <==> n < Limit
    ensures Lakh(n) < 100 && Thousand(n) < 100 && Hundreds(n) < 10 && Remainder(n) < 100
  {
  }

  /** The four labelled groups printed one after another are their words,
      each followed by a space. */
  lemma LabelledIsSpaced(n: nat)
    requires n < Limit
    ensures Group(Crore(n), "Crore") + Group(Lakh(n), "Lakh") + Group(Thousand(n), "Thousand")
            + Group(Hundreds(n), "Hundred") == Spaced(LabelledWords(n))
    ensures AllWords(LabelledWords(n))
  {
    var c, l, t, h := Crore(n), Lakh(n), Thousand(n), Hundreds(n);
    GroupIsSpaced(c, "Crore");
    GroupIsSpaced(l, "Lakh");
    GroupIsSpaced(t, "Thousand");
    GroupIsSpaced(h, "Hundred");
    var g1, g2, g3, g4 := GroupWords(c, "Crore"), GroupWords(l, "Lakh"), GroupWords(t, "Thousand"), GroupWords(h, "Hundred");
    SpacedAppend(g1, g2);
    SpacedAppend(g1 + g2, g3);
    SpacedAppend(g1 + g2 + g3, g4);
    LabelsAreWords();
    GroupWordsAreWords(c, "Crore");
    GroupWordsAreWords(l, "Lakh");
    GroupWordsAreWords(t, "Thousand");
    GroupWordsAreWords(h, "Hundred");
    AllWordsAppend(g1, g2);
    AllWordsAppend(g1 + g2, g3);
    AllWordsAppend(g1 + g2 + g3, g4);
  }

  /** A positive amount with no remainder has some labelled group. */
  lemma SomeGroup(n: nat)
    requires 0 < n < Limit && Remainder(n) == 0
    ensures |LabelledWords(n)| > 0
  {
    GroupSplit(n);
    assert Crore(n) > 0 || Lakh(n) > 0 || Thousand(n) > 0 || Hundreds(n) > 0;
  }

  /** The formatter's text is its word list joined by single spaces: the
      non-zero groups in the order Crore, Lakh, Thousand, Hundred, then the
      remainder, with every zero group left out. */
  lemma InWordsIsJoin(n: nat)
    requires n < Limit
    ensures InWords(n) == Join(Words(n))
  {
    if n > 0 {
      LabelledIsSpaced(n);
      if Remainder(n) > 0 {
        JoinWithRemainder(n);
      } else {
        JoinWithoutRemainder(n);
      }
    }
  }

  lemma JoinWithRemainder(n: nat)
    requires 0 < n < Limit && Remainder(n) > 0
    requires Group(Crore(n), "Crore") + Group(Lakh(n), "Lakh") + Group(Thousand(n), "Thousand")
             + Group(Hundreds(n), "Hundred") == Spaced(LabelledWords(n))
    requires AllWords(LabelledWords(n))
    ensures InWords(n) == Join(Words(n))
  {
    var r, a := Remainder(n), LabelledWords(n);
    var spaced := Group(Crore(n), "Crore") + Group(Lakh(n), "Lakh") + Group(Thousand(n), "Thousand") + Group(Hundreds(n), "Hundred");
    var ws := a + DigitWords(r);
    assert InWords(n) == Trim(spaced + TwoDigits(r));
    assert Words(n) == ws;
    TwoDigitsIsJoin(r);
    SpacedThenJoin(a, DigitWords(r));
    assert spaced + TwoDigits(r) == Join(ws);
    DigitWordsAreWords(r);
    AllWordsAppend(a, DigitWords(r));
    JoinTidy(ws);
    TidyIsTrimmed(Join(ws));
  }

  lemma JoinWithoutRemainder(n: nat)
    requires 0 < n < Limit && Remainder(n) == 0
    requires Group(Crore(n), "Crore") + Group(Lakh(n), "Lakh") + Group(Thousand(n), "Thousand")
             + Group(Hundreds(n), "Hundred") == Spaced(LabelledWords(n))
    requires AllWords(LabelledWords(n))
    ensures InWords(n) == Join(Words(n))
  {
    var a := LabelledWords(n);
    var spaced := Group(Crore(n), "Crore") + Group(Lakh(n), "Lakh") + Group(Thousand(n), "Thousand") + Group(Hundreds(n), "Hundred");
    assert spaced + "" == spaced;
    assert InWords(n) == Trim(spaced);
    assert a + DigitWords(0) == a;
    assert Words(n) == a;
    SomeGroup(n);
    JoinThenSpace(a);
    assert spaced == Join(a) + " ";
    JoinTidy(a);
    TrailingSpaceTrimmed(Join(a));
  }

  /** For a positive amount the text is non-empty, single-spaced, has no space at
      either end, and contains no 'Z' — so never the word "Zero". */
  lemma PositiveIsTidy(n: nat)
    requires 0 < n < Limit
    ensures Tidy(InWords(n))
    ensures 'Z' !in InWords(n)
  {
    InWordsIsJoin(n);
    WordsAreWords(n);
    JoinTidy(Words(n));
    var s := InWords(n);
    assert forall i :: 0 <= i < |s| ==> s[i] != 'Z';
  }

  /** Worked examples. */
  lemma WordsOf1234()
    ensures Words(1234) == ["One", "Thousand", "Two", "Hundred", "Thirty", "Four"]
  {
    assert Crore(1234) == 0 && Lakh(1234) == 0 && Thousand(1234) == 1 && Hundreds(1234) == 2 && Remainder(1234) == 34;
    assert GroupWords(0, "Crore") == [] && GroupWords(0, "Lakh") == [];
    assert GroupWords(1, "Thousand") == ["One", "Thousand"];
    assert GroupWords(2, "Hundred") == ["Two", "Hundred"];
    assert DigitWords(34) == ["Thirty", "Four"];
    assert LabelledWords(1234) == ["One", "Thousand", "Two", "Hundred"];
  }

  lemma WordsOfLakh()
    ensures Words(100000) == ["One", "Lakh"]
  {
    assert Crore(100000) == 0 && Lakh(100000) == 1 && Thousand(100000) == 0 && Hundreds(100000) == 0 && Remainder(100000) == 0;
    assert GroupWords(0, "Crore") == [] && GroupWords(0, "Thousand") == [] && GroupWords(0, "Hundred") == [];
    assert GroupWords(1, "Lakh") == ["One", "Lakh"];
    assert DigitWords(0) == [];
  }

  lemma WordsOfCrore()
    ensures Words(10000000) == ["One", "Crore"]
  {
    assert Crore(10000000) == 1 && Lakh(10000000) == 0 && Thousand(10000000) == 0 && Hundreds(10000000) == 0 && Remainder(10000000) == 0;
    assert GroupWords(0, "Lakh") == [] && GroupWords(0, "Thousand") == [] && GroupWords(0, "Hundred") == [];
    assert GroupWords(1, "Crore") == ["One", "Crore"];
    assert DigitWords(0) == [];
  }

  lemma ExampleNinety()
    ensures InWords(90) == "Ninety"
  {
    assert Crore(90) == 0 && Lakh(90) == 0 && Thousand(90) == 0 && Hundreds(90) == 0 && Remainder(90) == 90;
    assert GroupWords(0, "Crore") == [] && GroupWords(0, "Lakh") == [] && GroupWords(0, "Thousand") == [] && GroupWords(0, "Hundred") == [];
    assert DigitWords(90) == ["Ninety"];
    assert Words(90) == ["Ninety"];
    InWordsIsJoin(90);
  }

  // ---------------------------------------------------------------------
  // Reading the words back: the formatter loses no information.

  /** The value of a number word, if it is one. */
  function WordValue(w: string): Option<nat>
  {
    if w == "Zero" then Some(0)
    else if w == "One" then Some(1) else if w == "Two" then Some(2) else if w == "Three" then Some(3)
    else if w == "Four" then Some(4) else if w == "Five" then Some(5) else if w == "Six" then Some(6)
    else if w == "Seven" then Some(7) else if w == "Eight" then Some(8) else if w == "Nine" then Some(9)
    else if w == "Ten" then Some(10) else if w == "Eleven" then Some(11) else if w == "Twelve" then Some(12)
    else if w == "Thirteen" then Some(13) else if w == "Fourteen" then Some(14) else if w == "Fifteen" then Some(15)
    else if w == "Sixteen" then Some(16) else if w == "Seventeen" then Some(17) else if w == "Eighteen" then Some(18)
    else if w == "Nineteen" then Some(19)
    else if w == "Twenty" then Some(20) else if w == "Thirty" then Some(30) else if w == "Forty" then Some(40)
    else if w == "Fifty" then Some(50) else if w == "Sixty" then Some(60) else if w == "Seventy" then Some(70)
    else if w == "Eighty" then Some(80) else if w == "Ninety" then Some(90)
    else None
  }

  /** The multiplier a group label stands for. */
  function Scale(w: string): Option<nat>
  {
    if w == "Crore" then Some(10000000)
    else if w == "Lakh" then Some(100000)
    else if w == "Thousand" then Some(1000)
    else if w == "Hundred" then Some(100)
    else None
  }

  /** The amount read so far: closed groups, and the count of the open group. */
  datatype Reading = Reading(total: int, open: int)

  /** A label closes the open group; a number word adds to it. */
  function ReadWord(r: Reading, w: string): Reading
  {
    match Scale(w)
    case Some(m) => Reading(r.total + r.open * m, 0)
    case None => Reading(r.total, r.open + WordValue(w).GetOr(0))
  }

  function ReadWords(r: Reading, ws: seq<string>): Reading
    decreases |ws|
  {
    if |ws| == 0 then r else ReadWords(ReadWord(r, ws[0]), ws[1..])
  }

  /** The amount a list of words names. */
  function Value(ws: seq<string>): int
  {
    var r := ReadWords(Reading(0, 0), ws);
    r.total + r.open
  }

  /** The amount a formatted text names. */
  function Parse(s: string): int
  {
    Value(SplitWords(s))
  }

  lemma {:induction false} ReadWordsAppend(r: Reading, a: seq<string>, b: seq<string>)
    ensures ReadWords(r, a + b) == ReadWords(ReadWords(r, a), b)
    decreases |a|
  {
    if |a| > 0 {
      assert (a + b)[0] == a[0] && (a + b)[1..] == a[1..] + b;
      ReadWordsAppend(ReadWord(r, a[0]), a[1..], b);
    } else {
      assert a + b == b;
    }
  }

  lemma OnesValues(i: nat)
    requires 1 <= i < 10
    ensures WordValue(Ones[i]) == Some(i) && Scale(Ones[i]) == None
  {
    if i == 1 {} else if i == 2 {} else if i == 3 {} else if i == 4 {} else if i == 5 {}
    else if i == 6 {} else if i == 7 {} else if i == 8 {} else {}
  }

  lemma TeensValues(i: nat)
    requires i < 10
    ensures WordValue(Teens[i]) == Some(10 + i) && Scale(Teens[i]) == None
  {
    if i == 0 {} else if i == 1 {} else if i == 2 {} else if i == 3 {} else if i == 4 {} else if i == 5 {}
    else if i == 6 {} else if i == 7 {} else if i == 8 {} else {}
  }

  lemma TensValues(i: nat)
    requires 2 <= i < 10
    ensures WordValue(Tens[i]) == Some(10 * i) && Scale(Tens[i]) == None
  {
    if i < 6 {
      LowTensValues(i);
    } else {
      HighTensValues(i);
    }
  }

  lemma LowTensValues(i: nat)
    requires 2 <= i < 6
    ensures WordValue(Tens[i]) == Some(10 * i) && Scale(Tens[i]) == None
  {
    if i == 2 {} else if i == 3 {} else if i == 4 {} else {}
  }

  lemma HighTensValues(i: nat)
    requires 6 <= i < 10
    ensures WordValue(Tens[i]) == Some(10 * i) && Scale(Tens[i]) == None
  {
    if i == 6 {} else if i == 7 {} else if i == 8 {} else {}
  }

  /** Reading the words of a number below one hundred opens a group of that count. */
  lemma ReadDigitWords(total: int, k: nat)
    requires k < 100
    ensures ReadWords(Reading(total, 0), DigitWords(k)) == Reading(total, k)
  {
    if k == 0 {
    } else if k < 10 {
      OnesValues(k);
    } else if k < 20 {
      TeensValues(k - 10);
    } else if k % 10 == 0 {
      TensValues(k / 10);
    } else {
      TensValues(k / 10);
      OnesValues(k % 10);
      ReadWordsAppend(Reading(total, 0), [Tens[k / 10]], [Ones[k % 10]]);
      assert [Tens[k / 10]] + [Ones[k % 10]] == DigitWords(k);
    }
  }

  lemma ReadGroupWords(total: int, count: nat, unit: string, m: nat)
    requires count < 100 && Scale(unit) == Some(m)
    ensures ReadWords(Reading(total, 0), GroupWords(count, unit)) == Reading(total + count * m, 0)
  {
    if count > 0 {
      ReadWordsAppend(Reading(total, 0), DigitWords(count), [unit]);
      ReadDigitWords(total, count);
    }
  }

  /** Reading five consecutive pieces, each from where the previous one left off. */
  lemma ReadChain(x0: int, x1: int, x2: int, x3: int, x4: int, r: int,
                  g1: seq<string>, g2: seq<string>, g3: seq<string>, g4: seq<string>, d: seq<string>)
    requires ReadWords(Reading(x0, 0), g1) == Reading(x1, 0)
    requires ReadWords(Reading(x1, 0), g2) == Reading(x2, 0)
    requires ReadWords(Reading(x2, 0), g3) == Reading(x3, 0)
    requires ReadWords(Reading(x3, 0), g4) == Reading(x4, 0)
    requires ReadWords(Reading(x4, 0), d) == Reading(x4, r)
    ensures ReadWords(Reading(x0, 0), g1 + g2 + g3 + g4 + d) == Reading(x4, r)
  {
    ReadWordsAppend(Reading(x0, 0), g1, g2);
    ReadWordsAppend(Reading(x0, 0), g1 + g2, g3);
    ReadWordsAppend(Reading(x0, 0), g1 + g2 + g3, g4);
    ReadWordsAppend(Reading(x0, 0), g1 + g2 + g3 + g4, d);
  }

  /** Reading the four labelled groups and a remainder, for any counts in range. */
  lemma ReadAllGroups(c: nat, l: nat, t: nat, h: nat, r: nat)
    requires c < 100 && l < 100 && t < 100 && h < 100 && r < 100
    ensures ReadWords(Reading(0, 0), GroupWords(c, "Crore") + GroupWords(l, "Lakh") + GroupWords(t, "Thousand")
                                     + GroupWords(h, "Hundred") + DigitWords(r))
         == Reading(c * 10000000 + l * 100000 + t * 1000 + h * 100, r)
  {
    var t1 := 0 + c * 10000000;
    var t2 := t1 + l * 100000;
    var t3 := t2 + t * 1000;
    var t4 := t3 + h * 100;
    ReadGroupWords(0, c, "Crore", 10000000);
    ReadGroupWords(t1, l, "Lakh", 100000);
    ReadGroupWords(t2, t, "Thousand", 1000);
    ReadGroupWords(t3, h, "Hundred", 100);
    ReadDigitWords(t4, r);
    ReadChain(0, t1, t2, t3, t4, r, GroupWords(c, "Crore"), GroupWords(l, "Lakh"), GroupWords(t, "Thousand"),
              GroupWords(h, "Hundred"), DigitWords(r));
  }

  /** Decoding the word list gives back the amount. */
  lemma WordsRoundTrip(n: nat)
    requires n < Limit
    ensures Value(Words(n)) == n
  {
    if n == 0 {
      assert ReadWords(Reading(0, 0), ["Zero"]) == ReadWords(Reading(0, 0), []);
    } else {
      GroupSplit(n);
      ReadAllGroups(Crore(n), Lakh(n), Thousand(n), Hundreds(n), Remainder(n));
    }
  }

  /** The round trip on text: reading the formatted amount back yields the
      amount, so two different amounts never share a text. */
  lemma InWordsRoundTrip(n: nat)
    requires n < Limit
    ensures Parse(InWords(n)) == n
  {
    WordsRoundTrip(n);
    if n == 0 {
      assert ' ' !in "Zero";
      assert SplitWords("Zero") == ["Zero"];
    } else {
      InWordsIsJoin(n);
      WordsAreWords(n);
      SplitJoin(Words(n));
    }
  }

  lemma InWordsInjective(a: nat, b: nat)
    requires a < Limit && b < Limit
    requires InWords(a) == InWords(b)
    ensures a == b
  {
    InWordsRoundTrip(a);
    InWordsRoundTrip(b);
  }

  lemma WordsAreWords(n: nat)
    requires 0 < n < Limit
    ensures |Words(n)| > 0 && AllWords(Words(n))
  {
    {
      var c, l, t, h, r := Crore(n), Lakh(n), Thousand(n), Hundreds(n), Remainder(n);
      LabelsAreWords();
      GroupWordsAreWords(c, "Crore");
      GroupWordsAreWords(l, "Lakh");
      GroupWordsAreWords(t, "Thousand");
      GroupWordsAreWords(h, "Hundred");
      var g1, g2, g3, g4 := GroupWords(c, "Crore"), GroupWords(l, "Lakh"), GroupWords(t, "Thousand"), GroupWords(h, "Hundred");
      AllWordsAppend(g1, g2);
      AllWordsAppend(g1 + g2, g3);
      AllWordsAppend(g1 + g2 + g3, g4);
      DigitWordsAreWords(r);
      AllWordsAppend(LabelledWords(n), DigitWords(r));
      GroupSplit(n);
    }
  }
}

/** The scientific calculator's input line: key presses that edit it, the
    BACK key that removes the last token, AC, the `factorial` helper, and
    the bookkeeping of '='. Evaluation (the regular-expression rewriting,
    `eval` and the trigonometry) is a parameter. */
module ScientificKeypad {
  import opened Text

  datatype Screen = Screen(input: string, expression: string, history: seq<string>, isResult: bool)

  /** The screen as it starts. */
  const Initial: Screen := Screen("", "", [], false)

  /** `/\d/.test(c)` on one character. */
  predicate IsDigit(c: char)
  {
    '0' <= c <= '9'
  }

  const Pi: char := 'π'

  /** `handleInput` for a digit, '.', 'π', '(' or ')': after a result or on an
      empty or "0" line the key replaces it; a digit right after π or π right
      after a digit gets a '*' between them; otherwise the key is appended. */
  function Input(s: Screen, value: char): (r: Screen)
    ensures r.expression == s.expression && r.history == s.history && !r.isResult
    ensures s.isResult || s.input == "0" || s.input == "" ==> r.input == [value]
  {
    if s.isResult then s.(input := [value], isResult := false)
    else if s.input == "0" || s.input == "" then s.(input := [value])
    else
      var last := s.input[|s.input| - 1];
      if last == Pi && IsDigit(value) then s.(input := s.input + "*" + [value])
      else if IsDigit(last) && value == Pi then s.(input := s.input + "*" + [value])
      else s.(input := s.input + [value])
  }

  /** π and a digit next to each other are always joined by '*'. */
  lemma PiDigitJoined(s: Screen, value: char)
    requires !s.isResult && s.input != "0" && |s.input| >= 1
    requires (s.input[|s.input| - 1] == Pi && IsDigit(value)) || (IsDigit(s.input[|s.input| - 1]) && value == Pi)
    ensures Input(s, value).input == s.input + ['*', value]
  {
  }

  /** Whether `suffix` ends `s`. */
  predicate EndsWith(s: string, suffix: string)
  {
    |suffix| <= |s| && s[|s| - |suffix|..] == suffix
  }

  /** The function names of BACK's pattern
      `/(sin|cos|tan|sin-1|cos-1|tan-1|exp|log|ln|sqrt|1\/|³√)\($/`. */
  const WrittenNames: seq<string> := ["sin", "cos", "tan", "sin-1", "cos-1", "tan-1", "exp", "log", "ln", "sqrt", "1/", "³√"]

  /** The names the function keys actually put on the line: the square-root
      key shows '√' rather than "sqrt". */
  const Names: seq<string> := seq(13, k requires 0 <= k < 13 => Name(k))

  /** The `k`-th of those names. */
  function Name(k: nat): string
    requires k < 13
  {
    match k
    case 0 => "sin" case 1 => "cos" case 2 => "tan" case 3 => "sin-1" case 4 => "cos-1"
    case 5 => "tan-1" case 6 => "exp" case 7 => "log" case 8 => "ln" case 9 => "sqrt"
    case 10 => "1/" case 11 => "³√" case _ => "√"
  }

  /** The last character of each name. */
  function Final(k: nat): char
    requires k < 13
  {
    match k
    case 0 => 'n' case 1 => 's' case 2 => 'n' case 3 => '1' case 4 => '1'
    case 5 => '1' case 6 => 'p' case 7 => 'g' case 8 => 'n' case 9 => 't'
    case 10 => '/' case _ => '√'
  }

  lemma FinalIsLast(k: nat)
    requires k < 13
    ensures |Name(k)| >= 1 && Name(k)[|Name(k)| - 1] == Final(k)
  {
  }

  /** How many characters an end-anchored alternation `(n1|n2|...)\($`
      matches: the longest `name(` that ends the line (the leftmost match of an
      anchored pattern is the longest one), or 0 when none does. */
  function MatchLength(input: string, names: seq<string>): (n: nat)
    ensures n == 0 || (n <= |input| && exists k :: 0 <= k < |names| && n == |names[k]| + 1 && EndsWith(input, names[k] + "("))
    ensures forall k :: 0 <= k < |names| && EndsWith(input, names[k] + "(") ==> |names[k]| + 1 <= n
  {
    if |names| == 0 then 0
    else
      var rest := MatchLength(input, names[1..]);
      var here := if EndsWith(input, names[0] + "(") then |names[0]| + 1 else 0;
      assert forall k :: 1 <= k < |names| ==> names[k] == names[1..][k - 1];
      if here > rest then here else rest
  }

  /** BACK on a line that is neither "Error" nor a result, for a pattern
      listing `names`: a digit or ')' goes alone, "**" goes as a pair, a
      function token `name(` goes whole, and anything else one character. */
  function Erase(input: string, names: seq<string>): (r: string)
    ensures |r| <= |input|
    ensures r == input[..|r|]
    ensures |input| > 0 ==> |r| < |input|
  {
    if |input| == 0 then input
    else
      var last := input[|input| - 1];
      if IsDigit(last) || last == ')' then input[..|input| - 1]
      else if last == '*' && EndsWith(input, "**") then input[..|input| - 2]
      else if last == '(' then
        var m := MatchLength(input, names);
        if m > 0 then input[..|input| - m] else input[..|input| - 1]
      else input[..|input| - 1]
  }

  /** The BACK key for a pattern listing `names`: an "Error" line or a shown
      result is cleared, and any other line loses its last token. */
  function BackKey(s: Screen, names: seq<string>): (r: Screen)
    ensures r.history == s.history && r.expression == s.expression && !r.isResult
    ensures r.input <= s.input
    ensures |s.input| > 0 ==> |r.input| < |s.input|
    ensures s.input != "Error" && !s.isResult ==> r.input == Erase(s.input, names)
  {
    if s.input == "Error" || s.isResult then s.(input := "", isResult := false)
    else s.(input := Erase(s.input, names))
  }

  /** The BACK key as written leaves the '√' of a square root behind: the
      pattern lists "sqrt", which the key never writes. */
  lemma BackLeavesRoot(eval: string -> Evaluation)
    ensures Operate(Screen("9+√(", "", [], false), Back, eval).input == "9+√"
  {
    var s := Screen("9+√(", "", [], false);
    assert Operate(s, Back, eval) == BackKey(s, WrittenNames);
    assert Erase(s.input, WrittenNames) == "9+√" by {
      RootNotListed();
      assert s.input[..3] == "9+√";
    }
  }

  /** No name of the written pattern, followed by '(', ends "9+√(". */
  lemma RootNotListed()
    ensures forall k :: 0 <= k < |WrittenNames| ==> !EndsWith("9+√(", WrittenNames[k] + "(")
  {
    var input := "9+√(";
    forall k | 0 <= k < |WrittenNames|
      ensures !EndsWith(input, WrittenNames[k] + "(")
    {
      var n := WrittenNames[k] + "(";
      if |n| <= |input| {
        NotEnding(input, n);
      }
    }
  }

  datatype Operation =
    | AllClear
    | Back
      /** '=': `eval` gives the result text, or reports "Not defined" or an error. */
    | Equals
    | Factorial
      /** 'Ans': the result part of the last history line, the third piece
          of `split(' ')`. */
    | Answer
      /** '+', '-', '*', '/', '%' and "x^y". */
    | Append(text: string)

  /** What evaluating the line gives: a result, the "Not defined" error of a
      tangent at an odd multiple of 90 degrees, any other error, or
      `undefined` (an empty line), whose `toString()` then throws. */
  datatype Evaluation = Value(text: string) | NotDefined | Failed | NoValue

  /** `handleOperation`, with '=' running `calculateResult`. */
  function Operate(s: Screen, op: Operation, eval: string -> Evaluation): (r: Screen)
    ensures op.Equals? ==> (r.isResult && r.history == s.history + [r.expression])
                           || (r.history == s.history && r.isResult == s.isResult && r.input in {"Error", "Not defined"})
    ensures op.AllClear? ==> r.input == "" && r.expression == "" && !r.isResult
                             && r.history <= s.history && |r.history| == if |s.history| == 0 then 0 else |s.history| - 1
    ensures !op.Equals? && !op.AllClear? ==> r.history == s.history
    ensures op.Back? ==> r.input <= s.input && r.expression == s.expression && !r.isResult
    ensures op.Answer? && |s.history| == 0 ==> r == s
  {
    match op
    case AllClear =>
      Screen("", "", if |s.history| == 0 then [] else s.history[..|s.history| - 1], false)
    case Back => BackKey(s, WrittenNames)
    case Equals =>
      (match eval(s.input)
       case Value(result) =>
         var line := s.input + " = " + result;
         s.(expression := line, input := result, history := s.history + [line], isResult := true)
       case NotDefined => s.(input := "Not defined")
       case Failed => s.(input := "Error")
       case NoValue => s.(expression := s.input + " = undefined", input := "Error"))
    case Factorial => s.(input := s.input + "!")
    case Answer =>
      if |s.history| == 0 then s
      else
        var pieces := SplitWords(s.history[|s.history| - 1]);
        if |pieces| < 3 then s
        else s.(input := pieces[2], isResult := true)
    case Append(text) =>
      if s.isResult then s.(expression := s.input, input := s.input + text, isResult := false)
      else s.(input := s.input + text)
  }

  /** BACK never lengthens the line, and shortens any line that is not empty. */
  lemma BackShortens(s: Screen, eval: string -> Evaluation)
    ensures |Operate(s, Back, eval).input| <= |s.input|
    ensures |s.input| > 0 ==> |Operate(s, Back, eval).input| < |s.input|
  {
  }

  /** AC empties the line and the expression and drops the last history line. */
  lemma AllClearDropsLast(s: Screen, eval: string -> Evaluation)
    requires |s.history| > 0
    ensures var r := Operate(s, AllClear, eval);
            r.input == "" && r.expression == "" && r.history + [s.history[|s.history| - 1]] == s.history
  {
  }

  /** An operator after a result continues from it; otherwise it is appended. */
  lemma OperatorContinues(s: Screen, text: string, eval: string -> Evaluation)
    ensures var r := Operate(s, Append(text), eval);
            r.input == s.input + text && !r.isResult
            && (s.isResult ==> r.expression == s.input)
            && (!s.isResult ==> r.expression == s.expression)
  {
  }

  /** A successful '=' shows the result and records one history line. */
  lemma EqualsRecords(s: Screen, eval: string -> Evaluation)
    requires eval(s.input).Value?
    ensures var r := Operate(s, Equals, eval);
            r.isResult && r.input == eval(s.input).text
            && r.history == s.history + [s.input + " = " + eval(s.input).text]
  {
  }

  /** When evaluation gives `undefined` the expression line is set before
      `toString()` throws: it reads "<input> = undefined", the line shows
      "Error", and nothing is recorded. */
  lemma EqualsUndefined(s: Screen, eval: string -> Evaluation)
    requires eval(s.input).NoValue?
    ensures var r := Operate(s, Equals, eval);
            r.input == "Error" && r.expression == s.input + " = undefined"
            && r.history == s.history && r.isResult == s.isResult
  {
  }

  /** A recorded line "<input> = <result>" splits into its three pieces when
      neither part holds a space. */
  lemma SplitRecord(input: string, v: string)
    requires ' ' !in input && ' ' !in v
    ensures SplitWords(input + " = " + v) == [input, "=", v]
  {
    assert input + " = " + v == input + " " + "=" + " " + v;
    SplitThree(input, "=", v);
  }

  /** With no space in the line or in its result, 'Ans' right after a
      successful '=' brings back the result. */
  lemma EqualsThenAns(s: Screen, eval: string -> Evaluation)
    requires eval(s.input).Value? && ' ' !in s.input && ' ' !in eval(s.input).text
    ensures var r := Operate(Operate(s, Equals, eval), Answer, eval);
            r.input == eval(s.input).text && r.isResult
  {
    var v := eval(s.input).text;
    var after := Operate(s, Equals, eval);
    assert after.history[|after.history| - 1] == s.input + " = " + v;
    SplitRecord(s.input, v);
  }

  /** `lastIndexOf(pattern)`: the last position where `pattern` occurs, or -1. */
  function LastIndexOf(s: string, pattern: string): (i: int)
    ensures -1 <= i <= |s|
    ensures i >= 0 ==> i + |pattern| <= |s| && s[i..i + |pattern|] == pattern
    decreases |s|
  {
    if |pattern| > |s| then -1
    else if s[|s| - |pattern|..] == pattern then |s| - |pattern|
    else if |s| == 0 then -1
    else LastIndexOf(s[..|s| - 1], pattern)
  }

  /** `substring(i)`, which treats a negative start as 0. */
  function SubstringFrom(s: string, i: int): string
  {
    if i <= 0 then s else if i >= |s| then "" else s[i..]
  }

  /** `handleTrigFunction(func, displaySymbol)` with `symbol` the text the key
      writes: after a result it continues with `*symbol(`; after anything but
      a digit or ')' it appends `symbol(`; after a digit or ')' it keeps the
      trimmed line from `lastIndexOf(/[0-9]/)` on. That call searches for the
      text "/[0-9]/", not for a digit. */
  function FunctionKey(s: Screen, symbol: string): (r: Screen)
    ensures r.history == s.history && r.expression == s.expression && !r.isResult
  {
    if s.isResult then s.(input := s.input + "*" + symbol + "(", isResult := false)
    else if |s.input| == 0 || !(IsDigit(s.input[|s.input| - 1]) || s.input[|s.input| - 1] == ')') then
      s.(input := s.input + symbol + "(")
    else
      var trimmed := Trim(s.input);
      var lastNumber := SubstringFrom(trimmed, LastIndexOf(trimmed, SearchText));
      s.(input := lastNumber + "*" + symbol + "(")
  }

  /** No key writes '[', so the search never succeeds and the whole trimmed
      line is kept in front of the `*`. */
  lemma FunctionAfterDigitKeepsLine(s: Screen, symbol: string)
    requires !s.isResult && |s.input| >= 1 && (IsDigit(s.input[|s.input| - 1]) || s.input[|s.input| - 1] == ')')
    requires '[' !in s.input
    ensures FunctionKey(s, symbol).input == Trim(s.input) + "*" + symbol + "("
  {
    TrimInside(s.input);
    NoSearchText(Trim(s.input));
  }

  /** The text `lastIndexOf` is given: the regular expression's source. */
  const SearchText: string := "/[0-9]/"

  /** A line without '[' never contains the search text. */
  lemma NoSearchText(t: string)
    requires '[' !in t
    ensures LastIndexOf(t, SearchText) == -1
  {
    var i := LastIndexOf(t, SearchText);
    if i >= 0 {
      NotAt(t, i);
    }
  }

  /** The search text has '[' at offset 1, so it cannot start where that
      character is missing. */
  lemma NotAt(t: string, i: nat)
    requires '[' !in t && i + |SearchText| <= |t|
    ensures t[i..i + |SearchText|] != SearchText
  {
    assert t[i..i + |SearchText|][1] == t[i + 1];
  }

  /** Trimming keeps a contiguous piece of the line. */
  lemma TrimInside(s: string)
    ensures forall c :: c in Trim(s) ==> c in s
  {
    var a := TrimStart(s);
    assert forall i :: 0 <= i < |a| ==> a[i] == s[|s| - |a| + i];
    var b := TrimEnd(a);
    assert forall i :: 0 <= i < |b| ==> b[i] == a[i];
  }

  /** No name ends a shorter one, except that "³√" ends in "√". */
  lemma NamesNest(j: nat, k: nat)
    requires j < 13 && k < 13 && |Name(j)| > |Name(k)| && EndsWith(Name(j), Name(k))
    ensures j == 11 && k == 12
  {
    FinalIsLast(j);
    FinalIsLast(k);
  }

  /** A string does not end with another when one of their last three characters differ. */
  lemma NotEnding(a: string, b: string)
    requires |b| >= 1 && |a| >= |b|
    requires a[|a| - 1] != b[|b| - 1] || (|b| >= 2 && a[|a| - 2] != b[|b| - 2]) || (|b| >= 3 && a[|a| - 3] != b[|b| - 3])
    ensures !EndsWith(a, b)
  {
  }

  /** Two endings of one line: the longer ends with the shorter. */
  lemma EndingsNest(line: string, a: string, b: string)
    requires EndsWith(line, a) && EndsWith(line, b) && |b| <= |a|
    ensures EndsWith(a, b)
  {
    assert a[|a| - |b|..] == line[|line| - |b|..];
  }

  /** When `name(` ends the line and no longer listed name does, the pattern
      matches exactly `name(`. */
  lemma UniqueMatch(line: string, names: seq<string>, k: nat)
    requires k < |names| && EndsWith(line, names[k] + "(")
    requires forall j :: 0 <= j < |names| && |names[j]| > |names[k]| ==> !EndsWith(line, names[j] + "(")
    ensures MatchLength(line, names) == |names[k]| + 1
  {
  }

  /** Dropping the same last character from both sides keeps an ending. */
  lemma DropParen(a: string, b: string)
    requires EndsWith(a + "(", b + "(")
    ensures EndsWith(a, b)
  {
    assert a[|a| - |b|..] == (a + "(")[|a| - |b|..|a|];
    assert b == (b + "(")[..|b|];
  }

  /** A "³√(" ending a line made of `a` and "√(" puts '³' at the end of `a`. */
  lemma CubeRootEnding(a: string)
    requires EndsWith(a + "√(", "³√(")
    ensures EndsWith(a, "³")
  {
    assert (a + "√(")[|a| - 1] == '³';
  }

  /** A longer name can only end the line after a function key's symbol when
      it is "³√" after "√", with the '³' already on the line. */
  lemma LongerEnding(a: string, j: nat, k: nat)
    requires j < |Names| && k < |Names| && |Names[j]| > |Names[k]|
    requires EndsWith(a + Names[k] + "(", Names[j] + "(")
    ensures EndsWith(a, "³")
  {
    var line := a + Names[k] + "(";
    assert EndsWith(line, Names[k] + "(") by {
      assert line == a + (Names[k] + "(");
    }
    EndingsNest(line, Names[j] + "(", Names[k] + "(");
    DropParen(Names[j], Names[k]);
    NamesNest(j, k);
    assert a + Names[k] + "(" == a + "√(";
    CubeRootEnding(a);
  }

  /** A function key followed by BACK removes the whole `symbol(` token again,
      for every key's symbol, once the pattern lists the '√' the square-root
      key writes (a '³' just before a '√' would make it the cube root). */
  lemma FunctionThenBack(s: Screen, k: nat)
    requires k < |Names| && !s.isResult
    requires |s.input| == 0 || !(IsDigit(s.input[|s.input| - 1]) || s.input[|s.input| - 1] == ')')
    requires !EndsWith(s.input, "³")
    ensures BackKey(FunctionKey(s, Names[k]), Names).input == s.input
  {
    var line := s.input + Names[k] + "(";
    var t := FunctionKey(s, Names[k]);
    assert t.input == line && !t.isResult;
    TokenMatch(s.input, k);
    EraseToken(line, Names, |s.input|);
    PrefixOfLine(s.input, Names[k]);
  }

  /** The BACK key as written still undoes every function key whose symbol
      its pattern lists, which is every key but square root. */
  lemma WrittenFunctionThenBack(s: Screen, k: nat, eval: string -> Evaluation)
    requires k < |WrittenNames| && !s.isResult
    requires |s.input| == 0 || !(IsDigit(s.input[|s.input| - 1]) || s.input[|s.input| - 1] == ')')
    requires !EndsWith(s.input, "³")
    ensures Operate(FunctionKey(s, WrittenNames[k]), Back, eval).input == s.input
  {
    var line := s.input + WrittenNames[k] + "(";
    var t := FunctionKey(s, WrittenNames[k]);
    assert t.input == line && !t.isResult;
    WrittenTokenMatch(s.input, k);
    EraseToken(line, WrittenNames, |s.input|);
    PrefixOfLine(s.input, WrittenNames[k]);
  }

  /** The written pattern lists the first twelve key symbols. */
  lemma WrittenListed(j: nat)
    requires j < |WrittenNames|
    ensures j < |Names| && WrittenNames[j] == Names[j]
  {
  }

  /** `TokenMatch` for the written pattern. */
  lemma WrittenTokenMatch(input: string, k: nat)
    requires k < |WrittenNames| && !EndsWith(input, "³")
    ensures MatchLength(input + WrittenNames[k] + "(", WrittenNames) == |WrittenNames[k]| + 1
  {
    var line := input + WrittenNames[k] + "(";
    WrittenListed(k);
    assert EndsWith(line, WrittenNames[k] + "(") by {
      assert line == input + (WrittenNames[k] + "(");
    }
    forall j | 0 <= j < |WrittenNames| && |WrittenNames[j]| > |WrittenNames[k]|
      ensures !EndsWith(line, WrittenNames[j] + "(")
    {
      WrittenListed(j);
      if EndsWith(line, WrittenNames[j] + "(") {
        LongerEnding(input, j, k);
      }
    }
    UniqueMatch(line, WrittenNames, k);
  }

  /** The line before a token is a prefix of the line after it. */
  lemma PrefixOfLine(a: string, name: string)
    ensures (a + name + "(")[..|a|] == a
    ensures a + name + "(" != "Error"
  {
    assert (a + name + "(")[|a + name + "("| - 1] == '(' != "Error"[4];
  }

  /** The longest name the BACK pattern finds at the end of `input` followed
      by `Names[k](` is `Names[k]` itself. */
  lemma TokenMatch(input: string, k: nat)
    requires k < |Names| && !EndsWith(input, "³")
    ensures MatchLength(input + Names[k] + "(", Names) == |Names[k]| + 1
  {
    var line := input + Names[k] + "(";
    assert EndsWith(line, Names[k] + "(") by {
      assert line == input + (Names[k] + "(");
    }
    forall j | 0 <= j < |Names| && |Names[j]| > |Names[k]|
      ensures !EndsWith(line, Names[j] + "(")
    {
      if EndsWith(line, Names[j] + "(") {
        LongerEnding(input, j, k);
      }
    }
    UniqueMatch(line, Names, k);
  }

  /** BACK on a line ending in a matched token `name(` cuts the token off. */
  lemma EraseToken(line: string, names: seq<string>, cut: nat)
    requires cut < |line| && line[|line| - 1] == '(' && MatchLength(line, names) == |line| - cut
    ensures Erase(line, names) == line[..cut]
  {
  }

  /** `factorial` as a recursive definition on whole numbers. */
  function Fact(n: nat): nat
  {
    if n <= 1 then 1 else n * Fact(n - 1)
  }

  datatype Number = Finite(value: int) | NaN

  /** `factorial(n)` as written: NaN below 0, 1 up to 1, and the running
      product `2 * 3 * ... * n` otherwise. */
  method Factorial(n: int) returns (r: Number)
    ensures n < 0 ==> r == NaN
    ensures n >= 0 ==> r == Finite(Fact(n))
  {
    if n < 0 {
      return NaN;
    }
    if n <= 1 {
      return Finite(1);
    }
    var result := 1;
    var i := 2;
    while i <= n
      invariant 2 <= i <= n + 1
      invariant result == Fact(i - 1)
    {
      result := result * i;
      i := i + 1;
    }
    return Finite(result);
  }

  /** The running product satisfies the recurrence n! = n * (n - 1)!. */
  lemma FactRecurrence(n: nat)
    requires n >= 2
    ensures Fact(n) == n * Fact(n - 1) && Fact(n) >= n
  {
    FactPositive(n - 1);
  }

  lemma {:induction false} FactPositive(n: nat)
    ensures Fact(n) >= 1
  {
    if n > 1 {
      FactPositive(n - 1);
    }
  }
}

/** The basic calculator keypad: a display string, a flag that makes the next
    digit start a new number, a history of evaluated lines and a memory
    register. Expression evaluation (mathjs `evaluate` with `toString` of the
    result), `parseFloat` and the display of the memory value are parameters. */
module BasicKeypad {
  import opened Options
  import opened Text

  datatype Keypad = Keypad(expression: string, newInput: bool, history: seq<string>,
                           memory: Option<real>, editIndex: Option<nat>)

  /** What mathjs `evaluate` gives for a line: a result with its text, an
      error it throws, or `undefined` (a line with no expression in it, such
      as the empty one). */
  datatype Evaluation = Value(text: string) | Failed | NoValue

  /** The result as a template literal writes it: `undefined` reads "undefined". */
  function Rendered(e: Evaluation): (t: string)
    requires !e.Failed?
    ensures e.Value? ==> t == e.text
    ensures e.NoValue? ==> t == "undefined"
  {
    if e.Value? then e.text else "undefined"
  }

  /** The keypad as it starts: display "0", empty history, memory 0. */
  const Initial: Keypad := Keypad("0", false, [], Some(0.0), None)

  /** The last character, or none for the empty string. */
  function Last(s: string): Option<char>
  {
    if |s| == 0 then None else Some(s[|s| - 1])
  }

  /** `handleInput` for a digit or '.': a second '.' in a row is ignored; after
      a result the key starts a new display; a key other than '.' replaces a
      lone "0"; otherwise the key is appended. */
  function Input(k: Keypad, key: char): (r: Keypad)
    ensures r.history == k.history && r.memory == k.memory && r.editIndex == k.editIndex
    ensures key == '.' && Last(k.expression) == Some('.') ==> r == k
    ensures !(key == '.' && Last(k.expression) == Some('.')) ==> !r.newInput && Last(r.expression) == Some(key)
  {
    if key == '.' && Last(k.expression) == Some('.') then k
    else if k.newInput then k.(expression := [key], newInput := false)
    else if k.expression == "0" && key != '.' then k.(expression := [key])
    else k.(expression := k.expression + [key])
  }

  /** The operator keys besides AC, backspace and '='. */
  predicate IsOperator(c: char)
  {
    c == '+' || c == '-' || c == '*' || c == '/' || c == '%'
  }

  datatype Operation = Clear | Back | Equals | Operator(symbol: char)

  /** `replace(/[+\-*\/]$/, '')`: one trailing +, -, * or / is dropped. */
  function StripOperator(s: string): (t: string)
    ensures t == s || (|s| >= 1 && t == s[..|s| - 1] && s[|s| - 1] in "+-*/")
  {
    if |s| >= 1 && s[|s| - 1] in "+-*/" then s[..|s| - 1] else s
  }

  /** `handleOperation`, with `eval` standing for mathjs `evaluate`. On '='
      the history update is queued before `result.toString()` runs, so an
      `undefined` result still records "<line> = undefined" and frees the
      edited line, and then the throw puts "Error" on the display. */
  function Operate(k: Keypad, op: Operation, eval: string -> Evaluation): (r: Keypad)
    requires op.Operator? ==> IsOperator(op.symbol)
    ensures r.memory == k.memory
    ensures op.Clear? ==> r == k.(expression := "0", newInput := false)
    ensures op.Equals? ==> r.newInput
    ensures op.Equals? ==> var e := eval(StripOperator(k.expression));
                           (r.expression == "Error" <==> !e.Value? || e.text == "Error")
    ensures !op.Equals? ==> r.history == k.history && r.editIndex == k.editIndex && !r.newInput
  {
    match op
    case Clear => k.(expression := "0", newInput := false)
    case Back =>
      k.(expression := if |k.expression| > 1 then k.expression[..|k.expression| - 1] else "0", newInput := false)
    case Equals =>
      var trimmed := StripOperator(k.expression);
      var e := eval(trimmed);
      if e.Failed? then k.(expression := "Error", newInput := true)
      else
        var item := trimmed + " = " + Rendered(e);
        var history :=
          match k.editIndex
          case None => k.history + [item]
          case Some(i) => if i < |k.history| then k.history[i := item] else k.history + [item];
        k.(expression := if e.Value? then e.text else "Error", newInput := true, history := history, editIndex := None)
    case Operator(c) => k.(expression := k.expression + [c], newInput := false)
  }

  datatype MemoryKey = MC | MR | MPlus | MMinus | MS

  /** `handleMemoryOperation`: `parse` is `parseFloat` on the display (`None`
      for NaN) and `show` the display text of a memory value. */
  function Memory(k: Keypad, key: MemoryKey, parse: string -> Option<real>, show: Option<real> -> string): (r: Keypad)
    ensures r.history == k.history && r.editIndex == k.editIndex
    ensures key != MR ==> r.expression == k.expression && r.newInput == k.newInput
  {
    var current := parse(k.expression);
    match key
    case MS => k.(memory := current)
    case MC => k.(memory := Some(0.0))
    case MR => k.(expression := show(k.memory), newInput := true)
    case MPlus => k.(memory := if k.memory.Some? && current.Some? then Some(k.memory.value + current.value) else None)
    case MMinus => k.(memory := if k.memory.Some? && current.Some? then Some(k.memory.value - current.value) else None)
  }

  /** `clearHistory`: the history emptied; nothing else changes. */
  function ClearHistory(k: Keypad): (r: Keypad)
    ensures r.history == [] && r.(history := k.history) == k
  {
    k.(history := [])
  }

  /** `indexOf`: the first position of `c` in `s`, -1 when there is none. */
  function IndexOf(s: string, c: char): (i: int)
    ensures -1 <= i < |s|
    ensures i == -1 <==> c !in s
    ensures i >= 0 ==> s[i] == c && c !in s[..i]
  {
    if |s| == 0 then -1
    else if s[0] == c then 0
    else
      var j := IndexOf(s[1..], c);
      assert j >= 0 ==> s[..j + 1] == [s[0]] + s[1..][..j];
      if j == -1 then -1 else j + 1
  }

  /** The expression part of a history line: the text before its first '=',
      trimmed (`substring(0, -1)` is the empty text). */
  function ExpressionPart(line: string): (e: string)
    ensures '=' !in e && |e| <= |line|
  {
    var i := IndexOf(line, '=');
    var before := if i < 0 then "" else line[..i];
    TrimKeepsOut(before, '=');
    Trim(before)
  }

  /** `editHistoryItem`: the line is marked for editing and its expression
      part goes into the display; an index with no line behind it only marks. */
  function EditHistoryItem(k: Keypad, index: nat): (r: Keypad)
    ensures r.editIndex == Some(index)
    ensures r.history == k.history && r.memory == k.memory && r.newInput == k.newInput
    ensures index >= |k.history| || k.history[index] == "" ==> r.expression == k.expression
    ensures index < |k.history| && k.history[index] != "" ==> r.expression == ExpressionPart(k.history[index])
  {
    if index < |k.history| && k.history[index] != "" then
      k.(editIndex := Some(index), expression := ExpressionPart(k.history[index]))
    else k.(editIndex := Some(index))
  }

  /** `updateHistoryItem` with the line "<display> = <value>" (a template
      literal, so an `undefined` value reads "undefined"): it overwrites the
      line being edited and becomes the display; an evaluation that throws
      leaves everything as it was. */
  function UpdateHistoryItem(k: Keypad, eval: string -> Evaluation): (r: Keypad)
    ensures eval(k.expression).Failed? ==> r == k
    ensures !eval(k.expression).Failed? ==>
              r.editIndex.None? && r.memory == k.memory && r.newInput == k.newInput
              && r.expression == k.expression + " = " + Rendered(eval(k.expression))
    ensures !eval(k.expression).Failed? && k.editIndex.Some? && k.editIndex.value < |k.history| ==>
              |r.history| == |k.history| && r.history[k.editIndex.value] == r.expression
              && forall j :: 0 <= j < |k.history| && j != k.editIndex.value ==> r.history[j] == k.history[j]
    ensures k.editIndex.None? ==> r.history == k.history
  {
    var e := eval(k.expression);
    if e.Failed? then k
    else
      var item := k.expression + " = " + Rendered(e);
      var history :=
        match k.editIndex
        case None => k.history
        case Some(i) => if i < |k.history| then k.history[i := item] else k.history + [item];
      k.(history := history, expression := item, editIndex := None)
  }

  /** Editing the line '=' has just recorded puts back the expression that
      was evaluated, as long as it has no '=' and no blank at either end. */
  lemma EqualsThenEdit(k: Keypad, eval: string -> Evaluation)
    requires k.editIndex.None?
    requires var t := StripOperator(k.expression);
             !eval(t).Failed? && '=' !in t && Trim(t) == t
    ensures var r := EditHistoryItem(Operate(k, Equals, eval), |k.history|);
            r.expression == StripOperator(k.expression) && r.editIndex == Some(|k.history|)
  {
    var t := StripOperator(k.expression);
    var v := Rendered(eval(t));
    var line := t + " = " + v;
    var r := Operate(k, Equals, eval);
    assert r.history == k.history + [line];
    assert r.history[|k.history|] == line;
    EqualsPart(t, v);
  }

  /** The expression part of "<t> = <v>" is `t`, when `t` has no '=' and is trimmed. */
  lemma EqualsPart(t: string, v: string)
    requires '=' !in t && Trim(t) == t
    ensures ExpressionPart(t + " = " + v) == t
  {
    var a := t + " ";
    assert t + " = " + v == a + ("= " + v);
    assert '=' !in a;
    IndexOfAfter(a, "= " + v, '=');
    assert (a + ("= " + v))[..|a|] == a;
    TrimmedThenSpace(t);
  }

  /** The first `c` in `a + b` is the first of `b` when `a` has none and `b` starts with it. */
  lemma {:induction false} IndexOfAfter(a: string, b: string, c: char)
    requires c !in a && |b| > 0 && b[0] == c
    ensures IndexOf(a + b, c) == |a|
    decreases |a|
  {
    if |a| > 0 {
      assert (a + b)[1..] == a[1..] + b;
      IndexOfAfter(a[1..], b, c);
    }
  }

  /** After the history is cleared, the next '=' leaves a single line. */
  lemma ClearThenEquals(k: Keypad, eval: string -> Evaluation)
    requires k.editIndex.None? && !eval(StripOperator(k.expression)).Failed?
    ensures |Operate(ClearHistory(k), Equals, eval).history| == 1
  {
  }

  /** Backspace undoes a digit or '.' that was appended to the display. */
  lemma InputThenBack(k: Keypad, key: char)
    requires !k.newInput && |k.expression| >= 1
    requires !(key == '.' && Last(k.expression) == Some('.'))
    ensures var r := Operate(Input(k, key), Back, s => Failed);
            r.expression == k.expression && !r.newInput && r.history == k.history
  {
    var e := Input(k, key).expression;
    if k.expression == "0" && key != '.' {
      assert e == [key];
    } else {
      assert e[..|e| - 1] == k.expression;
    }
  }

  /** After '=' the next digit starts a new number. */
  lemma EqualsThenDigit(k: Keypad, eval: string -> Evaluation, digit: char)
    requires '0' <= digit <= '9'
    ensures Input(Operate(k, Equals, eval), digit).expression == [digit]
  {
  }

  /** An operator typed and then '=' is evaluated without it. */
  lemma StripAppended(s: string, c: char)
    requires c in "+-*/"
    ensures StripOperator(s + [c]) == s
  {
    assert (s + [c])[..|s|] == s;
  }

  /** The display is never empty, whatever key is pressed, provided evaluation
      and the memory display never produce the empty text. */
  predicate Shown(k: Keypad)
  {
    |k.expression| >= 1
  }

  lemma InputShown(k: Keypad, key: char)
    requires Shown(k)
    ensures Shown(Input(k, key))
  {
  }

  lemma OperateShown(k: Keypad, op: Operation, eval: string -> Evaluation)
    requires Shown(k) && (op.Operator? ==> IsOperator(op.symbol))
    requires forall s :: eval(s).Value? ==> |eval(s).text| >= 1
    ensures Shown(Operate(k, op, eval))
  {
  }

  lemma MemoryShown(k: Keypad, key: MemoryKey, parse: string -> Option<real>, show: Option<real> -> string)
    requires Shown(k) && forall m :: |show(m)| >= 1
    ensures Shown(Memory(k, key, parse, show))
  {
  }

  /** '=' records one history line: appended when no line is being edited,
      written over the edited line otherwise; an evaluation that throws
      records nothing and keeps the edited line. A result shows on the
      display; an `undefined` one is recorded as "undefined" and the display
      shows "Error". */
  lemma EqualsHistory(k: Keypad, eval: string -> Evaluation)
    ensures var r := Operate(k, Equals, eval);
            var trimmed := StripOperator(k.expression);
            (eval(trimmed).Failed? ==> r.history == k.history && r.editIndex == k.editIndex && r.expression == "Error")
            && (eval(trimmed).Value? ==> r.expression == eval(trimmed).text)
            && (eval(trimmed).NoValue? ==> r.expression == "Error")
            && (!eval(trimmed).Failed? && k.editIndex.None? ==>
                  r.history == k.history + [trimmed + " = " + Rendered(eval(trimmed))])
            && (!eval(trimmed).Failed? && k.editIndex.Some? && k.editIndex.value < |k.history| ==>
                  |r.history| == |k.history|
                  && r.history[k.editIndex.value] == trimmed + " = " + Rendered(eval(trimmed))
                  && (forall j :: 0 <= j < |k.history| && j != k.editIndex.value ==> r.history[j] == k.history[j])
                  && r.editIndex.None?)
  {
  }

  /** A result of "-5" followed by backspace leaves a lone "-", which '='
      strips to the empty line; mathjs gives `undefined` for it, so the
      history gains " = undefined" and the display shows "Error". */
  lemma BackToEmptyLine(k: Keypad, eval: string -> Evaluation)
    requires k.expression == "-5" && k.editIndex.None? && eval("").NoValue?
    ensures var r := Operate(Operate(k, Back, eval), Equals, eval);
            r.history == k.history + [" = undefined"] && r.expression == "Error" && r.newInput
  {
    assert Operate(k, Back, eval).expression == "-";
    assert StripOperator("-") == "";
    assert "" + " = " + Rendered(NoValue) == " = undefined";
  }

  /** M+ followed by M- on the same display gives the memory back. */
  lemma AddThenSubtract(k: Keypad, parse: string -> Option<real>, show: Option<real> -> string)
    requires k.memory.Some? && parse(k.expression).Some?
    ensures Memory(Memory(k, MPlus, parse, show), MMinus, parse, show).memory == k.memory
  {
  }

  /** MR loads the memory into the display and leaves it unchanged; MS then
      stores back whatever the display reads as. */
  lemma RecallThenStore(k: Keypad, parse: string -> Option<real>, show: Option<real> -> string)
    requires forall m :: parse(show(m)) == m
    ensures var r := Memory(k, MR, parse, show);
            r.memory == k.memory && r.newInput && Memory(r, MS, parse, show).memory == k.memory
  {
  }
}

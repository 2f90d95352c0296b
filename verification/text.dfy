/** String helpers the screens rely on: JavaScript's `trim`, and words joined
    by single spaces. */
module Text {

  /** The white-space characters `String.prototype.trim` removes that can
      occur in these screens' text. */
  predicate IsBlank(c: char)
  {
    c == ' ' || c == '\t' || c == '\n' || c == '\r' || c == '\U{000B}' || c == '\U{000C}' || c == '\U{00A0}' || c == '\U{FEFF}'
  }

  function TrimStart(s: string): (r: string)
    ensures |r| <= |s| && r == s[|s| - |r|..]
    ensures |r| == 0 || !IsBlank(r[0])
  {
    if |s| > 0 && IsBlank(s[0]) then TrimStart(s[1..]) else s
  }

  function TrimEnd(s: string): (r: string)
    ensures |r| <= |s| && r == s[..|r|]
    ensures |r| == 0 || !IsBlank(r[|r| - 1])
  {
    if |s| > 0 && IsBlank(s[|s| - 1]) then TrimEnd(s[..|s| - 1]) else s
  }

  /** `String.prototype.trim`: drops blanks at both ends and keeps the middle. */
  function Trim(s: string): (r: string)
    ensures |r| == 0 || (!IsBlank(r[0]) && !IsBlank(r[|r| - 1]))
    ensures |r| <= |s|
  {
    TrimEnd(TrimStart(s))
  }

  /** A letter other than 'Z': the alphabet of the number words. */
  predicate WordChar(c: char)
  {
    ('a' <= c <= 'z') || ('A' <= c <= 'Y')
  }

  /** A non-empty run of word characters. */
  predicate IsWord(w: string)
  {
    |w| > 0 && forall i :: 0 <= i < |w| ==> WordChar(w[i])
  }

  predicate AllWords(ws: seq<string>)
  {
    forall i :: 0 <= i < |ws| ==> IsWord(ws[i])
  }

  /** The words separated by single spaces. */
  function Join(ws: seq<string>): string
  {
    if |ws| == 0 then ""
    else if |ws| == 1 then ws[0]
    else ws[0] + " " + Join(ws[1..])
  }

  lemma JoinCons(w: string, ws: seq<string>)
    requires |ws| > 0
    ensures Join([w] + ws) == w + " " + Join(ws)
  {
    assert ([w] + ws)[1..] == ws;
  }

  /** Every word followed by one space: the text the source builds with
      `words += ... + ' '` before trimming. */
  function Spaced(ws: seq<string>): string
  {
    if |ws| == 0 then "" else ws[0] + " " + Spaced(ws[1..])
  }

  /** A well-formed phrase: non-empty, words and single spaces only, no space at
      either end. */
  predicate Tidy(s: string)
  {
    && |s| > 0
    && s[0] != ' ' && s[|s| - 1] != ' '
    && (forall i :: 0 <= i < |s| ==> s[i] == ' ' || WordChar(s[i]))
    && (forall i :: 0 <= i < |s| - 1 ==> !(s[i] == ' ' && s[i + 1] == ' '))
  }

  lemma {:induction false} SpacedAppend(a: seq<string>, b: seq<string>)
    ensures Spaced(a + b) == Spaced(a) + Spaced(b)
    decreases |a|
  {
    if |a| > 0 {
      SpacedAppend(a[1..], b);
      assert (a + b)[0] == a[0] && (a + b)[1..] == a[1..] + b;
      calc {
        Spaced(a + b);
        a[0] + " " + Spaced(a[1..] + b);
        a[0] + " " + (Spaced(a[1..]) + Spaced(b));
        (a[0] + " " + Spaced(a[1..])) + Spaced(b);
      }
    } else {
      assert a + b == b;
    }
  }

  lemma {:induction false} JoinThenSpace(ws: seq<string>)
    requires |ws| > 0
    ensures Join(ws) + " " == Spaced(ws)
    decreases |ws|
  {
    if |ws| > 1 {
      JoinThenSpace(ws[1..]);
    }
  }

  lemma {:induction false} SpacedThenJoin(a: seq<string>, b: seq<string>)
    requires |b| > 0
    ensures Spaced(a) + Join(b) == Join(a + b)
    decreases |a|
  {
    if |a| > 0 {
      SpacedThenJoin(a[1..], b);
      assert (a + b)[0] == a[0] && (a + b)[1..] == a[1..] + b;
      assert |a + b| > 1;
      calc {
        Join(a + b);
        a[0] + " " + Join(a[1..] + b);
        a[0] + " " + (Spaced(a[1..]) + Join(b));
        (a[0] + " " + Spaced(a[1..])) + Join(b);
      }
    } else {
      assert a + b == b;
    }
  }

  /** Words joined by single spaces form a tidy phrase. */
  lemma {:induction false} JoinTidy(ws: seq<string>)
    requires |ws| > 0 && AllWords(ws)
    ensures Tidy(Join(ws))
    ensures Join(ws)[0] == ws[0][0]
    decreases |ws|
  {
    if |ws| > 1 {
      JoinTidy(ws[1..]);
      var head, rest := ws[0], Join(ws[1..]);
      var s := head + " " + rest;
      assert s == Join(ws);
      forall i | 0 <= i < |s| - 1
        ensures !(s[i] == ' ' && s[i + 1] == ' ')
      {
        if i < |head| {
          assert WordChar(s[i]);
        } else if i > |head| {
          assert s[i] == rest[i - |head| - 1] && s[i + 1] == rest[i - |head|];
        } else {
          assert s[i + 1] == rest[0];
        }
      }
      forall i | 0 <= i < |s|
        ensures s[i] == ' ' || WordChar(s[i])
      {
        if i > |head| {
          assert s[i] == rest[i - |head| - 1];
        }
      }
    }
  }

  lemma TidyIsTrimmed(s: string)
    requires Tidy(s)
    ensures Trim(s) == s
  {
  }

  lemma TrailingSpaceTrimmed(s: string)
    requires Tidy(s)
    ensures Trim(s + " ") == s
  {
    var t := s + " ";
    assert t[0] == s[0];
    assert WordChar(s[0]) && WordChar(s[|s| - 1]);
    assert TrimStart(t) == t;
    assert t[..|t| - 1] == s;
    assert TrimEnd(t) == TrimEnd(s);
  }

  /** Trimming only removes characters. */
  lemma TrimKeepsOut(s: string, c: char)
    requires c !in s
    ensures c !in Trim(s)
  {
    var a := TrimStart(s);
    assert a == s[|s| - |a|..];
    assert c !in a;
    assert Trim(s) == a[..|Trim(s)|];
  }

  /** A trimmed text followed by one space trims back to itself. */
  lemma TrimmedThenSpace(s: string)
    requires Trim(s) == s
    ensures Trim(s + " ") == s
  {
    var t := s + " ";
    if |s| > 0 {
      assert t[0] == s[0];
      assert TrimStart(t) == t;
      assert TrimStart(s) == s;
      assert t[..|t| - 1] == s;
      assert TrimEnd(t) == TrimEnd(s);
    }
  }

  /** The position of the first space. */
  function FirstSpace(s: string): (i: nat)
    requires ' ' in s
    ensures i < |s| && s[i] == ' ' && ' ' !in s[..i]
  {
    if s[0] == ' ' then 0
    else
      assert ' ' in s[1..] by {
        var j :| 0 <= j < |s| && s[j] == ' ';
        assert s[1..][j - 1] == ' ';
      }
      var k := FirstSpace(s[1..]);
      assert s[..k + 1] == [s[0]] + s[1..][..k];
      k + 1
  }

  /** `split(' ')`: the pieces between single spaces. */
  function SplitWords(s: string): (ws: seq<string>)
    ensures |ws| > 0
    decreases |s|
  {
    if ' ' in s then
      var i := FirstSpace(s);
      [s[..i]] + SplitWords(s[i + 1..])
    else [s]
  }

  /** A first piece without a space is split off at the space after it. */
  lemma SplitAfterSpace(a: string, rest: string)
    requires ' ' !in a
    ensures SplitWords(a + " " + rest) == [a] + SplitWords(rest)
  {
    var s := a + " " + rest;
    assert s[|a|] == ' ';
    var i := FirstSpace(s);
    assert i <= |a| by {
      assert forall j :: |a| < j <= |s| ==> s[..j][|a|] == ' ';
    }
    assert i >= |a| by {
      assert forall j :: 0 <= j < |a| ==> s[j] == a[j];
    }
    assert s[..i] == a && s[i + 1..] == rest;
  }

  /** Three pieces without spaces, joined by single spaces, split back apart. */
  lemma SplitThree(a: string, b: string, c: string)
    requires ' ' !in a && ' ' !in b && ' ' !in c
    ensures SplitWords(a + " " + b + " " + c) == [a, b, c]
  {
    var rest := b + " " + c;
    assert SplitWords(rest) == [b, c] by {
      SplitAfterSpace(b, c);
      assert SplitWords(c) == [c];
    }
    assert a + " " + b + " " + c == a + " " + rest;
    SplitAfterSpace(a, rest);
  }

  /** Splitting words joined by spaces gives the words back. */
  lemma {:induction false} SplitJoin(ws: seq<string>)
    requires |ws| > 0 && AllWords(ws)
    ensures SplitWords(Join(ws)) == ws
    decreases |ws|
  {
    var w := ws[0];
    assert ' ' !in w by {
      forall i | 0 <= i < |w| ensures w[i] != ' ' {
        assert WordChar(w[i]);
      }
    }
    if |ws| == 1 {
      assert Join(ws) == w;
    } else {
      var rest := ws[1..];
      assert AllWords(rest) by {
        forall i | 0 <= i < |rest| ensures IsWord(rest[i]) {
          assert rest[i] == ws[i + 1];
        }
      }
      SplitJoin(rest);
      var s := w + " " + Join(rest);
      assert s == Join(ws);
      assert s[|w|] == ' ';
      assert ' ' in s;
      var i := FirstSpace(s);
      assert i == |w|;
      assert s[..i] == w;
      assert s[i + 1..] == Join(rest);
    }
  }
}

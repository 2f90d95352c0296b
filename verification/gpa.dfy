/** The GPA screen: a list of course rows, each with credits and a letter
    grade; the GPA is the credit-weighted average of the grade points of the
    rows that carry both. */
module Gpa {
  import opened Options

  /** A course row. `credits` is the parsed credits field (`None` for NaN);
      `grade` is the picker's value, `"-"` until one is chosen. */
  datatype Course = Course(subject: string, credits: Option<real>, grade: string)

  /** The row `addRow` appends. */
  const Blank: Course := Course("", None, "-")

  /** `toUpperCase` on the ASCII letters. */
  function Upper(s: string): (u: string)
    ensures |u| == |s|
    ensures forall i :: 0 <= i < |s| ==> u[i] == if 'a' <= s[i] <= 'z' then s[i] - 'a' + 'A' else s[i]
  {
    if |s| == 0 then "" else
      var c := if 'a' <= s[0] <= 'z' then s[0] - 'a' + 'A' else s[0];
      [c] + Upper(s[1..])
  }

  /** The letter grades of the table, best first. */
  const Letters: seq<string> := ["A+", "A", "A-", "B+", "B", "B-", "C+", "C", "C-", "D+", "D", "D-", "F"]

  /** Their points, in the same order. */
  const LetterPoints: seq<real> := [4.3, 4.0, 3.7, 3.3, 3.0, 2.7, 2.3, 2.0, 1.7, 1.3, 1.0, 0.7, 0.0]

  /** What the `switch` decides on its own: points, or `null`, for the grades
      it lists; the default case is left to `parseFloat`. */
  datatype Score = Listed(points: Option<real>) | Unlisted

  /** The `switch` over the upper-cased grade. */
  function Table(g: string): Score
  {
    if g == "A+" then Listed(Some(4.3))
    else if g == "A" then Listed(Some(4.0))
    else if g == "A-" then Listed(Some(3.7))
    else if g == "B+" then Listed(Some(3.3))
    else if g == "B" then Listed(Some(3.0))
    else if g == "B-" then Listed(Some(2.7))
    else if g == "C+" then Listed(Some(2.3))
    else if g == "C" then Listed(Some(2.0))
    else if g == "C-" then Listed(Some(1.7))
    else if g == "D+" then Listed(Some(1.3))
    else if g == "D" then Listed(Some(1.0))
    else if g == "D-" then Listed(Some(0.7))
    else if g == "F" then Listed(Some(0.0))
    else if g == "P" || g == "NP" || g == "I" || g == "W" then Listed(None)
    else Unlisted
  }

  /** `gradeToPoints`: the table on the upper-cased grade; anything it does not
      list is read as a number by `parse` (`parseFloat`, `None` standing for
      NaN), from the grade as typed. */
  function GradePoints(grade: string, parse: string -> Option<real>): Option<real>
  {
    match Table(Upper(grade))
    case Listed(p) => p
    case Unlisted => parse(grade)
  }

  /** Upper-casing twice is upper-casing once. */
  lemma UpperIdempotent(s: string)
    ensures Upper(Upper(s)) == Upper(s)
  {
  }

  /** The lookup ignores case for the table's grades: a grade and its
      upper-cased form score the same. */
  lemma CaseInsensitive(grade: string, parse: string -> Option<real>)
    requires Table(Upper(grade)).Listed?
    ensures GradePoints(grade, parse) == GradePoints(Upper(grade), parse)
  {
    UpperIdempotent(grade);
  }

  /** Every letter grade gets its points from the table, and P, NP, I and W
      get none, whatever `parse` does. */
  lemma LettersScore(k: nat)
    requires k < |Letters|
    ensures Table(Letters[k]) == Listed(Some(LetterPoints[k]))
    ensures Table("P") == Table("NP") == Table("I") == Table("W") == Listed(None)
  {
  }

  /** The table's points strictly decrease from A+ down to F. */
  lemma PointsDecrease(i: nat, j: nat)
    requires i < j < |LetterPoints|
    ensures LetterPoints[j] < LetterPoints[i]
  {
  }

  /** The grading the screen uses: `gradeToPoints` with `parse` for `parseFloat`.
      The calculation below is stated for any grading `points`. */
  function Grading(parse: string -> Option<real>): string -> Option<real>
  {
    g => GradePoints(g, parse)
  }

  /** What a row adds to the two sums, when its credits parse and its grade
      has points: its credits and its grade points. */
  function Contribution(c: Course, points: string -> Option<real>): Option<(real, real)>
  {
    var p := points(c.grade);
    if c.credits.Some? && p.Some? then Some((c.credits.value, p.value)) else None
  }

  /** The contributions of all rows, in row order. */
  function Contributions(rows: seq<Course>, points: string -> Option<real>): (ps: seq<Option<(real, real)>>)
    ensures |ps| == |rows|
    ensures forall i :: 0 <= i < |rows| ==> ps[i] == Contribution(rows[i], points)
  {
    seq(|rows|, i requires 0 <= i < |rows| => Contribution(rows[i], points))
  }

  /** Sum of the credits over the first `k` contributions. */
  function Credits(ps: seq<Option<(real, real)>>, k: nat): real
    requires k <= |ps|
  {
    if k == 0 then 0.0 else Credits(ps, k - 1) + (if ps[k - 1].Some? then ps[k - 1].value.0 else 0.0)
  }

  /** Sum of credits times points over the first `k` contributions. */
  function Points(ps: seq<Option<(real, real)>>, k: nat): real
    requires k <= |ps|
  {
    if k == 0 then 0.0 else Points(ps, k - 1) + (if ps[k - 1].Some? then ps[k - 1].value.0 * ps[k - 1].value.1 else 0.0)
  }

  /** The credit-weighted average of the contributions; `None` ('Invalid
      input') unless the credits add up to something positive. */
  function Average(ps: seq<Option<(real, real)>>): (a: Option<real>)
    ensures a.Some? <==> Credits(ps, |ps|) > 0.0
    ensures a.Some? ==> a.value * Credits(ps, |ps|) == Points(ps, |ps|)
  {
    if Credits(ps, |ps|) > 0.0 then Some(Points(ps, |ps|) / Credits(ps, |ps|)) else None
  }

  datatype Outcome =
      /** The 1-based number of the first row still showing `"-"`. */
    | MissingGrade(row: nat)
      /** `gpa` is `None` for 'Invalid input' (no positive credit total). */
    | Computed(gpa: Option<real>, totalCredits: real)

  /** `calculateGPA`: the loop over the rows, stopping at the first row
      without a grade. */
  method Calculate(rows: seq<Course>, points: string -> Option<real>) returns (o: Outcome)
    ensures o.MissingGrade? <==> exists i :: 0 <= i < |rows| && rows[i].grade == "-"
    ensures o.MissingGrade? ==> 1 <= o.row <= |rows| && rows[o.row - 1].grade == "-"
                                && forall i :: 0 <= i < o.row - 1 ==> rows[i].grade != "-"
    ensures o.Computed? ==> o.totalCredits == Credits(Contributions(rows, points), |rows|)
    ensures o.Computed? ==> o.gpa == Average(Contributions(rows, points))
  {
    ghost var ps := Contributions(rows, points);
    var totalCredits := 0.0;
    var totalPoints := 0.0;
    var i := 0;
    while i < |rows|
      invariant i <= |rows|
      invariant forall j :: 0 <= j < i ==> rows[j].grade != "-"
      invariant totalCredits == Credits(ps, i)
      invariant totalPoints == Points(ps, i)
    {
      var input := rows[i];
      if input.grade == "-" {
        return MissingGrade(i + 1);
      }
      var credits, gradePoints := input.credits, points(input.grade);
      if credits.Some? && gradePoints.Some? {
        totalCredits := totalCredits + credits.value;
        totalPoints := totalPoints + credits.value * gradePoints.value;
      }
      i := i + 1;
    }
    o := Computed(if totalCredits > 0.0 then Some(totalPoints / totalCredits) else None, totalCredits);
  }

  /** Every contribution has positive credits and grade points in [lo, hi]. */
  predicate Weighted(ps: seq<Option<(real, real)>>, lo: real, hi: real)
  {
    forall i :: 0 <= i < |ps| && ps[i].Some? ==> ps[i].value.0 > 0.0 && lo <= ps[i].value.1 <= hi
  }

  /** The weighted sums stay between `lo` and `hi` times the credit sum. */
  lemma {:induction false} SumsBetween(ps: seq<Option<(real, real)>>, lo: real, hi: real, k: nat)
    requires k <= |ps| && Weighted(ps, lo, hi)
    ensures Bracketed(lo, hi, Credits(ps, k), Points(ps, k))
    decreases k
  {
    if k > 0 {
      SumsBetween(ps, lo, hi, k - 1);
      SumsStep(ps, lo, hi, k);
    }
  }

  /** `points` lies between `lo` and `hi` times `credits`. */
  predicate Bracketed(lo: real, hi: real, credits: real, points: real)
  {
    lo * credits <= points <= hi * credits
  }

  /** One more contribution keeps the sums bracketed. */
  lemma SumsStep(ps: seq<Option<(real, real)>>, lo: real, hi: real, k: nat)
    requires 0 < k <= |ps| && Weighted(ps, lo, hi)
    requires Bracketed(lo, hi, Credits(ps, k - 1), Points(ps, k - 1))
    ensures Bracketed(lo, hi, Credits(ps, k), Points(ps, k))
  {
    var credits, points := Credits(ps, k - 1), Points(ps, k - 1);
    if ps[k - 1].Some? {
      var w, p := ps[k - 1].value.0, ps[k - 1].value.1;
      assert w > 0.0 && lo <= p <= hi;
      StepBetween(lo, hi, credits, points, w, p, Credits(ps, k), Points(ps, k));
    } else {
      assert Credits(ps, k) == credits && Points(ps, k) == points;
    }
  }

  /** Adding a row of weight `w` and value `p` in [lo, hi] keeps the sums bracketed. */
  lemma StepBetween(lo: real, hi: real, credits: real, points: real, w: real, p: real, credits': real, points': real)
    requires lo * credits <= points <= hi * credits
    requires lo <= p <= hi && w > 0.0
    requires credits' == credits + w && points' == points + w * p
    ensures lo * credits' <= points' <= hi * credits'
  {
    assert lo * w <= w * p <= hi * w;
  }

  /** A weighted average lies between the smallest and largest weighted value:
      with positive credits, the GPA is between the lowest and highest grade
      points that took part. */
  lemma GpaBetween(ps: seq<Option<(real, real)>>, lo: real, hi: real)
    requires Weighted(ps, lo, hi)
    ensures Average(ps).Some? ==> lo <= Average(ps).value <= hi
  {
    SumsBetween(ps, lo, hi, |ps|);
    if Credits(ps, |ps|) > 0.0 {
      AverageBetween(lo, hi, Credits(ps, |ps|), Points(ps, |ps|));
    }
  }

  lemma AverageBetween(lo: real, hi: real, credits: real, points: real)
    requires credits > 0.0 && lo * credits <= points <= hi * credits
    ensures lo <= points / credits <= hi
  {
    var g := points / credits;
    assert g * credits == points;
  }

  /** Every grade the table lists scores between F's 0.0 and A+'s 4.3. */
  lemma TableRange(g: string)
    requires Table(g).Listed? && Table(g).points.Some?
    ensures 0.0 <= Table(g).points.value <= 4.3
  {
  }

  /** On the screen's grading, rows graded from the table with positive
      credits give a GPA between 0.0 and 4.3. */
  lemma ScreenGpaBetween(rows: seq<Course>, parse: string -> Option<real>)
    requires forall i :: 0 <= i < |rows| ==> Table(Upper(rows[i].grade)).Listed?
    requires forall i :: 0 <= i < |rows| && rows[i].credits.Some? ==> rows[i].credits.value > 0.0
    ensures var a := Average(Contributions(rows, Grading(parse)));
            a.Some? ==> 0.0 <= a.value <= 4.3
  {
    var ps := Contributions(rows, Grading(parse));
    forall i | 0 <= i < |ps| && ps[i].Some?
      ensures ps[i].value.0 > 0.0 && 0.0 <= ps[i].value.1 <= 4.3
    {
      TableRange(Upper(rows[i].grade));
    }
    GpaBetween(ps, 0.0, 4.3);
  }

  /** `addRow`: one blank row at the end, the others untouched. */
  function AddRow(rows: seq<Course>): (r: seq<Course>)
    ensures |r| == |rows| + 1 && r[..|rows|] == rows && r[|rows|] == Blank
  {
    rows + [Blank]
  }

  /** `clearAll`: back to the single blank row the screen starts with, so
      the next calculation stops at row 1. */
  function ClearAll(): (r: seq<Course>)
    ensures |r| == 1 && r[0].grade == "-" && r[0].credits.None? && r[0].subject == ""
  {
    [Blank]
  }

  /** A freshly added row has no grade, so the next calculation stops there. */
  lemma AddRowStops(rows: seq<Course>)
    requires forall i :: 0 <= i < |rows| ==> rows[i].grade != "-"
    ensures var r := AddRow(rows);
            exists i :: 0 <= i < |r| && r[i].grade == "-"
  {
    assert AddRow(rows)[|rows|].grade == "-";
  }
}

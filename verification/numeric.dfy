/** Exact arithmetic shared by the screens: whole-number powers, geometric
    sums, and the integer conversions `Math.round` and `parseInt` perform. */
module Numeric {
  import opened Options

  /** The monthly rate the screens derive from an annual percentage
      (`annual / 12 / 100`, or `annual / 100 / 12`, which is the same number). */
  function MonthlyRate(annualPercent: real): (r: real)
    ensures r * 1200.0 == annualPercent
  {
    annualPercent / 12.0 / 100.0
  }

  /** `x` raised to a whole power, the exact value of `Math.pow(x, n)`. */
  function Pow(x: real, n: nat): real
  {
    if n == 0 then 1.0 else x * Pow(x, n - 1)
  }

  lemma {:induction false} PowAdd(x: real, a: nat, b: nat)
    ensures Pow(x, a + b) == Pow(x, a) * Pow(x, b)
    decreases a
  {
    if a > 0 {
      PowAdd(x, a - 1, b);
      assert Pow(x, a + b) == x * Pow(x, (a - 1) + b);
    }
  }

  /** Multiplying by the base once more: the step every compounding loop takes. */
  lemma {:induction false} PowSucc(x: real, n: nat)
    ensures Pow(x, n + 1) == Pow(x, n) * x
  {
    PowAdd(x, n, 1);
  }

  lemma {:induction false} PowPositive(x: real, n: nat)
    requires x > 0.0
    ensures Pow(x, n) > 0.0
    decreases n
  {
    if n > 0 {
      PowPositive(x, n - 1);
    }
  }

  lemma {:induction false} PowNonZero(x: real, n: nat)
    requires x != 0.0
    ensures Pow(x, n) != 0.0
    decreases n
  {
    if n > 0 {
      PowNonZero(x, n - 1);
    }
  }

  /** A base above one stays above one for every positive exponent. */
  lemma {:induction false} PowAboveOne(x: real, n: nat)
    requires x > 1.0 && n >= 1
    ensures Pow(x, n) > 1.0
    decreases n
  {
    if n > 1 {
      PowAboveOne(x, n - 1);
      assert x * Pow(x, n - 1) > 1.0 * Pow(x, n - 1);
    }
  }

  /** A base strictly between zero and one stays below one for every positive exponent. */
  lemma {:induction false} PowBelowOne(x: real, n: nat)
    requires 0.0 < x < 1.0 && n >= 1
    ensures 0.0 < Pow(x, n) < 1.0
    decreases n
  {
    if n > 1 {
      PowBelowOne(x, n - 1);
      assert x * Pow(x, n - 1) < 1.0 * Pow(x, n - 1);
    }
  }

  /** `Math.pow` with a whole exponent of either sign; a zero base needs a
      non-negative exponent (otherwise the source gets Infinity). */
  function IPow(x: real, e: int): (r: real)
    requires x != 0.0 || e >= 0
    ensures e < 0 ==> r * Pow(x, -e) == 1.0
    ensures e >= 0 ==> r == Pow(x, e)
  {
    if e >= 0 then Pow(x, e)
    else
      PowNonZero(x, -e);
      1.0 / Pow(x, -e)
  }

  /** A power of a non-zero base is never zero, whatever the sign of the exponent. */
  lemma IPowNonZero(x: real, e: int)
    requires x != 0.0
    ensures IPow(x, e) != 0.0
  {
    if e >= 0 {
      PowNonZero(x, e);
    }
  }

  /** A positive base other than one has no power equal to one except the zeroth. */
  lemma IPowNotOne(x: real, e: int)
    requires x > 0.0 && x != 1.0 && e != 0
    ensures IPow(x, e) != 1.0
  {
    var k: nat := if e > 0 then e else -e;
    if x > 1.0 {
      PowAboveOne(x, k);
    } else {
      PowBelowOne(x, k);
    }
  }

  /** The reciprocal of a number above one lies strictly between zero and one. */
  lemma ReciprocalBelowOne(x: real, p: real)
    requires p > 1.0 && x * p == 1.0
    ensures 0.0 < x < 1.0
  {
    SignFromProduct(x, p);
    assert (1.0 - x) * p == p - 1.0;
    SignFromProduct(1.0 - x, p);
  }

  /** One more factor of `x`, for exponents of either sign. */
  lemma IPowSucc(x: real, e: int)
    requires x != 0.0 || e >= 0
    ensures IPow(x, e + 1) == IPow(x, e) * x
  {
    if e < 0 {
      var k: nat := -e - 1;
      PowSucc(x, k);
      PowNonZero(x, k);
      assert IPow(x, e + 1) * Pow(x, k) == 1.0;
      assert (IPow(x, e) * x) * Pow(x, k) == IPow(x, e) * Pow(x, -e);
      Cancel(IPow(x, e + 1), IPow(x, e) * x, Pow(x, k));
    } else {
      PowSucc(x, e);
    }
  }

  /** `1 + x + ... + x^(n-1)`, the sum of `n` successive powers. */
  function GeomSum(x: real, n: nat): real
  {
    if n == 0 then 0.0 else GeomSum(x, n - 1) + Pow(x, n - 1)
  }

  /** The closed form of a geometric sum, with the division multiplied out. */
  lemma {:induction false} GeomSumClosed(x: real, n: nat)
    ensures (x - 1.0) * GeomSum(x, n) == Pow(x, n) - 1.0
    decreases n
  {
    if n > 0 {
      GeomSumClosed(x, n - 1);
      PowSucc(x, n - 1);
      calc {
        (x - 1.0) * GeomSum(x, n);
        (x - 1.0) * GeomSum(x, n - 1) + (x - 1.0) * Pow(x, n - 1);
        Pow(x, n - 1) - 1.0 + (x - 1.0) * Pow(x, n - 1);
        Pow(x, n - 1) * x - 1.0;
      }
    }
  }

  /** `x + x^2 + ... + x^n`: the deposits of an annuity due, grown to maturity. */
  function DueSum(x: real, n: nat): real
  {
    if n == 0 then 0.0 else DueSum(x, n - 1) + Pow(x, n)
  }

  lemma {:induction false} DueSumIsShifted(x: real, n: nat)
    ensures DueSum(x, n) == x * GeomSum(x, n)
    decreases n
  {
    if n > 0 {
      DueSumIsShifted(x, n - 1);
      PowSucc(x, n - 1);
    }
  }

  /** The annuity-due closed form `((x^n - 1) / (x - 1)) * x` used by the SIP,
      NPS and recurring-investment screens, again with the division multiplied out. */
  lemma DueSumClosed(x: real, n: nat)
    ensures (x - 1.0) * DueSum(x, n) == (Pow(x, n) - 1.0) * x
  {
    DueSumIsShifted(x, n);
    GeomSumClosed(x, n);
    calc {
      (x - 1.0) * DueSum(x, n);
      (x - 1.0) * (x * GeomSum(x, n));
      ((x - 1.0) * GeomSum(x, n)) * x;
      (Pow(x, n) - 1.0) * x;
    }
  }

  /** The annuity-due closed form in terms of the rate `r` of a base `1 + r`. */
  lemma DueSumAtRate(r: real, n: nat)
    ensures r * DueSum(1.0 + r, n) == (Pow(1.0 + r, n) - 1.0) * (1.0 + r)
  {
    DueSumClosed(1.0 + r, n);
    assert (1.0 + r) - 1.0 == r;
  }

  /** The months of a term given in years and months, `years * 12 + months`;
      `parseInt` lets either field be negative, so the total can be too. */
  function Term(years: int, months: int): int
  {
    years * 12 + months
  }

  /** The term of the screens that read both fields with `parseInt(x) || 0`:
      a blank or unparseable field counts as zero. */
  function TermOrZero(years: Option<int>, months: Option<int>): int
  {
    Term(years.GetOr(0), months.GetOr(0))
  }

  /** How many times `for (let i = 0; i < n; i++)` runs: none for `n <= 0`. */
  function Passes(n: int): (k: nat)
    ensures n >= 0 ==> k == n
    ensures n <= 0 ==> k == 0
  {
    if n > 0 then n else 0
  }

  /** The months in a whole number of years. */
  function MonthsIn(years: nat): nat
  {
    years * 12
  }

  /** The numerator of the annuity-due closed form, `((1 + r)^n - 1) * (1 + r)`. */
  function DueNumerator(r: real, n: nat): real
  {
    (Pow(1.0 + r, n) - 1.0) * (1.0 + r)
  }

  /** The closed form `p * ((1 + r)^n - 1) * (1 + r) / r` that the SIP and
      recurring-investment screens use for `n` monthly deposits of `p` at
      rate `r`; none at `r == 0`, where it is 0/0. */
  function DueValue(p: real, r: real, n: nat): (v: Option<real>)
    ensures v.Some? <==> r != 0.0
  {
    if r == 0.0 then None else Some(p * DueNumerator(r, n) / r)
  }

  /** The closed form is the value of the deposits themselves: each deposit
      grows for one more month than the one after it, the last for one
      month, so the total is `p * ((1 + r) + (1 + r)^2 + ... + (1 + r)^n)`. */
  lemma DueValueIsDeposits(p: real, r: real, n: nat)
    requires r != 0.0
    ensures DueValue(p, r, n).value == p * DueSum(1.0 + r, n)
  {
    DueSumQuotient(p, r, n);
  }

  lemma DueSumQuotient(p: real, r: real, n: nat)
    requires r != 0.0
    ensures p * DueNumerator(r, n) / r == p * DueSum(1.0 + r, n)
  {
    DueSumAtRate(r, n);
    assert r * DueSum(1.0 + r, n) == DueNumerator(r, n);
    QuotientOfMultiple(p, DueNumerator(r, n), r, DueSum(1.0 + r, n));
  }

  /** A JavaScript number as a result can come out: finite, an infinity of
      either sign, or NaN. */
  datatype Number = Finite(value: real) | Infinity(negative: bool) | NaN

  /** JavaScript division: finite unless the divisor is 0; then a non-zero
      numerator gives the infinity of its sign and `0 / 0` gives NaN. */
  function Divide(n: real, d: real): (q: Number)
    ensures q.Finite? <==> d != 0.0
    ensures q.Finite? ==> q.value * d == n
    ensures q.Infinity? <==> d == 0.0 && n != 0.0
    ensures q.Infinity? ==> (q.negative <==> n < 0.0)
  {
    if d != 0.0 then Finite(n / d)
    else if n == 0.0 then NaN
    else Infinity(n < 0.0)
  }

  /** JavaScript's `x > y` for a computed `x`: Infinity exceeds every number,
      -Infinity none, and NaN compares false. */
  predicate GreaterThan(x: Number, y: real)
  {
    match x
    case Finite(v) => v > y
    case Infinity(negative) => !negative
    case NaN => false
  }

  /** `Math.round`: the nearest integer, with halves rounded upward. */
  function Round(x: real): (r: int)
    ensures r as real - 0.5 <= x < r as real + 0.5
  {
    (x + 0.5).Floor
  }

  /** Rounding commutes with adding a whole number. */
  lemma RoundShift(x: real, k: int)
    ensures Round(x + k as real) == Round(x) + k
  {
  }

  /** Rounding keeps order. */
  lemma RoundMonotone(x: real, y: real)
    requires x <= y
    ensures Round(x) <= Round(y)
  {
  }

  /** The integer `parseInt` reads from a decimal numeral: the value truncated toward zero. */
  function Trunc(x: real): (r: int)
    ensures 0.0 <= x ==> 0.0 <= r as real <= x < r as real + 1.0
    ensures x < 0.0 ==> r as real - 1.0 < x <= r as real <= 0.0
  {
    if x >= 0.0 then x.Floor else -((-x).Floor)
  }

  /** Dividing and multiplying back by the same non-zero number. */
  lemma DivCancel(a: real, d: real)
    requires d != 0.0
    ensures (a / d) * d == a
  {
  }

  /** A common non-zero factor cancels. */
  lemma Cancel(a: real, b: real, c: real)
    requires c != 0.0 && a * c == b * c
    ensures a == b
  {
    assert (a - b) * c == 0.0;
  }

  /** A product with a positive factor is positive only when the other factor is. */
  lemma SignFromProduct(x: real, y: real)
    requires y > 0.0 && x * y > 0.0
    ensures x > 0.0
  {
  }

  lemma ProductPositive(x: real, y: real)
    requires x > 0.0 && y > 0.0
    ensures x * y > 0.0
  {
  }

  /** Dividing a multiple of `r` by `r`: `p * (r * s) / r == p * s`. */
  lemma QuotientOfMultiple(p: real, a: real, r: real, s: real)
    requires r != 0.0 && r * s == a
    ensures p * a / r == p * s
  {
    assert p * a == (p * s) * r;
  }

  /** Rounding two numbers separately is off by at most one from rounding their sum. */
  lemma RoundSum(x: real, y: real)
    ensures Round(x + y) - 1 <= Round(x) + Round(y) <= Round(x + y) + 1
  {
  }
}

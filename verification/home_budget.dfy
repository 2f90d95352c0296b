/** The home-budget screen: an income total that Add Income increases, and
    an expense list with one entry per category that Add Expense inserts or
    overwrites, with a running expense total kept alongside it. */
module HomeBudget {
  import opened Options

  /** The five expense categories, in the order Add Expense visits them. */
  const Categories: seq<string> := ["Rent", "Groceries", "Healthcare", "Utilities", "Other"]

  datatype Expense = Expense(name: string, amount: real)

  /** The screen's state. Each input holds its parsed value: `None` for a
      blank or unparseable field. `amounts` follows `Categories`. */
  datatype Screen = Screen(income: Option<real>, amounts: seq<Option<real>>,
                           expenses: seq<Expense>, totalIncome: real, totalExpenses: real)

  /** The empty screen the component starts with. */
  const Initial: Screen := Screen(None, [None, None, None, None, None], [], 0.0, 0.0)

  /** The sum of the listed amounts. */
  function Sum(expenses: seq<Expense>): real
  {
    if |expenses| == 0 then 0.0 else Sum(expenses[..|expenses| - 1]) + expenses[|expenses| - 1].amount
  }

  /** `findIndex(e => e.name === name)`: the first entry with that name, or -1. */
  function FindIndex(expenses: seq<Expense>, name: string): (i: int)
    ensures -1 <= i < |expenses|
    ensures i == -1 <==> forall j :: 0 <= j < |expenses| ==> expenses[j].name != name
    ensures i >= 0 ==> expenses[i].name == name && forall j :: 0 <= j < i ==> expenses[j].name != name
  {
    if |expenses| == 0 then -1
    else if expenses[0].name == name then 0
    else
      var i := FindIndex(expenses[1..], name);
      if i == -1 then -1 else i + 1
  }

  /** Add Income: a parsed amount is added to the total and the field is
      cleared; an unparseable one changes nothing. */
  function AddIncome(s: Screen): (t: Screen)
    ensures s.income.None? ==> t == s
    ensures s.income.Some? ==> t == s.(income := None, totalIncome := s.totalIncome + s.income.value)
  {
    match s.income
    case None => s
    case Some(v) => s.(income := None, totalIncome := s.totalIncome + v)
  }

  /** One category of Add Expense: a parsed amount overwrites that category's
      entry, or is appended when there is none; the running total moves by the
      difference. A blank or unparseable amount leaves both alone. */
  function Upsert(expenses: seq<Expense>, total: real, name: string, amount: Option<real>): (r: (seq<Expense>, real))
  {
    if amount.None? then (expenses, total)
    else
      var i := FindIndex(expenses, name);
      if i > -1 then
        (expenses[i := Expense(name, amount.value)], total - expenses[i].amount + amount.value)
      else
        (expenses + [Expense(name, amount.value)], total + amount.value)
  }

  /** Overwriting one entry moves the sum by the difference. */
  lemma {:induction false} SumUpdate(expenses: seq<Expense>, i: nat, e: Expense)
    requires i < |expenses|
    ensures Sum(expenses[i := e]) == Sum(expenses) - expenses[i].amount + e.amount
    decreases |expenses|
  {
    var n := |expenses|;
    if i < n - 1 {
      assert expenses[i := e][..n - 1] == expenses[..n - 1][i := e];
      SumUpdate(expenses[..n - 1], i, e);
    } else {
      assert expenses[i := e][..n - 1] == expenses[..n - 1];
    }
  }

  /** The list's sum and the running total move together: whatever the gap
      between them was, `Upsert` keeps it. */
  lemma UpsertKeepsTotal(expenses: seq<Expense>, total: real, name: string, amount: Option<real>)
    ensures var r := Upsert(expenses, total, name, amount);
            Sum(r.0) - r.1 == Sum(expenses) - total
  {
    if amount.Some? {
      var i := FindIndex(expenses, name);
      if i > -1 {
        SumUpdate(expenses, i, Expense(name, amount.value));
      } else {
        assert (expenses + [Expense(name, amount.value)])[..|expenses|] == expenses;
      }
    }
  }

  /** The amount recorded for a category, if any. */
  function Lookup(expenses: seq<Expense>, name: string): Option<real>
  {
    var i := FindIndex(expenses, name);
    if i == -1 then None else Some(expenses[i].amount)
  }

  /** Names occur at most once. */
  predicate Distinct(expenses: seq<Expense>)
  {
    forall i, j :: 0 <= i < j < |expenses| ==> expenses[i].name != expenses[j].name
  }

  /** Re-entering a category replaces its amount rather than adding to it;
      other categories keep their amounts and every entry keeps its position;
      names stay distinct. */
  lemma UpsertReplaces(expenses: seq<Expense>, total: real, name: string, amount: real)
    requires Distinct(expenses)
    ensures var r := Upsert(expenses, total, name, Some(amount));
            Lookup(r.0, name) == Some(amount)
            && (forall other :: other != name ==> Lookup(r.0, other) == Lookup(expenses, other))
            && |expenses| <= |r.0| && (forall j :: 0 <= j < |expenses| ==> r.0[j].name == expenses[j].name)
            && Distinct(r.0)
  {
    var r := Upsert(expenses, total, name, Some(amount));
    var i := FindIndex(expenses, name);
    if i > -1 {
      FirstIndex(r.0, name, i);
    } else {
      FirstIndex(r.0, name, |expenses|);
    }
    forall other | other != name
      ensures Lookup(r.0, other) == Lookup(expenses, other)
    {
      FindIndexSameNames(expenses, r.0, other);
    }
  }

  /** The first entry carrying a name is the one `FindIndex` reports. */
  lemma FirstIndex(expenses: seq<Expense>, name: string, i: nat)
    requires i < |expenses| && expenses[i].name == name
    requires forall j :: 0 <= j < i ==> expenses[j].name != name
    ensures FindIndex(expenses, name) == i
  {
  }

  /** `FindIndex` looks only at names. */
  lemma {:induction false} FindIndexSameNames(a: seq<Expense>, b: seq<Expense>, name: string)
    requires |a| <= |b| && forall j :: 0 <= j < |a| ==> a[j].name == b[j].name
    requires FindIndex(a, name) >= 0 || |a| == |b| || forall j :: |a| <= j < |b| ==> b[j].name != name
    requires forall j :: 0 <= j < |a| ==> a[j].name == name ==> a[j] == b[j]
    ensures FindIndex(a, name) == FindIndex(b, name)
    ensures FindIndex(a, name) >= 0 ==> a[FindIndex(a, name)] == b[FindIndex(a, name)]
    decreases |a|
  {
    if |a| > 0 && a[0].name != name {
      FindIndexSameNames(a[1..], b[1..], name);
    }
  }

  /** Add Expense: the five categories in order, then every amount field cleared. */
  function AddExpenses(s: Screen): (t: Screen)
    requires |s.amounts| == 5
    ensures t.amounts == [None, None, None, None, None]
    ensures t.income == s.income && t.totalIncome == s.totalIncome
  {
    var (e, total) := UpsertAll(s.expenses, s.totalExpenses, s.amounts, 0);
    s.(amounts := [None, None, None, None, None], expenses := e, totalExpenses := total)
  }

  /** The `forEach` over the categories from position `k` on. */
  function UpsertAll(expenses: seq<Expense>, total: real, amounts: seq<Option<real>>, k: nat): (r: (seq<Expense>, real))
    requires |amounts| == 5 && k <= 5
    decreases 5 - k
  {
    if k == 5 then (expenses, total)
    else
      var (e, t) := Upsert(expenses, total, Categories[k], amounts[k]);
      UpsertAll(e, t, amounts, k + 1)
  }

  /** Only the five category names ever appear. */
  predicate KnownNames(expenses: seq<Expense>)
  {
    forall j :: 0 <= j < |expenses| ==> expenses[j].name in Categories
  }

  /** The invariant of the screen: the running total is the list's sum, and the
      list has at most one entry per category. */
  predicate Consistent(s: Screen)
  {
    |s.amounts| == 5 && Sum(s.expenses) == s.totalExpenses && Distinct(s.expenses) && KnownNames(s.expenses)
  }

  lemma {:induction false} UpsertAllKeeps(expenses: seq<Expense>, total: real, amounts: seq<Option<real>>, k: nat)
    requires |amounts| == 5 && k <= 5
    requires Sum(expenses) == total && Distinct(expenses) && KnownNames(expenses)
    ensures var r := UpsertAll(expenses, total, amounts, k);
            Sum(r.0) == r.1 && Distinct(r.0) && KnownNames(r.0)
    decreases 5 - k
  {
    if k < 5 {
      var r := Upsert(expenses, total, Categories[k], amounts[k]);
      assert UpsertAll(expenses, total, amounts, k) == UpsertAll(r.0, r.1, amounts, k + 1);
      UpsertKeeps(expenses, total, Categories[k], amounts[k]);
      UpsertAllKeeps(r.0, r.1, amounts, k + 1);
    }
  }

  /** One category's step keeps the total equal to the list's sum, the names
      distinct and only category names in the list. */
  lemma UpsertKeeps(expenses: seq<Expense>, total: real, name: string, amount: Option<real>)
    requires name in Categories
    requires Sum(expenses) == total && Distinct(expenses) && KnownNames(expenses)
    ensures var r := Upsert(expenses, total, name, amount);
            Sum(r.0) == r.1 && Distinct(r.0) && KnownNames(r.0)
  {
    UpsertKeepsTotal(expenses, total, name, amount);
    if amount.Some? {
      UpsertReplaces(expenses, total, name, amount.value);
    }
  }

  /** After the passes from `k` on, category `c` holds the amount entered for
      it if it was visited and entered, and what it held before otherwise. */
  lemma {:induction false} UpsertAllLookup(expenses: seq<Expense>, total: real, amounts: seq<Option<real>>, k: nat, c: nat)
    requires |amounts| == 5 && k <= 5 && c < 5
    requires Distinct(expenses)
    ensures Lookup(UpsertAll(expenses, total, amounts, k).0, Categories[c])
         == if k <= c && amounts[c].Some? then amounts[c] else Lookup(expenses, Categories[c])
    decreases 5 - k
  {
    if k < 5 {
      var r := Upsert(expenses, total, Categories[k], amounts[k]);
      assert UpsertAll(expenses, total, amounts, k) == UpsertAll(r.0, r.1, amounts, k + 1);
      if amounts[k].Some? {
        UpsertReplaces(expenses, total, Categories[k], amounts[k].value);
        if c != k {
          CategoriesDistinct(c, k);
        }
      }
      UpsertAllLookup(r.0, r.1, amounts, k + 1, c);
    }
  }

  lemma CategoriesDistinct(c: nat, k: nat)
    requires c < 5 && k < 5 && c != k
    ensures Categories[c] != Categories[k]
  {
    assert Categories[c][0] != Categories[k][0] || |Categories[c]| != |Categories[k]|;
  }

  /** Add Expense overwrites exactly the categories whose fields were filled in. */
  lemma AddExpensesLookup(s: Screen, c: nat)
    requires Consistent(s) && c < 5
    ensures Lookup(AddExpenses(s).expenses, Categories[c])
         == if s.amounts[c].Some? then s.amounts[c] else Lookup(s.expenses, Categories[c])
  {
    UpsertAllLookup(s.expenses, s.totalExpenses, s.amounts, 0, c);
  }

  /** Starting from the empty screen, Add Income and Add Expense keep the
      expense total equal to the sum of the list and the names distinct. */
  lemma InitialConsistent()
    ensures Consistent(Initial)
  {
  }

  lemma AddIncomeKeeps(s: Screen)
    requires Consistent(s)
    ensures Consistent(AddIncome(s))
  {
  }

  lemma AddExpensesKeeps(s: Screen)
    requires Consistent(s)
    ensures Consistent(AddExpenses(s))
  {
    UpsertAllKeeps(s.expenses, s.totalExpenses, s.amounts, 0);
  }

  /** Distinct known names: the list never holds more than five entries. */
  lemma AtMostFive(expenses: seq<Expense>)
    requires Distinct(expenses) && KnownNames(expenses)
    ensures |expenses| <= 5
  {
    Pigeonhole(expenses, Categories);
  }

  /** Entries with distinct names, each drawn from `pool`, are no more than `pool` is long. */
  lemma {:induction false} Pigeonhole(expenses: seq<Expense>, pool: seq<string>)
    requires Distinct(expenses)
    requires forall j :: 0 <= j < |expenses| ==> expenses[j].name in pool
    ensures |expenses| <= |pool|
    decreases |expenses|
  {
    var n := |expenses|;
    if n > 0 {
      var x := expenses[n - 1].name;
      var k :| 0 <= k < |pool| && pool[k] == x;
      var rest := pool[..k] + pool[k + 1..];
      var prefix := expenses[..n - 1];
      forall j | 0 <= j < |prefix|
        ensures prefix[j].name in rest
      {
        var y := expenses[j].name;
        var m :| 0 <= m < |pool| && pool[m] == y;
        assert m != k;
        if m < k {
          assert rest[m] == y;
        } else {
          assert rest[m - 1] == y;
        }
      }
      Pigeonhole(prefix, rest);
    }
  }

  /** The budget shown: income less expenses, negative when overspent. On a
      consistent screen it is the income less the sum of the listed expenses. */
  function Budget(s: Screen): (b: real)
    ensures Consistent(s) ==> b == s.totalIncome - Sum(s.expenses)
  {
    s.totalIncome - s.totalExpenses
  }

  /** After either button the budget is still the income less the sum of the
      expenses listed: Add Income raises it by the amount added, and Add
      Expense moves it exactly as the list changes. */
  lemma BudgetAfterAdding(s: Screen)
    requires Consistent(s)
    ensures Budget(AddIncome(s)) == Budget(s) + (if s.income.Some? then s.income.value else 0.0)
    ensures var t := AddExpenses(s);
            Budget(t) == s.totalIncome - Sum(t.expenses)
            && Budget(t) == Budget(s) - (Sum(t.expenses) - Sum(s.expenses))
  {
    AddExpensesKeeps(s);
  }
}

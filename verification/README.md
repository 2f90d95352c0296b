# A verified model of a React Native calculator app

The app is a collection of calculator screens: a basic and a scientific
keypad, loan and investment calculators, tax and budget screens, a GPA
calculator and a handful of one-formula converters. There is no shared
engine; every screen parses its text fields, computes, and formats the
result, most of them through one pasted copy or another of the Indian-numbering
words formatter `convertToIndianWords`.

This project models those computations in Dafny and proves what they
promise. Each screen is one module, named after it. The shared modules are:

- `Options`: the `Option` type. `None` stands for JavaScript's NaN.
- `Numeric`: exact powers, geometric sums and `Math.round`.
- `Text`: `trim`, `split(' ')` and words joined by spaces.
- `IndianWords`: the formatter.
- `Amortization`: the monthly repayment loop shared by five loan screens.

Numbers are exact reals. A field that `parseFloat` cannot read is `None`.
`Math.round` is `floor(x + 0.5)`. Where a screen raises a power to a
fractional exponent, `Math.pow` is a function parameter; lemmas then assume
only that it agrees with whole powers. Parsing, the keypads' expression
evaluation and the grouping of `toLocaleString('en-IN')` are parameters as
well.

The loop-based screens are modelled as Dafny methods with loop invariants:
the tenure and payoff simulations, the repayment schedule, the bisection
rate solver, the recurring investment sum, the GPA sums and `factorial`. Everything else is a pure function over
immutable screen states.

## Model

| member | source | states |
|---|---|---|
| IndianWords.ZeroCases | src/screens/SIPCalculator.js:11-20 | Zero spells "Zero", and the two-digit helper spells zero as the empty text |
| IndianWords.TwoDigitsShape | src/screens/SIPCalculator.js:11-17 | 1-9 give the ones word and 10-19 the teens word; 20-99 give the tens word, followed by one space and the ones word only when the last digit is not 0, so there is never a trailing space |
| IndianWords.TwoDigitsIsJoin | src/screens/SIPCalculator.js:15-16 | the trimmed template text equals the digit word list joined by single spaces |
| IndianWords.GroupIsSpaced | src/screens/SIPCalculator.js:28-39 | each `words +=` step appends the group's words, each followed by one space, and appends nothing for a zero group |
| IndianWords.GroupSplit | src/screens/SIPCalculator.js:21-25 | n = crore·10^7 + lakh·10^5 + thousand·10^3 + hundreds·100 + remainder, with lakh, thousand, remainder < 100 and hundreds < 10 |
| IndianWords.DomainIsLimit | src/screens/SIPCalculator.js:16-25 | the crore count indexes the tables in range exactly when n < 10^9; the other counts always do |
| IndianWords.LabelledIsSpaced | src/screens/SIPCalculator.js:27-39 | the text built by the four labelled steps is the crore, lakh, thousand and hundred groups in that order, zero groups omitted |
| IndianWords.SomeGroup | src/screens/SIPCalculator.js:21-40 | a positive amount with no remainder has at least one non-zero labelled group |
| IndianWords.InWordsIsJoin | src/screens/SIPCalculator.js:19-45 | the formatter's text is the reference word list (groups in order Crore, Lakh, Thousand, Hundred, remainder; "Zero" for 0) joined by single spaces |
| IndianWords.JoinWithRemainder | src/screens/SIPCalculator.js:40-44 | with a non-zero remainder, trimming the groups followed by the remainder's words gives their single-spaced join |
| IndianWords.JoinWithoutRemainder | src/screens/SIPCalculator.js:40-44 | with a zero remainder, the final `trim` drops the one trailing space after the last group |
| IndianWords.PositiveIsTidy | src/screens/SIPCalculator.js:27-44 | for 0 < n < 10^9 the text is non-empty, single-spaced, has no space at either end and contains no 'Z', so it never contains "Zero" |
| IndianWords.WordsOf1234 | src/screens/SIPCalculator.js:19-44 | 1234 is the word list One Thousand Two Hundred Thirty Four |
| IndianWords.WordsOfLakh | src/screens/SIPCalculator.js:19-44 | 100000 is the word list One Lakh |
| IndianWords.WordsOfCrore | src/screens/SIPCalculator.js:19-44 | 10000000 is the word list One Crore |
| IndianWords.ExampleNinety | src/screens/SIPCalculator.js:11-16 | 90 is written "Ninety" with no trailing space |
| IndianWords.WordsRoundTrip | src/screens/SIPCalculator.js:19-45 | reading the word list back as a number gives the amount |
| IndianWords.InWordsRoundTrip | src/screens/SIPCalculator.js:6-48 | splitting the text at spaces and reading the words gives back every amount below 10^9 |
| IndianWords.InWordsInjective | src/screens/SIPCalculator.js:6-48 | two different amounts below 10^9 never share a text |
| IndianWords.WordsAreWords | src/screens/SIPCalculator.js:7-9 | every word of a positive amount is a non-empty run of letters from the tables |
| Text.Trim | src/screens/SIPCalculator.js:44 | `trim`: the result has no blank at either end and is no longer than the input |
| Text.JoinTidy | src/screens/SIPCalculator.js:27-44 | words joined by single spaces form a phrase with no doubled, leading or trailing space |
| Text.TidyIsTrimmed | src/screens/SIPCalculator.js:44 | `trim` leaves such a phrase unchanged |
| Text.TrailingSpaceTrimmed | src/screens/SIPCalculator.js:44 | `trim` removes exactly the one space that follows such a phrase |
| Text.SplitJoin | src/screens/SIPCalculator.js:27-44 | splitting single-spaced words at the spaces gives the words back |
| Numeric.MonthlyRate | src/screens/Emi.js:75 | the monthly rate is the annual percentage over 1200 |
| Numeric.Round | src/screens/SIPCalculator.js:83-85 | `Math.round`: the integer within half a unit, with halves rounded up |
| Numeric.RoundSum | src/screens/SIPCalculator.js:80-85 | two rounded parts add up to their rounded sum to within one unit |
| Numeric.GeomSumClosed | src/screens/SIPCalculator.js:79 | (x-1)·(1 + x + … + x^(n-1)) = x^n - 1 |
| Numeric.DueSumAtRate | src/screens/SIPCalculator.js:79 | r times the sum of (1+r)^k for k = 1..n is ((1+r)^n - 1)(1+r) |
| Numeric.DueValue | src/screens/SIPCalculator.js:79 | the annuity-due closed form exists exactly when the rate is not 0 |
| Numeric.DueValueIsDeposits | src/screens/SIPCalculator.js:79 | at a non-zero rate the closed form equals the sum of n deposits, the k-th last grown for k periods |
| Numeric.IPow | src/screens/RetirementCalculator.js:64 | a whole power of either sign: the reciprocal of the positive power for a negative exponent |
| Numeric.IPowNonZero | src/screens/Emi.js:76 | a whole power of a non-zero base, of either sign, is never 0 |
| Numeric.IPowNotOne | src/screens/LoanCalculator.js:89-91 | a positive base other than 1 raised to a non-zero whole power of either sign is not 1, so the payment formulas have a non-zero denominator |
| Numeric.ReciprocalBelowOne | src/screens/Emi.js:76 | the reciprocal of a number above 1 lies strictly between 0 and 1 |
| Numeric.Passes | src/screens/Emi.js:82 | `for (let i = 0; i < n; i++)` makes n passes for n ≥ 0 and none for a negative n |
| Sip.Calculate | src/screens/SIPCalculator.js:68-96 | an unparseable field gives the alert and nothing else. Otherwise invested = round(P·12·years), and years may be negative as `parseFloat` allows. The total and the return are shown exactly when the rate is not 0 and not −1200% over negative years (`Finite`), and the total is the rounded closed form for a term of either sign. The chart has the points of years 1..years, and none for negative years |
| Sip.ChartYears | src/screens/SIPCalculator.js:88-94 | chart point i is year i+1, with 12·P·year invested |
| Sip.TotalsAddUp | src/screens/SIPCalculator.js:79-85 | the shown invested amount and return add up to the shown total to within one unit |
| Sip.TotalIsDeposits | src/screens/SIPCalculator.js:79-80 | the shown total is the rounded value of the monthly deposits, each grown month by month; the shown investment is the rounded sum paid in |
| Sip.ChartEndsAtTotal | src/screens/SIPCalculator.js:88-94 | the last chart point's invested amount plus its return is the value of all the deposits, as in the total |
| Sip.PointIsDeposits | src/screens/SIPCalculator.js:90-91 | a chart point's invested amount plus its return is the value of the deposits up to that year |
| Sip.Total | src/screens/SIPCalculator.js:79 | the closed form has a value exactly when the rate is not 0 and the base 1 + r is not 0 under a negative term |
| Sip.NegativeYears | src/screens/SIPCalculator.js:69-96 | negative years pass the check: the chart is empty, the investment negative for a deposit of at least 1, and the total is the value of the −12·years deposits discounted back over those months, with its sign flipped |
| Sip.DiscountedDeposits | src/screens/SIPCalculator.js:79 | under a negative term n, `Math.pow`'s reciprocal power makes the closed form equal minus the due value of −n deposits divided by (1+r)^−n |
| Amortization.Step | src/screens/Emi.js:83-85 | one pass of the loop body: interest plus principal repaid is the payment, and the balance left is balance·(1+r) − payment |
| Amortization.BalanceClosed | src/screens/Emi.js:80-85 | after k passes the balance is loan·(1+r)^k minus each payment compounded from the month it was made |
| Amortization.ClosedStep | src/screens/Emi.js:83-85 | one pass carries the closed form of the balance from month k−1 to month k |
| Amortization.Annuity | src/screens/Emi.js:76 | the level payment satisfies a·((1+r)^n − 1) = loan·r·(1+r)^n, wherever the denominator is not zero |
| Amortization.PresentValue | src/screens/LoanCalculator.js:89-91 | the principal satisfies v·r·(1+r)^n = emi·((1+r)^n − 1), wherever the denominator is not zero |
| Amortization.RateNonZero | src/screens/Emi.js:76 | a payment formula with a denominator other than zero has a non-zero rate |
| Amortization.IRateNonZero | src/screens/Emi.js:76 | a whole power of 1 + rate, of either sign, that is defined and not 1 forces a non-zero rate |
| Amortization.AnnuityClears | src/screens/Emi.js:76-85 | under the annuity payment the exact balance after n passes is 0 |
| Amortization.AnnuityTimesGeom | src/screens/Emi.js:76 | the n annuity payments, compounded to month n, are worth the loan compounded to month n |
| Amortization.PresentValueClears | src/screens/LoanCalculator.js:89-103 | the computed principal is exactly repaid by the n EMIs, so the balance after n passes is 0 |
| Amortization.PresentValueTimesPow | src/screens/LoanCalculator.js:89-91 | the principal compounded to month n is worth the n EMIs compounded to month n |
| Amortization.AnnuityPresentValueInverse | src/screens/LoanCalculator.js:89-91 | the principal-from-EMI formula and the EMI formula are inverse to each other in both directions |
| Amortization.PrincipalGrows | src/screens/Emi.js:83-85 | each month repays (1+r) times the previous month's principal |
| Amortization.PaidSucc | src/screens/DebtPayoffCalculator.js:87 | each further payment adds one payment to the total paid |
| Amortization.ColumnTotals | src/screens/Emi.js:82-94 | after k rows the principal column sums to what came off the loan, and the interest column to the rest of the payments |
| Amortization.AnnuityColumns | src/screens/Emi.js:76-94 | under the annuity payment the principal column sums to the loan, and the interest column to the payments less the loan |
| Amortization.ShownBalance | src/screens/Emi.js:92 | a balance ≤ 0 is shown as 0; a positive one is shown rounded, and the shown figure is never negative |
| Amortization.RunSchedule | src/screens/Emi.js:80-94 | the schedule loop pushes one row per month, numbered 1..n and built from the balance recurrence, and leaves the closed-form balance |
| Amortization.RoundedColumnsNear | src/screens/PaymentDetails.js:10-11 | the rounded principal and interest columns differ from the exact column sums by at most half a unit per row |
| Amortization.DropPositive | src/screens/LoanTenure.js:70-74 | under the guard, each month takes a positive minimum amount off any balance |
| Amortization.StepDrops | src/screens/LoanTenure.js:71-73 | under the guard, a month lowers a balance in (0, loan] by at least that minimum |
| Amortization.StuckBalance | src/screens/LoanTenure.js:70-74 | with rate ≥ 0 and payment ≤ loan·rate, the balance never falls below the loan |
| Amortization.PaidWithin | src/screens/LoanTenure.js:70-83 | under the guard, some month leaves a non-positive balance |
| Amortization.LoopEndsIffRepayable | src/screens/LoanTenure.js:70-83 | for a monthly rate above −100% the `while (balance > 0)` loop ends exactly when nothing is owed or the payment exceeds the first month's interest |
| Amortization.MinusHundredEnds | src/screens/LoanTenure.js:70-74 | at a monthly rate of exactly −100% with no payment the loop ends after one month, although the guard reports the payment as too small |
| Amortization.StuckPositive | src/screens/LoanTenure.js:70-74 | at a negative rate above −100% with a payment ≤ 0 the balance stays positive every month, so the loop never ends |
| Amortization.NextPositive | src/screens/LoanTenure.js:71-73 | one month at a rate above −100% with a payment ≤ 0 keeps a positive balance positive |
| Amortization.GrownPositive | src/screens/LoanTenure.js:71-72 | a positive amount grown at a rate above −100% stays positive |
| Amortization.PrincipalPositive | src/screens/LoanTenure.js:71-73 | with rate > −100% and a positive first principal payment, every later principal payment is positive |
| Amortization.ScheduleMonotone | src/screens/Emi.js:83-85 | at a positive rate, once the payment beats the first month's interest, the balance falls and the principal repaid rises every month |
| Emi.Calculate | src/screens/Emi.js:60-105 | 'Invalid input' exactly when the principal or rate does not parse or neither term field is positive, with blank fields read as 0. An infinite payment exactly when (1+r)^n = 1 with P·r ≠ 0 (a zero rate or a zero term), negative exactly when P·r is. NaN exactly when a term field is NaN or the formula is otherwise without value: 0/0, or a zero base under a negative term. Otherwise the monthly payment is the rounded `P·r·x/(x−1)` for x = (1+r)^(12·years + months), and the chart has one row per month of a positive term, none for a negative one, numbered from 1 |
| Emi.Payment | src/screens/Emi.js:76 | the exact payment a satisfies a·(x−1) = P·r·x with x = (1+r)^n, for a term n of either sign |
| Emi.PaymentIsAnnuity | src/screens/Emi.js:76 | for a positive term the payment is the level annuity that repays the loan |
| Emi.PlanPaysOff | src/screens/Emi.js:76-94 | over a positive term the plan's exact balance after the last month is 0, and the last row shows a zero balance |
| Emi.PlanAmount | src/screens/Emi.js:77-78 | the total amount is the rounded exact payment times the number of months, for a term of either sign |
| Emi.PlanColumns | src/screens/Emi.js:77-94 | over a positive term the total interest is the schedule's interest column added up, and the principal column adds up to the loan |
| Emi.WholePrincipalAddsUp | src/screens/Emi.js:77-78 | for a whole-rupee principal, the shown total amount is the shown total interest plus the principal |
| Emi.PlanMonotone | src/screens/Emi.js:76-85 | at a positive rate on a positive loan over a positive term, the balance strictly falls and the principal repaid strictly rises, row by row |
| Emi.AnnuityAboveInterest | src/screens/Emi.js:76 | at a positive rate the annuity payment exceeds the first month's interest |
| Emi.OneMonthFromNegativeYears | src/screens/Emi.js:63-71 | a negative year count is taken at its word: −1 years and 13 months gives the same plan as 0 years and 1 month |
| Emi.NegativeTermPlan | src/screens/Emi.js:66-82 | 2 years and −30 months passes the guard: the plan has a negative payment and an empty chart |
| Emi.NegativePayment | src/screens/Emi.js:76 | at a positive rate, a payment formula whose power lies strictly between 0 and 1 gives a negative payment |
| LoanCalculator.Calculate | src/screens/LoanCalculator.js:70-120 | the alert exactly when the EMI or rate does not parse or neither term field is positive, with blank and unparseable term fields read as 0. An infinite principal exactly when a rate of −1200% meets a positive term and a non-zero EMI, negative exactly when the EMI is. NaN exactly when the formula otherwise has no value: a zero rate, or −1200% over a negative term or with an EMI of 0. Otherwise the principal is the rounded `emi·(x−1)/(r·x)`, the chart has one row per month of a positive term, and blank charges count as 0 |
| LoanCalculator.Principal | src/screens/LoanCalculator.js:89-91 | the exact principal v satisfies v·r·x = emi·(x−1) with x = (1+r)^n, for a term n of either sign |
| LoanCalculator.PrincipalIsPresentValue | src/screens/LoanCalculator.js:89-91 | for a positive term the principal is the present value of the n EMIs |
| LoanCalculator.PlanPaysOff | src/screens/LoanCalculator.js:89-111 | over a positive term the EMI repays the computed principal exactly, and the last row shows a zero balance |
| LoanCalculator.TotalIsPaymentsAndCharges | src/screens/LoanCalculator.js:93-95 | the total amount is the rounded sum of every EMI plus the charges, for a term of either sign |
| LoanCalculator.EmiThenLoan | src/screens/LoanCalculator.js:89-91 | entering the EMI screen's exact payment as the EMI gives back the EMI screen's principal, for a term of either sign |
| LoanCalculator.LoanThenEmi | src/screens/Emi.js:76 | entering the computed principal into the EMI screen gives back the EMI, for any term other than zero months |
| LoanCalculator.PaymentThenPrincipal | src/screens/LoanCalculator.js:89-91 | the principal formula undoes the payment formula: the principal an exact payment pays off is the loan it came from |
| LoanCalculator.PrincipalThenPayment | src/screens/Emi.js:76 | the payment formula undoes the principal formula for any term other than zero months |
| LoanCalculator.ZeroTermPlan | src/screens/LoanCalculator.js:76-95 | −1 years and 12 months passes the guard but totals zero months: the principal is 0, the chart empty and the total the charges alone. For the same term the EMI screen divides P·r by 0: an infinite payment signed by P·r, or NaN for a principal of 0 |
| InterestCalculator.TwentyPasses | src/screens/InterestCalculator.js:83-84 | 2^−20 ≤ 0.000001 < 2^−19 |
| InterestCalculator.Estimate | src/screens/InterestCalculator.js:86 | at a term of zero months the estimate divides loan·mid by 0: an infinity with the loan's sign, or NaN exactly when the loan is 0. Otherwise it is finite and satisfies e·(x−1) = loan·mid·x with x = (1+mid)^n |
| InterestCalculator.EstimateIsAnnuity | src/screens/InterestCalculator.js:86 | for a positive term the estimate is the annuity that repays the loan at rate mid |
| InterestCalculator.HalvedMonotone | src/screens/InterestCalculator.js:83-91 | more halvings leave a narrower interval |
| InterestCalculator.Search | src/screens/InterestCalculator.js:81-91 | any number of halvings keeps 0 ≤ low < high ≤ 1 |
| InterestCalculator.SearchBrackets | src/screens/InterestCalculator.js:85-90 | each halving keeps low = 0 or estimate(low) not above the EMI (a NaN estimate included), and high = 1 or estimate(high) > EMI, inside the starting interval |
| InterestCalculator.SearchWidth | src/screens/InterestCalculator.js:84-90 | k passes leave the starting width halved k times |
| InterestCalculator.Bisect | src/screens/InterestCalculator.js:81-91 | the while loop makes exactly the 20 passes of the recursive search and ends bracketed, with width exactly 2^−20 |
| InterestCalculator.Calculate | src/screens/InterestCalculator.js:64-121 | the alert is raised exactly when the EMI or loan does not parse or neither term field is positive, with blank and unparseable term fields read as 0; otherwise the rate is the final low end, bracketed within 2^−20, the annual figure is 1200 times it, the total is the rounded sum of the EMIs, and the chart has one row per month of a positive term |
| InterestCalculator.SearchZeroTerm | src/screens/InterestCalculator.js:85-90 | at a term of zero months a loan of at most 0 gives an estimate of −Infinity or NaN, which fails `estimate > emi`, so each pass raises the low end |
| InterestCalculator.SearchZeroTermPositive | src/screens/InterestCalculator.js:85-90 | at a term of zero months a positive loan gives +Infinity, which passes `estimate > emi`, so each pass lowers the high end and the low end stays where it started |
| InterestCalculator.ZeroTermRate | src/screens/InterestCalculator.js:68-91 | −1 years and 12 months passes the guard and totals zero months. The rate is then 0 for a positive loan, and 1 − 2^−20 for a loan of at most 0 |
| LoanTenure.AsWrittenNeverEnds | src/screens/LoanTenure.js:70-83 | as written, the loop never exits on a loan of 100000 at 12% with an EMI of 500 |
| LoanTenure.Calculate | src/screens/LoanTenure.js:60-101 | the alert is raised exactly when a field does not parse; an EMI that cannot repay is reported. Otherwise the month count is the first month with balance ≤ 0, every earlier balance is positive, the rows are the schedule's, 12·years + remainingMonths = months with remainingMonths < 12, the totals are the EMIs and the EMIs less the loan, the last row shows 0, and a loan ≤ 0 gives 0 months and no rows |
| DebtPayoff.AsWrittenNeverEnds | src/screens/DebtPayoffCalculator.js:83-98 | as written, the loop never exits on a balance of 5000 at 24% with a payment of 50 |
| DebtPayoff.LastBalanceUnclamped | src/screens/DebtPayoffCalculator.js:91 | the last row's balance is not clamped: paying 150 on 100 at 0% shows −50 |
| DebtPayoff.Calculate | src/screens/DebtPayoffCalculator.js:73-100 | a balance ≤ 0 or NaN gives no rows. A positive balance with a NaN rate or payment gives one row: its interest is a number exactly when the rate parses, and its total paid exactly when the payment parses. A payment that cannot repay is reported. Otherwise the rows stop at the first month with balance ≤ 0, every earlier balance is positive, and row k holds month k, the unclamped balance, the interest, the principal and k payments paid; the payment strategy is not an input |
| DebtPayoff.Payoff | src/screens/DebtPayoffCalculator.js:83-98 | the `while (balanceAmount > 0)` loop on a repayable positive balance pushes at least one row, stops at the first month whose balance is ≤ 0, and pushes exactly the rows of the balance recurrence |
| PaymentDetails.Share | src/screens/PaymentDetails.js:19 | a percentage share exists exactly when the total is not 0 |
| PaymentDetails.Summarize | src/screens/PaymentDetails.js:10-27 | the totals are the sums of the rounded schedule columns, the total amount is their sum, and the donut has exactly two slices, Principal then Interest, holding those totals and their shares |
| PaymentDetails.UnroundedSharesAddUp | src/screens/PaymentDetails.js:19-25 | before rounding, the two percentage shares add to 100 |
| PaymentDetails.SharesAddUp | src/screens/PaymentDetails.js:19-25 | for a non-zero total, the two rounded percentages add to 100, or to 101 when both shares end in exactly one half |
| PaymentDetails.RoundedComplement | src/screens/PaymentDetails.js:19-25 | two reals adding to 100 round to integers adding to 100 or 101 |
| PaymentDetails.EmiDetailsNear | src/screens/PaymentDetails.js:10-12 | on an EMI plan over a positive term of n months, the donut's principal and interest are within n/2 of the loan and of the exact interest |
| HomeBudget.FindIndex | src/screens/HomeBudgetCalculator.js:96 | `findIndex` gives the first entry with that name, or −1 exactly when there is none |
| HomeBudget.AddIncome | src/screens/HomeBudgetCalculator.js:74-80 | a parsed income is added to the total and the field is cleared; an unparseable one changes nothing |
| HomeBudget.SumUpdate | src/screens/HomeBudgetCalculator.js:98-99 | overwriting one entry moves the list's sum by the difference of the amounts |
| HomeBudget.UpsertKeepsTotal | src/screens/HomeBudgetCalculator.js:95-104 | one category's step moves the running total exactly as it moves the list's sum |
| HomeBudget.UpsertReplaces | src/screens/HomeBudgetCalculator.js:96-102 | re-entering a category replaces its amount rather than adding to it; other categories keep their amounts, existing entries keep their positions, and names stay distinct |
| HomeBudget.FirstIndex | src/screens/HomeBudgetCalculator.js:96 | `findIndex` reports the first entry carrying the name |
| HomeBudget.AddExpenses | src/screens/HomeBudgetCalculator.js:82-116 | Add Expense clears all five amount fields and leaves the income untouched |
| HomeBudget.UpsertKeeps | src/screens/HomeBudgetCalculator.js:94-104 | one category's step keeps the total equal to the list's sum, names distinct and only category names in the list |
| HomeBudget.UpsertAllKeeps | src/screens/HomeBudgetCalculator.js:91-105 | the pass over the five categories keeps the total equal to the list's sum, names distinct and only category names in the list |
| HomeBudget.UpsertAllLookup | src/screens/HomeBudgetCalculator.js:94-105 | after the pass, a category holds its entered amount if one was entered, and its earlier amount otherwise |
| HomeBudget.CategoriesDistinct | src/screens/HomeBudgetCalculator.js:83-89 | the five category names are pairwise different |
| HomeBudget.AddExpensesLookup | src/screens/HomeBudgetCalculator.js:82-108 | Add Expense overwrites exactly the categories whose fields parse, and a blank or unparseable field leaves its entry alone |
| HomeBudget.InitialConsistent | src/screens/HomeBudgetCalculator.js:91-92 | the empty start state satisfies the invariant: total = sum of the list, distinct category names |
| HomeBudget.AddIncomeKeeps | src/screens/HomeBudgetCalculator.js:74-80 | Add Income preserves the invariant |
| HomeBudget.AddExpensesKeeps | src/screens/HomeBudgetCalculator.js:82-116 | Add Expense preserves the invariant |
| HomeBudget.AtMostFive | src/screens/HomeBudgetCalculator.js:83-102 | a list of distinct category names never holds more than five entries |
| HomeBudget.Budget | src/screens/HomeBudgetCalculator.js:118 | on a consistent screen the budget is the income total less the sum of the listed expenses |
| HomeBudget.BudgetAfterAdding | src/screens/HomeBudgetCalculator.js:74-118 | Add Income raises the budget by the amount added; after Add Expense the budget is still the income less the list's sum, moved exactly by the change in that sum |
| IncomeTax.TaxableIncome | src/screens/IncomeTaxCalculator.tsx:62-67 | taxable income plus deductions plus exemptions is the gross income, with blank or unparseable fields read as 0 |
| IncomeTax.Portion | src/screens/IncomeTaxCalculator.tsx:72-86 | the part of an income that falls in one bracket is non-negative and no wider than the bracket |
| IncomeTax.TaxIsMarginal | src/screens/IncomeTaxCalculator.tsx:70-88 | for a non-negative income the if-chain equals the seven-bracket table (thresholds 9875 … 518400, rates 10 … 37%) applied bracket by bracket |
| IncomeTax.TaxSlope | src/screens/IncomeTaxCalculator.tsx:72-86 | between two incomes the tax rises by at least 10% and at most 37% of the difference, so it is non-decreasing and continuous |
| IncomeTax.TaxContinuous | src/screens/IncomeTaxCalculator.tsx:72-86 | the adjacent branch formulas meet at every threshold |
| IncomeTax.TaxBounds | src/screens/IncomeTaxCalculator.tsx:72-86 | for x ≥ 0, 0 ≤ 0.10·x ≤ tax(x) ≤ 0.37·x |
| IncomeTax.NegativeIncome | src/screens/IncomeTaxCalculator.tsx:72-73 | a negative taxable income takes the first branch, giving tax 0.10·x < 0 |
| IncomeTax.TaxOwed | src/screens/IncomeTaxCalculator.tsx:91-96 | the tax owed is within half a unit of the tax less the credits, with blank credits read as 0 |
| IncomeTax.OwedMonotone | src/screens/IncomeTaxCalculator.tsx:91-96 | more gross income never lowers the tax owed |
| IncomeTax.CreditLowersOwed | src/screens/IncomeTaxCalculator.tsx:94-95 | a whole-dollar credit lowers the tax owed by exactly that amount |
| Gpa.Upper | src/screens/GPACalculator.tsx:12 | keeps the length and maps exactly the lower-case ASCII letters to upper case. JavaScript's `toUpperCase` also maps non-ASCII letters; the model does not, which suffices because the grade picker offers only ASCII grades |
| Gpa.UpperIdempotent | src/screens/GPACalculator.tsx:12 | upper-casing twice is upper-casing once |
| Gpa.CaseInsensitive | src/screens/GPACalculator.tsx:11-43 | a grade the table lists scores the same as its upper-cased form |
| Gpa.LettersScore | src/screens/GPACalculator.tsx:11-43 | A+ … D−, F score 4.3, 4.0, 3.7, 3.3, 3.0, 2.7, 2.3, 2.0, 1.7, 1.3, 1.0, 0.7, 0.0, and P, NP, I and W score no points |
| Gpa.PointsDecrease | src/screens/GPACalculator.tsx:13-38 | the table's points strictly decrease from A+ down to F |
| Gpa.Contributions | src/screens/GPACalculator.tsx:81-86 | one contribution per row, in row order: its credits and points when both exist, none otherwise |
| Gpa.Average | src/screens/GPACalculator.tsx:88 | the GPA exists exactly when the credits total is positive, and GPA × credits = points total |
| Gpa.Calculate | src/screens/GPACalculator.tsx:70-91 | the first row with grade '-' stops the loop with an error naming its 1-based number. Otherwise the credits total sums the contributing rows' credits and the GPA is their weighted average, or 'Invalid input' when the credits total is not positive |
| Gpa.SumsBetween | src/screens/GPACalculator.tsx:84-85 | with positive credits, the points total lies between the lowest and highest grade points times the credits total |
| Gpa.SumsStep | src/screens/GPACalculator.tsx:84-85 | adding one contribution with positive credits and grade points in the range keeps the points total between the range's ends times the credits total |
| Gpa.StepBetween | src/screens/GPACalculator.tsx:84-85 | one more contributing row keeps both sums bracketed |
| Gpa.GpaBetween | src/screens/GPACalculator.tsx:84-88 | with positive credits, the GPA lies between the lowest and highest contributing grade points |
| Gpa.AverageBetween | src/screens/GPACalculator.tsx:88 | a bracketed points total divided by a positive credits total lies in the bracket |
| Gpa.TableRange | src/screens/GPACalculator.tsx:13-38 | every point value the table lists lies between 0.0 and 4.3 |
| Gpa.ScreenGpaBetween | src/screens/GPACalculator.tsx:11-91 | rows graded from the table, with positive credits, give a GPA between 0.0 and 4.3 |
| Gpa.AddRow | src/screens/GPACalculator.tsx:60-62 | `addRow` appends one blank row and leaves the existing rows unchanged |
| Gpa.AddRowStops | src/screens/GPACalculator.tsx:60-79 | after `addRow` the next calculation finds a row without a grade |
| Gpa.ClearAll | src/screens/GPACalculator.tsx:93-98 | `clearAll` leaves a single blank row with grade '-' |
| BasicKeypad.Input | src/components/Calculator.tsx:31-40 | a '.' after a '.' changes nothing. Any other key clears the new-input flag and ends the display with that key: it replaces the display after a result or on a lone "0" (unless the key is '.'), and is appended otherwise. History and memory are untouched |
| BasicKeypad.StripOperator | src/components/Calculator.tsx:57 | at most one trailing +, −, * or / is removed, and nothing else changes |
| BasicKeypad.Operate | src/components/Calculator.tsx:42-85 | AC sets the display to "0" and clears the flag. '=' sets the flag, and shows "Error" exactly when evaluation throws, gives `undefined`, or gives the text "Error". Every other key clears the flag and leaves history and edit index alone. Memory is never touched |
| BasicKeypad.Memory | src/components/Calculator.tsx:87-107 | memory keys other than MR leave the display alone, and none touches the history |
| BasicKeypad.ClearHistory | src/components/Calculator.tsx:109-111 | the history is emptied and nothing else changes |
| BasicKeypad.IndexOf | src/components/Calculator.tsx:117 | `indexOf` gives the first position of the character, or −1 exactly when it does not occur |
| BasicKeypad.ExpressionPart | src/components/Calculator.tsx:117-118 | the part of a history line before its first '=', trimmed, contains no '=' |
| BasicKeypad.EditHistoryItem | src/components/Calculator.tsx:113-127 | the index is marked for editing; an existing line's expression part goes into the display; history and memory are untouched |
| BasicKeypad.UpdateHistoryItem | src/components/Calculator.tsx:129-147 | "<display> = <value>" (with `undefined` written out) overwrites only the line being edited, keeping the history's length, and becomes the display; the edit index is cleared; a throwing evaluation changes nothing |
| BasicKeypad.EqualsThenEdit | src/components/Calculator.tsx:56-127 | editing the line '=' just recorded puts the evaluated expression back into the display |
| BasicKeypad.EqualsPart | src/components/Calculator.tsx:60-118 | the expression part of "t = v" is t, for a trimmed t without '=' |
| BasicKeypad.IndexOfAfter | src/components/Calculator.tsx:117 | the first '=' of "t = v" is the separator, when t has none |
| BasicKeypad.ClearThenEquals | src/components/Calculator.tsx:56-69 | after the history is cleared, the next '=' leaves exactly one line |
| BasicKeypad.InputThenBack | src/components/Calculator.tsx:31-55 | backspace undoes a digit or '.' appended to the display |
| BasicKeypad.EqualsThenDigit | src/components/Calculator.tsx:34-37 | after '=' the next digit replaces the display |
| BasicKeypad.StripAppended | src/components/Calculator.tsx:57 | an operator typed just before '=' is dropped before evaluation |
| BasicKeypad.InputShown | src/components/Calculator.tsx:31-40 | a digit or '.' never leaves the display empty |
| BasicKeypad.OperateShown | src/components/Calculator.tsx:48-55 | backspace turns a display of length ≤ 1 into "0"; no operation leaves the display empty |
| BasicKeypad.MemoryShown | src/components/Calculator.tsx:87-107 | no memory key leaves the display empty |
| BasicKeypad.Rendered | src/components/Calculator.tsx:60 | the template literal writes a result as its text and `undefined` as "undefined" |
| BasicKeypad.EqualsHistory | src/components/Calculator.tsx:56-76 | '=' appends one line when nothing is being edited, and overwrites only the edited line otherwise, keeping the length. A result goes on the display. An `undefined` result is still recorded, as "… = undefined", because the history update is queued before `toString` throws, and the display shows "Error". An evaluation that throws shows "Error" and records nothing |
| BasicKeypad.BackToEmptyLine | src/components/Calculator.tsx:48-76 | a "-5" result, then backspace, then '=' evaluates the empty line: the history gains " = undefined" and the display shows "Error" |
| BasicKeypad.AddThenSubtract | src/components/Calculator.tsx:99-102 | M+ then M− on the same display gives the memory back |
| BasicKeypad.RecallThenStore | src/components/Calculator.tsx:91-98 | MR keeps the memory and sets the flag; MS then stores back the recalled value |
| Text.TrimmedThenSpace | src/components/Calculator.tsx:118 | a trimmed text followed by one space trims back to itself |
| Text.TrimKeepsOut | src/components/Calculator.tsx:117-118 | trimming never brings in a character the text did not have |
| Text.SplitAfterSpace | src/screens/ScientificCalculator.tsx:64 | `split(' ')` cuts a space-free first piece off at the space that follows it |
| ScientificKeypad.Input | src/screens/ScientificCalculator.tsx:11-27 | a digit, '.', 'π' or parenthesis key replaces a result, an empty line or "0", never touches the expression or history, and clears the result flag |
| ScientificKeypad.PiDigitJoined | src/screens/ScientificCalculator.tsx:19-22 | a digit after π, or π after a digit, is joined with a '*' |
| ScientificKeypad.MatchLength | src/screens/ScientificCalculator.tsx:46-47 | the end-anchored pattern matches the longest listed `name(` that ends the line, or nothing |
| ScientificKeypad.Erase | src/screens/ScientificCalculator.tsx:39-56 | BACK keeps a prefix of the line, strictly shorter when the line is not empty |
| ScientificKeypad.BackKey | src/screens/ScientificCalculator.tsx:35-56 | BACK empties an "Error" or result line and otherwise erases with the given pattern; it keeps history and expression, clears the result flag and shortens any non-empty line to a prefix |
| ScientificKeypad.Operate | src/screens/ScientificCalculator.tsx:29-78 | '=' either shows a result and appends one history line, or leaves the history alone and shows "Error" or "Not defined". AC empties line and expression and drops at most the last history line. Every other key keeps the history. BACK leaves a prefix of the line, and 'Ans' on an empty history changes nothing |
| ScientificKeypad.BackLeavesRoot | src/screens/ScientificCalculator.tsx:46-52 | with the pattern as written, BACK on "9+√(" leaves "9+√": the √ key's symbol is not listed |
| ScientificKeypad.RootNotListed | src/screens/ScientificCalculator.tsx:46 | no listed name followed by '(' ends "9+√(" |
| ScientificKeypad.BackShortens | src/screens/ScientificCalculator.tsx:35-56 | BACK never lengthens the line and shortens any non-empty one |
| ScientificKeypad.AllClearDropsLast | src/screens/ScientificCalculator.tsx:30-34 | AC empties line and expression and removes exactly the last history line |
| ScientificKeypad.OperatorContinues | src/screens/ScientificCalculator.tsx:68-77 | an operator is appended; after a result the result becomes the expression |
| ScientificKeypad.EqualsRecords | src/screens/ScientificCalculator.tsx:115-119 | a successful '=' shows the result and appends "<line> = <result>" to the history |
| ScientificKeypad.EqualsUndefined | src/screens/ScientificCalculator.tsx:115-124 | when evaluation gives `undefined` the expression reads "<line> = undefined", the line shows "Error", and the history is unchanged |
| ScientificKeypad.SplitRecord | src/screens/ScientificCalculator.tsx:64 | a recorded line `<input> = <result>` splits on spaces into exactly the input, "=" and the result when neither holds a space |
| ScientificKeypad.EqualsThenAns | src/screens/ScientificCalculator.tsx:61-67 | 'Ans' right after '=' brings back the result when neither line nor result holds a space |
| ScientificKeypad.LastIndexOf | src/screens/ScientificCalculator.tsx:167 | `lastIndexOf` gives -1 or a position where the pattern occurs |
| ScientificKeypad.FunctionKey | src/screens/ScientificCalculator.tsx:157-172 | a function key keeps the history and expression and clears the result flag |
| ScientificKeypad.FunctionAfterDigitKeepsLine | src/screens/ScientificCalculator.tsx:166-169 | after a digit or ')' the key gives the whole trimmed line then `*symbol(`, since `lastIndexOf(/[0-9]/)` searches for the text "/[0-9]/" |
| ScientificKeypad.NoSearchText | src/screens/ScientificCalculator.tsx:167 | a line without '[' never contains the searched text |
| ScientificKeypad.TrimInside | src/screens/ScientificCalculator.tsx:166 | the trimmed line holds only characters of the line |
| ScientificKeypad.NamesNest | src/screens/ScientificCalculator.tsx:46 | among the key symbols only "√" ends a longer one, "³√" |
| ScientificKeypad.UniqueMatch | src/screens/ScientificCalculator.tsx:46-49 | when `name(` ends the line and no longer listed name does, the match is exactly `name(` |
| ScientificKeypad.LongerEnding | src/screens/ScientificCalculator.tsx:46 | a longer name can end a line just written by a function key only as "³√" after a '³' already there |
| ScientificKeypad.TokenMatch | src/screens/ScientificCalculator.tsx:46-49 | after a function key writes `symbol(`, a pattern listing every key's symbol matches exactly that token |
| ScientificKeypad.EraseToken | src/screens/ScientificCalculator.tsx:45-49 | BACK on a line ending in a matched token cuts exactly that token |
| ScientificKeypad.FunctionThenBack | src/screens/ScientificCalculator.tsx:157-172 | with the pattern corrected to list every key's symbol ('√' included), a function key followed by BACK gives back the line as it was |
| ScientificKeypad.WrittenFunctionThenBack | src/screens/ScientificCalculator.tsx:35-56 | with the pattern as written, BACK undoes each of the twelve function keys whose symbol it lists |
| ScientificKeypad.WrittenListed | src/screens/ScientificCalculator.tsx:46 | the pattern as written lists the symbols of the first twelve function keys, in key order |
| ScientificKeypad.WrittenTokenMatch | src/screens/ScientificCalculator.tsx:46-49 | after a listed function key writes `symbol(`, the pattern as written matches exactly that token |
| ScientificKeypad.Factorial | src/screens/ScientificCalculator.tsx:137-145 | `factorial` is NaN below 0 and n! otherwise |
| ScientificKeypad.FactRecurrence | src/screens/ScientificCalculator.tsx:140-143 | n! = n * (n - 1)! and n! >= n from 2 on |
| ScientificKeypad.FactPositive | src/screens/ScientificCalculator.tsx:139 | every factorial is at least 1 |
| Ratio.FilledCount | src/screens/RatioCalculator.js:15-30 | at most four fields count as filled |
| Numeric.Divide | src/screens/RatioCalculator.js:16 | JavaScript division: a number exactly when the divisor is not 0, and then times the divisor it gives the dividend; an infinity of the dividend's sign for a non-zero dividend over 0; NaN for 0 / 0 |
| Ratio.Missing | src/screens/RatioCalculator.js:15-38 | a field to solve for exists exactly when three of the four are filled, and it is the empty one |
| Ratio.Quotient | src/screens/RatioCalculator.js:16 | `(x * y) / z` is a number exactly when all three are and the divisor is not 0, and then times the divisor it gives the product; a zero divisor gives an infinity of the product's sign, or NaN when the product is 0 |
| Ratio.SolveFor | src/screens/RatioCalculator.js:15-34 | the value computed for each field makes the cross products of `a:b = c:d` agree |
| Ratio.Solve | src/screens/RatioCalculator.js:13-40 | without exactly three filled fields only the "Please enter only three values." line changes; otherwise the solved field is highlighted |
| Ratio.SolveFillsMissing | src/screens/RatioCalculator.js:15-34 | the computed value goes into the missing field only, and then all four are filled |
| Ratio.RejectKeepsFields | src/screens/RatioCalculator.js:35-38 | a rejected calculation keeps every field and the highlight |
| Ratio.ZeroDivisor | src/screens/RatioCalculator.js:15-16 | "0" counts as filled, so A = "0" with D empty divides by zero: Infinity when C·B is not 0, NaN when it is |
| Ratio.Scaled | src/screens/RatioCalculator.js:85-91 | shrinking divides by the factor and enlarging multiplies; shrinking a non-zero side by 0 gives an infinity |
| Ratio.Scale | src/screens/RatioCalculator.js:82-99 | the inputs and mode are kept; without all three fields only the prompt changes; otherwise both sides are scaled |
| Ratio.ScalingKeepsRatio | src/screens/RatioCalculator.js:85-91 | the scaled sides keep the width-to-height ratio |
| Ratio.ShrinkThenEnlarge | src/screens/RatioCalculator.js:85-91 | shrinking then enlarging by the same non-zero factor gives the side back |
| Ratio.ClearRatio | src/screens/RatioCalculator.js:42-49 | the proportion section is emptied, the scaling section untouched |
| Ratio.ClearScaling | src/screens/RatioCalculator.js:101-109 | the scaling section is emptied except for the chosen mode; the proportion untouched |
| Ratio.ClearThenCalculate | src/screens/RatioCalculator.js:35-38 | after either clear, calculating only asks for the values again |
| Bmi.Bands | src/screens/BMICalculator.js:35-43 | each status holds exactly on its interval; the gap [24.9, 25) falls to "Obese" |
| Bmi.Divisor | src/screens/BMICalculator.js:31 | `height / 10 * height / 10` is positive and a hundredth of the squared height |
| Bmi.FormulaIsIndex | src/screens/BMICalculator.js:31 | the formula is `10000 * weight / height^2`, positive for a positive weight |
| Bmi.Calculate | src/screens/BMICalculator.js:15-44 | a blank field gives the first alert, a non-number or non-positive value the second, and otherwise a positive index with its band |
| Bmi.CalculateIndex | src/screens/BMICalculator.js:22-31 | an accepted input gets exactly `10000 * weight / height^2` |
| Bmi.Press | src/screens/BMICalculator.js:15-44 | an alert leaves the screen as it was; an accepted input shows its index and band and keeps the fields |
| Bmi.Clear | src/screens/BMICalculator.js:47-52 | both fields empty and nothing shown |
| Bmi.ClearThenCalculate | src/screens/BMICalculator.js:16-18 | calculating after a clear only raises the "both fields" alert |
| Investment.RecurringMaturity | src/screens/InvestmentScreen.js:93-97 | the month-by-month loop sums each deposit with its growth to maturity |
| Investment.Chart | src/screens/InvestmentScreen.js:108-115 | one chart point per year, point `i` for year `i + 1` |
| Investment.Calculate | src/screens/InvestmentScreen.js:80-118 | NaN exactly when a field does not parse; otherwise the rounded maturity, investment and interest of the chosen kind, and the chart |
| Investment.InterestIsDifference | src/screens/InvestmentScreen.js:101-105 | the shown interest is the shown maturity less the shown investment, to within one unit |
| Investment.ChartYears | src/screens/InvestmentScreen.js:109-110 | each point's year, and the amount invested once or twelve times a year |
| Investment.OneTimeChartEndsAtMaturity | src/screens/InvestmentScreen.js:90-112 | the last one-time chart bar adds up to the maturity amount |
| Investment.RecurringChartEndsAtMaturity | src/screens/InvestmentScreen.js:95-113 | at any non-zero rate the closed form of the last recurring bar equals the loop's maturity |
| Investment.OneTimeGrowth | src/screens/InvestmentScreen.js:112 | from one year to the next a one-time bar grows by `1 + r` |
| Investment.Clear | src/screens/InvestmentScreen.js:120-128 | fields, result lines and chart emptied; the chosen kind stays |
| Nps.Months | src/screens/NPSCalculator.js:68-69 | the contribution period is a whole number of years in months, positive exactly below age 60 |
| Nps.Wealth | src/screens/NPSCalculator.js:72 | the wealth formula gives a number exactly when the monthly rate is non-zero and no zero base meets a negative power |
| Nps.Calculate | src/screens/NPSCalculator.js:62-85 | each figure is NaN exactly when a field it reads does not parse or, for the three read from the wealth, the wealth formula has no value; otherwise the rounded formula: contribution times months, the wealth, the lump sum, and the monthly pension |
| Nps.ZeroRateKeepsInvestment | src/screens/NPSCalculator.js:71-75 | at a 0% rate the wealth, lump sum and pension are NaN, while the total investment is still shown |
| Nps.WealthIsContributions | src/screens/NPSCalculator.js:72 | the closed form is the sum of the monthly contributions, each grown for the months left |
| Nps.SplitAddsUp | src/screens/NPSCalculator.js:73-74 | the lump sum and the annuity make up the whole wealth |
| Nps.PensionIsYearlyReturn | src/screens/NPSCalculator.js:75 | twelve monthly pensions are the annuity's yearly return |
| Nps.PastSixty | src/screens/NPSCalculator.js:68-71 | past 60 the period is negative, so the total investment is at most 0, and below 0 from a contribution of 1 |
| Nps.AtSixty | src/screens/NPSCalculator.js:68-72 | at 60 nothing is accumulated |
| Nps.Clear | src/screens/NPSCalculator.js:87-94 | all five fields emptied and the results hidden |
| Retirement.Calculate | src/screens/RetirementCalculator.js:56-66 | the alert exactly when a field does not parse. A −100% rate over negative years gives an infinity with the sign of the present value, or NaN when the present value is 0. Otherwise the rounded `PV * (1 + r)^n` |
| Retirement.NoYears | src/screens/RetirementCalculator.js:64 | over no years the future value is the present value |
| Retirement.OneMoreYear | src/screens/RetirementCalculator.js:64 | one more year multiplies the future value by `1 + r`, for years of either sign |
| Retirement.SplitNoColon | src/screens/RetirementCalculator.js:77 | `split(': ')` leaves a text without ':' whole |
| Retirement.SplitAfter | src/screens/RetirementCalculator.js:77 | a first part without ':' is split off at the first separator |
| Retirement.SplitPair | src/screens/RetirementCalculator.js:77 | two colon-free texts joined by ": " split back into the two |
| Retirement.WordsHaveNoColon | src/screens/RetirementCalculator.js:4-46 | the amount in words never holds ':' |
| Retirement.RenderRestores | src/screens/RetirementCalculator.js:79-82 | printing "<label>:" then " <value>" gives "<label>: <value>" |
| Retirement.SplitLine | src/screens/RetirementCalculator.js:65-82 | the result line splits into exactly the label and the value, and the rendered pair is the line again |
| Retirement.Clear | src/screens/RetirementCalculator.js:68-73 | every field and the result line emptied |
| FixedDeposit.PerYear | src/screens/FDCalculator.js:88-96 | no payout at maturity; otherwise 12, 4 or 2 payouts a year |
| FixedDeposit.Part | src/screens/FDCalculator.js:71-73 | a blank tenure field adds 0; a filled one adds its whole value over its units, or NaN |
| FixedDeposit.Tenure | src/screens/FDCalculator.js:70-73 | the tenure is a number exactly when every filled field parses, and is then the sum of the parts |
| FixedDeposit.PerPeriod | src/screens/FDCalculator.js:89-93 | the interest per payout is a number exactly for a non-zero tenure, and all the payouts add up to the interest |
| FixedDeposit.Calculate | src/screens/FDCalculator.js:65-97 | nothing changes when a value does not parse; otherwise the rounded maturity and interest, and a payout exactly when one is chosen; the fields stay |
| FixedDeposit.InterestAddsUp | src/screens/FDCalculator.js:82-86 | deposit and interest make up the maturity, to within one unit after rounding |
| FixedDeposit.WholeYears | src/screens/FDCalculator.js:71-82 | a tenure of whole years compounds four times a year |
| FixedDeposit.MonthsCount | src/screens/FDCalculator.js:71-72 | 18 months, or 1 year and 6 months, are one and a half years |
| FixedDeposit.BlankTenure | src/screens/FDCalculator.js:70-93 | with the tenure blank a periodic payout divides by 0 and shows no number |
| FixedDeposit.Clear | src/screens/FDCalculator.js:99-107 | every field blank, the payout back to "On Maturity", no results |
| FixedDeposit.ClearThenCalculate | src/screens/FDCalculator.js:66-77 | calculating after a clear changes nothing |
| Savings.Periods | src/screens/SavingsCalculator.tsx:88-104 | every frequency maps to between 11.9 and 12 periods a year |
| Savings.PeriodsOrdered | src/screens/SavingsCalculator.tsx:90-101 | the periods grow with the frequency, and only "monthly" uses twelve |
| Savings.Final | src/screens/SavingsCalculator.tsx:106-110 | the final value is a number exactly for a non-zero rate |
| Savings.Calculate | src/screens/SavingsCalculator.tsx:74-117 | an alert changes nothing; otherwise NaN exactly at a 0% rate, and else the rounded final value and interest; the fields stay |
| Savings.AnnuityQuotient | src/screens/SavingsCalculator.tsx:110 | the annuity quotient `((1 + c)^m - 1) / c` is the sum of the deposits' growth |
| Savings.MonthlyIsDeposits | src/screens/SavingsCalculator.tsx:99-110 | monthly compounding over whole years is the initial sum grown every month plus each end-of-month deposit grown for the months after it |
| Savings.InterestAddsUp | src/screens/SavingsCalculator.tsx:112-116 | interest and the amount paid in make up the final value, to within one unit |
| Savings.Clear | src/screens/SavingsCalculator.tsx:120-127 | the four fields blank and no figures; the frequency stays |
| Savings.ClearThenCalculate | src/screens/SavingsCalculator.tsx:76-85 | calculating after a clear only raises the alert |
| Inflation.Calculate | src/screens/InflationCalculator.tsx:67-81 | an alert changes nothing; otherwise the rounded `P * (1 + r)^n` is shown and the fields stay |
| Inflation.YearByYear | src/screens/InflationCalculator.tsx:78 | over whole years the amount starts at `P` and grows by `1 + r` each year |
| Inflation.Grows | src/screens/InflationCalculator.tsx:78 | a positive amount at a positive rate only grows |
| Inflation.Clear | src/screens/InflationCalculator.tsx:83-88 | the three fields blank and no future value |
| Inflation.ClearThenCalculate | src/screens/InflationCalculator.tsx:68-75 | calculating after a clear only raises the alert |
| MutualFund.Calculate | src/screens/MutualFundCalculator.tsx:58-73 | an alert changes nothing; otherwise the rounded final amount and the rounded amount less the investment, fields kept |
| MutualFund.AnnualGrowth | src/screens/MutualFundCalculator.tsx:68-69 | once-a-year compounding is plain annual growth `P * (1 + r)^t` |
| MutualFund.Render | src/screens/MutualFundCalculator.tsx:132-145 | the results block renders exactly when both figures are non-zero numbers; a figure of 0 in the `&&` chain is a bare 0 outside `<Text>`, a render error |
| MutualFund.ZeroRateRenderError | src/screens/MutualFundCalculator.tsx:68-132 | at a 0% return the interest is 0, so the `&&` chain yields a bare 0 and rendering fails |
| MutualFund.CompoundedClosed | src/screens/MutualFundCalculator.tsx:69 | compounding once a year for k years is the investment times (1 + r)^k |
| MutualFund.WholeYears | src/screens/MutualFundCalculator.tsx:58-71 | over a whole number of years the final amount is the investment compounded year by year, rounded |
| MutualFund.InterestAddsUp | src/screens/MutualFundCalculator.tsx:71-72 | the shown interest is the shown amount less the investment, to within one unit |
| MutualFund.Clear | src/screens/MutualFundCalculator.tsx:75-81 | the three fields blank, no figures, and nothing rendered |
| MutualFund.ClearThenCalculate | src/screens/MutualFundCalculator.tsx:59-66 | calculating after a clear only raises the alert |
| Insurance.Calculate | src/screens/InsuranceCalculator.js:65-77 | both figures NaN exactly when a field does not parse; otherwise the cover `income * years + debts + goals - existing` and its premium; the fields stay |
| Insurance.PremiumShare | src/screens/InsuranceCalculator.js:74-75 | the premium is one two-hundredth of the cover and has its sign |
| Insurance.ExistingCoverOffsets | src/screens/InsuranceCalculator.js:70 | more existing cover lowers the need one for one |
| Insurance.FormattedWords | src/screens/InsuranceCalculator.js:5-47 | this copy of the formatter writes "₹ <grouped> (<words>)" with the shared words, "Zero" for 0 |
| Insurance.Clear | src/screens/InsuranceCalculator.js:79-87 | all five fields blank and the results hidden |
| Insurance.ClearThenCalculate | src/screens/InsuranceCalculator.js:66-70 | calculating after a clear gives NaN figures |
| Tax.Calculate | src/screens/TaxCalculator.js:57-69 | an alert changes nothing; otherwise the tax `income * rate / 100 - deduction`, fields kept |
| Tax.IncomeFromTax | src/screens/TaxCalculator.js:57-69 | at a non-zero rate the shown tax gives back the income: (tax + deduction)·100 / rate is the income entered |
| Tax.DeductionLowersTax | src/screens/TaxCalculator.js:67 | each extra unit of deduction takes one unit off the tax |
| Tax.NegativeTax | src/screens/TaxCalculator.js:67-130 | a deduction above the tax makes it negative, and from -0.5 down the rounded figure is negative, outside the formatter's amounts |
| Tax.Clear | src/screens/TaxCalculator.js:71-76 | the fields blank and the result hidden |
| Tax.ClearThenCalculate | src/screens/TaxCalculator.js:58-65 | calculating after a clear only raises the alert |
| CompoundInterest.Calculate | src/screens/CompoundInterestCalculator.js:22-36 | an alert changes nothing; otherwise the rounded amount `P * (1 + r / n)^(n t)` and the rounded principal, fields kept |
| CompoundInterest.ShownFiguresAddUp | src/screens/CompoundInterestCalculator.js:32-35 | the interest is taken from the rounded figures, so principal and interest add up to the amount exactly |
| CompoundInterest.WholeYears | src/screens/CompoundInterestCalculator.js:31 | over whole years the amount is `n t` growth steps of `r / n` |
| CompoundInterest.OneYearAnnually | src/screens/CompoundInterestCalculator.js:12-31 | one year compounded annually adds exactly the yearly rate |
| CompoundInterest.Clear | src/screens/CompoundInterestCalculator.js:37-43 | fields blank, picker back to "Annually", amount unset; the principal and interest keep their old values |
| CompoundInterest.ClearThenCalculate | src/screens/CompoundInterestCalculator.js:23-30 | calculating after a clear only raises the alert |
| SimpleInterest.Calculate | src/screens/SimpleInterest.js:20-34 | an alert changes nothing; otherwise the rounded principal, interest `P R T / 100` and total, fields kept |
| SimpleInterest.ZeroFactor | src/screens/SimpleInterest.js:28 | no principal, rate or time earns nothing |
| SimpleInterest.Linear | src/screens/SimpleInterest.js:28 | the interest is linear in principal, rate and time |
| SimpleInterest.OneYear | src/screens/SimpleInterest.js:28-29 | one year at R percent adds R / 100 of the principal |
| SimpleInterest.TotalAddsUp | src/screens/SimpleInterest.js:29-32 | the shown principal and interest add up to the shown total, to within one unit |
| SimpleInterest.Clear | src/screens/SimpleInterest.js:35-42 | fields blank and all three results unset |
| SimpleInterest.ClearThenCalculate | src/screens/SimpleInterest.js:21-27 | calculating after a clear only raises the alert |
| Volume.Fields | src/screens/VolumeCalculator.js:23-53 | every shape reads at least one field |
| Volume.Of | src/screens/VolumeCalculator.js:21-56 | a volume exists exactly when every field the shape reads parses |
| Volume.Shown | src/screens/VolumeCalculator.js:57 | 'Invalid input' exactly for NaN or 0, otherwise the volume |
| Volume.InputChange | src/screens/VolumeCalculator.js:16-20 | the typed field is stored, the others kept, and the result recomputed from the stored fields |
| Volume.Select | src/screens/VolumeCalculator.js:59-63 | picking a shape clears every field and the result |
| Volume.FirstOfSeveral | src/screens/VolumeCalculator.js:16-63 | right after picking a shape with several fields, the first field typed still shows 'Invalid input' |
| Volume.ConeThirdOfCylinder | src/screens/VolumeCalculator.js:38-47 | a cone is a third of the cylinder on the same radius and height |
| Volume.PyramidThirdOfBox | src/screens/VolumeCalculator.js:28-52 | a pyramid is a third of the box with its base and height |
| Volume.PositiveSizes | src/screens/VolumeCalculator.js:24-57 | positive sizes give positive volumes, which are shown |
| Volume.CubeDoubling | src/screens/VolumeCalculator.js:24-27 | doubling a cube's side makes it eight times the volume |
| Distance.Factor | src/screens/DistanceCalculator.js:18-30 | every conversion factor is positive |
| Distance.Calculate | src/screens/DistanceCalculator.js:10-35 | 'Invalid Input' exactly when the value does not parse; otherwise the value times the factor, with its unit |
| Distance.Linear | src/screens/DistanceCalculator.js:20-28 | each conversion maps 0 to 0, adds up and keeps order |
| Distance.RoundTrip | src/screens/DistanceCalculator.js:20-24 | kilometres to miles and back loses less than three millionths: the two factors are not exact inverses |
| Distance.Clear | src/screens/DistanceCalculator.js:37-40 | input and output blank; the conversion stays |
| Distance.ClearThenCalculate | src/screens/DistanceCalculator.js:11-14 | converting after a clear shows 'Invalid Input' |
| Percentage.Calculate | src/screens/CalculatorPercentage.tsx:12-22 | 'Invalid input' exactly when a value does not parse or the whole is 0; otherwise the percentage that times the whole gives 100 times the part; the flag is raised |
| Percentage.Extremes | src/screens/CalculatorPercentage.tsx:16 | the whole is 100% of itself and 0 is 0% |
| Percentage.Clear | src/screens/CalculatorPercentage.tsx:24-29 | both fields blank, no result, flag down |
| Percentage.ClearThenCalculate | src/screens/CalculatorPercentage.tsx:13-21 | calculating after a clear shows 'Invalid input' with the flag raised |
| FuelEfficiency.Calculate | src/screens/FuelEfficiencyCalculator.js:14-23 | 'Invalid input' exactly when a value does not parse or the fuel is 0; otherwise the efficiency that times the fuel gives the distance |
| FuelEfficiency.Proportional | src/screens/FuelEfficiencyCalculator.js:14-23 | the screen's result is positive for positive inputs, and doubles when the distance doubles on the same fuel |
| FuelEfficiency.Clear | src/screens/FuelEfficiencyCalculator.js:26-30 | both fields blank and no result |
| FuelEfficiency.ClearThenCalculate | src/screens/FuelEfficiencyCalculator.js:15-21 | calculating after a clear shows 'Invalid input' |
| VoltageDivider.AsWritten | src/screens/VoltageDividerCalculator.js:12-19 | as written: blank unless all fields are filled; a voltage times the `parseInt` sum of the resistances gives Vin times R2 read with `Number` |
| VoltageDivider.AsWrittenExceedsInput | src/screens/VoltageDividerCalculator.js:14 | Vin "10", R1 "0", R2 "1.5" give 15 V out of 10 V |
| VoltageDivider.Calculate | src/screens/VoltageDividerCalculator.js:12-19 | blank unless all fields are filled, NaN when a value does not parse or the resistances sum to 0, otherwise `Vin R2 / (R1 + R2)` |
| VoltageDivider.WithinInput | src/screens/VoltageDividerCalculator.js:14 | the corrected divider's output lies between 0 and the input, and is the input when R1 is 0 |
| VoltageDivider.AgreeOnWholeResistances | src/screens/VoltageDividerCalculator.js:14 | on whole-number resistances the code as written and the corrected one agree |
| VoltageDivider.Clear | src/screens/VoltageDividerCalculator.js:21-26 | all four fields blank |
| VoltageDivider.ClearThenCalculate | src/screens/VoltageDividerCalculator.js:13-17 | calculating after a clear leaves the output blank |
| Capacitor.Calculate | src/screens/CapacitorCalculator.js:13-27 | blank unless both fields are filled, NaN when one does not parse, otherwise the energy that times 2000 gives `C V^2` |
| Capacitor.EnergyShape | src/screens/CapacitorCalculator.js:20 | non-negative for a non-negative capacitance, even in the voltage, and quadrupled by doubling the voltage |
| Capacitor.Clear | src/screens/CapacitorCalculator.js:30-34 | both fields and the energy blank |
| Capacitor.ClearThenCalculate | src/screens/CapacitorCalculator.js:15-25 | calculating after a clear keeps the energy blank |
| Sip.Chart | src/screens/SIPCalculator.js:88-94 | one chart point per year, point `i` for year `i + 1` |
| CompoundInterest.PerYear | src/screens/CompoundInterestCalculator.js:12-18 | each frequency compounds 1, 2, 4, 12 or 365 times a year |
| Retirement.Split | src/screens/RetirementCalculator.js:77 | `split(': ')` always gives at least one part |

## Left out

- Rendering, styling, focus handling, navigation, the chart drawing and the pie-chart labels are left out. They hold no logic.
- `toFixed`, `toLocaleString('en-IN')` and `toString` of numbers are not modelled. They appear only as parameters (`show`, `locale`) or are dropped.
- IEEE-754 floating point is replaced by exact reals. NaN becomes `None` or an explicit outcome. An infinity is modelled as an outcome carrying its sign only, where a screen's main figure becomes one: the ratio screen's division by zero (`Numeric.Number`), the interest screen's estimate over a zero-month term (`InterestCalculator.Estimate`), Retirement's zero base raised to a negative power, the EMI screen's payment over a zero rate or zero term (`Emi.Calculate`), and the loan screen's principal at −1200% (`LoanCalculator.Calculate`).
- `Emi.Calculate`, `LoanCalculator.Calculate`: the `Unbounded` outcome records only the sign of the infinite main figure. The other figures, which are NaN or infinite, and the chart rows are not modelled.
- `VoltageDivider.AsWritten`: folds an infinite output into `NotANumber`. When the `parseInt` sum of the resistances is 0 and Vin·R2 is not, JavaScript shows "Infinity" or "-Infinity" (VoltageDividerCalculator.js:14).
- The parameter `pow` is real-valued, so it cannot give the Infinity or NaN that `Math.pow` gives for a zero base with a negative exponent. On the FD, Savings, Inflation, MutualFund and CompoundInterest screens this needs a rate of −100% per period together with a negative duration.
- NaN propagation is coarsened on the Investment screen, which has no validation: any unparseable field makes every figure NaN, although JavaScript can still compute a figure that does not use that field. The Insurance screen has no validation either, but each of its figures reads every field, so its NaN is exact. The Nps and DebtPayoff screens track NaN figure by figure.
- `Math.pow` with a fractional exponent is the parameter `pow`. This applies to the FD, Savings, Inflation, MutualFund and CompoundInterest screens; Dafny has no real exponentiation.
- `Investment.Calculate`: takes the duration in whole years. The source reads it with `parseFloat`. A fractional duration there runs the recurring loop `ceil(12 * years)` times but draws only `floor(years)` chart points, and a negative duration gives an empty loop and chart.
- `Sip.Calculate`: takes the number of years as a whole number of either sign. The source reads it with `parseFloat`, so a fractional number of years gives a fractional exponent, and the chart then has `floor(years)` points, as `Array.from` truncates its length. The chart length reads the field with `Number` while the figures use `parseFloat`, so a text such as "5 years" gives figures for 5 years and an empty chart; the model reads both the same way.
- Math.PI is the positive constant parameter `pi` in `Volume`. The scientific keypad's trigonometry, logarithms, `eval`, the regular-expression rewriting and the degree/radian toggle are not modelled; evaluation is the parameter `eval`.
- mathjs `evaluate` in the basic keypad is the parameter `eval`, which returns a result's text, an error or `undefined`.
- The formatter is modelled on its domain, 0 <= n < 10^9. The screens that hand it a negative amount, the raw deposit text, or 10^9 or more (budget, tax, income tax, debt payoff, FD) are outside that domain. The model states the condition (`Tax.NegativeTax`, `IndianWords.DomainIsLimit`) rather than JavaScript's coercions.
- `Volume`: the `default` branch ('Invalid shape') is unreachable, because inputs render only after a shape is chosen.
- `CompoundInterest.Calculate`: has no unknown-frequency alert. The picker only offers the keys of `frequencyMap`, so the frequency is always known.
- `LoanTenure.Calculate`, `DebtPayoff.Calculate`: their repayability guard is exact for monthly rates above −100% (`Amortization.LoopEndsIffRepayable`). At −100% a month or below (an annual rate of −1200% or below) the source's loop can end where the guard reports `EmiTooSmall`; `Amortization.MinusHundredEnds` shows one such input.
- `Ratio.Quotient`: a divisor typed "-0" is the same 0 as "0", because reals have no negative zero; JavaScript would flip the sign of the infinity.
- `BasicKeypad.UpdateHistoryItem`, `BasicKeypad.Operate`: an edit index past the end of the history appends the line, both when a line is updated and on '='. This index can only be stale after Clear History. JavaScript would write past the end of the array and leave holes.
- `ScientificKeypad.Operate`: 'Ans' on a history line with fewer than three space-separated pieces leaves the screen unchanged. The source would set the input to `undefined`. Every line the keypad records has at least three pieces.
- React's asynchronous `setState`, and its in-place mutation of shared state objects, are modelled as one atomic state change per handler.
- The date-difference, age and CAGR screens are not part of this model. They are built on a date library, the system clock and a fractional power respectively.

## Findings

| source | as written | input that shows it | evidently intended | confidence | as-written member | corrected member |
|---|---|---|---|---|---|---|
| src/screens/LoanTenure.js:70-83 | `while (balance > 0)` has no check that the EMI covers the interest | loan 100000 at 12% a year with an EMI of 500: interest is 1000 a month and the balance only grows | report that the EMI can never repay the loan | not executed | LoanTenure.AsWrittenNeverEnds | LoanTenure.Calculate |
| src/screens/DebtPayoffCalculator.js:83-98 | the payoff loop has no check that the payment covers the interest | balance 5000 at 24% a year with a payment of 50: interest is 100 a month | report that the payment never clears the debt | not executed | DebtPayoff.AsWrittenNeverEnds | DebtPayoff.Calculate |
| src/screens/ScientificCalculator.tsx:46 | BACK's function pattern lists `sqrt`, but the √ key writes `√(` | "9+" then √ then BACK leaves "9+√" | BACK removes the whole `√(` token, as it does for every other function key | not executed | ScientificKeypad.BackLeavesRoot | ScientificKeypad.FunctionThenBack |
| src/screens/VoltageDividerCalculator.js:14 | the numerator reads R2 with `Number`, the denominator with `parseInt` | Vin "10", R1 "0", R2 "1.5" gives 15 V out of a 10 V input | both read the same R2, so the output never exceeds the input | not executed | VoltageDivider.AsWritten, VoltageDivider.AsWrittenExceedsInput | VoltageDivider.Calculate, VoltageDivider.WithinInput |

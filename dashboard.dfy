/**
 * The dashboard's figures (src/app/dashboard/page.tsx,
 * `fetchDataAndUpdateDashboard`): all-time balance, this month's income and
 * expenses, budget utilisation, and income and expenses for the last six
 * months, oldest first. It reads the keys "remindme_expenses" and
 * "remindme_income_transactions"; "today" is a parameter.
 */
module Dashboard {
  import opened Dates
  import opened Storage
  import opened Records

  /** One bar of the chart; `month` is the month number in place of its Spanish name. */
  datatype MonthlySummary = MonthlySummary(month: int, year: int, expenses: real, income: real)

  /** The values the page stores in its React state. */
  datatype DashboardView = DashboardView(
    totalBalance: real, monthlyIncome: real, monthlyExpenses: real,
    budgetUtilization: int, chart: seq<MonthlySummary>)

  // ---------------------------------------------------------------------
  // Sums and month filters

  /** `list.reduce((sum, tx) => sum + tx.amount, 0)` */
  function Total<T>(s: seq<T>, amountOf: T -> real): real {
    if s == [] then 0.0 else amountOf(s[0]) + Total(s[1..], amountOf)
  }

  lemma {:induction false} TotalAppend<T>(a: seq<T>, b: seq<T>, amountOf: T -> real)
    ensures Total(a + b, amountOf) == Total(a, amountOf) + Total(b, amountOf)
  {
    if a == [] {
      assert a + b == b;
    } else {
      assert (a + b)[0] == a[0];
      assert (a + b)[1..] == a[1..] + b;
      TotalAppend(a[1..], b, amountOf);
    }
  }

  /** Taking the record at `k` out of a list leaves the total less its amount. */
  lemma TotalRemoveAt<T>(b: seq<T>, k: int, amountOf: T -> real)
    requires 0 <= k < |b|
    ensures Total(b, amountOf) == amountOf(b[k]) + Total(b[..k] + b[k + 1..], amountOf)
  {
    var p, q := b[..k], b[k + 1..];
    var tail := [b[k]] + q;
    assert b == p + tail;
    assert tail[0] == b[k] && tail[1..] == q;
    TotalAppend(p, tail, amountOf);
    TotalAppend(p, q, amountOf);
  }

  /** Taking the record at `k` out of a list takes one copy of it out of the multiset. */
  lemma MultisetRemoveAt<T>(b: seq<T>, k: int)
    requires 0 <= k < |b|
    ensures multiset(b) == multiset(b[..k] + b[k + 1..]) + multiset{b[k]}
  {
    assert b == b[..k] + [b[k]] + b[k + 1..];
  }

  lemma MultisetCancel<T>(p: multiset<T>, q: multiset<T>, x: T)
    requires p + multiset{x} == q + multiset{x}
    ensures p == q
  {
    assert p == (p + multiset{x}) - multiset{x};
    assert q == (q + multiset{x}) - multiset{x};
  }

  /** In a permutation of `a`, some `b[k]` is `a[0]`, and the rest of `b` is a permutation of the rest of `a`. */
  lemma PermutationSplit<T>(a: seq<T>, b: seq<T>) returns (k: int)
    requires a != [] && multiset(a) == multiset(b)
    ensures 0 <= k < |b| && b[k] == a[0]
    ensures multiset(a[1..]) == multiset(b[..k] + b[k + 1..])
  {
    assert a[0] in multiset(b);
    k :| 0 <= k < |b| && b[k] == a[0];
    MultisetRemoveAt(b, k);
    MultisetRemoveAt(a, 0);
    assert a[..0] + a[1..] == a[1..];
    MultisetCancel(multiset(a[1..]), multiset(b[..k] + b[k + 1..]), a[0]);
  }

  /** The total does not depend on the order of the records. */
  lemma {:induction false} TotalPermutation<T>(a: seq<T>, b: seq<T>, amountOf: T -> real)
    requires multiset(a) == multiset(b)
    ensures Total(a, amountOf) == Total(b, amountOf)
  {
    if a != [] {
      var k := PermutationSplit(a, b);
      TotalPermutation(a[1..], b[..k] + b[k + 1..], amountOf);
      TotalRemoveAt(b, k, amountOf);
    }
  }

  /** `list.filter(tx => year and month of tx.date are ym's)` */
  function InMonth<T>(s: seq<T>, dateOf: T -> Date, ym: YearMonth): (r: seq<T>)
    ensures |r| <= |s|
    ensures forall i :: 0 <= i < |r| ==> MonthOf(dateOf(r[i])) == ym
    ensures forall i :: 0 <= i < |r| ==> r[i] in s
    ensures forall i :: 0 <= i < |s| && MonthOf(dateOf(s[i])) == ym ==> s[i] in r
  {
    if s == [] then []
    else
      var head := if MonthOf(dateOf(s[0])) == ym then [s[0]] else [];
      var rest := InMonth(s[1..], dateOf, ym);
      assert forall i :: 1 <= i < |s| ==> s[i] == s[1..][i - 1];
      assert forall i :: |head| <= i < |head + rest| ==> (head + rest)[i] == rest[i - |head|];
      head + rest
  }

  /** Filtering keeps each record of the month as many times as it occurs, and nothing else. */
  lemma {:induction false} InMonthCounts<T>(s: seq<T>, dateOf: T -> Date, ym: YearMonth)
    ensures multiset(InMonth(s, dateOf, ym)) <= multiset(s)
    ensures forall x :: MonthOf(dateOf(x)) == ym ==> multiset(InMonth(s, dateOf, ym))[x] == multiset(s)[x]
  {
    if s != [] {
      InMonthCounts(s[1..], dateOf, ym);
      var head := if MonthOf(dateOf(s[0])) == ym then [s[0]] else [];
      var rest := InMonth(s[1..], dateOf, ym);
      assert multiset(InMonth(s, dateOf, ym)) == multiset(head) + multiset(rest);
      assert s == [s[0]] + s[1..];
      assert multiset(s) == multiset{s[0]} + multiset(s[1..]);
    }
  }

  /** Sum of the amounts of the records dated in month `ym`. */
  function MonthTotal<T>(s: seq<T>, dateOf: T -> Date, amountOf: T -> real, ym: YearMonth): real {
    Total(InMonth(s, dateOf, ym), amountOf)
  }

  predicate NonNegative<T>(s: seq<T>, amountOf: T -> real) {
    forall i :: 0 <= i < |s| ==> amountOf(s[i]) >= 0.0
  }

  /** With non-negative amounts, one month's total lies between 0 and the all-time total. */
  lemma {:induction false} MonthTotalBounds<T>(s: seq<T>, dateOf: T -> Date, amountOf: T -> real, ym: YearMonth)
    requires NonNegative(s, amountOf)
    ensures 0.0 <= MonthTotal(s, dateOf, amountOf, ym) <= Total(s, amountOf)
  {
    if s != [] {
      MonthTotalBounds(s[1..], dateOf, amountOf, ym);
      var head := if MonthOf(dateOf(s[0])) == ym then [s[0]] else [];
      assert InMonth(s, dateOf, ym) == head + InMonth(s[1..], dateOf, ym);
      TotalAppend(head, InMonth(s[1..], dateOf, ym), amountOf);
    }
  }

  /** A record appended to the list adds its amount to the total of its own month only. */
  lemma MonthTotalAppend<T>(s: seq<T>, x: T, dateOf: T -> Date, amountOf: T -> real, ym: YearMonth)
    ensures MonthTotal(s + [x], dateOf, amountOf, ym)
         == MonthTotal(s, dateOf, amountOf, ym) + (if MonthOf(dateOf(x)) == ym then amountOf(x) else 0.0)
  {
    InMonthAppend(s, [x], dateOf, ym);
    TotalAppend(InMonth(s, dateOf, ym), InMonth([x], dateOf, ym), amountOf);
  }

  lemma {:induction false} InMonthAppend<T>(a: seq<T>, b: seq<T>, dateOf: T -> Date, ym: YearMonth)
    ensures InMonth(a + b, dateOf, ym) == InMonth(a, dateOf, ym) + InMonth(b, dateOf, ym)
  {
    if a == [] {
      assert a + b == b;
    } else {
      assert (a + b)[0] == a[0];
      assert (a + b)[1..] == a[1..] + b;
      InMonthAppend(a[1..], b, dateOf, ym);
    }
  }

  // ---------------------------------------------------------------------
  // Budget utilisation

  /**
   * `parseFloat(x.toFixed(0))`: the nearest integer, halves rounded away from
   * zero.
   */
  function ToFixed0(x: real): (n: int)
    ensures x - 0.5 <= n as real <= x + 0.5
    ensures x >= 0.0 ==> x - 0.5 < n as real
    ensures x < 0.0 ==> n as real < x + 0.5
  {
    if x >= 0.0 then (x + 0.5).Floor else -((-x + 0.5).Floor)
  }

  function Min(a: real, b: real): real {
    if a <= b then a else b
  }

  lemma RatioAtLeastOne(a: real, b: real)
    requires b > 0.0 && a >= b
    ensures a / b >= 1.0
  {
    assert a / b * b == a;
  }

  lemma RatioMonotone(a1: real, a2: real, b: real)
    requires b > 0.0 && a1 <= a2
    ensures a1 / b <= a2 / b
  {
    assert a1 / b * b == a1;
    assert a2 / b * b == a2;
  }

  /**
   * The share of this month's income already spent, in whole percent and
   * capped at 100; with no income, 100 if anything was spent and 0 otherwise.
   */
  function BudgetUtilization(income: real, expenses: real): (u: int)
    ensures u <= 100
    ensures income > 0.0 && expenses >= 0.0 ==> 0 <= u
    ensures income > 0.0 && expenses >= income ==> u == 100
    ensures income > 0.0 && expenses < income ==>
      expenses / income * 100.0 - 0.5 <= u as real <= expenses / income * 100.0 + 0.5
    ensures income > 0.0 && 0.0 <= expenses < income ==>
      expenses / income * 100.0 - 0.5 < u as real <= expenses / income * 100.0 + 0.5
    ensures income <= 0.0 ==> (u == 100 <==> expenses > 0.0) && (u == 0 <==> expenses <= 0.0)
  {
    if income > 0.0 then
      if expenses >= income then
        RatioAtLeastOne(expenses, income);
        ToFixed0(Min(expenses / income * 100.0, 100.0))
      else
        RatioMonotone(expenses, income, income);
        assert income / income == 1.0;
        ToFixed0(Min(expenses / income * 100.0, 100.0))
    else if expenses > 0.0 then 100
    else 0
  }

  /** With income fixed and positive, spending more never lowers utilisation. */
  lemma UtilizationMonotone(income: real, e1: real, e2: real)
    requires income > 0.0 && e1 <= e2
    ensures BudgetUtilization(income, e1) <= BudgetUtilization(income, e2)
  {
    RatioMonotone(e1, e2, income);
    var p1 := Min(e1 / income * 100.0, 100.0);
    var p2 := Min(e2 / income * 100.0, 100.0);
    assert p1 <= p2;
    if p1 >= 0.0 {
      assert (p1 + 0.5).Floor <= (p2 + 0.5).Floor;
    } else if p2 >= 0.0 {
      assert ToFixed0(p1) <= 0;
    } else {
      assert (-p2 + 0.5).Floor <= (-p1 + 0.5).Floor;
    }
  }

  // ---------------------------------------------------------------------
  // The months of the chart

  /**
   * `new Date(today)` then `setMonth(m0)`: month `m0` counted from 0 in
   * today's year, any integer, with whole years carried; the day of the month
   * is kept, and a day past the end of the target month runs on into the
   * next month.
   */
  function SetMonth(today: Date, m0: int): (r: Date)
    requires ValidDate(today)
    ensures ValidDate(r)
    ensures MonthIndex(MonthOf(r)) == today.year * 12 + m0 || MonthIndex(MonthOf(r)) == today.year * 12 + m0 + 1
    ensures r.day == today.day <==> MonthIndex(MonthOf(r)) == today.year * 12 + m0
    ensures today.day <= 28 ==> MonthIndex(MonthOf(r)) == today.year * 12 + m0
  {
    var target := MonthAt(today.year * 12 + m0);
    var n := DaysInMonth(target.year, target.month);
    if today.day <= n then Date(target.year, target.month, today.day)
    else
      var next := NextMonth(target);
      Date(next.year, next.month, today.day - n)
  }

  /** The month the source charts at loop step `i`: `setMonth(getMonth() - i)`. */
  function ChartMonthAsWritten(today: Date, i: int): (ym: YearMonth)
    requires ValidDate(today)
    ensures ValidMonth(ym)
    ensures MonthIndex(ym) == MonthIndex(MonthOf(today)) - i || MonthIndex(ym) == MonthIndex(MonthOf(today)) - i + 1
    ensures today.day <= 28 ==> MonthIndex(ym) == MonthIndex(MonthOf(today)) - i
  {
    MonthOf(SetMonth(today, today.month - 1 - i))
  }

  /** The month meant at loop step `i`: `i` calendar months before today's. */
  function ChartMonth(today: Date, i: int): (ym: YearMonth)
    ensures ValidMonth(ym)
    ensures MonthIndex(ym) == MonthIndex(MonthOf(today)) - i
  {
    MonthsBefore(MonthOf(today), i)
  }

  /** Up to the 28th the source's computation is the intended one. */
  lemma ChartMonthAgrees(today: Date, i: int)
    requires ValidDate(today) && today.day <= 28
    ensures ChartMonthAsWritten(today, i) == ChartMonth(today, i)
  {
    var target := MonthAt(today.year * 12 + today.month - 1 - i);
    assert MonthIndex(target) == MonthIndex(ChartMonth(today, i));
    MonthIndexInjective(target, ChartMonth(today, i));
  }

  /**
   * On 31 March 2025 the source charts March for one month back (31 February
   * runs on to 3 March), so March appears twice and February not at all.
   */
  lemma ChartMonthOverflows()
    ensures ChartMonthAsWritten(Date(2025, 3, 31), 1) == YearMonth(2025, 3)
    ensures ChartMonthAsWritten(Date(2025, 3, 31), 0) == YearMonth(2025, 3)
    ensures ChartMonth(Date(2025, 3, 31), 1) == YearMonth(2025, 2)
  {
    var today := Date(2025, 3, 31);
    assert MonthAt(2025 * 12 + 1) == YearMonth(2025, 2);
    assert MonthAt(2025 * 12 + 2) == YearMonth(2025, 3);
    assert !IsLeapYear(2025);
  }

  /** The chart months: oldest five months back, the last one today's, each the month after the one before. */
  lemma ChartMonthsConsecutive(today: Date)
    requires ValidDate(today)
    ensures ChartMonth(today, 0) == MonthOf(today)
    ensures forall i :: 0 <= i < 5 ==> NextMonth(ChartMonth(today, i + 1)) == ChartMonth(today, i)
  {
    MonthsBeforeZero(MonthOf(today));
    forall i | 0 <= i < 5
      ensures NextMonth(ChartMonth(today, i + 1)) == ChartMonth(today, i)
    {
      MonthsBeforeStep(MonthOf(today), i);
    }
  }

  /** One chart entry: the income and expense totals of month `ym`. */
  function SummaryFor(incomes: seq<IncomeTransaction>, expenses: seq<Expense>, ym: YearMonth): MonthlySummary {
    MonthlySummary(ym.month, ym.year,
      MonthTotal(expenses, ExpenseDate, ExpenseAmount, ym),
      MonthTotal(incomes, IncomeDate, IncomeAmount, ym))
  }

  // ---------------------------------------------------------------------
  // The page's refresh

  /**
   * `fetchDataAndUpdateDashboard`: a list that is absent or does not parse
   * counts as empty; the chart is built by a loop over i = 5 down to 0, using
   * the calendar month i months back (see ChartMonthAsWritten for what the
   * source computes from the 29th on).
   */
  method FetchDataAndUpdateDashboard(
    storedExpenses: Stored<seq<Expense>>, storedIncome: Stored<seq<IncomeTransaction>>, today: Date)
    returns (view: DashboardView)
    requires ValidDate(today)
    ensures view.totalBalance
         == Total(OrEmpty(storedIncome), IncomeAmount) - Total(OrEmpty(storedExpenses), ExpenseAmount)
    ensures view.monthlyIncome == MonthTotal(OrEmpty(storedIncome), IncomeDate, IncomeAmount, MonthOf(today))
    ensures view.monthlyExpenses == MonthTotal(OrEmpty(storedExpenses), ExpenseDate, ExpenseAmount, MonthOf(today))
    ensures view.budgetUtilization == BudgetUtilization(view.monthlyIncome, view.monthlyExpenses)
    ensures |view.chart| == 6
    ensures forall k :: 0 <= k < 6 ==>
      view.chart[k] == SummaryFor(OrEmpty(storedIncome), OrEmpty(storedExpenses), ChartMonth(today, 5 - k))
    ensures view.chart[5].year == today.year && view.chart[5].month == today.month
    ensures forall k :: 0 <= k < 5 ==>
      YearMonth(view.chart[k + 1].year, view.chart[k + 1].month)
        == NextMonth(YearMonth(view.chart[k].year, view.chart[k].month))
    ensures !storedIncome.Present? && !storedExpenses.Present? ==>
      view.totalBalance == 0.0 && view.monthlyIncome == 0.0 && view.monthlyExpenses == 0.0 &&
      view.budgetUtilization == 0 &&
      forall k :: 0 <= k < 6 ==> view.chart[k].income == 0.0 && view.chart[k].expenses == 0.0
  {
    var expenses := OrEmpty(storedExpenses);
    var incomes := OrEmpty(storedIncome);

    var balance := Total(incomes, IncomeAmount) - Total(expenses, ExpenseAmount);

    var current := MonthOf(today);
    var monthIncome := MonthTotal(incomes, IncomeDate, IncomeAmount, current);
    var monthExpenses := MonthTotal(expenses, ExpenseDate, ExpenseAmount, current);
    var utilization := BudgetUtilization(monthIncome, monthExpenses);

    var chart := BuildChart(incomes, expenses, today);
    if !storedIncome.Present? && !storedExpenses.Present? {
      NoRecordsNoTotals(today, chart);
    }
    ChartMonthsConsecutive(today);
    view := DashboardView(balance, monthIncome, monthExpenses, utilization, chart);
  }

  /** The chart loop: for i = 5 down to 0, the summary of the month i months back. */
  method BuildChart(incomes: seq<IncomeTransaction>, expenses: seq<Expense>, today: Date)
    returns (chart: seq<MonthlySummary>)
    ensures |chart| == 6
    ensures forall k :: 0 <= k < 6 ==> chart[k] == SummaryFor(incomes, expenses, ChartMonth(today, 5 - k))
  {
    chart := [];
    var i := 5;
    while i >= 0
      invariant -1 <= i <= 5
      invariant |chart| == 5 - i
      invariant forall k :: 0 <= k < |chart| ==> chart[k] == SummaryFor(incomes, expenses, ChartMonth(today, 5 - k))
    {
      chart := chart + [SummaryFor(incomes, expenses, ChartMonth(today, i))];
      i := i - 1;
    }
  }

  /** With no records every chart entry is zero. */
  lemma NoRecordsNoTotals(today: Date, chart: seq<MonthlySummary>)
    requires |chart| == 6
    requires forall k :: 0 <= k < 6 ==> chart[k] == SummaryFor([], [], ChartMonth(today, 5 - k))
    ensures forall k :: 0 <= k < 6 ==> chart[k].income == 0.0 && chart[k].expenses == 0.0
  {
  }
}

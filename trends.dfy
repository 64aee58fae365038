/**
 * `TrendsSection` (src/components/TrendsSection.tsx): twelve monthly rows
 * ending at the current month (`generateHistoricalData`), the running
 * balance, the averages, the count of non-negative months and the savings
 * rate.
 */
module Trends {
  import opened Calendar
  import opened Entities
  import opened Ledger
  import Dashboard

  /** The three type tags the monthly filters compare against. */
  datatype Tags = Tags(income: string, expense: string, saving: string)

  /** The tags the component tests: the dialog's tab names. */
  const WRITTEN_TAGS: Tags := Tags("income", "expense", "saving")
  /** The tags the store holds. */
  const STORED_TAGS: Tags := Tags(INGRESO, GASTO, AHORRO)

  /** One entry of `months`. */
  datatype MonthRow = MonthRow(
    when: YearMonth,
    income: real,
    expenses: real,
    savings: real,
    balance: real,
    balancePositive: real,
    balanceNegative: real)

  function KindTotal(s: seq<Transaction>, ym: YearMonth, kind: string): real {
    Total(Where(MonthTransactions(s, ym.year, ym.month), Dashboard.KindIs(kind)))
  }

  /**
   * A row's balance is income minus expenses minus savings, split into a
   * positive and a negative part of which at most one is non-zero.
   */
  predicate BalanceSplit(r: MonthRow) {
    && r.balance == r.income - r.expenses - r.savings
    && r.balancePositive - r.balanceNegative == r.balance
    && r.balancePositive >= 0.0 && r.balanceNegative >= 0.0
    && (r.balancePositive == 0.0 || r.balanceNegative == 0.0)
  }

  /** The row of one calendar month. */
  function RowOf(s: seq<Transaction>, ym: YearMonth, tags: Tags): (r: MonthRow)
    ensures r.when == ym && BalanceSplit(r)
  {
    var income := KindTotal(s, ym, tags.income);
    var expenses := KindTotal(s, ym, tags.expense);
    var savings := KindTotal(s, ym, tags.saving);
    var balance := income - expenses - savings;
    MonthRow(ym, income, expenses, savings, balance,
      if balance >= 0.0 then balance else 0.0,
      if balance < 0.0 then -balance else 0.0)
  }

  /**
   * The rows for the twelve months ending at `(year, month)`, oldest first,
   * the `k`-th dated `11 - k` months back, each with its balance split.
   */
  function History(s: seq<Transaction>, year: int, month: int, tags: Tags): (h: seq<MonthRow>)
    ensures |h| == 12
    ensures forall k :: 0 <= k < 12 ==> h[k].when == ShiftMonth(year, month, k - 11) && BalanceSplit(h[k])
  {
    seq(12, k requires 0 <= k < 12 => RowOf(s, ShiftMonth(year, month, k - 11), tags))
  }

  /**
   * `generateHistoricalData`: the loop from `i = 11` down to `0` pushing the
   * row of the month `i` months before the current one (`year`, `month`
   * stand for `new Date()`).
   */
  method GenerateHistoricalData(s: seq<Transaction>, year: int, month: int, tags: Tags) returns (months: seq<MonthRow>)
    ensures months == History(s, year, month, tags)
  {
    months := [];
    var i := 11;
    while i >= 0
      invariant -1 <= i <= 11
      invariant |months| == 11 - i
      invariant RowsBack(months, s, year, month, tags)
    {
      var date := ShiftMonth(year, month, -i);
      PushRow(months, s, year, month, tags);
      months := months + [RowOf(s, date, tags)];
      i := i - 1;
    }
    HistoryByRows(months, s, year, month, tags);
  }

  /** The `k`-th row is the row of the month `11 - k` months back. */
  predicate RowsBack(rows: seq<MonthRow>, s: seq<Transaction>, year: int, month: int, tags: Tags) {
    forall k :: 0 <= k < |rows| ==> rows[k] == RowOf(s, ShiftMonth(year, month, k - 11), tags)
  }

  lemma PushRow(rows: seq<MonthRow>, s: seq<Transaction>, year: int, month: int, tags: Tags)
    requires RowsBack(rows, s, year, month, tags)
    ensures RowsBack(rows + [RowOf(s, ShiftMonth(year, month, |rows| - 11), tags)], s, year, month, tags)
  {
  }

  /** Twelve rows, the `k`-th being the row `11 - k` months back, are the history. */
  lemma HistoryByRows(rows: seq<MonthRow>, s: seq<Transaction>, year: int, month: int, tags: Tags)
    requires |rows| == 12 && RowsBack(rows, s, year, month, tags)
    ensures rows == History(s, year, month, tags)
  {
  }

  /**
   * The series covers twelve consecutive months, oldest first, the last
   * being the current month; each row's balance is income minus expenses
   * minus savings, split into a positive and a negative part of which at
   * most one is non-zero.
   */
  lemma HistoryShape(s: seq<Transaction>, year: int, month: int, tags: Tags)
    requires 0 <= month < 12
    ensures var h := History(s, year, month, tags);
      |h| == 12 && h[11].when == YearMonth(year, month)
    ensures var h := History(s, year, month, tags);
      forall k :: 0 <= k < 11 ==> MonthIndex(h[k + 1].when.year, h[k + 1].when.month) == MonthIndex(h[k].when.year, h[k].when.month) + 1
    ensures var h := History(s, year, month, tags);
      forall k :: 0 <= k < 12 ==> BalanceSplit(h[k])
  {
    ShiftByZero(year, month);
    var h := History(s, year, month, tags);
    forall k | 0 <= k < 11
      ensures MonthIndex(h[k + 1].when.year, h[k + 1].when.month) == MonthIndex(h[k].when.year, h[k].when.month) + 1
    {
      var a, b := ShiftMonth(year, month, k - 11), ShiftMonth(year, month, k + 1 - 11);
      assert h[k].when == a && h[k + 1].when == b;
    }
  }

  /** `balances[0] + ... + balances[k - 1]`. */
  function Prefix(balances: seq<real>, k: nat): real
    requires k <= |balances|
  {
    if k == 0 then 0.0 else Prefix(balances, k - 1) + balances[k - 1]
  }

  function Balances(rows: seq<MonthRow>): (r: seq<real>)
    ensures |r| == |rows| && forall k :: 0 <= k < |rows| ==> r[k] == rows[k].balance
  {
    seq(|rows|, k requires 0 <= k < |rows| => rows[k].balance)
  }

  /**
   * `balanceHistory`: the `map` that adds each month's balance to
   * `runningBalance` and records it as that month's `cumulativeBalance`.
   */
  method BalanceHistory(rows: seq<MonthRow>) returns (cumulative: seq<real>, runningBalance: real)
    ensures |cumulative| == |rows|
    ensures forall k :: 0 <= k < |rows| ==> cumulative[k] == Prefix(Balances(rows), k + 1)
    ensures runningBalance == Prefix(Balances(rows), |rows|)
  {
    cumulative := [];
    runningBalance := 0.0;
    var k := 0;
    while k < |rows|
      invariant 0 <= k <= |rows|
      invariant |cumulative| == k && runningBalance == Prefix(Balances(rows), k)
      invariant forall j :: 0 <= j < k ==> cumulative[j] == Prefix(Balances(rows), j + 1)
    {
      runningBalance := runningBalance + rows[k].balance;
      cumulative := cumulative + [runningBalance];
      k := k + 1;
    }
  }

  /** `reduce` of one column divided by the number of months. */
  function Average(rows: seq<MonthRow>, column: MonthRow -> real): (r: real)
    requires |rows| > 0
    ensures r * |rows| as real == ColumnSum(rows, column)
  {
    ColumnSum(rows, column) / |rows| as real
  }

  function ColumnSum(rows: seq<MonthRow>, column: MonthRow -> real): real {
    if rows == [] then 0.0 else ColumnSum(rows[..|rows| - 1], column) + column(rows[|rows| - 1])
  }

  function IncomeColumn(): MonthRow -> real {
    (m: MonthRow) => m.income
  }

  function SavingsColumn(): MonthRow -> real {
    (m: MonthRow) => m.savings
  }

  /** A column that reads zero in every month sums to zero. */
  lemma {:induction false} ColumnSumZero(rows: seq<MonthRow>, column: MonthRow -> real)
    requires forall i :: 0 <= i < |rows| ==> column(rows[i]) == 0.0
    ensures ColumnSum(rows, column) == 0.0
  {
    if rows != [] {
      ColumnSumZero(rows[..|rows| - 1], column);
    }
  }

  function NonNegative(): MonthRow -> bool {
    (m: MonthRow) => m.balance >= 0.0
  }

  /** `historicalData.filter(month => month.balance >= 0).length`. */
  function PositiveMonths(rows: seq<MonthRow>): (n: nat)
    ensures n <= |rows|
  {
    |Where(rows, NonNegative())|
  }

  /** `avgIncome > 0 ? (avgSavings / avgIncome) * 100 : 0`. */
  function TrendSavingsRate(avgIncome: real, avgSavings: real): (r: real)
    ensures avgIncome <= 0.0 ==> r == 0.0
    ensures avgIncome > 0.0 ==> r * avgIncome == avgSavings * 100.0
  {
    if avgIncome > 0.0 then avgSavings / avgIncome * 100.0 else 0.0
  }

  /** Every stored type tag is one of the three the store holds. */
  predicate StoredKinds(s: seq<Transaction>) {
    forall t :: t in s ==> t.kind == INGRESO || t.kind == GASTO || t.kind == AHORRO
  }

  /**
   * As written, on stored transactions every month reads zero income,
   * expenses, savings and balance, so every month counts as non-negative
   * and the savings rate is 0.
   */
  lemma WrittenTagsGiveZero(s: seq<Transaction>, year: int, month: int)
    requires StoredKinds(s)
    ensures var h := History(s, year, month, WRITTEN_TAGS);
      forall k :: 0 <= k < 12 ==> h[k].income == 0.0 && h[k].expenses == 0.0 && h[k].savings == 0.0 && h[k].balance == 0.0
    ensures PositiveMonths(History(s, year, month, WRITTEN_TAGS)) == 12
    ensures var h := History(s, year, month, WRITTEN_TAGS);
      TrendSavingsRate(Average(h, IncomeColumn()), Average(h, SavingsColumn())) == 0.0
  {
    var h := History(s, year, month, WRITTEN_TAGS);
    forall k | 0 <= k < 12
      ensures h[k].income == 0.0 && h[k].expenses == 0.0 && h[k].savings == 0.0 && h[k].balance == 0.0
    {
      WrittenRowZero(s, ShiftMonth(year, month, k - 11));
    }
    WhereKeepsAll(h, NonNegative());
    ColumnSumZero(h, IncomeColumn());
  }

  lemma WrittenRowZero(s: seq<Transaction>, ym: YearMonth)
    requires StoredKinds(s)
    ensures var r := RowOf(s, ym, WRITTEN_TAGS);
      r.income == 0.0 && r.expenses == 0.0 && r.savings == 0.0 && r.balance == 0.0
  {
    var m := MonthTransactions(s, ym.year, ym.month);
    assert forall t :: t in m ==> t in s;
    WhereEmpty(m, Dashboard.KindIs("income"));
    WhereEmpty(m, Dashboard.KindIs("expense"));
    WhereEmpty(m, Dashboard.KindIs("saving"));
  }

  /**
   * With the stored tags, the current month's row reports the dashboard's
   * monthly income and expenses, and its savings are the month's AHORRO
   * total.
   */
  lemma StoredTagsMatchDashboard(s: seq<Transaction>, year: int, month: int)
    requires 0 <= month < 12
    ensures var h := History(s, year, month, STORED_TAGS);
      && h[11].income == Dashboard.MonthlyIncome(s, year, month)
      && h[11].expenses == Dashboard.MonthlyExpenses(s, year, month)
      && h[11].savings == Total(Where(MonthTransactions(s, year, month), Dashboard.KindIs(AHORRO)))
  {
    ShiftByZero(year, month);
  }
}

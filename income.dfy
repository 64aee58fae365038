/**
 * `IncomeSection` (src/components/IncomeSection.tsx): the month's income
 * and its total, the six-month chart, the per-category record and the
 * recent list.  The section receives the INGRESO transactions only.
 */
module Income {
  import opened Calendar
  import opened Entities
  import opened Ledger
  import Dashboard

  /** Given the INGRESO transactions, the section's total is the dashboard's `monthlyIncome`. */
  lemma MonthTotalIsMonthlyIncome(txs: seq<Transaction>, year: int, month: int)
    ensures MonthTotal(Where(txs, Dashboard.KindIs(INGRESO)), year, month) == Dashboard.MonthlyIncome(txs, year, month)
  {
    WhereCommutes(txs, Dashboard.KindIs(INGRESO), (t: Transaction) => InMonth(t, year, month));
  }

  /** One bar of the chart: a calendar month and the income dated in it. */
  datatype ChartPoint = ChartPoint(when: YearMonth, income: real)

  /** The bar `i` months before the selected one (`new Date(selectedYear, selectedMonth - i, 1)`). */
  function PointBefore(s: seq<Transaction>, year: int, month: int, i: int): ChartPoint {
    var ym := ShiftMonth(year, month, -i);
    ChartPoint(ym, MonthTotal(s, ym.year, ym.month))
  }

  /** `chartData`: six bars built newest first, then reversed. */
  function ChartData(s: seq<Transaction>, year: int, month: int): (r: seq<ChartPoint>)
    ensures |r| == 6
  {
    Reverse(seq(6, i requires 0 <= i < 6 => PointBefore(s, year, month, i)))
  }

  /**
   * The chart holds six consecutive calendar months, oldest first and
   * ending at the selected one, even across a year boundary; each bar is
   * the total of the income dated in its month.
   */
  lemma ChartDataCorrect(s: seq<Transaction>, year: int, month: int)
    requires 0 <= month < 12
    ensures var r := ChartData(s, year, month);
      r[5].when == YearMonth(year, month)
    ensures var r := ChartData(s, year, month);
      forall k :: 0 <= k < 5 ==> MonthIndex(r[k + 1].when.year, r[k + 1].when.month) == MonthIndex(r[k].when.year, r[k].when.month) + 1
    ensures var r := ChartData(s, year, month);
      forall k :: 0 <= k < 6 ==> 0 <= r[k].when.month < 12 && r[k].income == MonthTotal(s, r[k].when.year, r[k].when.month)
  {
    var built := seq(6, i requires 0 <= i < 6 => PointBefore(s, year, month, i));
    var r := ChartData(s, year, month);
    assert forall k :: 0 <= k < 6 ==> r[k] == PointBefore(s, year, month, 5 - k);
    ShiftByZero(year, month);
  }

  /** The per-category record of the month's income adds up to the month's total. */
  lemma CategoriesAddUp(s: seq<Transaction>, year: int, month: int)
    ensures SliceSum(CategoryTotals(MonthTransactions(s, year, month))) == MonthTotal(s, year, month)
    ensures DistinctNames(CategoryTotals(MonthTransactions(s, year, month)))
  {
    CategoryTotalsCorrect(MonthTransactions(s, year, month));
  }
}

/**
 * `ExpenseSection` (src/components/ExpenseSection.tsx): the month's
 * expenses, their total, the per-category record, the pie data sorted in
 * place and its top three, the daily and weekly averages and the weekly
 * bars.  The section receives the GASTO transactions only.
 */
module Expenses {
  import opened Numbers
  import opened Calendar
  import opened Entities
  import opened Ledger
  import Dashboard

  /** Given the GASTO transactions, the section's total is the dashboard's `monthlyExpenses`. */
  lemma MonthTotalIsMonthlyExpenses(txs: seq<Transaction>, year: int, month: int)
    ensures MonthTotal(Where(txs, Dashboard.KindIs(GASTO)), year, month) == Dashboard.MonthlyExpenses(txs, year, month)
  {
    WhereCommutes(txs, Dashboard.KindIs(GASTO), (t: Transaction) => InMonth(t, year, month));
  }

  /**
   * `expensesByCategory`: the `reduce` that adds each transaction's amount
   * to its category's entry of the record.
   */
  method GroupByCategory(s: seq<Transaction>) returns (acc: seq<Slice>)
    ensures acc == CategoryTotals(s)
    ensures DistinctNames(acc) && SliceSum(acc) == Total(s)
  {
    acc := [];
    var i := 0;
    while i < |s|
      invariant 0 <= i <= |s|
      invariant acc == CategoryTotals(s[..i])
    {
      assert s[..i + 1][..i] == s[..i];
      acc := AddToCategory(acc, s[i].category, s[i].amount);
      i := i + 1;
    }
    assert s[..i] == s;
    CategoryTotalsCorrect(s);
  }

  /** Values in non-increasing order, the order `(a, b) => b.value - a.value` sorts into. */
  predicate SortedDesc(s: seq<Slice>) {
    forall i, j :: 0 <= i < j < |s| ==> s[i].value >= s[j].value
  }

  /** `pieData.sort((a, b) => b.value - a.value)`, in place (an insertion sort). */
  method SortByValueDesc(a: array<Slice>)
    modifies a
    ensures SortedDesc(a[..])
    ensures multiset(a[..]) == multiset(old(a[..]))
  {
    var i := 0;
    while i < a.Length
      invariant 0 <= i <= a.Length
      invariant SortedDesc(a[..i])
      invariant multiset(a[..]) == multiset(old(a[..]))
    {
      InsertLeft(a, i);
      i := i + 1;
    }
    assert a[..i] == a[..];
  }

  /** Moves `a[i]` left past every smaller value, extending the sorted prefix by one. */
  method InsertLeft(a: array<Slice>, i: int)
    requires 0 <= i < a.Length && SortedDesc(a[..i])
    modifies a
    ensures SortedDesc(a[..i + 1])
    ensures multiset(a[..]) == multiset(old(a[..]))
  {
    var j := i;
    while j > 0 && a[j - 1].value < a[j].value
      invariant 0 <= j <= i
      invariant multiset(a[..]) == multiset(old(a[..]))
      invariant forall p, q :: 0 <= p < q <= i && p != j && q != j ==> a[p].value >= a[q].value
      invariant forall k :: j < k <= i ==> a[j].value > a[k].value
      invariant 0 < j < i ==> a[j - 1].value >= a[j + 1].value
    {
      Swap(a, j - 1, j);
      j := j - 1;
    }
  }

  /** Exchanges two neighbouring entries. */
  method Swap(a: array<Slice>, i: int, j: int)
    requires 0 <= i < j < a.Length
    modifies a
    ensures a[i] == old(a[j]) && a[j] == old(a[i])
    ensures forall k :: 0 <= k < a.Length && k != i && k != j ==> a[k] == old(a[k])
    ensures multiset(a[..]) == multiset(old(a[..]))
  {
    a[i], a[j] := a[j], a[i];
  }

  /**
   * `pieData` sorted by value and `topCategories = pieData.slice(0, 3)`:
   * the three largest categories, largest first.
   */
  method TopCategories(pieData: seq<Slice>) returns (sorted: seq<Slice>, top: seq<Slice>)
    ensures |sorted| == |pieData| && SortedDesc(sorted) && multiset(sorted) == multiset(pieData)
    ensures top == sorted[..if |pieData| < 3 then |pieData| else 3]
    ensures SortedDesc(top)
    ensures forall i, j :: 0 <= i < |top| <= j < |sorted| ==> top[i].value >= sorted[j].value
  {
    var a := new Slice[|pieData|](i requires 0 <= i < |pieData| => pieData[i]);
    assert a[..] == pieData;
    SortByValueDesc(a);
    sorted := a[..];
    assert |sorted| == |pieData| by { assert |multiset(sorted)| == |multiset(pieData)|; }
    top := sorted[..if |sorted| < 3 then |sorted| else 3];
  }

  /** `((value / totalMonthlyExpenses) * 100)` before formatting. */
  function Percentage(value: real, total: real): (p: Num)
    ensures total != 0.0 ==> p.Finite? && p.value * total == value * 100.0
  {
    var q := Div(value, total);
    if total == 0.0 then Scale(q, 100.0)
    else
      assert q.value * total == value;
      Scale(q, 100.0)
  }

  function PercentageSum(slices: seq<Slice>, total: real): real
    requires total != 0.0
  {
    if slices == [] then 0.0 else Percentage(slices[0].value, total).value + PercentageSum(slices[1..], total)
  }

  /** The shares add up to the sum of the values over the total, so to 100 % of the month. */
  lemma {:induction false} PercentageSumCorrect(slices: seq<Slice>, total: real)
    requires total != 0.0
    ensures PercentageSum(slices, total) * total == SliceSum(slices) * 100.0
  {
    if slices != [] {
      PercentageSumCorrect(slices[1..], total);
      var p := Percentage(slices[0].value, total).value;
      var rest := PercentageSum(slices[1..], total);
      assert (p + rest) * total == p * total + rest * total;
    }
  }

  lemma PercentagesAddUp(s: seq<Transaction>)
    requires Total(s) != 0.0
    ensures PercentageSum(CategoryTotals(s), Total(s)) == 100.0
  {
    var slices, total := CategoryTotals(s), Total(s);
    PercentageSumCorrect(slices, total);
    CancelFactor(PercentageSum(slices, total), 100.0, total);
  }

  lemma CancelFactor(x: real, y: real, t: real)
    requires t != 0.0 && x * t == y * t
    ensures x == y
  {
    assert (x - y) * t == 0.0;
  }

  /** `totalMonthlyExpenses / daysInMonth`. */
  function DailyAverage(total: real, year: int, month: int): (r: real)
    requires 0 <= month < 12
    ensures r * DaysInMonth(year, month) as real == total
  {
    total / DaysInMonth(year, month) as real
  }

  /** `dailyAverage * 7`. */
  function WeeklyAverage(total: real, year: int, month: int): (r: real)
    requires 0 <= month < 12
    ensures r * DaysInMonth(year, month) as real == 7.0 * total
  {
    var d := DailyAverage(total, year, month);
    assert d * 7.0 * DaysInMonth(year, month) as real == 7.0 * (d * DaysInMonth(year, month) as real);
    d * 7.0
  }

  /** `tDate >= weekStart && tDate <= weekEnd` for week `i` (days `7i + 1` to `7i + 7`). */
  function InWeek(year: int, month: int, i: int): Transaction -> bool {
    (t: Transaction) => AtOrBefore(Date(year, month, i * 7 + 1), t.date) && AtOrBefore(t.date, Date(year, month, (i + 1) * 7))
  }

  /** `Array.from({ length: k }, ...)`: the totals of the first `k` weeks of the month. */
  function Buckets(s: seq<Transaction>, year: int, month: int, k: nat): (r: seq<real>)
    ensures |r| == k
    ensures forall i :: 0 <= i < k ==> r[i] == Total(Where(s, InWeek(year, month, i)))
  {
    seq(k, i requires 0 <= i < k => Total(Where(s, InWeek(year, month, i))))
  }

  function Sum(r: seq<real>): real {
    if r == [] then 0.0 else Sum(r[..|r| - 1]) + r[|r| - 1]
  }

  /** `weeklyData` as written: four bars, days 1-7, 8-14, 15-21 and 22-28. */
  function WeeklyData(s: seq<Transaction>, year: int, month: int): (r: seq<real>)
    ensures |r| == 4
  {
    Buckets(s, year, month, 4)
  }

  /** Bars enough to cover every day of the month: one more for days 29 to 31 when the month has them. */
  function WeeklyDataCovering(s: seq<Transaction>, year: int, month: int): (r: seq<real>)
    requires 0 <= month < 12
    ensures |r| == if DaysInMonth(year, month) == 28 then 4 else 5
  {
    var weeks := CeilDiv(DaysInMonth(year, month), 7);
    assert weeks == if DaysInMonth(year, month) == 28 then 4 else 5;
    Buckets(s, year, month, weeks)
  }

  /** One more in-month transaction adds its amount to the bars exactly when its day is within the first `k` weeks. */
  lemma {:induction false} BucketsSnoc(s: seq<Transaction>, t: Transaction, year: int, month: int, k: nat)
    requires t.date.year == year && t.date.month == month
    ensures Sum(Buckets(s + [t], year, month, k))
      == Sum(Buckets(s, year, month, k)) + (if 1 <= t.date.day <= 7 * k then t.amount else 0.0)
  {
    if k > 0 {
      BucketsPrefix(s + [t], year, month, k);
      BucketsPrefix(s, year, month, k);
      BucketsSnoc(s, t, year, month, k - 1);
      TotalWhereSnoc(s, t, InWeek(year, month, k - 1));
    }
  }

  lemma BucketsPrefix(s: seq<Transaction>, year: int, month: int, k: nat)
    requires k > 0
    ensures Buckets(s, year, month, k)[..k - 1] == Buckets(s, year, month, k - 1)
  {
  }

  /** The first `k` bars add up to the total of the transactions dated in those weeks. */
  lemma {:induction false} BucketsTotal(s: seq<Transaction>, year: int, month: int, k: nat)
    requires forall t :: t in s ==> t.date.year == year && t.date.month == month
    ensures Sum(Buckets(s, year, month, k)) == Total(Where(s, (t: Transaction) => 1 <= t.date.day <= 7 * k))
  {
    if s == [] {
      BucketsEmpty(year, month, k);
    } else {
      var init := s[..|s| - 1];
      var t := s[|s| - 1];
      assert s == init + [t];
      assert forall x :: x in init ==> x in s;
      BucketsTotal(init, year, month, k);
      BucketsSnoc(init, t, year, month, k);
      TotalWhereSnoc(init, t, (t: Transaction) => 1 <= t.date.day <= 7 * k);
    }
  }

  lemma {:induction false} BucketsEmpty(year: int, month: int, k: nat)
    ensures Sum(Buckets([], year, month, k)) == 0.0
  {
    if k > 0 {
      BucketsEmpty(year, month, k - 1);
      assert Buckets([], year, month, k)[..k - 1] == Buckets([], year, month, k - 1);
    }
  }

  /** The four bars as written leave out every expense on days 29 to 31. */
  lemma WeeklyDataMissesLateDays(s: seq<Transaction>, year: int, month: int)
    requires forall t :: t in s ==> t.date.year == year && t.date.month == month
    ensures Sum(WeeklyData(s, year, month)) == Total(Where(s, (t: Transaction) => 1 <= t.date.day <= 28))
  {
    BucketsTotal(s, year, month, 4);
  }

  /** An expense on the 29th shows in the month's total and in no bar. */
  lemma LateDayCounterexample(t: Transaction, year: int, month: int)
    requires t.date == Date(year, month, 29) && t.amount > 0.0
    ensures MonthTotal([t], year, month) == t.amount
    ensures Sum(WeeklyData([t], year, month)) == 0.0
  {
    assert MonthTransactions([t], year, month) == [t];
    TotalSingle(t);
    WeeklyDataMissesLateDays([t], year, month);
    assert [t][..0] == [];
  }

  /** With the covering bars, the bars of a month's valid-dated expenses add up to the month's total. */
  lemma WeeklyDataCoveringSums(s: seq<Transaction>, year: int, month: int)
    requires 0 <= month < 12
    requires forall t :: t in s ==> ValidDate(t.date) && t.date.year == year && t.date.month == month
    ensures Sum(WeeklyDataCovering(s, year, month)) == MonthTotal(s, year, month)
  {
    var weeks := CeilDiv(DaysInMonth(year, month), 7);
    BucketsTotal(s, year, month, weeks);
    var p := (t: Transaction) => 1 <= t.date.day <= 7 * weeks;
    var inMonth := (t: Transaction) => InMonth(t, year, month);
    assert forall i :: 0 <= i < |s| ==> s[i] in s;
    WhereKeepsAll(s, p);
    WhereKeepsAll(s, inMonth);
  }
}

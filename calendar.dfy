/**
 * Calendar dates as the dashboard uses them.  A transaction date is a
 * (year, month, day) triple with the month counted from 0 like
 * JavaScript's `getMonth()`; a goal's target date is a parsed timestamp.
 */
module Calendar {

  /** A calendar day; `month` is 0 for January through 11 for December. */
  datatype Date = Date(year: int, month: int, day: int)

  /** A year and a month (0..11), the key of a monthly series. */
  datatype YearMonth = YearMonth(year: int, month: int)

  /** The result of `new Date(text).getTime()`: epoch milliseconds, or an unparseable text. */
  datatype Stamp = At(ms: int) | Invalid

  const MS_PER_DAY: int := 1000 * 60 * 60 * 24

  predicate IsLeapYear(year: int) {
    year % 4 == 0 && (year % 100 != 0 || year % 400 == 0)
  }

  /** `new Date(year, month + 1, 0).getDate()`: the length of the month. */
  function DaysInMonth(year: int, month: int): (n: int)
    requires 0 <= month < 12
    ensures 28 <= n <= 31
    ensures n == 29 <==> month == 1 && IsLeapYear(year)
    ensures n == 28 <==> month == 1 && !IsLeapYear(year)
  {
    if month == 1 then (if IsLeapYear(year) then 29 else 28)
    else if month == 3 || month == 5 || month == 8 || month == 10 then 30
    else 31
  }

  predicate ValidDate(d: Date) {
    0 <= d.month < 12 && 1 <= d.day <= DaysInMonth(d.year, d.month)
  }

  /** `a <= b` on dates: lexicographic on (year, month, day). */
  predicate AtOrBefore(a: Date, b: Date) {
    a.year < b.year
    || (a.year == b.year && a.month < b.month)
    || (a.year == b.year && a.month == b.month && a.day <= b.day)
  }

  /** The position of a month on a single line of months. */
  function MonthIndex(year: int, month: int): int {
    year * 12 + month
  }

  /** `new Date(year, month + delta, 1)`: JavaScript normalises the month into 0..11. */
  function ShiftMonth(year: int, month: int, delta: int): (r: YearMonth)
    ensures 0 <= r.month < 12
    ensures MonthIndex(r.year, r.month) == MonthIndex(year, month) + delta
  {
    var k := MonthIndex(year, month) + delta;
    YearMonth(k / 12, k % 12)
  }

  /** Shifting a normalised month by nothing gives it back. */
  lemma ShiftByZero(year: int, month: int)
    requires 0 <= month < 12
    ensures ShiftMonth(year, month, 0) == YearMonth(year, month)
  {
    var k := MonthIndex(year, month);
    assert k == 12 * year + month;
  }

  /** `new Date(year, month + 1, 0)`: the last day of the month. */
  function LastDayOfMonth(year: int, month: int): (d: Date)
    requires 0 <= month < 12
    ensures ValidDate(d) && d.year == year && d.month == month
    ensures forall e: Date :: ValidDate(e) && e.year == year && e.month == month ==> AtOrBefore(e, d)
  {
    Date(year, month, DaysInMonth(year, month))
  }

  /** For a valid date, lying on or before the last day of a month is a comparison of month indices. */
  lemma AtOrBeforeLastDay(d: Date, year: int, month: int)
    requires ValidDate(d) && 0 <= month < 12
    ensures AtOrBefore(d, LastDayOfMonth(year, month)) <==> MonthIndex(d.year, d.month) <= MonthIndex(year, month)
  {
    if d.year < year {
      assert MonthIndex(d.year, d.month) < MonthIndex(d.year + 1, 0) <= MonthIndex(year, month);
    } else if d.year > year {
      assert MonthIndex(year, month) < MonthIndex(year + 1, 0) <= MonthIndex(d.year, d.month);
    }
  }

  /** The date order is total and transitive, so a list can be sorted by it. */
  lemma AtOrBeforeTotalPreorder(a: Date, b: Date, c: Date)
    ensures AtOrBefore(a, b) || AtOrBefore(b, a)
    ensures AtOrBefore(a, b) && AtOrBefore(b, c) ==> AtOrBefore(a, c)
  {
  }
}

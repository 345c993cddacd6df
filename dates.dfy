/**
 * Calendar dates as the pages write them (`yyyy-mm-dd`), with months numbered
 * 1..12, and whole calendar months counted from year zero so that "i months
 * earlier" is plain subtraction.
 */
module Dates {

  datatype Date = Date(year: int, month: int, day: int)

  /** One calendar month of one year. */
  datatype YearMonth = YearMonth(year: int, month: int)

  predicate IsLeapYear(y: int) {
    y % 4 == 0 && (y % 100 != 0 || y % 400 == 0)
  }

  function DaysInMonth(y: int, m: int): (n: int)
    requires 1 <= m <= 12
    ensures 28 <= n <= 31
  {
    if m == 2 then (if IsLeapYear(y) then 29 else 28)
    else if m == 4 || m == 6 || m == 9 || m == 11 then 30
    else 31
  }

  predicate ValidMonth(ym: YearMonth) {
    1 <= ym.month <= 12
  }

  predicate ValidDate(d: Date) {
    1 <= d.month <= 12 && 1 <= d.day <= DaysInMonth(d.year, d.month)
  }

  function MonthOf(d: Date): YearMonth {
    YearMonth(d.year, d.month)
  }

  /**
   * `a` is not later than `b`: for valid dates this is the order of
   * `new Date(a).getTime()` and `new Date(b).getTime()`.
   */
  predicate OnOrBefore(a: Date, b: Date) {
    a.year < b.year ||
    (a.year == b.year && (a.month < b.month || (a.month == b.month && a.day <= b.day)))
  }

  lemma OnOrBeforeTransitive(a: Date, b: Date, c: Date)
    requires OnOrBefore(a, b) && OnOrBefore(b, c)
    ensures OnOrBefore(a, c)
  {
  }

  /** Number of whole months from January of year 0 to `ym`. */
  function MonthIndex(ym: YearMonth): int {
    ym.year * 12 + (ym.month - 1)
  }

  /** The month with a given index; the inverse of MonthIndex. */
  function MonthAt(index: int): (ym: YearMonth)
    ensures ValidMonth(ym) && MonthIndex(ym) == index
  {
    YearMonth(index / 12, index % 12 + 1)
  }

  lemma MonthIndexInjective(a: YearMonth, b: YearMonth)
    requires ValidMonth(a) && ValidMonth(b)
    requires MonthIndex(a) == MonthIndex(b)
    ensures a == b
  {
  }

  /** The month after `ym`, rolling December over into January of the next year. */
  function NextMonth(ym: YearMonth): (r: YearMonth)
    ensures ValidMonth(ym) ==> ValidMonth(r) && MonthIndex(r) == MonthIndex(ym) + 1
  {
    if ym.month == 12 then YearMonth(ym.year + 1, 1) else YearMonth(ym.year, ym.month + 1)
  }

  /** The calendar month `i` months before `ym`, with year rollover. */
  function MonthsBefore(ym: YearMonth, i: int): (r: YearMonth)
    ensures ValidMonth(r)
    ensures MonthIndex(r) == MonthIndex(ym) - i
  {
    MonthAt(MonthIndex(ym) - i)
  }

  /** Zero months back from a valid month is that month. */
  lemma MonthsBeforeZero(ym: YearMonth)
    requires ValidMonth(ym)
    ensures MonthsBefore(ym, 0) == ym
  {
    MonthIndexInjective(MonthsBefore(ym, 0), ym);
  }

  /** Stepping one month forward from `i + 1` months back lands on `i` months back. */
  lemma MonthsBeforeStep(ym: YearMonth, i: int)
    ensures NextMonth(MonthsBefore(ym, i + 1)) == MonthsBefore(ym, i)
  {
    MonthIndexInjective(NextMonth(MonthsBefore(ym, i + 1)), MonthsBefore(ym, i));
  }
}

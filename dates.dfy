/** Proleptic Gregorian calendar dates, as Python's `datetime` accepts them. */
module Dates {

  /** A calendar date as a (year, month, day) triple; not every triple is a real date. */
  datatype Date = Date(year: int, month: int, day: int)

  /** The smallest and largest years `datetime` accepts. */
  const MinYear := 1
  const MaxYear := 9999

  predicate IsLeapYear(y: int)
  {
    y % 4 == 0 && (y % 100 != 0 || y % 400 == 0)
  }

  function DaysInMonth(y: int, m: int): (n: int)
    requires 1 <= m <= 12
    ensures 28 <= n <= 31
    ensures n == 28 <==> m == 2 && !IsLeapYear(y)
    ensures n == 29 <==> m == 2 && IsLeapYear(y)
    ensures n == 31 <==> m in {1, 3, 5, 7, 8, 10, 12}
  {
    if m == 2 then (if IsLeapYear(y) then 29 else 28)
    else if m == 4 || m == 6 || m == 9 || m == 11 then 30
    else 31
  }

  /** True when the triple names a day that exists, with a year in 1..9999. */
  predicate IsValid(d: Date)
  {
    && MinYear <= d.year <= MaxYear
    && 1 <= d.month <= 12
    && 1 <= d.day <= DaysInMonth(d.year, d.month)
  }

  /** Chronological order: `a` is the same day as `b` or an earlier one. */
  predicate NotAfter(a: Date, b: Date)
  {
    || a.year < b.year
    || (a.year == b.year && a.month < b.month)
    || (a.year == b.year && a.month == b.month && a.day <= b.day)
  }

  /** Strict chronological order. */
  predicate Before(a: Date, b: Date)
  {
    NotAfter(a, b) && a != b
  }

  /** `NotAfter` is a total order, and `Before` is its strict part. */
  lemma NotAfterIsTotalOrder(a: Date, b: Date, c: Date)
    ensures NotAfter(a, a)
    ensures NotAfter(a, b) && NotAfter(b, a) ==> a == b
    ensures NotAfter(a, b) && NotAfter(b, c) ==> NotAfter(a, c)
    ensures NotAfter(a, b) || NotAfter(b, a)
    ensures Before(a, b) <==> !NotAfter(b, a)
  {
  }

  /** 29 February exists exactly in the leap years of the supported range. */
  lemma LeapDay(y: int)
    ensures IsValid(Date(y, 2, 29)) <==> MinYear <= y <= MaxYear && IsLeapYear(y)
  {
  }
}

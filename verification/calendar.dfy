/**
  Calendar triples and the part of JavaScript's `Date` the views use:
  `new Date(year, monthIndex, day)` read back with `getFullYear`,
  `getMonth` and `getDate`.  The constructor does not reject out-of-range
  fields; it rolls them over into neighbouring months and years.
*/
module Calendar {

  /** A naive calendar day. `month` is 0-based (0 = January .. 11 = December), as `getMonth` returns it. */
  datatype CalDate = CalDate(year: int, month: int, day: int)

  /** Proleptic Gregorian leap years. */
  predicate IsLeap(y: int) {
    y % 4 == 0 && (y % 100 != 0 || y % 400 == 0)
  }

  function DaysIn(y: int, m: int): (n: int)
    requires 0 <= m < 12
    ensures 28 <= n <= 31
  {
    if m == 1 then (if IsLeap(y) then 29 else 28)
    else if m == 3 || m == 5 || m == 8 || m == 10 then 30
    else 31
  }

  /** A real calendar day: no day 0 or 32, no month 12. */
  predicate Valid(d: CalDate) {
    0 <= d.month < 12 && 1 <= d.day <= DaysIn(d.year, d.month)
  }

  /** Counts `d` days forward from the first of month `m`, rolling into later months. */
  function RollForward(y: int, m: int, d: int): (r: CalDate)
    requires 0 <= m < 12 && d >= 1
    ensures Valid(r)
    ensures r.year > y || (r.year == y && r.month >= m)
    decreases d
  {
    if d <= DaysIn(y, m) then CalDate(y, m, d)
    else if m == 11 then RollForward(y + 1, 0, d - DaysIn(y, m))
    else RollForward(y, m + 1, d - DaysIn(y, m))
  }

  /** Day `d <= 0` of month `m` lies in an earlier month. */
  function RollBackward(y: int, m: int, d: int): (r: CalDate)
    requires 0 <= m < 12 && d <= DaysIn(y, m)
    ensures Valid(r)
    ensures r.year < y || (r.year == y && r.month <= m)
    decreases 1 - d
  {
    if d >= 1 then CalDate(y, m, d)
    else if m == 0 then RollBackward(y - 1, 11, d + DaysIn(y - 1, 11))
    else RollBackward(y, m - 1, d + DaysIn(y, m - 1))
  }

  /** The calendar day denoted by year `y`, month index `m` (any integer) and day `d` (any integer). */
  function Normalize(y: int, m: int, d: int): (r: CalDate)
    ensures Valid(r)
  {
    var y1 := y + m / 12;
    var m1 := m % 12;
    if d >= 1 then RollForward(y1, m1, d) else RollBackward(y1, m1, d)
  }

  /** `new Date(y, ...)` reads a year between 0 and 99 as 1900 + y. */
  function FullYear(y: int): int {
    if 0 <= y <= 99 then 1900 + y else y
  }

  /**
    `new Date(y, m, d)` followed by `getFullYear`/`getMonth`/`getDate`.
    The constructor never yields an invalid date for the four-digit years
    that reach it here, so there is no failure case.
  */
  function MakeDate(y: int, m: int, d: int): (r: CalDate)
    ensures Valid(r)
  {
    Normalize(FullYear(y), m, d)
  }

  /** On a real calendar day (year outside 0..99) the constructor is the identity. */
  lemma MakeDateOfValid(date: CalDate)
    requires Valid(date)
    requires date.year < 0 || date.year > 99
    ensures MakeDate(date.year, date.month, date.day) == date
  {
  }

  /** A year between 0 and 99 is read as a year of the 1900s. */
  lemma MakeDateTwoDigitYear(y: int, m: int, d: int)
    requires 0 <= y <= 99
    requires Valid(CalDate(1900 + y, m, d))
    ensures MakeDate(y, m, d) == CalDate(1900 + y, m, d)
  {
    assert FullYear(y) == 1900 + y;
  }

  /** Day 32 is not rejected: the day after the last day of a month is the 1st of the next one. */
  lemma MakeDateDayAfterLast(y: int, m: int)
    requires 0 <= m < 12
    requires y < 0 || y > 99
    ensures MakeDate(y, m, DaysIn(y, m) + 1)
         == (if m == 11 then CalDate(y + 1, 0, 1) else CalDate(y, m + 1, 1))
  {
    if m == 11 {
      assert RollForward(y + 1, 0, 1) == CalDate(y + 1, 0, 1);
    } else {
      assert RollForward(y, m + 1, 1) == CalDate(y, m + 1, 1);
    }
  }

  /** Day 0 is not rejected either: it is the last day of the previous month. */
  lemma MakeDateDayZero(y: int, m: int)
    requires 0 <= m < 12
    requires y < 0 || y > 99
    ensures MakeDate(y, m, 0)
         == (if m == 0 then CalDate(y - 1, 11, 31) else CalDate(y, m - 1, DaysIn(y, m - 1)))
  {
  }

  /** Month index 12 (a month field of 13 before the `- 1`) is January of the next year. */
  lemma MakeDateMonthTwelve(y: int, d: int)
    requires 1 <= d <= 31
    requires y < 0 || y > 99
    ensures MakeDate(y, 12, d) == CalDate(y + 1, 0, d)
  {
  }
}

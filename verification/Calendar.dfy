/**
 * The proleptic Gregorian calendar behind `Date.UTC` and the UTC getters
 * (section 21.4.1 of ECMA-262), on day numbers counted from 1970-01-01.
 * The recursive year search and the month table are the specification's own
 * "largest year that starts no later than this day" and "month whose first
 * day is the last one not after this day".
 */
module Calendar {
  datatype Date = Date(year: int, month: int, day: int)

  predicate Leap(y: int) {
    y % 4 == 0 && (y % 100 != 0 || y % 400 == 0)
  }

  function DaysInYear(y: int): int {
    if Leap(y) then 366 else 365
  }

  /** Day number of January 1st of year `y`, counted year by year from 1970. */
  function DaysBeforeYear(y: int): int
    decreases if y >= 1970 then y - 1970 else 1970 - y
  {
    if y == 1970 then 0
    else if y > 1970 then DaysBeforeYear(y - 1) + DaysInYear(y - 1)
    else DaysBeforeYear(y + 1) - DaysInYear(y)
  }

  function DaysInMonth(y: int, m: int): int {
    if m == 2 then (if Leap(y) then 29 else 28)
    else if m == 4 || m == 6 || m == 9 || m == 11 then 30
    else 31
  }

  /** Days of year `y` before the first of month `m`; `m == 13` is the whole year. */
  function DaysBeforeMonth(y: int, m: int): int
    requires 1 <= m <= 13
  {
    var common := [0, 31, 59, 90, 120, 151, 181, 212, 243, 273, 304, 334, 365];
    common[m - 1] + if m > 2 && Leap(y) then 1 else 0
  }

  predicate ValidDate(c: Date) {
    1 <= c.month <= 12 && 1 <= c.day <= DaysInMonth(c.year, c.month)
  }

  /** Day number of a year, month and day; a day outside the month overflows as `MakeDay` lets it. */
  function DayNumber(c: Date): int
    requires 1 <= c.month <= 12
  {
    DaysBeforeYear(c.year) + DaysBeforeMonth(c.year, c.month) + c.day - 1
  }

  function YearDistance(n: int, y: int): nat {
    if n < DaysBeforeYear(y) then DaysBeforeYear(y) - n
    else if n >= DaysBeforeYear(y + 1) then n - DaysBeforeYear(y + 1) + 1
    else 0
  }

  /** The year whose days include day `n`, searched from `y`. */
  function YearFrom(n: int, y: int): (r: int)
    ensures DaysBeforeYear(r) <= n < DaysBeforeYear(r + 1)
    decreases YearDistance(n, y)
  {
    YearLength(y - 1);
    YearLength(y + 1);
    if n < DaysBeforeYear(y) then YearFrom(n, y - 1)
    else if n >= DaysBeforeYear(y + 1) then YearFrom(n, y + 1)
    else y
  }

  function MonthFrom(y: int, dayOfYear: int, m: int): (r: int)
    requires 1 <= m <= 12 && DaysBeforeMonth(y, m) <= dayOfYear < DaysInYear(y)
    ensures m <= r <= 12 && DaysBeforeMonth(y, r) <= dayOfYear < DaysBeforeMonth(y, r + 1)
    decreases 12 - m
  {
    if m == 12 || dayOfYear < DaysBeforeMonth(y, m + 1) then m else MonthFrom(y, dayOfYear, m + 1)
  }

  /** The date of day number `n`, as the UTC getters read it. */
  function CivilOf(n: int): (c: Date)
    ensures ValidDate(c)
  {
    var y := YearFrom(n, 1970);
    YearLength(y);
    var dayOfYear := n - DaysBeforeYear(y);
    var m := MonthFrom(y, dayOfYear, 1);
    MonthLength(y, m);
    Date(y, m, dayOfYear - DaysBeforeMonth(y, m) + 1)
  }

  lemma YearLength(y: int)
    ensures DaysBeforeYear(y + 1) == DaysBeforeYear(y) + DaysInYear(y)
  {
  }

  function DayFromYear(y: int): int {
    365 * (y - 1970) + (y - 1969) / 4 - (y - 1901) / 100 + (y - 1601) / 400
  }

  /** Counting year by year agrees with the closed formula ECMA-262 gives for `DayFromYear`. */
  lemma {:induction false} DayFromYearCounts(y: int)
    ensures DaysBeforeYear(y) == DayFromYear(y)
    decreases if y >= 1970 then y - 1970 else 1970 - y
  {
    if y > 1970 {
      DayFromYearCounts(y - 1);
      DayFromYearStep(y - 1);
    } else if y < 1970 {
      DayFromYearCounts(y + 1);
      DayFromYearStep(y);
    }
  }

  lemma DayFromYearStep(y: int)
    ensures DayFromYear(y + 1) == DayFromYear(y) + DaysInYear(y)
  {
    assert (y - 1969) / 4 == (y - 1) / 4 - 492 && (y - 1968) / 4 == y / 4 - 492;
    assert (y - 1901) / 100 == (y - 1) / 100 - 19 && (y - 1900) / 100 == y / 100 - 19;
    assert (y - 1601) / 400 == (y - 1) / 400 - 4 && (y - 1600) / 400 == y / 400 - 4;
    assert y / 4 - (y - 1) / 4 == if y % 4 == 0 then 1 else 0;
    assert y / 100 - (y - 1) / 100 == if y % 100 == 0 then 1 else 0;
    assert y / 400 - (y - 1) / 400 == if y % 400 == 0 then 1 else 0;
  }

  lemma MonthLength(y: int, m: int)
    requires 1 <= m <= 12
    ensures DaysBeforeMonth(y, m + 1) == DaysBeforeMonth(y, m) + DaysInMonth(y, m)
  {
  }

  lemma {:induction false} YearsAscend(a: int, b: int)
    requires a < b
    ensures DaysBeforeYear(a) + DaysInYear(a) <= DaysBeforeYear(b)
    decreases b - a
  {
    YearLength(a);
    if a + 1 < b {
      YearsAscend(a + 1, b);
    }
  }

  lemma {:induction false} MonthsAscend(y: int, a: int, b: int)
    requires 1 <= a < b <= 13
    ensures DaysBeforeMonth(y, a) + DaysInMonth(y, a) <= DaysBeforeMonth(y, b)
    decreases b - a
  {
    MonthLength(y, a);
    if a + 1 < b {
      MonthsAscend(y, a + 1, b);
    }
  }

  /** Reading a day number and numbering the date again is the identity on days. */
  lemma CivilRoundTrip(n: int)
    ensures DayNumber(CivilOf(n)) == n
  {
  }

  /** Two valid dates with the same day number are the same date. */
  lemma DayNumberInjective(a: Date, b: Date)
    requires ValidDate(a) && ValidDate(b) && DayNumber(a) == DayNumber(b)
    ensures a == b
  {
    DayWithinYear(a);
    DayWithinYear(b);
    if a.year < b.year { YearsAscend(a.year, b.year); }
    if b.year < a.year { YearsAscend(b.year, a.year); }
    if a.month < b.month { MonthsAscend(a.year, a.month, b.month); }
    if b.month < a.month { MonthsAscend(a.year, b.month, a.month); }
  }

  lemma DayWithinYear(c: Date)
    requires ValidDate(c)
    ensures DaysBeforeYear(c.year) <= DayNumber(c) < DaysBeforeYear(c.year) + DaysInYear(c.year)
  {
    MonthLength(c.year, c.month);
    if c.month < 12 { MonthsAscend(c.year, c.month + 1, 13); }
  }

  /** Numbering a valid date and reading it back is the identity on dates. */
  lemma DateRoundTrip(c: Date)
    requires ValidDate(c)
    ensures CivilOf(DayNumber(c)) == c
  {
    CivilRoundTrip(DayNumber(c));
    DayNumberInjective(CivilOf(DayNumber(c)), c);
  }
}

/** The proleptic Gregorian calendar in UTC, at minute resolution.

A moment is a whole number of minutes since 0001-01-01T00:00Z.  `CivilOf` gives its
calendar fields, `MinuteOf` is the inverse, and `AddTwoYears` is the date arithmetic
that bounds the schedule search. */
module Calendar {

  const MINUTES_PER_DAY := 1440

  datatype Date = Date(year: int, month: int, day: int)

  /** The fields a schedule looks at; `weekday` counts from Sunday = 0. */
  datatype Civil = Civil(date: Date, weekday: int, hour: int, minute: int)

  predicate IsLeap(y: int) {
    y % 4 == 0 && (y % 100 != 0 || y % 400 == 0)
  }

  function YearLength(y: int): int {
    if IsLeap(y) then 366 else 365
  }

  function DaysInMonth(y: int, m: int): int {
    if m == 2 then (if IsLeap(y) then 29 else 28)
    else if m == 4 || m == 6 || m == 9 || m == 11 then 30
    else 31
  }

  /** Days of year y before the first of month m. */
  function DaysBeforeMonth(y: int, m: int): int {
    var leap := if IsLeap(y) then 1 else 0;
    if m <= 1 then 0
    else if m == 2 then 31
    else if m == 3 then 59 + leap
    else if m == 4 then 90 + leap
    else if m == 5 then 120 + leap
    else if m == 6 then 151 + leap
    else if m == 7 then 181 + leap
    else if m == 8 then 212 + leap
    else if m == 9 then 243 + leap
    else if m == 10 then 273 + leap
    else if m == 11 then 304 + leap
    else 334 + leap
  }

  /** Days from 0001-01-01 to the first day of year y, counted one year at a time. */
  function DaysBeforeYear(y: int): int
    decreases if y < 1 then 1 - y else y - 1
  {
    if y == 1 then 0
    else if y > 1 then DaysBeforeYear(y - 1) + YearLength(y - 1)
    else DaysBeforeYear(y + 1) - YearLength(y)
  }

  predicate ValidDate(d: Date) {
    1 <= d.month <= 12 && 1 <= d.day <= DaysInMonth(d.year, d.month)
  }

  /** The day count of a date.  A day past the end of its month runs into the next one. */
  function DayNumber(d: Date): int {
    DaysBeforeYear(d.year) + DaysBeforeMonth(d.year, d.month) + d.day - 1
  }

  function WeekdayOf(day: int): int {
    (day + 1) % 7
  }

  lemma YearsAbut(y: int)
    ensures DaysBeforeYear(y + 1) == DaysBeforeYear(y) + YearLength(y)
  {
  }

  lemma {:induction false} YearsGrow(y: int, z: int)
    requires y <= z
    ensures DaysBeforeYear(z) >= DaysBeforeYear(y) + 365 * (z - y)
    decreases z - y
  {
    if y < z {
      YearsAbut(z - 1);
      YearsGrow(y, z - 1);
    }
  }

  /** The year a day falls in, searched outward from year y. */
  function YearFrom(day: int, y: int): (found: int)
    ensures DaysBeforeYear(found) <= day < DaysBeforeYear(found + 1)
    decreases if day < DaysBeforeYear(y) then DaysBeforeYear(y) - day + 366 else day - DaysBeforeYear(y)
  {
    YearsAbut(y - 1);
    YearsAbut(y);
    if day < DaysBeforeYear(y) then YearFrom(day, y - 1)
    else if day >= DaysBeforeYear(y + 1) then YearFrom(day, y + 1)
    else y
  }

  function YearOf(day: int): int {
    YearFrom(day, 1)
  }

  function MonthOf(y: int, dayOfYear: int): (m: int)
    requires 0 <= dayOfYear < YearLength(y)
    ensures 1 <= m <= 12
    ensures 0 <= dayOfYear - DaysBeforeMonth(y, m) < DaysInMonth(y, m)
  {
    if dayOfYear < DaysBeforeMonth(y, 2) then 1
    else if dayOfYear < DaysBeforeMonth(y, 3) then 2
    else if dayOfYear < DaysBeforeMonth(y, 4) then 3
    else if dayOfYear < DaysBeforeMonth(y, 5) then 4
    else if dayOfYear < DaysBeforeMonth(y, 6) then 5
    else if dayOfYear < DaysBeforeMonth(y, 7) then 6
    else if dayOfYear < DaysBeforeMonth(y, 8) then 7
    else if dayOfYear < DaysBeforeMonth(y, 9) then 8
    else if dayOfYear < DaysBeforeMonth(y, 10) then 9
    else if dayOfYear < DaysBeforeMonth(y, 11) then 10
    else if dayOfYear < DaysBeforeMonth(y, 12) then 11
    else 12
  }

  /** The calendar date of a day count: the one valid date with that day number. */
  function DateOf(day: int): (d: Date)
    ensures ValidDate(d) && DayNumber(d) == day
  {
    var y := YearOf(day);
    YearsAbut(y);
    var m := MonthOf(y, day - DaysBeforeYear(y));
    Date(y, m, day - DaysBeforeYear(y) - DaysBeforeMonth(y, m) + 1)
  }

  lemma DayWithinYear(d: Date)
    requires ValidDate(d)
    ensures DaysBeforeYear(d.year) <= DayNumber(d) < DaysBeforeYear(d.year + 1)
  {
    YearsAbut(d.year);
  }

  lemma SameYear(day: int, y: int, z: int)
    requires DaysBeforeYear(y) <= day < DaysBeforeYear(y + 1)
    requires DaysBeforeYear(z) <= day < DaysBeforeYear(z + 1)
    ensures y == z
  {
    if y < z {
      YearsGrow(y + 1, z);
    } else if z < y {
      YearsGrow(z + 1, y);
    }
  }

  lemma SameMonth(y: int, m: int, n: int, i: int, j: int)
    requires ValidDate(Date(y, m, i)) && ValidDate(Date(y, n, j))
    requires DaysBeforeMonth(y, m) + i == DaysBeforeMonth(y, n) + j
    ensures m == n && i == j
  {
  }

  /** Valid dates are determined by their day number. */
  lemma SameDate(d: Date, e: Date)
    requires ValidDate(d) && ValidDate(e) && DayNumber(d) == DayNumber(e)
    ensures d == e
  {
    DayWithinYear(d);
    DayWithinYear(e);
    SameYear(DayNumber(d), d.year, e.year);
    SameMonth(d.year, d.month, e.month, d.day, e.day);
  }

  /** So `DateOf` inverts `DayNumber`. */
  lemma DateOfDayNumber(d: Date)
    requires ValidDate(d)
    ensures DateOf(DayNumber(d)) == d
  {
    SameDate(d, DateOf(DayNumber(d)));
  }

  /** Minutes of a calendar moment; an overlong day runs into the next month. */
  function MinuteOf(d: Date, hour: int, minute: int): int {
    DayNumber(d) * MINUTES_PER_DAY + hour * 60 + minute
  }

  function CivilOf(t: int): Civil {
    var day := t / MINUTES_PER_DAY;
    var r := t % MINUTES_PER_DAY;
    Civil(DateOf(day), WeekdayOf(day), r / 60, r % 60)
  }

  lemma CivilOfMinute(d: Date, hour: int, minute: int)
    requires ValidDate(d) && 0 <= hour < 24 && 0 <= minute < 60
    ensures CivilOf(MinuteOf(d, hour, minute)) == Civil(d, WeekdayOf(DayNumber(d)), hour, minute)
  {
    var t := MinuteOf(d, hour, minute);
    assert t / MINUTES_PER_DAY == DayNumber(d) && t % MINUTES_PER_DAY == hour * 60 + minute;
    DateOfDayNumber(d);
  }

  lemma MinuteOfCivil(t: int)
    ensures var c := CivilOf(t);
            && ValidDate(c.date) && 0 <= c.hour < 24 && 0 <= c.minute < 60 && 0 <= c.weekday < 7
            && MinuteOf(c.date, c.hour, c.minute) == t
  {
    assert t == (t / MINUTES_PER_DAY) * MINUTES_PER_DAY + t % MINUTES_PER_DAY;
  }

  /** The same month, day and time of day two years on; Feb 29 becomes Mar 1. */
  function AddTwoYears(t: int): int {
    var c := CivilOf(t);
    MinuteOf(c.date.(year := c.date.year + 2), c.hour, c.minute)
  }

  lemma LaterYearIsLater(d: Date, e: Date)
    requires ValidDate(d) && 1 <= e.day && d.year < e.year
    ensures DayNumber(d) < DayNumber(e)
  {
    DayWithinYear(d);
    YearsGrow(d.year + 1, e.year);
  }

  lemma DaysDecide(a: int, b: int, r: int, s: int)
    requires a < b && r < MINUTES_PER_DAY && s >= 0
    ensures a * MINUTES_PER_DAY + r < b * MINUTES_PER_DAY + s
  {
  }

  lemma DatesInOrder(d: Date, e: Date)
    requires ValidDate(d) && ValidDate(e) && DayNumber(d) <= DayNumber(e)
    ensures d.year <= e.year
  {
    if e.year < d.year {
      LaterYearIsLater(e, d);
    }
  }

  /** Any time of an earlier year comes before any time of a later one. */
  lemma EarlierYearIsEarlier(d: Date, h: int, n: int, e: Date, i: int, m: int)
    requires ValidDate(d) && 1 <= e.day && d.year < e.year
    requires 0 <= h < 24 && 0 <= n < 60 && 0 <= i < 24 && 0 <= m < 60
    ensures MinuteOf(d, h, n) < MinuteOf(e, i, m)
  {
    LaterYearIsLater(d, e);
    DaysDecide(DayNumber(d), DayNumber(e), h * 60 + n, i * 60 + m);
  }

  /** The whole calendar year after t's lies strictly between t and two years later. */
  lemma NextYearInside(t: int, d: Date, hour: int, minute: int)
    requires d.year == CivilOf(t).date.year + 1
    requires ValidDate(d) && 0 <= hour < 24 && 0 <= minute < 60
    ensures t < MinuteOf(d, hour, minute) < AddTwoYears(t)
  {
    var c := CivilOf(t);
    var later := c.date.(year := c.date.year + 2);
    MinuteOfCivil(t);
    EarlierYearIsEarlier(c.date, c.hour, c.minute, d, hour, minute);
    EarlierYearIsEarlier(d, hour, minute, later, c.hour, c.minute);
  }

  lemma WeekdayShift(first: int, w: int) returns (k: int)
    requires 0 <= w < 7
    ensures 0 <= k < 7 && WeekdayOf(first + k) == w
  {
    var x := WeekdayOf(first);
    k := if x <= w then w - x else w - x + 7;
    var q := (first + 1) / 7;
    assert first + k + 1 == 7 * (if x <= w then q else q + 1) + w;
  }

  /** Every month of every year has each weekday among its first seven days. */
  lemma WeekdayInMonth(y: int, m: int, w: int) returns (d: Date)
    requires 1 <= m <= 12 && 0 <= w < 7
    ensures ValidDate(d) && d.year == y && d.month == m && d.day <= 7
    ensures WeekdayOf(DayNumber(d)) == w
  {
    var base := DaysBeforeYear(y) + DaysBeforeMonth(y, m);
    var k := WeekdayShift(base, w);
    d := Date(y, m, 1 + k);
    assert DayNumber(d) == base + k;
  }
}

/** What the two-year search window decides, and what a bare star means. */
module CronHorizon {
  import opened Text
  import opened Calendar
  import opened Cron

  ghost predicate Among(values: set<int>, lo: int, hi: int) {
    (exists v :: v in values) && forall v :: v in values ==> lo <= v <= hi
  }

  ghost predicate Everything(values: set<int>, lo: int, hi: int) {
    forall v :: lo <= v <= hi ==> v in values
  }

  /** What parsing guarantees of every schedule. */
  ghost predicate WellFormed(s: Schedule) {
    && Among(s.minute, 0, 59) && Among(s.hour, 0, 23) && Among(s.dom, 1, 31)
    && Among(s.month, 1, 12) && Among(s.dow, 0, 6)
    && (s.anyDOM ==> Everything(s.dom, 1, 31)) && (s.anyDOW ==> Everything(s.dow, 0, 6))
  }

  lemma Pick(values: set<int>, lo: int, hi: int) returns (v: int)
    requires Among(values, lo, hi)
    ensures v in values && lo <= v <= hi
  {
    v :| v in values;
  }

  lemma FirstItemAccepted(parts: seq<string>, k: nat)
    requires |parts| == 5 && k < 5 && FieldOutcome(Split(parts[k], ','), FIELD_LO[k], FIELD_HI[k]).Ok?
    ensures exists v :: v in Selected(parts, k)
  {
    var items := Split(parts[k], ',');
    AcceptedInRange(items[0], FIELD_LO[k], FIELD_HI[k]);
    var v := ParseItem(items[0], FIELD_LO[k], FIELD_HI[k]).item.start;
    assert TextSelects(items[0], FIELD_LO[k], FIELD_HI[k], v);
    assert v in Selected(parts, k);
  }

  lemma {:induction false} GridOfOne(lo: int, v: int)
    requires lo <= v
    ensures OnGrid(lo, 1, v)
    decreases v - lo
  {
    if lo < v {
      GridOfOne(lo, v - 1);
    }
  }

  /** "*" and "*" with step 1 are the same item: every value of the range. */
  lemma StarSelectsAll(parts: seq<string>, k: nat)
    requires |parts| == 5 && k < 5 && (parts[k] == "*" || parts[k] == "*/1")
    ensures Everything(Selected(parts, k), FIELD_LO[k], FIELD_HI[k])
    ensures FieldOutcome(Split(parts[k], ','), FIELD_LO[k], FIELD_HI[k]) == Ok(())
  {
    var lo, hi := FIELD_LO[k], FIELD_HI[k];
    StarItem(parts[k], lo, hi);
    forall v | lo <= v <= hi
      ensures v in Selected(parts, k)
    {
      GridOfOne(lo, v);
      assert TextSelects(Split(parts[k], ',')[0], lo, hi, v);
    }
  }

  lemma StarItem(text: string, lo: int, hi: int)
    requires (text == "*" || text == "*/1") && FieldRange(lo, hi)
    ensures Split(text, ',') == [text] && ParseItem(text, lo, hi) == Accepted(Item(lo, hi, 1))
  {
    IndexOfFirst(text, ',', |text|);
    if text == "*" {
      IndexOfFirst(text, '/', 1);
    } else {
      IndexOfFirst(text, '/', 1);
      assert text[2..] == "1" && Itoa(1) == "1";
      AtoiItoa(1);
    }
    assert text[..1] == "*";
  }

  lemma {:induction false} FieldsAccepted(parts: seq<string>, k: nat, j: nat)
    requires |parts| == 5 && k <= j < 5 && OutcomeFrom(parts, k).Ok?
    ensures FieldOutcome(Split(parts[j], ','), FIELD_LO[j], FIELD_HI[j]).Ok?
    decreases j - k
  {
    if k < j {
      FieldsAccepted(parts, k + 1, j);
    }
  }

  /** Every accepted field selects some value and only values of its range. */
  lemma ParsedWellFormed(parts: seq<string>)
    requires ParseOutcome(parts).Ok?
    ensures WellFormed(ScheduleOf(parts))
  {
    forall j | 0 <= j < 5
      ensures Among(Selected(parts, j), FIELD_LO[j], FIELD_HI[j])
    {
      FieldsAccepted(parts, 0, j);
      FirstItemAccepted(parts, j);
    }
    assert Among(Selected(parts, 0), 0, 59) && Among(Selected(parts, 1), 0, 23);
    assert Among(Selected(parts, 2), 1, 31) && Among(Selected(parts, 3), 1, 12) && Among(Selected(parts, 4), 0, 6);
    if parts[2] == "*" {
      StarSelectsAll(parts, 2);
    }
    if parts[4] == "*" {
      StarSelectsAll(parts, 4);
    }
  }

  /** Days every year has: not past the month's end and not Feb 29. */
  predicate Ordinary(month: int, day: int) {
    1 <= month <= 12 && 1 <= day <= DaysInMonth(1, month)
  }

  /** Only the day-of-month field restricts days, and it never picks an ordinary one. */
  ghost predicate OnlyOddDays(s: Schedule) {
    s.anyDOW && !s.anyDOM && forall m, d :: m in s.month && d in s.dom ==> !Ordinary(m, d)
  }

  predicate PicksLeapDay(s: Schedule) {
    2 in s.month && 29 in s.dom
  }

  lemma OrdinaryIsValid(y: int, m: int, d: int)
    requires Ordinary(m, d)
    ensures ValidDate(Date(y, m, d))
  {
  }

  /** A date of year y on which a well-formed schedule fires, unless it only picks odd days. */
  lemma FiringDate(s: Schedule, y: int) returns (d: Date)
    requires WellFormed(s) && !OnlyOddDays(s)
    ensures ValidDate(d) && d.year == y && d.month in s.month
    ensures (s.anyDOM && s.anyDOW) || (!s.anyDOM && d.day in s.dom)
            || (!s.anyDOW && WeekdayOf(DayNumber(d)) in s.dow)
  {
    if !s.anyDOW {
      var m := Pick(s.month, 1, 12);
      var w := Pick(s.dow, 0, 6);
      d := WeekdayInMonth(y, m, w);
    } else if s.anyDOM {
      var m := Pick(s.month, 1, 12);
      d := Date(y, m, 1);
    } else {
      var m, k :| m in s.month && k in s.dom && Ordinary(m, k);
      OrdinaryIsValid(y, m, k);
      d := Date(y, m, k);
    }
  }

  /** Any schedule that does not only pick odd days fires in the calendar year after the start. */
  lemma FiresNextYear(s: Schedule, first: int) returns (t: int)
    requires WellFormed(s) && !OnlyOddDays(s)
    ensures first < t < AddTwoYears(first) && FiresAt(s, t)
    ensures CivilOf(t).date.year == CivilOf(first).date.year + 1
  {
    var h := Pick(s.hour, 0, 23);
    var n := Pick(s.minute, 0, 59);
    var d := FiringDate(s, CivilOf(first).date.year + 1);
    t := MinuteOf(d, h, n);
    NextYearInside(first, d, h, n);
    CivilOfMinute(d, h, n);
  }

  /** A schedule of odd days can only fire on Feb 29 of a leap year. */
  lemma OddDaysFireOnLeapDay(s: Schedule, t: int)
    requires OnlyOddDays(s) && FiresAt(s, t)
    ensures var c := CivilOf(t);
            && PicksLeapDay(s) && IsLeap(c.date.year) && c.date == Date(c.date.year, 2, 29)
            && c.hour in s.hour && c.minute in s.minute
  {
    MinuteOfCivil(t);
    var c := CivilOf(t);
    assert !Ordinary(c.date.month, c.date.day);
  }

  lemma LaterMinuteLaterYear(t: int, u: int)
    requires t <= u
    ensures CivilOf(t).date.year <= CivilOf(u).date.year
  {
    var a, b := t / MINUTES_PER_DAY, u / MINUTES_PER_DAY;
    DatesMonotone(a, b);
  }

  lemma DatesMonotone(a: int, b: int)
    requires a <= b
    ensures DateOf(a).year <= DateOf(b).year
  {
    DatesInOrder(DateOf(a), DateOf(b));
  }

  /** The window from a minute of year y never reaches past year y + 2. */
  lemma WindowYears(first: int, t: int)
    requires first <= t <= AddTwoYears(first)
    ensures CivilOf(first).date.year <= CivilOf(t).date.year <= CivilOf(first).date.year + 2
  {
    LaterMinuteLaterYear(first, t);
    var c := CivilOf(first);
    MinuteOfCivil(first);
    var later := c.date.(year := c.date.year + 2);
    var day := DayNumber(later);
    assert AddTwoYears(first) / MINUTES_PER_DAY == day;
    LastDayOfWindow(c.date);
    DatesMonotone(t / MINUTES_PER_DAY, day);
  }

  lemma LastDayOfWindow(d: Date)
    requires ValidDate(d)
    ensures DateOf(DayNumber(d.(year := d.year + 2))).year == d.year + 2
  {
    var e := d.(year := d.year + 2);
    if ValidDate(e) {
      DateOfDayNumber(e);
    } else {
      assert e.month == 2 && e.day == 29;
      assert DayNumber(e) == DayNumber(Date(e.year, 3, 1));
      DateOfDayNumber(Date(e.year, 3, 1));
    }
  }

  /** Some selected time on Feb 29 of year y, y + 1 or y + 2 lies between first and limit,
      when first is in year y and limit two years later. */
  ghost predicate LeapDayBetween(s: Schedule, y: int, first: int, limit: int) {
    || IsLeap(y + 1)
    || (IsLeap(y) && exists h, n :: h in s.hour && n in s.minute && first <= MinuteOf(Date(y, 2, 29), h, n))
    || (IsLeap(y + 2) && exists h, n ::
          h in s.hour && n in s.minute && MinuteOf(Date(y + 2, 2, 29), h, n) <= limit)
  }

  ghost predicate LeapDayReached(s: Schedule, first: int) {
    LeapDayBetween(s, CivilOf(first).date.year, first, AddTwoYears(first))
  }

  lemma LeapDayFires(s: Schedule, y: int, h: int, n: int)
    requires WellFormed(s) && s.anyDOW && !s.anyDOM && PicksLeapDay(s) && IsLeap(y)
    requires h in s.hour && n in s.minute
    ensures FiresAt(s, MinuteOf(Date(y, 2, 29), h, n))
  {
    CivilOfMinute(Date(y, 2, 29), h, n);
  }

  lemma LaterYearLaterMinute(t: int, d: Date, h: int, n: int)
    requires ValidDate(d) && 0 <= h < 24 && 0 <= n < 60 && CivilOf(t).date.year < d.year
    ensures t < MinuteOf(d, h, n)
  {
    MinuteOfCivil(t);
    var c := CivilOf(t);
    EarlierYearIsEarlier(c.date, c.hour, c.minute, d, h, n);
  }

  lemma EarlierYearInWindow(first: int, d: Date, h: int, n: int)
    requires ValidDate(d) && 0 <= h < 24 && 0 <= n < 60 && d.year < CivilOf(first).date.year + 2
    ensures MinuteOf(d, h, n) <= AddTwoYears(first)
  {
    MinuteOfCivil(first);
    BeforeWindowEnd(CivilOf(first), d, h, n);
  }

  lemma BeforeWindowEnd(c: Civil, d: Date, h: int, n: int)
    requires CivilInRange(c) && ValidDate(d) && 0 <= h < 24 && 0 <= n < 60 && d.year < c.date.year + 2
    ensures MinuteOf(d, h, n) <= MinuteOf(c.date.(year := c.date.year + 2), c.hour, c.minute)
  {
    EarlierYearIsEarlier(d, h, n, c.date.(year := c.date.year + 2), c.hour, c.minute);
  }

  lemma LeapDayChoice(s: Schedule, y: int, first: int, limit: int) returns (leap: int, h: int, n: int)
    requires WellFormed(s) && LeapDayBetween(s, y, first, limit)
    ensures h in s.hour && n in s.minute && IsLeap(leap) && y <= leap <= y + 2
    ensures leap == y ==> first <= MinuteOf(Date(y, 2, 29), h, n)
    ensures leap == y + 2 ==> MinuteOf(Date(y + 2, 2, 29), h, n) <= limit
  {
    if IsLeap(y + 1) {
      leap := y + 1;
      h := Pick(s.hour, 0, 23);
      n := Pick(s.minute, 0, 59);
    } else if IsLeap(y) && exists i, j :: i in s.hour && j in s.minute && first <= MinuteOf(Date(y, 2, 29), i, j) {
      leap := y;
      h, n :| h in s.hour && n in s.minute && first <= MinuteOf(Date(y, 2, 29), h, n);
    } else {
      leap := y + 2;
      h, n :| h in s.hour && n in s.minute && MinuteOf(Date(y + 2, 2, 29), h, n) <= limit;
    }
  }

  /** A selected Feb 29 in one of the three years of the window is a firing minute of it. */
  lemma LeapDayReachedFires(s: Schedule, first: int) returns (t: int)
    requires WellFormed(s) && s.anyDOW && !s.anyDOM && PicksLeapDay(s) && LeapDayReached(s, first)
    ensures first <= t <= AddTwoYears(first) && FiresAt(s, t)
  {
    var y := CivilOf(first).date.year;
    var leap, h, n := LeapDayChoice(s, y, first, AddTwoYears(first));
    var d := Date(leap, 2, 29);
    t := MinuteOf(d, h, n);
    LeapDayFires(s, leap, h, n);
    if leap > y {
      LaterYearLaterMinute(first, d, h, n);
    }
    if leap < y + 2 {
      EarlierYearInWindow(first, d, h, n);
    }
  }

  lemma FiringLeapDayReached(s: Schedule, first: int, t: int)
    requires OnlyOddDays(s) && first <= t <= AddTwoYears(first) && FiresAt(s, t)
    ensures PicksLeapDay(s) && LeapDayReached(s, first)
  {
    OddDaysFireOnLeapDay(s, t);
    WindowYears(first, t);
    MinuteOfCivil(t);
    LeapDaySeen(s, CivilOf(first).date.year, first, AddTwoYears(first), CivilOf(t));
  }

  lemma LeapDaySeen(s: Schedule, y: int, first: int, limit: int, c: Civil)
    requires y <= c.date.year <= y + 2 && IsLeap(c.date.year) && c.date == Date(c.date.year, 2, 29)
    requires c.hour in s.hour && c.minute in s.minute
    requires first <= MinuteOf(c.date, c.hour, c.minute) <= limit
    ensures LeapDayBetween(s, y, first, limit)
  {
  }

  /** The search fails on a parsed expression exactly when only the day-of-month field restricts
      days, every day it picks is missing or Feb 29, and no picked Feb 29 falls in the window. */
  ghost predicate Doomed(s: Schedule, first: int) {
    OnlyOddDays(s) && !(PicksLeapDay(s) && LeapDayReached(s, first))
  }

  lemma HorizonExact(expr: string, fromNanos: int)
    requires ParseOutcome(Fields(expr)).Ok?
    ensures NextRunIs(expr, fromNanos, Err(NeverMatches))
            <==> Doomed(ScheduleOf(Fields(expr)), FirstMinute(fromNanos))
  {
    ParsedWellFormed(Fields(expr));
    SilentExactly(ScheduleOf(Fields(expr)), fromNanos);
  }

  /** A well-formed schedule never fires in the window exactly when it is doomed. */
  lemma SilentExactly(s: Schedule, fromNanos: int)
    requires WellFormed(s)
    ensures IsLeastFiring(s, fromNanos, Err(NeverMatches)) <==> Doomed(s, FirstMinute(fromNanos))
  {
    var first := FirstMinute(fromNanos);
    if !OnlyOddDays(s) {
      var t := FiresNextYear(s, first);
      assert InWindow(fromNanos, t);
    } else if PicksLeapDay(s) && LeapDayReached(s, first) {
      var t := LeapDayReachedFires(s, first);
      assert InWindow(fromNanos, t);
    } else {
      forall t | InWindow(fromNanos, t)
        ensures !FiresAt(s, t)
      {
        if FiresAt(s, t) {
          FiringLeapDayReached(s, first, t);
        }
      }
    }
  }

  /** Every expression that does not only pick odd days answers before the year after next begins. */
  lemma AnswersNextYear(expr: string, fromNanos: int, r: Outcome<int, CronError>)
    requires ParseOutcome(Fields(expr)).Ok? && !OnlyOddDays(ScheduleOf(Fields(expr)))
    requires NextRunIs(expr, fromNanos, r)
    ensures r.Ok? && CivilOf(r.value).date.year <= CivilOf(FirstMinute(fromNanos)).date.year + 1
  {
    ParsedWellFormed(Fields(expr));
    var t := FiresNextYear(ScheduleOf(Fields(expr)), FirstMinute(fromNanos));
    assert InWindow(fromNanos, t);
    LaterMinuteLaterYear(r.value, t);
  }

  /** A failed search means the schedule never fires again exactly when it does not pick Feb 29. */
  lemma FailureMeansNever(expr: string, fromNanos: int)
    requires NextRunIs(expr, fromNanos, Err(NeverMatches)) && ParseOutcome(Fields(expr)).Ok?
    ensures var s := ScheduleOf(Fields(expr));
            (forall t :: t >= FirstMinute(fromNanos) ==> !FiresAt(s, t)) <==> !PicksLeapDay(s)
  {
    var s := ScheduleOf(Fields(expr));
    var first := FirstMinute(fromNanos);
    HorizonExact(expr, fromNanos);
    ParsedWellFormed(Fields(expr));
    if PicksLeapDay(s) {
      var t := LeapDayEventually(s, first);
    } else {
      forall t | t >= first
        ensures !FiresAt(s, t)
      {
        if FiresAt(s, t) {
          OddDaysFireOnLeapDay(s, t);
        }
      }
    }
  }

  lemma LeapAfter(y: int) returns (leap: int)
    ensures IsLeap(leap) && y < leap
  {
    leap := 400 * (if y < 0 then 1 else y + 1);
  }

  lemma LeapDayEventually(s: Schedule, first: int) returns (t: int)
    requires WellFormed(s) && s.anyDOW && !s.anyDOM && PicksLeapDay(s)
    ensures first <= t && FiresAt(s, t)
  {
    var y := CivilOf(first).date.year;
    var leap := LeapAfter(y);
    var h := Pick(s.hour, 0, 23);
    var n := Pick(s.minute, 0, 59);
    t := MinuteOf(Date(leap, 2, 29), h, n);
    LaterYearLaterMinute(first, Date(leap, 2, 29), h, n);
    LeapDayFires(s, leap, h, n);
  }
}

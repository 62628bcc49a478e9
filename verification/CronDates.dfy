/** The calendar and the search tied to the wall clock: day counts in closed form, weekdays from a
named Monday, and weekly and daily schedules answered by arithmetic alone. */
module CronDates {
  import opened Text
  import opened Calendar
  import opened Cron
  import opened CronHorizon
  import opened CronForms

  // ------------------------------------------------------------- days and weekdays

  function LeapDaysBefore(y: int): int {
    (y - 1) / 4 - (y - 1) / 100 + (y - 1) / 400
  }

  lemma FourthStep(y: int)
    ensures y / 4 == (y - 1) / 4 + if y % 4 == 0 then 1 else 0
  {
  }

  lemma CenturyStep(y: int)
    ensures y / 100 == (y - 1) / 100 + if y % 100 == 0 then 1 else 0
    ensures y % 100 == 0 ==> y % 4 == 0
  {
  }

  lemma FourCenturyStep(y: int)
    ensures y / 400 == (y - 1) / 400 + if y % 400 == 0 then 1 else 0
    ensures y % 400 == 0 ==> y % 100 == 0
  {
  }

  lemma LeapDayStep(y: int)
    ensures LeapDaysBefore(y + 1) == LeapDaysBefore(y) + YearLength(y) - 365
  {
    FourthStep(y);
    CenturyStep(y);
    FourCenturyStep(y);
  }

  /** Before year y there were 365 days a year and one more every fourth year, except that three
      centuries of four have none. */
  lemma {:induction false} YearsClosedForm(y: int)
    ensures DaysBeforeYear(y) == 365 * (y - 1) + (y - 1) / 4 - (y - 1) / 100 + (y - 1) / 400
    decreases if y < 1 then 1 - y else y - 1
  {
    if y > 1 {
      YearsClosedForm(y - 1);
      LeapDayStep(y - 1);
    } else if y < 1 {
      YearsClosedForm(y + 1);
      LeapDayStep(y);
    }
  }

  /** The months of a year have their usual lengths and follow each other. */
  lemma MonthLengths(y: int, m: int)
    requires 1 <= m <= 12
    ensures DaysInMonth(y, m) == if m == 2 then YearLength(y) - 337 else if m in {4, 6, 9, 11} then 30 else 31
    ensures DaysBeforeMonth(y, 1) == 0
    ensures if m == 12 then DaysBeforeMonth(y, m) + DaysInMonth(y, m) == YearLength(y)
            else DaysBeforeMonth(y, m) + DaysInMonth(y, m) == DaysBeforeMonth(y, m + 1)
  {
  }

  /** The first day of all was a Monday, and each day's weekday follows the one before. */
  lemma WeekdaysFollow(day: int)
    ensures WeekdayOf(DayNumber(Date(1, 1, 1))) == 1
    ensures 0 <= WeekdayOf(day) < 7 && WeekdayOf(day + 1) == (WeekdayOf(day) + 1) % 7
  {
  }

  /** The day count of a date, in closed form. */
  lemma DayClosedForm(d: Date)
    ensures DayNumber(d) == 365 * (d.year - 1) + (d.year - 1) / 4 - (d.year - 1) / 100 + (d.year - 1) / 400
                            + DaysBeforeMonth(d.year, d.month) + d.day - 1
  {
    YearsClosedForm(d.year);
  }

  /** The Unix epoch was a Thursday. */
  lemma EpochWasThursday(d: Date)
    requires d.year == 1970 && d.month == 1 && d.day == 1
    ensures DayNumber(d) == 719162 && WeekdayOf(DayNumber(d)) == 4
  {
    DayClosedForm(d);
  }

  /** Which Februaries have a 29th. */
  lemma LeapDays(y: int)
    ensures ValidDate(Date(y, 2, 29)) <==> y % 400 == 0 || (y % 4 == 0 && y % 100 != 0)
    ensures y in {1600, 2000, 2024} ==> ValidDate(Date(y, 2, 29))
    ensures y in {1900, 2023, 2026, 2100} ==> !ValidDate(Date(y, 2, 29))
  {
  }

  // ------------------------------------------------------------- the window

  lemma TwoYearsLater(d: Date) returns (later: Date)
    requires ValidDate(d)
    ensures ValidDate(later) && DayNumber(later) == DayNumber(Date(d.year + 2, d.month, d.day))
    ensures later == if d.month == 2 && d.day == 29 then Date(d.year + 2, 3, 1) else Date(d.year + 2, d.month, d.day)
  {
    var y := d.year + 2;
    if d.month == 2 && d.day == 29 {
      assert IsLeap(d.year) && !IsLeap(y);
      later := Date(y, 3, 1);
    } else {
      later := Date(y, d.month, d.day);
    }
  }

  /** Two years on is the same month, day and time, except that Feb 29 becomes Mar 1. */
  lemma TwoYearsOn(d: Date, hour: int, minute: int) returns (later: Date)
    requires ValidDate(d) && 0 <= hour < 24 && 0 <= minute < 60
    ensures later == if d.month == 2 && d.day == 29 then Date(d.year + 2, 3, 1) else Date(d.year + 2, d.month, d.day)
    ensures ValidDate(later) && AddTwoYears(MinuteOf(d, hour, minute)) == MinuteOf(later, hour, minute)
  {
    later := TwoYearsLater(d);
    CivilOfMinute(d, hour, minute);
    SameMinute(later, Date(d.year + 2, d.month, d.day), hour, minute);
  }

  lemma SameMinute(d: Date, e: Date, hour: int, minute: int)
    requires DayNumber(d) == DayNumber(e)
    ensures MinuteOf(d, hour, minute) == MinuteOf(e, hour, minute)
  {
  }

  lemma WindowIsLong(t: int)
    ensures AddTwoYears(t) >= t + 729 * MINUTES_PER_DAY
  {
    var c := CivilOf(t);
    MinuteOfCivil(t);
    YearsGrow(c.date.year, c.date.year + 2);
  }

  /** The search starts at the least whole minute after the instant. */
  lemma FirstMinuteIsNext(fromNanos: int, m: int)
    ensures FirstMinute(fromNanos) <= m <==> fromNanos < m * 60_000_000_000
  {
    var q := fromNanos / NANOS_PER_MINUTE;
    assert fromNanos == q * NANOS_PER_MINUTE + fromNanos % NANOS_PER_MINUTE;
  }

  // ------------------------------------------------------------- one time of day

  /** "m h * * w", or "m h * * *" without a weekday. */
  function AtTime(m: nat, h: nat, w: Option<nat>): seq<seq<Form>> {
    [[Form(One(m), None)], [Form(One(h), None)], [Form(Star, None)], [Form(Star, None)],
     [if w.Some? then Form(One(w.value), None) else Form(Star, None)]]
  }

  predicate ValidTime(m: nat, h: nat, w: Option<nat>) {
    m <= 59 && h <= 23 && (w.Some? ==> w.value <= 6)
  }

  lemma OneForm(f: Form)
    ensures RenderField([f]) == RenderForm(f)
  {
    assert RenderAll([f]) == [RenderForm(f)];
  }

  lemma AtTimeParts(m: nat, h: nat, w: Option<nat>, k: nat)
    requires k < 5
    ensures RenderField(AtTime(m, h, w)[k])
            == if k == 0 then Itoa(m) else if k == 1 then Itoa(h) else if k == 4 && w.Some? then Itoa(w.value) else "*"
  {
    OneForm(AtTime(m, h, w)[k][0]);
  }

  lemma AtTimeText(m: nat, h: nat, w: Option<nat>)
    ensures RenderExpr(AtTime(m, h, w))
            == Itoa(m) + " " + (Itoa(h) + " " + ("*" + " " + ("*" + " " + if w.Some? then Itoa(w.value) else "*")))
  {
    var e := AtTime(m, h, w);
    var parts := seq(5, k requires 0 <= k < 5 => RenderField(e[k]));
    AtTimeParts(m, h, w, 0);
    AtTimeParts(m, h, w, 1);
    AtTimeParts(m, h, w, 2);
    AtTimeParts(m, h, w, 3);
    AtTimeParts(m, h, w, 4);
    JoinFive(parts);
  }

  lemma JoinFive(parts: seq<string>)
    requires |parts| == 5
    ensures Join(parts, " ") == parts[0] + " " + (parts[1] + " " + (parts[2] + " " + (parts[3] + " " + parts[4])))
  {
    JoinStep(parts);
    JoinStep(parts[1..]);
    JoinStep(parts[1..][1..]);
    JoinStep(parts[1..][1..][1..]);
  }

  lemma JoinStep(parts: seq<string>)
    requires |parts| >= 2
    ensures Join(parts, " ") == parts[0] + " " + Join(parts[1..], " ")
    ensures |parts| == 2 ==> Join(parts[1..], " ") == parts[1]
  {
  }

  /** A schedule of one time of day, on one weekday or on every day. */
  ghost predicate Daily(s: Schedule, m: int, h: int, w: Option<nat>) {
    && (forall v :: v in s.minute <==> v == m) && (forall v :: v in s.hour <==> v == h)
    && (forall v :: 1 <= v <= 12 ==> v in s.month) && s.anyDOM
    && (s.anyDOW <==> w.None?) && (w.Some? ==> forall v :: v in s.dow <==> v == w.value)
  }

  lemma AtTimeValid(m: nat, h: nat, w: Option<nat>, k: nat)
    requires ValidTime(m, h, w) && k < 5
    ensures ValidField(AtTime(m, h, w)[k], FIELD_LO[k], FIELD_HI[k])
  {
  }

  lemma AtTimeDays(e: seq<seq<Form>>, parts: seq<string>, m: nat, h: nat, w: Option<nat>)
    requires ValidExpr(e) && e == AtTime(m, h, w) && |parts| == 5 && forall k :: 0 <= k < 5 ==> parts[k] == RenderField(e[k])
    ensures parts[2] == "*" && parts[3] == "*" && (parts[4] == "*" <==> w.None?)
    ensures w.Some? ==> forall v :: v in Selected(parts, 4) <==> v == w.value
  {
    AtTimeParts(m, h, w, 2);
    AtTimeParts(m, h, w, 3);
    AtTimeParts(m, h, w, 4);
    if w.Some? {
      OnlyValue(e, parts, 4, w.value);
      assert IsDigit(Itoa(w.value)[0]);
    }
  }

  lemma AtTimeMeaning(parts: seq<string>, m: nat, h: nat, w: Option<nat>)
    requires ValidTime(m, h, w) && parts == Fields(RenderExpr(AtTime(m, h, w)))
    ensures ParseOutcome(parts) == Ok(()) && Daily(ScheduleOf(parts), m, h, w)
  {
    var e := AtTime(m, h, w);
    forall k | 0 <= k < 5
      ensures ValidField(e[k], FIELD_LO[k], FIELD_HI[k])
    {
      AtTimeValid(m, h, w, k);
    }
    ExprRoundTrip(e);
    DocumentedFormsParse(e);
    OnlyValue(e, parts, 0, m);
    OnlyValue(e, parts, 1, h);
    AtTimeDays(e, parts, m, h, w);
    StarSelectsAll(parts, 3);
  }

  /** The minutes of a week, counted from Monday 00:00, or of a day. */
  predicate OnTime(t: int, m: int, h: int, w: Option<nat>) {
    match w
    case Some(w) => t % 10080 == (w + 6) % 7 * 1440 + h * 60 + m
    case None => t % 1440 == h * 60 + m
  }

  lemma WeekOf(t: int)
    ensures t % 10080 == t / 1440 % 7 * 1440 + t % 1440
  {
  }

  lemma CivilParts(t: int)
    ensures var c := CivilOf(t);
            && CivilInRange(c) && c.weekday == WeekdayOf(t / 1440)
            && c.hour == t % 1440 / 60 && c.minute == t % 1440 % 60
  {
    MinuteOfCivil(t);
  }

  lemma DailyMeans(s: Schedule, c: Civil, m: int, h: int, w: Option<nat>)
    requires Daily(s, m, h, w) && CivilInRange(c)
    ensures Fires(s, c) <==> c.minute == m && c.hour == h && (w.Some? ==> c.weekday == w.value)
  {
  }

  lemma TimeOfDay(r: int, m: int, h: int)
    requires 0 <= r < 1440 && 0 <= m < 60
    ensures r % 60 == m && r / 60 == h <==> r == h * 60 + m
  {
  }

  lemma WeekdaySlot(day: int, w: int)
    requires 0 <= w <= 6
    ensures WeekdayOf(day) == w <==> day % 7 == (w + 6) % 7
  {
  }

  lemma SlotOf(a: int, r: int, b: int, q: int)
    requires 0 <= r < 1440 && 0 <= q < 1440
    ensures a * 1440 + r == b * 1440 + q <==> a == b && r == q
  {
  }

  /** On time is the weekday, the hour and the minute asked for. */
  lemma OnTimeMeans(t: int, day: int, r: int, m: int, h: int, w: Option<nat>)
    requires 0 <= m <= 59 && 0 <= h <= 23 && (w.Some? ==> w.value <= 6)
    requires 0 <= r < 1440 && t % 1440 == r && t % 10080 == day % 7 * 1440 + r
    ensures OnTime(t, m, h, w) <==> r % 60 == m && r / 60 == h && (w.Some? ==> WeekdayOf(day) == w.value)
  {
    TimeOfDay(r, m, h);
    if w.Some? {
      WeekdaySlot(day, w.value);
      SlotOf(day % 7, r, (w.value + 6) % 7, h * 60 + m);
    }
  }

  lemma DailyFires(s: Schedule, m: int, h: int, w: Option<nat>, t: int)
    requires 0 <= m <= 59 && 0 <= h <= 23 && (w.Some? ==> w.value <= 6) && Daily(s, m, h, w)
    ensures FiresAt(s, t) <==> OnTime(t, m, h, w)
  {
    CivilParts(t);
    WeekOf(t);
    DailyMeans(s, CivilOf(t), m, h, w);
    OnTimeMeans(t, t / 1440, t % 1440, m, h, w);
  }

  lemma NextInWeek(first: int, slot: int) returns (t: int)
    requires 0 <= slot < 10080
    ensures first <= t < first + 10080 && t % 10080 == slot
    ensures forall u :: first <= u && u % 10080 == slot ==> t <= u
  {
    t := first - first % 10080 + slot + if first % 10080 <= slot then 0 else 10080;
  }

  lemma NextInDay(first: int, slot: int) returns (t: int)
    requires 0 <= slot < 1440
    ensures first <= t < first + 1440 && t % 1440 == slot
    ensures forall u :: first <= u && u % 1440 == slot ==> t <= u
  {
    t := first - first % 1440 + slot + if first % 1440 <= slot then 0 else 1440;
  }

  /** The least minute on time from first on. */
  lemma NextOnTime(first: int, m: int, h: int, w: Option<nat>) returns (t: int)
    requires 0 <= m <= 59 && 0 <= h <= 23 && (w.Some? ==> w.value <= 6)
    ensures first <= t < first + 10080 && OnTime(t, m, h, w)
    ensures forall u :: first <= u && OnTime(u, m, h, w) ==> t <= u
  {
    if w.Some? {
      t := NextInWeek(first, (w.value + 6) % 7 * 1440 + h * 60 + m);
    } else {
      t := NextInDay(first, h * 60 + m);
    }
  }

  /** A schedule of one time of day is always answered: with the least minute from the search's start
      that is at that time, and on that weekday if it names one. */
  lemma TimeAnswered(m: nat, h: nat, w: Option<nat>, fromNanos: int, r: Outcome<int, CronError>)
    requires ValidTime(m, h, w)
    ensures NextRunIs(RenderExpr(AtTime(m, h, w)), fromNanos, r)
            <==> && r.Ok? && fromNanos < r.value * NANOS_PER_MINUTE && OnTime(r.value, m, h, w)
                 && forall u :: fromNanos < u * NANOS_PER_MINUTE && OnTime(u, m, h, w) ==> r.value <= u
  {
    var expr := RenderExpr(AtTime(m, h, w));
    AtTimeMeaning(Fields(expr), m, h, w);
    var first, s := FirstMinute(fromNanos), ScheduleOf(Fields(expr));
    var t := NextOnTime(first, m, h, w);
    WindowIsLong(first);
    forall u
      ensures FiresAt(s, u) <==> OnTime(u, m, h, w)
      ensures first <= u <==> fromNanos < u * NANOS_PER_MINUTE
    {
      DailyFires(s, m, h, w, u);
      FirstMinuteIsNext(fromNanos, u);
    }
    AnswerIsLeast(s, fromNanos, t, r);
  }

  lemma AnswerIsLeast(s: Schedule, fromNanos: int, t: int, r: Outcome<int, CronError>)
    requires InWindow(fromNanos, t) && FiresAt(s, t)
    requires forall u :: FirstMinute(fromNanos) <= u && FiresAt(s, u) ==> t <= u
    ensures IsLeastFiring(s, fromNanos, r) <==> r == Ok(t)
  {
  }

  /** On a date with the weekday asked for (on any date, if none is): a schedule asked less than a week
      (or a day) ahead of its time on that date is answered with exactly that time. */
  lemma DateAnswered(d: Date, m: nat, h: nat, w: Option<nat>, fromNanos: int)
    requires ValidTime(m, h, w) && (w.Some? ==> WeekdayOf(DayNumber(d)) == w.value)
    requires var t := MinuteOf(d, h, m);
             (t - if w.Some? then 10080 else 1440) * NANOS_PER_MINUTE <= fromNanos < t * NANOS_PER_MINUTE
    ensures NextRunIs(RenderExpr(AtTime(m, h, w)), fromNanos, Ok(MinuteOf(d, h, m)))
  {
    var t := MinuteOf(d, h, m);
    DateOnTime(DayNumber(d), m, h, w);
    var period := if w.Some? then 10080 else 1440;
    forall u | fromNanos < u * NANOS_PER_MINUTE && OnTime(u, m, h, w)
      ensures t <= u
    {
      if u < t {
        Spaced(u, t, m, h, w);
      }
    }
    TimeAnswered(m, h, w, fromNanos, Ok(t));
  }

  lemma DateOnTime(day: int, m: int, h: int, w: Option<nat>)
    requires 0 <= m <= 59 && 0 <= h <= 23 && (w.Some? ==> WeekdayOf(day) == w.value)
    ensures OnTime(day * 1440 + h * 60 + m, m, h, w)
  {
    var t, r := day * 1440 + h * 60 + m, h * 60 + m;
    DayAndTime(day, r);
    WeekOf(t);
    TimeOfDay(r, m, h);
    OnTimeMeans(t, day, r, m, h, w);
  }

  lemma DayAndTime(day: int, r: int)
    requires 0 <= r < 1440
    ensures (day * 1440 + r) / 1440 == day && (day * 1440 + r) % 1440 == r
  {
  }

  lemma WeekApart(u: int, t: int)
    requires u < t && u % 10080 == t % 10080
    ensures u <= t - 10080
  {
  }

  lemma DayApart(u: int, t: int)
    requires u < t && u % 1440 == t % 1440
    ensures u <= t - 1440
  {
  }

  /** Two times of one schedule are a week, or a day, apart. */
  lemma Spaced(u: int, t: int, m: int, h: int, w: Option<nat>)
    requires OnTime(u, m, h, w) && OnTime(t, m, h, w) && u < t
    ensures u <= t - if w.Some? then 10080 else 1440
  {
    if w.Some? {
      WeekApart(u, t);
    } else {
      DayApart(u, t);
    }
  }

  lemma JanuaryFifth(monday: Date)
    requires monday.year == 2026 && monday.month == 1 && monday.day == 5
    ensures WeekdayOf(DayNumber(monday)) == 1
  {
    DayClosedForm(monday);
  }

  lemma NineOnMondays(m: nat, h: nat, w: Option<nat>)
    requires m == 0 && h == 9 && w == Some(1)
    ensures RenderExpr(AtTime(m, h, w)) == "0 9 * * 1"
  {
    AtTimeText(m, h, w);
    assert "*" + " " + ("*" + " " + "1") == "* * 1";
    assert Itoa(m) == "0" && Itoa(h) == "9" && Itoa(w.value) == "1";
  }

  /** "0 9 * * 1" asked at eight in the morning of Monday, January 5 of 2026 is answered with nine
      o'clock that day; asked at nine, with nine o'clock a week later. */
  lemma MondayAtNine(monday: Date, next: Date, fromNanos: int, w: Option<nat>)
    requires monday.year == 2026 && monday.month == 1 && monday.day == 5 && next == monday.(day := 12) && w == Some(1)
    ensures fromNanos == MinuteOf(monday, 8, 0) * NANOS_PER_MINUTE ==>
              NextRunIs("0 9 * * 1", fromNanos, Ok(MinuteOf(monday, 9, 0)))
    ensures fromNanos == MinuteOf(monday, 9, 0) * NANOS_PER_MINUTE ==>
              NextRunIs("0 9 * * 1", fromNanos, Ok(MinuteOf(next, 9, 0)))
  {
    JanuaryFifth(monday);
    NineOnMondays(0, 9, w);
    assert DayNumber(next) == DayNumber(monday) + 7;
    WeekLater(DayNumber(monday));
    if fromNanos == MinuteOf(monday, 8, 0) * NANOS_PER_MINUTE {
      DateAnswered(monday, 0, 9, w, fromNanos);
    } else if fromNanos == MinuteOf(monday, 9, 0) * NANOS_PER_MINUTE {
      DateAnswered(next, 0, 9, w, fromNanos);
    }
  }

  lemma WeekLater(day: int)
    ensures WeekdayOf(day + 7) == WeekdayOf(day)
  {
  }
}

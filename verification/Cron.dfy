/** The five-field schedule parser and the minute search.

`Fill`, `ParseCron` and `NextRun` are the loops; `FieldSelects` and `Fires` say what the
five text fields mean without mentioning slots or search order. */
module Cron {
  import opened Text
  import opened Calendar

  datatype ItemError = BadStep | BadRange | BadValue | OutsideRange

  datatype CronError = FieldCount | BadField(index: nat, error: ItemError) | NeverMatches

  /** `Panic` is an out-of-bounds slot index, which stops the goroutine. */
  datatype Outcome<+T, +E> = Ok(value: T) | Err(error: E) | Panic

  /** One comma item: every step-th value from first to last. */
  datatype Item = Item(start: int, end: int, step: int)

  datatype Parsed = Accepted(item: Item) | Refused(error: ItemError)

  /** The value ranges the five fields use. */
  predicate FieldRange(lo: int, hi: int) {
    0 <= lo <= hi <= 59
  }

  /** The end points an item spells, before range checking. */
  function ParseEnds(base: string, lo: int, hi: int): Parsed {
    if base == "*" then Accepted(Item(lo, hi, 1))
    else if '-' in base then
      var i := IndexOf(base, '-');
      match (Atoi(base[..i]), Atoi(base[i + 1..])) {
        case (Some(a), Some(b)) => Accepted(Item(a, b, 1))
        case _ => Refused(BadRange)
      }
    else
      match Atoi(base) {
        case Some(a) => Accepted(Item(a, a, 1))
        case None => Refused(BadValue)
      }
  }

  function ParseItem(text: string, lo: int, hi: int): Parsed {
    var i := IndexOf(text, '/');
    var step := if i < |text| then Atoi(text[i + 1..]) else Some(1);
    if step.None? || step.value < 1 then Refused(BadStep)
    else
      match ParseEnds(text[..i], lo, hi) {
        case Refused(e) => Refused(e)
        case Accepted(ends) =>
          if ends.start < lo || ends.end > hi || ends.start > ends.end then Refused(OutsideRange)
          else Accepted(ends.(step := step.value))
      }
  }

  predicate ItemInRange(it: Item, lo: int, hi: int) {
    lo <= it.start <= it.end <= hi && 1 <= it.step <= MAX_INT64
  }

  /** v is start, start + step, start + 2 * step, and so on. */
  predicate OnGrid(start: int, step: int, v: int)
    decreases v - start
  {
    v == start || (1 <= step <= v - start && OnGrid(start, step, v - step))
  }

  predicate ItemSelects(it: Item, v: int) {
    it.start <= v <= it.end && OnGrid(it.start, it.step, v)
  }

  /** Stepping past the last value wraps a 64-bit counter exactly for these items. */
  predicate Overflows(it: Item) {
    it.start + it.step > MAX_INT64
  }

  lemma AcceptedInRange(text: string, lo: int, hi: int)
    ensures ParseItem(text, lo, hi).Accepted? ==> ItemInRange(ParseItem(text, lo, hi).item, lo, hi)
  {
  }

  /** What a list of comma items does: the first refused or overflowing item decides. */
  function FieldOutcome(items: seq<string>, lo: int, hi: int): Outcome<(), ItemError> {
    if items == [] then Ok(())
    else
      match ParseItem(items[0], lo, hi) {
        case Refused(e) => Err(e)
        case Accepted(it) => if Overflows(it) then Panic else FieldOutcome(items[1..], lo, hi)
      }
  }

  predicate TextSelects(text: string, lo: int, hi: int, v: int) {
    ParseItem(text, lo, hi).Accepted? && ItemSelects(ParseItem(text, lo, hi).item, v)
  }

  /** Some of the first n comma items selects v. */
  predicate SomeSelects(items: seq<string>, n: nat, lo: int, hi: int, v: int)
    requires n <= |items|
  {
    exists i :: 0 <= i < n && TextSelects(items[i], lo, hi, v)
  }

  /** A field selects v when some comma item does. */
  predicate FieldSelects(items: seq<string>, lo: int, hi: int, v: int) {
    SomeSelects(items, |items|, lo, hi, v)
  }

  lemma {:induction false} GridGap(start: int, step: int, v: int, u: int)
    requires step >= 1 && OnGrid(start, step, v) && OnGrid(start, step, u) && v < u
    ensures v + step <= u
    decreases v - start
  {
    if v != start {
      GridGap(start, step, v - step, u - step);
    }
  }

  function StepsOn(start: int, step: int, k: nat): int {
    start + k * step
  }

  lemma {:induction false} GridAt(start: int, step: int, k: nat)
    requires step >= 1
    ensures OnGrid(start, step, StepsOn(start, step, k))
  {
    if k > 0 {
      GridAt(start, step, k - 1);
      assert StepsOn(start, step, k) - step == StepsOn(start, step, k - 1);
      GridStart(start, step, StepsOn(start, step, k - 1));
    }
  }

  /** The values on the grid are the start and those any whole number of steps after it. */
  lemma {:induction false} OnGridExactly(start: int, step: int, v: int)
    requires step >= 1
    ensures OnGrid(start, step, v) <==> exists k: nat :: StepsOn(start, step, k) == v
    decreases v - start
  {
    if v == start {
      assert StepsOn(start, step, 0) == v;
    } else if OnGrid(start, step, v) {
      OnGridExactly(start, step, v - step);
      var k: nat :| StepsOn(start, step, k) == v - step;
      assert StepsOn(start, step, k + 1) == v;
    } else if k: nat :| StepsOn(start, step, k) == v {
      GridAt(start, step, k);
    }
  }

  lemma NothingSkipped(it: Item, v: int)
    requires it.step >= 1 && OnGrid(it.start, it.step, v)
    ensures forall u :: ItemSelects(it, u) && u < v + it.step ==> u <= v
  {
    forall u | ItemSelects(it, u) && v < u
      ensures v + it.step <= u
    {
      GridGap(it.start, it.step, v, u);
    }
  }

  lemma {:induction false} GridStart(start: int, step: int, v: int)
    requires step >= 1 && OnGrid(start, step, v)
    ensures start <= v && (v == start || start + step <= v)
  {
  }

  /** A slice of length hi - lo + 1 starting at index base, as a caller hands it over. */
  predicate SliceFits(slots: array<bool>, base: nat, lo: int, hi: int) {
    FieldRange(lo, hi) && base + (hi - lo) + 1 == slots.Length
  }

  /** Marks the slots of one item; false means the counter wrapped and an index was out of bounds. */
  method FillItem(it: Item, lo: int, hi: int, slots: array<bool>, base: nat) returns (inBounds: bool)
    requires SliceFits(slots, base, lo, hi) && ItemInRange(it, lo, hi)
    modifies slots
    ensures inBounds <==> !Overflows(it)
    ensures inBounds ==>
              forall i :: 0 <= i < slots.Length ==>
                slots[i] == (old(slots[i]) || (base <= i && ItemSelects(it, i - base + lo)))
  {
    var v := it.start;
    while v <= it.end
      invariant v < it.start ==> Overflows(it) && MIN_INT64 <= v < lo
      invariant v > it.end ==> !Overflows(it)
      invariant v >= it.start ==> OnGrid(it.start, it.step, v)
      invariant v >= it.start ==>
                  forall i :: 0 <= i < slots.Length ==>
                    slots[i] == (old(slots[i]) || (base <= i && ItemSelects(it, i - base + lo) && i - base + lo < v))
      decreases if v < it.start then 0 else it.end + 1 - v
    {
      var index := Wrap64(v - lo);
      if !(0 <= index < slots.Length - base) {
        return false;
      }
      slots[base + index] := true;
      GridStart(it.start, it.step, v);
      NothingSkipped(it, v);
      v := Wrap64(v + it.step);
    }
    return true;
  }

  /** Sets a slot for every value the field selects; slots already set stay set. */
  method Fill(field: string, lo: int, hi: int, slots: array<bool>, base: nat)
    returns (o: Outcome<(), ItemError>)
    requires SliceFits(slots, base, lo, hi)
    modifies slots
    ensures o == FieldOutcome(Split(field, ','), lo, hi)
    ensures o.Ok? ==>
              forall i :: 0 <= i < slots.Length ==>
                slots[i] == (old(slots[i]) || (base <= i && FieldSelects(Split(field, ','), lo, hi, i - base + lo)))
  {
    var items := Split(field, ',');
    var n := 0;
    while n < |items|
      invariant 0 <= n <= |items|
      invariant FieldOutcome(items[n..], lo, hi) == FieldOutcome(items, lo, hi)
      invariant forall i :: 0 <= i < slots.Length ==>
                  slots[i] == (old(slots[i]) || (base <= i && SomeSelects(items, n, lo, hi, i - base + lo)))
    {
      assert items[n..][0] == items[n] && items[n..][1..] == items[n + 1..];
      match ParseItem(items[n], lo, hi) {
        case Refused(e) =>
          return Err(e);
        case Accepted(it) =>
          AcceptedInRange(items[n], lo, hi);
          var inBounds := FillItem(it, lo, hi, slots, base);
          if !inBounds {
            return Panic;
          }
          assert forall v :: TextSelects(items[n], lo, hi, v) == ItemSelects(it, v);
      }
      n := n + 1;
    }
    return Ok(());
  }

  /** Slot tables indexed by field value; dom and month have an unused slot 0. */
  datatype CronFields = CronFields(
    minute: seq<bool>, hour: seq<bool>, dom: seq<bool>, month: seq<bool>, dow: seq<bool>,
    anyDOM: bool, anyDOW: bool)

  predicate Shaped(f: CronFields) {
    |f.minute| == 60 && |f.hour| == 24 && |f.dom| == 32 && |f.month| == 13 && |f.dow| == 7
  }

  const FIELD_LO: seq<int> := [0, 0, 1, 1, 0]
  const FIELD_HI: seq<int> := [59, 23, 31, 12, 6]

  /** The values the k-th text field selects. */
  function Selected(parts: seq<string>, k: nat): set<int>
    requires |parts| == 5 && k < 5
  {
    set v | FIELD_LO[k] <= v <= FIELD_HI[k] && FieldSelects(Split(parts[k], ','), FIELD_LO[k], FIELD_HI[k], v)
  }

  /** What five text fields mean: a set of values each, and whether a day field is a bare star. */
  datatype Schedule = Schedule(
    minute: set<int>, hour: set<int>, dom: set<int>, month: set<int>, dow: set<int>,
    anyDOM: bool, anyDOW: bool)

  function ScheduleOf(parts: seq<string>): Schedule
    requires |parts| == 5
  {
    Schedule(Selected(parts, 0), Selected(parts, 1), Selected(parts, 2), Selected(parts, 3),
             Selected(parts, 4), parts[2] == "*", parts[4] == "*")
  }

  function OutcomeFrom(parts: seq<string>, k: nat): Outcome<(), CronError>
    requires |parts| == 5 && k <= 5
    decreases 5 - k
  {
    if k == 5 then Ok(())
    else
      match FieldOutcome(Split(parts[k], ','), FIELD_LO[k], FIELD_HI[k]) {
        case Ok(_) => OutcomeFrom(parts, k + 1)
        case Err(e) => Err(BadField(k, e))
        case Panic => Panic
      }
  }

  /** What parsing does to a list of text fields. */
  function ParseOutcome(parts: seq<string>): Outcome<(), CronError> {
    if |parts| != 5 then Err(FieldCount) else OutcomeFrom(parts, 0)
  }

  ghost predicate TableFor(slots: seq<bool>, values: set<int>) {
    forall i :: 0 <= i < |slots| ==> slots[i] == (i in values)
  }

  /** The tables hold exactly the schedule. */
  ghost predicate Denotes(f: CronFields, s: Schedule) {
    && Shaped(f)
    && TableFor(f.minute, s.minute) && TableFor(f.hour, s.hour)
    && TableFor(f.dom, s.dom) && TableFor(f.month, s.month) && TableFor(f.dow, s.dow)
    && f.anyDOM == s.anyDOM && f.anyDOW == s.anyDOW
  }

  /** A table for the values lo to hi, indexed by value. */
  method FillSlots(field: string, lo: int, hi: int) returns (o: Outcome<seq<bool>, ItemError>)
    requires FieldRange(lo, hi)
    ensures match FieldOutcome(Split(field, ','), lo, hi) {
              case Ok(_) =>
                && o.Ok? && |o.value| == hi + 1
                && forall i :: 0 <= i <= hi ==> (o.value[i] <==> lo <= i && FieldSelects(Split(field, ','), lo, hi, i))
              case Err(e) => o == Err(e)
              case Panic => o == Panic
            }
  {
    var slots := new bool[hi + 1](_ => false);
    var done := Fill(field, lo, hi, slots, lo);
    match done {
      case Ok(_) => o := Ok(slots[..]);
      case Err(e) => o := Err(e);
      case Panic => o := Panic;
    }
  }

  /** One field of the table, filled from slot base on. */
  method FillTable(parts: seq<string>, k: nat, base: nat) returns (o: Outcome<seq<bool>, CronError>)
    requires |parts| == 5 && k < 5 && base == FIELD_LO[k]
    ensures match FieldOutcome(Split(parts[k], ','), FIELD_LO[k], FIELD_HI[k]) {
              case Ok(_) => o.Ok? && |o.value| == FIELD_HI[k] + 1 && TableFor(o.value, Selected(parts, k))
              case Err(e) => o == Err(BadField(k, e))
              case Panic => o == Panic
            }
  {
    var done := FillSlots(parts[k], base, FIELD_HI[k]);
    match done {
      case Ok(slots) => o := Ok(slots);
      case Err(e) => o := Err(BadField(k, e));
      case Panic => o := Panic;
    }
  }

  method ParseCron(expr: string) returns (r: Outcome<CronFields, CronError>)
    ensures match ParseOutcome(Fields(expr)) {
              case Ok(_) => r.Ok? && Denotes(r.value, ScheduleOf(Fields(expr)))
              case Err(e) => r == Err(e)
              case Panic => r == Panic
            }
  {
    var parts := Fields(expr);
    if |parts| != 5 {
      return Err(FieldCount);
    }
    var minute := FillTable(parts, 0, 0);
    if !minute.Ok? { return if minute.Panic? then Panic else Err(minute.error); }
    var hour := FillTable(parts, 1, 0);
    if !hour.Ok? { return if hour.Panic? then Panic else Err(hour.error); }
    var dom := FillTable(parts, 2, 1);
    if !dom.Ok? { return if dom.Panic? then Panic else Err(dom.error); }
    var month := FillTable(parts, 3, 1);
    if !month.Ok? { return if month.Panic? then Panic else Err(month.error); }
    var dow := FillTable(parts, 4, 0);
    if !dow.Ok? { return if dow.Panic? then Panic else Err(dow.error); }
    assert OutcomeFrom(parts, 5) == Ok(());
    assert OutcomeFrom(parts, 3) == Ok(());
    r := Ok(CronFields(minute.value, hour.value, dom.value, month.value, dow.value,
                       parts[2] == "*", parts[4] == "*"));
  }

  predicate CivilInRange(c: Civil) {
    ValidDate(c.date) && 0 <= c.weekday < 7 && 0 <= c.hour < 24 && 0 <= c.minute < 60
  }

  predicate Match(f: CronFields, c: Civil)
    requires Shaped(f) && CivilInRange(c)
  {
    if !f.minute[c.minute] || !f.hour[c.hour] || !f.month[c.date.month] then false
    else
      var domOK := f.dom[c.date.day];
      var dowOK := f.dow[c.weekday];
      if f.anyDOM && f.anyDOW then true
      else if f.anyDOM then dowOK
      else if f.anyDOW then domOK
      else domOK || dowOK
  }

  /** The day rule: no restriction, or a day chosen by one of the restricted day fields. */
  predicate DayFires(s: Schedule, c: Civil) {
    || (s.anyDOM && s.anyDOW)
    || (!s.anyDOM && c.date.day in s.dom)
    || (!s.anyDOW && c.weekday in s.dow)
  }

  /** When a schedule fires. */
  predicate Fires(s: Schedule, c: Civil) {
    c.minute in s.minute && c.hour in s.hour && c.date.month in s.month && DayFires(s, c)
  }

  lemma MatchMeansFires(f: CronFields, s: Schedule, c: Civil)
    requires Denotes(f, s) && CivilInRange(c)
    ensures Match(f, c) <==> Fires(s, c)
  {
    assert c.date.day <= 31;
  }

  const NANOS_PER_MINUTE := 60_000_000_000

  /** The whole minute after the one holding a nanosecond instant. */
  function FirstMinute(fromNanos: int): int {
    fromNanos / NANOS_PER_MINUTE + 1
  }

  predicate InWindow(fromNanos: int, t: int) {
    FirstMinute(fromNanos) <= t <= AddTwoYears(FirstMinute(fromNanos))
  }

  predicate FiresAt(s: Schedule, t: int) {
    Fires(s, CivilOf(t))
  }

  /** r is what the search must answer: the least firing minute of the window, or the right failure. */
  ghost predicate NextRunIs(expr: string, fromNanos: int, r: Outcome<int, CronError>) {
    match ParseOutcome(Fields(expr)) {
      case Panic => r == Panic
      case Err(e) => r == Err(e)
      case Ok(_) => IsLeastFiring(ScheduleOf(Fields(expr)), fromNanos, r)
    }
  }

  ghost predicate IsLeastFiring(s: Schedule, fromNanos: int, r: Outcome<int, CronError>) {
    match r {
      case Ok(m) =>
        && InWindow(fromNanos, m) && FiresAt(s, m)
        && forall t :: InWindow(fromNanos, t) && FiresAt(s, t) ==> m <= t
      case Err(e) => e == NeverMatches && forall t :: InWindow(fromNanos, t) ==> !FiresAt(s, t)
      case Panic => false
    }
  }

  method Test(f: CronFields, ghost s: Schedule, t: int) returns (hit: bool)
    requires Denotes(f, s)
    ensures hit <==> FiresAt(s, t)
  {
    MinuteOfCivil(t);
    MatchMeansFires(f, s, CivilOf(t));
    hit := Match(f, CivilOf(t));
  }

  /** No minute of the range fires. */
  ghost predicate Silent(s: Schedule, first: int, until: int) {
    forall t :: first <= t < until ==> !FiresAt(s, t)
  }

  lemma SilentGrows(s: Schedule, first: int, t: int)
    requires Silent(s, first, t) && !FiresAt(s, t)
    ensures Silent(s, first, t + 1)
  {
  }

  /** The minute-by-minute scan from first through limit. */
  method Search(f: CronFields, ghost s: Schedule, first: int, limit: int) returns (r: Option<int>)
    requires Denotes(f, s)
    ensures r.Some? ==> first <= r.value <= limit && FiresAt(s, r.value) && Silent(s, first, r.value)
    ensures r.None? ==> Silent(s, first, limit + 1)
  {
    var t := first;
    while t <= limit
      invariant t >= first && Silent(s, first, t)
      decreases limit - t
    {
      var hit := Test(f, s, t);
      if hit {
        return Some(t);
      }
      SilentGrows(s, first, t);
      t := t + 1;
    }
    return None;
  }

  method NextRun(expr: string, fromNanos: int) returns (r: Outcome<int, CronError>)
    ensures NextRunIs(expr, fromNanos, r)
  {
    var parsed := ParseCron(expr);
    match parsed {
      case Err(e) => return Err(e);
      case Panic => return Panic;
      case Ok(f) =>
        var first := FirstMinute(fromNanos);
        var found := Search(f, ScheduleOf(Fields(expr)), first, AddTwoYears(first));
        r := if found.Some? then Ok(found.value) else Err(NeverMatches);
    }
  }

  lemma LeastFiringUnique(s: Schedule, fromNanos: int, r: Outcome<int, CronError>, q: Outcome<int, CronError>)
    requires IsLeastFiring(s, fromNanos, r) && IsLeastFiring(s, fromNanos, q)
    ensures r == q
  {
  }

  /** The specification leaves no choice of answer. */
  lemma NextRunUnique(expr: string, fromNanos: int, r: Outcome<int, CronError>, q: Outcome<int, CronError>)
    requires NextRunIs(expr, fromNanos, r) && NextRunIs(expr, fromNanos, q)
    ensures r == q
  {
    if ParseOutcome(Fields(expr)).Ok? {
      LeastFiringUnique(ScheduleOf(Fields(expr)), fromNanos, r, q);
    }
  }

  ghost function Scan(s: Schedule, t: int, limit: int): (r: Option<int>)
    ensures r.Some? ==> t <= r.value <= limit && FiresAt(s, r.value)
    ensures forall u :: t <= u <= limit && (r.Some? ==> u < r.value) ==> !FiresAt(s, u)
    decreases limit - t
  {
    if t > limit then None else if FiresAt(s, t) then Some(t) else Scan(s, t + 1, limit)
  }

  /** The one answer the specification allows. */
  ghost function Answer(expr: string, fromNanos: int): (r: Outcome<int, CronError>)
    ensures NextRunIs(expr, fromNanos, r)
  {
    match ParseOutcome(Fields(expr)) {
      case Panic => Panic
      case Err(e) => Err(e)
      case Ok(_) =>
        var first := FirstMinute(fromNanos);
        var found := Scan(ScheduleOf(Fields(expr)), first, AddTwoYears(first));
        if found.Some? then Ok(found.value) else Err(NeverMatches)
    }
  }

  /** An answer is a whole minute strictly after the given instant, at most one window away. */
  lemma NextRunIsLater(expr: string, fromNanos: int, m: int)
    requires NextRunIs(expr, fromNanos, Ok(m))
    ensures m * NANOS_PER_MINUTE > fromNanos
    ensures |Fields(expr)| == 5 && FiresAt(ScheduleOf(Fields(expr)), m)
  {
    assert fromNanos == (fromNanos / NANOS_PER_MINUTE) * NANOS_PER_MINUTE + fromNanos % NANOS_PER_MINUTE;
  }
}

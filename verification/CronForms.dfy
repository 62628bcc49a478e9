/** Laws over the text of an expression: what the documented forms denote, when a bare star
may be spelled with a step, and a schedule that fails although it will fire. */
module CronForms {
  import opened Text
  import opened Calendar
  import opened Cron
  import opened CronHorizon

  // ------------------------------------------------------------- star and star-slash-one

  lemma SameSelection(parts: seq<string>, other: seq<string>, k: nat)
    requires |parts| == |other| == 5 && k < 5
    requires parts[k] == other[k] || (parts[k] == "*" && other[k] == "*/1")
    ensures Selected(other, k) == Selected(parts, k)
    ensures FieldOutcome(Split(other[k], ','), FIELD_LO[k], FIELD_HI[k])
            == FieldOutcome(Split(parts[k], ','), FIELD_LO[k], FIELD_HI[k])
  {
    if parts[k] != other[k] {
      StarSelectsAll(parts, k);
      StarSelectsAll(other, k);
    }
  }

  lemma {:induction false} SameOutcomeFrom(parts: seq<string>, other: seq<string>, k: nat, from: nat)
    requires |parts| == 5 && k < 5 && parts[k] == "*" && other == parts[k := "*/1"] && from <= 5
    ensures OutcomeFrom(other, from) == OutcomeFrom(parts, from)
    decreases 5 - from
  {
    if from < 5 {
      SameSelection(parts, other, from);
      SameOutcomeFrom(parts, other, k, from + 1);
    }
  }

  /** Spelling a bare star as a step of one changes nothing but the two day flags. */
  lemma StarAsStep(parts: seq<string>, k: nat)
    requires |parts| == 5 && k < 5 && parts[k] == "*"
    ensures var other := parts[k := "*/1"];
            && ParseOutcome(other) == ParseOutcome(parts)
            && ScheduleOf(other) == ScheduleOf(parts).(
                anyDOM := k != 2 && parts[2] == "*", anyDOW := k != 4 && parts[4] == "*")
  {
    var other := parts[k := "*/1"];
    SameOutcomeFrom(parts, other, k, 0);
    SameSelection(parts, other, 0);
    SameSelection(parts, other, 1);
    SameSelection(parts, other, 2);
    SameSelection(parts, other, 3);
    SameSelection(parts, other, 4);
  }

  /** In the minute, hour and month fields the search answers the same from every instant. */
  lemma StarStepOutsideDays(expr: string, other: string, k: nat, fromNanos: int, r: Outcome<int, CronError>)
    requires |Fields(expr)| == 5 && k in {0, 1, 3} && Fields(expr)[k] == "*"
    requires Fields(other) == Fields(expr)[k := "*/1"]
    ensures NextRunIs(other, fromNanos, r) <==> NextRunIs(expr, fromNanos, r)
  {
    StarAsStep(Fields(expr), k);
    assert ScheduleOf(Fields(other)) == ScheduleOf(Fields(expr));
  }

  ghost predicate SameFiring(s: Schedule, q: Schedule) {
    forall t :: FiresAt(s, t) <==> FiresAt(q, t)
  }

  /** A moment on a given weekday of a selected month at a selected time. */
  lemma MomentOnWeekday(s: Schedule, w: int) returns (t: int)
    requires WellFormed(s) && 0 <= w < 7
    ensures var c := CivilOf(t);
            && CivilInRange(c) && c.weekday == w && c.date.month in s.month && c.hour in s.hour && c.minute in s.minute
  {
    var m := Pick(s.month, 1, 12);
    var h := Pick(s.hour, 0, 23);
    var n := Pick(s.minute, 0, 59);
    var d := WeekdayInMonth(1, m, w);
    t := MinuteOf(d, h, n);
    CivilOfMinute(d, h, n);
  }

  /** In the day-of-month field the two spellings agree at all times exactly when the
      day-of-week field is a star or selects the whole week. */
  lemma StarStepDayOfMonth(parts: seq<string>)
    requires ParseOutcome(parts).Ok? && parts[2] == "*"
    ensures SameFiring(ScheduleOf(parts), ScheduleOf(parts[2 := "*/1"]))
            <==> parts[4] == "*" || Everything(Selected(parts, 4), 0, 6)
  {
    var s, q := ScheduleOf(parts), ScheduleOf(parts[2 := "*/1"]);
    StarAsStep(parts, 2);
    ParsedWellFormed(parts);
    if s.anyDOW || Everything(s.dow, 0, 6) {
      forall t ensures FiresAt(s, t) <==> FiresAt(q, t) {
        MinuteOfCivil(t);
        SameFiringOfDays(s, CivilOf(t));
      }
    } else {
      var w :| 0 <= w <= 6 && w !in s.dow;
      var t := MomentOnWeekday(s, w);
      DomStepFires(s, CivilOf(t));
      assert !FiresAt(s, t) && FiresAt(q, t);
    }
  }

  lemma SameFiringOfDays(s: Schedule, c: Civil)
    requires WellFormed(s) && s.anyDOM && CivilInRange(c) && (s.anyDOW || Everything(s.dow, 0, 6))
    ensures Fires(s, c) <==> Fires(s.(anyDOM := false), c)
  {
    assert 1 <= c.date.day <= 31;
  }

  lemma DomStepFires(s: Schedule, c: Civil)
    requires WellFormed(s) && s.anyDOM && !s.anyDOW && CivilInRange(c) && c.weekday !in s.dow
    requires c.date.month in s.month && c.hour in s.hour && c.minute in s.minute
    ensures !Fires(s, c) && Fires(s.(anyDOM := false), c)
  {
    assert 1 <= c.date.day <= 31;
  }

  /** Every day that some selected month can have, Feb 29 included, is selected. */
  ghost predicate CoversMonths(s: Schedule) {
    forall m, d :: m in s.month && 1 <= d <= DaysInMonth(4, m) ==> d in s.dom
  }

  lemma DayInLeapYear(y: int, m: int, d: int)
    requires 1 <= m <= 12 && 1 <= d <= DaysInMonth(y, m)
    ensures d <= DaysInMonth(4, m)
  {
    assert IsLeap(4);
  }

  /** In the day-of-week field they agree at all times exactly when the day-of-month field is a
      star or covers every day the selected months can have. */
  lemma StarStepDayOfWeek(parts: seq<string>)
    requires ParseOutcome(parts).Ok? && parts[4] == "*"
    ensures SameFiring(ScheduleOf(parts), ScheduleOf(parts[4 := "*/1"]))
            <==> parts[2] == "*" || CoversMonths(ScheduleOf(parts))
  {
    var s, q := ScheduleOf(parts), ScheduleOf(parts[4 := "*/1"]);
    StarAsStep(parts, 4);
    ParsedWellFormed(parts);
    if s.anyDOM || CoversMonths(s) {
      forall t ensures FiresAt(s, t) <==> FiresAt(q, t) {
        MinuteOfCivil(t);
        var c := CivilOf(t);
        DayInLeapYear(c.date.year, c.date.month, c.date.day);
        SameFiringOfWeek(s, c);
      }
    } else {
      var m, k :| m in s.month && 1 <= k <= DaysInMonth(4, m) && k !in s.dom;
      var h := Pick(s.hour, 0, 23);
      var n := Pick(s.minute, 0, 59);
      var d := Date(4, m, k);
      CivilOfMinute(d, h, n);
      var t := MinuteOf(d, h, n);
      DowStepFires(s, CivilOf(t));
      assert !FiresAt(s, t) && FiresAt(q, t);
    }
  }

  lemma SameFiringOfWeek(s: Schedule, c: Civil)
    requires WellFormed(s) && s.anyDOW && CivilInRange(c) && (s.anyDOM || CoversMonths(s))
    requires c.date.day <= DaysInMonth(4, c.date.month)
    ensures Fires(s, c) <==> Fires(s.(anyDOW := false), c)
  {
    assert 0 <= c.weekday <= 6;
  }

  lemma DowStepFires(s: Schedule, c: Civil)
    requires WellFormed(s) && !s.anyDOM && s.anyDOW && 0 <= c.weekday <= 6 && c.date.day !in s.dom
    requires c.date.month in s.month && c.hour in s.hour && c.minute in s.minute
    ensures !Fires(s, c) && Fires(s.(anyDOW := false), c)
  {
  }

  // ------------------------------------------------------------- the documented forms

  datatype Base = Star | One(n: nat) | Span(first: nat, last: nat)

  /** "*", "n", "n-m", each with an optional "/s". */
  datatype Form = Form(base: Base, step: Option<nat>)

  function RenderBase(b: Base): string {
    match b
    case Star => "*"
    case One(n) => Itoa(n)
    case Span(a, z) => Itoa(a) + "-" + Itoa(z)
  }

  function RenderForm(f: Form): string {
    RenderBase(f.base) + if f.step.Some? then "/" + Itoa(f.step.value) else ""
  }

  /** The values a form denotes. */
  function FormItem(f: Form, lo: int, hi: int): Item {
    var step := if f.step.Some? then f.step.value else 1;
    match f.base
    case Star => Item(lo, hi, step)
    case One(n) => Item(n, n, step)
    case Span(a, z) => Item(a, z, step)
  }

  predicate InRangeForm(f: Form, lo: int, hi: int) {
    FieldRange(lo, hi) && ItemInRange(FormItem(f, lo, hi), lo, hi)
  }

  predicate ValidForm(f: Form, lo: int, hi: int) {
    InRangeForm(f, lo, hi) && !Overflows(FormItem(f, lo, hi))
  }

  predicate FormChar(c: char) {
    IsDigit(c) || c == '*' || c == '-' || c == '/'
  }

  lemma FormChars(f: Form)
    ensures RenderForm(f) != "" && forall i :: 0 <= i < |RenderForm(f)| ==> FormChar(RenderForm(f)[i])
    ensures '/' !in RenderBase(f.base)
  {
    var text := RenderBase(f.base);
    assert text != "" && forall i :: 0 <= i < |text| ==> FormChar(text[i]) && text[i] != '/';
    var tail := if f.step.Some? then "/" + Itoa(f.step.value) else "";
    assert forall i :: 0 <= i < |tail| ==> FormChar(tail[i]);
  }

  /** The numbers a form spells fit 64 bits. */
  predicate FitsForm(f: Form) {
    && (match f.base
        case Star => true
        case One(n) => n <= MAX_INT64
        case Span(a, z) => a <= MAX_INT64 && z <= MAX_INT64)
    && (f.step.Some? ==> f.step.value <= MAX_INT64)
  }

  lemma EndsRead(f: Form, lo: int, hi: int)
    requires FitsForm(f)
    ensures ParseEnds(RenderBase(f.base), lo, hi) == Accepted(FormItem(Form(f.base, None), lo, hi))
  {
    match f.base
    case Star =>
    case One(n) =>
      AtoiItoa(n);
      assert Itoa(n) != "*" && '-' !in Itoa(n) by { assert IsDigit(Itoa(n)[0]); }
    case Span(a, z) =>
      var text := RenderBase(f.base);
      AtoiItoa(a);
      AtoiItoa(z);
      assert text[|Itoa(a)|] == '-';
      IndexOfFirst(text, '-', |Itoa(a)|);
      assert text[..|Itoa(a)|] == Itoa(a) && text[|Itoa(a)| + 1..] == Itoa(z);
  }

  /** Where the step of a form is cut off, and what it reads as. */
  lemma FormCut(f: Form, text: string)
    requires text == RenderForm(f) && (f.step.Some? ==> f.step.value <= MAX_INT64)
    ensures var base := RenderBase(f.base);
            && IndexOf(text, '/') == |base| <= |text| && text[..|base|] == base && (|base| < |text| <==> f.step.Some?)
            && (f.step.Some? ==> Atoi(text[|base| + 1..]) == Some(f.step.value))
  {
    var base := RenderBase(f.base);
    FormChars(f);
    IndexOfFirst(text, '/', |base|);
    assert text[..|base|] == base;
    if f.step.Some? {
      AtoiItoa(f.step.value);
      assert text[|base| + 1..] == Itoa(f.step.value);
    }
  }

  /** The verdict on an item whose base and step have been read. */
  lemma ItemVerdict(text: string, base: string, step: Option<int>, ends: Item, lo: int, hi: int)
    requires IndexOf(text, '/') == |base| <= |text| && text[..|base|] == base
    requires step == if |base| < |text| then Atoi(text[|base| + 1..]) else Some(1)
    requires ParseEnds(base, lo, hi) == Accepted(ends)
    ensures ParseItem(text, lo, hi)
            == if step.None? || step.value < 1 then Refused(BadStep)
               else if lo <= ends.start <= ends.end <= hi then Accepted(ends.(step := step.value))
               else Refused(OutsideRange)
  {
  }

  lemma FormItemStep(f: Form, lo: int, hi: int)
    ensures FormItem(f, lo, hi)
            == FormItem(Form(f.base, None), lo, hi).(step := if f.step.Some? then f.step.value else 1)
  {
  }

  /** The verdict on every documented form: a step of zero is a bad step, and otherwise the form is
      accepted exactly when its first value is not past its last and both are in the range. */
  lemma FormVerdict(f: Form, lo: int, hi: int)
    requires FitsForm(f)
    ensures var it := FormItem(f, lo, hi);
            ParseItem(RenderForm(f), lo, hi)
            == if f.step == Some(0) then Refused(BadStep)
               else if lo <= it.start <= it.end <= hi then Accepted(it)
               else Refused(OutsideRange)
  {
    EndsRead(f, lo, hi);
    FormCut(f, RenderForm(f));
    FormItemStep(f, lo, hi);
    var step: Option<int> := if f.step.Some? then Some(f.step.value) else Some(1);
    ItemVerdict(RenderForm(f), RenderBase(f.base), step, FormItem(Form(f.base, None), lo, hi), lo, hi);
  }

  /** Every documented form within the range is accepted and denotes the values it spells. */
  lemma FormParses(f: Form, lo: int, hi: int)
    requires InRangeForm(f, lo, hi)
    ensures ParseItem(RenderForm(f), lo, hi) == Accepted(FormItem(f, lo, hi))
  {
    FormVerdict(f, lo, hi);
  }

  function RenderAll(forms: seq<Form>): seq<string> {
    seq(|forms|, i requires 0 <= i < |forms| => RenderForm(forms[i]))
  }

  function RenderField(forms: seq<Form>): string {
    Join(RenderAll(forms), ",")
  }

  ghost predicate ValidField(forms: seq<Form>, lo: int, hi: int) {
    forms != [] && forall i :: 0 <= i < |forms| ==> ValidForm(forms[i], lo, hi)
  }

  lemma {:induction false} JoinToken(parts: seq<string>)
    requires parts != []
    requires forall i :: 0 <= i < |parts| ==> parts[i] != "" && forall j :: 0 <= j < |parts[i]| ==> FormChar(parts[i][j])
    ensures IsToken(Join(parts, ","))
  {
    if |parts| > 1 {
      JoinToken(parts[1..]);
    }
  }

  lemma FieldRoundTrip(forms: seq<Form>)
    requires forms != []
    ensures Split(RenderField(forms), ',') == RenderAll(forms) && IsToken(RenderField(forms))
  {
    forall i | 0 <= i < |forms|
      ensures RenderAll(forms)[i] == RenderForm(forms[i])
      ensures RenderForm(forms[i]) != "" && ',' !in RenderForm(forms[i])
      ensures forall j :: 0 <= j < |RenderForm(forms[i])| ==> FormChar(RenderForm(forms[i])[j])
    {
      FormChars(forms[i]);
    }
    SplitJoin(RenderAll(forms), ',');
    JoinToken(RenderAll(forms));
  }

  lemma {:induction false} FormsAccepted(forms: seq<Form>, items: seq<string>, lo: int, hi: int)
    requires |items| == |forms|
    requires forall i :: 0 <= i < |forms| ==> ValidForm(forms[i], lo, hi) && items[i] == RenderForm(forms[i])
    ensures FieldOutcome(items, lo, hi) == Ok(())
  {
    if forms != [] {
      FormParses(forms[0], lo, hi);
      FormsAccepted(forms[1..], items[1..], lo, hi);
    }
  }

  function RenderExpr(e: seq<seq<Form>>): string {
    Join(seq(|e|, k requires 0 <= k < |e| => RenderField(e[k])), " ")
  }

  ghost predicate ValidExpr(e: seq<seq<Form>>) {
    |e| == 5 && forall k :: 0 <= k < 5 ==> ValidField(e[k], FIELD_LO[k], FIELD_HI[k])
  }

  lemma ExprRoundTrip(e: seq<seq<Form>>)
    requires ValidExpr(e)
    ensures var parts := Fields(RenderExpr(e));
            |parts| == 5 && forall k :: 0 <= k < 5 ==> parts[k] == RenderField(e[k])
  {
    var parts := seq(5, k requires 0 <= k < 5 => RenderField(e[k]));
    forall k | 0 <= k < 5
      ensures IsToken(parts[k])
    {
      FieldRoundTrip(e[k]);
    }
    FieldsJoin(parts);
  }

  lemma FieldMeaning(e: seq<seq<Form>>, parts: seq<string>, k: nat)
    requires ValidExpr(e) && k < 5 && |parts| == 5 && parts[k] == RenderField(e[k])
    ensures FieldOutcome(Split(parts[k], ','), FIELD_LO[k], FIELD_HI[k]) == Ok(())
    ensures forall v :: v in Selected(parts, k)
                        <==> exists i :: 0 <= i < |e[k]| && ItemSelects(FormItem(e[k][i], FIELD_LO[k], FIELD_HI[k]), v)
  {
    var items, lo, hi := Split(parts[k], ','), FIELD_LO[k], FIELD_HI[k];
    FieldRoundTrip(e[k]);
    FormsAccepted(e[k], items, lo, hi);
    forall i, v | 0 <= i < |e[k]|
      ensures TextSelects(items[i], lo, hi, v) <==> ItemSelects(FormItem(e[k][i], lo, hi), v)
    {
      FormParses(e[k][i], lo, hi);
    }
  }

  lemma {:induction false} AllFieldsOk(parts: seq<string>, k: nat)
    requires |parts| == 5 && k <= 5
    requires forall j :: k <= j < 5 ==> FieldOutcome(Split(parts[j], ','), FIELD_LO[j], FIELD_HI[j]) == Ok(())
    ensures OutcomeFrom(parts, k) == Ok(())
    decreases 5 - k
  {
    if k < 5 {
      AllFieldsOk(parts, k + 1);
    }
  }

  /** Printing any expression of documented forms and parsing it back gives its meaning. */
  lemma DocumentedFormsParse(e: seq<seq<Form>>)
    requires ValidExpr(e)
    ensures var parts := Fields(RenderExpr(e));
            && ParseOutcome(parts) == Ok(())
            && forall k, v :: 0 <= k < 5 ==>
                 (v in Selected(parts, k)
                  <==> exists i :: 0 <= i < |e[k]| && ItemSelects(FormItem(e[k][i], FIELD_LO[k], FIELD_HI[k]), v))
  {
    var parts := Fields(RenderExpr(e));
    ExprRoundTrip(e);
    forall k | 0 <= k < 5
      ensures FieldOutcome(Split(parts[k], ','), FIELD_LO[k], FIELD_HI[k]) == Ok(())
      ensures forall v :: v in Selected(parts, k)
                          <==> exists i :: 0 <= i < |e[k]| && ItemSelects(FormItem(e[k][i], FIELD_LO[k], FIELD_HI[k]), v)
    {
      FieldMeaning(e, parts, k);
    }
    AllFieldsOk(parts, 0);
  }

  // ------------------------------------------------------------- two failures, exactly

  datatype Verdict = Good | Overflowing | Rejected

  function VerdictOf(text: string, lo: int, hi: int): Verdict {
    match ParseItem(text, lo, hi)
    case Refused(_) => Rejected
    case Accepted(it) => if Overflows(it) then Overflowing else Good
  }

  function Verdicts(items: seq<string>, lo: int, hi: int): seq<Verdict> {
    if items == [] then [] else [VerdictOf(items[0], lo, hi)] + Verdicts(items[1..], lo, hi)
  }

  ghost predicate FirstOverflow(r: seq<Verdict>, n: int) {
    0 <= n < |r| && r[n] == Overflowing && forall i :: 0 <= i < n ==> r[i] == Good
  }

  ghost predicate HasFirstOverflow(r: seq<Verdict>) {
    exists n :: FirstOverflow(r, n)
  }

  lemma FirstOverflowCons(v: Verdict, r: seq<Verdict>)
    ensures HasFirstOverflow([v] + r) <==> v == Overflowing || (v == Good && HasFirstOverflow(r))
  {
    if v == Overflowing {
      assert FirstOverflow([v] + r, 0);
    }
    if n :| FirstOverflow([v] + r, n) && n > 0 {
      assert ([v] + r)[0] == v && forall i :: 0 <= i < n ==> r[i] == ([v] + r)[i + 1];
      assert FirstOverflow(r, n - 1);
    }
    if n :| FirstOverflow(r, n) && v == Good {
      assert FirstOverflow([v] + r, n + 1);
    }
  }

  /** A field indexes out of bounds exactly when some accepted item's start plus step leaves
      64 bits and every item before it is accepted and stays inside. */
  lemma {:induction false} PanicExact(items: seq<string>, lo: int, hi: int)
    ensures FieldOutcome(items, lo, hi).Panic? <==> HasFirstOverflow(Verdicts(items, lo, hi))
  {
    if items != [] {
      var v := VerdictOf(items[0], lo, hi);
      var rest := Verdicts(items[1..], lo, hi);
      PanicExact(items[1..], lo, hi);
      FirstOverflowCons(v, rest);
      assert FieldOutcome(items, lo, hi).Panic?
        <==> v == Overflowing || (v == Good && FieldOutcome(items[1..], lo, hi).Panic?);
      assert Verdicts(items, lo, hi) == [v] + rest;
    }
  }

  ghost predicate AllGood(r: seq<Verdict>) {
    forall i :: 0 <= i < |r| ==> r[i] == Good
  }

  lemma GoodCons(v: Verdict, r: seq<Verdict>)
    ensures AllGood([v] + r) <==> v == Good && AllGood(r)
  {
    assert forall i :: 0 <= i < |r| ==> r[i] == ([v] + r)[i + 1];
    assert ([v] + r)[0] == v;
  }

  /** There is one verdict for each item, in order. */
  lemma {:induction false} VerdictAt(items: seq<string>, lo: int, hi: int, i: nat)
    requires i < |items|
    ensures |Verdicts(items, lo, hi)| == |items| && Verdicts(items, lo, hi)[i] == VerdictOf(items[i], lo, hi)
  {
    if |items| > 1 {
      VerdictAt(items[1..], lo, hi, if i > 0 then i - 1 else 0);
    }
  }

  /** A field is accepted without a panic exactly when every item is good. */
  lemma {:induction false} AcceptedExact(items: seq<string>, lo: int, hi: int)
    ensures FieldOutcome(items, lo, hi).Ok? <==> AllGood(Verdicts(items, lo, hi))
  {
    if items != [] {
      var v := VerdictOf(items[0], lo, hi);
      var rest := Verdicts(items[1..], lo, hi);
      AcceptedExact(items[1..], lo, hi);
      assert Verdicts(items, lo, hi) == [v] + rest;
      GoodCons(v, rest);
    }
  }

  function FieldVerdicts(parts: seq<string>, k: nat): seq<Verdict>
    requires |parts| == 5 && k < 5
  {
    Verdicts(Split(parts[k], ','), FIELD_LO[k], FIELD_HI[k])
  }

  /** The verdicts on all items from field k on, in the order they are read. */
  function VerdictsFrom(parts: seq<string>, k: nat): seq<Verdict>
    requires |parts| == 5 && k <= 5
    decreases 5 - k
  {
    if k == 5 then [] else FieldVerdicts(parts, k) + VerdictsFrom(parts, k + 1)
  }

  lemma OverflowAppend(a: seq<Verdict>, b: seq<Verdict>)
    ensures HasFirstOverflow(a + b) <==> HasFirstOverflow(a) || (AllGood(a) && HasFirstOverflow(b))
  {
    if n :| FirstOverflow(a, n) {
      assert FirstOverflow(a + b, n);
    }
    if n :| FirstOverflow(b, n) && AllGood(a) {
      assert FirstOverflow(a + b, |a| + n);
    }
    if n :| FirstOverflow(a + b, n) {
      if n < |a| {
        assert forall i :: 0 <= i <= n ==> a[i] == (a + b)[i];
        assert FirstOverflow(a, n);
      } else {
        assert forall i :: 0 <= i < |a| ==> a[i] == (a + b)[i];
        assert forall i :: 0 <= i < n - |a| ==> b[i] == (a + b)[|a| + i];
        assert FirstOverflow(b, n - |a|);
      }
    }
  }

  lemma OutcomeStep(parts: seq<string>, k: nat)
    requires |parts| == 5 && k < 5
    ensures OutcomeFrom(parts, k).Panic?
            <==> HasFirstOverflow(FieldVerdicts(parts, k))
                 || (AllGood(FieldVerdicts(parts, k)) && OutcomeFrom(parts, k + 1).Panic?)
  {
    PanicExact(Split(parts[k], ','), FIELD_LO[k], FIELD_HI[k]);
    AcceptedExact(Split(parts[k], ','), FIELD_LO[k], FIELD_HI[k]);
  }

  lemma {:induction false} PanicsFrom(parts: seq<string>, k: nat)
    requires |parts| == 5 && k <= 5
    ensures OutcomeFrom(parts, k).Panic? <==> HasFirstOverflow(VerdictsFrom(parts, k))
    decreases 5 - k
  {
    if k < 5 {
      OutcomeStep(parts, k);
      PanicsFrom(parts, k + 1);
      OverflowAppend(FieldVerdicts(parts, k), VerdictsFrom(parts, k + 1));
    }
  }

  /** The search stops the process exactly when there are five fields and the first of all their items
      that is not good is one whose start plus step leaves 64 bits. */
  lemma NextRunPanicsExactly(expr: string, fromNanos: int)
    ensures NextRunIs(expr, fromNanos, Panic)
            <==> |Fields(expr)| == 5 && HasFirstOverflow(VerdictsFrom(Fields(expr), 0))
  {
    if |Fields(expr)| == 5 {
      PanicsFrom(Fields(expr), 0);
    }
  }

  lemma HugeStepItem(value: nat, step: nat, text: string)
    requires value <= 59 && 1 <= step <= MAX_INT64 < value + step && text == RenderForm(Form(One(value), Some(step)))
    ensures IsToken(text) && Split(text, ',') == [text] && FieldOutcome(Split(text, ','), 0, 59).Panic?
  {
    var f := Form(One(value), Some(step));
    FormChars(f);
    IndexOfFirst(text, ',', |text|);
    FormParses(f, 0, 59);
    assert Split(text, ',')[0] == text;
  }

  lemma FirstFieldPanics(parts: seq<string>, expr: string, fromNanos: int)
    requires |parts| == 5 && parts == Fields(expr) && FieldOutcome(Split(parts[0], ','), 0, 59).Panic?
    ensures NextRunIs(expr, fromNanos, Panic)
  {
    assert OutcomeFrom(parts, 0).Panic?;
  }

  /** Such expressions exist: a minute field of one value and a step that runs past 64 bits, such as
      "1/9223372036854775807", panics from every instant, whatever the other four fields are. */
  lemma HugeStepPanics(value: nat, step: nat, others: seq<string>, fromNanos: int)
    requires value <= 59 && 1 <= step <= MAX_INT64 < value + step
    requires |others| == 4 && forall p :: p in others ==> IsToken(p)
    ensures NextRunIs(Join([Itoa(value) + "/" + Itoa(step)] + others, " "), fromNanos, Panic)
  {
    var text := Itoa(value) + "/" + Itoa(step);
    assert text == Itoa(value) + ("/" + Itoa(step));
    HugeStepItem(value, step, text);
    var parts := [text] + others;
    assert forall p :: p in parts ==> p == text || p in others;
    FieldsJoin(parts);
    FirstFieldPanics(parts, Join(parts, " "), fromNanos);
  }

  const LEAP_DAY_AT_MIDNIGHT: seq<seq<Form>> := [
    [Form(One(0), None)], [Form(One(0), None)], [Form(One(29), None)], [Form(One(2), None)], [Form(Star, None)]]

  ghost predicate LeapDayOnly(s: Schedule) {
    && WellFormed(s) && s.anyDOW && !s.anyDOM && 0 in s.minute && 0 in s.hour
    && (forall v :: v in s.dom <==> v == 29) && (forall v :: v in s.month <==> v == 2)
  }

  lemma LeapDayMeaning(parts: seq<string>)
    requires parts == Fields(RenderExpr(LEAP_DAY_AT_MIDNIGHT))
    ensures ParseOutcome(parts) == Ok(()) && LeapDayOnly(ScheduleOf(parts))
  {
    var e := LEAP_DAY_AT_MIDNIGHT;
    ExprRoundTrip(e);
    DocumentedFormsParse(e);
    ParsedWellFormed(parts);
    OnlyValue(e, parts, 0, 0);
    OnlyValue(e, parts, 1, 0);
    OnlyValue(e, parts, 2, 29);
    OnlyValue(e, parts, 3, 2);
    assert parts[4] == RenderField([Form(Star, None)]) == "*";
    assert parts[2] == RenderField([Form(One(29), None)]) == Itoa(29);
  }

  /** "Feb 29 at midnight", asked at any instant of a year such as 2025 that follows a multiple of
      four: the search gives up although the schedule fires again later. */
  lemma LeapDaySkipped(expr: string, fromNanos: int) returns (t: int)
    requires ParseOutcome(Fields(expr)).Ok? && LeapDayOnly(ScheduleOf(Fields(expr)))
    requires CivilOf(FirstMinute(fromNanos)).date.year % 4 == 1
    ensures NextRunIs(expr, fromNanos, Err(NeverMatches))
    ensures FirstMinute(fromNanos) <= t && FiresAt(ScheduleOf(Fields(expr)), t)
  {
    var first := FirstMinute(fromNanos);
    var s := ScheduleOf(Fields(expr));
    DoomedAfterLeapYear(s, first);
    HorizonExact(expr, fromNanos);
    t := LeapDayEventually(s, first);
  }

  lemma DoomedAfterLeapYear(s: Schedule, first: int)
    requires LeapDayOnly(s) && CivilOf(first).date.year % 4 == 1
    ensures Doomed(s, first)
  {
    NoLeapYearsAhead(CivilOf(first).date.year);
  }

  lemma NoLeapYearsAhead(y: int)
    requires y % 4 == 1
    ensures !IsLeap(y) && !IsLeap(y + 1) && !IsLeap(y + 2)
  {
  }

  lemma OnlyValue(e: seq<seq<Form>>, parts: seq<string>, k: nat, n: nat)
    requires ValidExpr(e) && k < 5 && e[k] == [Form(One(n), None)] && |parts| == 5 && parts[k] == RenderField(e[k])
    ensures forall v :: v in Selected(parts, k) <==> v == n
  {
    FieldMeaning(e, parts, k);
    assert e[k][0] == Form(One(n), None);
    assert ItemSelects(FormItem(e[k][0], FIELD_LO[k], FIELD_HI[k]), n);
  }
}

/** Creating backup runs from many controllers and manual triggers at once.

A caller checks that the plan has no active run, inserts a queued run under an idempotency key and
enqueues its job.  The check and the insert share a transaction but take no lock, so other callers'
steps may come between them; `CheckAndInsert` is the serialised reading of the same code. */
module RunCreation {
  import opened Text
  import opened Collections
  import opened Calendar
  import opened RunStates

  type PlanId = string
  type RunId = nat

  datatype Run = Run(plan: PlanId, key: Option<string>, state: State)

  predicate IsActive(r: Run) {
    r.state.Queued? || r.state.Running?
  }

  // ------------------------------------------------------------- the scheduled key

  function Digit(n: int): string {
    [('0' as int + n % 10) as char]
  }

  function TwoDigits(n: int): string {
    Digit(n / 10) + Digit(n)
  }

  /** The minute stamp: year, month, day, hour and minute in twelve digits. */
  function Stamp(t: int): (s: string)
    ensures |s| == 12
  {
    var c := CivilOf(t);
    TwoDigits(c.date.year / 100) + TwoDigits(c.date.year % 100) + TwoDigits(c.date.month)
    + TwoDigits(c.date.day) + TwoDigits(c.hour) + TwoDigits(c.minute)
  }

  function ScheduledKey(plan: PlanId, t: int): string {
    "sched:" + plan + ":" + Stamp(t)
  }

  /** The stamp of a calendar moment. */
  lemma StampOfMoment(d: Date, h: int, n: int)
    requires ValidDate(d) && 0 <= h < 24 && 0 <= n < 60
    ensures Stamp(MinuteOf(d, h, n))
            == TwoDigits(d.year / 100) + TwoDigits(d.year % 100) + TwoDigits(d.month) + TwoDigits(d.day)
               + TwoDigits(h) + TwoDigits(n)
  {
    CivilOfMinute(d, h, n);
  }

  lemma Pieces(a: int, b: int, m: int, d: int, h: int, n: int)
    requires a == 20 && b == 26 && m == 1 && d == 5 && h == 9 && n == 7
    ensures TwoDigits(a) + TwoDigits(b) + TwoDigits(m) + TwoDigits(d) + TwoDigits(h) + TwoDigits(n) == "202601050907"
  {
    assert TwoDigits(a) == "20" && TwoDigits(b) == "26" && TwoDigits(m) == "01" && TwoDigits(d) == "05";
    assert TwoDigits(h) == "09" && TwoDigits(n) == "07";
  }

  /** Seven minutes past nine on January 5 of 2026, as a stamp. */
  lemma StampSpelling(d: Date, h: int, n: int)
    requires d.year == 2026 && d.month == 1 && d.day == 5 && h == 9 && n == 7
    ensures Stamp(MinuteOf(d, h, n)) == "202601050907"
  {
    StampOfMoment(d, h, n);
    Pieces(d.year / 100, d.year % 100, d.month, d.day, h, n);
  }

  lemma KeySpelling(plan: PlanId, t: int)
    requires plan == "p" && Stamp(t) == "202601050907"
    ensures ScheduledKey(plan, t) == "sched:p:202601050907"
  {
  }

  predicate FourDigitYear(t: int) {
    0 <= CivilOf(t).date.year <= 9999
  }

  lemma TwoDigitsInjective(a: int, b: int)
    requires 0 <= a < 100 && 0 <= b < 100 && TwoDigits(a) == TwoDigits(b)
    ensures a == b
  {
    assert TwoDigits(a)[0] == TwoDigits(b)[0] && TwoDigits(a)[1] == TwoDigits(b)[1];
  }

  /** Two stamps agree only for the same minute, while years have four digits. */
  lemma StampInjective(t: int, u: int)
    requires FourDigitYear(t) && FourDigitYear(u) && Stamp(t) == Stamp(u)
    ensures t == u
  {
    MinuteOfCivil(t);
    MinuteOfCivil(u);
    var c, d := CivilOf(t), CivilOf(u);
    PiecesAgree(c, d, Stamp(t), Stamp(u));
  }

  lemma PiecesAgree(c: Civil, d: Civil, s: string, r: string)
    requires 0 <= c.date.year <= 9999 && 0 <= d.date.year <= 9999
    requires forall x :: x in {c, d} ==>
      ValidDate(x.date) && 0 <= x.hour < 24 && 0 <= x.minute < 60
    requires s == TwoDigits(c.date.year / 100) + TwoDigits(c.date.year % 100) + TwoDigits(c.date.month)
                  + TwoDigits(c.date.day) + TwoDigits(c.hour) + TwoDigits(c.minute)
    requires r == TwoDigits(d.date.year / 100) + TwoDigits(d.date.year % 100) + TwoDigits(d.date.month)
                  + TwoDigits(d.date.day) + TwoDigits(d.hour) + TwoDigits(d.minute)
    requires s == r
    ensures c.date == d.date && c.hour == d.hour && c.minute == d.minute
  {
    assert s[0..2] == TwoDigits(c.date.year / 100) && r[0..2] == TwoDigits(d.date.year / 100);
    assert s[2..4] == TwoDigits(c.date.year % 100) && r[2..4] == TwoDigits(d.date.year % 100);
    assert s[4..6] == TwoDigits(c.date.month) && r[4..6] == TwoDigits(d.date.month);
    assert s[6..8] == TwoDigits(c.date.day) && r[6..8] == TwoDigits(d.date.day);
    assert s[8..10] == TwoDigits(c.hour) && r[8..10] == TwoDigits(d.hour);
    assert s[10..12] == TwoDigits(c.minute) && r[10..12] == TwoDigits(d.minute);
    assert c in {c, d} && d in {c, d};
    TwoDigitsInjective(c.date.year / 100, d.date.year / 100);
    TwoDigitsInjective(c.date.year % 100, d.date.year % 100);
    TwoDigitsInjective(c.date.month, d.date.month);
    TwoDigitsInjective(c.date.day, d.date.day);
    TwoDigitsInjective(c.hour, d.hour);
    TwoDigitsInjective(c.minute, d.minute);
  }

  /** The scheduled key names one plan and one minute, whatever characters plan ids have. */
  lemma ScheduledKeyInjective(p: PlanId, t: int, q: PlanId, u: int)
    requires FourDigitYear(t) && FourDigitYear(u) && ScheduledKey(p, t) == ScheduledKey(q, u)
    ensures p == q && t == u
  {
    var k, l := ScheduledKey(p, t), ScheduledKey(q, u);
    SameEnds(p, Stamp(t), q, Stamp(u));
    StampInjective(t, u);
  }

  lemma SameEnds(p: string, s: string, q: string, r: string)
    requires |s| == |r| && "sched:" + p + ":" + s == "sched:" + q + ":" + r
    ensures p == q && s == r
  {
    var k, l := "sched:" + p + ":" + s, "sched:" + q + ":" + r;
    assert |k| == |l| && |p| == |q|;
    assert k[6..6 + |p|] == p && l[6..6 + |q|] == q;
    assert k[7 + |p|..] == s && l[7 + |q|..] == r;
  }

  // ------------------------------------------------------------- the table

  datatype CreateResult = Created(id: RunId) | Existing(id: RunId) | ConflictActive

  /** A run without a plan has the empty plan id and is never compared with others. */
  ghost predicate HasActive(runs: map<RunId, Run>, plan: PlanId) {
    plan != "" && exists id :: id in runs && runs[id].plan == plan && IsActive(runs[id])
  }

  ghost predicate HasKey(runs: map<RunId, Run>, key: Option<string>) {
    key.Some? && exists id :: id in runs && runs[id].key == key
  }

  /** The unique index on the idempotency key. */
  ghost predicate KeysUnique(runs: map<RunId, Run>) {
    forall i, j :: i in runs && j in runs && runs[i].key.Some? && runs[i].key == runs[j].key ==> i == j
  }

  ghost predicate OneActivePerPlan(runs: map<RunId, Run>) {
    forall i, j :: i in runs && j in runs && IsActive(runs[i]) && IsActive(runs[j])
                   && runs[i].plan == runs[j].plan && runs[i].plan != ""
                   ==> i == j
  }

  class RunTable {
    var runs: map<RunId, Run>

    constructor ()
      ensures runs == map[]
    {
      runs := map[];
    }

    /** The serialised transaction: refuse while a run is active, else insert or find the duplicate. */
    method CreateRun(plan: PlanId, key: Option<string>, newId: RunId) returns (r: CreateResult)
      requires newId !in runs && KeysUnique(runs) && OneActivePerPlan(runs)
      modifies this
      ensures KeysUnique(runs) && OneActivePerPlan(runs)
      ensures r.ConflictActive? <==> HasActive(old(runs), plan)
      ensures r.Created? ==> r.id == newId && runs == old(runs)[newId := Run(plan, key, Queued)]
      ensures r.Created? <==> !HasActive(old(runs), plan) && !HasKey(old(runs), key)
      ensures r.ConflictActive? <==>
                plan != "" && exists id :: id in old(runs) && old(runs)[id].plan == plan && old(runs)[id].state in {Queued, Running}
      ensures !r.Created? ==> runs == old(runs)
      ensures r.Existing? ==> r.id in runs && runs[r.id].key == key && key.Some?
    {
      if plan != "" && exists id :: id in runs && runs[id].plan == plan && IsActive(runs[id]) {
        return ConflictActive;
      }
      if key.Some? {
        if id :| id in runs && runs[id].key == key {
          return Existing(id);
        }
      }
      runs := runs[newId := Run(plan, key, Queued)];
      assert runs[newId].plan == plan && IsActive(runs[newId]);
      return Created(newId);
    }

    method MarkRunFailed(id: RunId) returns (ok: bool)
      modifies this
      ensures ok <==> id in old(runs) && (old(runs)[id].state == Queued || old(runs)[id].state == Running)
      ensures runs == if ok then old(runs)[id := old(runs)[id].(state := Failed)] else old(runs)
    {
      ok := id in runs && IsActive(runs[id]);
      if ok {
        runs := runs[id := runs[id].(state := Failed)];
      }
    }
  }

  // ------------------------------------------------------------- interleaved callers

  datatype Phase = Idle | Checked | Holding(run: RunId, created: bool) | Done

  /** One controller tick or one manual trigger. */
  datatype Caller = Caller(plan: PlanId, key: Option<string>, phase: Phase)

  datatype System = System(runs: map<RunId, Run>, callers: map<nat, Caller>, jobs: set<RunId>)

  datatype Event =
    | Check(c: nat)                      // no active run of the plan
    | Insert(c: nat, id: RunId)          // queued row, or the row that has the key
    | CheckAndInsert(c: nat, id: RunId)  // both in one step
    | Enqueue(c: nat, ok: bool)          // a duplicate job or a failure marks the run failed
    | Start(id: RunId)
    | Finish(id: RunId, ok: bool)

  function SetPhase(s: System, c: nat, p: Phase): System
    requires c in s.callers
  {
    s.(callers := s.callers[c := s.callers[c].(phase := p)])
  }

  function FailActive(runs: map<RunId, Run>, id: RunId): map<RunId, Run> {
    if id in runs && IsActive(runs[id]) then runs[id := runs[id].(state := Failed)] else runs
  }

  /** A run that holds the key; there is one only while keys are unique. */
  ghost function Holder(runs: map<RunId, Run>, key: Option<string>): (id: RunId)
    requires HasKey(runs, key)
    ensures id in runs && runs[id].key == key
  {
    var id :| id in runs && runs[id].key == key;
    id
  }

  ghost function Inserted(s: System, c: nat, id: RunId): System
    requires c in s.callers && id !in s.runs
  {
    var caller := s.callers[c];
    if HasKey(s.runs, caller.key) then SetPhase(s, c, Holding(Holder(s.runs, caller.key), false))
    else
      SetPhase(s.(runs := s.runs[id := Run(caller.plan, caller.key, Queued)]), c, Holding(id, true))
  }

  ghost function Step(s: System, e: Event): System {
    match e
    case Check(c) =>
      if c !in s.callers || !s.callers[c].phase.Idle? then s
      else SetPhase(s, c, if HasActive(s.runs, s.callers[c].plan) then Done else Checked)
    case Insert(c, id) =>
      if c !in s.callers || !s.callers[c].phase.Checked? || id in s.runs then s else Inserted(s, c, id)
    case CheckAndInsert(c, id) =>
      if c !in s.callers || !s.callers[c].phase.Idle? || id in s.runs then s
      else if HasActive(s.runs, s.callers[c].plan) then SetPhase(s, c, Done) else Inserted(s, c, id)
    case Enqueue(c, ok) =>
      if c !in s.callers || !s.callers[c].phase.Holding? then s
      else
        var id := s.callers[c].phase.run;
        var done := SetPhase(s, c, Done);
        if ok && id !in s.jobs then done.(jobs := s.jobs + {id}) else done.(runs := FailActive(s.runs, id))
    case Start(id) =>
      if id in s.runs && s.runs[id].state.Queued? then s.(runs := s.runs[id := s.runs[id].(state := Running)]) else s
    case Finish(id, ok) =>
      if id in s.runs && s.runs[id].state.Running?
      then s.(runs := s.runs[id := s.runs[id].(state := if ok then Completed else Failed)]) else s
  }

  ghost function Trace(s: System, events: seq<Event>): System
    decreases |events|
  {
    if events == [] then s else Trace(Step(s, events[0]), events[1..])
  }

  lemma TraceTwo(s: System, e: Event, g: Event)
    ensures Trace(s, [e, g]) == Step(Step(s, e), g)
  {
    assert [e, g] == [e] + ([g] + []);
    TraceCons(s, e, [g] + []);
    TraceCons(Step(s, e), g, []);
  }

  /** A caller alone: its check passes, so its run is queued under its key. */
  lemma CallerInserts(s: System, c: nat, id: RunId)
    requires c in s.callers && s.callers[c].phase.Idle? && id !in s.runs
    requires !HasActive(s.runs, s.callers[c].plan) && !HasKey(s.runs, s.callers[c].key)
    ensures var end, caller := Trace(s, [Check(c), Insert(c, id)]), s.callers[c];
            && end.runs == s.runs[id := Run(caller.plan, caller.key, Queued)] && end.jobs == s.jobs
            && end.callers == s.callers[c := Caller(caller.plan, caller.key, Holding(id, true))]
            && end == Step(s, CheckAndInsert(c, id))
  {
    TraceTwo(s, Check(c), Insert(c, id));
  }

  /** A caller whose plan has an active run gives up and changes nothing else. */
  lemma CallerRefused(s: System, c: nat, id: RunId)
    requires c in s.callers && s.callers[c].phase.Idle? && id !in s.runs && HasActive(s.runs, s.callers[c].plan)
    ensures var end := s.(callers := s.callers[c := Caller(s.callers[c].plan, s.callers[c].key, Done)]);
            Trace(s, [Check(c), Insert(c, id)]) == end && Step(s, CheckAndInsert(c, id)) == end
  {
    TraceTwo(s, Check(c), Insert(c, id));
  }

  /** A held run gets its job, or is failed if it is still active and the job cannot be enqueued. */
  lemma EnqueueDecides(s: System, c: nat, id: RunId, created: bool, ok: bool)
    requires c in s.callers && s.callers[c].phase == Holding(id, created) && id in s.runs
    ensures var end := Step(s, Enqueue(c, ok));
            && end.callers == s.callers[c := Caller(s.callers[c].plan, s.callers[c].key, Done)]
            && (ok && id !in s.jobs ==> end.jobs == s.jobs + {id} && end.runs == s.runs)
            && (!ok || id in s.jobs ==>
                  && end.jobs == s.jobs
                  && end.runs == if s.runs[id].state == Queued || s.runs[id].state == Running
                                 then s.runs[id := s.runs[id].(state := Failed)] else s.runs)
  {
  }

  lemma RunStarts(s: System, id: RunId)
    requires id in s.runs && s.runs[id].state == Queued
    ensures Step(s, Start(id)) == s.(runs := s.runs[id := s.runs[id].(state := Running)])
  {
  }

  lemma RunEnds(s: System, id: RunId, ok: bool)
    requires id in s.runs && s.runs[id].state == Running
    ensures Step(s, Finish(id, ok)) == s.(runs := s.runs[id := s.runs[id].(state := if ok then Completed else Failed)])
  {
  }

  /** A queued run that is started and finished is complete, or failed, and nothing else has changed. */
  lemma RunFinishes(s: System, id: RunId, ok: bool)
    requires id in s.runs && s.runs[id].state == Queued
    ensures Trace(s, [Start(id), Finish(id, ok)])
            == s.(runs := s.runs[id := s.runs[id].(state := if ok then Completed else Failed)])
  {
    TraceTwo(s, Start(id), Finish(id, ok));
    RunStarts(s, id);
    RunEnds(Step(s, Start(id)), id, ok);
  }

  ghost predicate Serial(events: seq<Event>) {
    forall i :: 0 <= i < |events| ==> !events[i].Check? && !events[i].Insert?
  }

  /** Keys stay unique under every interleaving of split and serial callers. */
  lemma {:induction false} KeysStayUnique(s: System, events: seq<Event>)
    requires KeysUnique(s.runs)
    ensures KeysUnique(Trace(s, events).runs)
    decreases |events|
  {
    if events != [] {
      KeysStayUnique(Step(s, events[0]), events[1..]);
    }
  }

  /** At most one run per plan and minute, however many controllers tick in it. */
  lemma OneRunPerMinute(s: System, events: seq<Event>, i: RunId, j: RunId, p: PlanId, t: int, q: PlanId, u: int)
    requires KeysUnique(s.runs) && FourDigitYear(t) && FourDigitYear(u)
    requires var runs := Trace(s, events).runs;
             i in runs && j in runs && runs[i].key == Some(ScheduledKey(p, t)) && runs[j].key == Some(ScheduledKey(q, u))
    ensures i == j <==> p == q && t == u
  {
    KeysStayUnique(s, events);
    if i == j {
      ScheduledKeyInjective(p, t, q, u);
    }
  }

  /** What serial callers keep: one active run per plan, a caller that was handed an existing row
      holds a finished one, and keyed rows belong to the plan of their callers. */
  ghost predicate SerialInv(s: System) {
    && OneActivePerPlan(s.runs)
    && (forall c :: c in s.callers ==> !s.callers[c].phase.Checked? && (s.callers[c].key.Some? ==> s.callers[c].plan != ""))
    && (forall c :: c in s.callers && s.callers[c].phase.Holding? ==> s.callers[c].phase.run in s.runs)
    && (forall c :: c in s.callers && s.callers[c].phase.Holding? && !s.callers[c].phase.created ==>
          !IsActive(s.runs[s.callers[c].phase.run]))
    && (forall c, id :: c in s.callers && id in s.runs && s.callers[c].key.Some? && s.runs[id].key == s.callers[c].key ==>
          s.runs[id].plan == s.callers[c].plan)
    && (forall c, d :: c in s.callers && d in s.callers && s.callers[c].key.Some? && s.callers[c].key == s.callers[d].key
          ==> s.callers[c].plan == s.callers[d].plan)
  }

  /** A manual trigger has no key; a controller uses the scheduled key of its plan. */
  ghost predicate ProperCaller(c: Caller) {
    c.phase.Idle? && (c.key.None? || (c.plan != "" && exists t :: ScheduledAt(c.plan, c.key.value, t)))
  }

  predicate ScheduledAt(plan: PlanId, key: string, t: int) {
    FourDigitYear(t) && key == ScheduledKey(plan, t)
  }

  lemma ScheduledAtOnePlan(p: PlanId, q: PlanId, key: string, t: int, u: int)
    requires ScheduledAt(p, key, t) && ScheduledAt(q, key, u)
    ensures p == q
  {
    ScheduledKeyInjective(p, t, q, u);
  }

  lemma ProperKeysAgree(c: Caller, d: Caller)
    requires ProperCaller(c) && ProperCaller(d) && c.key.Some? && c.key == d.key
    ensures c.plan == d.plan
  {
    var t :| ScheduledAt(c.plan, c.key.value, t);
    var u :| ScheduledAt(d.plan, d.key.value, u);
    ScheduledAtOnePlan(c.plan, d.plan, c.key.value, t, u);
  }

  lemma ProperIsIdle(c: Caller)
    requires ProperCaller(c)
    ensures c.phase.Idle? && (c.key.Some? ==> c.plan != "")
  {
  }

  lemma InitiallySerial(callers: map<nat, Caller>)
    requires forall c :: c in callers ==> ProperCaller(callers[c])
    ensures SerialInv(System(map[], callers, {})) && KeysUnique(map[])
  {
    forall c | c in callers
      ensures callers[c].phase.Idle? && (callers[c].key.Some? ==> callers[c].plan != "")
    {
      ProperIsIdle(callers[c]);
    }
    forall c, d | c in callers && d in callers && callers[c].key.Some? && callers[c].key == callers[d].key
      ensures callers[c].plan == callers[d].plan
    {
      ProperKeysAgree(callers[c], callers[d]);
    }
  }

  lemma RestateKeepsSerial(s: System, id: RunId, state: State)
    requires SerialInv(s) && id in s.runs && IsActive(s.runs[id])
    ensures SerialInv(s.(runs := s.runs[id := s.runs[id].(state := state)]))
  {
  }

  lemma ReleaseKeepsSerial(s: System, c: nat)
    requires SerialInv(s) && c in s.callers
    ensures SerialInv(SetPhase(s, c, Done))
  {
  }

  lemma SerialStep(s: System, e: Event)
    requires SerialInv(s) && !e.Check? && !e.Insert?
    ensures SerialInv(Step(s, e))
  {
    match e
    case CheckAndInsert(c, id) =>
      if c in s.callers && s.callers[c].phase.Idle? && id !in s.runs {
        if HasActive(s.runs, s.callers[c].plan) {
          ReleaseKeepsSerial(s, c);
        } else {
          InsertKeepsSerial(s, c, id);
        }
      }
    case Enqueue(c, ok) =>
      if c in s.callers && s.callers[c].phase.Holding? {
        var id := s.callers[c].phase.run;
        ReleaseKeepsSerial(s, c);
        if IsActive(s.runs[id]) {
          RestateKeepsSerial(SetPhase(s, c, Done), id, Failed);
        }
      }
    case Start(id) =>
      if id in s.runs && s.runs[id].state.Queued? {
        RestateKeepsSerial(s, id, Running);
      }
    case Finish(id, ok) =>
      if id in s.runs && s.runs[id].state.Running? {
        RestateKeepsSerial(s, id, if ok then Completed else Failed);
      }
  }

  lemma InsertKeepsSerial(s: System, c: nat, id: RunId)
    requires SerialInv(s) && c in s.callers && id !in s.runs && !HasActive(s.runs, s.callers[c].plan)
    ensures SerialInv(Inserted(s, c, id))
  {
    var r := Inserted(s, c, id);
    if HasKey(s.runs, s.callers[c].key) {
      var held := r.callers[c].phase.run;
      assert s.runs[held].plan == s.callers[c].plan;
      assert !IsActive(s.runs[held]);
    }
  }

  lemma {:induction false} SerialKeepsInv(s: System, events: seq<Event>)
    requires SerialInv(s) && Serial(events)
    ensures SerialInv(Trace(s, events))
    decreases |events|
  {
    if events != [] {
      SerialStep(s, events[0]);
      SerialKeepsInv(Step(s, events[0]), events[1..]);
    }
  }

  /** Serialised, every history has at most one queued or running run per plan, and a caller that
      lost the key never fails the run it was handed. */
  lemma SerialIsSafe(s: System, events: seq<Event>, c: nat, ok: bool)
    requires SerialInv(s) && Serial(events)
    ensures var r := Trace(s, events);
            && OneActivePerPlan(r.runs)
            && (c in r.callers && r.callers[c].phase.Holding? && !r.callers[c].phase.created
                ==> Step(r, Enqueue(c, ok)).runs == r.runs)
  {
    SerialKeepsInv(s, events);
  }

  // ------------------------------------------------------------- the steps the code takes

  /** Nobody has begun.  There may be runs of earlier callers, with their keys, and jobs for them. */
  ghost predicate Initial(s: System) {
    && (forall c :: c in s.callers ==> s.callers[c].phase.Idle?)
    && OneActivePerPlan(s.runs) && s.jobs <= s.runs.Keys
  }

  /** Only the steps of the code: the check and the insert come apart. */
  ghost predicate Split(events: seq<Event>) {
    forall i :: 0 <= i < |events| ==> !events[i].CheckAndInsert?
  }

  /** Any two callers of one plan whose keys no earlier run holds come with the same key. */
  ghost predicate OneKeyPerPlan(base: map<RunId, Run>, callers: map<nat, Caller>) {
    forall c, d :: c in callers && d in callers && c != d && callers[c].plan == callers[d].plan && callers[c].plan != ""
                   && !HasKey(base, callers[c].key) && !HasKey(base, callers[d].key)
                   ==> callers[c].key.Some? && callers[c].key == callers[d].key
  }

  /** No two callers come with the same key, unless an earlier run holds it. */
  ghost predicate KeysDistinct(base: map<RunId, Run>, callers: map<nat, Caller>) {
    forall c, d :: c in callers && d in callers && c != d && callers[c].key.Some? && !HasKey(base, callers[c].key)
                   ==> callers[c].key != callers[d].key
  }

  /** No caller comes with the key of an earlier active run that is not of its own plan. */
  ghost predicate NoForeignKey(base: map<RunId, Run>, callers: map<nat, Caller>) {
    forall c, id :: c in callers && id in base && callers[c].key.Some? && base[id].key == callers[c].key && IsActive(base[id])
                    ==> callers[c].plan == base[id].plan && callers[c].plan != ""
  }

  predicate SamePlanKey(a: Run, b: Run) {
    b.plan == a.plan && b.key == a.key && (IsActive(b) ==> IsActive(a))
  }

  /** The earlier runs are still there, and none became active again. */
  ghost predicate Extends(base: map<RunId, Run>, runs: map<RunId, Run>) {
    forall id :: id in base ==> id in runs && SamePlanKey(base[id], runs[id])
  }

  predicate Owns(s: System, c: nat, id: RunId) {
    && c in s.callers && id in s.runs
    && s.callers[c].plan == s.runs[id].plan && s.callers[c].key == s.runs[id].key
    && (s.callers[c].phase.Holding? || s.callers[c].phase.Done?)
  }

  /** Each new run was inserted by a caller of its plan and key, and no earlier run holds that key. */
  ghost predicate Owned(base: map<RunId, Run>, s: System) {
    forall id :: id in s.runs && id !in base ==> !HasKey(base, s.runs[id].key) && exists c :: Owns(s, c, id)
  }

  /** No earlier run of the plan is active. */
  ghost predicate BaseIdle(base: map<RunId, Run>, runs: map<RunId, Run>, plan: PlanId) {
    plan != "" ==> forall i :: i in base && i in runs && runs[i].plan == plan ==> !IsActive(runs[i])
  }

  /** A plan with a new run, or with a caller past its check, has no earlier active run. */
  ghost predicate Cleared(base: map<RunId, Run>, s: System) {
    && (forall c :: c in s.callers && s.callers[c].phase.Checked? ==> BaseIdle(base, s.runs, s.callers[c].plan))
    && (forall id :: id in s.runs && id !in base ==> BaseIdle(base, s.runs, s.runs[id].plan))
  }

  ghost predicate BaseInv(base: map<RunId, Run>, s: System) {
    Extends(base, s.runs) && Owned(base, s) && Cleared(base, s)
  }

  ghost predicate OneNewPerPlan(base: map<RunId, Run>, runs: map<RunId, Run>) {
    forall i, j :: i in runs && j in runs && i !in base && j !in base && runs[i].plan == runs[j].plan && runs[i].plan != ""
                   ==> i == j
  }

  /** A caller that was handed a run holds a finished one. */
  ghost predicate HoldersSafe(s: System) {
    forall c :: c in s.callers && s.callers[c].phase.Holding? && !s.callers[c].phase.created
                ==> s.callers[c].phase.run in s.runs && !IsActive(s.runs[s.callers[c].phase.run])
  }

  /** What the two theorems keep: each its own part, as the two flags say. */
  ghost predicate OwnInv(base: map<RunId, Run>, s: System, one: bool, distinct: bool) {
    BaseInv(base, s) && (one ==> OneNewPerPlan(base, s.runs)) && (distinct ==> HoldersSafe(s))
  }

  /** The conditions on the callers that the flags stand for. */
  ghost predicate Conditions(base: map<RunId, Run>, callers: map<nat, Caller>, one: bool, distinct: bool) {
    && (one ==> OneKeyPerPlan(base, callers))
    && (distinct ==> KeysDistinct(base, callers) && NoForeignKey(base, callers))
  }

  // The four kinds of steps.

  /** Neither inserts nor hands out a run, nor passes a check. */
  ghost predicate Quiet(s: System, r: System) {
    && r.callers.Keys == s.callers.Keys && r.runs.Keys == s.runs.Keys
    && (forall c :: c in s.callers ==> PhaseMoves(s.callers[c], r.callers[c]))
    && (forall id :: id in s.runs ==> SamePlanKey(s.runs[id], r.runs[id]))
  }

  predicate PhaseMoves(c: Caller, d: Caller) {
    d.plan == c.plan && d.key == c.key && (d.phase == c.phase || d.phase.Done?)
  }

  lemma SameConditions(base: map<RunId, Run>, callers: map<nat, Caller>, later: map<nat, Caller>)
    requires later.Keys == callers.Keys
    requires forall c :: c in callers ==> later[c].plan == callers[c].plan && later[c].key == callers[c].key
    ensures OneKeyPerPlan(base, later) <==> OneKeyPerPlan(base, callers)
    ensures KeysDistinct(base, later) <==> KeysDistinct(base, callers)
    ensures NoForeignKey(base, later) <==> NoForeignKey(base, callers)
  {
  }

  lemma QuietKeepsOwned(base: map<RunId, Run>, s: System, r: System)
    requires Owned(base, s) && Quiet(s, r)
    ensures Owned(base, r)
  {
    forall id | id in r.runs && id !in base
      ensures !HasKey(base, r.runs[id].key) && exists c :: Owns(r, c, id)
    {
      assert SamePlanKey(s.runs[id], r.runs[id]);
      var c :| Owns(s, c, id);
      assert PhaseMoves(s.callers[c], r.callers[c]);
      assert Owns(r, c, id);
    }
  }

  lemma QuietKeepsIdle(base: map<RunId, Run>, s: System, r: System, plan: PlanId)
    requires BaseIdle(base, s.runs, plan) && Quiet(s, r)
    ensures BaseIdle(base, r.runs, plan)
  {
    forall i | i in base && i in r.runs && r.runs[i].plan == plan
      ensures plan != "" ==> !IsActive(r.runs[i])
    {
      assert SamePlanKey(s.runs[i], r.runs[i]);
    }
  }

  lemma QuietKeepsBase(base: map<RunId, Run>, s: System, r: System)
    requires BaseInv(base, s) && Quiet(s, r)
    ensures BaseInv(base, r)
  {
    QuietKeepsOwned(base, s, r);
    forall id | id in base
      ensures id in r.runs && SamePlanKey(base[id], r.runs[id])
    {
      assert SamePlanKey(base[id], s.runs[id]) && SamePlanKey(s.runs[id], r.runs[id]);
    }
    forall c | c in r.callers && r.callers[c].phase.Checked?
      ensures BaseIdle(base, r.runs, r.callers[c].plan)
    {
      assert PhaseMoves(s.callers[c], r.callers[c]);
      QuietKeepsIdle(base, s, r, r.callers[c].plan);
    }
    forall id | id in r.runs && id !in base
      ensures BaseIdle(base, r.runs, r.runs[id].plan)
    {
      assert SamePlanKey(s.runs[id], r.runs[id]);
      QuietKeepsIdle(base, s, r, r.runs[id].plan);
    }
  }

  lemma QuietKeepsNew(base: map<RunId, Run>, s: System, r: System)
    requires OneNewPerPlan(base, s.runs) && Quiet(s, r)
    ensures OneNewPerPlan(base, r.runs)
  {
    assert forall id :: id in s.runs ==> SamePlanKey(s.runs[id], r.runs[id]);
  }

  lemma QuietKeepsHolders(s: System, r: System)
    requires HoldersSafe(s) && Quiet(s, r)
    ensures HoldersSafe(r)
  {
    forall c | c in r.callers && r.callers[c].phase.Holding? && !r.callers[c].phase.created
      ensures r.callers[c].phase.run in r.runs && !IsActive(r.runs[r.callers[c].phase.run])
    {
      assert PhaseMoves(s.callers[c], r.callers[c]);
      var id := s.callers[c].phase.run;
      assert SamePlanKey(s.runs[id], r.runs[id]);
    }
  }

  lemma QuietKeepsOwn(base: map<RunId, Run>, s: System, r: System, one: bool, distinct: bool)
    requires OwnInv(base, s, one, distinct) && Quiet(s, r)
    ensures OwnInv(base, r, one, distinct)
  {
    QuietKeepsBase(base, s, r);
    if one {
      QuietKeepsNew(base, s, r);
    }
    if distinct {
      QuietKeepsHolders(s, r);
    }
  }

  lemma PhaseKeepsOwned(base: map<RunId, Run>, s: System, c: nat, p: Phase)
    requires Owned(base, s) && c in s.callers && (p.Holding? || s.callers[c].phase.Idle?)
    ensures Owned(base, SetPhase(s, c, p))
  {
    var r := SetPhase(s, c, p);
    forall id | id in r.runs && id !in base
      ensures !HasKey(base, r.runs[id].key) && exists d :: Owns(r, d, id)
    {
      var d :| Owns(s, d, id);
      assert Owns(r, d, id);
    }
  }

  lemma CheckKeepsOwn(base: map<RunId, Run>, s: System, c: nat, one: bool, distinct: bool)
    requires OwnInv(base, s, one, distinct)
    requires c in s.callers && s.callers[c].phase.Idle? && !HasActive(s.runs, s.callers[c].plan)
    ensures OwnInv(base, SetPhase(s, c, Checked), one, distinct)
  {
    PhaseKeepsOwned(base, s, c, Checked);
    assert BaseIdle(base, s.runs, s.callers[c].plan);
  }

  /** The run a caller with a key that is taken is handed. */
  lemma HandOutKeepsOwn(base: map<RunId, Run>, s: System, c: nat, held: RunId, one: bool, distinct: bool)
    requires OwnInv(base, s, one, distinct) && c in s.callers
    requires distinct ==> held in s.runs && !IsActive(s.runs[held])
    ensures OwnInv(base, SetPhase(s, c, Holding(held, false)), one, distinct)
  {
    PhaseKeepsOwned(base, s, c, Holding(held, false));
  }

  /** Under distinct keys, a new run does not have the key of a caller that has yet to insert. */
  lemma NewKeysDiffer(base: map<RunId, Run>, s: System, c: nat, i: RunId)
    requires Owned(base, s) && KeysDistinct(base, s.callers)
    requires c in s.callers && s.callers[c].phase.Checked? && s.callers[c].key.Some? && i in s.runs && i !in base
    ensures s.runs[i].key != s.callers[c].key
  {
    var d :| Owns(s, d, i);
    assert d != c;
  }

  /** So a taken key belongs to an earlier run, which has finished by then. */
  lemma HeldIsFinished(base: map<RunId, Run>, s: System, c: nat, held: RunId)
    requires BaseInv(base, s) && KeysDistinct(base, s.callers) && NoForeignKey(base, s.callers)
    requires c in s.callers && s.callers[c].phase.Checked? && s.callers[c].key.Some?
    requires held in s.runs && s.runs[held].key == s.callers[c].key
    ensures !IsActive(s.runs[held])
  {
    if held in base {
      assert SamePlanKey(base[held], s.runs[held]);
      assert BaseIdle(base, s.runs, s.callers[c].plan);
    } else {
      NewKeysDiffer(base, s, c, held);
    }
  }

  function WithRun(s: System, c: nat, id: RunId): System
    requires c in s.callers
  {
    SetPhase(s.(runs := s.runs[id := Run(s.callers[c].plan, s.callers[c].key, Queued)]), c, Holding(id, true))
  }

  lemma NewRunOwned(base: map<RunId, Run>, s: System, c: nat, id: RunId)
    requires Owned(base, s) && c in s.callers && id !in s.runs && !HasKey(base, s.callers[c].key)
    ensures Owned(base, WithRun(s, c, id))
  {
    var r := WithRun(s, c, id);
    forall i | i in r.runs && i !in base
      ensures !HasKey(base, r.runs[i].key) && exists d :: Owns(r, d, i)
    {
      if i == id {
        assert Owns(r, c, i);
      } else {
        var d :| Owns(s, d, i);
        assert Owns(r, d, i);
      }
    }
  }

  lemma NewRunKeepsBase(base: map<RunId, Run>, s: System, c: nat, id: RunId)
    requires BaseInv(base, s) && c in s.callers && id !in s.runs && s.callers[c].phase.Checked?
    requires !HasKey(s.runs, s.callers[c].key)
    ensures BaseInv(base, WithRun(s, c, id))
  {
    var r := WithRun(s, c, id);
    UnusedBefore(base, s.runs, s.callers[c].key);
    NewRunOwned(base, s, c, id);
    forall plan | BaseIdle(base, s.runs, plan)
      ensures BaseIdle(base, r.runs, plan)
    {
    }
    assert BaseIdle(base, s.runs, s.callers[c].plan);
  }

  lemma UnusedBefore(base: map<RunId, Run>, runs: map<RunId, Run>, key: Option<string>)
    requires Extends(base, runs) && !HasKey(runs, key)
    ensures !HasKey(base, key)
  {
    forall i | i in base && key.Some?
      ensures base[i].key != key
    {
      assert SamePlanKey(base[i], runs[i]);
    }
  }

  /** Under one key per plan, a caller that finds its key unused finds no new run of its plan. */
  lemma NoNewRunOfPlan(base: map<RunId, Run>, s: System, c: nat, i: RunId)
    requires Owned(base, s) && OneKeyPerPlan(base, s.callers) && c in s.callers && s.callers[c].phase.Checked?
    requires !HasKey(s.runs, s.callers[c].key) && !HasKey(base, s.callers[c].key) && s.callers[c].plan != ""
    requires i in s.runs && i !in base
    ensures s.runs[i].plan != s.callers[c].plan
  {
    var d :| Owns(s, d, i);
    assert d != c;
  }

  lemma NewRunKeepsNew(base: map<RunId, Run>, s: System, c: nat, id: RunId)
    requires OneNewPerPlan(base, s.runs) && Owned(base, s) && OneKeyPerPlan(base, s.callers)
    requires c in s.callers && s.callers[c].phase.Checked? && id !in s.runs
    requires !HasKey(s.runs, s.callers[c].key) && !HasKey(base, s.callers[c].key)
    ensures OneNewPerPlan(base, WithRun(s, c, id).runs)
  {
    if s.callers[c].plan != "" {
      forall i | i in s.runs && i !in base
        ensures s.runs[i].plan != s.callers[c].plan
      {
        NoNewRunOfPlan(base, s, c, i);
      }
    }
  }

  lemma NewRunKeepsHolders(s: System, c: nat, id: RunId)
    requires HoldersSafe(s) && c in s.callers && id !in s.runs
    ensures HoldersSafe(WithRun(s, c, id))
  {
  }

  lemma InsertKeepsOwn(base: map<RunId, Run>, s: System, c: nat, id: RunId, one: bool, distinct: bool)
    requires OwnInv(base, s, one, distinct) && Conditions(base, s.callers, one, distinct)
    requires c in s.callers && id !in s.runs && s.callers[c].phase.Checked?
    ensures OwnInv(base, Inserted(s, c, id), one, distinct)
  {
    var key := s.callers[c].key;
    if HasKey(s.runs, key) {
      if distinct {
        HeldIsFinished(base, s, c, Holder(s.runs, key));
      }
      HandOutKeepsOwn(base, s, c, Holder(s.runs, key), one, distinct);
    } else {
      UnusedBefore(base, s.runs, key);
      NewRunKeepsBase(base, s, c, id);
      if one {
        NewRunKeepsNew(base, s, c, id);
      }
      if distinct {
        NewRunKeepsHolders(s, c, id);
      }
    }
  }

  lemma PhaseIsQuiet(s: System, c: nat)
    requires c in s.callers
    ensures Quiet(s, SetPhase(s, c, Done))
  {
  }

  lemma EnqueueIsQuiet(s: System, c: nat, ok: bool)
    ensures Quiet(s, Step(s, Enqueue(c, ok)))
  {
  }

  /** Checking and inserting at once is checking, then inserting. */
  lemma AtOnceIsBoth(s: System, c: nat, id: RunId)
    requires c in s.callers && id !in s.runs
    ensures Inserted(s, c, id) == Inserted(SetPhase(s, c, Checked), c, id)
  {
    forall p
      ensures s.callers[c := s.callers[c].(phase := Checked)][c := s.callers[c].(phase := p)]
              == s.callers[c := s.callers[c].(phase := p)]
    {
    }
  }

  lemma CheckStepKeepsOwn(base: map<RunId, Run>, s: System, c: nat, one: bool, distinct: bool)
    requires OwnInv(base, s, one, distinct)
    ensures OwnInv(base, Step(s, Check(c)), one, distinct)
  {
    if c in s.callers && s.callers[c].phase.Idle? {
      if HasActive(s.runs, s.callers[c].plan) {
        PhaseIsQuiet(s, c);
        QuietKeepsOwn(base, s, SetPhase(s, c, Done), one, distinct);
      } else {
        CheckKeepsOwn(base, s, c, one, distinct);
      }
    }
  }

  lemma AtOnceKeepsOwn(base: map<RunId, Run>, s: System, c: nat, id: RunId, one: bool, distinct: bool)
    requires OwnInv(base, s, one, distinct) && Conditions(base, s.callers, one, distinct)
    ensures OwnInv(base, Step(s, CheckAndInsert(c, id)), one, distinct)
  {
    if c in s.callers && s.callers[c].phase.Idle? && id !in s.runs {
      if HasActive(s.runs, s.callers[c].plan) {
        PhaseIsQuiet(s, c);
        QuietKeepsOwn(base, s, SetPhase(s, c, Done), one, distinct);
      } else {
        var checked := SetPhase(s, c, Checked);
        CheckKeepsOwn(base, s, c, one, distinct);
        PhaseKeepsConditions(base, s, c, Checked, one, distinct);
        InsertKeepsOwn(base, checked, c, id, one, distinct);
        AtOnceIsBoth(s, c, id);
      }
    }
  }

  lemma PhaseKeepsConditions(base: map<RunId, Run>, s: System, c: nat, p: Phase, one: bool, distinct: bool)
    requires c in s.callers && Conditions(base, s.callers, one, distinct)
    ensures Conditions(base, SetPhase(s, c, p).callers, one, distinct)
  {
    SameConditions(base, s.callers, SetPhase(s, c, p).callers);
  }

  lemma OwnStep(base: map<RunId, Run>, s: System, e: Event, one: bool, distinct: bool)
    requires OwnInv(base, s, one, distinct) && Conditions(base, s.callers, one, distinct)
    ensures OwnInv(base, Step(s, e), one, distinct)
  {
    match e
    case Check(c) => CheckStepKeepsOwn(base, s, c, one, distinct);
    case Insert(c, id) =>
      if c in s.callers && s.callers[c].phase.Checked? && id !in s.runs {
        InsertKeepsOwn(base, s, c, id, one, distinct);
      }
    case CheckAndInsert(c, id) => AtOnceKeepsOwn(base, s, c, id, one, distinct);
    case Enqueue(c, ok) =>
      EnqueueIsQuiet(s, c, ok);
      QuietKeepsOwn(base, s, Step(s, e), one, distinct);
    case Start(_) =>
      RunIsQuiet(s, e);
      QuietKeepsOwn(base, s, Step(s, e), one, distinct);
    case Finish(_, _) =>
      RunIsQuiet(s, e);
      QuietKeepsOwn(base, s, Step(s, e), one, distinct);
  }

  lemma RunIsQuiet(s: System, e: Event)
    requires e.Start? || e.Finish?
    ensures Quiet(s, Step(s, e))
  {
  }

  /** A later system has the same callers, with the same plans and keys. */
  ghost predicate SameCallers(s: System, r: System) {
    r.callers.Keys == s.callers.Keys
    && forall c :: c in s.callers ==> r.callers[c].plan == s.callers[c].plan && r.callers[c].key == s.callers[c].key
  }

  lemma PhaseKeepsCallers(s: System, c: nat, p: Phase)
    requires c in s.callers
    ensures SameCallers(s, SetPhase(s, c, p))
  {
  }

  lemma StepKeepsCallers(s: System, e: Event)
    ensures SameCallers(s, Step(s, e))
  {
    if (e.Check? || e.Insert? || e.CheckAndInsert? || e.Enqueue?) && e.c in s.callers && Step(s, e).callers != s.callers {
      assert Step(s, e).callers == SetPhase(s, e.c, Step(s, e).callers[e.c].phase).callers;
      PhaseKeepsCallers(s, e.c, Step(s, e).callers[e.c].phase);
    }
  }

  lemma StepKeepsConditions(base: map<RunId, Run>, s: System, e: Event, one: bool, distinct: bool)
    requires Conditions(base, s.callers, one, distinct)
    ensures Conditions(base, Step(s, e).callers, one, distinct)
  {
    StepKeepsCallers(s, e);
    SameConditions(base, s.callers, Step(s, e).callers);
  }

  /** In every history each new run belongs to a caller of its plan and key and clears the earlier runs
      of its plan; callers with one key per plan insert one run per plan, and callers with distinct keys
      are handed finished runs only. */
  lemma {:induction false} OwnRun(base: map<RunId, Run>, s: System, events: seq<Event>, one: bool, distinct: bool)
    requires OwnInv(base, s, one, distinct) && Conditions(base, s.callers, one, distinct)
    ensures OwnInv(base, Trace(s, events), one, distinct)
    decreases |events|
  {
    if events != [] {
      OwnStep(base, s, events[0], one, distinct);
      StepKeepsConditions(base, s, events[0], one, distinct);
      OwnRun(base, Step(s, events[0]), events[1..], one, distinct);
    }
  }

  lemma InitiallyOwn(s: System, one: bool, distinct: bool)
    requires Initial(s)
    ensures OwnInv(s.runs, s, one, distinct)
  {
  }

  lemma OneActiveUnder(base: map<RunId, Run>, s: System)
    requires BaseInv(base, s) && OneNewPerPlan(base, s.runs) && OneActivePerPlan(base)
    ensures OneActivePerPlan(s.runs)
  {
    forall i, j | i in s.runs && j in s.runs && IsActive(s.runs[i]) && IsActive(s.runs[j])
                  && s.runs[i].plan == s.runs[j].plan && s.runs[i].plan != ""
      ensures i == j
    {
      var plan := s.runs[i].plan;
      if i in base && j in base {
        assert SamePlanKey(base[i], s.runs[i]) && SamePlanKey(base[j], s.runs[j]);
      } else if i !in base || j !in base {
        assert BaseIdle(base, s.runs, plan);
      }
    }
  }

  // ------------------------------------------------------------- what two callers can do

  lemma TraceCons(s: System, e: Event, rest: seq<Event>)
    ensures Trace(s, [e] + rest) == Trace(Step(s, e), rest)
  {
    assert ([e] + rest)[1..] == rest;
  }

  lemma {:induction false} TraceAppend(s: System, a: seq<Event>, b: seq<Event>)
    ensures Trace(s, a + b) == Trace(Trace(s, a), b)
    decreases |a|
  {
    if a == [] {
      assert a + b == b;
    } else {
      assert (a + b)[1..] == a[1..] + b;
      TraceAppend(Step(s, a[0]), a[1..], b);
    }
  }

  /** `r` is `s` after runs of earlier callers finished. */
  ghost predicate OnlyFinished(s: System, r: System) {
    && r.callers == s.callers && r.jobs == s.jobs && r.runs.Keys == s.runs.Keys
    && forall id :: id in s.runs ==> SamePlanKey(s.runs[id], r.runs[id])
  }

  /** The active run of a plan can finish. */
  lemma FinishPlan(s: System, plan: PlanId) returns (events: seq<Event>)
    requires OneActivePerPlan(s.runs)
    ensures var r := Trace(s, events);
            Split(events) && OnlyFinished(s, r) && !HasActive(r.runs, plan) && OneActivePerPlan(r.runs)
  {
    events := [];
    if id :| id in s.runs && s.runs[id].plan == plan && IsActive(s.runs[id]) && plan != "" {
      var s1 := Step(s, Start(id));
      var s2 := Step(s1, Finish(id, true));
      assert s1.runs == s.runs[id := s.runs[id].(state := Running)];
      assert s2.runs == s.runs[id := s.runs[id].(state := Completed)];
      events := [Start(id)] + ([Finish(id, true)] + []);
      TraceCons(s1, Finish(id, true), []);
      TraceCons(s, Start(id), [Finish(id, true)] + []);
    }
  }

  /** The active runs of two plans can finish. */
  lemma FinishPlans(s: System, p: PlanId, q: PlanId) returns (events: seq<Event>)
    requires OneActivePerPlan(s.runs)
    ensures var r := Trace(s, events);
            Split(events) && OnlyFinished(s, r) && !HasActive(r.runs, p) && !HasActive(r.runs, q)
  {
    var first := FinishPlan(s, p);
    var mid := Trace(s, first);
    var second := FinishPlan(mid, q);
    events := first + second;
    TraceAppend(s, first, second);
    var r := Trace(mid, second);
    forall id | id in s.runs
      ensures SamePlanKey(s.runs[id], r.runs[id])
    {
      assert SamePlanKey(s.runs[id], mid.runs[id]) && SamePlanKey(mid.runs[id], r.runs[id]);
    }
    forall id | id in r.runs && r.runs[id].plan == p && p != ""
      ensures !IsActive(r.runs[id])
    {
      assert SamePlanKey(mid.runs[id], r.runs[id]);
    }
  }

  lemma FinishedKeys(s: System, r: System, key: Option<string>)
    requires OnlyFinished(s, r)
    ensures HasKey(r.runs, key) <==> HasKey(s.runs, key)
  {
    if i :| i in s.runs && s.runs[i].key == key {
      assert SamePlanKey(s.runs[i], r.runs[i]);
    }
    if i :| i in r.runs && r.runs[i].key == key {
      assert SamePlanKey(s.runs[i], r.runs[i]);
    }
  }

  /** Both callers pass the check before either inserts. */
  function BothCheck(c: nat, d: nat, x: RunId): seq<Event> {
    [Check(c)] + ([Check(d)] + ([Insert(c, x)] + ([Insert(d, x + 1)] + [])))
  }

  /** What BothCheck leaves: the first caller's run, and the second caller's own or the shared one. */
  ghost predicate BothChecked(s: System, r: System, c: nat, d: nat, x: RunId)
    requires c in s.callers && d in s.callers
  {
    var a, b := s.callers[c], s.callers[d];
    var shared := a.key.Some? && a.key == b.key;
    var one := s.runs[x := Run(a.plan, a.key, Queued)];
    && r.runs == (if shared then one else one[x + 1 := Run(b.plan, b.key, Queued)])
    && r.callers == s.callers[c := a.(phase := Holding(x, true))]
                             [d := b.(phase := if shared then Holding(x, false) else Holding(x + 1, true))]
    && r.jobs == s.jobs
  }

  lemma FirstInsert(s: System, c: nat, d: nat, x: RunId)
    requires c in s.callers && d in s.callers && c != d && s.callers[c].phase.Idle? && s.callers[d].phase.Idle?
    requires !HasActive(s.runs, s.callers[c].plan) && !HasActive(s.runs, s.callers[d].plan)
    requires !HasKey(s.runs, s.callers[c].key) && x !in s.runs
    ensures var a, b := s.callers[c], s.callers[d];
            Step(Step(Step(s, Check(c)), Check(d)), Insert(c, x))
            == s.(runs := s.runs[x := Run(a.plan, a.key, Queued)],
                  callers := s.callers[c := a.(phase := Holding(x, true))][d := b.(phase := Checked)])
  {
    var a, b := s.callers[c], s.callers[d];
    var s2 := Step(Step(s, Check(c)), Check(d));
    assert s2 == s.(callers := s.callers[c := a.(phase := Checked)][d := b.(phase := Checked)]);
    assert s2.callers[c := a.(phase := Holding(x, true))] == s.callers[c := a.(phase := Holding(x, true))][d := b.(phase := Checked)];
  }

  lemma SecondInsert(s: System, d: nat, x: RunId, first: Run)
    requires d in s.callers && s.callers[d].phase.Checked? && x in s.runs && s.runs[x] == first && x + 1 !in s.runs
    requires forall i :: i in s.runs && i != x && s.callers[d].key.Some? ==> s.runs[i].key != s.callers[d].key
    ensures var b := s.callers[d];
            var r := Step(s, Insert(d, x + 1));
            var shared := first.key.Some? && first.key == b.key;
            && r.runs == (if shared then s.runs else s.runs[x + 1 := Run(b.plan, b.key, Queued)])
            && r.callers == s.callers[d := b.(phase := if shared then Holding(x, false) else Holding(x + 1, true))]
            && r.jobs == s.jobs
  {
    var b := s.callers[d];
    assert s.runs[x].key == first.key;
    assert HasKey(s.runs, b.key) <==> first.key.Some? && first.key == b.key;
  }

  lemma BothCheckTrace(s: System, c: nat, d: nat, x: RunId)
    requires c in s.callers && d in s.callers && c != d && s.callers[c].phase.Idle? && s.callers[d].phase.Idle?
    requires !HasActive(s.runs, s.callers[c].plan) && !HasActive(s.runs, s.callers[d].plan)
    requires !HasKey(s.runs, s.callers[c].key) && !HasKey(s.runs, s.callers[d].key)
    requires x !in s.runs && x + 1 !in s.runs
    ensures BothChecked(s, Trace(s, BothCheck(c, d, x)), c, d, x)
  {
    var a, b := s.callers[c], s.callers[d];
    FirstInsert(s, c, d, x);
    var s3 := Step(Step(Step(s, Check(c)), Check(d)), Insert(c, x));
    SecondInsert(s3, d, x, Run(a.plan, a.key, Queued));
    var tail := [Insert(d, x + 1)] + [];
    TraceCons(s3, Insert(d, x + 1), []);
    TraceCons(Step(Step(s, Check(c)), Check(d)), Insert(c, x), tail);
    TraceCons(Step(s, Check(c)), Check(d), [Insert(c, x)] + tail);
    TraceCons(s, Check(c), [Check(d)] + ([Insert(c, x)] + tail));
  }

  lemma AppendSplit(s: System, a: seq<Event>, b: seq<Event>) returns (events: seq<Event>)
    requires Split(a) && Split(b)
    ensures Split(events) && Trace(s, events) == Trace(Trace(s, a), b)
  {
    events := a + b;
    TraceAppend(s, a, b);
  }

  lemma BothPass(s: System, mid: System, c: nat, d: nat) returns (x: RunId)
    requires c in s.callers && d in s.callers && c != d && s.callers[c].phase.Idle? && s.callers[d].phase.Idle?
    requires OnlyFinished(s, mid) && !HasActive(mid.runs, s.callers[c].plan) && !HasActive(mid.runs, s.callers[d].plan)
    requires !HasKey(s.runs, s.callers[c].key) && !HasKey(s.runs, s.callers[d].key)
    ensures x !in mid.runs && x + 1 !in mid.runs && BothChecked(mid, Trace(mid, BothCheck(c, d, x)), c, d, x)
  {
    FinishedKeys(s, mid, s.callers[c].key);
    FinishedKeys(s, mid, s.callers[d].key);
    x := FreshAbove(mid.runs);
    assert x !in mid.runs && x + 1 !in mid.runs;
    BothCheckTrace(mid, c, d, x);
  }

  /** After earlier runs have finished, two callers with unused keys both pass the check. */
  lemma BothGetThrough(s: System, c: nat, d: nat) returns (events: seq<Event>, mid: System, x: RunId)
    requires Initial(s) && c in s.callers && d in s.callers && c != d
    requires !HasKey(s.runs, s.callers[c].key) && !HasKey(s.runs, s.callers[d].key)
    ensures Split(events) && OnlyFinished(s, mid) && x !in mid.runs && x + 1 !in mid.runs
    ensures BothChecked(mid, Trace(s, events), c, d, x)
  {
    var first := FinishPlans(s, s.callers[c].plan, s.callers[d].plan);
    mid := Trace(s, first);
    x := BothPass(s, mid, c, d);
    events := AppendSplit(s, first, BothCheck(c, d, x));
  }

  /** Interleaved, two callers of one plan with unused keys that differ both get an active run. */
  lemma SplitBreaksOneActive(s: System, c: nat, d: nat) returns (events: seq<Event>)
    requires Initial(s) && c in s.callers && d in s.callers && c != d
    requires s.callers[c].plan == s.callers[d].plan != "" && (s.callers[c].key.None? || s.callers[c].key != s.callers[d].key)
    requires !HasKey(s.runs, s.callers[c].key) && !HasKey(s.runs, s.callers[d].key)
    ensures Split(events) && !OneActivePerPlan(Trace(s, events).runs)
  {
    var mid, x;
    events, mid, x := BothGetThrough(s, c, d);
    var runs := Trace(s, events).runs;
    assert x in runs && x + 1 in runs && IsActive(runs[x]) && IsActive(runs[x + 1]);
  }

  /** The caller was handed a run it did not create, and its enqueue changes that run. */
  ghost predicate FailsShared(s: System, c: nat, ok: bool) {
    && c in s.callers && s.callers[c].phase.Holding? && !s.callers[c].phase.created
    && Step(s, Enqueue(c, ok)).runs != s.runs
  }

  /** Interleaved, two callers with one unused key share the run, and the second one's duplicate enqueue
      marks it failed although its job is in the queue. */
  lemma SplitFailsSharedRun(s: System, c: nat, d: nat) returns (events: seq<Event>, x: RunId)
    requires Initial(s) && c in s.callers && d in s.callers && c != d
    requires s.callers[c].key.Some? && s.callers[c].key == s.callers[d].key && !HasKey(s.runs, s.callers[c].key)
    ensures Split(events) && FailsShared(Trace(s, events), d, true)
    ensures var end := Step(Trace(s, events), Enqueue(d, true));
            x in end.runs && end.runs[x] == Run(s.callers[c].plan, s.callers[c].key, Failed) && x in end.jobs
  {
    var first, mid;
    first, mid, x := BothGetThrough(s, c, d);
    var held := Trace(s, first);
    events := first + ([Enqueue(c, true)] + []);
    TraceAppend(s, first, [Enqueue(c, true)] + []);
    TraceCons(held, Enqueue(c, true), []);
    DuplicateEnqueue(held, c, d, x);
  }

  lemma DuplicateEnqueue(s: System, c: nat, d: nat, x: RunId)
    requires c in s.callers && d in s.callers && c != d && x !in s.jobs
    requires s.callers[c].phase == Holding(x, true) && s.callers[d].phase == Holding(x, false)
    requires x in s.runs && s.runs[x].state.Queued?
    ensures var queued := Step(s, Enqueue(c, true));
            var end := Step(queued, Enqueue(d, true));
            && FailsShared(queued, d, true) && x in end.jobs && end.runs == s.runs[x := s.runs[x].(state := Failed)]
  {
    var queued := Step(s, Enqueue(c, true));
    assert queued.runs == s.runs && x in queued.jobs && queued.callers[d].phase == Holding(x, false);
    assert Step(queued, Enqueue(d, true)).runs[x].state == Failed;
  }

  /** A caller with the key of an earlier active run of another plan is handed it and can fail it. */
  lemma ForeignKeyFails(s: System, c: nat, id: RunId) returns (events: seq<Event>)
    requires Initial(s) && KeysUnique(s.runs) && c in s.callers && id in s.runs && s.callers[c].key.Some?
    requires s.runs[id].key == s.callers[c].key && IsActive(s.runs[id])
    requires s.callers[c].plan != s.runs[id].plan || s.callers[c].plan == ""
    ensures Split(events) && FailsShared(Trace(s, events), c, false)
  {
    var plan := s.callers[c].plan;
    var first := FinishOther(s, plan, id);
    var mid := Trace(s, first);
    var unused := FreshAbove(mid.runs);
    assert unused !in mid.runs;
    var a := Step(mid, Check(c));
    assert a == mid.(callers := mid.callers[c := mid.callers[c].(phase := Checked)]);
    HandsOut(a, c, id, unused);
    var r := Step(a, Insert(c, unused));
    events := first + ([Check(c)] + ([Insert(c, unused)] + []));
    TraceAppend(s, first, [Check(c)] + ([Insert(c, unused)] + []));
    TraceCons(mid, Check(c), [Insert(c, unused)] + []);
    TraceCons(a, Insert(c, unused), []);
    assert Step(r, Enqueue(c, false)).runs[id].state == Failed;
  }

  lemma HandsOut(s: System, c: nat, id: RunId, unused: RunId)
    requires KeysUnique(s.runs) && c in s.callers && s.callers[c].phase.Checked? && id in s.runs && unused !in s.runs
    requires s.callers[c].key.Some? && s.runs[id].key == s.callers[c].key
    ensures Step(s, Insert(c, unused)) == SetPhase(s, c, Holding(id, false))
  {
    assert HasKey(s.runs, s.callers[c].key);
  }

  /** The active run of a plan can finish while a run of another plan stays as it is. */
  lemma FinishOther(s: System, plan: PlanId, keep: RunId) returns (events: seq<Event>)
    requires OneActivePerPlan(s.runs) && KeysUnique(s.runs) && keep in s.runs && (s.runs[keep].plan != plan || plan == "")
    ensures var r := Trace(s, events);
            && Split(events) && r.callers == s.callers && !HasActive(r.runs, plan) && KeysUnique(r.runs)
            && keep in r.runs && r.runs[keep] == s.runs[keep]
  {
    events := [];
    if id :| id in s.runs && s.runs[id].plan == plan && IsActive(s.runs[id]) && plan != "" {
      var s1 := Step(s, Start(id));
      var s2 := Step(s1, Finish(id, true));
      assert s1.runs == s.runs[id := s.runs[id].(state := Running)];
      assert s2.runs == s.runs[id := s.runs[id].(state := Completed)];
      events := [Start(id)] + ([Finish(id, true)] + []);
      TraceCons(s1, Finish(id, true), []);
      TraceCons(s, Start(id), [Finish(id, true)] + []);
    }
  }

  // ------------------------------------------------------------- the exact conditions

  /** The code's own steps, exactly: no history gives a plan two active runs if and only if any two
      callers of one plan with unused keys come with the same key.  Two manual triggers never do. */
  lemma OneActiveExactly(s: System)
    requires Initial(s)
    ensures (forall events :: Split(events) ==> OneActivePerPlan(Trace(s, events).runs)) <==> OneKeyPerPlan(s.runs, s.callers)
    ensures (forall events :: OneActivePerPlan(Trace(s, events).runs)) <==> OneKeyPerPlan(s.runs, s.callers)
  {
    if OneKeyPerPlan(s.runs, s.callers) {
      forall events
        ensures OneActivePerPlan(Trace(s, events).runs)
      {
        InitiallyOwn(s, true, false);
        OwnRun(s.runs, s, events, true, false);
        OneActiveUnder(s.runs, Trace(s, events));
      }
    } else {
      var c, d :| c in s.callers && d in s.callers && c != d && s.callers[c].plan == s.callers[d].plan
                  && s.callers[c].plan != "" && !HasKey(s.runs, s.callers[c].key) && !HasKey(s.runs, s.callers[d].key)
                  && !(s.callers[c].key.Some? && s.callers[c].key == s.callers[d].key);
      var events := SplitBreaksOneActive(s, c, d);
      assert Split(events) && !OneActivePerPlan(Trace(s, events).runs);
    }
  }

  lemma SafeHoldersFailNothing(s: System, c: nat, ok: bool)
    requires HoldersSafe(s)
    ensures !FailsShared(s, c, ok)
  {
  }

  lemma DistinctIsSafe(s: System, events: seq<Event>, c: nat, ok: bool)
    requires Initial(s) && KeysDistinct(s.runs, s.callers) && NoForeignKey(s.runs, s.callers)
    ensures !FailsShared(Trace(s, events), c, ok)
  {
    InitiallyOwn(s, false, true);
    OwnRun(s.runs, s, events, false, true);
    SafeHoldersFailNothing(Trace(s, events), c, ok);
  }

  ghost predicate FailsAfter(s: System, events: seq<Event>, c: nat, ok: bool) {
    FailsShared(Trace(s, events), c, ok)
  }

  lemma SharedRunFails(s: System) returns (events: seq<Event>, c: nat, ok: bool)
    requires Initial(s) && KeysUnique(s.runs) && !(KeysDistinct(s.runs, s.callers) && NoForeignKey(s.runs, s.callers))
    ensures Split(events) && FailsAfter(s, events, c, ok)
  {
    if !KeysDistinct(s.runs, s.callers) {
      var i, j :| i in s.callers && j in s.callers && i != j && s.callers[i].key.Some?
                  && !HasKey(s.runs, s.callers[i].key) && s.callers[i].key == s.callers[j].key;
      var x;
      events, x := SplitFailsSharedRun(s, i, j);
      c, ok := j, true;
    } else {
      var i, id :| i in s.callers && id in s.runs && s.callers[i].key.Some? && s.runs[id].key == s.callers[i].key
                   && IsActive(s.runs[id]) && !(s.callers[i].plan == s.runs[id].plan && s.callers[i].plan != "");
      events := ForeignKeyFails(s, i, id);
      c, ok := i, false;
    }
  }

  /** And no history lets a caller fail a run it was handed if and only if no two callers share an unused
      key and none comes with the key of another plan's active run.  Two controllers in one minute do
      share one. */
  lemma SharedRunExactly(s: System)
    requires Initial(s) && KeysUnique(s.runs)
    ensures (forall events, c, ok :: Split(events) ==> !FailsAfter(s, events, c, ok))
            <==> KeysDistinct(s.runs, s.callers) && NoForeignKey(s.runs, s.callers)
    ensures (forall events, c, ok :: !FailsAfter(s, events, c, ok))
            <==> KeysDistinct(s.runs, s.callers) && NoForeignKey(s.runs, s.callers)
  {
    if KeysDistinct(s.runs, s.callers) && NoForeignKey(s.runs, s.callers) {
      forall events, c, ok
        ensures !FailsAfter(s, events, c, ok)
      {
        DistinctIsSafe(s, events, c, ok);
      }
    } else {
      var events, c, ok := SharedRunFails(s);
      assert Split(events) && FailsAfter(s, events, c, ok);
    }
  }

  /** Where keys name plans, an enqueue that would have gone through fails a handed-out run in some
      history if and only if two callers share an unused key. */
  lemma DuplicateFailsExactly(s: System)
    requires Initial(s) && KeysUnique(s.runs) && NoForeignKey(s.runs, s.callers)
    ensures (forall events, c :: Split(events) ==> !FailsAfter(s, events, c, true)) <==> KeysDistinct(s.runs, s.callers)
  {
    if KeysDistinct(s.runs, s.callers) {
      forall events, c | Split(events)
        ensures !FailsAfter(s, events, c, true)
      {
        DistinctIsSafe(s, events, c, true);
      }
    } else {
      var c, d :| c in s.callers && d in s.callers && c != d && s.callers[c].key.Some?
                  && !HasKey(s.runs, s.callers[c].key) && s.callers[c].key == s.callers[d].key;
      var events, x := SplitFailsSharedRun(s, c, d);
      assert Split(events) && FailsAfter(s, events, d, true);
    }
  }
}

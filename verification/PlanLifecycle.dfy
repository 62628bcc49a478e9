/** The life of a backup plan's row while updates, delete requests, tombstoning and the scheduler
interleave.

`UpdatePlan` reads the row and later writes a whole new version back without looking again, so any
number of stale writers may be waiting at any time. */
module PlanLifecycle {
  import opened Text
  import opened Durations
  import opened Scheduler

  const DEFAULT_GRACE := 7 * DAY
  const MAX_GRACE := 90 * DAY

  /** The columns an update rewrites, other than the state. */
  datatype Config = Config(
    name: string, cron: string, nextRunAt: Option<int>, enabled: bool, retentionCount: int, retentionDays: int)

  datatype Row = Row(config: Config, state: PlanState, deleteAfter: Option<int>, deletedAt: Option<int>)

  /** The table's CHECK constraints that tie the state to the two delete columns. */
  predicate Shaped(r: Row) {
    (r.state == Deleted <==> r.deletedAt.Some?) && (r.state == PendingDelete <==> r.deleteAfter.Some?)
  }

  /** A partial update; None leaves a column alone. */
  datatype Update = Update(
    name: Option<string>, cron: Option<string>, nextRunAt: Option<int>, enabled: Option<bool>,
    retentionCount: Option<int>, retentionDays: Option<int>, state: Option<PlanState>)

  datatype Error = Invalid | NotFound | BadTransition | Rejected

  datatype Result<+T> = Ok(value: T) | Err(error: Error)

  function Or<T>(o: Option<T>, otherwise: T): T {
    if o.Some? then o.value else otherwise
  }

  /** The column values an update writes, computed from the row it read. */
  function Merge(read: Row, u: Update): Result<(Config, PlanState)> {
    var c := read.config;
    if u.name == Some("") then Err(Invalid)
    else if u.retentionCount.Some? && u.retentionCount.value < 1 then Err(Invalid)
    else if u.retentionDays.Some? && u.retentionDays.value < 1 then Err(Invalid)
    else if u.state.Some? && !(u.state.value.Active? || u.state.value.Suspended?) then Err(Invalid)
    else if u.state.Some? && (read.state.PendingDelete? || read.state.Deleted?) then Err(BadTransition)
    else
      Ok((Config(Or(u.name, c.name), Or(u.cron, c.cron),
                 if u.nextRunAt.Some? then u.nextRunAt else c.nextRunAt,
                 Or(u.enabled, c.enabled), Or(u.retentionCount, c.retentionCount),
                 Or(u.retentionDays, c.retentionDays)),
          Or(u.state, read.state)))
  }

  /** The write-back: it matches any live row, and the constraints may refuse the result. */
  function WriteBack(row: Row, read: Row, u: Update, enforced: bool): Result<Row> {
    var m := Merge(read, u);
    if m.Err? then Err(m.error)
    else if row.deletedAt.Some? then Err(NotFound)
    else
      var candidate := row.(config := m.value.0, state := m.value.1);
      if enforced && !Shaped(candidate) then Err(Rejected) else Ok(candidate)
  }

  /** Every column of the version written back is the update's, or the one read; the delete columns are
      those of the row as it is now. */
  lemma WriteBackColumns(row: Row, read: Row, u: Update, enforced: bool)
    requires WriteBack(row, read, u, enforced).Ok?
    ensures var r, c := WriteBack(row, read, u, enforced).value, read.config;
            && r.config.name == (if u.name.Some? then u.name.value else c.name)
            && r.config.cron == (if u.cron.Some? then u.cron.value else c.cron)
            && r.config.nextRunAt == (if u.nextRunAt.Some? then u.nextRunAt else c.nextRunAt)
            && r.config.enabled == (if u.enabled.Some? then u.enabled.value else c.enabled)
            && r.config.retentionCount == (if u.retentionCount.Some? then u.retentionCount.value else c.retentionCount)
            && r.config.retentionDays == (if u.retentionDays.Some? then u.retentionDays.value else c.retentionDays)
            && r.state == (if u.state.Some? then u.state.value else read.state)
            && r.deleteAfter == row.deleteAfter && r.deletedAt == row.deletedAt
  {
  }

  function EffectiveGrace(grace: int): int {
    if grace <= 0 then DEFAULT_GRACE else if grace > MAX_GRACE then MAX_GRACE else grace
  }

  /** No grace means seven days, and ninety is the most anyone gets. */
  lemma GraceInNanoseconds(grace: int)
    ensures grace <= 0 ==> EffectiveGrace(grace) == 604_800_000_000_000
    ensures grace >= 7_776_000_000_000_000 ==> EffectiveGrace(grace) == 7_776_000_000_000_000
    ensures 0 < grace < 7_776_000_000_000_000 ==> EffectiveGrace(grace) == grace
  {
  }

  function MarkedForDelete(row: Row, grace: int, now: int): Result<Row> {
    if row.deletedAt.None? && (row.state.Active? || row.state.Suspended?)
    then Ok(row.(state := PendingDelete, deleteAfter := Some(now + EffectiveGrace(grace))))
    else Err(NotFound)
  }

  function Finalized(row: Row, now: int): Result<Row> {
    if row.state.PendingDelete? && row.deleteAfter.Some? && row.deleteAfter.value <= now
    then Ok(row.(state := Deleted, deletedAt := Some(now), deleteAfter := None))
    else Err(NotFound)
  }

  function RunAdvanced(row: Row, next: int): Row {
    if row.config.enabled && row.state.Active? && row.deletedAt.None?
    then row.(config := row.config.(nextRunAt := Some(next))) else row
  }

  /** The row of one plan, with the statements the store runs on it. */
  class PlanRow {
    var row: Row

    constructor (row: Row)
      ensures this.row == row
    {
      this.row := row;
    }

    method Apply(r: Result<Row>) returns (failed: Option<Error>)
      modifies this
      ensures row == if r.Ok? then r.value else old(row)
      ensures failed == if r.Ok? then None else Some(r.error)
    {
      match r {
        case Ok(v) => row := v; return None;
        case Err(e) => return Some(e);
      }
    }

    /** Each column gets the value given, or keeps its own; the delete columns are not touched.  A
        tombstoned plan is not found, values out of range and states that cannot be set are invalid, a
        plan that is being deleted takes no state, and the constraints have the last word. */
    method UpdatePlan(u: Update) returns (failed: Option<Error>)
      modifies this
      ensures var was := old(row);
              var st := if u.state.Some? then u.state.value else was.state;
              failed == if was.deletedAt.Some? then Some(NotFound)
                        else if u.name == Some("") || (u.retentionCount.Some? && u.retentionCount.value <= 0)
                                || (u.retentionDays.Some? && u.retentionDays.value <= 0)
                                || u.state == Some(PendingDelete) || u.state == Some(Deleted) then Some(Invalid)
                        else if u.state.Some? && (was.state == PendingDelete || was.state == Deleted) then Some(BadTransition)
                        else if st == Deleted || (st == PendingDelete) != was.deleteAfter.Some? then Some(Rejected)
                        else None
      ensures failed.Some? ==> row == old(row)
      ensures failed.None? ==>
                var was, c := old(row), old(row).config;
                && row.config.name == (if u.name.Some? then u.name.value else c.name)
                && row.config.cron == (if u.cron.Some? then u.cron.value else c.cron)
                && row.config.nextRunAt == (if u.nextRunAt.Some? then u.nextRunAt else c.nextRunAt)
                && row.config.enabled == (if u.enabled.Some? then u.enabled.value else c.enabled)
                && row.config.retentionCount == (if u.retentionCount.Some? then u.retentionCount.value else c.retentionCount)
                && row.config.retentionDays == (if u.retentionDays.Some? then u.retentionDays.value else c.retentionDays)
                && row.state == (if u.state.Some? then u.state.value else was.state)
                && row.deleteAfter == was.deleteAfter && row.deletedAt == was.deletedAt
      ensures old(Shaped(row)) ==> Shaped(row) && failed != Some(Rejected)
    {
      if row.deletedAt.Some? {
        return Some(NotFound);
      }
      failed := Apply(WriteBack(row, row, u, true));
    }

    method MarkPendingDelete(grace: int, now: int) returns (failed: Option<Error>)
      modifies this
      ensures failed == if old(row).deletedAt.None? && (old(row).state.Active? || old(row).state.Suspended?)
                        then None else Some(NotFound)
      ensures failed.None? ==> row == old(row).(state := PendingDelete, deleteAfter := Some(now + EffectiveGrace(grace)))
      ensures failed.Some? ==> row == old(row)
    {
      failed := Apply(MarkedForDelete(row, grace, now));
    }

    method FinalizeDelete(now: int) returns (failed: Option<Error>)
      modifies this
      ensures failed.None? <==> old(row).state.PendingDelete? && old(row).deleteAfter.Some? && old(row).deleteAfter.value <= now
      ensures failed.None? ==> row == old(row).(state := Deleted, deletedAt := Some(now), deleteAfter := None)
      ensures failed.Some? ==> row == old(row)
    {
      failed := Apply(Finalized(row, now));
    }

    /** The scheduler's statement: only an enabled, active, live plan gets the new time, and nothing else. */
    method AdvanceNextRun(next: int) returns (moved: bool)
      modifies this
      ensures moved <==> old(row).config.enabled && old(row).state.Active? && old(row).deletedAt.None?
      ensures row == if moved then old(row).(config := old(row).config.(nextRunAt := Some(next))) else old(row)
    {
      moved := row.config.enabled && row.state.Active? && row.deletedAt.None?;
      row := RunAdvanced(row, next);
    }
  }

  // ------------------------------------------------------------- interleavings

  datatype Event =
    | Read(writer: nat)
    | Write(writer: nat, update: Update)
    | RequestDelete(grace: int, now: int)
    | Finalize(now: int)
    | AdvanceRun(next: int)

  /** A delete request that was granted: its instant and effective grace. */
  datatype Request = Request(at: int, grace: int)

  /** The row, the versions waiting writers have read, and the last granted delete request. */
  datatype System = System(row: Row, readers: map<nat, Row>, last: Option<Request>)

  function Kept(s: System, r: Result<Row>): System {
    if r.Ok? then s.(row := r.value) else s
  }

  function Step(s: System, e: Event, enforced: bool): System {
    match e
    case Read(w) => if s.row.deletedAt.None? then s.(readers := s.readers[w := s.row]) else s
    case Write(w, u) => // the version read is used once, whether or not the write goes through
      if w in s.readers then Kept(s.(readers := s.readers - {w}), WriteBack(s.row, s.readers[w], u, enforced)) else s
    case RequestDelete(g, now) =>
      var r := MarkedForDelete(s.row, g, now);
      if r.Ok? then System(r.value, s.readers, Some(Request(now, EffectiveGrace(g)))) else s
    case Finalize(now) => Kept(s, Finalized(s.row, now))
    case AdvanceRun(next) => s.(row := RunAdvanced(s.row, next))
  }

  function Run(s: System, events: seq<Event>, enforced: bool): System
    decreases |events|
  {
    if events == [] then s else Run(Step(s, events[0], enforced), events[1..], enforced)
  }

  /** A plan nobody has asked to delete yet. */
  predicate Fresh(s: System) {
    && (s.row.state.Active? || s.row.state.Suspended?) && s.row.deleteAfter.None? && s.row.deletedAt.None?
    && s.readers == map[] && s.last.None?
  }

  predicate GraceSpent(last: Option<Request>, at: int) {
    last.Some? && last.value.at + last.value.grace <= at
  }

  ghost predicate Inv(s: System, enforced: bool) {
    && (s.row.state == PendingDelete ==> s.row.deleteAfter.Some?)
    && (s.row.state == Deleted <==> s.row.deletedAt.Some?)
    && (s.row.deleteAfter.Some? ==> s.last.Some? && s.row.deleteAfter.value == s.last.value.at + s.last.value.grace)
    && (s.row.deletedAt.Some? ==> GraceSpent(s.last, s.row.deletedAt.value))
    && (enforced ==> Shaped(s.row))
    && forall w :: w in s.readers ==>
         && s.readers[w].state != Deleted
         && (s.readers[w].state == PendingDelete ==> s.row.deleteAfter.Some? || s.row.deletedAt.Some?)
  }

  /** A granted request and a later pass over the row: the plan is deleted at that instant if its grace
      is over, and otherwise waits for its deadline. */
  lemma DeletionGoesThrough(s: System, grace: int, asked: int, now: int, enforced: bool)
    requires (s.row.state == Active || s.row.state == Suspended) && s.row.deletedAt.None?
    ensures var end := Step(Step(s, RequestDelete(grace, asked), enforced), Finalize(now), enforced);
            var due := asked + EffectiveGrace(grace);
            && end.row == (if due <= now then s.row.(state := Deleted, deletedAt := Some(now), deleteAfter := None)
                           else s.row.(state := PendingDelete, deleteAfter := Some(due)))
            && end.readers == s.readers && end.last == Some(Request(asked, EffectiveGrace(grace)))
  {
  }

  /** The scheduler moves only an enabled, active, live plan, and only its next run. */
  lemma AdvanceMoves(s: System, next: int, enforced: bool)
    ensures var end, c := Step(s, AdvanceRun(next), enforced), s.row.config;
            && end == s.(row := end.row)
            && end.row == s.row.(config := end.row.config)
            && end.row.config == if c.enabled && s.row.state == Active && s.row.deletedAt.None?
                                 then c.(nextRunAt := Some(next)) else c
  {
  }

  lemma StepKeepsInv(s: System, e: Event, enforced: bool)
    requires Inv(s, enforced)
    ensures Inv(Step(s, e, enforced), enforced)
  {
  }

  lemma {:induction false} RunKeepsInv(s: System, events: seq<Event>, enforced: bool)
    requires Inv(s, enforced)
    ensures Inv(Run(s, events, enforced), enforced)
    decreases |events|
  {
    if events != [] {
      StepKeepsInv(s, events[0], enforced);
      RunKeepsInv(Step(s, events[0], enforced), events[1..], enforced);
    }
  }

  /** In every interleaving, with or without the constraints: a plan pending deletion knows when, and
      a tombstone never comes before the last granted request plus its grace. */
  lemma DeletionIsTimed(s: System, events: seq<Event>, enforced: bool)
    requires Fresh(s)
    ensures var r := Run(s, events, enforced);
            && (r.row.state == PendingDelete ==>
                  r.last.Some? && r.row.deleteAfter == Some(r.last.value.at + r.last.value.grace))
            && (r.row.state == Deleted ==> r.row.deletedAt.Some? && GraceSpent(r.last, r.row.deletedAt.value))
            && (enforced ==> Shaped(r.row))
  {
    RunKeepsInv(s, events, enforced);
  }

  /** A deleted row is frozen: no interleaving changes any column of it. */
  lemma {:induction false} DeletedIsAbsorbing(s: System, events: seq<Event>, enforced: bool)
    requires Inv(s, enforced) && s.row.state == Deleted
    ensures Run(s, events, enforced).row == s.row
    decreases |events|
  {
    if events != [] {
      StepKeepsInv(s, events[0], enforced);
      DeletedIsAbsorbing(Step(s, events[0], enforced), events[1..], enforced);
    }
  }

  /** With the constraints in force a granted delete request is final: the plan stays pending with
      the same deadline until it is tombstoned at or after that deadline. */
  lemma {:induction false} PendingIsFinal(s: System, events: seq<Event>)
    requires Inv(s, true) && s.row.state == PendingDelete
    ensures var r := Run(s, events, true).row;
            || (r.state == PendingDelete && r.deleteAfter == s.row.deleteAfter)
            || (r.state == Deleted && r.deletedAt.Some? && r.deletedAt.value >= s.row.deleteAfter.value)
    decreases |events|
  {
    if events != [] {
      var next := Step(s, events[0], true);
      StepKeepsInv(s, events[0], true);
      if next.row.state == Deleted {
        DeletedIsAbsorbing(next, events[1..], true);
      } else {
        PendingIsFinal(next, events[1..]);
      }
    }
  }

  /** A write-back takes a pending plan out of deletion exactly when the constraints are off and the
      writer's version says active or suspended. */
  lemma WriteBackUndoesDeletion(row: Row, read: Row, u: Update, enforced: bool)
    requires row.state == PendingDelete && row.deleteAfter.Some? && row.deletedAt.None? && Merge(read, u).Ok?
    requires read.state != Deleted
    ensures var r := WriteBack(row, read, u, enforced);
            (r.Ok? && r.value.state != PendingDelete) <==> !enforced && read.state != PendingDelete
  {
  }

  const NO_CHANGE := Update(None, None, None, None, None, None, None)

  lemma RunThree(s: System, a: Event, b: Event, c: Event, enforced: bool)
    ensures Run(s, [a, b, c], enforced) == Step(Step(Step(s, a, enforced), b, enforced), c, enforced)
  {
    var s1 := Step(s, a, enforced);
    var s2 := Step(s1, b, enforced);
    assert [a, b, c][1..] == [b, c] && [b, c][1..] == [c] && [c][1..] == [];
    assert Run(s2, [c], enforced) == Step(s2, c, enforced);
    assert Run(s1, [b, c], enforced) == Run(s2, [c], enforced);
    assert Run(s, [a, b, c], enforced) == Run(s1, [b, c], enforced);
  }

  /** An update that was read before the request revives the plan exactly without the constraints. */
  lemma StaleWriterRevives(s: System, grace: int, now: int, enforced: bool)
    requires Fresh(s) && s.row.state.Active?
    ensures Run(s, [Read(0), RequestDelete(grace, now), Write(0, NO_CHANGE)], enforced).row.state
            == if enforced then PendingDelete else Active
  {
    RunThree(s, Read(0), RequestDelete(grace, now), Write(0, NO_CHANGE), enforced);
    var s2 := Step(Step(s, Read(0), enforced), RequestDelete(grace, now), enforced);
    assert s2.readers[0] == s.row && s2.row.state == PendingDelete && s2.row.deleteAfter.Some?;
    assert Merge(s.row, NO_CHANGE) == Ok((s.row.config, Active));
  }

  /** The constraints do not protect the schedule: an update read before the scheduler's advance
      puts the old `next_run_at` back, so the plan is due again. */
  lemma StaleWriterRewinds(s: System, next: int, enforced: bool)
    requires Inv(s, enforced) && s.row.deletedAt.None?
    ensures Run(s, [Read(0), AdvanceRun(next), Write(0, NO_CHANGE)], enforced).row == s.row
  {
    RunThree(s, Read(0), AdvanceRun(next), Write(0, NO_CHANGE), enforced);
  }

  // ------------------------------------------------------------- the schedule under stale writers

  /** The time is set and no earlier than `key`. */
  predicate NoEarlier(next: Option<int>, key: int) {
    next.Some? && next.value >= key
  }

  /** A write-back that goes through leaves the schedule no earlier than `key` exactly when the update
      gives a time that is no earlier, or gives none and the version the writer read held one. */
  lemma WriteBackKeepsSchedule(row: Row, read: Row, u: Update, enforced: bool, key: int)
    requires WriteBack(row, read, u, enforced).Ok?
    ensures NoEarlier(WriteBack(row, read, u, enforced).value.config.nextRunAt, key)
            <==> NoEarlier(u.nextRunAt, key) || (u.nextRunAt.None? && NoEarlier(read.config.nextRunAt, key))
  {
  }

  /** The event itself asks for no time before `key`. */
  predicate Forward(e: Event, key: int) {
    && (e.Write? && e.update.nextRunAt.Some? ==> e.update.nextRunAt.value >= key)
    && (e.AdvanceRun? ==> e.next >= key)
  }

  /** A waiting writer whose version is behind, and whose write-back can go through. */
  predicate Rewinder(s: System, w: nat, key: int, enforced: bool) {
    && w in s.readers && !NoEarlier(s.readers[w].config.nextRunAt, key)
    && (enforced && s.row.state == PendingDelete ==> s.readers[w].state == PendingDelete)
  }

  /** The plan is tombstoned, or its schedule has reached `key` and no waiting writer can take it back. */
  ghost predicate ScheduleSafe(s: System, key: int, enforced: bool) {
    && NoEarlier(s.row.config.nextRunAt, key)
    && (s.row.state == Deleted || forall w :: !Rewinder(s, w, key, enforced))
  }

  lemma WriteKeepsSchedule(s: System, w: nat, u: Update, key: int, enforced: bool)
    requires Inv(s, enforced) && ScheduleSafe(s, key, enforced) && Forward(Write(w, u), key)
    ensures ScheduleSafe(Step(s, Write(w, u), enforced), key, enforced)
  {
    if w in s.readers && WriteBack(s.row, s.readers[w], u, enforced).Ok? {
      assert !Rewinder(s, w, key, enforced);
      WriteBackKeepsSchedule(s.row, s.readers[w], u, enforced, key);
    }
    var next := Step(s, Write(w, u), enforced);
    if next.row.state != Deleted {
      forall v
        ensures !Rewinder(next, v, key, enforced)
      {
        assert !Rewinder(s, v, key, enforced);
      }
    }
  }

  lemma StepKeepsSchedule(s: System, e: Event, key: int, enforced: bool)
    requires Inv(s, enforced) && ScheduleSafe(s, key, enforced) && Forward(e, key)
    ensures ScheduleSafe(Step(s, e, enforced), key, enforced)
  {
    if e.Write? {
      WriteKeepsSchedule(s, e.writer, e.update, key, enforced);
    } else {
      var next := Step(s, e, enforced);
      if next.row.state != Deleted {
        forall v
          ensures !Rewinder(next, v, key, enforced)
        {
          assert !Rewinder(s, v, key, enforced);
        }
      }
    }
  }

  lemma {:induction false} RunKeepsSchedule(s: System, events: seq<Event>, key: int, enforced: bool)
    requires Inv(s, enforced) && ScheduleSafe(s, key, enforced)
    requires forall i :: 0 <= i < |events| ==> Forward(events[i], key)
    ensures NoEarlier(Run(s, events, enforced).row.config.nextRunAt, key)
    decreases |events|
  {
    if events != [] {
      assert Forward(events[0], key);
      StepKeepsInv(s, events[0], enforced);
      StepKeepsSchedule(s, events[0], key, enforced);
      RunKeepsSchedule(Step(s, events[0], enforced), events[1..], key, enforced);
    }
  }

  ghost predicate AllForward(events: seq<Event>, key: int) {
    forall i :: 0 <= i < |events| ==> Forward(events[i], key)
  }

  /** A schedule that has reached `key` is never taken back, in any history in which nobody asks for an
      earlier time, exactly when the plan is deleted or no waiting writer holds an earlier version it
      could still write. */
  lemma ScheduleKeptExactly(s: System, key: int, enforced: bool)
    requires Inv(s, enforced) && NoEarlier(s.row.config.nextRunAt, key)
    ensures (forall events :: AllForward(events, key) ==> NoEarlier(Run(s, events, enforced).row.config.nextRunAt, key))
            <==> s.row.state == Deleted || forall w :: !Rewinder(s, w, key, enforced)
  {
    if s.row.state == Deleted || forall w :: !Rewinder(s, w, key, enforced) {
      forall events | AllForward(events, key)
        ensures NoEarlier(Run(s, events, enforced).row.config.nextRunAt, key)
      {
        RunKeepsSchedule(s, events, key, enforced);
      }
    } else {
      var w :| Rewinder(s, w, key, enforced);
      var e := Write(w, NO_CHANGE);
      assert WriteBack(s.row, s.readers[w], NO_CHANGE, enforced).Ok?;
      assert [e][1..] == [] && Run(Step(s, e, enforced), [], enforced) == Step(s, e, enforced);
      assert Run(s, [e], enforced) == Step(s, e, enforced);
      assert AllForward([e], key);
    }
  }

  /** A writer waits at most once: having written, it takes nothing back. */
  lemma WriterWritesOnce(s: System, w: nat, u: Update, again: Update, enforced: bool)
    ensures var next := Step(s, Write(w, u), enforced);
            && w !in next.readers && Step(next, Write(w, again), enforced) == next
            && forall key :: !Rewinder(next, w, key, enforced)
  {
  }
}

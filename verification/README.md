# A verified model of the Jawaker panel's schedules, backups, deployments and certificates

This project models the parts of the panel where several processes change shared state step by step,
and proves what holds over every input, every history and every interleaving:

- **Shared** (`Collections`, `RunStates`, `Durations`): facts about finite sets and maps, the states of a
  run, lengths of time.
- **Cron engine** (`Text`, `Calendar`, `Cron`, `CronHorizon`, `CronForms`, `CronRefusals`, `CronDates`): the
  five-field parser that fills slot tables, the minute-by-minute search, its two-year horizon, what an
  expression means, what is refused, and the answers on the wall clock.
- **Backup scheduler and store** (`Scheduler`, `Starvation`, `PlanLifecycle`, `RunCreation`, `Retention`, `Links`):
  passes over due plans, plan rows under stale writers, runs created by many controllers, retention,
  one-time download links.
- **Backup and database-delete workers** (`BackupRuns`, `BackupOutcomes`, `DatabaseDelete`): multi-step jobs
  that may be lost after any step and are delivered again from the top, and what each attempt comes to.
- **Deployments, releases and rollback** (`Deployments`, `DeploymentOutcomes`, `Releases`): a handler and a worker that write
  one record without looking at its state.
- **Certificate bindings** (`Certificates`): an append-only history while revocations and expiry sweeps
  interleave.

Store methods and loops are Dafny classes and methods, specified by functions on values. Interleavings
are runs of a step function over those same functions: each SQL statement or transaction is one atomic
step, and a worker or handler is a program counter. Check it with `dafny verify dfyconfig.toml`.

## Conventions

- Instants are integers in nanoseconds and calendar minutes are counted from 0001-01-01T00:00Z, both
  unbounded; 64-bit wrap-around is written out where the parser's counter can meet it.
- Clocks, generated ids, node replies, hash functions and the order in which a query breaks ties are
  parameters, so every theorem holds for all of them. A hash is any function that is never the empty string.
- The schema in `migrations/` is part of the model: unique indexes and CHECK constraints act as guards.
  `PlanLifecycle` takes a switch for the constraints and proves which facts need them.
- Theorems about histories start from any state that satisfies the stated invariant; the empty or
  freshly created state does.

## What the proofs found

- The parser indexes a slot table out of bounds for some accepted-looking input: a step so large that
  start plus step leaves 64 bits. `CronForms.NextRunPanicsExactly` says exactly when an expression does
  this, and `CronForms.HugeStepPanics` gives a family of such expressions, `1/9223372036854775807` in the
  minute field among them.
- The comment at `internal/backups/cron.go:28-29` says a failed search means the expression can never
  fire. That holds exactly when the expression does not pick Feb 29 (`CronHorizon.FailureMeansNever`);
  `CronForms.LeapDaySkipped` is the witness family.
- Writing `*` as `*/1` in the day-of-week field preserves matching exactly when day-of-month is `*` or
  covers every day the selected months can have, which is weaker than covering 1-31.
- A due plan need not ever be served. An expression that panics stops the process in every pass, since the
  goroutine has no recover and nothing validates the expression when it is stored; one such plan due no
  later can keep a plan waiting for good (`Starvation.HugeStepStarves`). Plans without an expression, or with
  one that is refused or picks only days no year has, keep their place in the queue. A due plan is served
  within some number of passes in every run if and only if fewer than fifty other plans due no later never
  move on and the expression of none of them panics (`Starvation.ServedExactly`).
- The check for an active run and the insert share a transaction but no lock. No history gives a plan
  two active runs if and only if any two callers of one plan with unused keys come with the same
  idempotency key (`RunCreation.OneActiveExactly`); manual triggers come without one.
- Enqueueing the job of a shared run twice is reported as an error (`internal/jobs/jobs.go:275-289`), and
  the second caller then marks the run failed. No history does this if and only if no two callers share an
  unused key and none has the key of another plan's active run (`RunCreation.SharedRunExactly`); two
  controllers in one minute do share one.
- The node removes the dump file when a dump fails (`internal/nodeagent/database.go:243-249`), and every
  attempt of a delete job uses the same file. A retry after the drop therefore destroys the only dump,
  and can never reach the tombstone, unlike the comment at
  `internal/controller/databases_worker.go:473-475` suggests. Recoverability holds exactly when no delete
  job may be attempted twice; the default is three attempts.
- A backup job that is attempted again after its run completed replaces the object at the target while
  the stored hash stays, and then cannot succeed. This takes an attempt that is left, as when the worker is
  lost between completing the run and closing the job, or an attempt already under way. The archive a
  completed record describes stays in every continuation if and only if no backup or delete job of the run
  has an attempt left, no attempt with the lease has yet to archive or erase and none is erasing, and, if
  an attempt can still upload, the file is that archive and nobody is archiving
  (`BackupRuns.IntactExactly`). A run whose job has succeeded is safe (`BackupRuns.SuccessLeavesSafe`).
- The handler's attach step can reopen a deployment the worker already finished, after which the app can
  never be deployed again (`Deployments.LateAttachJams` with `Deployments.JammedForever`).
- The cleaner deletes succeeded jobs (`internal/cleanup/cleanup.go:44-63`) and the foreign key then empties
  a deployment's job column. A job stays attached in every continuation if and only if it has not
  succeeded and no longer can (`Deployments.JobKeptExactly`). The statement also names a `cancelled` state,
  which the jobs table spells `canceled`, so canceled jobs are never pruned.
- A stale plan update can put an old `next_run_at` back. `PlanLifecycle.ScheduleKeptExactly` says exactly
  when the schedule is safe in every history; without the CHECK constraints a stale update would also undo
  a delete request (`PlanLifecycle.StaleWriterRevives`).
- A rollback picks its commit before its deployment is created. If another deployment finishes in between,
  it redeploys what was second newest then (`Releases.LateRollback` gives the exact condition).
- The error text of `CreateExpiringLink` speaks of one second at least; the code accepts any positive
  lifetime, and so does the model.

## Model

| member | source | states |
|---|---|---|
| Calendar.DateOfDayNumber | internal/backups/cron.go:27-30 | The calendar the search walks: turning a valid Gregorian date into a day count and back gives the date. |
| Calendar.CivilOfMinute | internal/backups/cron.go:50-55 | A calendar moment turned into a minute and back gives its date, weekday, hour and minute. |
| Calendar.MinuteOfCivil | internal/backups/cron.go:50-55 | Every minute has in-range calendar fields that determine it. |
| Calendar.NextYearInside | internal/backups/cron.go:27-30 | The whole calendar year after the start lies strictly inside the two-year window, leap days included. |
| CronDates.YearsClosedForm | internal/backups/cron.go:27-30 | The year-by-year day count equals 365 days a year plus every fourth year less the centuries not divisible by four hundred, for every year, before the first one too. |
| CronDates.WeekdaysFollow | internal/backups/cron.go:45-55 | January 1 of year 1 was a Monday and each day has the weekday after the one before, Sunday being 0. |
| CronDates.EpochWasThursday | internal/backups/cron.go:45-55 | January 1, 1970 has day number 719162 and is a Thursday. |
| CronDates.LeapDays | internal/backups/cron.go:28-31 | A year has a Feb 29 by the Gregorian rule: 2000 and 2024 do, 1900, 2026 and 2100 do not. |
| CronDates.TwoYearsOn | internal/backups/cron.go:30 | The window ends at the same month, day and time two years on, or on Mar 1 when it starts on Feb 29. |
| CronDates.FirstMinuteIsNext | internal/backups/cron.go:26-27 | The search starts at the least whole minute strictly after the instant. |
| Cron.AcceptedInRange | internal/backups/cron.go:110-143 | Every accepted item stays within the field's range with a positive step. |
| Cron.FillItem | internal/backups/cron.go:103-105 | The 64-bit counting loop sets exactly the slots of the values on the step grid, keeps earlier slots, and stays in bounds if and only if start plus step does not leave 64 bits. |
| Cron.Fill | internal/backups/cron.go:97-108 | After a field is filled, a slot is set if and only if it was set before or some comma item selects its value; the first bad item decides the error. |
| Cron.ParseCron | internal/backups/cron.go:68-93 | The five tables hold exactly the values the text fields denote, or the first failing field is reported. |
| Cron.MatchMeansFires | internal/backups/cron.go:50-66 | The slot test equals the schedule's meaning, with the either-day rule when both day fields are restricted. |
| Cron.Search | internal/backups/cron.go:31-36 | The scan ends and finds the least firing minute of its range, or shows that no minute of it fires. |
| Cron.NextRun | internal/backups/cron.go:21-38 | Returns m exactly for the least firing whole minute after the instant within the window, and fails on a parsed expression exactly when the window has none; the calendar it searches is tied to the wall clock by the `CronDates` rows below. |
| Cron.NextRunUnique | internal/backups/cron.go:21-38 | The specification leaves one answer only. |
| Cron.NextRunIsLater | internal/backups/cron.go:26-27 | An answer is a firing minute strictly after the given instant. |
| CronHorizon.ParsedWellFormed | internal/backups/cron.go:68-143 | Every accepted field selects at least one value and only values of its range; a star day field selects all. |
| CronHorizon.StarSelectsAll | internal/backups/cron.go:116-121 | A star, with or without a step of one, selects every value of the range. |
| CronHorizon.FiresNextYear | internal/backups/cron.go:28-36 | A parsed schedule that picks some ordinary day fires in the calendar year after the start, inside the window. |
| CronHorizon.HorizonExact | internal/backups/cron.go:21-66 | On a parsed expression the search fails if and only if day-of-week is a star, day-of-month is restricted, every picked (month, day) is missing or Feb 29, and no picked Feb 29 falls in the window. |
| CronHorizon.AnswersNextYear | internal/backups/cron.go:21-38 | Every other parsed expression is answered, no later than the end of the next calendar year. |
| CronHorizon.FailureMeansNever | internal/backups/cron.go:28-29 | A failed search means no later firing at all if and only if the schedule does not pick Feb 29. |
| CronHorizon.LeapDayEventually | internal/backups/cron.go:28-29 | A schedule that picks Feb 29 fires again after every instant. |
| CronForms.StarAsStep | internal/backups/cron.go:81-91 | Respelling a star as a step of one keeps parsing and every selection; only the flag of that day field is lost. |
| CronForms.StarStepOutsideDays | internal/backups/cron.go:50-91 | In minute, hour and month the respelling never changes the answer, from any instant. |
| CronForms.StarStepDayOfMonth | internal/backups/cron.go:50-91 | In day-of-month it preserves matching at all times if and only if day-of-week is a star or selects all seven days. |
| CronForms.StarStepDayOfWeek | internal/backups/cron.go:50-91 | In day-of-week it preserves matching at all times if and only if day-of-month is a star or covers every day the selected months can have. |
| CronForms.FormParses | internal/backups/cron.go:110-143 | A star, number or span within the range, with an optional step, printed and parsed, gives the item it spells. |
| CronForms.DocumentedFormsParse | internal/backups/cron.go:10-20 | Printing any list expression of the documented forms and parsing it back accepts it and selects exactly the values it denotes. |
| CronForms.PanicExact | internal/backups/cron.go:97-108 | A field indexes out of bounds if and only if some item overflows 64 bits and every item before it is accepted and does not. |
| CronForms.AcceptedExact | internal/backups/cron.go:97-108 | A field is accepted without a panic if and only if every item is accepted and does not overflow. |
| CronForms.NextRunPanicsExactly | internal/backups/cron.go:21-25 | The whole search panics if and only if there are five fields and the first of all their items that is not accepted without overflow is one that overflows. |
| CronForms.HugeStepPanics | internal/backups/cron.go:103-105 | A minute field of one value and a step that leaves 64 bits panics from every instant, whatever the other four fields are. |
| CronForms.LeapDayMeaning | internal/backups/cron.go:68-93 | The text for midnight of Feb 29 parses to a schedule that picks only that day. |
| CronForms.LeapDaySkipped | internal/backups/cron.go:28-37 | Asked in any year that is one more than a multiple of four, that schedule is reported as never matching although it fires later. |
| CronForms.FormVerdict | internal/backups/cron.go:110-143 | Every star, number or span with an optional step whose numbers fit 64 bits: a step of zero is a bad step, and otherwise it is accepted as the item it spells exactly when its first value is not past its last and both are in the range. |
| CronRefusals.NamesRefused | internal/backups/cron.go:10-15 | A word is refused as a value, at the start of a range and as a step, each with its own error. |
| CronRefusals.FieldCountExactly | internal/backups/cron.go:68-72 | The search reports a wrong number of fields if and only if there are not five. |
| CronRefusals.FieldRefused | internal/backups/cron.go:73-93 | The first refused field decides the error, whatever the fields after it are. |
| CronRefusals.Rejected | internal/backups/cron_test.go:39-47 | Families of the test's rejected expressions: no fields, any minute past 59, any word for a minute and a step of zero, each refused with its own error at every instant, whatever the other fields are. |
| Cron.OnGridExactly | internal/backups/cron.go:103-105 | The values the loop visits are the start and those any whole number of steps after it. |
| CronDates.TimeAnswered | internal/backups/cron.go:21-38 | For any minute, hour and optional weekday, the expression "m h * * w" or "m h * * *" is answered at every instant, namely with the least later minute whose place in the week (from a Monday) or in the day is the one asked for. |
| CronDates.DateAnswered | internal/backups/cron.go:21-66 | On any date of the weekday asked for, such an expression asked less than a week (or a day) ahead is answered with that time on that date. |
| CronDates.MondayAtNine | internal/backups/cron_test.go:10-24 | "0 9 * * 1" asked at eight on Monday, January 5, 2026 is answered with nine o'clock that day, and asked at nine with nine o'clock a week later. |
| Text.FieldsAtSpace | internal/backups/cron.go:68-72 | A white-space character anywhere separates the fields before it from those after it. |
| Text.SplitAtSeparator | internal/backups/cron.go:97-98 | A comma anywhere cuts the items before it from those after it, empty ones included. |
| Text.AtoiDigits | internal/backups/cron.go:113-130 | Each further digit of a number counts ten times the digits before it. |
| Text.NoNumber | internal/backups/cron.go:113-130 | Text that holds anything but digits after an optional sign is no number. |
| Scheduler.Store.AdvanceNextRun | internal/backups/backups.go:763-772 | Only an enabled, active, live plan gets the new time; nothing else changes. |
| Scheduler.Store.Advance | internal/controller/backups_scheduler.go:192-205 | The plan moves to the cron answer, or keeps its time without an expression, on a failed search or on a panic, which alone stops the process. |
| Scheduler.Store.TickOnce | internal/controller/backups_scheduler.go:90-102 | A pass requests one run for, and advances, exactly the listed plans up to and including the first whose expression panics, in order; it survives if and only if there is none. |
| Scheduler.AdvancedIsLater | internal/controller/backups_scheduler.go:192-205 | A served plan whose expression answers moves strictly past the pass and changes nothing else. |
| Scheduler.OnlyDueServed | internal/backups/backups.go:741-761 | A pass lists only plans that are enabled, active, live and due, and changes no other row. |
| Scheduler.DueServed | internal/backups/backups.go:741-761 | Such a plan is left out of the list only when fifty plans due no later are in it. |
| Scheduler.ServedMoves | internal/controller/backups_scheduler.go:192-205 | A listed plan moves to the minute its expression is answered with, in nanoseconds, and keeps its whole row without an expression or an answer. |
| Scheduler.ReachIs | internal/controller/backups_scheduler.go:97-101 | A pass stops at the first plan of its list that stops it, or gets to all of them. |
| Scheduler.UnservedTick | internal/backups/backups.go:741-761 | A pass through a whole list without a due plan removes fifty minus the stuck plans from the others due no later than it. |
| Scheduler.PassesOver | internal/controller/backups_scheduler.go:90-102 | With no panic ahead of it, a pass that does not get to a due plan gets to all of a full list without it. |
| Scheduler.Draining | internal/controller/backups_scheduler.go:90-102 | While a plan waits with no panic ahead of it, the queue ahead drains at that rate over any number of passes. |
| Scheduler.StarvationBound | internal/controller/backups_scheduler.go:90-102 | With s < 50 plans that cannot advance and no panic ahead of it, a due plan with A other advanceable plans at or before it is served within A/(50-s)+1 passes. |
| Scheduler.StarvedForever | internal/backups/backups.go:741-761 | Fifty plans that never move on and are due strictly before a plan keep it waiting in every run, however ties are broken and whichever plans stop a pass. |
| Starvation.FewStuckServed | internal/controller/backups_scheduler.go:90-102 | If no other plan due no later panics and all but fewer than fifty of them always move on, a plan is served within a number of passes fixed at the start, whatever plans come later. |
| Starvation.StarvingRun | internal/backups/backups.go:741-761 | With plans due no later that never move on, fifty of them or one that stops each pass, there are runs of any length in which a plan is never served, ties included. |
| Starvation.ServedExactly | internal/controller/backups_scheduler.go:90-102 | A due plan is served within some number of passes in every run if and only if fewer than fifty other plans due no later never move on, and the expression of none of them panics. |
| Starvation.ServedWithoutPanics | internal/backups/backups.go:741-761 | Where no other plan due no later panics, the number of those that never move on decides. |
| Starvation.HugeStepStarves | internal/backups/cron.go:103-105 | One other plan due no later with a step that leaves 64 bits keeps a plan from being served within any number of passes. |
| Starvation.StuckExactly | internal/controller/backups_scheduler.go:192-201 | A plan never moves on if and only if its expression is missing, refused, panics, or picks only days no year has. |
| Starvation.SteadyExactly | internal/backups/cron.go:21-38 | A plan either always or never moves on, unless its expression picks Feb 29 and no ordinary day. |
| Starvation.AnswersExactly | internal/backups/cron.go:21-38 | An accepted expression answers at every instant if and only if it picks an ordinary day, and at none if and only if it picks only days no year has. |
| Scheduler.KeysGrow | internal/controller/backups_scheduler.go:192-205 | Without edits a plan's next run time never moves back. |
| Scheduler.FireBetween | internal/controller/backups_scheduler.go:97-101 | Between two passes that serve a plan its expression had a matching minute. |
| Scheduler.ScheduleRate | internal/controller/backups_scheduler.go:97-113 | A plan served at k passes had at least k-1 distinct matching minutes after the first and up to the last; missed minutes collapse into one run. |
| PlanLifecycle.PlanRow.UpdatePlan | internal/backups/backups.go:380-463 | Uninterrupted: says which error every update gets (a tombstoned plan, a blank name, a count or age below one, a state that cannot be set, a plan being deleted, the constraints), and otherwise gives each of the seven columns the given value, or its own where none is given, and leaves the delete columns; a row that satisfies the constraints is never refused by them. |
| PlanLifecycle.PlanRow.MarkPendingDelete | internal/backups/backups.go:468-501 | Succeeds exactly on active or suspended live plans and sets the deadline from the clamped grace; otherwise the plan is not found and nothing changes. |
| PlanLifecycle.PlanRow.FinalizeDelete | internal/backups/backups.go:503-515 | Tombstones exactly a pending plan whose deadline has come and otherwise changes nothing. |
| PlanLifecycle.PlanRow.AdvanceNextRun | internal/backups/backups.go:763-772 | Gives exactly an enabled, active, live plan its new time and changes nothing else. |
| PlanLifecycle.GraceInNanoseconds | internal/backups/backups.go:90-91 | No grace, or a negative one, means seven days; ninety days is the most; anything between is kept. |
| PlanLifecycle.WriteBackColumns | internal/backups/backups.go:428-439 | Every column a write-back leaves is the update's or the one its writer read; the delete columns are those of the row at the write. |
| PlanLifecycle.DeletionGoesThrough | internal/backups/backups.go:468-515 | A granted request followed by a pass deletes the plan at the instant of the pass if its grace is over by then, and otherwise leaves it pending with its deadline. |
| PlanLifecycle.RunKeepsInv | internal/backups/backups.go:380-515 | The lifecycle invariant survives every interleaving with any number of stale writers, with or without the constraints. |
| PlanLifecycle.DeletionIsTimed | internal/backups/backups.go:468-515 | In every history a plan pending deletion has the deadline of the last granted request, and a tombstone never comes before it. |
| PlanLifecycle.DeletedIsAbsorbing | internal/backups/backups.go:428-439 | No interleaving changes any column of a deleted plan. |
| PlanLifecycle.PendingIsFinal | migrations/0018_backup_plans.sql:49-54 | With the constraints, a granted request stays with its deadline until the tombstone. |
| PlanLifecycle.WriteBackUndoesDeletion | internal/backups/backups.go:419-439 | A write-back takes a pending plan out of deletion if and only if the constraints are off and the writer read it as not pending. |
| PlanLifecycle.StaleWriterRevives | internal/backups/backups.go:380-439 | Read, delete request, write-back: the plan is active again without the constraints and stays pending with them. |
| PlanLifecycle.StaleWriterRewinds | internal/backups/backups.go:380-439 | Read, scheduler advance, write-back restores the row exactly, next run time included. |
| PlanLifecycle.WriteBackKeepsSchedule | internal/backups/backups.go:397-439 | A write-back leaves the next run no earlier than a bound if and only if the update gives such a time, or gives none and the version read held one. |
| PlanLifecycle.ScheduleKeptExactly | internal/backups/backups.go:380-439 | A next run that has reached a bound stays there in every history in which nobody asks for an earlier time, if and only if the plan is deleted or no writer that has read and not yet written holds an earlier version it could still write. |
| PlanLifecycle.WriterWritesOnce | internal/backups/backups.go:380-386 | A version read is written back at most once; after that its writer takes nothing back. |
| RunCreation.ScheduledKeyInjective | internal/controller/backups_scheduler.go:111-113 | The scheduled key determines plan and minute while years have four digits. |
| RunCreation.StampOfMoment | internal/controller/backups_scheduler.go:113 | The stamp of a calendar moment is its year, month, day, hour and minute in two digits each. |
| RunCreation.StampSpelling | internal/controller/backups_scheduler.go:113 | Seven minutes past nine on January 5, 2026 is stamped 202601050907. |
| RunCreation.RunTable.CreateRun | internal/backups/backups.go:530-584 | Refused exactly while the plan, if one is given, has an active run; otherwise one queued row is added if and only if its key is unused, else the row holding the key is returned; both uniqueness facts are kept. |
| RunCreation.RunTable.MarkRunFailed | internal/backups/backups.go:697-709 | Fails exactly a queued or running run and touches no other row. |
| RunCreation.CallerInserts | internal/backups/backups.go:530-584 | A caller alone whose plan has no active run and whose key is unused queues one run under that plan and key and holds it, split or in one step. |
| RunCreation.CallerRefused | internal/backups/backups.go:541-553 | A caller whose plan has an active run gives up and changes nothing. |
| RunCreation.RunFinishes | internal/backups/backups.go:650-709 | A queued run that is started and finished is complete, or failed, and no other row changes. |
| RunCreation.KeysStayUnique | migrations/0018_backup_plans.sql:93-94 | Keys stay unique under every interleaving. |
| RunCreation.OneRunPerMinute | internal/controller/backups_scheduler.go:104-125 | Two scheduled runs of any history are the same row if and only if plan and minute agree. |
| RunCreation.InitiallySerial | internal/controller/backups.go:307-314 | Manual triggers without key and controllers with scheduled keys start in the serial invariant. |
| RunCreation.SerialKeepsInv | internal/backups/backups.go:530-584 | With check and insert as one step the serial invariant survives every history. |
| RunCreation.SerialIsSafe | internal/backups/backups.go:530-584 | The version with a lock: every history has at most one queued or running run per plan, and a caller that was handed an existing run never fails it, whatever the keys. |
| RunCreation.OwnRun | internal/backups/backups.go:530-584 | In every history each new run was inserted by a caller of its plan and key after the earlier runs of its plan had finished, which keeps one new run per plan under one key per plan, and finished runs with those who were handed one under distinct keys. |
| RunCreation.OneActiveExactly | internal/backups/backups.go:541-570 | For the code's separate check and insert, whatever runs exist before: no history gives a plan two active runs if and only if any two callers of one plan with unused keys come with the same key. |
| RunCreation.SharedRunExactly | internal/controller/backups_scheduler.go:127-145 | No history lets a caller fail a run it was handed if and only if no two callers share an unused key and none has the key of another plan's active run. |
| RunCreation.DuplicateFailsExactly | internal/jobs/jobs.go:275-289 | Where keys name plans, an enqueue that would have gone through fails a handed-out run in some history if and only if two callers share an unused key. |
| RunCreation.SplitBreaksOneActive | internal/backups/backups.go:541-570 | Any two callers of one plan with unused keys that differ can both get an active run, once earlier runs have finished. |
| RunCreation.SplitFailsSharedRun | internal/controller/backups_scheduler.go:127-145 | Any two callers with a common unused key can share a run whose job is queued while the second marks the run failed. |
| RunCreation.ForeignKeyFails | internal/backups/backups.go:571-574 | A caller with the key of another plan's active run can be handed it and fail it. |
| Retention.RunTable.OrderNewestFirst | internal/backups/backups.go:781-786 | The query's order lists exactly the given runs, newest first, ties in any order. |
| Retention.RunTable.ExpireOldRuns | internal/backups/backups.go:777-802 | Expires exactly what lies beyond the newest keepCount old live runs, returns it, and leaves at least min(keepCount, prior count) live runs. |
| Retention.RunTable.EnforceRetention | internal/controller/backups_scheduler.go:153-190 | The pass with the plan's count and age leaves at most count live runs older than the age limit, keeps the floor, and expires only completed runs of the plan created more than that many days ago, or before an hour from now when there is no age limit. |
| Retention.CutoffInNanoseconds | internal/controller/backups_scheduler.go:154-160 | The age limit counts days of 86400 seconds back from now; without one the cutoff is an hour ahead. |
| Retention.NewRunIsLive | internal/backups/backups.go:777-788 | A new run can be restored from once it is complete and not before, and is old for exactly the cutoffs after its creation. |
| Retention.PassTakesOldest | internal/backups/backups.go:779-788 | Only completed runs of the plan before the cutoff are expired, and none is newer than an old run that stays. |
| Retention.PassLeaves | internal/backups/backups.go:779-788 | Exactly min(keepCount, old count) old runs stay, namely the front of the order, and at least min(keepCount, prior count) live runs remain. |
| Retention.PassFrame | internal/backups/backups.go:779-788 | Runs that are not old live runs of the plan are unchanged. |
| Retention.NewestSurvives | internal/backups/backups.go:779-788 | With a count of at least one, a newest live run stays live. |
| Retention.SecondPassIsEmpty | internal/backups/backups.go:777-802 | A second pass that keeps at least as many with no later cutoff expires nothing. |
| Retention.ReturnedAgain | internal/backups/backups.go:712-727 | In every history an id is returned a second time only if a verification rewrote its state in between. |
| Retention.MarkExactly | internal/backups/backups.go:712-727 | After any history a run is unexpired if and only if some event revived it and none expired it since, or it started so and never was expired. |
| Retention.ReturnedAgainExactly | internal/backups/backups.go:712-802 | After any history, some pass can return an id again if and only if some event revived the run and nothing has expired it since. |
| Retention.VerifyReturnsAgain | internal/backups/backups.go:712-727 | In any table, a verification of a run that a pass expired brings it back to a later pass. |
| Retention.RetentionFloor | internal/controller/backups_scheduler.go:153-190 | Over any history whose passes keep at least K, a plan never falls below min(K, what it had) live runs. |
| BackupRuns.KeyInjective | internal/controller/backups_worker.go:593-602 | Object keys determine plan and run. |
| BackupRuns.ManifestApart | internal/controller/backups_worker.go:593-602 | Manifest keys never meet archive keys and determine plan and run. |
| BackupRuns.RunRecord.MarkRunRunning | internal/backups/backups.go:650-673 | Moves exactly a queued run and keeps the record's history. |
| BackupRuns.RunRecord.MarkRunCompleted | internal/backups/backups.go:675-695 | Moves exactly a running run, writes the archive facts, and keeps the record's history. |
| BackupRuns.RunRecord.MarkRunFailed | internal/backups/backups.go:697-709 | Moves exactly a queued or running run and keeps the record's history. |
| BackupRuns.RecordOnlyGrows | internal/controller/backups_worker.go:121-276 | Under any crashes, redeliveries and interleavings a run's state only moves forward, a queued run completes only with a start time, and archive path, size, hash and completion time never change once it has ended. |
| BackupRuns.CompletedWasRunning | internal/backups/backups.go:650-695 | A run that was queued and is complete was running at some moment in between. |
| BackupRuns.CompletedFactsAgree | internal/controller/backups_worker.go:258-276 | A completed record has its run's archive path and the size and hash of one archive in every history; any other record holds no facts. |
| BackupRuns.CompletedWasMade | internal/controller/backups_worker.go:258-276 | In every history a completed record describes an archive the node made for that very run. |
| BackupRuns.VerifiedMeansRead | internal/controller/backups_worker.go:336-433 | In every history a verified mark is backed by bytes that were read and have the stored hash; the verdict itself is `BackupOutcomes.VerdictExactly` and `BackupOutcomes.VerdictOnRecord`. |
| BackupOutcomes.VerdictExactly | internal/controller/backups_worker.go:387-433 | Whatever happens around its two last steps: if a verification's mark is written, the run is verified if and only if the target could be read, had the object and its bytes have the hash the verification holds, and failed otherwise, from every earlier mark; only a good verdict goes on to report success, and nothing else of the record changes. |
| BackupOutcomes.VerdictOnRecord | internal/controller/backups_worker.go:353-433 | A whole verification of a run that has ended, its record loaded and its mark written, leaves it verified if and only if the object it read has the hash on the record, and failed otherwise, whatever happens around its steps; plan and hash stay. |
| BackupRuns.ObjectsApart | internal/controller/backups_worker.go:542-602 | Upload, verify and delete steps leave every other run's archive and manifest objects unchanged, and only upload and erase steps of the run touch its own. |
| BackupRuns.UploadThenComplete | internal/controller/backups_worker.go:216-276 | Uploading the archive and completing while the record is running leaves the described archive at the target, with the job about to close. |
| BackupRuns.SuccessLeavesSafe | internal/jobs/engine.go:406-410 | When that job closes successfully, nothing can break the archive unless another attempt can upload, redo or erase or another job of the run can be attempted. |
| BackupRuns.VerifyRoundTrip | internal/controller/backups_worker.go:336-433 | From such a state a verification marks the run verified whatever other jobs do between its steps, if nothing writes or erases that object. |
| BackupRuns.RedeliveryReplacesArchive | internal/controller/backups_worker.go:144-152 | A backup job of a completed run with an attempt left can replace the object by any archive while the record stays. |
| BackupRuns.DeletionErasesArchive | internal/controller/backups_worker.go:593-602 | A delete job with an attempt left can erase the archive object of its run while the record stays. |
| BackupRuns.IntactExactly | internal/controller/backups_worker.go:121-305 | The archive a completed record describes stays at the target in every continuation if and only if no backup or delete job of the run has an attempt left, no attempt with the lease has yet to archive or erase and none is erasing, and, if an attempt can still upload, the file is that archive and nobody is archiving. |
| BackupRuns.EffectStaysBehind | internal/jobs/engine.go:301-325 | Without the lease an attempt begins no further archive, upload or erase step. |
| BackupRuns.DiskApart | internal/controller/backups_worker.go:181-186 | Only the archive step of a run's own backup touches its archive file. |
| BackupRuns.VerifyAfterJobs | internal/controller/backups_worker.go:336-433 | Once no job of the run may break its archive, a verification whose own reads succeed marks it verified whatever happens between its steps. |
| BackupOutcomes.BackupSucceeds | internal/controller/backups_worker.go:121-305 | An attempt from its delivery to its report, every step answered: the record is complete with its times and the archive's path, size and hash, the file is the archive, the target holds it under the run's key (or a manifest if the controller cannot read the file), no other record changes and the job has no attempts left. |
| BackupOutcomes.FailureFailsRun | internal/controller/backups_worker.go:144-247 | A run that cannot be started, a plan that cannot be loaded, an archive the node does not report or an upload that fails: the next step fails exactly an active run and stops the attempt, with the target and the attempts left as they were. |
| BackupOutcomes.StepNotStarted | internal/jobs/engine.go:301-325 | An attempt without the lease, or whose upload step cannot be started, stops and leaves everything else, the run's record included. |
| BackupOutcomes.CompleteRefused | internal/controller/backups_worker.go:258-276 | Completing a record that is not running leaves it as it is and stops the attempt. |
| BackupOutcomes.DeleteErases | internal/controller/backups_worker.go:577-611 | A delete attempt removes exactly the run's archive and, on a best effort, its manifest; without a target both stay and it succeeds; a failed removal stops it. |
| BackupOutcomes.Spellings | internal/controller/backups_worker.go:181-215 | The file and the two object names of a run, spelled out. |
| DatabaseDelete.DeleteAttempt.Handle | internal/controller/databases_worker.go:383-481 | One attempt tombstones the record if and only if every step was answered, the tombstone at least took effect, the database was there and the pending deadline has come; it empties the database exactly when a dump of its contents was acknowledged and the drop took effect; and it leaves the dump file written, removed or alone as its own dump went. |
| DatabaseDelete.DeleteAttempt.Next | internal/controller/databases_worker.go:410-481 | The attempt goes on if and only if the step could be done and its reply came back; the dump, the drop and the tombstone do their own part exactly when they take effect, and nothing else changes. |
| DatabaseDelete.TombstoneMeansDropped | internal/controller/databases_worker.go:443-475 | In every history a tombstone implies a completed drop. |
| DatabaseDelete.RetryNeverTombstones | internal/controller/databases_worker.go:417-432 | Once the database is gone and no attempt is past its dump, no history tombstones the record. |
| DatabaseDelete.CancelHolds | internal/databases/databases.go:404-432 | A cancelled deletion stays cancelled: without another request no attempt tombstones the record, however far it has come. |
| DatabaseDelete.DeadlineHolds | internal/databases/databases.go:404-432 | A request fixes the deadline, and before it nothing but a cancellation touches the record, in every history. |
| DatabaseDelete.LostForGood | internal/controller/databases_worker.go:383-481 | A lost attempt never takes another step. |
| DatabaseDelete.DumpHoldsLatest | internal/controller/databases_worker.go:417-432 | A dump holds what the owner wrote last, and the attempt goes on to the drop. |
| DatabaseDelete.RecoverableWithoutCleanup | internal/controller/databases_worker.go:410-463 | If a failed dump left files alone, the database or a dump would exist after every history. |
| DatabaseDelete.DumpsAreGenuine | internal/controller/databases_worker.go:417-432 | Every dump file holds what the database held at some moment of the history. |
| DatabaseDelete.KeptForGood | internal/nodeagent/database.go:243-249 | A dump whose job can no longer reach its dump step, an attempt without the lease being unable to begin it, is never removed. |
| DatabaseDelete.DestroyAll | internal/nodeagent/database.go:243-249 | If every dump's job still can, retries alone remove them all. |
| DatabaseDelete.KeptExactly | internal/nodeagent/database.go:243-249 | After the drop, every continuation keeps a dump if and only if some dump's job can no longer reach its dump step. |
| DatabaseDelete.SecondAttemptDestroys | internal/jobs/jobs.go:111-112 | Two attempts of one job suffice to lose both the database and its dump. |
| DatabaseDelete.RecoverableExactly | internal/jobs/jobs.go:134-146 | From the start, every history keeps the database or a dump if and only if no delete job may be attempted twice. |
| Deployments.DeploymentTable.CreateDeployment | internal/apps/apps.go:692-732 | Inserts exactly when the app has no active deployment and the key is unused; both indexes are kept. |
| Deployments.DeploymentTable.UpdateDeploymentState | internal/apps/apps.go:789-815 | Writes any state over any other, refused exactly when it would make a second active deployment of the app; the job is replaced when given, the start time set once by running, the finish time once by an end state, and no other row changes. |
| Deployments.DeploymentTable.StartDeployment | internal/controller/apps.go:458-523 | Without interference the handler leaves a queued deployment with its job, or a failed one, or nothing, and touches no other row. |
| Deployments.RunKeepsInv | internal/controller/apps_worker.go:344-364 | In every handler and worker interleaving a succeeded deployment has a release row, keys are used once per app and at most one deployment per app is active. |
| Deployments.FactsAreWriteOnce | internal/apps/apps.go:800-809 | Rows stay, and app, key and set timestamps never change, in every interleaving. |
| Deployments.JobKeptExactly | internal/cleanup/cleanup.go:44-63 | An attached job stays attached in every continuation if and only if it has not succeeded and no longer can, its handler being past the enqueue. |
| Deployments.WebhookKeyInjective | internal/controller/apps.go:959-960 | The webhook key determines token and commit. |
| Deployments.OneDeploymentPerPush | internal/controller/apps.go:959-974 | Two webhook deployments of an app are the same row if and only if token and commit agree. |
| DeploymentOutcomes.OutcomeExactly | internal/controller/apps_worker.go:300-364 | Whatever the other parties do between a worker taking the node's answer and writing it: a release succeeds and has a release row, a plain failure is failed, and exactly a release the node rolled back is rolled back; the finish time is set once, and no other row changes. |
| DeploymentOutcomes.DeploymentSucceeds | internal/controller/apps_worker.go:64-364 | From the request to the finished job without interference: one succeeded row with its job and its times, a release row, and no attempts left. |
| DeploymentOutcomes.HandlerRefuses | internal/controller/apps.go:484-517 | A handler whose job cannot be enqueued leaves a failed row and no job. |
| DeploymentOutcomes.LostForGood | internal/controller/apps_worker.go:64-364 | A lost worker takes no further step and a lost handler writes nothing more. |
| Deployments.JammedForever | migrations/0016_apps_deployments.sql:131-134 | An active deployment nobody can end stays active in every continuation and blocks every later deployment of its app. |
| Deployments.EndsExactly | internal/controller/apps_worker.go:64-364 | An active deployment can still end if and only if an attempt is left, its handler has not enqueued or not yet marked it failed, or a worker is at it; which end it comes to is `DeploymentOutcomes.OutcomeExactly`. |
| Deployments.AttachReopens | internal/controller/apps.go:519-523 | A pending attach can make an ended deployment queued again unless another deployment of the app is jammed. |
| Deployments.AbsorbingExactly | internal/apps/apps.go:789-815 | An ended deployment keeps its state in every continuation if and only if no pending step can write another state and no pending attach can take effect. |
| Deployments.OrderlyEndIsFinal | internal/controller/apps.go:484-523 | If the attach precedes the delivery and jobs are delivered once, an ended deployment keeps its state in every continuation. |
| Deployments.EmptyIsOrderly | migrations/0016_apps_deployments.sql:99-134 | The empty table satisfies the invariants the histories start from. |
| Deployments.LateAttachJams | internal/controller/apps.go:519-523 | Otherwise a finished deployment can end up queued, with its finish time and release row, and nobody to end it; every invariant still holds. |
| Releases.ReleaseTable.CreateRelease | internal/apps/apps.go:820-827 | Appends a release that is not current. |
| Releases.ReleaseTable.MarkCurrentRelease | internal/apps/apps.go:831-857 | Makes exactly the named release current and no other, keeping every other column, or changes nothing if it does not exist. |
| Releases.ReleaseTable.ListReleases | internal/apps/apps.go:860-883 | Lists the newest releases in falling order of time; every release left out is older than every one listed. |
| Releases.ReleaseTable.RollbackTarget | internal/controller/apps.go:711-726 | Finds the newest of the last five releases that is not current, or none if all are. |
| Releases.ReleaseTable.RecordRelease | internal/controller/apps_worker.go:344-359 | Records the release and, if the mark succeeds, makes it the only current one. |
| Releases.TargetExactly | internal/controller/apps.go:717-726 | The scan finds the newest release if it is not current, else the one just before it; the window of five never matters. |
| Releases.RunKeepsCurrent | internal/controller/apps_worker.go:344-359 | In every history at most one release is current; while every mark succeeds it is the newest. |
| Releases.RollbackSwaps | internal/controller/apps.go:710-738 | One rollback swaps the last two commits. |
| Releases.RollbacksAlternate | internal/controller/apps.go:710-738 | k rollbacks in a row run the original commit for even k and the previous one for odd k; older releases are never reached. |
| Releases.TwoRollbacksRestore | internal/controller/apps_worker.go:357-359 | Two rollbacks restore the original commit if and only if the first one's mark succeeded or both commits were equal. |
| Releases.PlayAllKeeps | internal/controller/apps.go:710-738 | However requests, rollbacks and deployments interleave, at most one release is current, the newest while marks succeed, and a request keeps the commit it picked. |
| Releases.AtOnceIsRollback | internal/controller/apps.go:710-738 | A rollback with nothing in between equals the one-step rollback. |
| Releases.LateRollback | internal/controller/apps.go:710-738 | A rollback that finishes later redeploys the commit second newest when it was asked for; this is what a rollback at once would do if and only if that commit is also second newest at the end, always if no release was recorded in between, and after one exactly when the last two commits were equal. |
| Certificates.Store.Bind | internal/certs/certs.go:243-285 | Binds exactly a certificate that is live and neither expired, revoked nor superseded and not bound to the domain at that instant; it ends the current binding, appends the new one, which serves from then on, and a refusal changes nothing. |
| Certificates.Store.SafeRenewCandidate | internal/certs/worker.go:97-108 | A candidate that fails validation or binding leaves the history unchanged. |
| Certificates.Store.CurrentForDomain | internal/certs/certs.go:289-300 | Returns the live certificate of the one binding in force, or nothing. |
| Certificates.Store.MarkExpiring | internal/certs/certs.go:336-355 | Moves exactly a live active certificate. |
| Certificates.Store.Revoke | internal/certs/certs.go:360-380 | Revokes exactly a live certificate that was not revoked, with the time. |
| Certificates.Store.ListExpiring | internal/certs/certs.go:305-333 | Lists exactly the live certificates that are neither expired, revoked nor superseded and end within the window, thirty days where none is given, soonest first, without repeats. |
| Certificates.Store.Sweep | internal/certs/worker.go:64-92 | Marks exactly the certificates about to end as expiring, notifies about each of them once, soonest first, and leaves the others and the bindings alone. |
| Certificates.BindKeepsTimeline | internal/certs/certs.go:255-285 | A bind at a later or equal instant keeps the timeline: bindings of a domain follow one another and each ended one is followed by one that begins when it ends. |
| Certificates.ExactlyOneServes | migrations/0014_projects_sites.sql:369-373 | At every instant from the first bind on exactly one binding of the domain is in force, and none before. |
| Certificates.RunKeeps | internal/certs/certs.go:243-380 | Timeline and growth survive every interleaving of checks, commits, revocations and sweeps. |
| Certificates.TimelineHasNoGaps | internal/certs/certs.go:243-285 | After any history each instant from the first bind on is served by exactly one binding, and earlier rows are still there. |
| Certificates.PastIsFixed | internal/certs/certs.go:228-242 | Which binding served at a past instant never changes. |
| Certificates.RevokedIsFinal | internal/certs/certs.go:360-380 | A revoked certificate is unchanged by every history. |
| Certificates.SweepIsIdempotent | internal/certs/worker.go:64-92 | A second sweep with no later cutoff changes nothing. |
| Certificates.SweepKeepsUsable | internal/certs/certs.go:76-79 | A sweep changes no certificate's usability. |
| Certificates.BoundUsableExactly | internal/certs/certs.go:248-254 | A certificate that passed the check is still usable when the transaction runs if and only if it was not revoked in between. |
| Certificates.UsableStates | internal/certs/certs.go:76-79 | A certificate may serve while it is live and active or about to expire; an expired, revoked or superseded one never. |
| Certificates.WindowInNanoseconds | internal/certs/certs.go:51 | A window that is not positive means thirty days. |
| Certificates.CandidateServes | internal/certs/certs.go:243-285 | A candidate that is checked and committed serves from the commit on in place of the one before it; one that is not valid or not usable leaves no trace. |
| Links.LinkTable.CreateExpiringLink | internal/backups/backups.go:815-838 | Creates exactly requests with a run, a project, an unused token and a lifetime of more than nothing and at most a day; the link is open at once and shut a day later at the latest. |
| Links.LinkTable.RedeemExpiringLink | internal/backups/backups.go:845-863 | Succeeds exactly for an unrevoked, unused link of the token whose deadline is ahead, returns its run, and marks it used if and only if it is single-use; no other link changes. |
| Links.LinkTable.RevokeExpiringLink | internal/backups/backups.go:866-878 | Revokes exactly an unrevoked link of the project. |
| Links.RunKeeps | internal/backups/backups.go:815-878 | Over every history tokens stay unique, a link keeps its run, and a spent link stays spent. |
| Links.RedeemExactly | internal/backups/backups.go:845-878 | After any history a token is accepted if and only if its deadline is ahead and nothing spent the link: no revocation, and for a single-use link no earlier redemption in time. |
| Links.CreatedIsRedeemable | internal/backups/backups.go:815-863 | A link that has been created is accepted exactly within its lifetime and until something spends it, with the run and project it was made for. |
| Links.RedeemedTwice | internal/backups/backups.go:845-863 | Two redemptions of one token return the same run and the link is not single-use. |

## Left out

- Cron.Fill: its range bound (0 to 59) is that of the five calls in the parser, not of every possible caller.
- Cron.NextRun: instants and years are unbounded; the year limits of Go's time type are not modelled.
- Scheduler.StarvationBound: assumes no plan edits between passes and store calls that succeed; a failed store call leaves the plan due as before.
- Starvation.ServedExactly: has the same assumptions, takes a process that stopped to be started again, and asks that no other plan due no later picks Feb 29 and no ordinary day, whose place in the queue depends on the years of the passes.
- Scheduler.Store.TickOnce: run creation and retention inside the pass appear as a log of requests; their effects are modelled in `RunCreation` and `Retention`, and neither touches the columns the pass reads.
- BackupRuns.IntactExactly: jobs are those of the state it starts from; a job enqueued later, such as a retention delete, needs the theorem from the later state.
- RunCreation.OneRunPerMinute: assumes four-digit years, as the key's format does; keys are unique in the whole table rather than per project, which is the same for keys that name a plan.
- DatabaseDelete.DeleteAttempt.Handle: the audit row written after the dump is not modelled.
- Deployments.OrderlyEndIsFinal: the order and the single delivery are hypotheses; the code enforces neither.
- Releases.RollbacksAlternate: takes choosing the commit and recording the release as one step, as `Releases.LateRollback` does not; both assume that the node deploys the commit it is asked for and that a release is created strictly later than earlier ones of its app, so ties on the creation time do not arise.
- Releases of other apps: the table holds the rows of one app, since every statement names the app.
- Certificates.BindKeepsTimeline: the clock is monotone and bind transactions run one after another; concurrent transactions that the unique index aborts appear as failed commits.
- Retention with an age limit of zero: the branch is modelled, although the schema never stores it.
- Resolving environment variables and credentials in the deploy worker: one loop that copies values, and error exits that all end in the failed state.
- Input validation that only rejects blank or unknown values (ids, triggers, names) outside links, plan updates and schedules: easy one-branch facts.
- HTTP routing, JSON, audit, notification contents, permission checks, login and sessions: plumbing over other packages.
- The job engine's locks, priorities and backoff: represented only by attempts, loss of a worker and redelivery.
- Branches for a missing node dispatcher in the backup and database workers: a nil pointer in an interface does not compare equal to nil, so they are not reached.
- Restores, database provisioning, encryption, real hashing, DNS, mail, plugins, the command line and the web interface: not part of this model.

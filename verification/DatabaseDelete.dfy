/** The database delete job: dump, drop, tombstone, with crashes and retries.

The dump file is named after the job, so every attempt of a job writes the same file, and the node
removes that file when a dump fails (`cleanup`).  A dump of a missing database fails. */
module DatabaseDelete {
  import opened Text
  import opened Collections

  type Job = string
  type Bytes = string

  datatype Record = Live | PendingDelete(after: int) | Deleted

  /** The step a delivery takes next. */
  datatype Pc = Load | Dump | Drop | Tombstone

  datatype Delivery = Delivery(job: Job, pc: Pc)

  /** The database on the node, the dump files by job, the record, and the job engine's state: the
      deliveries at work, the attempts left of each job, and the delivery that holds the job's lease. */
  datatype System = System(
    data: Option<Bytes>, dumps: map<Job, Bytes>, record: Record,
    deliveries: map<nat, Delivery>, left: map<Job, nat>, holder: map<Job, nat>)

  /** How a call ends: a lost reply means the effect happened but the caller saw an error. */
  datatype Outcome = Success | Failed | Unreachable | ReplyLost

  predicate Takes(out: Outcome) {
    out.Success? || out.ReplyLost?
  }

  datatype Event =
    | Deliver(d: nat, job: Job)            // an attempt begins
    | Crash(d: nat)                        // the worker is lost; the attempt is not
    | Do(d: nat, out: Outcome, now: int)   // the delivery's next step
    | Change(bytes: Bytes)                 // the owner writes to the database
    | RequestDelete(after: int)
    | CancelDelete

  predicate Holds(s: System, d: nat) {
    d in s.deliveries && s.deliveries[d].job in s.holder && s.holder[s.deliveries[d].job] == d
  }

  function To(s: System, d: nat, pc: Pc): System
    requires d in s.deliveries
  {
    s.(deliveries := s.deliveries[d := s.deliveries[d].(pc := pc)])
  }

  /** The attempt is over; failed attempts are retried while any are left. */
  function End(s: System, d: nat): System {
    s.(deliveries := s.deliveries - {d})
  }

  /** Goes to the next step after a reply, and ends the attempt after an error. */
  function Continue(s: System, d: nat, out: Outcome, pc: Pc): System
    requires d in s.deliveries
  {
    if out.Success? then To(s, d, pc) else End(s, d)
  }

  function DumpStep(s: System, d: nat, out: Outcome, cleanup: bool): System
    requires d in s.deliveries
  {
    var job := s.deliveries[d].job;
    if out.Unreachable? then End(s, d)
    else if Takes(out) && s.data.Some? then Continue(s.(dumps := s.dumps[job := s.data.value]), d, out, Drop)
    else End(if cleanup then s.(dumps := s.dumps - {job}) else s, d)
  }

  function HandlerStep(s: System, d: nat, out: Outcome, now: int, cleanup: bool): System
    requires d in s.deliveries
  {
    match s.deliveries[d].pc
    case Load => // without the lease the first step cannot be started
      if out.Success? && !s.record.Deleted? && Holds(s, d) then To(s, d, Dump) else End(s, d)
    case Dump => DumpStep(s, d, out, cleanup)
    case Drop => Continue(if Takes(out) then s.(data := None) else s, d, out, Tombstone)
    case Tombstone =>
      End(if Takes(out) && s.record.PendingDelete? && s.record.after <= now then s.(record := Deleted) else s, d)
  }

  function Step(s: System, e: Event, cleanup: bool): System {
    match e
    case Deliver(d, job) =>
      if d !in s.deliveries && job in s.left && s.left[job] > 0
      then s.(deliveries := s.deliveries[d := Delivery(job, Load)], left := s.left[job := s.left[job] - 1],
              holder := s.holder[job := d])
      else s
    case Crash(d) => End(s, d)
    case Do(d, out, now) => if d in s.deliveries then HandlerStep(s, d, out, now, cleanup) else s
    case Change(b) => if s.data.Some? then s.(data := Some(b)) else s
    case RequestDelete(after) => if s.record.Live? then s.(record := PendingDelete(after)) else s
    case CancelDelete => if s.record.PendingDelete? then s.(record := Live) else s
  }

  function Run(s: System, events: seq<Event>, cleanup: bool): System
    decreases |events|
  {
    if events == [] then s else Run(Step(s, events[0], cleanup), events[1..], cleanup)
  }

  /** The handler as one uninterrupted attempt. */
  class DeleteAttempt {
    var sys: System

    constructor (sys: System)
      ensures this.sys == sys
    {
      this.sys := sys;
    }

    /** Runs the steps in order until one fails.  The record is tombstoned exactly when every step was
        answered in time and the deadline has come, the database goes exactly when a dump of its
        contents was acknowledged, and the job's dump file is written, removed or left alone. */
    method Handle(d: nat, job: Job, load: Outcome, dump: Outcome, drop: Outcome, tombstone: Outcome,
                  now: int, cleanup: bool) returns (tombstoned: bool)
      requires Holds(sys, d) && sys.deliveries[d] == Delivery(job, Load)
      modifies this
      ensures tombstoned <==>
                && load.Success? && dump.Success? && drop.Success? && Takes(tombstone)
                && !old(sys).record.Deleted? && old(sys).data.Some?
                && old(sys).record.PendingDelete? && old(sys).record.after <= now
      ensures sys.record == if tombstoned then Deleted else old(sys).record
      ensures var gone := load.Success? && !old(sys).record.Deleted? && dump.Success? && Takes(drop);
              sys.data == if gone then None else old(sys).data
      ensures var started := load.Success? && !old(sys).record.Deleted? && !dump.Unreachable?;
              var written := started && Takes(dump) && old(sys).data.Some?;
              sys.dumps == if written then old(sys).dumps[job := old(sys).data.value]
                           else if started && cleanup then old(sys).dumps - {job}
                           else old(sys).dumps
      ensures sys.deliveries == old(sys).deliveries - {d} && sys.left == old(sys).left && sys.holder == old(sys).holder
      ensures tombstoned || (old(sys).data.Some? && sys.data.None?) ==>
                job in sys.dumps && Some(sys.dumps[job]) == old(sys).data
    {
      var alreadyDeleted := sys.record.Deleted?;
      Next(d, load, now, cleanup);
      if d in sys.deliveries {
        Next(d, dump, now, cleanup);
        if d in sys.deliveries {
          Next(d, drop, now, cleanup);
          if d in sys.deliveries {
            Next(d, tombstone, now, cleanup);
          }
        }
      }
      tombstoned := sys.record.Deleted? && !alreadyDeleted;
    }

    /** One step.  The attempt goes on exactly after a reply to a step that could be done; a step that
        took effect did its own part whether or not the reply came back, and nothing else changed. */
    method Next(d: nat, out: Outcome, now: int, cleanup: bool)
      requires d in sys.deliveries
      modifies this
      ensures var was, pc := old(sys), old(sys).deliveries[d].pc;
              d in sys.deliveries <==>
                && out.Success? && !pc.Tombstone?
                && (pc.Load? ==> !was.record.Deleted? && Holds(was, d))
                && (pc.Dump? ==> was.data.Some?)
      ensures sys.deliveries == if d in sys.deliveries
                                then old(sys).deliveries[d := Delivery(old(sys).deliveries[d].job, After(old(sys).deliveries[d].pc))]
                                else old(sys).deliveries - {d}
      ensures sys.left == old(sys).left && sys.holder == old(sys).holder
      ensures sys.data == if old(sys).deliveries[d].pc.Drop? && Takes(out) then None else old(sys).data
      ensures var was, at := old(sys), old(sys).deliveries[d];
              sys.dumps == if at.pc.Dump? && Takes(out) && was.data.Some? then was.dumps[at.job := was.data.value]
                           else if at.pc.Dump? && !out.Unreachable? && cleanup then was.dumps - {at.job}
                           else was.dumps
      ensures var was, pc := old(sys), old(sys).deliveries[d].pc;
              sys.record == if pc.Tombstone? && Takes(out) && was.record.PendingDelete? && was.record.after <= now
                            then Deleted else was.record
    {
      sys := HandlerStep(sys, d, out, now, cleanup);
    }
  }

  function After(pc: Pc): Pc {
    match pc
    case Load => Dump
    case Dump => Drop
    case Drop => Tombstone
    case Tombstone => Tombstone
  }

  predicate Recoverable(s: System) {
    s.data.Some? || s.dumps != map[]
  }

  /** Nothing has begun: the database is there, no attempt runs, no dump exists. */
  predicate Fresh(s: System) {
    s.data.Some? && s.deliveries == map[] && s.dumps == map[] && !s.record.Deleted?
  }

  // ------------------------------------------------------------- what always holds

  ghost predicate DropInv(s: System) {
    && (s.record.Deleted? ==> s.data.None?)
    && forall d :: d in s.deliveries && s.deliveries[d].pc.Tombstone? ==> s.data.None?
  }

  lemma EndKeepsDropInv(s: System, d: nat)
    requires DropInv(s)
    ensures DropInv(End(s, d))
  {
  }

  lemma HandlerKeepsDropInv(s: System, d: nat, out: Outcome, now: int, cleanup: bool)
    requires DropInv(s) && d in s.deliveries
    ensures DropInv(HandlerStep(s, d, out, now, cleanup))
  {
    match s.deliveries[d].pc
    case Load => EndKeepsDropInv(s, d);
    case Dump => EndKeepsDropInv(s, d);
    case Drop =>
    case Tombstone =>
      assert s.data.None?;
      EndKeepsDropInv(s, d);
  }

  lemma StepKeepsDropInv(s: System, e: Event, cleanup: bool)
    requires DropInv(s)
    ensures DropInv(Step(s, e, cleanup))
  {
    match e
    case Do(d, out, now) =>
      if d in s.deliveries {
        HandlerKeepsDropInv(s, d, out, now, cleanup);
      }
    case Crash(d) => EndKeepsDropInv(s, d);
    case _ =>
  }

  /** A tombstone implies a completed drop, in every history. */
  lemma {:induction false} TombstoneMeansDropped(s: System, events: seq<Event>, cleanup: bool)
    requires DropInv(s)
    ensures DropInv(Run(s, events, cleanup))
    decreases |events|
  {
    if events != [] {
      StepKeepsDropInv(s, events[0], cleanup);
      TombstoneMeansDropped(Step(s, events[0], cleanup), events[1..], cleanup);
    }
  }

  /** Once the database is gone and no attempt is past its dump, the record is never tombstoned:
      every retry stops at the dump. */
  lemma {:induction false} RetryNeverTombstones(s: System, events: seq<Event>, cleanup: bool)
    requires s.data.None? && !s.record.Deleted?
    requires forall d :: d in s.deliveries ==> s.deliveries[d].pc.Load? || s.deliveries[d].pc.Dump?
    ensures !Run(s, events, cleanup).record.Deleted?
    decreases |events|
  {
    if events != [] {
      RetryNeverTombstones(Step(s, events[0], cleanup), events[1..], cleanup);
    }
  }

  /** A cancelled deletion stays cancelled: without another request no attempt, however far it has come,
      tombstones the record. */
  lemma {:induction false} CancelHolds(s: System, events: seq<Event>, cleanup: bool)
    requires s.record.Live? || s.record.PendingDelete?
    requires forall e :: e in events ==> !e.RequestDelete?
    ensures Run(Step(s, CancelDelete, cleanup), events, cleanup).record == Live
    decreases |events|
  {
    var live := Step(s, CancelDelete, cleanup);
    if events != [] {
      var next := Step(live, events[0], cleanup);
      assert events[0] in events && next.record == Live;
      CancelHolds(next, events[1..], cleanup);
    }
  }

  /** A request sets the deadline once, and before the deadline nothing but a cancellation touches it. */
  lemma {:induction false} DeadlineHolds(s: System, events: seq<Event>, after: int, cleanup: bool)
    requires s.record.Live? || s.record == PendingDelete(after)
    requires forall e :: e in events ==> !e.CancelDelete? && (e.Do? ==> e.now < after)
    ensures Run(Step(s, RequestDelete(after), cleanup), events, cleanup).record == PendingDelete(after)
    decreases |events|
  {
    var pending := Step(s, RequestDelete(after), cleanup);
    if events != [] {
      var next := Step(pending, events[0], cleanup);
      assert events[0] in events && next.record == PendingDelete(after);
      assert Step(next, RequestDelete(after), cleanup) == next;
      DeadlineHolds(next, events[1..], after, cleanup);
    }
  }

  /** A lost attempt never takes another step, whatever else happens. */
  lemma {:induction false} LostForGood(s: System, events: seq<Event>, d: nat, cleanup: bool)
    requires forall e :: e in events && e.Deliver? ==> e.d != d
    ensures d !in Run(Step(s, Crash(d), cleanup), events, cleanup).deliveries
    decreases |events|
  {
    var lost := Step(s, Crash(d), cleanup);
    if events != [] {
      var next := Step(lost, events[0], cleanup);
      assert events[0] in events && d !in next.deliveries;
      assert Step(next, Crash(d), cleanup) == next;
      LostForGood(next, events[1..], d, cleanup);
    }
  }

  /** A dump holds what the owner wrote last. */
  lemma DumpHoldsLatest(s: System, d: nat, bytes: Bytes, now: int, cleanup: bool)
    requires d in s.deliveries && s.deliveries[d].pc.Dump? && s.data.Some?
    ensures var end := Step(Step(s, Change(bytes), cleanup), Do(d, Success, now), cleanup);
            && end.dumps == s.dumps[s.deliveries[d].job := bytes] && end.data == Some(bytes)
            && d in end.deliveries && end.deliveries[d] == Delivery(s.deliveries[d].job, Drop)
  {
  }

  // ------------------------------------------------------------- recoverability

  ghost predicate DumpBeforeDrop(s: System) {
    Recoverable(s) && forall d :: d in s.deliveries && s.deliveries[d].pc.Drop? ==> s.deliveries[d].job in s.dumps
  }

  lemma EndKeepsDumps(s: System, d: nat)
    requires DumpBeforeDrop(s)
    ensures DumpBeforeDrop(End(s, d))
  {
  }

  lemma HandlerKeepsDumps(s: System, d: nat, out: Outcome, now: int)
    requires DumpBeforeDrop(s) && d in s.deliveries
    ensures DumpBeforeDrop(HandlerStep(s, d, out, now, false))
  {
    match s.deliveries[d].pc
    case Load => EndKeepsDumps(s, d);
    case Dump => EndKeepsDumps(s, d);
    case Drop => EndKeepsDumps(s, d);
    case Tombstone => EndKeepsDumps(s, d);
  }

  lemma StepKeepsDumps(s: System, e: Event)
    requires DumpBeforeDrop(s)
    ensures DumpBeforeDrop(Step(s, e, false))
  {
    match e
    case Do(d, out, now) =>
      if d in s.deliveries {
        HandlerKeepsDumps(s, d, out, now);
      }
    case Crash(d) => EndKeepsDumps(s, d);
    case _ =>
  }

  /** If a failed dump left the file alone, the database or a dump of it would always exist. */
  lemma {:induction false} RecoverableWithoutCleanup(s: System, events: seq<Event>)
    requires DumpBeforeDrop(s)
    ensures Recoverable(Run(s, events, false))
    decreases |events|
  {
    if events != [] {
      StepKeepsDumps(s, events[0]);
      RecoverableWithoutCleanup(Step(s, events[0], false), events[1..]);
    }
  }

  /** Some delivery or attempt of the job can still reach a dump step. */
  ghost predicate CanDump(s: System, job: Job) {
    || (exists d :: d in s.deliveries && s.deliveries[d] == Delivery(job, Dump))
    || (!s.record.Deleted? &&
        ((exists d :: Holds(s, d) && s.deliveries[d] == Delivery(job, Load)) || (job in s.left && s.left[job] > 0)))
  }

  /** The step starts no dump of the job: its deliveries are as before, gone, or past their dump. */
  ghost predicate NoNewDump(s: System, r: System, job: Job) {
    && (s.record.Deleted? ==> r.record.Deleted?)
    && (forall d :: d in r.deliveries ==>
          (d in s.deliveries && r.deliveries[d] == s.deliveries[d] && (Holds(r, d) ==> Holds(s, d)))
          || r.deliveries[d].job != job || r.deliveries[d].pc.Drop? || r.deliveries[d].pc.Tombstone?)
    && (job in r.left && r.left[job] > 0 ==> job in s.left && s.left[job] > 0)
  }

  lemma NoNewDumpKeeps(s: System, r: System, job: Job)
    requires !CanDump(s, job) && NoNewDump(s, r, job)
    ensures !CanDump(r, job)
  {
  }

  /** `t` is `s` but for the database, the dumps and the record. */
  predicate SameEngine(s: System, t: System) {
    t.deliveries == s.deliveries && t.left == s.left && t.holder == s.holder && (s.record.Deleted? ==> t.record.Deleted?)
  }

  lemma EndDumpsNothing(s: System, t: System, d: nat, job: Job)
    requires SameEngine(s, t)
    ensures NoNewDump(s, End(t, d), job)
  {
  }

  lemma MoveDumpsNothing(s: System, t: System, d: nat, pc: Pc, job: Job)
    requires SameEngine(s, t) && d in s.deliveries && (s.deliveries[d].job != job || pc.Drop? || pc.Tombstone?)
    ensures NoNewDump(s, To(t, d, pc), job)
  {
  }

  lemma LoadDumpsNothing(s: System, d: nat, out: Outcome, job: Job)
    requires !CanDump(s, job) && d in s.deliveries && s.deliveries[d].pc.Load?
    ensures NoNewDump(s, HandlerStep(s, d, out, 0, true), job)
  {
    EndDumpsNothing(s, s, d, job);
    if !s.record.Deleted? && Holds(s, d) {
      assert s.deliveries[d].job != job;
      MoveDumpsNothing(s, s, d, Dump, job);
    }
  }

  lemma DumpDumpsNothing(s: System, d: nat, out: Outcome, job: Job)
    requires !CanDump(s, job) && job in s.dumps && d in s.deliveries && s.deliveries[d].pc.Dump?
    ensures var r := DumpStep(s, d, out, true); NoNewDump(s, r, job) && job in r.dumps
  {
    var other := s.deliveries[d].job;
    assert other != job;
    if !out.Unreachable? && Takes(out) && s.data.Some? {
      var t := s.(dumps := s.dumps[other := s.data.value]);
      EndDumpsNothing(s, t, d, job);
      MoveDumpsNothing(s, t, d, Drop, job);
    } else {
      EndDumpsNothing(s, s, d, job);
      EndDumpsNothing(s, s.(dumps := s.dumps - {other}), d, job);
    }
  }

  lemma HandlerDumpsNothing(s: System, d: nat, out: Outcome, now: int, job: Job)
    requires !CanDump(s, job) && job in s.dumps && d in s.deliveries
    ensures var r := HandlerStep(s, d, out, now, true); NoNewDump(s, r, job) && job in r.dumps
  {
    match s.deliveries[d].pc
    case Load => LoadDumpsNothing(s, d, out, job);
    case Dump => DumpDumpsNothing(s, d, out, job);
    case Drop =>
      var t := if Takes(out) then s.(data := None) else s;
      EndDumpsNothing(s, t, d, job);
      MoveDumpsNothing(s, t, d, Tombstone, job);
    case Tombstone =>
      EndDumpsNothing(s, s, d, job);
      EndDumpsNothing(s, s.(record := Deleted), d, job);
  }

  lemma CannotDumpStep(s: System, e: Event, job: Job)
    requires !CanDump(s, job) && job in s.dumps
    ensures !CanDump(Step(s, e, true), job) && job in Step(s, e, true).dumps
  {
    match e
    case Do(d, out, now) =>
      if d in s.deliveries {
        HandlerDumpsNothing(s, d, out, now, job);
        NoNewDumpKeeps(s, HandlerStep(s, d, out, now, true), job);
      }
    case Deliver(d, j) =>
    case Crash(d) => NoNewDumpKeeps(s, End(s, d), job);
    case _ =>
  }

  /** A dump whose job can never dump again is kept for good. */
  lemma {:induction false} KeptForGood(s: System, events: seq<Event>, job: Job)
    requires !CanDump(s, job) && job in s.dumps
    ensures job in Run(s, events, true).dumps
    decreases |events|
  {
    if events != [] {
      CannotDumpStep(s, events[0], job);
      KeptForGood(Step(s, events[0], true), events[1..], job);
    }
  }

  lemma RunCons(s: System, e: Event, rest: seq<Event>, cleanup: bool)
    ensures Run(s, [e] + rest, cleanup) == Run(Step(s, e, cleanup), rest, cleanup)
  {
    assert ([e] + rest)[1..] == rest;
  }

  lemma {:induction false} RunAppend(s: System, a: seq<Event>, b: seq<Event>, cleanup: bool)
    ensures Run(s, a + b, cleanup) == Run(Run(s, a, cleanup), b, cleanup)
    decreases |a|
  {
    if a == [] {
      assert a + b == b;
    } else {
      assert (a + b)[1..] == a[1..] + b;
      RunAppend(Step(s, a[0], cleanup), a[1..], b, cleanup);
    }
  }

  /** Every dump file holds what the database held at some moment of the history. */
  lemma {:induction false} DumpsAreGenuine(s: System, events: seq<Event>, cleanup: bool, job: Job)
    requires job in Run(s, events, cleanup).dumps
    ensures var bytes := Run(s, events, cleanup).dumps[job];
            || (job in s.dumps && s.dumps[job] == bytes)
            || (exists i :: 0 <= i <= |events| && Run(s, events[..i], cleanup).data == Some(bytes))
    decreases |events|
  {
    if events != [] {
      var next, rest := Step(s, events[0], cleanup), events[1..];
      var bytes := Run(s, events, cleanup).dumps[job];
      DumpsAreGenuine(next, rest, cleanup, job);
      if i :| 0 <= i <= |rest| && Run(next, rest[..i], cleanup).data == Some(bytes) {
        RunCons(s, events[0], rest[..i], cleanup);
        assert events[..i + 1] == [events[0]] + rest[..i];
        assert Run(s, events[..i + 1], cleanup).data == Some(bytes);
      } else if !(job in s.dumps && s.dumps[job] == bytes) {
        DumpWritesData(s, events[0], cleanup, job);
        assert Run(s, events[..0], cleanup).data == Some(bytes);
      }
    }
  }

  lemma DumpWritesData(s: System, e: Event, cleanup: bool, job: Job)
    requires var next := Step(s, e, cleanup); job in next.dumps && !(job in s.dumps && s.dumps[job] == next.dumps[job])
    ensures s.data == Some(Step(s, e, cleanup).dumps[job])
  {
    assert e.Do? && e.d in s.deliveries && s.deliveries[e.d].pc.Dump?;
  }

  // ------------------------------------------------------------- with the clean-up, after the drop

  /** `r` is `s` after steps of one job's deliveries only, none of which touched the database. */
  ghost predicate OnlyJob(s: System, r: System, job: Job) {
    && r.data == s.data && r.record == s.record
    && (forall d :: d in s.deliveries && s.deliveries[d].job != job ==> d in r.deliveries && r.deliveries[d] == s.deliveries[d])
    && (forall j :: j in s.left && j != job ==> j in r.left && r.left[j] == s.left[j])
    && (forall j :: j in s.holder && j != job ==> j in r.holder && r.holder[j] == s.holder[j])
  }

  lemma OthersCanDump(s: System, r: System, job: Job, other: Job)
    requires OnlyJob(s, r, job) && other != job && CanDump(s, other)
    ensures CanDump(r, other)
  {
    if d :| d in s.deliveries && s.deliveries[d] == Delivery(other, Dump) {
      assert r.deliveries[d] == Delivery(other, Dump);
    } else if d :| Holds(s, d) && s.deliveries[d] == Delivery(other, Load) {
      assert Holds(r, d) && r.deliveries[d] == Delivery(other, Load);
    }
  }

  lemma DestroyAtDump(s: System, d: nat, job: Job) returns (events: seq<Event>)
    requires s.data.None? && d in s.deliveries && s.deliveries[d] == Delivery(job, Dump)
    ensures OnlyJob(s, Run(s, events, true), job) && Run(s, events, true).dumps == s.dumps - {job}
  {
    events := [Do(d, Success, 0)] + [];
    RunCons(s, Do(d, Success, 0), [], true);
  }

  lemma DestroyAtLoad(s: System, d: nat, job: Job) returns (events: seq<Event>)
    requires s.data.None? && !s.record.Deleted? && Holds(s, d) && s.deliveries[d] == Delivery(job, Load)
    ensures OnlyJob(s, Run(s, events, true), job) && Run(s, events, true).dumps == s.dumps - {job}
  {
    var next := Step(s, Do(d, Success, 0), true);
    var rest := DestroyAtDump(next, d, job);
    events := [Do(d, Success, 0)] + rest;
    RunCons(s, Do(d, Success, 0), rest, true);
  }

  lemma DestroyByRetry(s: System, job: Job) returns (events: seq<Event>)
    requires s.data.None? && !s.record.Deleted? && job in s.left && s.left[job] > 0
    ensures OnlyJob(s, Run(s, events, true), job) && Run(s, events, true).dumps == s.dumps - {job}
  {
    var d := FreshAbove(s.deliveries);
    assert d !in s.deliveries;
    var next := Step(s, Deliver(d, job), true);
    var rest := DestroyAtLoad(next, d, job);
    events := [Deliver(d, job)] + rest;
    RunCons(s, Deliver(d, job), rest, true);
  }

  lemma DestroyOne(s: System, job: Job) returns (events: seq<Event>)
    requires s.data.None? && CanDump(s, job)
    ensures OnlyJob(s, Run(s, events, true), job) && Run(s, events, true).dumps == s.dumps - {job}
  {
    if d :| d in s.deliveries && s.deliveries[d] == Delivery(job, Dump) {
      events := DestroyAtDump(s, d, job);
    } else if d :| Holds(s, d) && s.deliveries[d] == Delivery(job, Load) {
      events := DestroyAtLoad(s, d, job);
    } else {
      events := DestroyByRetry(s, job);
    }
  }

  /** Retries alone can remove every dump whose job can still reach its dump step. */
  lemma {:induction false} DestroyAll(s: System) returns (events: seq<Event>)
    requires s.data.None? && forall job :: job in s.dumps ==> CanDump(s, job)
    ensures !Recoverable(Run(s, events, true))
    decreases |s.dumps|
  {
    events := [];
    if job :| job in s.dumps {
      var first := DestroyOne(s, job);
      var r := Run(s, first, true);
      assert s.dumps.Keys == r.dumps.Keys + {job};
      forall other | other in r.dumps
        ensures CanDump(r, other)
      {
        OthersCanDump(s, r, job, other);
      }
      var rest := DestroyAll(r);
      events := first + rest;
      RunAppend(s, first, rest, true);
    }
  }

  /** After the drop, every continuation keeps some dump exactly when some existing dump belongs to a
      job that cannot reach its dump step again. */
  lemma KeptExactly(s: System)
    requires s.data.None?
    ensures (forall events :: Recoverable(Run(s, events, true))) <==> (exists job :: job in s.dumps && !CanDump(s, job))
  {
    if job :| job in s.dumps && !CanDump(s, job) {
      forall events
        ensures Recoverable(Run(s, events, true))
      {
        KeptForGood(s, events, job);
      }
    } else {
      var events := DestroyAll(s);
      assert !Recoverable(Run(s, events, true));
    }
  }

  // ------------------------------------------------------------- with the clean-up, from the start

  /** No job has an attempt left once it has a delivery, and none once it has a dump. */
  ghost predicate SingleAttempts(s: System) {
    && Recoverable(s)
    && (forall j :: j in s.left ==> s.left[j] <= 1)
    && (forall d :: d in s.deliveries ==> Spent(s, s.deliveries[d].job))
    && (forall d, e :: d in s.deliveries && e in s.deliveries && s.deliveries[d].job == s.deliveries[e].job ==> d == e)
    && (forall d :: d in s.deliveries && s.deliveries[d].pc.Drop? ==> s.deliveries[d].job in s.dumps)
    && (forall j :: j in s.dumps ==> Spent(s, j))
    && (forall d :: d in s.deliveries && (s.deliveries[d].pc.Load? || s.deliveries[d].pc.Dump?) ==>
          s.deliveries[d].job !in s.dumps)
  }

  predicate Spent(s: System, job: Job) {
    job in s.left && s.left[job] == 0
  }

  lemma EndKeepsSingle(s: System, d: nat)
    requires SingleAttempts(s)
    ensures SingleAttempts(End(s, d))
  {
  }

  lemma DeliverKeepsSingle(s: System, d: nat, job: Job)
    requires SingleAttempts(s)
    ensures SingleAttempts(Step(s, Deliver(d, job), true))
  {
  }

  lemma DumpedGoesOn(s: System, d: nat, bytes: Bytes)
    requires SingleAttempts(s) && d in s.deliveries && s.deliveries[d].pc.Dump?
    ensures SingleAttempts(To(s.(dumps := s.dumps[s.deliveries[d].job := bytes]), d, Drop))
  {
  }

  lemma DumpedEnds(s: System, d: nat, bytes: Bytes)
    requires SingleAttempts(s) && d in s.deliveries && s.deliveries[d].pc.Dump?
    ensures SingleAttempts(End(s.(dumps := s.dumps[s.deliveries[d].job := bytes]), d))
  {
  }

  lemma DumpKeepsSingle(s: System, d: nat, out: Outcome)
    requires SingleAttempts(s) && d in s.deliveries && s.deliveries[d].pc.Dump?
    ensures SingleAttempts(DumpStep(s, d, out, true))
  {
    if !out.Unreachable? && Takes(out) && s.data.Some? {
      DumpedGoesOn(s, d, s.data.value);
      DumpedEnds(s, d, s.data.value);
    } else {
      assert s.dumps - {s.deliveries[d].job} == s.dumps;
      EndKeepsSingle(s, d);
    }
  }

  lemma MoveKeepsSingle(s: System, d: nat, pc: Pc)
    requires SingleAttempts(s) && d in s.deliveries
    requires pc.Tombstone? || (pc.Dump? && s.deliveries[d].pc.Load?)
    ensures SingleAttempts(To(s, d, pc))
  {
  }

  lemma DropKeepsSingle(s: System, d: nat, out: Outcome)
    requires SingleAttempts(s) && d in s.deliveries && s.deliveries[d].pc.Drop?
    ensures SingleAttempts(Continue(if Takes(out) then s.(data := None) else s, d, out, Tombstone))
  {
    var t := if Takes(out) then s.(data := None) else s;
    assert SingleAttempts(t);
    EndKeepsSingle(t, d);
    MoveKeepsSingle(t, d, Tombstone);
  }

  lemma RecordKeepsSingle(s: System, record: Record)
    requires SingleAttempts(s)
    ensures SingleAttempts(s.(record := record))
  {
  }

  lemma HandlerKeepsSingle(s: System, d: nat, out: Outcome, now: int)
    requires SingleAttempts(s) && d in s.deliveries
    ensures SingleAttempts(HandlerStep(s, d, out, now, true))
  {
    EndKeepsSingle(s, d);
    match s.deliveries[d].pc
    case Load => MoveKeepsSingle(s, d, Dump);
    case Dump => DumpKeepsSingle(s, d, out);
    case Drop => DropKeepsSingle(s, d, out);
    case Tombstone =>
      RecordKeepsSingle(s, Deleted);
      EndKeepsSingle(s.(record := Deleted), d);
  }

  lemma SingleAttemptStep(s: System, e: Event)
    requires SingleAttempts(s)
    ensures SingleAttempts(Step(s, e, true))
  {
    match e
    case Deliver(d, job) => DeliverKeepsSingle(s, d, job);
    case Crash(d) => EndKeepsSingle(s, d);
    case Do(d, out, now) =>
      if d in s.deliveries {
        HandlerKeepsSingle(s, d, out, now);
      }
    case _ =>
  }

  lemma {:induction false} SingleAttemptRun(s: System, events: seq<Event>)
    requires SingleAttempts(s)
    ensures Recoverable(Run(s, events, true))
    decreases |events|
  {
    if events != [] {
      SingleAttemptStep(s, events[0]);
      SingleAttemptRun(Step(s, events[0], true), events[1..]);
    }
  }

  /** Two attempts are enough to lose everything: the first is lost after its drop and the second
      fails its dump, which removes the file. */
  lemma SecondAttemptDestroys(s: System, job: Job) returns (events: seq<Event>)
    requires Fresh(s) && job in s.left && s.left[job] >= 2
    ensures !Recoverable(Run(s, events, true))
  {
    var go := Do(0, Success, 0);
    var s1 := Step(s, Deliver(0, job), true);
    assert Holds(s1, 0) && s1.deliveries[0] == Delivery(job, Load) && s1.data == s.data && s1.record == s.record;
    var s2 := Step(s1, go, true);
    assert s2 == To(s1, 0, Dump);
    var s3 := Step(s2, go, true);
    assert s3 == To(s2.(dumps := map[job := s.data.value]), 0, Drop);
    var s4 := Step(s3, go, true);
    assert s4.data.None? && s4.dumps == map[job := s.data.value] && !s4.record.Deleted?;
    assert s4.left[job] >= 1;
    var rest := DestroyByRetry(s4, job);
    RunCons(s, Deliver(0, job), [go] + ([go] + ([go] + rest)), true);
    RunCons(Step(s, Deliver(0, job), true), go, [go] + ([go] + rest), true);
    RunCons(Step(Step(s, Deliver(0, job), true), go, true), go, [go] + rest, true);
    RunCons(Step(Step(Step(s, Deliver(0, job), true), go, true), go, true), go, rest, true);
    events := [Deliver(0, job)] + ([go] + ([go] + ([go] + rest)));
  }

  /** From the start, the database or a dump of it survives every history exactly when no delete job
      may be attempted twice.  The default is three attempts. */
  lemma RecoverableExactly(s: System)
    requires Fresh(s)
    ensures (forall events :: Recoverable(Run(s, events, true))) <==> (forall job :: job in s.left ==> s.left[job] <= 1)
  {
    if job :| job in s.left && s.left[job] > 1 {
      var events := SecondAttemptDestroys(s, job);
      assert !Recoverable(Run(s, events, true));
    } else {
      forall events
        ensures Recoverable(Run(s, events, true))
      {
        SingleAttemptRun(s, events);
      }
    }
  }
}

/** Backup, verify and delete jobs over shared run records, archive files and target objects.

Every handler is a list of steps.  A worker may be lost after any of them, and while the job has
attempts left a new delivery starts from the top, possibly while the stale one and other jobs still
run.  A delivery keeps nothing across a restart, and a job that succeeded is not delivered again. */
module BackupRuns {
  import opened Text
  import opened Collections
  import opened RunStates

  type Id = string
  type Bytes = string

  datatype Row = Row(
    plan: Id, state: State, archivePath: string, size: nat, sha: string,
    startedAt: Option<int>, completedAt: Option<int>, verification: Verification)

  // ------------------------------------------------------------- names

  function ArchivePath(plan: Id, run: Id): string {
    "/var/lib/jawaker/backups/" + plan + "/" + run + ".tar.gz"
  }

  function Key(plan: Id, run: Id): string {
    plan + "/" + run + ".tar.gz"
  }

  function ManifestKey(plan: Id, run: Id): string {
    Key(plan, run) + ".manifest"
  }

  /** Target keys name one plan and one run, since ids hold no slash. */
  lemma KeyInjective(p: Id, r: Id, q: Id, u: Id)
    requires '/' !in p && '/' !in q && Key(p, r) == Key(q, u)
    ensures p == q && r == u
  {
    var k := Key(p, r);
    IndexOfFirst(k, '/', |p|);
    IndexOfFirst(k, '/', |q|);
    assert k[..|p|] == p && k[..|q|] == q;
    assert k[|p| + 1..|k| - 7] == r && Key(q, u)[|q| + 1..|k| - 7] == u;
  }

  lemma ManifestApart(p: Id, r: Id, q: Id, u: Id)
    requires '/' !in p && '/' !in q
    ensures ManifestKey(p, r) != Key(q, u)
    ensures ManifestKey(p, r) == ManifestKey(q, u) ==> p == q && r == u
  {
    var m, k := ManifestKey(p, r), Key(q, u);
    assert m[|m| - 1] == 't' && k[|k| - 1] == 'z';
    if ManifestKey(p, r) == ManifestKey(q, u) {
      var n := ManifestKey(q, u);
      assert m[..|m| - 9] == Key(p, r) && n[..|n| - 9] == Key(q, u);
      KeyInjective(p, r, q, u);
    }
  }

  // ------------------------------------------------------------- the guarded statements

  predicate Active(r: Row) {
    r.state.Queued? || r.state.Running?
  }

  function Started(r: Row, now: int): Row {
    if r.state.Queued? then r.(state := Running, startedAt := Some(now)) else r
  }

  function Finished(r: Row, path: string, size: nat, sha: string, now: int): Row {
    if r.state.Running?
    then r.(state := Completed, archivePath := path, size := size, sha := sha, completedAt := Some(now)) else r
  }

  function GivenUp(r: Row, now: int): Row {
    if Active(r) then r.(state := Failed, completedAt := Some(now)) else r
  }

  /** The record of one run, with the statements the store runs on it. */
  class RunRecord {
    var row: Row

    constructor (row: Row)
      ensures this.row == row
    {
      this.row := row;
    }

    method MarkRunRunning(now: int) returns (ok: bool)
      modifies this
      ensures ok <==> old(row).state.Queued?
      ensures row == Started(old(row), now) && Grows(old(row), row)
    {
      ok := row.state.Queued?;
      if ok {
        row := row.(state := Running, startedAt := Some(now));
      }
    }

    method MarkRunCompleted(path: string, size: nat, sha: string, now: int) returns (ok: bool)
      modifies this
      ensures ok <==> old(row).state.Running?
      ensures row == Finished(old(row), path, size, sha, now) && Grows(old(row), row)
    {
      ok := row.state.Running?;
      if ok {
        row := row.(state := Completed, archivePath := path, size := size, sha := sha, completedAt := Some(now));
      }
    }

    method MarkRunFailed(now: int) returns (ok: bool)
      modifies this
      ensures ok <==> Active(old(row))
      ensures row == GivenUp(old(row), now) && Grows(old(row), row)
    {
      ok := row.state.Queued? || row.state.Running?;
      if ok {
        row := row.(state := Failed, completedAt := Some(now));
      }
    }
  }

  function Rank(s: State): nat {
    if s.Queued? then 0 else if s.Running? then 1 else 2
  }

  /** b is a later version of record a: states only move forward, a record that was queued completes
      only after it was started, a finished record keeps its state and every artifact fact, and only
      the verification mark may still change. */
  predicate Grows(a: Row, b: Row) {
    && a.plan == b.plan && Rank(a.state) <= Rank(b.state)
    && (a.state.Queued? && (b.state.Running? || b.state.Completed?) ==> b.startedAt.Some?)
    && (!Active(a) ==> b == a.(verification := b.verification))
    && (!a.state.Queued? ==> b.startedAt == a.startedAt)
  }

  lemma GrowsTransitive(a: Row, b: Row, c: Row)
    requires Grows(a, b) && Grows(b, c)
    ensures Grows(a, c)
  {
  }

  // ------------------------------------------------------------- deliveries

  datatype Job = BackupJob | VerifyJob | DeleteJob

  /** A job of the engine: what it does, for which run, and the attempts it has left. */
  datatype Task = Task(job: Job, run: Id, left: nat)

  /** Where a delivery stands.  `Begin...` asks the engine to start a step, which it refuses without the
      lease; `Upload` and `Complete` hold the archive the node reported; `Closing` is about to report
      success. */
  datatype Pc =
    | MarkRunning | BeginArchive | Archive | BeginUpload(archive: Bytes) | Upload(archive: Bytes)
    | Complete(archive: Bytes) | FailRun
    | LoadRun | Fetch(sha: string) | Judge(sha: string, got: Option<Bytes>)
    | BeginErase | Erase | EraseManifest
    | Closing | Stopped

  /** One attempt of a task. */
  datatype Delivery = Delivery(task: nat, job: Job, run: Id, pc: Pc)

  /** `fetched` and `produced` remember, per run, the bytes read back and the archives the node made;
      `holder` is the delivery with each task's lease. */
  datatype System = System(
    rows: map<Id, Row>, disk: map<string, Bytes>, target: map<string, Bytes>,
    deliveries: map<nat, Delivery>, fetched: set<(Id, Bytes)>, produced: set<(Id, Bytes)>,
    tasks: map<nat, Task>, holder: map<nat, nat>)

  /** What the world answers to a step.  `Lost` is an archive the node made without the controller
      hearing of it, `NodeFailed` an archive the node began and removed. */
  datatype Reply =
    | Produced(bytes: Bytes) | Lost(bytes: Bytes) | NodeFailed
    | Fine | Unreadable | NoTarget | Error

  datatype Event =
    | Deliver(d: nat, task: nat)            // an attempt begins
    | Crash(d: nat)                         // its worker is lost
    | Do(d: nat, reply: Reply, now: int)    // its next step

  function FirstPc(j: Job): Pc {
    match j
    case BackupJob => MarkRunning
    case VerifyJob => LoadRun
    case DeleteJob => BeginErase
  }

  /** What one step leaves behind: its run's record, the files, the objects, the next step and whether
      the job has succeeded.  `holds` says whether the delivery has the lease. */
  datatype Effect = Effect(
    row: Row, disk: map<string, Bytes>, target: map<string, Bytes>,
    fetched: set<(Id, Bytes)>, produced: set<(Id, Bytes)>, pc: Pc, succeeded: bool, holds: bool)

  /** The next step of a backup attempt. */
  function BackupPc(pc: Pc, reply: Reply, holds: bool, running: bool): Pc {
    match pc
    case MarkRunning => if reply.Error? then FailRun else BeginArchive
    case BeginArchive => // a plan that cannot be loaded fails the run
      if reply.Error? then FailRun else if holds then Archive else Stopped
    case Archive => if reply.Produced? then BeginUpload(reply.bytes) else FailRun
    case BeginUpload(b) => if reply.Error? || !holds then Stopped else Upload(b)
    case Upload(b) => if reply.Error? then FailRun else Complete(b)
    case Complete(b) => // a record that is not running fails the job
      if reply.Error? || !running then Stopped else Closing
    case FailRun => Stopped
    case _ => pc
  }

  /** An archive the node made, or the removal of one it could not finish; other errors change nothing. */
  function ArchiveData(n: Effect, run: Id, reply: Reply): Effect {
    var path := ArchivePath(n.row.plan, run);
    match reply
    case Produced(b) => n.(disk := n.disk[path := b], produced := n.produced + {(run, b)})
    case Lost(b) => n.(disk := n.disk[path := b], produced := n.produced + {(run, b)})
    case NodeFailed => n.(disk := n.disk - {path})
    case _ => n
  }

  /** The file on disk, or a manifest when the controller cannot read it. */
  function UploadData(n: Effect, run: Id, reply: Reply): Effect {
    var path := ArchivePath(n.row.plan, run);
    if reply.Error? then n
    else if reply.Unreadable? || path !in n.disk then n.(target := n.target[ManifestKey(n.row.plan, run) := "{}"])
    else n.(target := n.target[Key(n.row.plan, run) := n.disk[path]])
  }

  /** What a step of a backup attempt does, apart from moving on. */
  function BackupData(n: Effect, run: Id, reply: Reply, now: int, hash: Bytes -> string): Effect {
    match n.pc
    case MarkRunning => // a record that is not queued is no reason to stop
      if reply.Error? then n else n.(row := Started(n.row, now))
    case Archive => ArchiveData(n, run, reply)
    case Upload(b) => UploadData(n, run, reply)
    case Complete(b) =>
      if reply.Error? then n else n.(row := Finished(n.row, ArchivePath(n.row.plan, run), |b|, hash(b), now))
    case FailRun => n.(row := GivenUp(n.row, now))
    case _ => n
  }

  function BackupEffect(n: Effect, run: Id, reply: Reply, now: int, hash: Bytes -> string): Effect {
    BackupData(n, run, reply, now, hash).(pc := BackupPc(n.pc, reply, n.holds, n.row.state.Running?))
  }

  function VerifyEffect(n: Effect, run: Id, reply: Reply, hash: Bytes -> string): Effect {
    var key := Key(n.row.plan, run);
    match n.pc
    case LoadRun => n.(pc := if reply.Error? then Stopped else Fetch(n.row.sha))
    case Fetch(sha) =>
      if reply.Error? || key !in n.target then n.(pc := Judge(sha, None))
      else n.(fetched := n.fetched + {(run, n.target[key])}, pc := Judge(sha, Some(n.target[key])))
    case Judge(sha, got) => // a mark that cannot be written is ignored
      var good := got.Some? && hash(got.value) == sha;
      n.(row := if reply.Error? then n.row else n.row.(verification := if good then Verified else VerifyFailed),
         pc := if good then Closing else Stopped)
    case _ => n
  }

  function DeleteEffect(n: Effect, run: Id, reply: Reply): Effect {
    match n.pc
    case BeginErase => n.(pc := if reply.Error? || !n.holds then Stopped else Erase)
    case Erase =>         // without a target the job succeeds and the object stays
      if reply.Error? then n.(pc := Stopped)
      else if reply.NoTarget? then n.(pc := Closing)
      else n.(target := n.target - {Key(n.row.plan, run)}, pc := EraseManifest)
    case EraseManifest => // best effort
      n.(target := if reply.Error? then n.target else n.target - {ManifestKey(n.row.plan, run)}, pc := Closing)
    case _ => n
  }

  function EffectOf(n: Effect, job: Job, run: Id, e: Event, hash: Bytes -> string): Effect {
    match e
    case Deliver(_, _) => n
    case Crash(_) => n.(pc := Stopped)
    case Do(_, reply, now) =>
      if n.pc.Closing? then n.(pc := Stopped, succeeded := !reply.Error?)
      else
        match job
        case BackupJob => BackupEffect(n, run, reply, now, hash)
        case VerifyJob => VerifyEffect(n, run, reply, hash)
        case DeleteJob => DeleteEffect(n, run, reply)
  }

  /** The delivery has its task's lease. */
  predicate Holds(s: System, d: nat) {
    d in s.deliveries && s.deliveries[d].task in s.holder && s.holder[s.deliveries[d].task] == d
  }

  predicate Known(s: System, d: nat) {
    d in s.deliveries && s.deliveries[d].run in s.rows
  }

  function Now(s: System, d: nat): Effect
    requires Known(s, d)
  {
    Effect(s.rows[s.deliveries[d].run], s.disk, s.target, s.fetched, s.produced, s.deliveries[d].pc, false,
           Holds(s, d))
  }

  function Next(s: System, e: Event, hash: Bytes -> string): Effect
    requires Known(s, e.d)
  {
    EffectOf(Now(s, e.d), s.deliveries[e.d].job, s.deliveries[e.d].run, e, hash)
  }

  /** A job that succeeded has no attempts left. */
  function Settled(tasks: map<nat, Task>, task: nat, succeeded: bool): map<nat, Task> {
    if succeeded && task in tasks then tasks[task := tasks[task].(left := 0)] else tasks
  }

  function Commit(s: System, d: nat, n: Effect): System
    requires Known(s, d)
  {
    System(s.rows[s.deliveries[d].run := n.row], n.disk, n.target,
           s.deliveries[d := s.deliveries[d].(pc := n.pc)], n.fetched, n.produced,
           Settled(s.tasks, s.deliveries[d].task, n.succeeded), s.holder)
  }

  /** An attempt is used up when it begins, and has the lease from then on. */
  function Begin(s: System, d: nat, task: nat): System {
    if d in s.deliveries || task !in s.tasks || s.tasks[task].left == 0 then s
    else
      var t := s.tasks[task];
      s.(deliveries := s.deliveries[d := Delivery(task, t.job, t.run, FirstPc(t.job))],
         tasks := s.tasks[task := t.(left := t.left - 1)], holder := s.holder[task := d])
  }

  /** The event is a step or the loss of a delivery whose run has a record. */
  predicate Acts(s: System, e: Event) {
    !e.Deliver? && Known(s, e.d)
  }

  function Step(s: System, e: Event, hash: Bytes -> string): System {
    if e.Deliver? then Begin(s, e.d, e.task)
    else if Known(s, e.d) then Commit(s, e.d, Next(s, e, hash))
    else s
  }

  function Run(s: System, events: seq<Event>, hash: Bytes -> string): System
    decreases |events|
  {
    if events == [] then s else Run(Step(s, events[0], hash), events[1..], hash)
  }

  // ------------------------------------------------------------- what each job leaves alone

  /** The record, but for the verification mark, and everything the effect is about are as they were. */
  predicate SameRowAndFiles(n: Effect, r: Effect) {
    r.row == n.row && r.disk == n.disk && r.produced == n.produced && r.fetched == n.fetched
  }

  predicate SameAt(a: map<string, Bytes>, b: map<string, Bytes>, key: string) {
    (key in a <==> key in b) && (key in a ==> a[key] == b[key])
  }

  lemma ArchiveFrame(n: Effect, run: Id, reply: Reply)
    ensures var r := ArchiveData(n, run, reply);
            && r.row == n.row && r.target == n.target && r.fetched == n.fetched && n.produced <= r.produced
            && (reply.Produced? ==> (run, reply.bytes) in r.produced)
            && (forall path :: path != ArchivePath(n.row.plan, run) ==> SameAt(n.disk, r.disk, path))
  {
  }

  lemma UploadFrame(n: Effect, run: Id, reply: Reply)
    ensures var r := UploadData(n, run, reply);
            && SameRowAndFiles(n, r)
            && (forall key :: key != Key(n.row.plan, run) && key != ManifestKey(n.row.plan, run) ==> SameAt(n.target, r.target, key))
  {
  }

  /** The other steps of a backup touch only the record. */
  lemma BackupFrame(n: Effect, run: Id, reply: Reply, now: int, hash: Bytes -> string)
    requires !n.pc.Archive? && !n.pc.Upload?
    ensures var r := BackupData(n, run, reply, now, hash);
            && r.disk == n.disk && r.target == n.target && r.produced == n.produced && r.fetched == n.fetched
            && r.row.verification == n.row.verification
  {
  }

  lemma BackupFrames(n: Effect, run: Id, reply: Reply, now: int, hash: Bytes -> string)
    ensures var r := BackupData(n, run, reply, now, hash);
            && r.fetched == n.fetched && r.row.verification == n.row.verification
            && (forall path :: (n.pc.Archive? && path == ArchivePath(n.row.plan, run)) || SameAt(n.disk, r.disk, path))
            && (forall key :: (n.pc.Upload? && (key == Key(n.row.plan, run) || key == ManifestKey(n.row.plan, run)))
                              || SameAt(n.target, r.target, key))
  {
    match n.pc
    case Archive => ArchiveFrame(n, run, reply);
    case Upload(_) => UploadFrame(n, run, reply);
    case _ => BackupFrame(n, run, reply, now, hash);
  }

  lemma VerifyFrame(n: Effect, run: Id, reply: Reply, hash: Bytes -> string)
    ensures var r := VerifyEffect(n, run, reply, hash);
            && r.disk == n.disk && r.target == n.target && r.produced == n.produced && n.fetched <= r.fetched
            && r.row == n.row.(verification := r.row.verification)
  {
  }

  lemma DeleteFrame(n: Effect, run: Id, reply: Reply)
    ensures var r := DeleteEffect(n, run, reply);
            && SameRowAndFiles(n, r)
            && (!n.pc.Erase? && !n.pc.EraseManifest? ==> r.target == n.target)
            && (forall key :: (n.pc.Erase? && key == Key(n.row.plan, run))
                              || (n.pc.EraseManifest? && key == ManifestKey(n.row.plan, run))
                              || SameAt(n.target, r.target, key))
  {
  }

  // ------------------------------------------------------------- the record

  /** The ways one step can change a record. */
  ghost predicate Moves(a: Row, b: Row, run: Id, hash: Bytes -> string) {
    || b == a
    || (exists now :: b == Started(a, now))
    || (exists now :: b == GivenUp(a, now))
    || (exists x: Bytes, now :: b == Finished(a, ArchivePath(a.plan, run), |x|, hash(x), now))
    || (exists mark :: b == a.(verification := mark))
  }

  lemma BackupMoves(n: Effect, run: Id, reply: Reply, now: int, hash: Bytes -> string)
    ensures Moves(n.row, BackupData(n, run, reply, now, hash).row, run, hash)
  {
    match n.pc
    case Complete(b) =>
      assert Moves(n.row, Finished(n.row, ArchivePath(n.row.plan, run), |b|, hash(b), now), run, hash);
    case Archive => ArchiveFrame(n, run, reply);
    case Upload(_) => UploadFrame(n, run, reply);
    case _ =>
  }

  lemma EffectMoves(n: Effect, job: Job, run: Id, e: Event, hash: Bytes -> string)
    ensures Moves(n.row, EffectOf(n, job, run, e, hash).row, run, hash)
  {
    if e.Do? && !n.pc.Closing? {
      match job
      case BackupJob => BackupMoves(n, run, e.reply, e.now, hash);
      case VerifyJob =>
        VerifyFrame(n, run, e.reply, hash);
        assert exists mark :: VerifyEffect(n, run, e.reply, hash).row == n.row.(verification := mark);
      case DeleteJob => DeleteFrame(n, run, e.reply);
    }
  }

  lemma StepMoves(s: System, e: Event, hash: Bytes -> string, run: Id)
    requires run in s.rows
    ensures run in Step(s, e, hash).rows && Moves(s.rows[run], Step(s, e, hash).rows[run], run, hash)
  {
    if Acts(s, e) {
      EffectMoves(Now(s, e.d), s.deliveries[e.d].job, s.deliveries[e.d].run, e, hash);
    }
  }

  lemma MovesGrow(a: Row, b: Row, run: Id, hash: Bytes -> string)
    requires Moves(a, b, run, hash)
    ensures Grows(a, b)
  {
  }

  /** Under any crashes, redeliveries and interleavings the record of a run only moves forward, and
      its archive path, size, hash and completion time never change once it has finished. */
  lemma {:induction false} RecordOnlyGrows(s: System, events: seq<Event>, hash: Bytes -> string, run: Id)
    requires run in s.rows
    ensures var end := Run(s, events, hash); run in end.rows && Grows(s.rows[run], end.rows[run])
    decreases |events|
  {
    if events != [] {
      var next := Step(s, events[0], hash);
      StepMoves(s, events[0], hash, run);
      MovesGrow(s.rows[run], next.rows[run], run, hash);
      RecordOnlyGrows(next, events[1..], hash, run);
      GrowsTransitive(s.rows[run], next.rows[run], Run(s, events, hash).rows[run]);
    }
  }

  /** The facts a completed record holds are those of one archive; any other record holds none. */
  ghost predicate FactsOfOneArchive(r: Row, run: Id, hash: Bytes -> string) {
    if r.state.Completed?
    then r.archivePath == ArchivePath(r.plan, run) && exists b: Bytes :: r.sha == hash(b) && r.size == |b|
    else r.archivePath == "" && r.sha == "" && r.size == 0
  }

  lemma MovesKeepFacts(a: Row, b: Row, run: Id, hash: Bytes -> string)
    requires Moves(a, b, run, hash) && FactsOfOneArchive(a, run, hash)
    ensures FactsOfOneArchive(b, run, hash)
  {
  }

  /** In every history a completed record has the path of its run and the size and hash of one archive. */
  lemma {:induction false} CompletedFactsAgree(s: System, events: seq<Event>, hash: Bytes -> string, run: Id)
    requires run in s.rows && FactsOfOneArchive(s.rows[run], run, hash)
    ensures var end := Run(s, events, hash); run in end.rows && FactsOfOneArchive(end.rows[run], run, hash)
    decreases |events|
  {
    if events != [] {
      var next := Step(s, events[0], hash);
      StepMoves(s, events[0], hash, run);
      MovesKeepFacts(s.rows[run], next.rows[run], run, hash);
      CompletedFactsAgree(next, events[1..], hash, run);
    }
  }

  /** A record that was queued and is now complete was running in between. */
  lemma {:induction false} CompletedWasRunning(s: System, events: seq<Event>, hash: Bytes -> string, run: Id)
    requires run in s.rows && s.rows[run].state.Queued?
    requires run in Run(s, events, hash).rows && Run(s, events, hash).rows[run].state.Completed?
    ensures exists i :: 0 <= i <= |events| && WasRunning(s, events[..i], hash, run)
    decreases |events|
  {
    if events != [] {
      var next, rest := Step(s, events[0], hash), events[1..];
      StepMoves(s, events[0], hash, run);
      if next.rows[run].state.Queued? {
        CompletedWasRunning(next, rest, hash, run);
        var i :| 0 <= i <= |rest| && WasRunning(next, rest[..i], hash, run);
        assert events[..i + 1][1..] == rest[..i];
        assert WasRunning(s, events[..i + 1], hash, run);
      } else {
        RecordOnlyGrows(next, rest, hash, run);
        assert events[..1][1..] == [] && Run(next, [], hash) == next;
        assert WasRunning(s, events[..1], hash, run);
      }
    }
  }

  ghost predicate WasRunning(s: System, events: seq<Event>, hash: Bytes -> string, run: Id) {
    run in Run(s, events, hash).rows && Run(s, events, hash).rows[run].state.Running?
  }

  predicate HasArchive(pc: Pc) {
    pc.BeginUpload? || pc.Upload? || pc.Complete?
  }

  /** A completed record describes an archive the node made for that run, and a delivery past its
      archive step holds one. */
  ghost predicate MadeInv(s: System, hash: Bytes -> string) {
    && (forall run :: run in s.rows && s.rows[run].state.Completed? ==> DescribesMade(s, run, hash))
    && (forall d :: d in s.deliveries && HasArchive(s.deliveries[d].pc) ==>
          (s.deliveries[d].run, s.deliveries[d].pc.archive) in s.produced)
  }

  ghost predicate DescribesMade(s: System, run: Id, hash: Bytes -> string)
    requires run in s.rows
  {
    exists b: Bytes :: (run, b) in s.produced && s.rows[run].sha == hash(b) && s.rows[run].size == |b|
  }

  /** What a step may do to the archives that exist and to the facts of a completed record. */
  ghost predicate Makes(n: Effect, r: Effect, run: Id, hash: Bytes -> string) {
    && n.produced <= r.produced
    && (HasArchive(r.pc) ==> (run, r.pc.archive) in r.produced)
    && (r.row.state.Completed? ==>
          (r.row.sha == n.row.sha && r.row.size == n.row.size && n.row.state.Completed?)
          || (n.pc.Complete? && r.row.sha == hash(n.pc.archive) && r.row.size == |n.pc.archive|))
  }

  /** Only a finished archive step hands over a new archive. */
  lemma PcKeepsArchive(pc: Pc, reply: Reply, holds: bool, running: bool)
    ensures var next := BackupPc(pc, reply, holds, running);
            HasArchive(next) ==>
              if pc.Archive? then reply.Produced? && next.archive == reply.bytes
              else HasArchive(pc) && next.archive == pc.archive
  {
  }

  lemma BackupFacts(n: Effect, run: Id, reply: Reply, now: int, hash: Bytes -> string)
    ensures var row := BackupData(n, run, reply, now, hash).row;
            row.state.Completed? ==>
              (row.sha == n.row.sha && row.size == n.row.size && n.row.state.Completed?)
              || (n.pc.Complete? && row.sha == hash(n.pc.archive) && row.size == |n.pc.archive|)
  {
    match n.pc
    case Archive => ArchiveFrame(n, run, reply);
    case Upload(_) => UploadFrame(n, run, reply);
    case _ =>
  }

  lemma BackupProduces(n: Effect, run: Id, reply: Reply, now: int, hash: Bytes -> string)
    ensures n.produced <= BackupData(n, run, reply, now, hash).produced
    ensures n.pc.Archive? && reply.Produced? ==> (run, reply.bytes) in BackupData(n, run, reply, now, hash).produced
  {
    match n.pc
    case Archive => ArchiveFrame(n, run, reply);
    case Upload(_) => UploadFrame(n, run, reply);
    case _ => BackupFrame(n, run, reply, now, hash);
  }

  lemma BackupMakes(n: Effect, run: Id, reply: Reply, now: int, hash: Bytes -> string)
    requires HasArchive(n.pc) ==> (run, n.pc.archive) in n.produced
    ensures Makes(n, BackupEffect(n, run, reply, now, hash), run, hash)
  {
    PcKeepsArchive(n.pc, reply, n.holds, n.row.state.Running?);
    BackupFacts(n, run, reply, now, hash);
    BackupProduces(n, run, reply, now, hash);
  }

  lemma OthersMake(n: Effect, job: Job, run: Id, reply: Reply, now: int, hash: Bytes -> string)
    requires !job.BackupJob? && (HasArchive(n.pc) ==> (run, n.pc.archive) in n.produced)
    ensures Makes(n, if job.VerifyJob? then VerifyEffect(n, run, reply, hash) else DeleteEffect(n, run, reply), run, hash)
  {
    VerifyFrame(n, run, reply, hash);
    DeleteFrame(n, run, reply);
  }

  lemma EffectMakes(n: Effect, job: Job, run: Id, e: Event, hash: Bytes -> string)
    requires HasArchive(n.pc) ==> (run, n.pc.archive) in n.produced
    ensures Makes(n, EffectOf(n, job, run, e, hash), run, hash)
  {
    if e.Do? && !n.pc.Closing? {
      if job.BackupJob? {
        BackupMakes(n, run, e.reply, e.now, hash);
      } else {
        OthersMake(n, job, run, e.reply, e.now, hash);
      }
    }
  }

  lemma StepMakes(s: System, e: Event, hash: Bytes -> string)
    requires MadeInv(s, hash)
    ensures MadeInv(Step(s, e, hash), hash)
  {
    if Acts(s, e) {
      var next, own := Step(s, e, hash), s.deliveries[e.d].run;
      EffectMakes(Now(s, e.d), s.deliveries[e.d].job, own, e, hash);
      forall run | run in next.rows && next.rows[run].state.Completed?
        ensures DescribesMade(next, run, hash)
      {
        if s.rows[run].state.Completed? && next.rows[run].sha == s.rows[run].sha && next.rows[run].size == s.rows[run].size {
          assert DescribesMade(s, run, hash);
          var b: Bytes :| (run, b) in s.produced && s.rows[run].sha == hash(b) && s.rows[run].size == |b|;
          assert (run, b) in next.produced;
        } else {
          assert (run, s.deliveries[e.d].pc.archive) in next.produced;
        }
      }
    }
  }

  /** In every history a completed record describes one archive the node made for that very run. */
  lemma {:induction false} CompletedWasMade(s: System, events: seq<Event>, hash: Bytes -> string)
    requires MadeInv(s, hash)
    ensures MadeInv(Run(s, events, hash), hash)
    decreases |events|
  {
    if events != [] {
      StepMakes(s, events[0], hash);
      CompletedWasMade(Step(s, events[0], hash), events[1..], hash);
    }
  }

  // ------------------------------------------------------------- verification

  /** The record is finished with a real hash. */
  predicate HasHash(s: System, run: Id, sha: string) {
    run in s.rows && s.rows[run].state.Completed? && s.rows[run].sha == sha
  }

  /** What a verify delivery holds: the record's own hash, if it is one, and bytes it really read. */
  ghost predicate SnapshotCurrent(s: System, d: nat)
    requires d in s.deliveries
  {
    var run := s.deliveries[d].run;
    match s.deliveries[d].pc
    case Fetch(sha) => sha != "" ==> HasHash(s, run, sha)
    case Judge(sha, got) =>
      (sha != "" ==> HasHash(s, run, sha)) && (got.Some? ==> (run, got.value) in s.fetched)
    case _ => true
  }

  /** A verified mark is backed by bytes read from the target that have the stored hash. */
  ghost predicate VerifiedByRead(s: System, run: Id, hash: Bytes -> string)
    requires run in s.rows
  {
    s.rows[run].verification == Verified ==>
      s.rows[run].state.Completed? && exists b: Bytes :: (run, b) in s.fetched && hash(b) == s.rows[run].sha
  }

  ghost predicate Inv(s: System, hash: Bytes -> string) {
    && (forall run :: run in s.rows ==> FactsOfOneArchive(s.rows[run], run, hash) && VerifiedByRead(s, run, hash))
    && (forall d :: d in s.deliveries ==> SnapshotCurrent(s, d))
  }

  lemma HashKept(s: System, e: Event, hash: Bytes -> string, run: Id, sha: string)
    requires HasHash(s, run, sha)
    ensures HasHash(Step(s, e, hash), run, sha)
  {
    StepMoves(s, e, hash, run);
    MovesGrow(s.rows[run], Step(s, e, hash).rows[run], run, hash);
  }

  lemma FetchedGrows(s: System, e: Event, hash: Bytes -> string)
    ensures s.fetched <= Step(s, e, hash).fetched
  {
    if Acts(s, e) {
      EffectFetches(Now(s, e.d), s.deliveries[e.d].job, s.deliveries[e.d].run, e, hash);
    }
  }

  lemma EffectFetches(n: Effect, job: Job, run: Id, e: Event, hash: Bytes -> string)
    ensures n.fetched <= EffectOf(n, job, run, e, hash).fetched
  {
    if e.Do? && !n.pc.Closing? {
      match job
      case BackupJob => BackupFrames(n, run, e.reply, e.now, hash);
      case VerifyJob => VerifyFrame(n, run, e.reply, hash);
      case DeleteJob => DeleteFrame(n, run, e.reply);
    }
  }

  predicate Reads(pc: Pc) {
    pc.Fetch? || pc.Judge?
  }

  lemma BackupNeverReads(pc: Pc, reply: Reply, holds: bool, running: bool)
    ensures var next := BackupPc(pc, reply, holds, running); Reads(next) ==> next == pc
  {
  }

  /** The next step's hash is the one held before, or the record's own at loading. */
  lemma OwnSnapshot(n: Effect, job: Job, run: Id, e: Event, hash: Bytes -> string)
    ensures var r := EffectOf(n, job, run, e, hash);
            && (Reads(r.pc) && Reads(n.pc) ==> r.pc.sha == n.pc.sha)
            && (Reads(r.pc) && !Reads(n.pc) ==> r.pc == Fetch(n.row.sha))
            && (r.pc.Judge? && r.pc.got.Some? ==> r.pc == n.pc || (run, r.pc.got.value) in r.fetched)
  {
    if e.Do? && job.BackupJob? {
      BackupNeverReads(n.pc, e.reply, n.holds, n.row.state.Running?);
    }
  }

  lemma StepKeepsSnapshot(s: System, e: Event, hash: Bytes -> string, d: nat)
    requires Inv(s, hash) && d in Step(s, e, hash).deliveries
    ensures SnapshotCurrent(Step(s, e, hash), d)
  {
    if d in s.deliveries {
      OldSnapshotKept(s, e, hash, d);
    }
  }

  /** Where a delivery stands after a step. */
  lemma StepPc(s: System, e: Event, hash: Bytes -> string, d: nat)
    requires d in s.deliveries
    ensures d in Step(s, e, hash).deliveries
    ensures Step(s, e, hash).deliveries[d]
            == if Acts(s, e) && d == e.d then s.deliveries[d].(pc := Next(s, e, hash).pc) else s.deliveries[d]
    ensures Acts(s, e) ==> Step(s, e, hash).fetched == Next(s, e, hash).fetched
  {
  }

  lemma OldSnapshotKept(s: System, e: Event, hash: Bytes -> string, d: nat)
    requires Inv(s, hash) && d in s.deliveries
    ensures d in Step(s, e, hash).deliveries && SnapshotCurrent(Step(s, e, hash), d)
  {
    var run := s.deliveries[d].run;
    assert SnapshotCurrent(s, d);
    FetchedGrows(s, e, hash);
    StepPc(s, e, hash, d);
    if d == e.d && Acts(s, e) {
      assert FactsOfOneArchive(s.rows[run], run, hash);
      OwnSnapshot(Now(s, d), s.deliveries[d].job, run, e, hash);
    }
    var pc := Step(s, e, hash).deliveries[d].pc;
    if (pc.Fetch? || pc.Judge?) && pc.sha != "" {
      assert HasHash(s, run, pc.sha);
      HashKept(s, e, hash, run, pc.sha);
    }
  }

  /** The mark after a step: unchanged, failed, or verified on bytes that were read and match. */
  lemma StepMark(s: System, e: Event, hash: Bytes -> string, run: Id)
    requires Inv(s, hash) && run in s.rows && (forall b: Bytes :: hash(b) != "")
    ensures var next := Step(s, e, hash);
            && run in next.rows
            && (next.rows[run].verification == Verified && next.rows[run].verification != s.rows[run].verification ==>
                  exists b: Bytes :: (run, b) in s.fetched && HasHash(s, run, hash(b)))
  {
    if Acts(s, e) {
      assert SnapshotCurrent(s, e.d);
      assert FactsOfOneArchive(s.rows[run], run, hash);
      OwnMark(Now(s, e.d), s.deliveries[e.d].job, s.deliveries[e.d].run, e, hash);
    }
  }

  lemma OwnMark(n: Effect, job: Job, run: Id, e: Event, hash: Bytes -> string)
    ensures var mark := EffectOf(n, job, run, e, hash).row.verification;
            mark == Verified && mark != n.row.verification ==>
              n.pc.Judge? && n.pc.got.Some? && hash(n.pc.got.value) == n.pc.sha
  {
    if e.Do? && !n.pc.Closing? {
      match job
      case BackupJob => BackupFrames(n, run, e.reply, e.now, hash);
      case VerifyJob =>
      case DeleteJob => DeleteFrame(n, run, e.reply);
    }
  }

  lemma StepKeepsRow(s: System, e: Event, hash: Bytes -> string, run: Id)
    requires Inv(s, hash) && run in s.rows && (forall b: Bytes :: hash(b) != "")
    ensures var next := Step(s, e, hash);
            run in next.rows && FactsOfOneArchive(next.rows[run], run, hash) && VerifiedByRead(next, run, hash)
  {
    var a, next := s.rows[run], Step(s, e, hash);
    assert FactsOfOneArchive(a, run, hash) && VerifiedByRead(s, run, hash);
    StepMoves(s, e, hash, run);
    MovesKeepFacts(a, next.rows[run], run, hash);
    MovesGrow(a, next.rows[run], run, hash);
    StepMark(s, e, hash, run);
    FetchedGrows(s, e, hash);
  }

  /** Verified is only ever written after reading bytes whose hash is the stored one. */
  lemma {:induction false} VerifiedMeansRead(s: System, events: seq<Event>, hash: Bytes -> string)
    requires Inv(s, hash) && (forall b: Bytes :: hash(b) != "")
    ensures Inv(Run(s, events, hash), hash)
    decreases |events|
  {
    if events != [] {
      var next := Step(s, events[0], hash);
      forall run | run in next.rows
        ensures FactsOfOneArchive(next.rows[run], run, hash) && VerifiedByRead(next, run, hash)
      {
        StepKeepsRow(s, events[0], hash, run);
      }
      forall d | d in next.deliveries
        ensures SnapshotCurrent(next, d)
      {
        StepKeepsSnapshot(s, events[0], hash, d);
      }
      VerifiedMeansRead(next, events[1..], hash);
    }
  }

  // ------------------------------------------------------------- objects at the target

  ghost predicate Slashless(s: System) {
    forall run :: run in s.rows ==> '/' !in s.rows[run].plan
  }

  /** The step may write or erase the archive object of its own run. */
  predicate TouchesArchive(s: System, e: Event, run: Id) {
    Known(s, e.d) && s.deliveries[e.d].run == run && WritesArchive(s.deliveries[e.d].job, s.deliveries[e.d].pc, e)
  }

  predicate WritesArchive(job: Job, pc: Pc, e: Event) {
    e.Do? && ((job.BackupJob? && pc.Upload?) || (job.DeleteJob? && pc.Erase?))
  }

  /** The step may write or erase the manifest object of its own run. */
  predicate TouchesManifest(s: System, e: Event, run: Id) {
    Known(s, e.d) && s.deliveries[e.d].run == run && WritesManifest(s.deliveries[e.d].job, s.deliveries[e.d].pc, e)
  }

  predicate WritesManifest(job: Job, pc: Pc, e: Event) {
    e.Do? && ((job.BackupJob? && pc.Upload?) || (job.DeleteJob? && pc.EraseManifest?))
  }

  lemma EffectOnObjects(n: Effect, job: Job, run: Id, e: Event, hash: Bytes -> string, key: string)
    requires key == Key(n.row.plan, run) ==> !WritesArchive(job, n.pc, e)
    requires key == ManifestKey(n.row.plan, run) ==> !WritesManifest(job, n.pc, e)
    ensures SameAt(n.target, EffectOf(n, job, run, e, hash).target, key)
  {
    if e.Do? && !n.pc.Closing? {
      match job
      case BackupJob => BackupFrames(n, run, e.reply, e.now, hash);
      case VerifyJob => VerifyFrame(n, run, e.reply, hash);
      case DeleteJob => DeleteFrame(n, run, e.reply);
    }
  }

  /** Uploading, verifying and deleting one run leave every other run's archive and manifest alone, and
      only the upload and erase steps of a run touch its own. */
  lemma ObjectsApart(s: System, e: Event, hash: Bytes -> string, run: Id)
    requires Slashless(s) && run in s.rows
    ensures !TouchesArchive(s, e, run) ==> SameAt(s.target, Step(s, e, hash).target, Key(s.rows[run].plan, run))
    ensures !TouchesManifest(s, e, run) ==> SameAt(s.target, Step(s, e, hash).target, ManifestKey(s.rows[run].plan, run))
  {
    if Acts(s, e) {
      var other := s.deliveries[e.d].run;
      KeysOfRuns(s, other, run);
      if !TouchesArchive(s, e, run) {
        EffectOnObjects(Now(s, e.d), s.deliveries[e.d].job, other, e, hash, Key(s.rows[run].plan, run));
      }
      if !TouchesManifest(s, e, run) {
        EffectOnObjects(Now(s, e.d), s.deliveries[e.d].job, other, e, hash, ManifestKey(s.rows[run].plan, run));
      }
    }
  }

  lemma KeysOfRuns(s: System, other: Id, run: Id)
    requires Slashless(s) && run in s.rows && other in s.rows
    ensures var p, q := s.rows[other].plan, s.rows[run].plan;
            && ManifestKey(p, other) != Key(q, run) && Key(p, other) != ManifestKey(q, run)
            && (Key(p, other) == Key(q, run) ==> other == run)
            && (ManifestKey(p, other) == ManifestKey(q, run) ==> other == run)
  {
    var p, q := s.rows[other].plan, s.rows[run].plan;
    ManifestApart(p, other, q, run);
    ManifestApart(q, run, p, other);
    if Key(p, other) == Key(q, run) {
      KeyInjective(p, other, q, run);
    }
  }

  lemma StaysSlashless(s: System, e: Event, hash: Bytes -> string)
    requires Slashless(s)
    ensures Slashless(Step(s, e, hash))
  {
    forall run | run in s.rows
      ensures Step(s, e, hash).rows[run].plan == s.rows[run].plan
    {
      StepMoves(s, e, hash, run);
    }
  }

  /** The record is complete and the target holds the archive it describes. */
  predicate Intact(s: System, run: Id, b: Bytes, hash: Bytes -> string) {
    HasHash(s, run, hash(b)) && Key(s.rows[run].plan, run) in s.target && s.target[Key(s.rows[run].plan, run)] == b
  }

  /** Along the history no step writes or erases the run's archive object, and delivery d does not move. */
  predicate Quiet(s: System, events: seq<Event>, hash: Bytes -> string, run: Id, d: nat)
    decreases |events|
  {
    events != [] ==>
      !TouchesArchive(s, events[0], run) && events[0].d != d && Quiet(Step(s, events[0], hash), events[1..], hash, run, d)
  }

  lemma {:induction false} QuietKeepsArchive(s: System, events: seq<Event>, hash: Bytes -> string, run: Id, d: nat)
    requires Slashless(s) && run in s.rows && d in s.deliveries && Quiet(s, events, hash, run, d)
    ensures var end := Run(s, events, hash);
            && Slashless(end) && run in end.rows && end.rows[run].plan == s.rows[run].plan
            && SameAt(s.target, end.target, Key(s.rows[run].plan, run))
            && d in end.deliveries && end.deliveries[d] == s.deliveries[d]
    decreases |events|
  {
    if events != [] {
      var next := Step(s, events[0], hash);
      StaysSlashless(s, events[0], hash);
      StepMoves(s, events[0], hash, run);
      ObjectsApart(s, events[0], hash, run);
      QuietKeepsArchive(next, events[1..], hash, run, d);
    }
  }

  lemma QuietKeepsIntact(s: System, events: seq<Event>, hash: Bytes -> string, run: Id, d: nat, b: Bytes)
    requires Slashless(s) && Intact(s, run, b, hash) && d in s.deliveries && Quiet(s, events, hash, run, d)
    ensures var end := Run(s, events, hash);
            Slashless(end) && Intact(end, run, b, hash) && d in end.deliveries && end.deliveries[d] == s.deliveries[d]
  {
    QuietKeepsArchive(s, events, hash, run, d);
    RecordOnlyGrows(s, events, hash, run);
  }

  /** Delivery d is an attempt of the given job for the run and stands at `pc`. */
  predicate At(s: System, d: nat, job: Job, run: Id, pc: Pc) {
    d in s.deliveries && s.deliveries[d].job == job && s.deliveries[d].run == run && s.deliveries[d].pc == pc
  }

  /** Other jobs run quietly, then delivery d takes its next step with a good answer. */
  predicate Leads(s: System, events: seq<Event>, d: nat, now: int, hash: Bytes -> string, run: Id, end: System) {
    Quiet(s, events, hash, run, d) && end == Step(Run(s, events, hash), Do(d, Fine, now), hash)
  }

  lemma VerifyLoads(s: System, d: nat, now: int, hash: Bytes -> string, run: Id, b: Bytes)
    requires Intact(s, run, b, hash) && At(s, d, VerifyJob, run, LoadRun)
    ensures At(Step(s, Do(d, Fine, now), hash), d, VerifyJob, run, Fetch(hash(b)))
  {
  }

  lemma VerifyReads(s: System, d: nat, now: int, hash: Bytes -> string, run: Id, b: Bytes)
    requires Intact(s, run, b, hash) && At(s, d, VerifyJob, run, Fetch(hash(b)))
    ensures At(Step(s, Do(d, Fine, now), hash), d, VerifyJob, run, Judge(hash(b), Some(b)))
  {
  }

  lemma VerifyJudges(s: System, d: nat, now: int, hash: Bytes -> string, run: Id, b: Bytes)
    requires Intact(s, run, b, hash) && At(s, d, VerifyJob, run, Judge(hash(b), Some(b)))
    ensures var next := Step(s, Do(d, Fine, now), hash);
            At(next, d, VerifyJob, run, Closing) && run in next.rows && next.rows[run].verification == Verified
  {
  }

  /** A verification of an intact run, one step with a good answer at a time. */
  lemma VerifyStep(s: System, d: nat, now: int, hash: Bytes -> string, run: Id, b: Bytes)
    requires Slashless(s) && Intact(s, run, b, hash)
    ensures var next := Step(s, Do(d, Fine, now), hash);
            && (At(s, d, VerifyJob, run, LoadRun) ==> At(next, d, VerifyJob, run, Fetch(hash(b))))
            && (At(s, d, VerifyJob, run, Fetch(hash(b))) ==> At(next, d, VerifyJob, run, Judge(hash(b), Some(b))))
            && (At(s, d, VerifyJob, run, Judge(hash(b), Some(b))) ==>
                  At(next, d, VerifyJob, run, Closing) && run in next.rows && next.rows[run].verification == Verified)
  {
    if At(s, d, VerifyJob, run, LoadRun) {
      VerifyLoads(s, d, now, hash, run, b);
    } else if At(s, d, VerifyJob, run, Fetch(hash(b))) {
      VerifyReads(s, d, now, hash, run, b);
    } else if At(s, d, VerifyJob, run, Judge(hash(b), Some(b))) {
      VerifyJudges(s, d, now, hash, run, b);
    }
  }

  lemma VerifyStepKeeps(s: System, d: nat, now: int, hash: Bytes -> string, run: Id, b: Bytes)
    requires Slashless(s) && Intact(s, run, b, hash) && d in s.deliveries && s.deliveries[d].job.VerifyJob?
    ensures var next := Step(s, Do(d, Fine, now), hash); Slashless(next) && Intact(next, run, b, hash)
  {
    StaysSlashless(s, Do(d, Fine, now), hash);
  }

  lemma VerifyLeads(s: System, events: seq<Event>, d: nat, now: int, hash: Bytes -> string, run: Id, b: Bytes, end: System)
    requires Slashless(s) && Intact(s, run, b, hash) && Leads(s, events, d, now, hash, run, end)
    requires d in s.deliveries && s.deliveries[d].job.VerifyJob? && s.deliveries[d].run == run
    ensures Slashless(end) && Intact(end, run, b, hash)
    ensures At(s, d, VerifyJob, run, LoadRun) ==> At(end, d, VerifyJob, run, Fetch(hash(b)))
    ensures At(s, d, VerifyJob, run, Fetch(hash(b))) ==> At(end, d, VerifyJob, run, Judge(hash(b), Some(b)))
    ensures At(s, d, VerifyJob, run, Judge(hash(b), Some(b))) ==> end.rows[run].verification == Verified
  {
    QuietKeepsIntact(s, events, hash, run, d, b);
    VerifyStep(Run(s, events, hash), d, now, hash, run, b);
    VerifyStepKeeps(Run(s, events, hash), d, now, hash, run, b);
  }

  /** The round trip: once a run is complete and its archive is at the target, a verification whose
      own reads succeed marks it verified, whatever other jobs do between its steps, as long as
      nothing writes or erases that object. */
  lemma VerifyRoundTrip(s: System, before: seq<Event>, loaded: System, between: seq<Event>, read: System,
                        after: seq<Event>, end: System, hash: Bytes -> string, run: Id, d: nat, b: Bytes, now: int)
    requires Slashless(s) && Intact(s, run, b, hash) && At(s, d, VerifyJob, run, LoadRun)
    requires Leads(s, before, d, now, hash, run, loaded)
    requires Leads(loaded, between, d, now, hash, run, read)
    requires Leads(read, after, d, now, hash, run, end)
    ensures run in end.rows && end.rows[run].verification == Verified
  {
    VerifyLeads(s, before, d, now, hash, run, b, loaded);
    VerifyLeads(loaded, between, d, now, hash, run, b, read);
    VerifyLeads(read, after, d, now, hash, run, b, end);
  }

  /** The target holds these bytes for the run. */
  predicate Holding(s: System, run: Id, b: Bytes) {
    run in s.rows && var key := Key(s.rows[run].plan, run); key in s.target && s.target[key] == b
  }

  lemma UploadPuts(s: System, hash: Bytes -> string, run: Id, d: nat, b: Bytes, now: int)
    requires run in s.rows && At(s, d, BackupJob, run, Upload(b))
    requires var path := ArchivePath(s.rows[run].plan, run); path in s.disk && s.disk[path] == b
    ensures var next := Step(s, Do(d, Fine, now), hash);
            At(next, d, BackupJob, run, Complete(b)) && Holding(next, run, b)
  {
  }

  lemma CompleteFinishes(s: System, hash: Bytes -> string, run: Id, d: nat, b: Bytes, now: int)
    requires Holding(s, run, b) && At(s, d, BackupJob, run, Complete(b)) && s.rows[run].state.Running?
    ensures var next := Step(s, Do(d, Fine, now), hash);
            Intact(next, run, b, hash) && At(next, d, BackupJob, run, Closing)
  {
  }

  /** The other half: an upload of the delivery's own archive followed by its completion makes the
      run intact, if the record was still running then and no other step touched the object. */
  lemma UploadThenComplete(s: System, between: seq<Event>, hash: Bytes -> string, run: Id, d: nat, b: Bytes, now: int)
    requires Slashless(s) && run in s.rows && At(s, d, BackupJob, run, Upload(b))
    requires var path := ArchivePath(s.rows[run].plan, run); path in s.disk && s.disk[path] == b
    requires Quiet(Step(s, Do(d, Fine, now), hash), between, hash, run, d)
    requires var done := Run(Step(s, Do(d, Fine, now), hash), between, hash);
             run in done.rows && done.rows[run].state.Running?
    ensures var end := Step(Run(Step(s, Do(d, Fine, now), hash), between, hash), Do(d, Fine, now), hash);
            Intact(end, run, b, hash) && At(end, d, BackupJob, run, Closing)
  {
    var s1 := Step(s, Do(d, Fine, now), hash);
    StaysSlashless(s, Do(d, Fine, now), hash);
    UploadPuts(s, hash, run, d, b, now);
    QuietKeepsArchive(s1, between, hash, run, d);
    CompleteFinishes(Run(s1, between, hash), hash, run, d, b, now);
  }

  // ------------------------------------------------------------- when the archive stays

  /** An attempt of a backup of the run. */
  predicate Backs(s: System, d: nat, run: Id) {
    d in s.deliveries && s.deliveries[d].job.BackupJob? && s.deliveries[d].run == run
  }

  /** It can still archive; without the lease only if that step has begun. */
  predicate CanArchive(s: System, d: nat, run: Id) {
    Backs(s, d, run) && var pc := s.deliveries[d].pc; pc.Archive? || (Holds(s, d) && (pc.MarkRunning? || pc.BeginArchive?))
  }

  /** It has archived and can still upload; without the lease only if that step has begun. */
  predicate CanUpload(s: System, d: nat, run: Id) {
    Backs(s, d, run) && var pc := s.deliveries[d].pc; pc.Upload? || (Holds(s, d) && pc.BeginUpload?)
  }

  /** It has the lease and will archive anew, then upload. */
  predicate CanRedo(s: System, d: nat, run: Id) {
    CanArchive(s, d, run) && Holds(s, d)
  }

  /** An attempt of a delete of the run that can still erase. */
  predicate CanErase(s: System, d: nat, run: Id) {
    && d in s.deliveries && s.deliveries[d].job.DeleteJob? && s.deliveries[d].run == run
    && (s.deliveries[d].pc.Erase? || (Holds(s, d) && s.deliveries[d].pc.BeginErase?))
  }

  /** A backup or delete job of the run can still be attempted. */
  predicate TaskMayBreak(s: System, task: nat, run: Id) {
    task in s.tasks && s.tasks[task].run == run && !s.tasks[task].job.VerifyJob? && s.tasks[task].left > 0
  }

  /** There is a file for the run other than the given archive. */
  predicate OtherFile(s: System, run: Id, b: Bytes) {
    run in s.rows && var path := ArchivePath(s.rows[run].plan, run); path in s.disk && s.disk[path] != b
  }

  /** Everything that can still put other bytes at the run's object, or erase it. */
  ghost predicate MayBreak(s: System, run: Id, b: Bytes) {
    || (exists t :: TaskMayBreak(s, t, run))
    || (exists d :: CanErase(s, d, run))
    || (exists d :: CanRedo(s, d, run))
    || ((exists d :: CanUpload(s, d, run)) && (OtherFile(s, run, b) || exists e :: CanArchive(s, e, run)))
  }

  lemma PathInjective(p: Id, r: Id, q: Id, u: Id)
    requires '/' !in p && '/' !in q && ArchivePath(p, r) == ArchivePath(q, u)
    ensures p == q && r == u
  {
    var root := "/var/lib/jawaker/backups/";
    assert ArchivePath(p, r) == root + Key(p, r) && ArchivePath(q, u) == root + Key(q, u);
    assert (root + Key(p, r))[|root|..] == Key(p, r) && (root + Key(q, u))[|root|..] == Key(q, u);
    KeyInjective(p, r, q, u);
  }

  lemma EffectOnDisk(n: Effect, job: Job, run: Id, e: Event, hash: Bytes -> string, path: string)
    requires path == ArchivePath(n.row.plan, run) ==> !(job.BackupJob? && n.pc.Archive?)
    ensures SameAt(n.disk, EffectOf(n, job, run, e, hash).disk, path)
  {
    if e.Do? && !n.pc.Closing? {
      match job
      case BackupJob => BackupFrames(n, run, e.reply, e.now, hash);
      case VerifyJob => VerifyFrame(n, run, e.reply, hash);
      case DeleteJob => DeleteFrame(n, run, e.reply);
    }
  }

  /** Only the archive step of a run's own backup touches its archive file. */
  lemma DiskApart(s: System, e: Event, hash: Bytes -> string, run: Id)
    requires Slashless(s) && run in s.rows
    requires Acts(s, e) && s.deliveries[e.d].run == run ==> !(s.deliveries[e.d].job.BackupJob? && s.deliveries[e.d].pc.Archive?)
    ensures SameAt(s.disk, Step(s, e, hash).disk, ArchivePath(s.rows[run].plan, run))
  {
    if Acts(s, e) {
      var other := s.deliveries[e.d].run;
      if ArchivePath(s.rows[other].plan, other) == ArchivePath(s.rows[run].plan, run) {
        PathInjective(s.rows[other].plan, other, s.rows[run].plan, run);
      }
      EffectOnDisk(Now(s, e.d), s.deliveries[e.d].job, other, e, hash, ArchivePath(s.rows[run].plan, run));
    }
  }

  lemma TargetStays(s: System, e: Event, hash: Bytes -> string, run: Id, b: Bytes)
    requires Slashless(s) && Intact(s, run, b, hash)
    requires e.Deliver? || (!CanErase(s, e.d, run) && (CanUpload(s, e.d, run) ==> !OtherFile(s, run, b)))
    ensures var key := Key(s.rows[run].plan, run);
            key in Step(s, e, hash).target && Step(s, e, hash).target[key] == b
  {
    ObjectsApart(s, e, hash, run);
    if TouchesArchive(s, e, run) {
      var plan := s.rows[run].plan;
      ManifestApart(plan, run, plan, run);
    }
  }

  /** What a backup step makes of a pc: nothing gets ahead without the lease. */
  lemma BackupStaysBehind(pc: Pc, reply: Reply, holds: bool, running: bool)
    ensures var next := BackupPc(pc, reply, holds, running);
            next != pc ==>
              && (next.Archive? ==> holds && pc.BeginArchive?)
              && (next.Upload? ==> holds && pc.BeginUpload?)
              && (next.BeginArchive? ==> pc.MarkRunning?)
              && (next.BeginUpload? ==> pc.Archive?)
              && !next.MarkRunning?
  {
  }

  lemma DeleteStaysBehind(n: Effect, run: Id, reply: Reply)
    ensures var pc := DeleteEffect(n, run, reply).pc;
            pc != n.pc ==> (pc.Erase? ==> n.holds && n.pc.BeginErase?) && !pc.BeginErase?
  {
  }

  /** What a step makes of a pc. */
  lemma EffectStaysBehind(n: Effect, job: Job, run: Id, e: Event, hash: Bytes -> string)
    ensures var pc := EffectOf(n, job, run, e, hash).pc;
            && (job.BackupJob? && pc.Archive? ==> n.pc.Archive? || (n.holds && n.pc.BeginArchive?))
            && (job.BackupJob? && pc.Upload? ==> n.pc.Upload? || (n.holds && n.pc.BeginUpload?))
            && (job.BackupJob? && (pc.MarkRunning? || pc.BeginArchive?) ==>
                  n.pc.MarkRunning? || n.pc.BeginArchive?)
            && (job.BackupJob? && pc.BeginUpload? ==> n.pc.BeginUpload? || n.pc.Archive?)
            && (job.DeleteJob? && pc.Erase? ==> n.pc.Erase? || (n.holds && n.pc.BeginErase?))
            && (job.DeleteJob? && pc.BeginErase? ==> n.pc.BeginErase?)
  {
    if e.Do? && !n.pc.Closing? && job.BackupJob? {
      BackupStaysBehind(n.pc, e.reply, n.holds, n.row.state.Running?);
    } else if e.Do? && !n.pc.Closing? && job.DeleteJob? {
      DeleteStaysBehind(n, run, e.reply);
    }
  }

  /** A lease is never regained. */
  lemma LeaseNotRegained(s: System, e: Event, hash: Bytes -> string, d: nat)
    requires d in s.deliveries && Holds(Step(s, e, hash), d)
    ensures Holds(s, d)
  {
  }

  /** After a step, an old delivery can do only what it could do before. */
  lemma OldStaysBehind(s: System, e: Event, hash: Bytes -> string, run: Id, d: nat)
    requires run in s.rows && d in s.deliveries && !CanRedo(s, d, run)
    ensures var next := Step(s, e, hash);
            && !CanRedo(next, d, run)
            && (CanArchive(next, d, run) ==> CanArchive(s, d, run))
            && (CanUpload(next, d, run) ==> CanUpload(s, d, run))
            && (CanErase(next, d, run) ==> CanErase(s, d, run))
  {
    var next := Step(s, e, hash);
    if Holds(next, d) {
      LeaseNotRegained(s, e, hash, d);
    }
    if Acts(s, e) && d == e.d {
      EffectStaysBehind(Now(s, d), s.deliveries[d].job, s.deliveries[d].run, e, hash);
    }
  }

  /** And a new one of a job without attempts left for the run does not appear. */
  lemma NewIsHarmless(s: System, e: Event, hash: Bytes -> string, run: Id, d: nat)
    requires d !in s.deliveries && (e.Deliver? ==> !TaskMayBreak(s, e.task, run))
    ensures var next := Step(s, e, hash);
            !CanRedo(next, d, run) && !CanArchive(next, d, run) && !CanUpload(next, d, run) && !CanErase(next, d, run)
  {
  }

  lemma StaysBehind(s: System, e: Event, hash: Bytes -> string, run: Id, b: Bytes, d: nat)
    requires run in s.rows && !MayBreak(s, run, b)
    ensures var next := Step(s, e, hash);
            && !CanRedo(next, d, run) && !CanErase(next, d, run)
            && (CanArchive(next, d, run) ==> CanArchive(s, d, run))
            && (CanUpload(next, d, run) ==> CanUpload(s, d, run))
  {
    assert !CanErase(s, d, run) && !CanRedo(s, d, run);
    if d in s.deliveries {
      OldStaysBehind(s, e, hash, run, d);
    } else {
      if e.Deliver? {
        assert !TaskMayBreak(s, e.task, run);
      }
      NewIsHarmless(s, e, hash, run, d);
    }
  }

  /** Without an attempt that archives, the file stays as it is. */
  lemma FileStays(s: System, e: Event, hash: Bytes -> string, run: Id, b: Bytes)
    requires Slashless(s) && run in s.rows && !OtherFile(s, run, b) && !CanArchive(s, e.d, run)
    ensures !OtherFile(Step(s, e, hash), run, b)
  {
    StepMoves(s, e, hash, run);
    DiskApart(s, e, hash, run);
  }

  lemma TasksStayHarmless(s: System, e: Event, hash: Bytes -> string, run: Id, t: nat)
    requires !TaskMayBreak(s, t, run)
    ensures !TaskMayBreak(Step(s, e, hash), t, run)
  {
  }

  lemma BreakersStayAway(s: System, e: Event, hash: Bytes -> string, run: Id, b: Bytes)
    requires Slashless(s) && run in s.rows && !MayBreak(s, run, b)
    ensures !MayBreak(Step(s, e, hash), run, b)
  {
    var next := Step(s, e, hash);
    forall d
      ensures !CanRedo(next, d, run) && !CanErase(next, d, run)
      ensures CanArchive(next, d, run) ==> CanArchive(s, d, run)
      ensures CanUpload(next, d, run) ==> CanUpload(s, d, run)
    {
      StaysBehind(s, e, hash, run, b, d);
    }
    forall t
      ensures !TaskMayBreak(next, t, run)
    {
      assert !TaskMayBreak(s, t, run);
      TasksStayHarmless(s, e, hash, run, t);
    }
    if d :| CanUpload(next, d, run) {
      assert CanUpload(s, d, run) && !CanArchive(s, e.d, run);
      FileStays(s, e, hash, run, b);
    }
  }

  lemma IntactStep(s: System, e: Event, hash: Bytes -> string, run: Id, b: Bytes)
    requires Slashless(s) && Intact(s, run, b, hash) && !MayBreak(s, run, b)
    ensures var next := Step(s, e, hash); Slashless(next) && Intact(next, run, b, hash) && !MayBreak(next, run, b)
  {
    assert !CanErase(s, e.d, run) && (CanUpload(s, e.d, run) ==> !OtherFile(s, run, b));
    StaysSlashless(s, e, hash);
    StepMoves(s, e, hash, run);
    HashKept(s, e, hash, run, hash(b));
    TargetStays(s, e, hash, run, b);
    BreakersStayAway(s, e, hash, run, b);
  }

  lemma {:induction false} IntactRun(s: System, events: seq<Event>, hash: Bytes -> string, run: Id, b: Bytes)
    requires Slashless(s) && Intact(s, run, b, hash) && !MayBreak(s, run, b)
    ensures var end := Run(s, events, hash); Slashless(end) && Intact(end, run, b, hash) && !MayBreak(end, run, b)
    decreases |events|
  {
    if events != [] {
      IntactStep(s, events[0], hash, run, b);
      IntactRun(Step(s, events[0], hash), events[1..], hash, run, b);
    }
  }

  lemma {:induction false} RestKeepsDelivery(s: System, events: seq<Event>, hash: Bytes -> string, d: nat)
    requires d in s.deliveries && forall i :: 0 <= i < |events| ==> events[i].d != d
    ensures d in Run(s, events, hash).deliveries && Run(s, events, hash).deliveries[d] == s.deliveries[d]
    decreases |events|
  {
    if events != [] {
      assert events[0].d != d;
      RestKeepsDelivery(Step(s, events[0], hash), events[1..], hash, d);
    }
  }

  /** Anything may happen while delivery d rests, then d takes its next step with a good answer. */
  lemma VerifyGoesOn(s: System, events: seq<Event>, d: nat, now: int, hash: Bytes -> string, run: Id, b: Bytes)
    requires Slashless(s) && Intact(s, run, b, hash) && !MayBreak(s, run, b)
    requires d in s.deliveries && forall i :: 0 <= i < |events| ==> events[i].d != d
    ensures var end := Step(Run(s, events, hash), Do(d, Fine, now), hash);
            && Slashless(end) && Intact(end, run, b, hash) && !MayBreak(end, run, b)
            && (At(s, d, VerifyJob, run, LoadRun) ==> At(end, d, VerifyJob, run, Fetch(hash(b))))
            && (At(s, d, VerifyJob, run, Fetch(hash(b))) ==> At(end, d, VerifyJob, run, Judge(hash(b), Some(b))))
            && (At(s, d, VerifyJob, run, Judge(hash(b), Some(b))) ==> end.rows[run].verification == Verified)
  {
    var mid := Run(s, events, hash);
    RestKeepsDelivery(s, events, hash, d);
    IntactRun(s, events, hash, run, b);
    VerifyStep(mid, d, now, hash, run, b);
    IntactStep(mid, Do(d, Fine, now), hash, run, b);
  }

  lemma VerifyLoaded(s: System, between: seq<Event>, after: seq<Event>, hash: Bytes -> string, run: Id, d: nat, b: Bytes,
                     now: int)
    requires Slashless(s) && Intact(s, run, b, hash) && !MayBreak(s, run, b)
    requires At(s, d, VerifyJob, run, Fetch(hash(b))) && forall e :: e in between || e in after ==> e.d != d
    ensures var read := Step(Run(s, between, hash), Do(d, Fine, now), hash);
            var end := Step(Run(read, after, hash), Do(d, Fine, now), hash);
            run in end.rows && end.rows[run].verification == Verified && Intact(end, run, b, hash)
  {
    VerifyGoesOn(s, between, d, now, hash, run, b);
    var read := Step(Run(s, between, hash), Do(d, Fine, now), hash);
    VerifyGoesOn(read, after, d, now, hash, run, b);
  }

  /** So, once no job of the run may break its archive, a verification whose own reads succeed marks it
      verified, whatever else happens between its steps. */
  lemma VerifyAfterJobs(s: System, before: seq<Event>, between: seq<Event>, after: seq<Event>,
                        hash: Bytes -> string, run: Id, d: nat, b: Bytes, now: int)
    requires Slashless(s) && Intact(s, run, b, hash) && !MayBreak(s, run, b)
    requires At(s, d, VerifyJob, run, LoadRun)
    requires forall e :: e in before || e in between || e in after ==> e.d != d
    ensures var loaded := Step(Run(s, before, hash), Do(d, Fine, now), hash);
            var read := Step(Run(loaded, between, hash), Do(d, Fine, now), hash);
            var end := Step(Run(read, after, hash), Do(d, Fine, now), hash);
            run in end.rows && end.rows[run].verification == Verified && Intact(end, run, b, hash)
  {
    var loaded := Step(Run(s, before, hash), Do(d, Fine, now), hash);
    VerifyGoesOn(s, before, d, now, hash, run, b);
    VerifyLoaded(loaded, between, after, hash, run, d, b, now);
  }

  /** A backup that closes successfully leaves its run safe, if no other attempt can upload, redo or
      erase, and no other job of the run can be attempted. */
  lemma SuccessLeavesSafe(s: System, hash: Bytes -> string, run: Id, d: nat, b: Bytes, now: int)
    requires Slashless(s) && Intact(s, run, b, hash) && At(s, d, BackupJob, run, Closing)
    requires forall c :: c != d ==> !CanUpload(s, c, run) && !CanRedo(s, c, run) && !CanErase(s, c, run)
    requires forall t :: t != s.deliveries[d].task ==> !TaskMayBreak(s, t, run)
    ensures var end := Step(s, Do(d, Fine, now), hash); Intact(end, run, b, hash) && !MayBreak(end, run, b)
  {
    var end := Step(s, Do(d, Fine, now), hash);
    assert end.rows == s.rows && end.disk == s.disk && end.target == s.target;
    forall c
      ensures !CanUpload(end, c, run) && !CanRedo(end, c, run) && !CanErase(end, c, run)
    {
      if c in s.deliveries {
        OldStaysBehind(s, Do(d, Fine, now), hash, run, c);
      } else {
        NewIsHarmless(s, Do(d, Fine, now), hash, run, c);
      }
    }
    forall t
      ensures !TaskMayBreak(end, t, run)
    {
      if t != s.deliveries[d].task {
        TasksStayHarmless(s, Do(d, Fine, now), hash, run, t);
      }
    }
  }

  lemma RunCons(s: System, e: Event, rest: seq<Event>, hash: Bytes -> string)
    ensures Run(s, [e] + rest, hash) == Run(Step(s, e, hash), rest, hash)
  {
    assert ([e] + rest)[1..] == rest;
  }

  /** The record of a completed run is as it was, and its object holds other bytes. */
  predicate Replaced(s: System, end: System, run: Id, other: Bytes) {
    && run in s.rows && run in end.rows && end.rows[run] == s.rows[run]
    && Key(s.rows[run].plan, run) in end.target && end.target[Key(s.rows[run].plan, run)] == other
  }

  predicate IsComplete(s: System, run: Id) {
    run in s.rows && s.rows[run].state.Completed?
  }

  /** The delivery is at `pc` of a backup of the run. */
  predicate BacksAt(s: System, d: nat, run: Id, pc: Pc) {
    Backs(s, d, run) && s.deliveries[d].pc == pc
  }

  predicate HasFile(s: System, run: Id, other: Bytes) {
    run in s.rows && var path := ArchivePath(s.rows[run].plan, run); path in s.disk && s.disk[path] == other
  }

  lemma ReplaceAtUpload(s: System, hash: Bytes -> string, run: Id, d: nat, other: Bytes) returns (events: seq<Event>)
    requires IsComplete(s, run) && Backs(s, d, run) && s.deliveries[d].pc.Upload? && HasFile(s, run, other)
    ensures Replaced(s, Run(s, events, hash), run, other)
  {
    events := [Do(d, Fine, 0)] + [];
    RunCons(s, Do(d, Fine, 0), [], hash);
  }

  lemma ReplaceByUpload(s: System, hash: Bytes -> string, run: Id, d: nat, other: Bytes) returns (events: seq<Event>)
    requires IsComplete(s, run) && CanUpload(s, d, run) && HasFile(s, run, other)
    ensures Replaced(s, Run(s, events, hash), run, other)
  {
    if s.deliveries[d].pc.Upload? {
      events := ReplaceAtUpload(s, hash, run, d, other);
    } else {
      var e := Do(d, Fine, 0);
      var rest := ReplaceAtUpload(Step(s, e, hash), hash, run, d, other);
      events := [e] + rest;
      RunCons(s, e, rest, hash);
    }
  }

  /** Archiving replaces the file; the attempt itself is then before its upload. */
  lemma ArchiveWrites(s: System, hash: Bytes -> string, run: Id, d: nat, other: Bytes)
    requires IsComplete(s, run) && BacksAt(s, d, run, Archive)
    ensures var next := Step(s, Do(d, Produced(other), 0), hash);
            && IsComplete(next, run) && next.rows == s.rows && HasFile(next, run, other)
            && BacksAt(next, d, run, BeginUpload(other)) && (Holds(s, d) ==> Holds(next, d))
            && (forall c :: c != d && CanUpload(s, c, run) ==> CanUpload(next, c, run))
  {
  }

  /** An attempt that can upload does so with the file another attempt has just archived. */
  lemma ReplaceByBoth(s: System, hash: Bytes -> string, run: Id, d: nat, c: nat, other: Bytes) returns (events: seq<Event>)
    requires IsComplete(s, run) && CanUpload(s, c, run) && BacksAt(s, d, run, Archive)
    ensures Replaced(s, Run(s, events, hash), run, other)
  {
    var e := Do(d, Produced(other), 0);
    ArchiveWrites(s, hash, run, d, other);
    var rest := ReplaceByUpload(Step(s, e, hash), hash, run, c, other);
    events := [e] + rest;
    RunCons(s, e, rest, hash);
  }

  lemma RedoAtArchive(s: System, hash: Bytes -> string, run: Id, d: nat, other: Bytes) returns (events: seq<Event>)
    requires IsComplete(s, run) && BacksAt(s, d, run, Archive) && Holds(s, d)
    ensures Replaced(s, Run(s, events, hash), run, other)
  {
    var e := Do(d, Produced(other), 0);
    ArchiveWrites(s, hash, run, d, other);
    var rest := ReplaceByUpload(Step(s, e, hash), hash, run, d, other);
    events := [e] + rest;
    RunCons(s, e, rest, hash);
  }

  lemma RedoAtBegin(s: System, hash: Bytes -> string, run: Id, d: nat, other: Bytes) returns (events: seq<Event>)
    requires IsComplete(s, run) && BacksAt(s, d, run, BeginArchive) && Holds(s, d)
    ensures Replaced(s, Run(s, events, hash), run, other)
  {
    var e := Do(d, Fine, 0);
    var rest := RedoAtArchive(Step(s, e, hash), hash, run, d, other);
    events := [e] + rest;
    RunCons(s, e, rest, hash);
  }

  lemma RedoAtStart(s: System, hash: Bytes -> string, run: Id, d: nat, other: Bytes) returns (events: seq<Event>)
    requires IsComplete(s, run) && BacksAt(s, d, run, MarkRunning) && Holds(s, d)
    ensures Replaced(s, Run(s, events, hash), run, other)
  {
    var e := Do(d, Fine, 0);
    var rest := RedoAtBegin(Step(s, e, hash), hash, run, d, other);
    events := [e] + rest;
    RunCons(s, e, rest, hash);
  }

  lemma Redo(s: System, hash: Bytes -> string, run: Id, d: nat, other: Bytes) returns (events: seq<Event>)
    requires IsComplete(s, run) && CanRedo(s, d, run)
    ensures Replaced(s, Run(s, events, hash), run, other)
  {
    if s.deliveries[d].pc.Archive? {
      events := RedoAtArchive(s, hash, run, d, other);
    } else if s.deliveries[d].pc.BeginArchive? {
      events := RedoAtBegin(s, hash, run, d, other);
    } else {
      events := RedoAtStart(s, hash, run, d, other);
    }
  }

  /** Attempting a backup job again after its run completed replaces the object with a new archive,
      while the record keeps describing the old one. */
  lemma RedeliveryReplacesArchive(s: System, hash: Bytes -> string, run: Id, task: nat, other: Bytes)
    returns (events: seq<Event>)
    requires IsComplete(s, run) && TaskMayBreak(s, task, run) && s.tasks[task].job.BackupJob?
    ensures Replaced(s, Run(s, events, hash), run, other)
  {
    var d := FreshAbove(s.deliveries);
    assert d !in s.deliveries;
    var e := Deliver(d, task);
    var rest := RedoAtStart(Step(s, e, hash), hash, run, d, other);
    events := [e] + rest;
    RunCons(s, e, rest, hash);
  }

  /** The record is as it was and the object is gone. */
  predicate Erased(s: System, end: System, run: Id) {
    run in s.rows && run in end.rows && end.rows[run] == s.rows[run] && Key(s.rows[run].plan, run) !in end.target
  }

  lemma EraseNow(s: System, hash: Bytes -> string, run: Id, d: nat) returns (events: seq<Event>)
    requires run in s.rows && At(s, d, DeleteJob, run, Erase)
    ensures Erased(s, Run(s, events, hash), run)
  {
    events := [Do(d, Fine, 0)] + [];
    RunCons(s, Do(d, Fine, 0), [], hash);
  }

  lemma EraseByAttempt(s: System, hash: Bytes -> string, run: Id, d: nat) returns (events: seq<Event>)
    requires run in s.rows && CanErase(s, d, run)
    ensures Erased(s, Run(s, events, hash), run)
  {
    if s.deliveries[d].pc.Erase? {
      events := EraseNow(s, hash, run, d);
    } else {
      var e := Do(d, Fine, 0);
      var rest := EraseNow(Step(s, e, hash), hash, run, d);
      events := [e] + rest;
      RunCons(s, e, rest, hash);
    }
  }

  /** Attempting a delete job erases the archive object of its run. */
  lemma DeletionErasesArchive(s: System, hash: Bytes -> string, run: Id, task: nat) returns (events: seq<Event>)
    requires run in s.rows && TaskMayBreak(s, task, run) && s.tasks[task].job.DeleteJob?
    ensures Erased(s, Run(s, events, hash), run)
  {
    var d := FreshAbove(s.deliveries);
    assert d !in s.deliveries;
    var e := Deliver(d, task);
    var rest := EraseByAttempt(Step(s, e, hash), hash, run, d);
    events := [e] + rest;
    RunCons(s, e, rest, hash);
  }

  lemma TaskBreaks(s: System, hash: Bytes -> string, run: Id, task: nat, b: Bytes) returns (events: seq<Event>)
    requires IsComplete(s, run) && TaskMayBreak(s, task, run)
    ensures !Intact(Run(s, events, hash), run, b, hash)
  {
    if s.tasks[task].job.DeleteJob? {
      events := DeletionErasesArchive(s, hash, run, task);
    } else {
      var other := b + "x";
      assert |other| != |b|;
      events := RedeliveryReplacesArchive(s, hash, run, task, other);
    }
  }

  lemma UploadBreaks(s: System, hash: Bytes -> string, run: Id, c: nat, b: Bytes) returns (events: seq<Event>)
    requires IsComplete(s, run) && CanUpload(s, c, run) && (OtherFile(s, run, b) || exists e :: CanArchive(s, e, run))
    ensures !Intact(Run(s, events, hash), run, b, hash)
  {
    var other := b + "x";
    assert |other| != |b|;
    if OtherFile(s, run, b) {
      events := ReplaceByUpload(s, hash, run, c, s.disk[ArchivePath(s.rows[run].plan, run)]);
    } else {
      var e :| CanArchive(s, e, run);
      if Holds(s, e) {
        events := Redo(s, hash, run, e, other);
      } else {
        events := ReplaceByBoth(s, hash, run, e, c, other);
      }
    }
  }

  lemma Breaks(s: System, hash: Bytes -> string, run: Id, b: Bytes) returns (events: seq<Event>)
    requires IsComplete(s, run) && MayBreak(s, run, b)
    ensures !Intact(Run(s, events, hash), run, b, hash)
  {
    if t :| TaskMayBreak(s, t, run) {
      events := TaskBreaks(s, hash, run, t, b);
    } else if d :| CanErase(s, d, run) {
      events := EraseByAttempt(s, hash, run, d);
    } else if d :| CanRedo(s, d, run) {
      var other := b + "x";
      assert |other| != |b|;
      events := Redo(s, hash, run, d, other);
    } else {
      var c :| CanUpload(s, c, run);
      events := UploadBreaks(s, hash, run, c, b);
    }
  }

  /** The archive a completed record describes stays at the target in every continuation exactly when no
      backup or delete job of the run has an attempt left; no attempt with the lease has yet to archive
      or erase, and none is erasing; and, if an attempt can still upload, the file is that archive and no
      stale attempt is archiving. */
  lemma IntactExactly(s: System, hash: Bytes -> string, run: Id, b: Bytes)
    requires Slashless(s) && Intact(s, run, b, hash)
    ensures (forall events :: Intact(Run(s, events, hash), run, b, hash)) <==> !MayBreak(s, run, b)
  {
    if MayBreak(s, run, b) {
      var events := Breaks(s, hash, run, b);
      assert !Intact(Run(s, events, hash), run, b, hash);
    } else {
      forall events
        ensures Intact(Run(s, events, hash), run, b, hash)
      {
        IntactRun(s, events, hash, run, b);
      }
    }
  }
}

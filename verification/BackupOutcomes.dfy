/** What each backup, verify and delete attempt comes to: the record, the files and the objects after
    its own steps, good and bad. */
module BackupOutcomes {
  import opened Text
  import opened RunStates
  import opened BackupRuns

  /** The file of run "r" of plan "p" on the node, and its objects at the target. */
  lemma Spellings()
    ensures ArchivePath("p", "r") == "/var/lib/jawaker/backups/p/r.tar.gz"
    ensures Key("p", "r") == "p/r.tar.gz" && ManifestKey("p", "r") == "p/r.tar.gz.manifest"
  {
  }

  // ------------------------------------------------------------- verify

  lemma FetchReads(s: System, hash: Bytes -> string, run: Id, d: nat, sha: string, reply: Reply, now: int)
    requires run in s.rows && At(s, d, VerifyJob, run, Fetch(sha))
    ensures var next, key := Step(s, Do(d, reply, now), hash), Key(s.rows[run].plan, run);
            && next.rows == s.rows && next.target == s.target
            && At(next, d, VerifyJob, run, Judge(sha, if reply.Error? || key !in s.target then None else Some(s.target[key])))
  {
  }

  lemma JudgeMarks(s: System, hash: Bytes -> string, run: Id, d: nat, sha: string, got: Option<Bytes>, reply: Reply, now: int)
    requires run in s.rows && At(s, d, VerifyJob, run, Judge(sha, got))
    ensures var next := Step(s, Do(d, reply, now), hash);
            var good := got.Some? && hash(got.value) == sha;
            && run in next.rows
            && next.rows[run] == (if reply.Error? then s.rows[run]
                                  else s.rows[run].(verification := if good then Verified else VerifyFailed))
            && At(next, d, VerifyJob, run, if good then Closing else Stopped)
  {
  }

  lemma {:induction false} RestKeepsRun(s: System, events: seq<Event>, hash: Bytes -> string, run: Id)
    requires run in s.rows
    ensures run in Run(s, events, hash).rows
    decreases |events|
  {
    if events != [] {
      RestKeepsRun(Step(s, events[0], hash), events[1..], hash, run);
    }
  }

  /** The verdict of a verification, whatever happens around its two last steps.  If its mark can be
      written, the record is verified when the bytes it fetched have the hash it holds, and failed from
      every earlier mark when the target could not be read, had no such object, or had other bytes.
      Only a good verdict lets the job succeed, and nothing else of the record changes. */
  lemma VerdictExactly(s: System, between: seq<Event>, after: seq<Event>, hash: Bytes -> string, run: Id, d: nat,
                       sha: string, fetch: Reply, mark: Reply, t1: int, t2: int)
    requires run in s.rows && At(s, d, VerifyJob, run, Fetch(sha))
    requires forall e :: e in between || e in after ==> e.d != d
    ensures var seen := Run(s, between, hash);
            var was := Run(Step(seen, Do(d, fetch, t1), hash), after, hash);
            var end := Step(was, Do(d, mark, t2), hash);
            && run in seen.rows && run in was.rows && run in end.rows
            && var key := Key(seen.rows[run].plan, run);
               var good := !fetch.Error? && key in seen.target && hash(seen.target[key]) == sha;
               && (!mark.Error? ==> (end.rows[run].verification == Verified <==> good))
               && (!mark.Error? ==> (end.rows[run].verification == VerifyFailed <==> !good))
               && (mark.Error? ==> end.rows[run].verification == was.rows[run].verification)
               && end.rows[run].(verification := was.rows[run].verification) == was.rows[run]
               && (At(end, d, VerifyJob, run, Closing) <==> good)
               && (At(end, d, VerifyJob, run, Stopped) <==> !good)
  {
    var seen := Run(s, between, hash);
    var read := Step(seen, Do(d, fetch, t1), hash);
    var was := Run(read, after, hash);
    RestKeepsDelivery(s, between, hash, d);
    RestKeepsRun(s, between, hash, run);
    FetchReads(seen, hash, run, d, sha, fetch, t1);
    RestKeepsDelivery(read, after, hash, d);
    RestKeepsRun(read, after, hash, run);
    var key := Key(seen.rows[run].plan, run);
    JudgeMarks(was, hash, run, d, sha, if fetch.Error? || key !in seen.target then None else Some(seen.target[key]), mark, t2);
  }

  /** A verification takes the record's own hash with it, or stops when the record cannot be loaded. */
  lemma LoadTakesHash(s: System, hash: Bytes -> string, run: Id, d: nat, reply: Reply, now: int)
    requires run in s.rows && At(s, d, VerifyJob, run, LoadRun)
    ensures var next := Step(s, Do(d, reply, now), hash);
            && next.rows == s.rows && next.target == s.target && next.tasks == s.tasks
            && At(next, d, VerifyJob, run, if reply.Error? then Stopped else Fetch(s.rows[run].sha))
  {
  }

  /** The run has ended, with this plan and this hash. */
  predicate EndedWith(s: System, run: Id, plan: Id, sha: string) {
    run in s.rows && !Active(s.rows[run]) && s.rows[run].plan == plan && s.rows[run].sha == sha
  }

  lemma EndedStays(s: System, events: seq<Event>, e: Event, hash: Bytes -> string, run: Id, plan: Id, sha: string)
    requires EndedWith(s, run, plan, sha)
    ensures EndedWith(Run(s, events, hash), run, plan, sha) && EndedWith(Step(Run(s, events, hash), e, hash), run, plan, sha)
  {
    var mid := Run(s, events, hash);
    RecordOnlyGrows(s, events, hash, run);
    StepMoves(mid, e, hash, run);
    MovesGrow(mid.rows[run], Step(mid, e, hash).rows[run], run, hash);
  }

  /** So a whole verification of a run that has ended, once its record is loaded and its mark written,
      leaves it verified if and only if the object it read then has the hash on the record, whatever
      happens before, between and after its own steps. */
  lemma VerdictOnRecord(s: System, before: seq<Event>, between: seq<Event>, after: seq<Event>, hash: Bytes -> string,
                        run: Id, d: nat, load: Reply, fetch: Reply, mark: Reply, now: int)
    requires run in s.rows && !Active(s.rows[run]) && At(s, d, VerifyJob, run, LoadRun) && !load.Error? && !mark.Error?
    requires forall e :: e in before || e in between || e in after ==> e.d != d
    ensures var loaded := Step(Run(s, before, hash), Do(d, load, now), hash);
            var seen := Run(loaded, between, hash);
            var was := Run(Step(seen, Do(d, fetch, now), hash), after, hash);
            var end, key := Step(was, Do(d, mark, now), hash), Key(s.rows[run].plan, run);
            && EndedWith(end, run, s.rows[run].plan, s.rows[run].sha)
            && end.rows[run].verification
               == if !fetch.Error? && key in seen.target && hash(seen.target[key]) == s.rows[run].sha then Verified
                  else VerifyFailed
  {
    var plan, sha := s.rows[run].plan, s.rows[run].sha;
    var loaded := Step(Run(s, before, hash), Do(d, load, now), hash);
    EndedStays(s, before, Do(d, load, now), hash, run, plan, sha);
    RestKeepsDelivery(s, before, hash, d);
    LoadTakesHash(Run(s, before, hash), hash, run, d, load, now);
    VerdictExactly(loaded, between, after, hash, run, d, sha, fetch, mark, now, now);
    EndedStays(loaded, between, Do(d, fetch, now), hash, run, plan, sha);
    EndedStays(Step(Run(loaded, between, hash), Do(d, fetch, now), hash), after, Do(d, mark, now), hash, run, plan, sha);
  }

  // ------------------------------------------------------------- the end of an attempt

  /** A stopped attempt never does anything again. */
  lemma StoppedDoesNothing(s: System, hash: Bytes -> string, d: nat, reply: Reply, now: int)
    requires d in s.deliveries && s.deliveries[d].pc.Stopped?
    ensures Step(s, Do(d, reply, now), hash) == s && Step(s, Crash(d), hash) == s
  {
    if Known(s, d) {
      assert s.rows[s.deliveries[d].run := s.rows[s.deliveries[d].run]] == s.rows;
      assert s.deliveries[d := s.deliveries[d].(pc := Stopped)] == s.deliveries;
      CrashStops(s, hash, d);
    }
  }

  /** A lost worker leaves everything as it was, but for its own attempt. */
  lemma CrashStops(s: System, hash: Bytes -> string, d: nat)
    requires Known(s, d)
    ensures Step(s, Crash(d), hash) == s.(deliveries := s.deliveries[d := s.deliveries[d].(pc := Stopped)])
  {
  }

  /** Reporting success uses up the job's attempts; a report that fails leaves them. */
  lemma ClosingSettles(s: System, hash: Bytes -> string, d: nat, reply: Reply, now: int)
    requires Known(s, d) && s.deliveries[d].pc.Closing? && s.deliveries[d].task in s.tasks
    ensures var end, task := Step(s, Do(d, reply, now), hash), s.deliveries[d].task;
            && end.rows == s.rows && end.disk == s.disk && end.target == s.target
            && d in end.deliveries && end.deliveries[d].pc.Stopped?
            && end.tasks == (if reply.Error? then s.tasks else s.tasks[task := s.tasks[task].(left := 0)])
  {
  }

  // ------------------------------------------------------------- backup

  /** One step of a backup attempt as it should go: the record, the file and the object it leaves. */
  ghost predicate Goes(s: System, e: Event, hash: Bytes -> string, run: Id, row: Row, disk: map<string, Bytes>,
                       target: map<string, Bytes>, pc: Pc)
    requires e.Do?
  {
    var next := Step(s, e, hash);
    && next.rows == s.rows[run := row] && next.disk == disk && next.target == target && next.tasks == s.tasks
    && next.holder == s.holder && At(next, e.d, BackupJob, run, pc) && next.deliveries[e.d].task == s.deliveries[e.d].task
  }

  lemma StartGoes(s: System, hash: Bytes -> string, run: Id, d: nat, now: int)
    requires run in s.rows && At(s, d, BackupJob, run, MarkRunning) && s.rows[run].state.Queued?
    ensures Goes(s, Do(d, Fine, now), hash, run, s.rows[run].(state := Running, startedAt := Some(now)), s.disk, s.target,
                 BeginArchive)
  {
  }

  lemma BeginGoes(s: System, hash: Bytes -> string, run: Id, d: nat, now: int)
    requires run in s.rows && At(s, d, BackupJob, run, BeginArchive) && Holds(s, d)
    ensures Goes(s, Do(d, Fine, now), hash, run, s.rows[run], s.disk, s.target, Archive)
  {
  }

  lemma ArchiveGoes(s: System, hash: Bytes -> string, run: Id, d: nat, b: Bytes, now: int)
    requires run in s.rows && At(s, d, BackupJob, run, Archive)
    ensures Goes(s, Do(d, Produced(b), now), hash, run, s.rows[run],
                 s.disk[ArchivePath(s.rows[run].plan, run) := b], s.target, BeginUpload(b))
  {
  }

  lemma NextGoes(s: System, hash: Bytes -> string, run: Id, d: nat, b: Bytes, now: int)
    requires run in s.rows && At(s, d, BackupJob, run, BeginUpload(b)) && Holds(s, d)
    ensures Goes(s, Do(d, Fine, now), hash, run, s.rows[run], s.disk, s.target, Upload(b))
  {
  }

  /** The file the controller can read is what it uploads. */
  lemma UploadGoes(s: System, hash: Bytes -> string, run: Id, d: nat, b: Bytes, reply: Reply, now: int)
    requires run in s.rows && At(s, d, BackupJob, run, Upload(b)) && !reply.Error? && !reply.Unreadable?
    requires ArchivePath(s.rows[run].plan, run) in s.disk
    ensures var plan := s.rows[run].plan;
            Goes(s, Do(d, reply, now), hash, run, s.rows[run], s.disk,
                 s.target[Key(plan, run) := s.disk[ArchivePath(plan, run)]], Complete(b))
  {
  }

  /** Without one it uploads a manifest. */
  lemma ManifestGoes(s: System, hash: Bytes -> string, run: Id, d: nat, b: Bytes, reply: Reply, now: int)
    requires run in s.rows && At(s, d, BackupJob, run, Upload(b)) && !reply.Error?
    requires reply.Unreadable? || ArchivePath(s.rows[run].plan, run) !in s.disk
    ensures Goes(s, Do(d, reply, now), hash, run, s.rows[run], s.disk,
                 s.target[ManifestKey(s.rows[run].plan, run) := "{}"], Complete(b))
  {
  }

  lemma CompleteGoes(s: System, hash: Bytes -> string, run: Id, d: nat, b: Bytes, now: int)
    requires run in s.rows && At(s, d, BackupJob, run, Complete(b)) && s.rows[run].state.Running?
    ensures Goes(s, Do(d, Fine, now), hash, run,
                 s.rows[run].(state := Completed, archivePath := ArchivePath(s.rows[run].plan, run), size := |b|,
                              sha := hash(b), completedAt := Some(now)), s.disk, s.target, Closing)
  {
  }

  /** From the start of an attempt to its archive on the node. */
  lemma ArchiveReached(s: System, hash: Bytes -> string, run: Id, d: nat, b: Bytes, now: int) returns (end: System)
    requires run in s.rows && At(s, d, BackupJob, run, MarkRunning) && s.rows[run].state.Queued? && Holds(s, d)
    ensures end == Run(s, [Do(d, Fine, now), Do(d, Fine, now), Do(d, Produced(b), now)], hash)
    ensures end.rows == s.rows[run := s.rows[run].(state := Running, startedAt := Some(now))]
    ensures end.disk == s.disk[ArchivePath(s.rows[run].plan, run) := b] && end.target == s.target
    ensures end.tasks == s.tasks && Holds(end, d) && At(end, d, BackupJob, run, BeginUpload(b))
    ensures end.deliveries[d].task == s.deliveries[d].task
  {
    var fine, made := Do(d, Fine, now), Do(d, Produced(b), now);
    var s1 := Step(s, fine, hash);
    StartGoes(s, hash, run, d, now);
    var s2 := Step(s1, fine, hash);
    BeginGoes(s1, hash, run, d, now);
    end := Step(s2, made, hash);
    ArchiveGoes(s2, hash, run, d, b, now);
    ThreeSteps(s, fine, fine, made, hash);
  }

  lemma ThreeSteps(s: System, e: Event, f: Event, g: Event, hash: Bytes -> string)
    ensures Run(s, [e, f, g], hash) == Step(Step(Step(s, e, hash), f, hash), g, hash)
  {
    assert [e, f, g] == [e] + ([f] + ([g] + []));
    RunCons(s, e, [f] + ([g] + []), hash);
    RunCons(Step(s, e, hash), f, [g] + [], hash);
    RunCons(Step(Step(s, e, hash), f, hash), g, [], hash);
  }

  /** The upload of the attempt's own file: the archive, or a manifest if the controller cannot read it. */
  lemma UploadReached(s: System, hash: Bytes -> string, run: Id, d: nat, b: Bytes, reply: Reply, now: int)
    requires run in s.rows && At(s, d, BackupJob, run, BeginUpload(b)) && Holds(s, d)
    requires s.disk == s.disk[ArchivePath(s.rows[run].plan, run) := b] && (reply.Fine? || reply.Unreadable?)
    ensures var end, plan := Step(Step(s, Do(d, Fine, now), hash), Do(d, reply, now), hash), s.rows[run].plan;
            && end.rows == s.rows && end.disk == s.disk && end.tasks == s.tasks
            && end.target == (if reply.Fine? then s.target[Key(plan, run) := b] else s.target[ManifestKey(plan, run) := "{}"])
            && At(end, d, BackupJob, run, Complete(b)) && end.deliveries[d].task == s.deliveries[d].task
  {
    var s1 := Step(s, Do(d, Fine, now), hash);
    NextGoes(s, hash, run, d, b, now);
    if reply.Unreadable? {
      ManifestGoes(s1, hash, run, d, b, reply, now);
    } else {
      UploadGoes(s1, hash, run, d, b, reply, now);
    }
  }

  /** From there to a completed record. */
  lemma CompletionReached(s: System, hash: Bytes -> string, run: Id, d: nat, b: Bytes, reply: Reply, now: int)
    returns (end: System)
    requires run in s.rows && At(s, d, BackupJob, run, BeginUpload(b)) && s.rows[run].state.Running? && Holds(s, d)
    requires s.disk == s.disk[ArchivePath(s.rows[run].plan, run) := b] && (reply.Fine? || reply.Unreadable?)
    ensures end == Run(s, [Do(d, Fine, now), Do(d, reply, now), Do(d, Fine, now)], hash)
    ensures end.rows == s.rows[run := s.rows[run].(state := Completed, archivePath := ArchivePath(s.rows[run].plan, run),
                                                   size := |b|, sha := hash(b), completedAt := Some(now))]
    ensures var plan := s.rows[run].plan;
            end.target == if reply.Fine? then s.target[Key(plan, run) := b] else s.target[ManifestKey(plan, run) := "{}"]
    ensures end.disk == s.disk && end.tasks == s.tasks && At(end, d, BackupJob, run, Closing)
    ensures end.deliveries[d].task == s.deliveries[d].task
  {
    var fine, put := Do(d, Fine, now), Do(d, reply, now);
    var s2 := Step(Step(s, fine, hash), put, hash);
    UploadReached(s, hash, run, d, b, reply, now);
    end := Step(s2, fine, hash);
    CompleteGoes(s2, hash, run, d, b, now);
    ThreeSteps(s, fine, put, fine, hash);
  }

  lemma {:induction false} RunAppend(s: System, a: seq<Event>, b: seq<Event>, hash: Bytes -> string)
    ensures Run(s, a + b, hash) == Run(Run(s, a, hash), b, hash)
    decreases |a|
  {
    if a == [] {
      assert a + b == b;
    } else {
      assert a + b == [a[0]] + (a[1..] + b);
      RunCons(s, a[0], a[1..] + b, hash);
      RunAppend(Step(s, a[0], hash), a[1..], b, hash);
    }
  }

  lemma Chain(s: System, up: seq<Event>, down: seq<Event>, last: Event, hash: Bytes -> string)
    ensures Run(s, up + (down + ([last] + [])), hash) == Step(Run(Run(s, up, hash), down, hash), last, hash)
  {
    RunAppend(s, up, down + ([last] + []), hash);
    RunAppend(Run(s, up, hash), down, [last] + [], hash);
    RunCons(Run(Run(s, up, hash), down, hash), last, [], hash);
  }

  /** A new attempt takes its job's lease and one attempt off it, and starts at the top. */
  lemma AttemptBegins(s: System, hash: Bytes -> string, d: nat, task: nat)
    requires d !in s.deliveries && task in s.tasks && s.tasks[task].left > 0
    ensures var next, t := Step(s, Deliver(d, task), hash), s.tasks[task];
            && next.rows == s.rows && next.disk == s.disk && next.target == s.target
            && next.tasks == s.tasks[task := t.(left := t.left - 1)] && next.holder == s.holder[task := d]
            && (t.job.BackupJob? ==> At(next, d, BackupJob, t.run, MarkRunning))
            && (t.job.VerifyJob? ==> At(next, d, VerifyJob, t.run, LoadRun))
            && (t.job.DeleteJob? ==> At(next, d, DeleteJob, t.run, BeginErase))
            && next.deliveries[d].task == task && Holds(next, d)
  {
  }

  /** The files and objects of a run whose archive is `b`. */
  ghost predicate Stored(s: System, end: System, plan: Id, run: Id, b: Bytes, uploaded: bool) {
    && end.disk == s.disk[ArchivePath(plan, run) := b]
    && end.target == if uploaded then s.target[Key(plan, run) := b] else s.target[ManifestKey(plan, run) := "{}"]
  }

  lemma AttemptSucceeds(s: System, hash: Bytes -> string, run: Id, d: nat, b: Bytes, put: Reply, t1: int, t2: int)
    returns (events: seq<Event>)
    requires run in s.rows && At(s, d, BackupJob, run, MarkRunning) && s.rows[run].state.Queued? && Holds(s, d)
    requires s.deliveries[d].task in s.tasks && (put.Fine? || put.Unreadable?)
    ensures |events| == 7
    ensures var end, plan, task := Run(s, events, hash), s.rows[run].plan, s.deliveries[d].task;
            && end.rows == s.rows[run := s.rows[run].(state := Completed, startedAt := Some(t1), completedAt := Some(t2),
                                                      archivePath := ArchivePath(plan, run), size := |b|, sha := hash(b))]
            && Stored(s, end, plan, run, b, put.Fine?)
            && end.tasks == s.tasks[task := s.tasks[task].(left := 0)]
  {
    var s1 := ArchiveReached(s, hash, run, d, b, t1);
    var s2 := CompletionReached(s1, hash, run, d, b, put, t2);
    ClosingSettles(s2, hash, d, Fine, t2);
    var up := [Do(d, Fine, t1), Do(d, Fine, t1), Do(d, Produced(b), t1)];
    var down := [Do(d, Fine, t2), Do(d, put, t2), Do(d, Fine, t2)];
    events := up + (down + ([Do(d, Fine, t2)] + []));
    Chain(s, up, down, Do(d, Fine, t2), hash);
  }

  /** A backup attempt from its delivery to its report, every step answered: the record is completed
      with the archive's own path, size and hash and with its times, the file is the archive, the
      target holds it (or a manifest, if the controller could not read it), no other run's record
      changes, and the job is over. */
  lemma BackupSucceeds(s: System, hash: Bytes -> string, run: Id, d: nat, task: nat, b: Bytes, put: Reply, t1: int, t2: int)
    returns (events: seq<Event>)
    requires run in s.rows && s.rows[run].state.Queued? && d !in s.deliveries
    requires TaskMayBreak(s, task, run) && s.tasks[task].job.BackupJob?
    requires put.Fine? || put.Unreadable?
    ensures |events| == 8
    ensures var end, plan := Run(s, events, hash), s.rows[run].plan;
            && end.rows == s.rows[run := s.rows[run].(state := Completed, startedAt := Some(t1), completedAt := Some(t2),
                                                      archivePath := ArchivePath(plan, run), size := |b|, sha := hash(b))]
            && Stored(s, end, plan, run, b, put.Fine?)
            && end.tasks == s.tasks[task := s.tasks[task].(left := 0)]
  {
    AttemptBegins(s, hash, d, task);
    var rest := AttemptSucceeds(Step(s, Deliver(d, task), hash), hash, run, d, b, put, t1, t2);
    events := [Deliver(d, task)] + rest;
    RunCons(s, Deliver(d, task), rest, hash);
  }

  /** The answers that fail a backup attempt whose run is then marked failed. */
  predicate FailsRun(pc: Pc, reply: Reply) {
    match pc
    case MarkRunning => reply.Error?
    case BeginArchive => reply.Error?
    case Archive => !reply.Produced?
    case Upload(_) => reply.Error?
    case _ => false
  }

  /** What the failed step itself leaves: of the files only what the node kept or removed has changed. */
  lemma FailureLeaves(s: System, hash: Bytes -> string, run: Id, d: nat, reply: Reply, now: int)
    requires run in s.rows && Backs(s, d, run) && FailsRun(s.deliveries[d].pc, reply)
    ensures var mid, path := Step(s, Do(d, reply, now), hash), ArchivePath(s.rows[run].plan, run);
            && mid.rows == s.rows && mid.target == s.target && mid.tasks == s.tasks && At(mid, d, BackupJob, run, FailRun)
            && mid.disk == (if s.deliveries[d].pc.Archive? && reply.Lost? then s.disk[path := reply.bytes]
                            else if s.deliveries[d].pc.Archive? && reply.NodeFailed? then s.disk - {path}
                            else s.disk)
  {
  }

  lemma FailRunMarks(s: System, hash: Bytes -> string, run: Id, d: nat, mark: Reply, now: int)
    requires run in s.rows && At(s, d, BackupJob, run, FailRun)
    ensures var end, row := Step(s, Do(d, mark, now), hash), s.rows[run];
            && end.rows == s.rows[run := if row.state.Queued? || row.state.Running?
                                         then row.(state := Failed, completedAt := Some(now)) else row]
            && end.target == s.target && end.tasks == s.tasks && end.disk == s.disk && At(end, d, BackupJob, run, Stopped)
  {
  }

  /** Such an answer, then the next step: the run is failed if it was active, the attempt is over, and
      the target and the job's attempts are as they were. */
  lemma FailureFailsRun(s: System, hash: Bytes -> string, run: Id, d: nat, reply: Reply, mark: Reply, now: int)
    requires run in s.rows && Backs(s, d, run) && FailsRun(s.deliveries[d].pc, reply)
    ensures var end, row := Step(Step(s, Do(d, reply, now), hash), Do(d, mark, now), hash), s.rows[run];
            && end.rows == s.rows[run := if row.state.Queued? || row.state.Running?
                                         then row.(state := Failed, completedAt := Some(now)) else row]
            && end.target == s.target && end.tasks == s.tasks && At(end, d, BackupJob, run, Stopped)
  {
    FailureLeaves(s, hash, run, d, reply, now);
    FailRunMarks(Step(s, Do(d, reply, now), hash), hash, run, d, mark, now);
  }

  /** An attempt that no longer has the lease, or cannot start its upload, stops and leaves everything
      else, the run's record included, as it is. */
  lemma StepNotStarted(s: System, hash: Bytes -> string, run: Id, d: nat, reply: Reply, now: int)
    requires run in s.rows && Backs(s, d, run)
    requires (s.deliveries[d].pc.BeginArchive? && !reply.Error? && !Holds(s, d))
             || (s.deliveries[d].pc.BeginUpload? && (reply.Error? || !Holds(s, d)))
    ensures Step(s, Do(d, reply, now), hash) == s.(deliveries := s.deliveries[d := s.deliveries[d].(pc := Stopped)])
  {
    assert s.rows[run := s.rows[run]] == s.rows;
  }

  /** Completing a record that is not running fails the job and leaves the record as it is. */
  lemma CompleteRefused(s: System, hash: Bytes -> string, run: Id, d: nat, b: Bytes, reply: Reply, now: int)
    requires run in s.rows && At(s, d, BackupJob, run, Complete(b)) && (reply.Error? || !s.rows[run].state.Running?)
    ensures var end := Step(s, Do(d, reply, now), hash);
            && end.rows == s.rows && end.target == s.target && end.disk == s.disk && end.tasks == s.tasks
            && At(end, d, BackupJob, run, Stopped)
  {
  }

  // ------------------------------------------------------------- delete

  /** A step of a delete attempt: no record, file or task changes. */
  ghost predicate Erases(s: System, e: Event, hash: Bytes -> string, run: Id, target: map<string, Bytes>, pc: Pc)
    requires e.Do?
  {
    var next := Step(s, e, hash);
    && next.rows == s.rows && next.disk == s.disk && next.tasks == s.tasks && next.target == target
    && At(next, e.d, DeleteJob, run, pc)
  }

  /** A delete step commits its effect on the objects alone. */
  lemma DeleteCommits(s: System, hash: Bytes -> string, run: Id, d: nat, reply: Reply, now: int)
    requires run in s.rows && d in s.deliveries && s.deliveries[d].job.DeleteJob? && s.deliveries[d].run == run
    requires !s.deliveries[d].pc.Closing?
    ensures var n := DeleteEffect(Now(s, d), run, reply);
            Erases(s, Do(d, reply, now), hash, run, n.target, n.pc)
  {
    DeleteFrame(Now(s, d), run, reply);
    assert s.rows[run := s.rows[run]] == s.rows;
  }

  lemma EraseBegins(s: System, hash: Bytes -> string, run: Id, d: nat, reply: Reply, now: int)
    requires run in s.rows && At(s, d, DeleteJob, run, BeginErase)
    ensures Erases(s, Do(d, reply, now), hash, run, s.target, if reply.Error? || !Holds(s, d) then Stopped else Erase)
  {
    DeleteCommits(s, hash, run, d, reply, now);
  }

  lemma EraseObject(s: System, hash: Bytes -> string, run: Id, d: nat, reply: Reply, now: int)
    requires run in s.rows && At(s, d, DeleteJob, run, Erase)
    ensures reply.Error? ==> Erases(s, Do(d, reply, now), hash, run, s.target, Stopped)
    ensures reply.NoTarget? ==> Erases(s, Do(d, reply, now), hash, run, s.target, Closing)
    ensures !reply.Error? && !reply.NoTarget? ==>
              Erases(s, Do(d, reply, now), hash, run, s.target - {Key(s.rows[run].plan, run)}, EraseManifest)
  {
    DeleteCommits(s, hash, run, d, reply, now);
  }

  lemma EraseManifestToo(s: System, hash: Bytes -> string, run: Id, d: nat, reply: Reply, now: int)
    requires run in s.rows && At(s, d, DeleteJob, run, EraseManifest)
    ensures reply.Error? ==> Erases(s, Do(d, reply, now), hash, run, s.target, Closing)
    ensures !reply.Error? ==>
              Erases(s, Do(d, reply, now), hash, run, s.target - {ManifestKey(s.rows[run].plan, run)}, Closing)
  {
    DeleteCommits(s, hash, run, d, reply, now);
  }

  /** A delete attempt with the lease: with an answer to each step both objects of the run go and no
      other; without a target both stay and the job succeeds all the same; an erase that fails stops
      the attempt; and the manifest is removed on a best effort. */
  lemma DeleteErases(s: System, hash: Bytes -> string, run: Id, d: nat, erase: Reply, manifest: Reply, now: int)
    requires run in s.rows && At(s, d, DeleteJob, run, BeginErase) && Holds(s, d)
    ensures var erased := Step(Step(s, Do(d, Fine, now), hash), Do(d, erase, now), hash);
            var end := Step(erased, Do(d, manifest, now), hash);
            var key, other := Key(s.rows[run].plan, run), ManifestKey(s.rows[run].plan, run);
            && (erase.Error? ==> erased.target == s.target && At(erased, d, DeleteJob, run, Stopped))
            && (erase.NoTarget? ==> erased.target == s.target && At(erased, d, DeleteJob, run, Closing))
            && (!erase.Error? && !erase.NoTarget? ==>
                  && end.rows == s.rows && At(end, d, DeleteJob, run, Closing)
                  && end.target == if manifest.Error? then s.target - {key} else s.target - {key, other})
  {
    var begun := Step(s, Do(d, Fine, now), hash);
    EraseBegins(s, hash, run, d, Fine, now);
    var erased := Step(begun, Do(d, erase, now), hash);
    EraseObject(begun, hash, run, d, erase, now);
    if !erase.Error? && !erase.NoTarget? {
      EraseManifestToo(erased, hash, run, d, manifest, now);
      var key, other := Key(s.rows[run].plan, run), ManifestKey(s.rows[run].plan, run);
      assert (s.target - {key}) - {other} == s.target - {key, other};
    }
  }
}

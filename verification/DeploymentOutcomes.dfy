/** What the steps of one deployment come to in the table, while the other parties do as they like. */
module DeploymentOutcomes {
  import opened Text
  import opened Deployments

  /** The worker is at `pc` of its deployment. */
  predicate WorksAt(s: System, w: nat, d: DepId, pc: Pc) {
    w in s.parties.deliveries && s.parties.deliveries[w] == Delivery(d, pc)
  }

  /** The event is not a step or the loss of worker w. */
  predicate Elsewhere(e: Event, w: nat) {
    (e.Work? || e.WorkerLost?) ==> e.w != w
  }

  lemma StepElsewhere(s: System, e: Event, w: nat, d: DepId, pc: Pc)
    requires d in s.deps && WorksAt(s, w, d, pc) && Elsewhere(e, w)
    ensures d in Step(s, e).deps && WorksAt(Step(s, e), w, d, pc)
  {
  }

  lemma {:induction false} RunElsewhere(s: System, events: seq<Event>, w: nat, d: DepId, pc: Pc)
    requires d in s.deps && WorksAt(s, w, d, pc) && forall e :: e in events ==> Elsewhere(e, w)
    ensures d in Run(s, events).deps && WorksAt(Run(s, events), w, d, pc)
    decreases |events|
  {
    if events != [] {
      StepElsewhere(s, events[0], w, d, pc);
      RunElsewhere(Step(s, events[0]), events[1..], w, d, pc);
    }
  }

  /** What the node's answer leaves the worker to write; the answer itself writes nothing. */
  lemma AnswerTaken(s: System, w: nat, d: DepId, result: Result, ok: bool, now: int)
    requires WorksAt(s, w, d, Pipeline)
    ensures var next := Step(s, Work(w, result, ok, now));
            && next.deps == s.deps
            && (result.Released? ==> WorksAt(next, w, d, Succeeding) && next.parties.released == s.parties.released + {d})
            && (result.FailedOnNode? ==> WorksAt(next, w, d, Failing(Failed)))
            && (result.RolledBackOnNode? ==> WorksAt(next, w, d, Failing(RolledBack)))
            && (!result.Released? ==> next.parties.released == s.parties.released)
  {
  }

  /** The table with deployment d in an end state; its finish time is kept if it had one. */
  predicate Finishes(was: System, end: System, d: DepId, st: State, now: int) {
    d in was.deps &&
    end.deps == was.deps[d := was.deps[d].(state := st,
                                            finishedAt := if was.deps[d].finishedAt.Some? then was.deps[d].finishedAt else Some(now))]
  }

  lemma OutcomeWritten(s: System, w: nat, d: DepId, st: State, result: Result, now: int)
    requires d in s.deps && st in {Failed, RolledBack}
    ensures WorksAt(s, w, d, Failing(st)) ==>
              var end := Step(s, Work(w, result, true, now)); Finishes(s, end, d, st, now) && w !in end.parties.deliveries
    ensures WorksAt(s, w, d, Succeeding) ==>
              var end := Step(s, Work(w, result, true, now)); Finishes(s, end, d, Succeeded, now) && WorksAt(end, w, d, Completing)
  {
  }

  lemma {:induction false} ReleasesStay(s: System, events: seq<Event>, d: DepId)
    requires d in s.parties.released
    ensures d in Run(s, events).parties.released
    decreases |events|
  {
    if events != [] {
      ReleasesStay(Step(s, events[0]), events[1..], d);
    }
  }

  /** A worker takes the node's answer and, whatever the other parties do in between, writes it: a
      release succeeds and has a release row, a plain failure fails, and only a release the node rolled
      back is rolled back.  Nothing but the state and an unset finish time of that deployment changes. */
  lemma OutcomeExactly(s: System, between: seq<Event>, w: nat, d: DepId, result: Result, any: Result, ok: bool,
                       t1: int, t2: int)
    requires d in s.deps && WorksAt(s, w, d, Pipeline) && forall e :: e in between ==> Elsewhere(e, w)
    ensures var was := Run(Step(s, Work(w, result, ok, t1)), between);
            var end := Step(was, Work(w, any, true, t2));
            && d in was.deps && d in end.deps && end.deps[d].finishedAt.Some?
            && (result.Released? ==> Finishes(was, end, d, Succeeded, t2) && d in end.parties.released)
            && (result.FailedOnNode? ==> Finishes(was, end, d, Failed, t2))
            && (result.RolledBackOnNode? ==> Finishes(was, end, d, RolledBack, t2))
            && end.deps.Keys == was.deps.Keys
            && (forall i :: i in was.deps && i != d ==> end.deps[i] == was.deps[i])
  {
    var answered := Step(s, Work(w, result, ok, t1));
    AnswerTaken(s, w, d, result, ok, t1);
    var was := Run(answered, between);
    match result {
      case Released =>
        RunElsewhere(answered, between, w, d, Succeeding);
        ReleasesStay(answered, between, d);
        OutcomeWritten(was, w, d, Failed, any, t2);
      case FailedOnNode =>
        RunElsewhere(answered, between, w, d, Failing(Failed));
        OutcomeWritten(was, w, d, Failed, any, t2);
      case RolledBackOnNode =>
        RunElsewhere(answered, between, w, d, Failing(RolledBack));
        OutcomeWritten(was, w, d, RolledBack, any, t2);
    }
  }

  /** A worker begins by writing running, with the time if none was set; a refused or failed write is
      ignored and it goes on. */
  lemma StartWrites(s: System, w: nat, d: DepId, result: Result, ok: bool, now: int)
    requires d in s.deps && WorksAt(s, w, d, Start)
    ensures var next := Step(s, Work(w, result, ok, now));
            && WorksAt(next, w, d, Pipeline)
            && next.deps == if ok && !Blocked(s.deps, s.deps[d].app, d)
                            then s.deps[d := s.deps[d].(state := Running,
                                                        startedAt := if s.deps[d].startedAt.Some? then s.deps[d].startedAt else Some(now))]
                            else s.deps
  {
  }

  /** Reporting success is what uses up the job's attempts; a report that fails leaves them to the next
      delivery.  The table is not touched either way. */
  lemma ReportSettles(s: System, w: nat, d: DepId, result: Result, ok: bool, now: int)
    requires WorksAt(s, w, d, Completing) && d in s.parties.left
    ensures var next := Step(s, Work(w, result, ok, now));
            && next.deps == s.deps && next.parties.deliveries == s.parties.deliveries - {w}
            && next.parties.left == (if ok then s.parties.left[d := 0] else s.parties.left)
            && next.parties.succeeded == (if ok then s.parties.succeeded + {d} else s.parties.succeeded)
  {
  }

  /** A lost worker takes no further step, and a lost handler writes nothing more. */
  lemma {:induction false} LostForGood(s: System, events: seq<Event>, w: nat, h: nat)
    requires w !in s.parties.deliveries || h !in s.parties.handlers
    requires forall e :: e in events ==> (e.Deliver? ==> e.w != w) && (e.Create? ==> e.h != h)
    ensures w !in s.parties.deliveries ==> w !in Run(s, events).parties.deliveries
    ensures h !in s.parties.handlers ==> h !in Run(s, events).parties.handlers
    decreases |events|
  {
    if events != [] {
      assert events[0] in events;
      var next := Step(s, events[0]);
      assert w !in s.parties.deliveries ==> w !in next.parties.deliveries;
      assert h !in s.parties.handlers ==> h !in next.parties.handlers;
      LostForGood(next, events[1..], w, h);
    }
  }

  lemma LossRemoves(s: System, w: nat, h: nat)
    ensures Step(s, WorkerLost(w)).deps == s.deps && Step(s, HandlerLost(h)).deps == s.deps
    ensures w !in Step(s, WorkerLost(w)).parties.deliveries && h !in Step(s, HandlerLost(h)).parties.handlers
  {
  }

  // ------------------------------------------------------------- one deployment from end to end

  /** The handler's steps: a queued row, its job with its attempts, and the job attached. */
  lemma HandlerGoes(s: System, h: nat, d: DepId, app: AppId, key: Option<string>, job: string, attempts: nat, now: int)
    returns (events: seq<Event>, end: System)
    requires h !in s.parties.handlers && Accepts(s.deps, d, app, key)
    ensures |events| == 3 && end == Run(s, events)
    ensures end.deps == s.deps[d := Deployment(app, key, Queued, Some(job), None, None)]
    ensures end.parties.left == s.parties.left[d := attempts] && end.parties.deliveries == s.parties.deliveries
  {
    var s1 := Step(s, Create(h, d, app, key));
    assert s1.deps == s.deps[d := Deployment(app, key, Queued, None, None, None)];
    var s2 := Step(s1, Enqueue(h, Some(job), attempts));
    assert s2.deps == s1.deps && s2.parties.handlers[h] == Handler(d, Attaching(job));
    end := Step(s2, HandlerWrite(h, true, now));
    assert !Blocked(s2.deps, app, d) by {
      assert forall i :: i in s2.deps && i != d ==> i in s.deps && s2.deps[i] == s.deps[i];
    }
    events := [Create(h, d, app, key), Enqueue(h, Some(job), attempts), HandlerWrite(h, true, now)];
    RunThree(s, Create(h, d, app, key), Enqueue(h, Some(job), attempts), HandlerWrite(h, true, now));
  }

  /** A handler whose job could not be enqueued leaves a failed row. */
  lemma HandlerRefuses(s: System, h: nat, d: DepId, app: AppId, key: Option<string>, attempts: nat, now: int)
    requires h !in s.parties.handlers && Accepts(s.deps, d, app, key)
    ensures var end := Step(Step(Step(s, Create(h, d, app, key)), Enqueue(h, None, attempts)), HandlerWrite(h, true, now));
            && end.deps == s.deps[d := Deployment(app, key, Failed, None, None, Some(now))]
            && end.parties.left == s.parties.left
  {
    var s1 := Step(s, Create(h, d, app, key));
    assert s1.deps == s.deps[d := Deployment(app, key, Queued, None, None, None)];
    var s2 := Step(s1, Enqueue(h, None, attempts));
    assert s2.deps == s1.deps && s2.parties.handlers[h] == Handler(d, Refusing);
  }

  /** The worker's steps to a written success: the job is over and cannot be attempted again. */
  lemma WorkerGoes(s: System, w: nat, d: DepId, t1: int, t2: int) returns (events: seq<Event>, end: System)
    requires d in s.deps && w !in s.parties.deliveries && d in s.parties.left && s.parties.left[d] > 0
    requires s.deps[d].state.Queued? && s.deps[d].startedAt.None? && s.deps[d].finishedAt.None?
    requires !Blocked(s.deps, s.deps[d].app, d)
    ensures |events| == 5 && end == Run(s, events)
    ensures end.deps == s.deps[d := s.deps[d].(state := Succeeded, startedAt := Some(t1), finishedAt := Some(t2))]
    ensures d in end.parties.released && d in end.parties.succeeded && end.parties.left == s.parties.left[d := 0]
    ensures end.parties.deliveries == s.parties.deliveries
  {
    var s1 := Step(s, Deliver(w, d));
    assert s1.deps == s.deps && WorksAt(s1, w, d, Start);
    var s2 := Step(s1, Work(w, Released, true, t1));
    StartWrites(s1, w, d, Released, true, t1);
    var s3 := Step(s2, Work(w, Released, true, t1));
    AnswerTaken(s2, w, d, Released, true, t1);
    var s4 := Step(s3, Work(w, Released, true, t2));
    OutcomeWritten(s3, w, d, Failed, Released, t2);
    end := Step(s4, Work(w, Released, true, t2));
    var first, last := Work(w, Released, true, t1), Work(w, Released, true, t2);
    events := [Deliver(w, d), first, first, last, last];
    RunFive(s, Deliver(w, d), first, first, last, last);
  }

  lemma StaysUnblocked(deps: map<DepId, Deployment>, app: AppId, d: DepId, row: Deployment)
    requires !Blocked(deps, app, d)
    ensures !Blocked(deps[d := row], app, d)
  {
  }

  /** A deployment nobody interferes with, from the request to the finished job. */
  lemma DeploymentSucceeds(s: System, h: nat, w: nat, d: DepId, app: AppId, key: Option<string>, job: string, attempts: nat,
                           t0: int, t1: int, t2: int) returns (events: seq<Event>)
    requires h !in s.parties.handlers && w !in s.parties.deliveries && Accepts(s.deps, d, app, key) && attempts > 0
    ensures |events| == 8
    ensures var end := Run(s, events);
            && end.deps == s.deps[d := Deployment(app, key, Succeeded, Some(job), Some(t1), Some(t2))]
            && d in end.parties.released && d in end.parties.succeeded && d in end.parties.left && end.parties.left[d] == 0
            && end.parties.deliveries == s.parties.deliveries
  {
    var up, queued := HandlerGoes(s, h, d, app, key, job, attempts, t0);
    StaysUnblocked(s.deps, app, d, queued.deps[d]);
    var down, end := WorkerGoes(queued, w, d, t1, t2);
    events := up + down;
    RunAppend(s, up, down);
  }

  lemma RunThree(s: System, a: Event, b: Event, c: Event)
    ensures Run(s, [a, b, c]) == Step(Step(Step(s, a), b), c)
  {
    assert [a, b, c] == [a] + ([b] + ([c] + []));
    RunCons(s, a, [b] + ([c] + []));
    RunCons(Step(s, a), b, [c] + []);
    RunCons(Step(Step(s, a), b), c, []);
  }

  lemma RunFive(s: System, a: Event, b: Event, c: Event, d: Event, e: Event)
    ensures Run(s, [a, b, c, d, e]) == Step(Step(Step(Step(Step(s, a), b), c), d), e)
  {
    var mid := Step(Step(s, a), b);
    assert [a, b, c, d, e] == [a] + ([b] + [c, d, e]);
    RunCons(s, a, [b] + [c, d, e]);
    RunCons(Step(s, a), b, [c, d, e]);
    RunThree(mid, c, d, e);
  }

  lemma WebhookSpelling()
    ensures WebhookKey("t", "c") == "webhook:t:c"
  {
  }
}

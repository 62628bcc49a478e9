/** Deployments: the HTTP handler and the worker write one record without looking at its state.

A handler creates the row, enqueues the job and then attaches it by writing the queued state again;
a worker writes running, works, and writes the outcome.  Any of their steps may interleave, any
write may fail unnoticed, and the job may be delivered again while attempts are left. */
module Deployments {
  import opened Text
  import opened Collections

  type DepId = nat
  type AppId = string

  datatype State = Queued | Running | Succeeded | Failed | RolledBack

  datatype Deployment = Deployment(
    app: AppId, key: Option<string>, state: State, job: Option<string>,
    startedAt: Option<int>, finishedAt: Option<int>)

  predicate IsActive(s: State) {
    s.Queued? || s.Running?
  }

  // ------------------------------------------------------------- the table

  /** The two unique indexes: a key is used once per app, and one deployment per app is active. */
  ghost predicate KeysUnique(deps: map<DepId, Deployment>) {
    forall i, j :: i in deps && j in deps && deps[i].app == deps[j].app && deps[i].key.Some? && deps[i].key == deps[j].key
                   ==> i == j
  }

  ghost predicate OneActivePerApp(deps: map<DepId, Deployment>) {
    forall i, j :: i in deps && j in deps && deps[i].app == deps[j].app && IsActive(deps[i].state) && IsActive(deps[j].state)
                   ==> i == j
  }

  /** Another deployment of the app is active. */
  predicate Blocked(deps: map<DepId, Deployment>, app: AppId, id: DepId) {
    exists i :: i in deps && i != id && deps[i].app == app && IsActive(deps[i].state)
  }

  predicate KeyTaken(deps: map<DepId, Deployment>, app: AppId, key: Option<string>) {
    key.Some? && exists i :: i in deps && deps[i].app == app && deps[i].key == key
  }

  function OrElse<T>(kept: Option<T>, given: Option<T>): Option<T> {
    if kept.Some? then kept else given
  }

  /** A state write: timestamps are kept once set, the job is replaced when given. */
  function Written(d: Deployment, st: State, job: Option<string>, now: int): Deployment {
    d.(state := st, job := OrElse(job, d.job),
       startedAt := OrElse(d.startedAt, if st.Running? then Some(now) else None),
       finishedAt := OrElse(d.finishedAt, if IsActive(st) then None else Some(now)))
  }

  /** The write is refused by the index when it would make a second active deployment. */
  function Write(deps: map<DepId, Deployment>, id: DepId, st: State, job: Option<string>, now: int): map<DepId, Deployment> {
    if id !in deps || (IsActive(st) && Blocked(deps, deps[id].app, id)) then deps
    else deps[id := Written(deps[id], st, job, now)]
  }

  /** Identity and timestamps never change once set. */
  predicate KeepsFacts(d: Deployment, e: Deployment) {
    && e.app == d.app && e.key == d.key
    && (d.startedAt.Some? ==> e.startedAt == d.startedAt)
    && (d.finishedAt.Some? ==> e.finishedAt == d.finishedAt)
  }

  class DeploymentTable {
    var deps: map<DepId, Deployment>

    constructor ()
      ensures deps == map[]
    {
      deps := map[];
    }

    /** Inserts a queued deployment unless the app has an active one or the key was used. */
    method CreateDeployment(id: DepId, app: AppId, key: Option<string>) returns (created: bool)
      requires id !in deps && KeysUnique(deps) && OneActivePerApp(deps)
      modifies this
      ensures KeysUnique(deps) && OneActivePerApp(deps)
      ensures created <==> !Blocked(old(deps), app, id) && !KeyTaken(old(deps), app, key)
      ensures deps == if created then old(deps)[id := Deployment(app, key, Queued, None, None, None)] else old(deps)
    {
      created := !Blocked(deps, app, id) && !KeyTaken(deps, app, key);
      if created {
        deps := deps[id := Deployment(app, key, Queued, None, None, None)];
      }
    }

    /** Writes any state over any other; only the index can refuse it. */
    method UpdateDeploymentState(id: DepId, st: State, job: Option<string>, now: int) returns (ok: bool)
      requires KeysUnique(deps) && OneActivePerApp(deps)
      modifies this
      ensures KeysUnique(deps) && OneActivePerApp(deps)
      ensures deps == Write(old(deps), id, st, job, now)
      ensures ok <==> id in old(deps) && (st.Queued? || st.Running? ==>
                                            forall i :: i in old(deps) && i != id && old(deps)[i].app == old(deps)[id].app ==>
                                                          !old(deps)[i].state.Queued? && !old(deps)[i].state.Running?)
      ensures !ok ==> deps == old(deps)
      ensures ok ==> id in deps && deps == old(deps)[id := deps[id]]
                     && var was, row := old(deps)[id], deps[id];
                        && row.app == was.app && row.key == was.key && row.state == st
                        && row.job == (if job.Some? then job else was.job)
                        && row.startedAt == (if was.startedAt.Some? || !st.Running? then was.startedAt else Some(now))
                        && row.finishedAt == (if was.finishedAt.Some? || st.Queued? || st.Running? then was.finishedAt
                                              else Some(now))
      ensures id in old(deps) ==> id in deps && KeepsFacts(old(deps)[id], deps[id])
                                  && (old(deps)[id].job.Some? ==> deps[id].job.Some?)
    {
      ok := id in deps && !(IsActive(st) && Blocked(deps, deps[id].app, id));
      if ok {
        ApplyKeepsTable(deps, Put(id, st, job, now));
        deps := deps[id := Written(deps[id], st, job, now)];
      }
    }

    /** The handler without interference: create, enqueue, then attach or mark failed. */
    method StartDeployment(id: DepId, app: AppId, key: Option<string>, job: Option<string>, now: int) returns (accepted: bool)
      requires id !in deps && KeysUnique(deps) && OneActivePerApp(deps)
      modifies this
      ensures KeysUnique(deps) && OneActivePerApp(deps)
      ensures accepted ==> id in deps && deps[id] == Deployment(app, key, Queued, job, None, None) && job.Some?
      ensures !accepted && id in deps ==> job.None? && deps[id] == Deployment(app, key, Failed, None, None, Some(now))
      ensures id !in deps <==> Blocked(old(deps), app, id) || KeyTaken(old(deps), app, key)
      ensures forall i :: i in old(deps) ==> i in deps && deps[i] == old(deps)[i]
    {
      var created := CreateDeployment(id, app, key);
      if !created {
        return false;
      }
      if job.None? {
        var _ := UpdateDeploymentState(id, Failed, None, now);
        return false;
      }
      var _ := UpdateDeploymentState(id, Queued, job, now);
      return true;
    }
  }

  // ------------------------------------------------------------- the two sides

  datatype Phase = Created | Attaching(job: string) | Refusing

  datatype Handler = Handler(dep: DepId, phase: Phase)

  datatype Pc = Start | Pipeline | Failing(state: State) | Succeeding | Completing

  datatype Delivery = Delivery(dep: DepId, pc: Pc)

  /** Everything beside the table: the deployments with a release row, the handlers and deliveries at
      work, the attempts left of each job in the job table, and the jobs there that succeeded. */
  datatype Parties = Parties(
    released: set<DepId>, handlers: map<nat, Handler>, deliveries: map<nat, Delivery>,
    left: map<DepId, nat>, succeeded: set<DepId>)

  datatype System = System(deps: map<DepId, Deployment>, parties: Parties)

  datatype Result = Released | FailedOnNode | RolledBackOnNode

  datatype Event =
    | Create(h: nat, id: DepId, app: AppId, key: Option<string>)
    | Enqueue(h: nat, job: Option<string>, attempts: nat)   // None is an enqueue error
    | HandlerWrite(h: nat, ok: bool, now: int)
    | HandlerLost(h: nat)
    | Deliver(w: nat, dep: DepId)
    | WorkerLost(w: nat)
    | Work(w: nat, result: Result, ok: bool, now: int)
    | Prune(dep: DepId)   // the cleaner deletes a succeeded job, which empties the job column

  /** What a step does to the table. */
  datatype Change =
    | Keep
    | Add(id: DepId, app: AppId, key: Option<string>)
    | Put(id: DepId, st: State, job: Option<string>, now: int)
    | Detach(id: DepId)

  function Apply(deps: map<DepId, Deployment>, c: Change): map<DepId, Deployment> {
    match c
    case Keep => deps
    case Add(id, app, key) =>
      if Accepts(deps, id, app, key) then deps[id := Deployment(app, key, Queued, None, None, None)] else deps
    case Put(id, st, job, now) => Write(deps, id, st, job, now)
    case Detach(id) => if id in deps then deps[id := deps[id].(job := None)] else deps
  }

  /** The table change of a step, and the parties after it. */
  datatype Effect = Effect(change: Change, parties: Parties)

  function Try(c: Change, ok: bool): Change {
    if ok then c else Keep
  }

  function HandlerEffect(p: Parties, h: nat, ok: bool, now: int): Effect
    requires h in p.handlers
  {
    var dep, done := p.handlers[h].dep, p.(handlers := p.handlers - {h});
    match p.handlers[h].phase
    case Created => Effect(Keep, p)
    case Attaching(job) => // refused once the job is gone
      Effect(Try(Put(dep, Queued, Some(job), now), ok && dep in p.left), done)
    case Refusing => Effect(Try(Put(dep, Failed, None, now), ok), done)
  }

  function Enqueued(p: Parties, h: nat, job: Option<string>, attempts: nat): Parties {
    if h !in p.handlers || !p.handlers[h].phase.Created? then p
    else
      var dep := p.handlers[h].dep;
      if job.None? then p.(handlers := p.handlers[h := Handler(dep, Refusing)])
      else p.(handlers := p.handlers[h := Handler(dep, Attaching(job.value))], left := p.left[dep := attempts])
  }

  function Delivered(p: Parties, w: nat, dep: DepId): Parties {
    if w in p.deliveries || dep !in p.left || p.left[dep] == 0 then p
    else p.(deliveries := p.deliveries[w := Delivery(dep, Start)], left := p.left[dep := p.left[dep] - 1])
  }

  function WorkAt(p: Parties, w: nat, pc: Pc): Parties
    requires w in p.deliveries
  {
    p.(deliveries := p.deliveries[w := Delivery(p.deliveries[w].dep, pc)])
  }

  function WorkEffect(p: Parties, w: nat, result: Result, ok: bool, now: int): Effect
    requires w in p.deliveries
  {
    var dep, done := p.deliveries[w].dep, p.(deliveries := p.deliveries - {w});
    match p.deliveries[w].pc
    case Start => Effect(Try(Put(dep, Running, None, now), ok), WorkAt(p, w, Pipeline))
    case Pipeline =>
      Effect(Keep,
             match result
             case Released => WorkAt(p, w, Succeeding).(released := p.released + {dep})
             case FailedOnNode => WorkAt(p, w, Failing(Failed))
             case RolledBackOnNode => WorkAt(p, w, Failing(RolledBack)))
    case Failing(st) => Effect(Try(Put(dep, st, None, now), ok), done)
    case Succeeding => Effect(Try(Put(dep, Succeeded, None, now), ok), WorkAt(p, w, Completing))
    case Completing => Effect(Keep, if ok && dep in p.left then Settled(done, dep) else done)
  }

  function Settled(p: Parties, dep: DepId): Parties {
    p.(left := p.left[dep := 0], succeeded := p.succeeded + {dep})
  }

  function PruneEffect(p: Parties, dep: DepId): Effect {
    if dep in p.succeeded && dep in p.left
    then Effect(Detach(dep), p.(left := p.left - {dep}, succeeded := p.succeeded - {dep})) else Effect(Keep, p)
  }

  predicate Accepts(deps: map<DepId, Deployment>, id: DepId, app: AppId, key: Option<string>) {
    id !in deps && !Blocked(deps, app, id) && !KeyTaken(deps, app, key)
  }

  function EffectOf(s: System, e: Event): Effect {
    var p := s.parties;
    match e
    case Create(h, id, app, key) =>
      if h !in p.handlers && Accepts(s.deps, id, app, key)
      then Effect(Add(id, app, key), p.(handlers := p.handlers[h := Handler(id, Created)])) else Effect(Keep, p)
    case Enqueue(h, job, attempts) => Effect(Keep, Enqueued(p, h, job, attempts))
    case HandlerWrite(h, ok, now) => if h in p.handlers then HandlerEffect(p, h, ok, now) else Effect(Keep, p)
    case HandlerLost(h) => Effect(Keep, p.(handlers := p.handlers - {h}))
    case Deliver(w, dep) => Effect(Keep, Delivered(p, w, dep))
    case WorkerLost(w) => Effect(Keep, p.(deliveries := p.deliveries - {w}))
    case Work(w, result, ok, now) => if w in p.deliveries then WorkEffect(p, w, result, ok, now) else Effect(Keep, p)
    case Prune(dep) => PruneEffect(p, dep)
  }

  function Step(s: System, e: Event): System {
    System(Apply(s.deps, EffectOf(s, e).change), EffectOf(s, e).parties)
  }

  function Run(s: System, events: seq<Event>): System
    decreases |events|
  {
    if events == [] then s else Run(Step(s, events[0]), events[1..])
  }

  lemma RunCons(s: System, e: Event, rest: seq<Event>)
    ensures Run(s, [e] + rest) == Run(Step(s, e), rest)
  {
    assert ([e] + rest)[1..] == rest;
  }

  lemma {:induction false} RunAppend(s: System, a: seq<Event>, b: seq<Event>)
    ensures Run(s, a + b) == Run(Run(s, a), b)
    decreases |a|
  {
    if a == [] {
      assert a + b == b;
    } else {
      assert (a + b)[1..] == a[1..] + b;
      RunAppend(Step(s, a[0]), a[1..], b);
    }
  }

  // ------------------------------------------------------------- what every interleaving keeps

  ghost predicate TableInv(s: System) {
    && KeysUnique(s.deps) && OneActivePerApp(s.deps)
    && (forall d :: d in s.deps && s.deps[d].state.Succeeded? ==> d in s.parties.released)
    && WorkInv(s.parties)
  }

  ghost predicate WorkInv(p: Parties) {
    && (forall w :: w in p.deliveries && p.deliveries[w].pc.Succeeding? ==> p.deliveries[w].dep in p.released)
    && (forall w :: w in p.deliveries && p.deliveries[w].pc.Failing? ==>
          p.deliveries[w].pc.state.Failed? || p.deliveries[w].pc.state.RolledBack?)
  }

  ghost predicate KeepsWork(p: Parties, f: Effect) {
    && WorkInv(f.parties) && p.released <= f.parties.released
    && (f.change.Put? && f.change.st.Succeeded? ==> f.change.id in p.released)
  }

  lemma WorkEffectKeepsWork(p: Parties, w: nat, result: Result, ok: bool, now: int)
    requires WorkInv(p) && w in p.deliveries
    ensures KeepsWork(p, WorkEffect(p, w, result, ok, now))
  {
  }

  lemma EffectKeepsWork(s: System, e: Event)
    requires WorkInv(s.parties)
    ensures KeepsWork(s.parties, EffectOf(s, e))
  {
    if e.Work? && e.w in s.parties.deliveries {
      WorkEffectKeepsWork(s.parties, e.w, e.result, e.ok, e.now);
    }
  }

  lemma ApplyKeepsTable(deps: map<DepId, Deployment>, c: Change)
    requires KeysUnique(deps) && OneActivePerApp(deps)
    ensures KeysUnique(Apply(deps, c)) && OneActivePerApp(Apply(deps, c))
  {
  }

  lemma ApplySucceeded(deps: map<DepId, Deployment>, c: Change, d: DepId)
    requires d in Apply(deps, c) && Apply(deps, c)[d].state.Succeeded?
    ensures (d in deps && deps[d].state.Succeeded?) || (c.Put? && c.id == d && c.st.Succeeded?)
  {
  }

  lemma StepKeepsInv(s: System, e: Event)
    requires TableInv(s)
    ensures TableInv(Step(s, e))
  {
    EffectKeepsWork(s, e);
    CommitKeepsInv(s, EffectOf(s, e));
  }

  lemma CommitKeepsInv(s: System, f: Effect)
    requires TableInv(s) && KeepsWork(s.parties, f)
    ensures TableInv(System(Apply(s.deps, f.change), f.parties))
  {
    var r := System(Apply(s.deps, f.change), f.parties);
    ApplyKeepsTable(s.deps, f.change);
    forall d | d in r.deps && r.deps[d].state.Succeeded?
      ensures d in r.parties.released
    {
      ApplySucceeded(s.deps, f.change, d);
    }
  }

  /** In every interleaving a succeeded deployment has a release row, keys are used once per app and
      an app has at most one active deployment. */
  lemma {:induction false} RunKeepsInv(s: System, events: seq<Event>)
    requires TableInv(s)
    ensures TableInv(Run(s, events))
    decreases |events|
  {
    if events != [] {
      StepKeepsInv(s, events[0]);
      RunKeepsInv(Step(s, events[0]), events[1..]);
    }
  }

  lemma ApplyKeepsFacts(deps: map<DepId, Deployment>, c: Change, d: DepId)
    requires d in deps
    ensures d in Apply(deps, c) && KeepsFacts(deps[d], Apply(deps, c)[d])
  {
  }

  /** Rows, apps, keys and set timestamps stay in every interleaving. */
  lemma {:induction false} FactsAreWriteOnce(s: System, events: seq<Event>, d: DepId)
    requires d in s.deps
    ensures d in Run(s, events).deps && KeepsFacts(s.deps[d], Run(s, events).deps[d])
    decreases |events|
  {
    if events != [] {
      ApplyKeepsFacts(s.deps, EffectOf(s, events[0]).change, d);
      FactsAreWriteOnce(Step(s, events[0]), events[1..], d);
    }
  }

  // ------------------------------------------------------------- one deployment per push

  function WebhookKey(token: string, commit: string): string {
    "webhook:" + token + ":" + commit
  }

  lemma ColonInside(a: string, c: string, b: string, d: string)
    requires a + ":" + c == b + ":" + d && |c| < |d|
    ensures ':' in d
  {
    assert (a + ":" + c)[|a|] == ':';
    assert (b + ":" + d)[|a|] == d[|a| - |b| - 1];
  }

  /** The key names one token and one commit, since a commit is written in hexadecimal. */
  lemma WebhookKeyInjective(t: string, c: string, u: string, d: string)
    requires ':' !in c && ':' !in d && WebhookKey(t, c) == WebhookKey(u, d)
    ensures t == u && c == d
  {
    var k, l := WebhookKey(t, c), WebhookKey(u, d);
    if |c| < |d| {
      ColonInside("webhook:" + t, c, "webhook:" + u, d);
    } else if |d| < |c| {
      ColonInside("webhook:" + u, d, "webhook:" + t, c);
    }
    assert |t| == |u|;
    assert k[8..8 + |t|] == t && l[8..8 + |u|] == u;
    assert k[9 + |t|..] == c && l[9 + |u|..] == d;
  }

  /** Two deployments an app's webhooks created are the same row exactly when token and commit agree. */
  lemma OneDeploymentPerPush(s: System, events: seq<Event>, i: DepId, j: DepId, t: string, c: string, u: string, d: string)
    requires TableInv(s) && ':' !in c && ':' !in d
    requires var deps := Run(s, events).deps;
             && i in deps && j in deps && deps[i].app == deps[j].app
             && deps[i].key == Some(WebhookKey(t, c)) && deps[j].key == Some(WebhookKey(u, d))
    ensures i == j <==> t == u && c == d
  {
    RunKeepsInv(s, events);
    if i == j {
      WebhookKeyInjective(t, c, u, d);
    }
  }

  // ------------------------------------------------------------- which states are final

  /** A worker at `pc` can still write a state other than `avoid`. */
  predicate Acts(pc: Pc, avoid: State) {
    match pc
    case Start => true
    case Pipeline => true
    case Failing(st) => st != avoid
    case Succeeding => !avoid.Succeeded?
    case Completing => false
  }

  predicate HandlerActs(phase: Phase, avoid: State) {
    phase.Created? || (phase.Refusing? && !avoid.Failed?)
  }

  /** Some pending step can still end the deployment in a state other than `avoid`. */
  ghost predicate CanEnd(p: Parties, d: DepId, avoid: State) {
    || (d in p.left && p.left[d] > 0)
    || (exists h :: h in p.handlers && p.handlers[h].dep == d && HandlerActs(p.handlers[h].phase, avoid))
    || (exists w :: w in p.deliveries && p.deliveries[w].dep == d && Acts(p.deliveries[w].pc, avoid))
  }

  ghost predicate AttachPending(p: Parties, d: DepId) {
    d in p.left && exists h :: h in p.handlers && p.handlers[h].dep == d && p.handlers[h].phase.Attaching?
  }

  /** The step opens no new way to end the deployment, and writes it only with `avoid`, or with queued
      by a pending attach. */
  ghost predicate StaysClosed(p: Parties, f: Effect, d: DepId, avoid: State) {
    && !CanEnd(f.parties, d, avoid)
    && (f.change.Put? && f.change.id == d ==> f.change.st == avoid || (f.change.st.Queued? && AttachPending(p, d)))
    && (AttachPending(f.parties, d) ==> AttachPending(p, d))
  }

  lemma WorkStaysClosed(p: Parties, w: nat, result: Result, ok: bool, now: int, d: DepId, avoid: State)
    requires !CanEnd(p, d, avoid) && w in p.deliveries
    ensures StaysClosed(p, WorkEffect(p, w, result, ok, now), d, avoid)
  {
  }

  lemma HandlerStaysClosed(p: Parties, h: nat, ok: bool, now: int, d: DepId, avoid: State)
    requires !CanEnd(p, d, avoid) && h in p.handlers
    ensures StaysClosed(p, HandlerEffect(p, h, ok, now), d, avoid)
  {
  }

  lemma EffectStaysClosed(s: System, e: Event, d: DepId, avoid: State)
    requires d in s.deps && !CanEnd(s.parties, d, avoid)
    ensures StaysClosed(s.parties, EffectOf(s, e), d, avoid)
  {
    match e
    case Work(w, result, ok, now) =>
      if w in s.parties.deliveries {
        WorkStaysClosed(s.parties, w, result, ok, now, d, avoid);
      }
    case HandlerWrite(h, ok, now) =>
      if h in s.parties.handlers {
        HandlerStaysClosed(s.parties, h, ok, now, d, avoid);
      }
    case _ =>
  }

  /** Active, and no pending step can end it. */
  ghost predicate Jammed(s: System, o: DepId) {
    o in s.deps && IsActive(s.deps[o].state) && !CanEnd(s.parties, o, Queued)
  }

  /** Another deployment of the same app is jammed, so no write can make this one active. */
  ghost predicate JammedBeside(s: System, d: DepId)
    requires d in s.deps
  {
    exists o :: o != d && Jammed(s, o) && s.deps[o].app == s.deps[d].app
  }

  /** The deployment ended and nothing pending can change that. */
  ghost predicate Final(s: System, d: DepId) {
    && d in s.deps && !IsActive(s.deps[d].state)
    && !CanEnd(s.parties, d, s.deps[d].state)
    && (AttachPending(s.parties, d) ==> JammedBeside(s, d))
  }

  lemma ApplyState(deps: map<DepId, Deployment>, c: Change, d: DepId)
    requires d in deps
    ensures d in Apply(deps, c) && Apply(deps, c)[d].app == deps[d].app
    ensures Apply(deps, c)[d].state == deps[d].state
            || (c.Put? && c.id == d && Apply(deps, c)[d].state == c.st && !(IsActive(c.st) && Blocked(deps, deps[d].app, d)))
  {
  }

  lemma JammedStep(s: System, e: Event, o: DepId)
    requires Jammed(s, o)
    ensures Jammed(Step(s, e), o) && Step(s, e).deps[o].app == s.deps[o].app
  {
    EffectStaysClosed(s, e, o, Queued);
    ApplyState(s.deps, EffectOf(s, e).change, o);
  }

  lemma FinalStep(s: System, e: Event, d: DepId)
    requires Final(s, d)
    ensures Final(Step(s, e), d) && Step(s, e).deps[d].state == s.deps[d].state
  {
    var next := Step(s, e);
    EffectStaysClosed(s, e, d, s.deps[d].state);
    ApplyState(s.deps, EffectOf(s, e).change, d);
    if AttachPending(s.parties, d) {
      var o :| o != d && Jammed(s, o) && s.deps[o].app == s.deps[d].app;
      assert Blocked(s.deps, s.deps[d].app, d);
      JammedStep(s, e, o);
      assert JammedBeside(next, d);
    }
  }

  lemma {:induction false} FinalRun(s: System, events: seq<Event>, d: DepId)
    requires Final(s, d)
    ensures Final(Run(s, events), d) && Run(s, events).deps[d].state == s.deps[d].state
    decreases |events|
  {
    if events != [] {
      FinalStep(s, events[0], d);
      FinalRun(Step(s, events[0]), events[1..], d);
    }
  }

  /** A jammed deployment stays active in every continuation, and the app never deploys again. */
  lemma {:induction false} JammedForever(s: System, events: seq<Event>, o: DepId, h: nat, id: DepId, key: Option<string>)
    requires Jammed(s, o)
    ensures Jammed(Run(s, events), o)
    ensures Step(Run(s, events), Create(h, id, s.deps[o].app, key)).deps == Run(s, events).deps
    decreases |events|
  {
    if events == [] {
      assert id !in s.deps ==> Blocked(s.deps, s.deps[o].app, id);
    } else {
      JammedStep(s, events[0], o);
      JammedForever(Step(s, events[0]), events[1..], o, h, id, key);
    }
  }

  // ------------------------------------------------------------- what a pending step can do

  /** `r` is `s` after steps of one deployment, which ended in a state other than `avoid`. */
  ghost predicate Ended(s: System, r: System, d: DepId, avoid: State) {
    && d in s.deps && d in r.deps && !IsActive(r.deps[d].state) && r.deps[d].state != avoid
    && (forall i :: i in r.deps && i != d ==> i in s.deps && r.deps[i] == s.deps[i])
    && (forall h :: h in s.parties.handlers && s.parties.handlers[h].dep != d ==>
          h in r.parties.handlers && r.parties.handlers[h] == s.parties.handlers[h])
    && (forall i :: i in s.parties.left && i != d ==> i in r.parties.left)
  }

  lemma EndsAtFailing(s: System, w: nat, d: DepId, avoid: State) returns (events: seq<Event>)
    requires TableInv(s) && d in s.deps && w in s.parties.deliveries && s.parties.deliveries[w].dep == d
    requires s.parties.deliveries[w].pc.Failing? && s.parties.deliveries[w].pc.state != avoid
    ensures Ended(s, Run(s, events), d, avoid)
  {
    var e := Work(w, Released, true, 0);
    events := [e] + [];
    RunCons(s, e, []);
  }

  lemma EndsAtSucceeding(s: System, w: nat, d: DepId, avoid: State) returns (events: seq<Event>)
    requires d in s.deps && w in s.parties.deliveries && s.parties.deliveries[w] == Delivery(d, Succeeding)
    requires !avoid.Succeeded?
    ensures Ended(s, Run(s, events), d, avoid)
  {
    var e := Work(w, Released, true, 0);
    events := [e] + [];
    RunCons(s, e, []);
  }

  lemma EndsAtPipeline(s: System, w: nat, d: DepId, avoid: State) returns (events: seq<Event>)
    requires TableInv(s) && d in s.deps && w in s.parties.deliveries && s.parties.deliveries[w] == Delivery(d, Pipeline)
    ensures Ended(s, Run(s, events), d, avoid)
  {
    var e := Work(w, if avoid.Failed? then RolledBackOnNode else FailedOnNode, true, 0);
    StepKeepsInv(s, e);
    var rest := EndsAtFailing(Step(s, e), w, d, avoid);
    events := [e] + rest;
    RunCons(s, e, rest);
  }

  lemma EndsAtStart(s: System, w: nat, d: DepId, avoid: State) returns (events: seq<Event>)
    requires TableInv(s) && d in s.deps && w in s.parties.deliveries && s.parties.deliveries[w] == Delivery(d, Start)
    ensures Ended(s, Run(s, events), d, avoid)
  {
    var e := Work(w, Released, false, 0);
    StepKeepsInv(s, e);
    var rest := EndsAtPipeline(Step(s, e), w, d, avoid);
    events := [e] + rest;
    RunCons(s, e, rest);
  }

  lemma EndsByDelivery(s: System, d: DepId, avoid: State) returns (events: seq<Event>)
    requires TableInv(s) && d in s.deps && d in s.parties.left && s.parties.left[d] > 0
    ensures Ended(s, Run(s, events), d, avoid)
  {
    var w := FreshAbove(s.parties.deliveries);
    assert w !in s.parties.deliveries;
    var e := Deliver(w, d);
    StepKeepsInv(s, e);
    var rest := EndsAtStart(Step(s, e), w, d, avoid);
    events := [e] + rest;
    RunCons(s, e, rest);
  }

  lemma EndsByHandler(s: System, h: nat, d: DepId, avoid: State) returns (events: seq<Event>)
    requires TableInv(s) && d in s.deps && h in s.parties.handlers && s.parties.handlers[h].dep == d
    requires HandlerActs(s.parties.handlers[h].phase, avoid)
    ensures Ended(s, Run(s, events), d, avoid)
  {
    if s.parties.handlers[h].phase.Created? {
      var e := Enqueue(h, Some(""), 1);
      StepKeepsInv(s, e);
      var rest := EndsByDelivery(Step(s, e), d, avoid);
      events := [e] + rest;
      RunCons(s, e, rest);
    } else {
      var e := HandlerWrite(h, true, 0);
      events := [e] + [];
      RunCons(s, e, []);
    }
  }

  lemma Ends(s: System, d: DepId, avoid: State) returns (events: seq<Event>)
    requires TableInv(s) && d in s.deps && CanEnd(s.parties, d, avoid)
    ensures Ended(s, Run(s, events), d, avoid)
  {
    var p := s.parties;
    if d in p.left && p.left[d] > 0 {
      events := EndsByDelivery(s, d, avoid);
    } else if h :| h in p.handlers && p.handlers[h].dep == d && HandlerActs(p.handlers[h].phase, avoid) {
      events := EndsByHandler(s, h, d, avoid);
    } else {
      var w :| w in p.deliveries && p.deliveries[w].dep == d && Acts(p.deliveries[w].pc, avoid);
      match p.deliveries[w].pc
      case Start => events := EndsAtStart(s, w, d, avoid);
      case Pipeline => events := EndsAtPipeline(s, w, d, avoid);
      case Failing(_) => events := EndsAtFailing(s, w, d, avoid);
      case Succeeding => events := EndsAtSucceeding(s, w, d, avoid);
    }
  }

  predicate EndsIt(s: System, events: seq<Event>, d: DepId) {
    d in Run(s, events).deps && !IsActive(Run(s, events).deps[d].state)
  }

  ghost function StateOf(s: System, d: DepId): Option<State> {
    if d in s.deps then Some(s.deps[d].state) else None
  }

  /** An active deployment can still end exactly when an attempt is left, its handler has not enqueued
      or not yet marked it failed, or a worker is still at it. */
  lemma EndsExactly(s: System, d: DepId)
    requires TableInv(s) && d in s.deps && IsActive(s.deps[d].state)
    ensures (exists events :: EndsIt(s, events, d)) <==> CanEnd(s.parties, d, Queued)
  {
    if CanEnd(s.parties, d, Queued) {
      var events := Ends(s, d, Queued);
      assert EndsIt(s, events, d);
    } else {
      forall events
        ensures !EndsIt(s, events, d)
      {
        JammedForever(s, events, d, 0, 0, None);
      }
    }
  }

  /** A late attach takes effect once no other deployment of the app is active. */
  lemma AttachReopens(s: System, d: DepId) returns (events: seq<Event>)
    requires TableInv(s) && d in s.deps && !IsActive(s.deps[d].state)
    requires AttachPending(s.parties, d) && !JammedBeside(s, d)
    ensures StateOf(Run(s, events), d) == Some(Queued)
  {
    var h :| h in s.parties.handlers && s.parties.handlers[h].dep == d && s.parties.handlers[h].phase.Attaching?;
    var first := [];
    if o :| o in s.deps && o != d && s.deps[o].app == s.deps[d].app && IsActive(s.deps[o].state) {
      assert !Jammed(s, o);
      first := Ends(s, o, Queued);
      FactsAreWriteOnce(s, first, o);
      FactsAreWriteOnce(s, first, d);
      EndingUnblocks(s, Run(s, first), o, d);
    }
    var r := Run(s, first);
    assert r.parties.handlers[h] == s.parties.handlers[h];
    var e := HandlerWrite(h, true, 0);
    AttachWrites(r, h, d);
    events := first + ([e] + []);
    RunAppend(s, first, [e] + []);
    RunCons(r, e, []);
  }

  lemma AttachWrites(r: System, h: nat, d: DepId)
    requires h in r.parties.handlers && r.parties.handlers[h].dep == d && r.parties.handlers[h].phase.Attaching?
    requires d in r.parties.left && d in r.deps && !Blocked(r.deps, r.deps[d].app, d)
    ensures StateOf(Step(r, HandlerWrite(h, true, 0)), d) == Some(Queued)
  {
  }

  lemma EndingUnblocks(s: System, r: System, o: DepId, d: DepId)
    requires TableInv(s) && d in s.deps && o != d && o in s.deps && s.deps[o].app == s.deps[d].app && IsActive(s.deps[o].state)
    requires Ended(s, r, o, Queued) && d in r.deps && r.deps[o].app == s.deps[o].app
    ensures !Blocked(r.deps, r.deps[d].app, d)
  {
  }

  /** An ended deployment keeps its state in every continuation exactly when it is final. */
  lemma AbsorbingExactly(s: System, d: DepId)
    requires TableInv(s) && d in s.deps && !IsActive(s.deps[d].state)
    ensures (forall events :: StateOf(Run(s, events), d) == Some(s.deps[d].state)) <==> Final(s, d)
  {
    if Final(s, d) {
      forall events
        ensures StateOf(Run(s, events), d) == Some(s.deps[d].state)
      {
        FinalRun(s, events, d);
      }
    } else {
      var events;
      if CanEnd(s.parties, d, s.deps[d].state) {
        events := Ends(s, d, s.deps[d].state);
      } else {
        events := AttachReopens(s, d);
      }
      assert StateOf(Run(s, events), d) != Some(s.deps[d].state);
    }
  }

  // ------------------------------------------------------------- how long a job stays attached

  /** A worker at `pc` can still make its job succeed. */
  predicate MaySucceed(pc: Pc) {
    pc.Start? || pc.Pipeline? || pc.Succeeding? || pc.Completing?
  }

  /** The job of the deployment has succeeded or still can, or its handler has yet to enqueue it. */
  ghost predicate JobEnds(p: Parties, d: DepId) {
    || (d in p.left && (d in p.succeeded || p.left[d] > 0
                        || exists w :: w in p.deliveries && p.deliveries[w].dep == d && MaySucceed(p.deliveries[w].pc)))
    || (exists h :: h in p.handlers && p.handlers[h].dep == d && p.handlers[h].phase.Created?)
  }

  predicate Detached(s: System, events: seq<Event>, d: DepId) {
    d in Run(s, events).deps && Run(s, events).deps[d].job.None?
  }

  lemma JobStays(s: System, e: Event, d: DepId)
    requires d in s.deps && !JobEnds(s.parties, d)
    ensures !JobEnds(EffectOf(s, e).parties, d) && EffectOf(s, e).change != Detach(d)
  {
    match e
    case Work(w, result, ok, now) =>
      if w in s.parties.deliveries {
        WorkKeepsJob(s.parties, w, result, ok, now, d);
      }
    case _ =>
  }

  lemma WorkKeepsJob(p: Parties, w: nat, result: Result, ok: bool, now: int, d: DepId)
    requires w in p.deliveries && !JobEnds(p, d)
    ensures !JobEnds(WorkEffect(p, w, result, ok, now).parties, d) && !WorkEffect(p, w, result, ok, now).change.Detach?
  {
  }

  lemma ApplyKeepsJob(deps: map<DepId, Deployment>, c: Change, d: DepId)
    requires d in deps && deps[d].job.Some? && c != Detach(d)
    ensures d in Apply(deps, c) && Apply(deps, c)[d].job.Some?
  {
  }

  lemma {:induction false} JobStaysForever(s: System, events: seq<Event>, d: DepId)
    requires d in s.deps && s.deps[d].job.Some? && !JobEnds(s.parties, d)
    ensures !Detached(s, events, d)
    decreases |events|
  {
    if events != [] {
      JobStays(s, events[0], d);
      ApplyKeepsJob(s.deps, EffectOf(s, events[0]).change, d);
      JobStaysForever(Step(s, events[0]), events[1..], d);
    }
  }

  lemma DetachSucceeded(s: System, d: DepId) returns (events: seq<Event>)
    requires d in s.deps && d in s.parties.left && d in s.parties.succeeded
    ensures Detached(s, events, d)
  {
    events := [Prune(d)] + [];
    RunCons(s, Prune(d), []);
  }

  lemma DetachCompleting(s: System, w: nat, d: DepId) returns (events: seq<Event>)
    requires d in s.deps && d in s.parties.left
    requires w in s.parties.deliveries && s.parties.deliveries[w] == Delivery(d, Completing)
    ensures Detached(s, events, d)
  {
    var e := Work(w, Released, true, 0);
    var rest := DetachSucceeded(Step(s, e), d);
    events := [e] + rest;
    RunCons(s, e, rest);
  }

  /** A worker that may succeed does so in at most three more steps. */
  lemma {:induction false} DetachWorking(s: System, w: nat, d: DepId) returns (events: seq<Event>)
    requires d in s.deps && d in s.parties.left
    requires w in s.parties.deliveries && s.parties.deliveries[w].dep == d && MaySucceed(s.parties.deliveries[w].pc)
    ensures Detached(s, events, d)
    decreases var pc := s.parties.deliveries[w].pc; if pc.Start? then 3 else if pc.Pipeline? then 2 else if pc.Succeeding? then 1 else 0
  {
    if s.parties.deliveries[w].pc.Completing? {
      events := DetachCompleting(s, w, d);
    } else {
      var e := Work(w, Released, false, 0);
      WorkGoesOn(s, w, d);
      var rest := DetachWorking(Step(s, e), w, d);
      events := [e] + rest;
      RunCons(s, e, rest);
    }
  }

  lemma WorkGoesOn(s: System, w: nat, d: DepId)
    requires d in s.deps && d in s.parties.left
    requires w in s.parties.deliveries && s.parties.deliveries[w].dep == d
    requires MaySucceed(s.parties.deliveries[w].pc) && !s.parties.deliveries[w].pc.Completing?
    ensures var r := Step(s, Work(w, Released, false, 0));
            var pc := s.parties.deliveries[w].pc;
            && d in r.deps && d in r.parties.left && w in r.parties.deliveries
            && r.parties.deliveries[w] == Delivery(d, if pc.Start? then Pipeline else if pc.Pipeline? then Succeeding else Completing)
  {
  }

  lemma DetachByDelivery(s: System, d: DepId) returns (events: seq<Event>)
    requires d in s.deps && d in s.parties.left && s.parties.left[d] > 0
    ensures Detached(s, events, d)
  {
    var w := FreshAbove(s.parties.deliveries);
    assert w !in s.parties.deliveries;
    var e := Deliver(w, d);
    var rest := DetachWorking(Step(s, e), w, d);
    events := [e] + rest;
    RunCons(s, e, rest);
  }

  lemma Detaches(s: System, d: DepId) returns (events: seq<Event>)
    requires d in s.deps && JobEnds(s.parties, d)
    ensures Detached(s, events, d)
  {
    var p := s.parties;
    if h :| h in p.handlers && p.handlers[h].dep == d && p.handlers[h].phase.Created? {
      var e := Enqueue(h, Some(""), 1);
      var rest := DetachByDelivery(Step(s, e), d);
      events := [e] + rest;
      RunCons(s, e, rest);
    } else if d in p.succeeded {
      events := DetachSucceeded(s, d);
    } else if p.left[d] > 0 {
      events := DetachByDelivery(s, d);
    } else {
      var w :| w in p.deliveries && p.deliveries[w].dep == d && MaySucceed(p.deliveries[w].pc);
      events := DetachWorking(s, w, d);
    }
  }

  /** An attached job stays attached in every continuation exactly when it has not succeeded and no
      longer can: only succeeded jobs are pruned. */
  lemma JobKeptExactly(s: System, d: DepId)
    requires d in s.deps && s.deps[d].job.Some?
    ensures (forall events :: !Detached(s, events, d)) <==> !JobEnds(s.parties, d)
  {
    if JobEnds(s.parties, d) {
      var events := Detaches(s, d);
      assert Detached(s, events, d);
    } else {
      forall events
        ensures !Detached(s, events, d)
      {
        JobStaysForever(s, events, d);
      }
    }
  }

  // ------------------------------------------------------------- attach first, deliver once

  /** The job is delivered only after its handler is done, and has one attempt. */
  ghost predicate Orderly(s: System, e: Event) {
    && (e.Deliver? ==> forall h :: h in s.parties.handlers ==> s.parties.handlers[h].dep != e.dep)
    && (e.Enqueue? ==> e.attempts == 1)
  }

  ghost predicate OrderlyRun(s: System, events: seq<Event>)
    decreases |events|
  {
    events == [] || (Orderly(s, events[0]) && OrderlyRun(Step(s, events[0]), events[1..]))
  }

  /** Each deployment has one party at a time, and only rows of the table have any. */
  ghost predicate OneParty(p: Parties, ids: set<DepId>) {
    && (forall h :: h in p.handlers ==> p.handlers[h].dep in ids)
    && (forall w :: w in p.deliveries ==> p.deliveries[w].dep in ids)
    && p.left.Keys <= ids
    && (forall d :: d in p.left ==> p.left[d] <= 1)
    && (forall h, k :: h in p.handlers && k in p.handlers && p.handlers[h].dep == p.handlers[k].dep ==> h == k)
    && (forall v, w :: v in p.deliveries && w in p.deliveries && p.deliveries[v].dep == p.deliveries[w].dep ==> v == w)
    && (forall w :: w in p.deliveries ==> Spent(p, p.deliveries[w].dep))
    && (forall h, w :: h in p.handlers && w in p.deliveries ==> p.handlers[h].dep != p.deliveries[w].dep)
    && (forall h :: h in p.handlers && !p.handlers[h].phase.Attaching? ==> p.handlers[h].dep !in p.left)
    && (forall d :: d in p.succeeded ==> Spent(p, d))
    && (forall w :: w in p.deliveries ==> p.deliveries[w].dep !in p.succeeded)
  }

  predicate Spent(p: Parties, d: DepId) {
    d in p.left && p.left[d] == 0
  }

  /** Nobody will write the deployment again. */
  ghost predicate Over(p: Parties, d: DepId) {
    && (d in p.left ==> p.left[d] == 0)
    && (forall h :: h in p.handlers ==> p.handlers[h].dep != d)
    && (forall w :: w in p.deliveries && p.deliveries[w].dep == d ==> p.deliveries[w].pc.Completing?)
  }

  ghost predicate OrderInv(s: System) {
    && OneParty(s.parties, s.deps.Keys)
    && (forall d :: d in s.deps && !IsActive(s.deps[d].state) ==> Over(s.parties, d))
  }

  lemma WorkKeepsOneParty(p: Parties, ids: set<DepId>, w: nat, result: Result, ok: bool, now: int)
    requires OneParty(p, ids) && w in p.deliveries
    ensures OneParty(WorkEffect(p, w, result, ok, now).parties, ids)
  {
    var f := WorkEffect(p, w, result, ok, now).parties;
    WorkShape(p, w, result, ok, now);
    if w in f.deliveries {
      MoveKeepsOneParty(p, ids, w, f.deliveries[w].pc, f.released);
    } else {
      SettleKeepsOneParty(p, ids, w, f.succeeded);
    }
  }

  /** A worker of the last attempt either moves on or leaves. */
  lemma WorkShape(p: Parties, w: nat, result: Result, ok: bool, now: int)
    requires w in p.deliveries && Spent(p, p.deliveries[w].dep)
    ensures var f := WorkEffect(p, w, result, ok, now).parties;
            if w in f.deliveries then f == WorkAt(p, w, f.deliveries[w].pc).(released := f.released)
            else f == p.(deliveries := p.deliveries - {w}, succeeded := f.succeeded)
                 && p.succeeded <= f.succeeded <= p.succeeded + {p.deliveries[w].dep}
  {
    assert p.left[p.deliveries[w].dep := 0] == p.left;
  }

  lemma SettleKeepsOneParty(p: Parties, ids: set<DepId>, w: nat, succeeded: set<DepId>)
    requires OneParty(p, ids) && w in p.deliveries
    requires p.succeeded <= succeeded <= p.succeeded + {p.deliveries[w].dep}
    ensures OneParty(p.(deliveries := p.deliveries - {w}, succeeded := succeeded), ids)
  {
  }

  lemma PruneKeepsOneParty(p: Parties, ids: set<DepId>, dep: DepId)
    requires OneParty(p, ids)
    ensures OneParty(PruneEffect(p, dep).parties, ids)
  {
  }

  lemma MoveKeepsOneParty(p: Parties, ids: set<DepId>, w: nat, pc: Pc, released: set<DepId>)
    requires OneParty(p, ids) && w in p.deliveries
    ensures OneParty(WorkAt(p, w, pc).(released := released), ids)
  {
  }

  lemma EnqueueKeepsOneParty(p: Parties, ids: set<DepId>, h: nat, job: Option<string>)
    requires OneParty(p, ids)
    ensures OneParty(Enqueued(p, h, job, 1), ids)
  {
  }

  lemma DeliverKeepsOneParty(p: Parties, ids: set<DepId>, w: nat, dep: DepId)
    requires OneParty(p, ids) && forall h :: h in p.handlers ==> p.handlers[h].dep != dep
    ensures OneParty(Delivered(p, w, dep), ids)
  {
  }

  lemma CreateKeepsOneParty(p: Parties, ids: set<DepId>, h: nat, id: DepId)
    requires OneParty(p, ids) && h !in p.handlers && id !in ids
    ensures OneParty(p.(handlers := p.handlers[h := Handler(id, Created)]), ids + {id})
  {
  }

  lemma HandlerLeaves(p: Parties, ids: set<DepId>, h: nat)
    requires OneParty(p, ids)
    ensures OneParty(p.(handlers := p.handlers - {h}), ids)
  {
  }

  lemma WorkerLeaves(p: Parties, ids: set<DepId>, w: nat)
    requires OneParty(p, ids)
    ensures OneParty(p.(deliveries := p.deliveries - {w}), ids)
  {
  }

  lemma EffectKeepsOneParty(s: System, e: Event)
    requires OneParty(s.parties, s.deps.Keys) && Orderly(s, e)
    ensures OneParty(EffectOf(s, e).parties, Step(s, e).deps.Keys)
  {
    var p, ids := s.parties, s.deps.Keys;
    ApplyKeys(s.deps, EffectOf(s, e).change);
    match e
    case Create(h, id, app, key) =>
      if h !in p.handlers && Accepts(s.deps, id, app, key) {
        CreateKeepsOneParty(p, ids, h, id);
      }
    case Enqueue(h, job, attempts) => EnqueueKeepsOneParty(p, ids, h, job);
    case HandlerWrite(h, ok, now) => HandlerLeaves(p, ids, h);
    case HandlerLost(h) => HandlerLeaves(p, ids, h);
    case Deliver(w, dep) => DeliverKeepsOneParty(p, ids, w, dep);
    case WorkerLost(w) => WorkerLeaves(p, ids, w);
    case Work(w, result, ok, now) =>
      if w in p.deliveries {
        WorkKeepsOneParty(p, ids, w, result, ok, now);
      }
    case Prune(dep) => PruneKeepsOneParty(p, ids, dep);
  }

  lemma ApplyKeys(deps: map<DepId, Deployment>, c: Change)
    ensures Apply(deps, c).Keys == if c.Add? && Accepts(deps, c.id, c.app, c.key) then deps.Keys + {c.id} else deps.Keys
  {
  }

  lemma OverStays(s: System, e: Event, d: DepId)
    requires d in s.deps && Over(s.parties, d)
    ensures Over(EffectOf(s, e).parties, d) && !(EffectOf(s, e).change.Put? && EffectOf(s, e).change.id == d)
  {
  }

  lemma EndingIsOver(s: System, e: Event)
    requires OneParty(s.parties, s.deps.Keys)
    requires EffectOf(s, e).change.Put? && !IsActive(EffectOf(s, e).change.st)
    ensures Over(EffectOf(s, e).parties, EffectOf(s, e).change.id)
  {
  }

  lemma OrderStep(s: System, e: Event)
    requires OrderInv(s) && Orderly(s, e)
    ensures OrderInv(Step(s, e))
  {
    var f, next := EffectOf(s, e), Step(s, e);
    EffectKeepsOneParty(s, e);
    forall d | d in next.deps && !IsActive(next.deps[d].state)
      ensures Over(next.parties, d)
    {
      EndedBefore(s.deps, f.change, d);
      if f.change.Put? && f.change.id == d && !IsActive(f.change.st) {
        EndingIsOver(s, e);
      } else {
        OverStays(s, e, d);
      }
    }
  }

  lemma EndedBefore(deps: map<DepId, Deployment>, c: Change, d: DepId)
    requires d in Apply(deps, c) && !IsActive(Apply(deps, c)[d].state)
    ensures (d in deps && !IsActive(deps[d].state)) || (c.Put? && c.id == d && !IsActive(c.st))
  {
  }

  lemma {:induction false} OrderRun(s: System, events: seq<Event>)
    requires OrderInv(s) && OrderlyRun(s, events)
    ensures OrderInv(Run(s, events))
    decreases |events|
  {
    if events != [] {
      OrderStep(s, events[0]);
      OrderRun(Step(s, events[0]), events[1..]);
    }
  }

  /** If the attach always comes before the delivery and jobs are delivered once, then a deployment
      that has ended keeps its state in every continuation, orderly or not. */
  lemma OrderlyEndIsFinal(s: System, events: seq<Event>, d: DepId, more: seq<Event>)
    requires OrderInv(s) && OrderlyRun(s, events) && EndsIt(s, events, d)
    ensures StateOf(Run(s, events + more), d) == StateOf(Run(s, events), d)
  {
    OrderRun(s, events);
    OverIsFinal(Run(s, events), d);
    FinalRun(Run(s, events), more, d);
    RunAppend(s, events, more);
  }

  lemma OverIsFinal(s: System, d: DepId)
    requires d in s.deps && !IsActive(s.deps[d].state) && Over(s.parties, d)
    ensures Final(s, d)
  {
  }

  const EMPTY := System(map[], Parties({}, map[], map[], map[], {}))

  lemma EmptyIsOrderly()
    ensures OrderInv(EMPTY) && TableInv(EMPTY)
  {
  }

  lemma TwoSteps(s: System, e: Event, g: Event, rest: seq<Event>)
    ensures Run(s, [e] + ([g] + rest)) == Run(Step(Step(s, e), g), rest)
  {
    RunCons(s, e, [g] + rest);
    RunCons(Step(s, e), g, rest);
  }

  /** One deployment whose handler has enqueued the job but not attached it. */
  function Unattached(d: Deployment, job: string, released: set<DepId>, deliveries: map<nat, Delivery>, left: nat): System {
    System(map[0 := d], Parties(released, map[0 := Handler(0, Attaching(job))], deliveries, map[0 := left], {}))
  }

  lemma LateBegins(app: AppId, key: Option<string>, job: string) returns (events: seq<Event>)
    ensures Run(EMPTY, events) == Unattached(Deployment(app, key, Queued, None, None, None), job, {}, map[], 3)
  {
    var a := Step(EMPTY, Create(0, 0, app, key));
    assert a == System(map[0 := Deployment(app, key, Queued, None, None, None)],
                       Parties({}, map[0 := Handler(0, Created)], map[], map[], {}));
    TwoSteps(EMPTY, Create(0, 0, app, key), Enqueue(0, Some(job), 3), []);
    events := [Create(0, 0, app, key)] + ([Enqueue(0, Some(job), 3)] + []);
  }

  lemma LateStarts(d: Deployment, job: string, now: int) returns (events: seq<Event>)
    requires d.state.Queued? && d.startedAt.None?
    ensures Run(Unattached(d, job, {}, map[], 3), events)
            == Unattached(d.(state := Running, startedAt := Some(now)), job, {}, map[0 := Delivery(0, Pipeline)], 2)
  {
    var s := Unattached(d, job, {}, map[], 3);
    var a := Step(s, Deliver(0, 0));
    assert a == Unattached(d, job, {}, map[0 := Delivery(0, Start)], 2);
    TwoSteps(s, Deliver(0, 0), Work(0, Released, true, now), []);
    events := [Deliver(0, 0)] + ([Work(0, Released, true, now)] + []);
  }

  lemma LateSucceeds(d: Deployment, job: string, now: int) returns (events: seq<Event>)
    requires d.state.Running? && d.finishedAt.None?
    ensures Run(Unattached(d, job, {}, map[0 := Delivery(0, Pipeline)], 2), events)
            == Unattached(d.(state := Succeeded, finishedAt := Some(now)), job, {0}, map[0 := Delivery(0, Completing)], 2)
  {
    var s := Unattached(d, job, {}, map[0 := Delivery(0, Pipeline)], 2);
    var go := Work(0, Released, true, now);
    assert Step(s, go) == Unattached(d, job, {0}, map[0 := Delivery(0, Succeeding)], 2);
    TwoSteps(s, go, go, []);
    events := [go] + ([go] + []);
  }

  lemma LateAttaches(d: Deployment, job: string, now: int) returns (events: seq<Event>)
    requires d.state.Succeeded? && d.finishedAt.Some?
    ensures Run(Unattached(d, job, {0}, map[0 := Delivery(0, Completing)], 2), events)
            == System(map[0 := d.(state := Queued, job := Some(job))], Parties({0}, map[], map[], map[0 := 0], {0}))
  {
    var s := Unattached(d, job, {0}, map[0 := Delivery(0, Completing)], 2);
    var go := Work(0, Released, true, now);
    assert Step(s, go) == System(map[0 := d], Parties({0}, map[0 := Handler(0, Attaching(job))], map[], map[0 := 0], {0}));
    TwoSteps(s, go, HandlerWrite(0, true, now), []);
    events := [go] + ([HandlerWrite(0, true, now)] + []);
  }

  /** Without that order: the worker finishes first, and the attach reopens the deployment, finish
      time and release row included, with nobody left to end it. */
  lemma LateAttachJams(app: AppId, key: Option<string>, job: string, now: int) returns (events: seq<Event>)
    ensures var r := Run(EMPTY, events);
            && r.deps == map[0 := Deployment(app, key, Queued, Some(job), Some(now), Some(now))]
            && 0 in r.parties.released && Jammed(r, 0) && TableInv(r)
  {
    var d := Deployment(app, key, Queued, None, None, None);
    var a := LateBegins(app, key, job);
    var b := LateStarts(d, job, now);
    RunAppend(EMPTY, a, b);
    var c := LateSucceeds(d.(state := Running, startedAt := Some(now)), job, now);
    RunAppend(EMPTY, a + b, c);
    var e := LateAttaches(Deployment(app, key, Succeeded, None, Some(now), Some(now)), job, now);
    RunAppend(EMPTY, a + b + c, e);
    events := a + b + c + e;
    EmptyIsOrderly();
    RunKeepsInv(EMPTY, events);
  }
}

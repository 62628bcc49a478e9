/** Retention: each pass keeps the newest old runs of a plan and marks the rest expired. */
module Retention {
  import opened Collections
  import opened RunStates
  import opened Durations

  type Id = string

  datatype Run = Run(plan: Id, completed: bool, created: int, verification: Verification)

  type Runs = map<Id, Run>

  /** The runs a plan can still be restored from. */
  function Live(runs: Runs, plan: Id): set<Id> {
    set id | id in runs && runs[id].plan == plan && runs[id].completed && !runs[id].verification.Expired?
  }

  /** The live runs a pass looks at: those created before the cutoff. */
  function Old(runs: Runs, plan: Id, cutoff: int): set<Id> {
    set id | id in Live(runs, plan) && runs[id].created < cutoff
  }

  // ------------------------------------------------------------- the query

  /** `order` lists `ids` newest first; runs created at the same instant come in any order. */
  ghost predicate NewestFirst(runs: Runs, ids: set<Id>, order: seq<Id>) {
    && (forall id :: id in ids <==> id in order)
    && (forall id :: id in ids ==> id in runs)
    && (forall i, j :: 0 <= i < j < |order| ==> order[i] != order[j])
    && (forall i, j :: 0 <= i < j < |order| && order[i] in runs && order[j] in runs ==>
          runs[order[j]].created <= runs[order[i]].created)
  }

  function Beyond(order: seq<Id>, keep: nat): seq<Id> {
    if keep <= |order| then order[keep..] else []
  }

  function Expire(runs: Runs, gone: seq<Id>): Runs {
    map id | id in runs :: if id in gone then runs[id].(verification := Expired) else runs[id]
  }

  function Min(a: nat, b: nat): nat {
    if a <= b then a else b
  }

  class RunTable {
    var runs: Runs

    constructor (runs: Runs)
      ensures this.runs == runs
    {
      this.runs := runs;
    }

    /** The query's ordering: take the newest remaining run until none is left. */
    method OrderNewestFirst(ids: set<Id>) returns (order: seq<Id>)
      requires ids <= runs.Keys
      ensures NewestFirst(runs, ids, order)
    {
      order := [];
      var rest := ids;
      while rest != {}
        invariant rest <= ids
        invariant forall id :: id in ids <==> id in order || id in rest
        invariant forall id :: id in rest ==> id !in order
        invariant NewestFirst(runs, ids - rest, order)
        invariant forall i, id :: 0 <= i < |order| && id in rest && order[i] in runs ==>
          runs[id].created <= runs[order[i]].created
        decreases |rest|
      {
        NewestExists(runs, rest);
        var id :| id in rest && forall j :: j in rest ==> runs[j].created <= runs[id].created;
        order := order + [id];
        rest := rest - {id};
      }
    }

    /** Marks every old live run of the plan beyond the newest `keep` expired and returns their ids. */
    method ExpireOldRuns(plan: Id, keep: nat, cutoff: int) returns (gone: seq<Id>, ghost order: seq<Id>)
      modifies this
      ensures NewestFirst(old(runs), Old(old(runs), plan, cutoff), order)
      ensures gone == Beyond(order, keep)
      ensures runs == Expire(old(runs), gone)
      ensures forall id :: id in gone ==> id in Old(old(runs), plan, cutoff)
      ensures |Old(runs, plan, cutoff)| == Min(keep, |Old(old(runs), plan, cutoff)|)
      ensures |Live(runs, plan)| >= Min(keep, |Live(old(runs), plan)|)
    {
      var ids := Old(runs, plan, cutoff);
      var all := OrderNewestFirst(ids);
      order := all;
      PassLeaves(runs, plan, keep, cutoff, order);
      gone := Beyond(all, keep);
      assert forall id :: id in gone ==> id in order;
      runs := Expire(runs, gone);
    }

    /** The scheduler's pass: the cutoff is `days` back, or an hour ahead when there is no age limit. */
    method EnforceRetention(plan: Id, count: int, days: int, now: int) returns (gone: seq<Id>)
      modifies this
      ensures runs == Expire(old(runs), gone)
      ensures forall id :: id in gone ==> id in Old(old(runs), plan, Cutoff(days, now))
      ensures forall id :: id in gone ==>
                && id in old(runs) && old(runs)[id].plan == plan && old(runs)[id].completed
                && old(runs)[id].verification != Expired
                && old(runs)[id].created < if days > 0 then now - 86_400_000_000_000 * days else now + 3_600_000_000_000
      ensures |Old(runs, plan, Cutoff(days, now))| <= if count < 0 then 0 else count
      ensures |Live(runs, plan)| >= Min(if count < 0 then 0 else count, |Live(old(runs), plan)|)
    {
      var keep := if count < 0 then 0 else count;
      ghost var order;
      gone, order := ExpireOldRuns(plan, keep, Cutoff(days, now));
    }
  }

  function Cutoff(days: int, now: int): int {
    if days > 0 then now - days * DAY else now + HOUR
  }

  /** The age limit counts days back from now; without one the cutoff is an hour ahead. */
  lemma CutoffInNanoseconds(now: int, days: int)
    ensures Cutoff(30, now) == now - 2_592_000_000_000_000
    ensures days > 0 ==> Cutoff(days + 1, now) == Cutoff(days, now) - 86_400_000_000_000 && Cutoff(1, now) == now - 86_400_000_000_000
    ensures days <= 0 ==> Cutoff(days, now) == now + 3_600_000_000_000
  {
  }

  lemma {:induction false} NewestExists(runs: Runs, ids: set<Id>)
    requires ids != {} && ids <= runs.Keys
    ensures exists id :: id in ids && forall j :: j in ids ==> runs[j].created <= runs[id].created
    decreases |ids|
  {
    var k :| k in ids;
    var rest := ids - {k};
    var best := k;
    if rest != {} {
      NewestExists(runs, rest);
      var m :| m in rest && forall j :: j in rest ==> runs[j].created <= runs[m].created;
      best := if runs[m].created < runs[k].created then k else m;
    }
    forall j | j in ids
      ensures runs[j].created <= runs[best].created
    {
      assert j == k || j in rest;
    }
  }

  /** An ordering without repeats is as long as the set it lists. */
  lemma {:induction false} OrderLength(runs: Runs, ids: set<Id>, order: seq<Id>)
    requires NewestFirst(runs, ids, order)
    ensures |order| == |ids|
    decreases |order|
  {
    if order == [] {
      assert ids == {};
    } else {
      var last := order[|order| - 1];
      var front := order[..|order| - 1];
      assert order == front + [last];
      assert last in order && last in ids;
      forall id
        ensures id in ids - {last} <==> id in front
      {
      }
      OrderLength(runs, ids - {last}, front);
    }
  }

  // ------------------------------------------------------------- one pass

  ghost function Pass(runs: Runs, plan: Id, keep: nat, cutoff: int, order: seq<Id>): Runs {
    Expire(runs, Beyond(order, keep))
  }

  /** What a pass takes: only old completed runs of the plan, none newer than an old run it keeps. */
  lemma PassTakesOldest(runs: Runs, plan: Id, keep: nat, cutoff: int, order: seq<Id>, id: Id, other: Id)
    requires NewestFirst(runs, Old(runs, plan, cutoff), order) && id in Beyond(order, keep)
    ensures id in runs && runs[id].plan == plan && runs[id].completed && runs[id].created < cutoff
    ensures other in Old(Pass(runs, plan, keep, cutoff, order), plan, cutoff) ==> runs[id].created <= runs[other].created
  {
    var i :| keep <= i < |order| && order[i] == id;
    assert id in order;
    var after := Pass(runs, plan, keep, cutoff, order);
    if other in Old(after, plan, cutoff) {
      KeptIsFront(runs, plan, keep, cutoff, order, other);
      var j :| 0 <= j < Min(keep, |order|) && order[..Min(keep, |order|)][j] == other;
      assert order[i] in runs && order[j] in runs;
    }
  }

  /** What a pass leaves: the newest `keep` old runs, and everything else untouched. */
  lemma PassLeaves(runs: Runs, plan: Id, keep: nat, cutoff: int, order: seq<Id>)
    requires NewestFirst(runs, Old(runs, plan, cutoff), order)
    ensures var after := Pass(runs, plan, keep, cutoff, order);
            && |Old(after, plan, cutoff)| == Min(keep, |Old(runs, plan, cutoff)|)
            && |Live(after, plan)| >= Min(keep, |Live(runs, plan)|)
            && (forall id :: id in Old(after, plan, cutoff) <==> id in order[..Min(keep, |order|)])
  {
    OrderLength(runs, Old(runs, plan, cutoff), order);
    KeptCount(runs, plan, keep, cutoff, order);
    LiveSplits(runs, plan, keep, cutoff, order);
  }

  lemma KeptCount(runs: Runs, plan: Id, keep: nat, cutoff: int, order: seq<Id>)
    requires NewestFirst(runs, Old(runs, plan, cutoff), order)
    ensures var after := Pass(runs, plan, keep, cutoff, order);
            && |Old(after, plan, cutoff)| == Min(keep, |order|)
            && (forall id :: id in Old(after, plan, cutoff) <==> id in order[..Min(keep, |order|)])
  {
    var after := Pass(runs, plan, keep, cutoff, order);
    var n := Min(keep, |order|);
    forall id
      ensures id in Old(after, plan, cutoff) <==> id in order[..n]
    {
      KeptIsFront(runs, plan, keep, cutoff, order, id);
    }
    FrontOrder(runs, after, Old(runs, plan, cutoff), Old(after, plan, cutoff), order, n);
    OrderLength(after, Old(after, plan, cutoff), order[..n]);
  }

  /** A pass changes nothing else. */
  lemma PassFrame(runs: Runs, plan: Id, keep: nat, cutoff: int, order: seq<Id>, id: Id)
    requires NewestFirst(runs, Old(runs, plan, cutoff), order) && id in runs && id !in Old(runs, plan, cutoff)
    ensures id in Pass(runs, plan, keep, cutoff, order) && Pass(runs, plan, keep, cutoff, order)[id] == runs[id]
  {
    assert id in Beyond(order, keep) ==> id in order;
  }

  lemma FrontOrder(runs: Runs, after: Runs, ids: set<Id>, kept: set<Id>, order: seq<Id>, n: nat)
    requires NewestFirst(runs, ids, order) && n <= |order| && kept <= after.Keys <= runs.Keys
    requires forall id :: id in kept <==> id in order[..n]
    requires forall id :: id in after ==> after[id].created == runs[id].created
    ensures NewestFirst(after, kept, order[..n])
  {
  }

  lemma LiveSplits(runs: Runs, plan: Id, keep: nat, cutoff: int, order: seq<Id>)
    requires NewestFirst(runs, Old(runs, plan, cutoff), order)
    ensures var after := Pass(runs, plan, keep, cutoff, order);
            |Live(after, plan)| - |Old(after, plan, cutoff)| == |Live(runs, plan)| - |Old(runs, plan, cutoff)|
    ensures |Old(runs, plan, cutoff)| <= |Live(runs, plan)|
  {
    var after := Pass(runs, plan, keep, cutoff, order);
    var rest := Live(runs, plan) - Old(runs, plan, cutoff);
    forall id
      ensures id in Live(after, plan) <==> id in Old(after, plan, cutoff) + rest
    {
      assert id in Beyond(order, keep) ==> id in order;
    }
    assert Live(after, plan) == Old(after, plan, cutoff) + rest;
    assert Live(runs, plan) == Old(runs, plan, cutoff) + rest;
    assert Old(after, plan, cutoff) !! rest;
  }

  lemma KeptIsFront(runs: Runs, plan: Id, keep: nat, cutoff: int, order: seq<Id>, id: Id)
    requires NewestFirst(runs, Old(runs, plan, cutoff), order)
    ensures id in Old(Pass(runs, plan, keep, cutoff, order), plan, cutoff) <==> id in order[..Min(keep, |order|)]
  {
    var n := Min(keep, |order|);
    assert Beyond(order, keep) == order[n..];
    assert id in Old(Pass(runs, plan, keep, cutoff, order), plan, cutoff) <==> id in order && id !in order[n..];
    FrontOrBack(order, n, id);
  }

  lemma FrontOrBack(order: seq<Id>, n: nat, id: Id)
    requires n <= |order| && forall i, j :: 0 <= i < j < |order| ==> order[i] != order[j]
    ensures id in order && id !in order[n..] <==> id in order[..n]
  {
    assert order == order[..n] + order[n..];
  }

  /** With a count of at least one, a newest live run stays live. */
  lemma NewestSurvives(runs: Runs, plan: Id, keep: nat, cutoff: int, order: seq<Id>)
    requires NewestFirst(runs, Old(runs, plan, cutoff), order) && keep >= 1 && (exists id :: id in Live(runs, plan))
    ensures exists id :: id in Live(Pass(runs, plan, keep, cutoff, order), plan)
                         && forall j :: j in Live(runs, plan) ==> runs[j].created <= runs[id].created
  {
    var after := Pass(runs, plan, keep, cutoff, order);
    NewestExists(runs, Live(runs, plan));
    var id :| id in Live(runs, plan) && forall j :: j in Live(runs, plan) ==> runs[j].created <= runs[id].created;
    if id !in Live(after, plan) {
      assert id in Beyond(order, keep) && id in order;
      var first := order[0];
      KeptIsFront(runs, plan, keep, cutoff, order, first);
      assert first in order[..Min(keep, |order|)];
      assert first in Live(after, plan);
      var i :| 0 <= i < |order| && order[i] == id;
      assert runs[id].created <= runs[first].created;
      assert forall j :: j in Live(runs, plan) ==> runs[j].created <= runs[first].created;
    }
  }

  /** A second pass that asks for no more than the first finds nothing left to expire. */
  lemma SecondPassIsEmpty(runs: Runs, plan: Id, keep: nat, cutoff: int, order: seq<Id>,
                          keep': nat, cutoff': int, order': seq<Id>)
    requires NewestFirst(runs, Old(runs, plan, cutoff), order) && keep' >= keep && cutoff' <= cutoff
    requires NewestFirst(Pass(runs, plan, keep, cutoff, order),
                         Old(Pass(runs, plan, keep, cutoff, order), plan, cutoff'), order')
    ensures Beyond(order', keep') == []
  {
    var after := Pass(runs, plan, keep, cutoff, order);
    PassLeaves(runs, plan, keep, cutoff, order);
    OrderLength(after, Old(after, plan, cutoff'), order');
    SubsetSize(Old(after, plan, cutoff'), Old(after, plan, cutoff));
  }

  // ------------------------------------------------------------- many passes

  datatype Event =
    | Insert(id: Id, plan: Id, created: int)
    | Complete(id: Id)
    | Verify(id: Id, verdict: Verification)
    | Retain(plan: Id, keep: nat, cutoff: int, order: seq<Id>)   // the order the database happened to use

  /** The ids a step hands to the delete queue. */
  ghost function Returned(runs: Runs, e: Event): seq<Id> {
    if e.Retain? && NewestFirst(runs, Old(runs, e.plan, e.cutoff), e.order) then Beyond(e.order, e.keep) else []
  }

  ghost function Step(runs: Runs, e: Event): Runs {
    match e
    case Insert(id, plan, created) =>
      if id in runs then runs else runs[id := Run(plan, false, created, Unverified)]
    case Complete(id) => if id in runs then runs[id := runs[id].(completed := true)] else runs
    case Verify(id, v) => if id in runs then runs[id := runs[id].(verification := v)] else runs
    case Retain(_, _, _, _) => Expire(runs, Returned(runs, e))
  }

  ghost function After(runs: Runs, events: seq<Event>): Runs
    decreases |events|
  {
    if events == [] then runs else After(Step(runs, events[0]), events[1..])
  }

  /** A new run can be restored from once it is complete, not before, and is old from then on for every
      cutoff after its creation. */
  lemma NewRunIsLive(runs: Runs, id: Id, plan: Id, created: int, cutoff: int)
    requires id !in runs
    ensures var queued := Step(runs, Insert(id, plan, created));
            var done := Step(queued, Complete(id));
            && Live(queued, plan) == Live(runs, plan) && Live(done, plan) == Live(runs, plan) + {id}
            && (id in Old(done, plan, cutoff) <==> created < cutoff)
  {
  }

  ghost predicate Revives(e: Event, id: Id) {
    e.Verify? && e.id == id && !e.verdict.Expired?
  }

  lemma {:induction false} StaysExpired(runs: Runs, events: seq<Event>, id: Id)
    requires id in runs && runs[id].verification.Expired?
    requires forall k :: 0 <= k < |events| ==> !Revives(events[k], id)
    ensures id in After(runs, events) && After(runs, events)[id].verification.Expired?
    decreases |events|
  {
    if events != [] {
      assert !Revives(events[0], id);
      StaysExpired(Step(runs, events[0]), events[1..], id);
    }
  }

  lemma ReturnedIsLive(runs: Runs, e: Event, id: Id)
    requires id in Returned(runs, e)
    ensures e.Retain? && id in Live(runs, e.plan)
  {
    assert id in e.order;
    assert id in Old(runs, e.plan, e.cutoff);
  }

  /** An id is handed out again only if a verification rewrote its state in between, for every
      history; so without verify steps no id is ever returned twice. */
  lemma ReturnedAgain(runs: Runs, first: Event, between: seq<Event>, second: Event, id: Id)
    requires id in Returned(runs, first)
    requires id in Returned(After(Step(runs, first), between), second)
    ensures exists k :: 0 <= k < |between| && Revives(between[k], id)
  {
    if forall k :: 0 <= k < |between| ==> !Revives(between[k], id) {
      ReturnedIsLive(runs, first, id);
      StaysExpired(Step(runs, first), between, id);
      ReturnedIsLive(After(Step(runs, first), between), second, id);
    }
  }

  /** The event marks the run expired: a pass takes it, or a verification says so. */
  ghost predicate Expires(runs: Runs, e: Event, id: Id) {
    (e.Verify? && e.id == id && e.verdict.Expired?) || id in Returned(runs, e)
  }

  ghost predicate NeverExpires(runs: Runs, events: seq<Event>, id: Id)
    decreases |events|
  {
    events == [] || (!Expires(runs, events[0], id) && NeverExpires(Step(runs, events[0]), events[1..], id))
  }

  /** Some event of the history revives the run and none after it expires it. */
  ghost predicate Revived(runs: Runs, events: seq<Event>, id: Id)
    decreases |events|
  {
    events != [] &&
    var next, rest := Step(runs, events[0]), events[1..];
    Revived(next, rest, id) || (Revives(events[0], id) && NeverExpires(next, rest, id))
  }

  lemma StepKeepsRun(runs: Runs, e: Event, id: Id)
    requires id in runs
    ensures var next := Step(runs, e);
            && id in next && next[id].plan == runs[id].plan && next[id].created == runs[id].created
            && (runs[id].completed ==> next[id].completed)
            && (next[id].verification.Expired? <==>
                  Expires(runs, e, id) || (runs[id].verification.Expired? && !Revives(e, id)))
  {
  }

  /** A run's mark after any history: not expired exactly when it was revived for good, or started
      unexpired and never was expired. */
  lemma {:induction false} MarkExactly(runs: Runs, events: seq<Event>, id: Id)
    requires id in runs
    ensures var end := After(runs, events);
            && id in end && end[id].plan == runs[id].plan && end[id].created == runs[id].created
            && (runs[id].completed ==> end[id].completed)
            && (!end[id].verification.Expired? <==>
                  Revived(runs, events, id) || (!runs[id].verification.Expired? && NeverExpires(runs, events, id)))
    decreases |events|
  {
    if events != [] {
      StepKeepsRun(runs, events[0], id);
      MarkExactly(Step(runs, events[0]), events[1..], id);
    }
  }

  lemma {:induction false} OrderExists(runs: Runs, ids: set<Id>) returns (order: seq<Id>)
    requires ids <= runs.Keys
    ensures NewestFirst(runs, ids, order)
    decreases |ids|
  {
    order := [];
    if ids != {} {
      NewestExists(runs, ids);
      var first :| first in ids && forall j :: j in ids ==> runs[j].created <= runs[first].created;
      var rest := OrderExists(runs, ids - {first});
      order := [first] + rest;
      NewestCons(runs, ids, first, rest);
    }
  }

  lemma NewestCons(runs: Runs, ids: set<Id>, first: Id, rest: seq<Id>)
    requires first in ids && first in runs && NewestFirst(runs, ids - {first}, rest)
    requires forall j :: j in ids ==> j in runs && runs[j].created <= runs[first].created
    ensures NewestFirst(runs, ids, [first] + rest)
  {
    var order := [first] + rest;
    forall id
      ensures id in ids <==> id in order
    {
      assert id in ids <==> id == first || id in ids - {first};
    }
    forall i, j | 0 <= i < j < |order|
      ensures order[i] != order[j] && runs[order[j]].created <= runs[order[i]].created
    {
      assert order[j] == rest[j - 1] && rest[j - 1] in rest && rest[j - 1] in ids - {first};
    }
  }

  /** Any live run can be taken by some pass. */
  lemma LiveCanBeTaken(runs: Runs, plan: Id, id: Id) returns (pass: Event)
    requires id in Live(runs, plan)
    ensures id in Returned(runs, pass)
  {
    var cutoff := runs[id].created + 1;
    var order := OrderExists(runs, Old(runs, plan, cutoff));
    pass := Retain(plan, 0, cutoff, order);
    assert Beyond(order, 0) == order;
  }

  /** Exactly when an id that a pass has returned can be returned again after a history: some event
      revived the run and nothing has expired it since. */
  lemma ReturnedAgainExactly(runs: Runs, first: Event, between: seq<Event>, id: Id)
    requires id in Returned(runs, first)
    ensures (exists second :: id in Returned(After(Step(runs, first), between), second))
            <==> Revived(Step(runs, first), between, id)
  {
    var next := Step(runs, first);
    var end := After(next, between);
    ReturnedIsLive(runs, first, id);
    StepKeepsRun(runs, first, id);
    MarkExactly(next, between, id);
    if second :| id in Returned(end, second) {
      ReturnedIsLive(end, second, id);
    }
    if Revived(next, between, id) {
      assert id in Live(end, end[id].plan);
      var second := LiveCanBeTaken(end, end[id].plan, id);
    }
  }

  /** In particular a verification brings any expired run back to the queue. */
  lemma VerifyReturnsAgain(runs: Runs, first: Event, id: Id, verdict: Verification) returns (second: Event)
    requires id in Returned(runs, first) && !verdict.Expired?
    ensures id in Returned(Step(Step(runs, first), Verify(id, verdict)), second)
  {
    var next := Step(runs, first);
    ReturnedIsLive(runs, first, id);
    StepKeepsRun(runs, first, id);
    StepKeepsRun(next, Verify(id, verdict), id);
    second := LiveCanBeTaken(Step(next, Verify(id, verdict)), runs[id].plan, id);
  }

  /** Over any history whose passes keep at least `keep`, a plan never falls below `keep` live runs,
      or below what it had. */
  lemma {:induction false} RetentionFloor(runs: Runs, events: seq<Event>, plan: Id, keep: nat)
    requires forall k :: 0 <= k < |events| ==> KeepsAtLeast(events[k], plan, keep)
    ensures |Live(After(runs, events), plan)| >= Min(keep, |Live(runs, plan)|)
    decreases |events|
  {
    if events != [] {
      assert KeepsAtLeast(events[0], plan, keep);
      FloorStep(runs, events[0], plan, keep);
      RetentionFloor(Step(runs, events[0]), events[1..], plan, keep);
    }
  }

  ghost predicate KeepsAtLeast(e: Event, plan: Id, keep: nat) {
    && (e.Retain? && e.plan == plan ==> e.keep >= keep)
    && (e.Verify? ==> !e.verdict.Expired?)
  }

  lemma FloorStep(runs: Runs, e: Event, plan: Id, keep: nat)
    requires KeepsAtLeast(e, plan, keep)
    ensures |Live(Step(runs, e), plan)| >= Min(keep, |Live(runs, plan)|)
  {
    if e.Retain? && e.plan == plan && NewestFirst(runs, Old(runs, plan, e.cutoff), e.order) {
      PassLeaves(runs, plan, e.keep, e.cutoff, e.order);
    } else {
      forall id | id in Live(runs, plan)
        ensures id in Live(Step(runs, e), plan)
      {
        if e.Retain? && id in Returned(runs, e) {
          ReturnedIsLive(runs, e, id);
        }
      }
      SubsetSize(Live(runs, plan), Live(Step(runs, e), plan));
    }
  }
}

/** The scheduler pass over due plans: who is served when, and how often.

A pass reads at most fifty due plans, oldest `next_run_at` first, requests a run for each and
moves its `next_run_at` to the cron expression's next minute.  A plan without a cron
expression, or whose search fails, keeps its `next_run_at`.  A plan whose expression panics ends the
pass, and the process with it; the plans behind it are not got to. */
module Scheduler {
  import opened Text
  import opened Collections
  import Cron

  type PlanId = string

  datatype PlanState = Active | Suspended | PendingDelete | Deleted

  /** The columns the pass reads and writes; times are nanoseconds. */
  datatype Plan = Plan(enabled: bool, state: PlanState, tombstoned: bool, nextRunAt: Option<int>, cron: string)

  type Plans = map<PlanId, Plan>

  const DUE_LIMIT := 50

  predicate Schedulable(p: Plan) {
    p.enabled && p.state.Active? && !p.tombstoned
  }

  /** A plan the due query can see, by the time it is due. */
  predicate DueBy(p: Plan, key: int) {
    Schedulable(p) && p.nextRunAt.Some? && p.nextRunAt.value <= key
  }

  function DueSet(plans: Plans, key: int): set<PlanId> {
    set id | id in plans && DueBy(plans[id], key)
  }

  ghost predicate Distinct(ids: seq<PlanId>) {
    forall i, j :: 0 <= i < j < |ids| ==> ids[i] != ids[j]
  }

  /** A possible answer of the due query: the fifty oldest, ties in any order. */
  ghost predicate DueList(plans: Plans, now: int, list: seq<PlanId>) {
    && Distinct(list)
    && (forall id :: id in list ==> id in DueSet(plans, now))
    && |list| <= DUE_LIMIT
    && (forall id :: id in DueSet(plans, now) && id !in list ==>
          |list| == DUE_LIMIT && forall other :: other in list ==>
            plans[other].nextRunAt.value <= plans[id].nextRunAt.value)
  }

  /** The plan's row after it was served at an instant. */
  ghost function Advanced(p: Plan, now: int): Plan {
    if p.cron != "" && Cron.Answer(p.cron, now).Ok? && Schedulable(p)
    then p.(nextRunAt := Some(Cron.Answer(p.cron, now).value * Cron.NANOS_PER_MINUTE))
    else p
  }

  ghost predicate CanAdvance(p: Plan, now: int) {
    p.cron != "" && Cron.Answer(p.cron, now).Ok?
  }

  ghost function AllAdvanced(plans: Plans, now: int): Plans {
    map id | id in plans :: Advanced(plans[id], now)
  }

  /** The plans with the listed rows taken from `rows`. */
  function Replaced(plans: Plans, rows: Plans, list: seq<PlanId>): Plans {
    map id | id in plans :: if id in list && id in rows then rows[id] else plans[id]
  }

  ghost function Ticked(plans: Plans, now: int, list: seq<PlanId>): Plans {
    Replaced(plans, AllAdvanced(plans, now), list)
  }

  /** Only what the pass lists is served, and it lists only plans that are enabled, active, live and due. */
  lemma OnlyDueServed(plans: Plans, now: int, list: seq<PlanId>, id: PlanId)
    requires DueList(plans, now, list) && id in plans
    ensures id in list ==> plans[id].enabled && plans[id].state == Active && !plans[id].tombstoned
                           && plans[id].nextRunAt.Some? && plans[id].nextRunAt.value <= now
    ensures id !in list ==> Ticked(plans, now, list)[id] == plans[id]
    ensures Ticked(plans, now, list).Keys == plans.Keys
  {
    assert id in list ==> id in DueSet(plans, now);
  }

  /** It misses none of those unless it lists fifty due no later, and never lists more. */
  lemma DueServed(plans: Plans, now: int, list: seq<PlanId>, id: PlanId)
    requires DueList(plans, now, list) && id in plans && id !in list
    requires plans[id].enabled && plans[id].state == Active && !plans[id].tombstoned
    requires plans[id].nextRunAt.Some? && plans[id].nextRunAt.value <= now
    ensures |list| == 50
    ensures forall other :: other in list ==> other in plans && plans[other].nextRunAt.Some?
                                              && plans[other].nextRunAt.value <= plans[id].nextRunAt.value
  {
    assert id in DueSet(plans, now);
    assert forall other :: other in list ==> other in DueSet(plans, now);
  }

  /** A served plan moves to its expression's answer, in nanoseconds, or keeps its whole row. */
  lemma ServedMoves(plans: Plans, now: int, list: seq<PlanId>, id: PlanId, r: Cron.Outcome<int, Cron.CronError>)
    requires DueList(plans, now, list) && id in plans && id in list
    requires plans[id].cron != "" ==> Cron.NextRunIs(plans[id].cron, now, r)
    ensures Ticked(plans, now, list)[id]
            == if plans[id].cron != "" && r.Ok? then plans[id].(nextRunAt := Some(r.value * 60_000_000_000)) else plans[id]
  {
    assert id in DueSet(plans, now);
    if plans[id].cron != "" {
      Cron.NextRunUnique(plans[id].cron, now, r, Cron.Answer(plans[id].cron, now));
    }
  }

  lemma AdvancedIsLater(p: Plan, now: int)
    requires Schedulable(p) && CanAdvance(p, now)
    ensures Advanced(p, now) == p.(nextRunAt := Advanced(p, now).nextRunAt)
    ensures Advanced(p, now).nextRunAt.Some? && Advanced(p, now).nextRunAt.value > now
  {
    Cron.NextRunIsLater(p.cron, now, Cron.Answer(p.cron, now).value);
  }

  /** The expression stops the parser. */
  predicate Panics(cron: string) {
    cron != "" && Cron.ParseOutcome(Fields(cron)).Panic?
  }

  ghost function Panicking(plans: Plans): set<PlanId> {
    set id | id in plans && Panics(plans[id].cron)
  }

  /** How far a pass gets in its list: up to and including the first plan that stops it. */
  function Reach(list: seq<PlanId>, bad: set<PlanId>): (n: nat)
    ensures n <= |list|
  {
    if list == [] then 0 else if list[0] in bad then 1 else 1 + Reach(list[1..], bad)
  }

  /** The plans a pass gets to. */
  function Got(list: seq<PlanId>, bad: set<PlanId>): seq<PlanId> {
    list[..Reach(list, bad)]
  }

  /** A pass stops at the first plan of its list that is bad, or gets to all of them. */
  lemma {:induction false} ReachIs(list: seq<PlanId>, bad: set<PlanId>)
    ensures var n := Reach(list, bad);
            && (forall i :: 0 <= i < n - 1 ==> list[i] !in bad)
            && (n < |list| ==> n > 0 && list[n - 1] in bad)
  {
    if list != [] && list[0] !in bad {
      ReachIs(list[1..], bad);
      var n := Reach(list[1..], bad);
      assert forall i :: 0 < i < n ==> list[i] == list[1..][i - 1];
    }
  }

  /** The first bad plan decides. */
  lemma {:induction false} ReachAt(list: seq<PlanId>, bad: set<PlanId>, i: nat)
    requires i <= |list| && (forall j :: 0 <= j < i ==> list[j] !in bad) && (i < |list| ==> list[i] in bad)
    ensures Reach(list, bad) == if i < |list| then i + 1 else i
  {
    if i > 0 {
      assert forall j :: 0 <= j < i - 1 ==> list[1..][j] == list[j + 1];
      ReachAt(list[1..], bad, i - 1);
    }
  }

  lemma GotTo(list: seq<PlanId>, bad: set<PlanId>, i: nat)
    requires i < |list| && list[i] in bad && forall j :: 0 <= j < i ==> list[j] !in bad
    ensures Got(list, bad) == list[..i + 1] && exists id :: id in list && id in bad
  {
    ReachAt(list, bad, i);
    assert list[i] in list;
  }

  lemma GotAll(list: seq<PlanId>, bad: set<PlanId>, i: nat)
    requires i == |list| && forall j :: 0 <= j < i ==> list[j] !in bad
    ensures Got(list, bad) == list[..i] && forall id :: id in list ==> id !in bad
  {
    ReachAt(list, bad, i);
  }

  class Store {
    var plans: Plans
    /** Every scheduled-run request made, in order: plan and instant. */
    var requests: seq<(PlanId, int)>

    constructor (plans: Plans)
      ensures this.plans == plans && requests == []
    {
      this.plans := plans;
      requests := [];
    }

    /** Writes `next_run_at` of a plan that is still enabled, active and live. */
    method AdvanceNextRun(id: PlanId, next: int)
      modifies this`plans
      ensures plans == if id in old(plans) && Schedulable(old(plans)[id])
                       then old(plans)[id := old(plans)[id].(nextRunAt := Some(next))] else old(plans)
      ensures plans != old(plans) ==>
                id in old(plans) && old(plans)[id].enabled && old(plans)[id].state == Active && !old(plans)[id].tombstoned
    {
      if id in plans && Schedulable(plans[id]) {
        plans := plans[id := plans[id].(nextRunAt := Some(next))];
      }
    }

    /** Serves one plan's schedule; false means the parser stopped the process. */
    method Advance(id: PlanId, cron: string, now: int) returns (survived: bool)
      requires id in plans && plans[id].cron == cron
      modifies this`plans
      ensures plans == old(plans)[id := Advanced(old(plans)[id], now)]
      ensures survived <==> !Panics(cron)
    {
      if cron == "" {
        return true;
      }
      var next := Cron.NextRun(cron, now);
      Cron.NextRunUnique(cron, now, next, Cron.Answer(cron, now));
      match next {
        case Ok(m) => AdvanceNextRun(id, m * Cron.NANOS_PER_MINUTE);
        case Err(_) =>
        case Panic => return false;
      }
      return true;
    }

    /** Serves the i-th listed plan; `rows` are the plans as a pass over all of them would leave them,
        `bad` those that stop it. */
    method Serve(now: int, list: seq<PlanId>, i: nat, ghost before: Plans, ghost rows: Plans, ghost bad: set<PlanId>)
      returns (survived: bool)
      requires DueList(before, now, list) && i < |list| && rows.Keys == before.Keys
      requires AllForeseen(before, rows, bad, now, list)
      requires plans == Replaced(before, rows, list[..i])
      modifies this
      ensures plans == Replaced(before, rows, list[..i + 1])
      ensures requests == old(requests) + [(list[i], now)]
      ensures survived <==> list[i] !in bad
    {
      var id := list[i];
      assert Foreseen(before, rows, bad, now, list[i]);
      TickStep(before, rows, now, list, i);
      requests := requests + [(id, now)];
      survived := Advance(id, plans[id].cron, now);
    }

    method ServeAll(now: int, list: seq<PlanId>, ghost before: Plans, ghost rows: Plans, ghost bad: set<PlanId>)
      returns (survived: bool)
      requires DueList(before, now, list) && rows.Keys == before.Keys && AllForeseen(before, rows, bad, now, list)
      requires plans == before
      modifies this
      ensures plans == Replaced(before, rows, Got(list, bad))
      ensures requests == old(requests) + Requests(Got(list, bad), now)
      ensures survived <==> forall id :: id in list ==> id !in bad
    {
      var i := 0;
      while i < |list|
        invariant 0 <= i <= |list|
        invariant plans == Replaced(before, rows, list[..i])
        invariant requests == old(requests) + Requests(list[..i], now)
        invariant forall j :: 0 <= j < i ==> list[j] !in bad
      {
        RequestsStep(list, now, i);
        var ok := Serve(now, list, i, before, rows, bad);
        if !ok {
          GotTo(list, bad, i);
          return false;
        }
        i := i + 1;
      }
      GotAll(list, bad, i);
      return true;
    }

    /** One pass over an answer of the due query: it gets to the listed plans up to and including the
        first whose expression panics, and survives if there is none. */
    method TickOnce(now: int, list: seq<PlanId>) returns (survived: bool)
      requires DueList(plans, now, list)
      modifies this
      ensures plans == Ticked(old(plans), now, Got(list, Panicking(old(plans))))
      ensures requests == old(requests) + Requests(Got(list, Panicking(old(plans))), now)
      ensures survived <==> forall id :: id in list ==> id !in Panicking(old(plans))
    {
      Foresee(plans, now, list);
      survived := ServeAll(now, list, plans, AllAdvanced(plans, now), Panicking(plans));
    }
  }

  /** What serving the plan does is as `rows` and `bad` say. */
  ghost predicate Foreseen(plans: Plans, rows: Plans, bad: set<PlanId>, now: int, id: PlanId) {
    && id in plans && id in rows && rows[id] == Advanced(plans[id], now)
    && (id in bad <==> Panics(plans[id].cron))
  }

  ghost predicate AllForeseen(plans: Plans, rows: Plans, bad: set<PlanId>, now: int, list: seq<PlanId>) {
    forall i {:trigger Foreseen(plans, rows, bad, now, list[i])} :: 0 <= i < |list| ==> Foreseen(plans, rows, bad, now, list[i])
  }

  lemma Foresee(plans: Plans, now: int, list: seq<PlanId>)
    requires DueList(plans, now, list)
    ensures AllForeseen(plans, AllAdvanced(plans, now), Panicking(plans), now, list)
  {
    forall i | 0 <= i < |list|
      ensures Foreseen(plans, AllAdvanced(plans, now), Panicking(plans), now, list[i])
    {
      assert list[i] in list && list[i] in DueSet(plans, now);
      PanickingMeans(plans, list[i]);
    }
  }

  lemma PanickingMeans(plans: Plans, id: PlanId)
    requires id in plans
    ensures id in Panicking(plans) <==> Panics(plans[id].cron)
  {
  }

  ghost function Requests(list: seq<PlanId>, now: int): seq<(PlanId, int)> {
    seq(|list|, i requires 0 <= i < |list| => (list[i], now))
  }

  lemma RequestsStep(list: seq<PlanId>, now: int, i: nat)
    requires i < |list|
    ensures Requests(list[..i + 1], now) == Requests(list[..i], now) + [(list[i], now)]
  {
  }

  /** Serving the next plan of the list extends the pass by one. */
  lemma TickStep(plans: Plans, rows: Plans, now: int, list: seq<PlanId>, i: nat)
    requires DueList(plans, now, list) && i < |list| && rows.Keys == plans.Keys
    ensures var id := list[i];
            && id in plans && Replaced(plans, rows, list[..i])[id] == plans[id]
            && Replaced(plans, rows, list[..i + 1]) == Replaced(plans, rows, list[..i])[id := rows[id]]
  {
    assert list[i] in DueSet(plans, now) && list[i] !in list[..i];
    assert list[..i + 1] == list[..i] + [list[i]];
  }

  // ------------------------------------------------------------- runs of the scheduler

  datatype Tick = Tick(now: int, list: seq<PlanId>)

  /** Oldest first. */
  ghost predicate InOrder(plans: Plans, list: seq<PlanId>) {
    forall i, j :: 0 <= i < j < |list| && list[i] in plans && list[j] in plans
                   && plans[list[i]].nextRunAt.Some? && plans[list[j]].nextRunAt.Some?
                   ==> plans[list[i]].nextRunAt.value <= plans[list[j]].nextRunAt.value
  }

  /** `list` is what a pass gets to of the query's answer `due`, when the bad plans stop it. */
  ghost predicate IsPass(plans: Plans, now: int, due: seq<PlanId>, list: seq<PlanId>, bad: set<PlanId>) {
    DueList(plans, now, due) && InOrder(plans, due) && list == Got(due, bad)
  }

  ghost predicate IsTick(before: Plans, tick: Tick, after: Plans, bad: set<PlanId>) {
    (exists due :: IsPass(before, tick.now, due, tick.list, bad)) && after == Ticked(before, tick.now, tick.list)
  }

  /** A run: passes at non-decreasing instants, with no plan edited in between, so that the same plans
      are bad throughout. */
  ghost predicate IsRun(states: seq<Plans>, ticks: seq<Tick>, bad: set<PlanId>) {
    && |states| == |ticks| + 1
    && (forall i :: 0 <= i < |ticks| ==> IsTick(states[i], ticks[i], states[i + 1], bad))
    && (forall i, j :: 0 <= i <= j < |ticks| ==> ticks[i].now <= ticks[j].now)
  }

  lemma ServedIsDue(before: Plans, tick: Tick, after: Plans, bad: set<PlanId>, id: PlanId)
    requires IsTick(before, tick, after, bad) && id in tick.list
    ensures id in DueSet(before, tick.now)
  {
    var due :| IsPass(before, tick.now, due, tick.list, bad);
    assert id in due;
  }

  /** No other plan due no later than p is bad. */
  ghost predicate CalmAhead(plans: Plans, p: PlanId, bad: set<PlanId>)
    requires p in plans && plans[p].nextRunAt.Some?
  {
    forall id :: id in DueSet(plans, plans[p].nextRunAt.value) && id != p ==> id !in bad
  }

  /** The plan that stops a pass before p is another one due no later than p. */
  lemma StopIsAhead(plans: Plans, now: int, due: seq<PlanId>, list: seq<PlanId>, bad: set<PlanId>, p: PlanId)
    requires IsPass(plans, now, due, list, bad) && p in DueSet(plans, now) && p !in list && |list| < |due|
    ensures exists q :: q in bad && q != p && q in DueSet(plans, plans[p].nextRunAt.value)
  {
    ReachIs(due, bad);
    var n := |list|;
    var q := due[n - 1];
    assert q == list[n - 1] && q in due && q in DueSet(plans, now);
    if p in due {
      var k :| 0 <= k < |due| && due[k] == p;
      assert forall j :: 0 <= j < n ==> due[j] == list[j];
      assert plans[due[n - 1]].nextRunAt.value <= plans[due[k]].nextRunAt.value;
    }
    assert q in DueSet(plans, plans[p].nextRunAt.value);
  }

  /** With nothing bad ahead of it, a pass that does not get to p gets to all of a full list without p. */
  lemma PassesOver(before: Plans, tick: Tick, after: Plans, p: PlanId, bad: set<PlanId>)
    requires IsTick(before, tick, after, bad) && p in DueSet(before, tick.now) && p !in tick.list
    requires CalmAhead(before, p, bad)
    ensures DueList(before, tick.now, tick.list)
  {
    var due :| IsPass(before, tick.now, due, tick.list, bad);
    if |tick.list| < |due| {
      StopIsAhead(before, tick.now, due, tick.list, bad, p);
    } else {
      assert tick.list == due;
    }
  }

  /** Whatever is due by `key` after was due by it before, with the same expression. */
  ghost predicate NothingNewDue(before: Plans, after: Plans, key: int) {
    forall id :: id in after && DueBy(after[id], key) ==>
      id in before && DueBy(before[id], key) && after[id].cron == before[id].cron
  }

  lemma EarlierDue(before: Plans, tick: Tick, after: Plans, bad: set<PlanId>, id: PlanId, key: int)
    requires IsTick(before, tick, after, bad) && id in after && DueBy(after[id], key)
    ensures id in before && DueBy(before[id], key) && after[id].cron == before[id].cron
  {
    if id in tick.list {
      ServedIsDue(before, tick, after, bad, id);
      if CanAdvance(before[id], tick.now) {
        AdvancedIsLater(before[id], tick.now);
      }
    }
  }

  lemma TickBringsNothing(before: Plans, tick: Tick, after: Plans, bad: set<PlanId>, key: int)
    requires IsTick(before, tick, after, bad)
    ensures NothingNewDue(before, after, key)
  {
    forall id | id in after && DueBy(after[id], key)
      ensures id in before && DueBy(before[id], key) && after[id].cron == before[id].cron
    {
      EarlierDue(before, tick, after, bad, id, key);
    }
  }

  lemma {:induction false} ChainBringsNothing(states: seq<Plans>, n: nat, key: int)
    requires n < |states| && forall i :: 0 <= i < n ==> NothingNewDue(states[i], states[i + 1], key)
    ensures NothingNewDue(states[0], states[n], key)
  {
    if n > 0 {
      ChainBringsNothing(states, n - 1, key);
      assert NothingNewDue(states[n - 1], states[n - 1 + 1], key);
    }
  }

  /** Without edits a plan that is due by an instant was due by it from the start. */
  lemma OriginallyDue(states: seq<Plans>, ticks: seq<Tick>, bad: set<PlanId>, n: nat, key: int)
    requires IsRun(states, ticks, bad) && n <= |ticks|
    ensures NothingNewDue(states[0], states[n], key)
  {
    forall i | 0 <= i < n
      ensures NothingNewDue(states[i], states[i + 1], key)
    {
      TickBringsNothing(states[i], ticks[i], states[i + 1], bad, key);
    }
    ChainBringsNothing(states, n, key);
  }

  lemma StaysCalm(before: Plans, after: Plans, p: PlanId, bad: set<PlanId>)
    requires p in before && p in after && after[p] == before[p] && before[p].nextRunAt.Some?
    requires NothingNewDue(before, after, before[p].nextRunAt.value) && CalmAhead(before, p, bad)
    ensures CalmAhead(after, p, bad)
  {
    forall id | id in DueSet(after, before[p].nextRunAt.value) && id != p
      ensures id !in bad
    {
      assert id in DueSet(before, before[p].nextRunAt.value);
    }
  }

  /** Every served plan outside the stuck ones moves on. */
  ghost predicate OthersAdvance(plans: Plans, tick: Tick, stuck: set<PlanId>) {
    forall id :: id in tick.list && id in plans && id !in stuck ==> CanAdvance(plans[id], tick.now)
  }

  ghost predicate AllOthersAdvance(states: seq<Plans>, ticks: seq<Tick>, stuck: set<PlanId>)
    requires |states| == |ticks| + 1
  {
    forall i :: 0 <= i < |ticks| ==> OthersAdvance(states[i], ticks[i], stuck)
  }

  ghost predicate Served(ticks: seq<Tick>, n: nat, p: PlanId)
    requires n <= |ticks|
  {
    exists i :: 0 <= i < n && p in ticks[i].list
  }

  lemma SeqToSet(list: seq<PlanId>)
    requires Distinct(list)
    ensures |set id | id in list| == |list|
  {
    if list != [] {
      var n := |list| - 1;
      SeqToSet(list[..n]);
      assert (set id | id in list) == (set id | id in list[..n]) + {list[n]};
    }
  }

  /** A pass in which p is due but not served removes fifty minus |stuck| plans, other than p and the
      stuck ones, from those due no later than p. */
  lemma UnservedTick(plans: Plans, now: int, list: seq<PlanId>, p: PlanId, stuck: set<PlanId>)
    requires DueList(plans, now, list) && p in DueSet(plans, now) && p !in list
    requires OthersAdvance(plans, Tick(now, list), stuck)
    ensures var key := plans[p].nextRunAt.value;
            && Ahead(Ticked(plans, now, list), key, stuck, p) + DUE_LIMIT - |stuck| <= Ahead(plans, key, stuck, p)
            && Ticked(plans, now, list)[p] == plans[p]
  {
    var key := plans[p].nextRunAt.value;
    var after := Ticked(plans, now, list);
    var served := set id | id in list;
    SeqToSet(list);
    var moved := served - stuck;
    forall id | id in moved
      ensures id in DueSet(plans, key) - stuck - {p} && id !in DueSet(after, key)
    {
      AdvancedIsLater(plans[id], now);
    }
    forall id | id in DueSet(after, key)
      ensures id in DueSet(plans, key)
    {
      if id in list && !CanAdvance(plans[id], now) {
        assert after[id] == plans[id];
      } else if id in list {
        AdvancedIsLater(plans[id], now);
      }
    }
    assert served == moved + (served * stuck);
    SubsetSize(served * stuck, stuck);
    var left := DueSet(after, key) - stuck - {p};
    SubsetSize(left + moved, DueSet(plans, key) - stuck - {p});
    assert left !! moved;
    assert |left + moved| == |left| + |moved|;
  }

  /** How many other plans are due no later than p, not counting the stuck ones. */
  function Ahead(plans: Plans, key: int, stuck: set<PlanId>, p: PlanId): nat {
    |DueSet(plans, key) - stuck - {p}|
  }

  /** While p waits, with nothing bad ahead of it, the plans ahead drain by fifty minus |stuck| a pass. */
  lemma {:induction false} Draining(states: seq<Plans>, ticks: seq<Tick>, bad: set<PlanId>, n: nat, p: PlanId, key: int,
                                    stuck: set<PlanId>, rate: int)
    requires IsRun(states, ticks, bad) && n <= |ticks| && |ticks| > 0 && AllOthersAdvance(states, ticks, stuck)
    requires p in DueSet(states[0], ticks[0].now) && key == states[0][p].nextRunAt.value && !Served(ticks, n, p)
    requires CalmAhead(states[0], p, bad) && rate == DUE_LIMIT - |stuck|
    ensures p in states[n] && states[n][p] == states[0][p]
    ensures Ahead(states[n], key, stuck, p) + n * rate <= Ahead(states[0], key, stuck, p)
  {
    if n > 0 {
      Draining(states, ticks, bad, n - 1, p, key, stuck, rate);
      assert ticks[0].now <= ticks[n - 1].now && p !in ticks[n - 1].list;
      OriginallyDue(states, ticks, bad, n - 1, key);
      StaysCalm(states[0], states[n - 1], p, bad);
      DrainStep(states[n - 1], ticks[n - 1], states[n], bad, p, stuck);
      Accumulate(n, rate);
    }
  }

  lemma DrainStep(before: Plans, tick: Tick, after: Plans, bad: set<PlanId>, p: PlanId, stuck: set<PlanId>)
    requires IsTick(before, tick, after, bad) && OthersAdvance(before, tick, stuck)
    requires p in before && DueBy(before[p], tick.now) && p !in tick.list && CalmAhead(before, p, bad)
    ensures p in after && after[p] == before[p]
    ensures var key := before[p].nextRunAt.value;
            Ahead(after, key, stuck, p) + DUE_LIMIT - |stuck| <= Ahead(before, key, stuck, p)
  {
    PassesOver(before, tick, after, p, bad);
    UnservedTick(before, tick.now, tick.list, p, stuck);
  }

  lemma Accumulate(n: int, rate: int)
    ensures n * rate == (n - 1) * rate + rate
  {
  }

  /** The starvation bound: with s < 50 plans that ever fail to advance and nothing bad ahead of it, a
      due plan with A other advanceable ones at or before it is served within A / (50 - s) + 1 passes. */
  lemma StarvationBound(states: seq<Plans>, ticks: seq<Tick>, bad: set<PlanId>, p: PlanId, stuck: set<PlanId>, bound: nat)
    requires IsRun(states, ticks, bad) && |ticks| > 0 && p in DueSet(states[0], ticks[0].now)
    requires |stuck| < DUE_LIMIT && AllOthersAdvance(states, ticks, stuck) && CalmAhead(states[0], p, bad)
    requires bound == Ahead(states[0], states[0][p].nextRunAt.value, stuck, p) / (DUE_LIMIT - |stuck|) + 1
    requires bound <= |ticks|
    ensures Served(ticks, bound, p)
  {
    var key := states[0][p].nextRunAt.value;
    var rate := DUE_LIMIT - |stuck|;
    QuotientBound(Ahead(states[0], key, stuck, p), rate);
    if !Served(ticks, bound, p) {
      Draining(states, ticks, bad, bound, p, key, stuck, rate);
    }
  }

  lemma QuotientBound(a: nat, d: nat)
    requires d > 0
    ensures (a / d + 1) * d > a
  {
    assert a == (a / d) * d + a % d;
    assert (a / d + 1) * d == (a / d) * d + d;
  }

  lemma BlockerListed(plans: Plans, now: int, due: seq<PlanId>, p: PlanId, id: PlanId)
    requires DueList(plans, now, due) && p in due && p in plans && plans[p].nextRunAt.Some?
    requires id in plans && DueBy(plans[id], plans[p].nextRunAt.value - 1)
    ensures id in due
  {
    assert p in DueSet(plans, now);
    assert id in DueSet(plans, now);
  }

  /** A plan that never moves on when served. */
  ghost predicate Stuck(p: Plan) {
    forall now :: !CanAdvance(p, now)
  }

  lemma StuckStays(p: Plan, now: int)
    requires Stuck(p)
    ensures Advanced(p, now) == p
  {
    assert !CanAdvance(p, now);
  }

  lemma StuckKeepsRow(before: Plans, tick: Tick, after: Plans, id: PlanId)
    requires after == Ticked(before, tick.now, tick.list) && id in before && (id !in tick.list || Stuck(before[id]))
    ensures id in after && after[id] == before[id]
  {
    if id in tick.list {
      StuckStays(before[id], tick.now);
    }
  }

  /** A full list of plans due before p has no room for p. */
  lemma FullList(plans: Plans, now: int, due: seq<PlanId>, p: PlanId, block: set<PlanId>)
    requires DueList(plans, now, due) && p in plans && plans[p].nextRunAt.Some?
    requires |block| >= DUE_LIMIT && p !in block
    requires forall id :: id in block ==> id in plans && DueBy(plans[id], plans[p].nextRunAt.value - 1)
    ensures p !in due
  {
    if p in due {
      forall id | id in block
        ensures id in due
      {
        BlockerListed(plans, now, due, p, id);
      }
      var served := set id | id in due;
      SeqToSet(due);
      SubsetSize(block + {p}, served);
      assert false;
    }
  }

  lemma FullPass(before: Plans, tick: Tick, after: Plans, bad: set<PlanId>, p: PlanId, block: set<PlanId>)
    requires IsTick(before, tick, after, bad) && p in before && before[p].nextRunAt.Some?
    requires |block| >= DUE_LIMIT && p !in block
    requires forall id :: id in block ==> id in before && DueBy(before[id], before[p].nextRunAt.value - 1)
    ensures p !in tick.list
  {
    var due :| IsPass(before, tick.now, due, tick.list, bad);
    FullList(before, tick.now, due, p, block);
  }

  /** Fifty stuck plans due strictly before p keep p waiting in every run, however ties are broken. */
  lemma {:induction false} StarvedForever(states: seq<Plans>, ticks: seq<Tick>, bad: set<PlanId>, n: nat, p: PlanId,
                                          block: set<PlanId>)
    requires IsRun(states, ticks, bad) && n <= |ticks| && |ticks| > 0
    requires p in DueSet(states[0], ticks[0].now) && |block| >= DUE_LIMIT
    requires forall id :: id in block ==> id in DueSet(states[0], states[0][p].nextRunAt.value - 1) && Stuck(states[0][id])
    ensures !Served(ticks, n, p)
    ensures p in states[n] && states[n][p] == states[0][p]
    ensures forall id :: id in block ==> id in states[0] && id in states[n] && states[n][id] == states[0][id]
  {
    if n > 0 {
      StarvedForever(states, ticks, bad, n - 1, p, block);
      var before, tick, after := states[n - 1], ticks[n - 1], states[n];
      assert IsTick(states[n - 1], tick, states[n - 1 + 1], bad);
      FullPass(before, tick, after, bad, p, block);
      StuckKeepsRow(before, tick, after, p);
      forall id | id in block
        ensures id in after && after[id] == before[id]
      {
        StuckKeepsRow(before, tick, after, id);
      }
    }
  }

  // ------------------------------------------------------------- how often a plan runs

  lemma KeyStep(before: Plans, tick: Tick, after: Plans, bad: set<PlanId>, p: PlanId)
    requires IsTick(before, tick, after, bad) && p in before && before[p].nextRunAt.Some?
    ensures p in after && after[p].nextRunAt.Some? && before[p].nextRunAt.value <= after[p].nextRunAt.value
  {
    if p in tick.list && CanAdvance(before[p], tick.now) {
      ServedIsDue(before, tick, after, bad, p);
      AdvancedIsLater(before[p], tick.now);
    }
  }

  /** A plan's `next_run_at` never moves back. */
  lemma {:induction false} KeysGrow(states: seq<Plans>, ticks: seq<Tick>, bad: set<PlanId>, i: nat, j: nat, p: PlanId)
    requires IsRun(states, ticks, bad) && i <= j <= |ticks| && p in states[i] && states[i][p].nextRunAt.Some?
    ensures p in states[j] && states[j][p].nextRunAt.Some?
    ensures states[i][p].nextRunAt.value <= states[j][p].nextRunAt.value
    decreases j - i
  {
    if i < j {
      KeysGrow(states, ticks, bad, i, j - 1, p);
      KeyStep(states[j - 1], ticks[j - 1], states[j], bad, p);
    }
  }

  /** Minute m starts after one instant and no later than another. */
  predicate Between(m: int, after: int, until: int) {
    after < m * Cron.NANOS_PER_MINUTE <= until
  }

  ghost predicate FiresWithin(cron: string, m: int, after: int, until: int) {
    && Between(m, after, until)
    && |Fields(cron)| == 5 && Cron.FiresAt(Cron.ScheduleOf(Fields(cron)), m)
  }

  /** A pass serves p, whose expression then has a next minute. */
  ghost predicate Serves(plans: Plans, tick: Tick, p: PlanId, cron: string) {
    p in tick.list && p in plans && plans[p].cron == cron && CanAdvance(plans[p], tick.now)
  }

  lemma ServeStep(before: Plans, tick: Tick, after: Plans, bad: set<PlanId>, p: PlanId, cron: string)
    requires IsTick(before, tick, after, bad) && Serves(before, tick, p, cron)
    ensures var m := Cron.Answer(cron, tick.now).value;
            && p in after && after[p].nextRunAt == Some(m * Cron.NANOS_PER_MINUTE)
            && forall until :: m * Cron.NANOS_PER_MINUTE <= until ==> FiresWithin(cron, m, tick.now, until)
  {
    ServedIsDue(before, tick, after, bad, p);
    Cron.NextRunIsLater(cron, tick.now, Cron.Answer(cron, tick.now).value);
  }

  lemma DueWhenServed(plans: Plans, tick: Tick, after: Plans, bad: set<PlanId>, p: PlanId)
    requires IsTick(plans, tick, after, bad) && p in tick.list
    ensures p in plans && plans[p].nextRunAt.Some? && plans[p].nextRunAt.value <= tick.now
  {
    ServedIsDue(plans, tick, after, bad, p);
  }

  /** Between two passes that serve a plan its expression had a matching minute. */
  lemma FireBetween(states: seq<Plans>, ticks: seq<Tick>, bad: set<PlanId>, i: nat, j: nat, p: PlanId, cron: string)
    requires IsRun(states, ticks, bad) && i < j < |ticks|
    requires Serves(states[i], ticks[i], p, cron) && p in ticks[j].list
    ensures FiresWithin(cron, Cron.Answer(cron, ticks[i].now).value, ticks[i].now, ticks[j].now)
  {
    ServeStep(states[i], ticks[i], states[i + 1], bad, p, cron);
    KeysGrow(states, ticks, bad, i + 1, j, p);
    DueWhenServed(states[j], ticks[j], states[j + 1], bad, p);
  }

  /** One minute between each two neighbouring instants: the minutes differ. */
  lemma MinutesDiffer(nows: seq<int>, fires: seq<int>)
    requires |fires| == |nows| - 1
    requires forall a, b :: 0 <= a <= b < |nows| ==> nows[a] <= nows[b]
    requires forall a :: 0 <= a < |fires| ==> Between(fires[a], nows[a], nows[a + 1])
    ensures forall i, j :: 0 <= i < j < |fires| ==> fires[i] < fires[j]
  {
    forall i, j | 0 <= i < j < |fires|
      ensures fires[i] < fires[j]
    {
      assert Between(fires[i], nows[i], nows[i + 1]) && Between(fires[j], nows[j], nows[j + 1]);
      assert nows[i + 1] <= nows[j];
    }
  }

  ghost function Instants(ticks: seq<Tick>, at: seq<nat>): (r: seq<int>)
    requires forall i :: 0 <= i < |at| ==> at[i] < |ticks|
    ensures |r| == |at| && forall i :: 0 <= i < |at| ==> r[i] == ticks[at[i]].now
  {
    seq(|at|, i requires 0 <= i < |at| => ticks[at[i]].now)
  }

  /** The passes at the given positions, in order, all serve p. */
  ghost predicate ServedAt(states: seq<Plans>, ticks: seq<Tick>, at: seq<nat>, p: PlanId, cron: string)
    requires |states| == |ticks| + 1
  {
    && at != []
    && (forall i :: 0 <= i < |at| ==> at[i] < |ticks| && Serves(states[at[i]], ticks[at[i]], p, cron))
    && forall i, j :: 0 <= i < j < |at| ==> at[i] < at[j]
  }

  /** The rate of a schedule: a plan served at k passes had a cron-matching minute after each of
      them but the last and no later than the next, so at least k - 1 distinct ones in all.
      However many matching minutes fall between two passes, they cost one run. */
  lemma ScheduleRate(states: seq<Plans>, ticks: seq<Tick>, bad: set<PlanId>, at: seq<nat>, p: PlanId, cron: string)
    returns (nows: seq<int>, fires: seq<int>)
    requires IsRun(states, ticks, bad) && ServedAt(states, ticks, at, p, cron)
    ensures nows == Instants(ticks, at) && |fires| == |at| - 1
    ensures forall i :: 0 <= i < |fires| ==> FiresWithin(cron, fires[i], nows[i], nows[i + 1])
    ensures forall i, j :: 0 <= i < j < |fires| ==> fires[i] < fires[j]
  {
    nows := Instants(ticks, at);
    forall i | 0 <= i < |nows| - 1
      ensures HasFire(cron, nows[i], nows[i + 1])
    {
      var m := FireAfter(states, ticks, bad, at, p, cron, i);
    }
    fires := Collect(cron, nows, |at| - 1);
    InstantsOrdered(ticks, at);
    MinutesDiffer(nows, fires);
  }

  lemma InstantsOrdered(ticks: seq<Tick>, at: seq<nat>)
    requires forall i :: 0 <= i < |at| ==> at[i] < |ticks|
    requires forall i, j :: 0 <= i < j < |at| ==> at[i] < at[j]
    requires forall i, j :: 0 <= i <= j < |ticks| ==> ticks[i].now <= ticks[j].now
    ensures var nows := Instants(ticks, at); forall a, b :: 0 <= a <= b < |nows| ==> nows[a] <= nows[b]
  {
  }

  lemma FireAfter(states: seq<Plans>, ticks: seq<Tick>, bad: set<PlanId>, at: seq<nat>, p: PlanId, cron: string, i: nat)
    returns (m: int)
    requires IsRun(states, ticks, bad) && ServedAt(states, ticks, at, p, cron) && i + 1 < |at|
    ensures var nows := Instants(ticks, at); FiresWithin(cron, m, nows[i], nows[i + 1])
  {
    m := Cron.Answer(cron, ticks[at[i]].now).value;
    FireBetween(states, ticks, bad, at[i], at[i + 1], p, cron);
  }

  /** Each minute of `fires` is a matching one between two neighbouring instants. */
  ghost predicate FiresEach(cron: string, nows: seq<int>, fires: seq<int>) {
    |fires| < |nows| && forall i :: 0 <= i < |fires| ==> FiresWithin(cron, fires[i], nows[i], nows[i + 1])
  }

  lemma OneMoreFire(cron: string, nows: seq<int>, fires: seq<int>, m: int)
    requires FiresEach(cron, nows, fires) && |fires| + 1 < |nows|
    requires FiresWithin(cron, m, nows[|fires|], nows[|fires| + 1])
    ensures FiresEach(cron, nows, fires + [m])
  {
  }

  ghost predicate HasFire(cron: string, after: int, until: int) {
    exists m :: FiresWithin(cron, m, after, until)
  }

  lemma {:induction false} Collect(cron: string, nows: seq<int>, n: nat) returns (fires: seq<int>)
    requires n < |nows| && forall i :: 0 <= i < |nows| - 1 ==> HasFire(cron, nows[i], nows[i + 1])
    ensures |fires| == n && FiresEach(cron, nows, fires)
  {
    fires := [];
    if n > 0 {
      var earlier := Collect(cron, nows, n - 1);
      assert HasFire(cron, nows[n - 1], nows[n]);
      var m :| FiresWithin(cron, m, nows[n - 1], nows[n]);
      OneMoreFire(cron, nows, earlier, m);
      fires := earlier + [m];
    }
  }
}

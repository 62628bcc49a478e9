/** Exactly when the scheduler gets round to a due plan.

A plan whose expression never yields a next minute keeps its `next_run_at` for ever; fifty of those due
no later than another plan can fill every pass.  One plan whose expression panics is enough: each pass
ends at it, and retrying makes no difference. */
module Starvation {
  import opened Text
  import opened Collections
  import opened Scheduler
  import opened Calendar
  import opened Cron
  import opened CronHorizon
  import CronForms

  ghost predicate AlwaysAdvances(p: Plan) {
    forall now :: CanAdvance(p, now)
  }

  /** The plan is waiting to be due, or due. */
  predicate Waits(plans: Plans, p: PlanId) {
    p in plans && Schedulable(plans[p]) && plans[p].nextRunAt.Some?
  }

  /** The other plans due no later than p that never move on. */
  ghost function Blockers(plans: Plans, p: PlanId): set<PlanId>
    requires p in plans && plans[p].nextRunAt.Some?
  {
    set id | id in DueSet(plans, plans[p].nextRunAt.value) && id != p && Stuck(plans[id])
  }

  /** Every other plan due no later than p either always or never moves on when served. */
  ghost predicate SteadyAhead(plans: Plans, p: PlanId)
    requires p in plans && plans[p].nextRunAt.Some?
  {
    forall id :: id in DueSet(plans, plans[p].nextRunAt.value) && id != p ==> Stuck(plans[id]) || AlwaysAdvances(plans[id])
  }

  // ------------------------------------------------------------- few blockers, nothing bad ahead

  /** Whatever is due no later than p, other than p and the stuck plans, always moves on. */
  ghost predicate SteadyOutside(plans: Plans, p: PlanId, stuck: set<PlanId>)
    requires p in plans && plans[p].nextRunAt.Some?
  {
    forall id :: id in DueSet(plans, plans[p].nextRunAt.value) && id != p && id !in stuck ==> AlwaysAdvances(plans[id])
  }

  lemma PlanWaits(before: Plans, tick: Tick, after: Plans, bad: set<PlanId>, p: PlanId)
    requires IsTick(before, tick, after, bad) && p in before && p !in tick.list
    ensures p in after && after[p] == before[p]
  {
  }

  lemma {:induction false} StillWaits(states: seq<Plans>, ticks: seq<Tick>, bad: set<PlanId>, n: nat, p: PlanId)
    requires IsRun(states, ticks, bad) && n <= |ticks| && p in states[0] && !Served(ticks, n, p)
    ensures p in states[n] && states[n][p] == states[0][p]
  {
    if n > 0 {
      StillWaits(states, ticks, bad, n - 1, p);
      PlanWaits(states[n - 1], ticks[n - 1], states[n], bad, p);
    }
  }

  lemma SameAdvance(p: Plan, q: Plan, now: int)
    requires p.cron == q.cron
    ensures CanAdvance(p, now) <==> CanAdvance(q, now)
  {
  }

  /** A full list without p has only plans due no later than p. */
  lemma ServesEarlier(plans: Plans, tick: Tick, p: PlanId, id: PlanId)
    requires DueList(plans, tick.now, tick.list) && p in DueSet(plans, tick.now) && p !in tick.list && id in tick.list
    ensures id in plans && id != p && DueBy(plans[id], plans[p].nextRunAt.value)
  {
    assert id in DueSet(plans, tick.now);
  }

  /** While p waits, every served plan that is not stuck moves on. */
  lemma WaitingPrefix(states: seq<Plans>, ticks: seq<Tick>, bad: set<PlanId>, i: nat, p: PlanId, stuck: set<PlanId>, id: PlanId)
    requires IsRun(states, ticks, bad) && i < |ticks| && p in DueSet(states[0], ticks[0].now)
    requires SteadyOutside(states[0], p, stuck) && CalmAhead(states[0], p, bad)
    requires !Served(ticks, i + 1, p) && id in ticks[i].list && id !in stuck
    ensures id in states[i] && CanAdvance(states[i][id], ticks[i].now)
  {
    var key := states[0][p].nextRunAt.value;
    assert !Served(ticks, i, p) && ticks[0].now <= ticks[i].now;
    StillWaits(states, ticks, bad, i, p);
    assert p in DueSet(states[i], ticks[i].now);
    assert p !in ticks[i].list;
    assert IsTick(states[i], ticks[i], states[i + 1], bad);
    OriginallyDue(states, ticks, bad, i, key);
    StaysCalm(states[0], states[i], p, bad);
    PassesOver(states[i], ticks[i], states[i + 1], p, bad);
    ServesEarlier(states[i], ticks[i], p, id);
    NotStuck(states[0], p, stuck, id, ticks[i].now);
    SameAdvance(states[0][id], states[i][id], ticks[i].now);
  }

  lemma NotStuck(plans: Plans, p: PlanId, stuck: set<PlanId>, id: PlanId, now: int)
    requires p in plans && plans[p].nextRunAt.Some? && SteadyOutside(plans, p, stuck)
    requires id in DueSet(plans, plans[p].nextRunAt.value) && id != p && id !in stuck
    ensures CanAdvance(plans[id], now)
  {
    assert AlwaysAdvances(plans[id]);
  }

  lemma PrefixIsRun(states: seq<Plans>, ticks: seq<Tick>, bad: set<PlanId>, n: nat)
    requires IsRun(states, ticks, bad) && n <= |ticks|
    ensures IsRun(states[..n + 1], ticks[..n], bad)
  {
    forall i | 0 <= i < n
      ensures IsTick(states[..n + 1][i], ticks[..n][i], states[..n + 1][i + 1], bad)
    {
      assert IsTick(states[i], ticks[i], states[i + 1], bad);
    }
  }

  lemma PrefixServes(ticks: seq<Tick>, n: nat, p: PlanId)
    requires n <= |ticks|
    ensures Served(ticks[..n], n, p) <==> Served(ticks, n, p)
  {
    if i :| 0 <= i < n && p in ticks[i].list {
      assert p in ticks[..n][i].list;
    }
    if i :| 0 <= i < n && p in ticks[..n][i].list {
      assert p in ticks[i].list;
    }
  }

  lemma WaitingTick(states: seq<Plans>, ticks: seq<Tick>, bad: set<PlanId>, i: nat, p: PlanId, stuck: set<PlanId>)
    requires IsRun(states, ticks, bad) && i < |ticks| && p in DueSet(states[0], ticks[0].now)
    requires SteadyOutside(states[0], p, stuck) && CalmAhead(states[0], p, bad) && !Served(ticks, i + 1, p)
    ensures OthersAdvance(states[i], ticks[i], stuck)
  {
    forall id | id in ticks[i].list && id in states[i] && id !in stuck
      ensures CanAdvance(states[i][id], ticks[i].now)
    {
      WaitingPrefix(states, ticks, bad, i, p, stuck, id);
    }
  }

  /** How many passes suffice. */
  function Passes(ahead: nat, stuck: nat): nat
    requires stuck < DUE_LIMIT
  {
    ahead / (DUE_LIMIT - stuck) + 1
  }

  /** A run of at least n passes from the given plans, the first when p is due. */
  ghost predicate RunFrom(states: seq<Plans>, ticks: seq<Tick>, bad: set<PlanId>, plans: Plans, p: PlanId, n: nat) {
    IsRun(states, ticks, bad) && states[0] == plans && n <= |ticks| && |ticks| > 0 && p in DueSet(plans, ticks[0].now)
  }

  lemma WaitingAdvances(states: seq<Plans>, ticks: seq<Tick>, bad: set<PlanId>, p: PlanId, stuck: set<PlanId>, n: nat)
    requires IsRun(states, ticks, bad) && n <= |ticks| && |ticks| > 0
    requires p in DueSet(states[0], ticks[0].now) && !Served(ticks, n, p)
    requires SteadyOutside(states[0], p, stuck) && CalmAhead(states[0], p, bad)
    ensures AllOthersAdvance(states[..n + 1], ticks[..n], stuck)
  {
    forall i | 0 <= i < n
      ensures OthersAdvance(states[..n + 1][i], ticks[..n][i], stuck)
    {
      assert !Served(ticks, i + 1, p);
      WaitingTick(states, ticks, bad, i, p, stuck);
    }
  }

  /** Fewer than fifty stuck plans and nothing bad ahead: p is served within a number of passes fixed at
      the start. */
  lemma FewStuckServed(plans: Plans, states: seq<Plans>, ticks: seq<Tick>, bad: set<PlanId>, p: PlanId,
                       stuck: set<PlanId>, n: nat)
    requires Waits(plans, p) && SteadyOutside(plans, p, stuck) && CalmAhead(plans, p, bad)
    requires |stuck| < DUE_LIMIT && n == Passes(Ahead(plans, plans[p].nextRunAt.value, stuck, p), |stuck|)
    requires RunFrom(states, ticks, bad, plans, p, n)
    ensures Served(ticks, n, p)
  {
    if !Served(ticks, n, p) {
      PrefixIsRun(states, ticks, bad, n);
      PrefixServes(ticks, n, p);
      WaitingAdvances(states, ticks, bad, p, stuck, n);
      StarvationBound(states[..n + 1], ticks[..n], bad, p, stuck, n);
    }
  }

  // ------------------------------------------------------------- many blockers, or a bad one

  /** The first k of a set by the time they are due, oldest first. */
  ghost predicate Oldest(plans: Plans, ids: set<PlanId>, k: nat, list: seq<PlanId>) {
    && Distinct(list) && |list| == k && (forall id :: id in list ==> id in ids) && InOrder(plans, list)
    && forall id, other :: id in ids && id !in list && other in list && id in plans && other in plans
         && plans[id].nextRunAt.Some? && plans[other].nextRunAt.Some?
         ==> plans[other].nextRunAt.value <= plans[id].nextRunAt.value
  }

  lemma {:induction false} EarliestExists(plans: Plans, ids: set<PlanId>) returns (first: PlanId)
    requires (exists id :: id in ids) && forall id :: id in ids ==> id in plans && plans[id].nextRunAt.Some?
    ensures first in ids && forall id :: id in ids ==> plans[first].nextRunAt.value <= plans[id].nextRunAt.value
    decreases |ids|
  {
    first :| first in ids;
    var rest := ids - {first};
    if id :| id in rest {
      var best := EarliestExists(plans, rest);
      var one := first;
      first := if plans[best].nextRunAt.value < plans[one].nextRunAt.value then best else one;
      forall id | id in ids
        ensures plans[first].nextRunAt.value <= plans[id].nextRunAt.value
      {
        assert id == one || id in rest;
      }
    } else {
      forall id | id in ids
        ensures id == first
      {
        assert id == first || id in rest;
      }
    }
  }

  lemma {:induction false} OldestExists(plans: Plans, ids: set<PlanId>, k: nat) returns (list: seq<PlanId>)
    requires k <= |ids| && forall id :: id in ids ==> id in plans && plans[id].nextRunAt.Some?
    ensures Oldest(plans, ids, k, list)
    decreases k
  {
    list := [];
    if k > 0 {
      assert ids != {};
      var some :| some in ids;
      var first := EarliestExists(plans, ids);
      var rest := OldestExists(plans, ids - {first}, k - 1);
      list := [first] + rest;
      forall id, other | id in ids && id !in list && other in list
        ensures plans[other].nextRunAt.value <= plans[id].nextRunAt.value
      {
        assert id in ids - {first};
        assert other == first || other in rest;
      }
      InOrderCons(plans, first, rest);
    }
  }

  lemma InOrderCons(plans: Plans, first: PlanId, rest: seq<PlanId>)
    requires InOrder(plans, rest) && first in plans && plans[first].nextRunAt.Some?
    requires forall id :: id in rest && id in plans && plans[id].nextRunAt.Some? ==>
               plans[first].nextRunAt.value <= plans[id].nextRunAt.value
    ensures InOrder(plans, [first] + rest)
  {
    var list := [first] + rest;
    forall i, j | 0 <= i < j < |list| && list[i] in plans && list[j] in plans
                  && plans[list[i]].nextRunAt.Some? && plans[list[j]].nextRunAt.Some?
      ensures plans[list[i]].nextRunAt.value <= plans[list[j]].nextRunAt.value
    {
      assert list[j] == rest[j - 1] && rest[j - 1] in rest;
    }
  }

  /** What keeps p from being served: other plans due no later than p that never move on, fifty of them
      or a bad one among them. */
  ghost predicate Blocked(plans: Plans, p: PlanId, key: int, bad: set<PlanId>, block: set<PlanId>) {
    && p in plans && Schedulable(plans[p]) && plans[p].nextRunAt == Some(key) && p !in block
    && (|block| >= DUE_LIMIT || exists q :: q in block && q in bad)
    && forall id :: id in block ==> id in plans && DueBy(plans[id], key) && Stuck(plans[id])
  }

  /** With fifty others due no later than p, a query may list only those. */
  lemma FullListWithout(plans: Plans, p: PlanId, key: int) returns (due: seq<PlanId>)
    requires p in plans && plans[p].nextRunAt == Some(key) && |DueSet(plans, key) - {p}| >= DUE_LIMIT
    ensures DueList(plans, key, due) && InOrder(plans, due) && p !in due
  {
    var ids := DueSet(plans, key) - {p};
    due := OldestExists(plans, ids, DUE_LIMIT);
    forall id, other | id in DueSet(plans, key) && id !in due && other in due
      ensures plans[other].nextRunAt.value <= plans[id].nextRunAt.value
    {
      assert other in ids;
      assert id in ids || id == p;
    }
  }

  /** A listing of a whole set has all of it. */
  lemma ListsAll(ids: set<PlanId>, list: seq<PlanId>)
    requires Distinct(list) && |list| == |ids| && forall id :: id in list ==> id in ids
    ensures forall id :: id in ids ==> id in list
  {
    var listed := set id | id in list;
    SeqToSet(list);
    forall id | id in ids
      ensures id in list
    {
      if id !in list {
        SubsetSize(listed + {id}, ids);
      }
    }
  }

  /** With fewer, it may list all of them and then p. */
  lemma ShortListLast(plans: Plans, p: PlanId, key: int) returns (others: seq<PlanId>)
    requires p in plans && plans[p].nextRunAt == Some(key) && |DueSet(plans, key) - {p}| < DUE_LIMIT && DueBy(plans[p], key)
    ensures DueList(plans, key, others + [p]) && InOrder(plans, others + [p]) && p !in others
    ensures forall id :: id in DueSet(plans, key) && id != p ==> id in others
  {
    var ids := DueSet(plans, key) - {p};
    others := OldestExists(plans, ids, |ids|);
    ListsAll(ids, others);
    var due := others + [p];
    forall id | id in DueSet(plans, key)
      ensures id in due
    {
      assert id in ids || id == p;
    }
    forall id | id in due
      ensures id in DueSet(plans, key)
    {
      assert id in others || id == p;
    }
    assert forall i :: 0 <= i < |others| ==> due[i] == others[i] && others[i] in others;
  }

  lemma StopsBefore(others: seq<PlanId>, p: PlanId, bad: set<PlanId>, q: PlanId)
    requires q in others && q in bad && p !in others
    ensures p !in Got(others + [p], bad)
  {
    var due := others + [p];
    var i :| 0 <= i < |others| && others[i] == q;
    ReachIs(due, bad);
    var n := Reach(due, bad);
    assert due[i] == q && n <= |others|;
    assert due[..n] == others[..n];
  }

  /** Either way a pass at the moment p is due need not get to p. */
  lemma StarvingPass(plans: Plans, p: PlanId, key: int, bad: set<PlanId>, block: set<PlanId>)
    returns (due: seq<PlanId>, list: seq<PlanId>)
    requires Blocked(plans, p, key, bad, block)
    ensures IsPass(plans, key, due, list, bad) && p !in list
  {
    var ids := DueSet(plans, key) - {p};
    if |ids| >= DUE_LIMIT {
      due := FullListWithout(plans, p, key);
      list := Got(due, bad);
    } else {
      assert block <= ids;
      SubsetSize(block, ids);
      var q :| q in block && q in bad;
      var others := ShortListLast(plans, p, key);
      due := others + [p];
      list := Got(due, bad);
      StopsBefore(others, p, bad, q);
    }
  }

  lemma StaysBlocked(plans: Plans, p: PlanId, key: int, bad: set<PlanId>, block: set<PlanId>, now: int, list: seq<PlanId>)
    requires Blocked(plans, p, key, bad, block) && p !in list
    ensures Blocked(Ticked(plans, now, list), p, key, bad, block)
  {
    var after := Ticked(plans, now, list);
    forall id | id in block
      ensures id in after && after[id] == plans[id]
    {
      StuckStays(plans[id], now);
    }
  }

  /** All passes at one instant. */
  ghost predicate AllAt(ticks: seq<Tick>, now: int) {
    forall i :: 0 <= i < |ticks| ==> ticks[i].now == now
  }

  ghost predicate NeverIn(ticks: seq<Tick>, p: PlanId) {
    forall i :: 0 <= i < |ticks| ==> p !in ticks[i].list
  }

  lemma PrependTick(plans: Plans, tick: Tick, states: seq<Plans>, ticks: seq<Tick>, bad: set<PlanId>)
    requires IsRun(states, ticks, bad) && IsTick(plans, tick, states[0], bad) && AllAt(ticks, tick.now)
    ensures IsRun([plans] + states, [tick] + ticks, bad) && AllAt([tick] + ticks, tick.now)
  {
    var s, t := [plans] + states, [tick] + ticks;
    forall i | 0 <= i < |t|
      ensures IsTick(s[i], t[i], s[i + 1], bad)
    {
      if i > 0 {
        assert s[i] == states[i - 1] && t[i] == ticks[i - 1] && s[i + 1] == states[i];
        assert IsTick(states[i - 1], ticks[i - 1], states[i], bad);
      }
    }
  }

  lemma PrependNever(tick: Tick, ticks: seq<Tick>, p: PlanId)
    requires NeverIn(ticks, p) && p !in tick.list
    ensures NeverIn([tick] + ticks, p)
  {
  }

  /** Runs of any length in which p is never served. */
  lemma {:induction false} StarvingRun(plans: Plans, p: PlanId, key: int, bad: set<PlanId>, block: set<PlanId>, n: nat)
    returns (states: seq<Plans>, ticks: seq<Tick>)
    requires Blocked(plans, p, key, bad, block)
    ensures IsRun(states, ticks, bad) && |ticks| == n && states[0] == plans && AllAt(ticks, key) && NeverIn(ticks, p)
    decreases n
  {
    if n == 0 {
      states, ticks := [plans], [];
    } else {
      var due, list := StarvingPass(plans, p, key, bad, block);
      var tick, after := Tick(key, list), Ticked(plans, key, list);
      StaysBlocked(plans, p, key, bad, block, key, list);
      var s, t := StarvingRun(after, p, key, bad, block, n - 1);
      PrependTick(plans, tick, s, t, bad);
      PrependNever(tick, t, p);
      states, ticks := [plans] + s, [tick] + t;
    }
  }

  // ------------------------------------------------------------- the exact condition

  ghost predicate ServedWithin(plans: Plans, bad: set<PlanId>, p: PlanId, n: nat) {
    forall states, ticks :: RunFrom(states, ticks, bad, plans, p, n) ==> Served(ticks, n, p)
  }

  lemma FewStuckBound(plans: Plans, bad: set<PlanId>, p: PlanId, stuck: set<PlanId>) returns (n: nat)
    requires Waits(plans, p) && SteadyOutside(plans, p, stuck) && CalmAhead(plans, p, bad) && |stuck| < DUE_LIMIT
    ensures ServedWithin(plans, bad, p, n)
  {
    n := Passes(Ahead(plans, plans[p].nextRunAt.value, stuck, p), |stuck|);
    forall states, ticks | RunFrom(states, ticks, bad, plans, p, n)
      ensures Served(ticks, n, p)
    {
      FewStuckServed(plans, states, ticks, bad, p, stuck, n);
    }
  }

  lemma BlockersAreThose(plans: Plans, p: PlanId)
    requires p in plans && plans[p].nextRunAt.Some? && SteadyAhead(plans, p)
    ensures SteadyOutside(plans, p, Blockers(plans, p))
  {
  }

  lemma BlockedStarves(plans: Plans, bad: set<PlanId>, p: PlanId, key: int, block: set<PlanId>, n: nat)
    requires Blocked(plans, p, key, bad, block)
    ensures !ServedWithin(plans, bad, p, n)
  {
    var states, ticks := StarvingRun(plans, p, key, bad, block, n + 1);
    assert p in DueSet(plans, ticks[0].now);
    assert RunFrom(states, ticks, bad, plans, p, n);
    assert !Served(ticks, n, p);
  }

  /** Bad plans never move on. */
  ghost predicate BadIsStuck(plans: Plans, bad: set<PlanId>) {
    forall id :: id in bad && id in plans ==> Stuck(plans[id])
  }

  lemma BlockersBlock(plans: Plans, bad: set<PlanId>, p: PlanId)
    requires Waits(plans, p) && BadIsStuck(plans, bad)
    requires |Blockers(plans, p)| >= DUE_LIMIT || !CalmAhead(plans, p, bad)
    ensures Blocked(plans, p, plans[p].nextRunAt.value, bad, Blockers(plans, p))
  {
    if !CalmAhead(plans, p, bad) {
      var q :| q in DueSet(plans, plans[p].nextRunAt.value) && q != p && q in bad;
      assert q in Blockers(plans, p);
    }
  }

  lemma ServedFor(plans: Plans, bad: set<PlanId>, p: PlanId)
    requires Waits(plans, p) && SteadyAhead(plans, p) && BadIsStuck(plans, bad)
    ensures (exists n :: ServedWithin(plans, bad, p, n)) <==> |Blockers(plans, p)| < DUE_LIMIT && CalmAhead(plans, p, bad)
  {
    if |Blockers(plans, p)| < DUE_LIMIT && CalmAhead(plans, p, bad) {
      BlockersAreThose(plans, p);
      var n := FewStuckBound(plans, bad, p, Blockers(plans, p));
    } else {
      BlockersBlock(plans, bad, p);
      forall n
        ensures !ServedWithin(plans, bad, p, n)
      {
        BlockedStarves(plans, bad, p, plans[p].nextRunAt.value, Blockers(plans, p), n);
      }
    }
  }

  lemma PanicsNeverAnswers(p: Plan, now: int)
    requires Panics(p.cron)
    ensures !CanAdvance(p, now)
  {
  }

  lemma PanickingIsStuck(plans: Plans)
    ensures BadIsStuck(plans, Panicking(plans))
  {
    forall id | id in Panicking(plans)
      ensures Stuck(plans[id])
    {
      PanickingMeans(plans, id);
      forall now
        ensures !CanAdvance(plans[id], now)
      {
        PanicsNeverAnswers(plans[id], now);
      }
    }
  }

  /** A due plan is served within some number of passes in every run exactly when fewer than fifty other
      plans due no later than it never move on, and the expression of none of them panics. */
  lemma ServedExactly(plans: Plans, p: PlanId)
    requires Waits(plans, p) && SteadyAhead(plans, p)
    ensures (exists n :: ServedWithin(plans, Panicking(plans), p, n))
            <==> |Blockers(plans, p)| < DUE_LIMIT && CalmAhead(plans, p, Panicking(plans))
  {
    PanickingIsStuck(plans);
    ServedFor(plans, Panicking(plans), p);
  }

  /** Without panics ahead of it, the number of plans that never move on decides. */
  lemma ServedWithoutPanics(plans: Plans, p: PlanId)
    requires Waits(plans, p) && SteadyAhead(plans, p) && CalmAhead(plans, p, Panicking(plans))
    ensures (exists n :: ServedWithin(plans, Panicking(plans), p, n)) <==> |Blockers(plans, p)| < DUE_LIMIT
  {
    ServedExactly(plans, p);
  }

  lemma HugeStepIsPanicking(plans: Plans, q: PlanId, value: nat, step: nat, others: seq<string>)
    requires q in plans && plans[q].cron == Join([Itoa(value) + "/" + Itoa(step)] + others, " ")
    requires value <= 59 && 1 <= step <= MAX_INT64 < value + step
    requires |others| == 4 && forall s :: s in others ==> IsToken(s)
    ensures q in Panicking(plans)
  {
    var parts := [Itoa(value) + "/" + Itoa(step)] + others;
    assert Join(parts, " ") == parts[0] + " " + Join(parts[1..], " ");
    CronForms.HugeStepPanics(value, step, others, 0);
    PanickingMeans(plans, q);
  }

  /** One plan with a step that leaves 64 bits, due no later than p, is enough to starve p for good. */
  lemma HugeStepStarves(plans: Plans, p: PlanId, q: PlanId, value: nat, step: nat, others: seq<string>, n: nat)
    requires Waits(plans, p) && q in DueSet(plans, plans[p].nextRunAt.value) && q != p
    requires plans[q].cron == Join([Itoa(value) + "/" + Itoa(step)] + others, " ")
    requires value <= 59 && 1 <= step <= MAX_INT64 < value + step
    requires |others| == 4 && forall s :: s in others ==> IsToken(s)
    ensures !ServedWithin(plans, Panicking(plans), p, n)
  {
    HugeStepIsPanicking(plans, q, value, step, others);
    PanickingIsStuck(plans);
    BlockersBlock(plans, Panicking(plans), p);
    BlockedStarves(plans, Panicking(plans), p, plans[p].nextRunAt.value, Blockers(plans, p), n);
  }

  // ------------------------------------------------------------- which plans never move on

  /** The expression is accepted. */
  predicate Parses(cron: string) {
    cron != "" && ParseOutcome(Fields(cron)).Ok?
  }

  ghost predicate LeapDaysOnly(cron: string)
    requires Parses(cron)
  {
    OnlyOddDays(ScheduleOf(Fields(cron))) && PicksLeapDay(ScheduleOf(Fields(cron)))
  }

  ghost predicate NoDays(cron: string)
    requires Parses(cron)
  {
    OnlyOddDays(ScheduleOf(Fields(cron))) && !PicksLeapDay(ScheduleOf(Fields(cron)))
  }

  ghost predicate Answers(cron: string, now: int) {
    Answer(cron, now).Ok?
  }

  lemma UnparsedNeverAnswers(cron: string, now: int)
    requires !ParseOutcome(Fields(cron)).Ok?
    ensures !Answers(cron, now)
  {
  }

  lemma AnswersUnlessDoomed(cron: string, now: int)
    requires ParseOutcome(Fields(cron)).Ok?
    ensures Answers(cron, now) <==> !Doomed(ScheduleOf(Fields(cron)), FirstMinute(now))
  {
    HorizonExact(cron, now);
    if NextRunIs(cron, now, Err(NeverMatches)) {
      NextRunUnique(cron, now, Answer(cron, now), Err(NeverMatches));
    }
  }

  lemma MinuteInYear(y: int) returns (t: int)
    ensures CivilOf(t).date.year == y
  {
    var d := Date(y, 1, 1);
    t := MinuteOf(d, 0, 0);
    CivilOfMinute(d, 0, 0);
  }

  lemma InstantBefore(t: int) returns (now: int)
    ensures FirstMinute(now) == t
  {
    now := (t - 1) * NANOS_PER_MINUTE;
  }

  /** Some instant whose next minute falls in a given year. */
  lemma InstantInYear(y: int) returns (now: int)
    ensures CivilOf(FirstMinute(now)).date.year == y
  {
    var t := MinuteInYear(y);
    now := InstantBefore(t);
  }

  lemma LeapDayBetweenExactly(s: Schedule, y: int, first: int, limit: int)
    ensures IsLeap(y + 1) ==> LeapDayBetween(s, y, first, limit)
    ensures !IsLeap(y) && !IsLeap(y + 1) && !IsLeap(y + 2) ==> !LeapDayBetween(s, y, first, limit)
  {
  }

  lemma LeapYears() returns (before: int, after: int)
    ensures IsLeap(before + 1) && !IsLeap(after) && !IsLeap(after + 1) && !IsLeap(after + 2)
  {
    before, after := 3, 5;
  }

  /** How the answers of an accepted expression depend on the instant. */
  lemma AnswersExactly(cron: string)
    requires Parses(cron)
    ensures (forall now :: Answers(cron, now)) <==> !OnlyOddDays(ScheduleOf(Fields(cron)))
    ensures (forall now :: !Answers(cron, now)) <==> NoDays(cron)
  {
    var s := ScheduleOf(Fields(cron));
    forall now
      ensures Answers(cron, now) <==> !Doomed(s, FirstMinute(now))
    {
      AnswersUnlessDoomed(cron, now);
    }
    if OnlyOddDays(s) {
      var before, after := LeapYears();
      var doomed := InstantInYear(after);
      LeapDayBetweenExactly(s, after, FirstMinute(doomed), AddTwoYears(FirstMinute(doomed)));
      assert !Answers(cron, doomed);
      if PicksLeapDay(s) {
        var saved := InstantInYear(before);
        LeapDayBetweenExactly(s, before, FirstMinute(saved), AddTwoYears(FirstMinute(saved)));
        assert Answers(cron, saved);
      }
    }
  }

  /** A plan never moves on exactly when it has no expression, one that is refused or panics, or one that
      picks only days no year has. */
  lemma StuckExactly(p: Plan)
    ensures Stuck(p) <==> !Parses(p.cron) || NoDays(p.cron)
  {
    if Parses(p.cron) {
      AnswersExactly(p.cron);
      StuckMeans(p);
    } else if p.cron != "" {
      forall now
        ensures !CanAdvance(p, now)
      {
        UnparsedNeverAnswers(p.cron, now);
      }
    }
  }

  lemma StuckMeans(p: Plan)
    requires p.cron != ""
    ensures Stuck(p) <==> forall now :: !Answers(p.cron, now)
    ensures AlwaysAdvances(p) <==> forall now :: Answers(p.cron, now)
  {
    if Stuck(p) {
      forall now
        ensures !Answers(p.cron, now)
      {
        assert !CanAdvance(p, now);
      }
    }
    if AlwaysAdvances(p) {
      forall now
        ensures Answers(p.cron, now)
      {
        assert CanAdvance(p, now);
      }
    }
    if forall now :: !Answers(p.cron, now) {
      forall now
        ensures !CanAdvance(p, now)
      {
        assert !Answers(p.cron, now);
      }
    }
    if forall now :: Answers(p.cron, now) {
      forall now
        ensures CanAdvance(p, now)
      {
        assert Answers(p.cron, now);
      }
    }
  }

  /** So every plan is steady except one that picks Feb 29 and no ordinary day. */
  lemma SteadyExactly(p: Plan)
    ensures Stuck(p) || AlwaysAdvances(p) <==> !(Parses(p.cron) && LeapDaysOnly(p.cron))
  {
    StuckExactly(p);
    if Parses(p.cron) {
      AnswersExactly(p.cron);
      StuckMeans(p);
    }
  }
}

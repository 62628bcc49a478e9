/** Releases of one app and rollback: the handler lists the newest releases, deploys the first that
is not current, and the worker records a new release and marks it current.

Rows are kept in the order they were created, each strictly later than the one before it.  A failed
mark leaves the current flag where it was and the deployment still succeeds. */
module Releases {
  import opened Text

  datatype Release = Release(id: nat, created: int, commit: string, current: bool)

  /** Creation times and ids rise. */
  ghost predicate Ordered(rows: seq<Release>) {
    && (forall i, j :: 0 <= i < j < |rows| ==> rows[i].created < rows[j].created)
    && (forall i, j :: 0 <= i < j < |rows| ==> rows[i].id != rows[j].id)
  }

  /** The unique index: one current release at most. */
  ghost predicate AtMostOneCurrent(rows: seq<Release>) {
    forall i, j :: 0 <= i < j < |rows| ==> !(rows[i].current && rows[j].current)
  }

  ghost predicate NewestIsCurrent(rows: seq<Release>) {
    forall i :: 0 <= i < |rows| ==> (rows[i].current <==> i == |rows| - 1)
  }

  // ------------------------------------------------------------- specification

  /** The flags after marking one release: it alone is current. */
  function Marked(rows: seq<Release>, id: nat): seq<Release> {
    seq(|rows|, i requires 0 <= i < |rows| => rows[i].(current := rows[i].id == id))
  }

  /** The newest `n` rows, newest first. */
  function Newest(rows: seq<Release>, n: nat): (r: seq<Release>)
    ensures |r| == if n <= |rows| then n else |rows|
    ensures forall i :: 0 <= i < |r| ==> r[i] == rows[|rows| - 1 - i]
  {
    if n == 0 || rows == [] then [] else [rows[|rows| - 1]] + Newest(rows[..|rows| - 1], n - 1)
  }

  /** The release a rollback deploys: the newest of the last five that is not current. */
  ghost predicate IsTarget(rows: seq<Release>, target: Option<Release>) {
    match target
    case None => forall i :: 0 <= i < |rows| && i >= |rows| - 5 ==> rows[i].current
    case Some(r) => exists i :: 0 <= i < |rows| && i >= |rows| - 5 && rows[i] == r && !r.current
                                && forall j :: i < j < |rows| ==> rows[j].current
  }

  // ------------------------------------------------------------- the table

  class ReleaseTable {
    var rows: seq<Release>

    constructor ()
      ensures rows == []
    {
      rows := [];
    }

    method CreateRelease(id: nat, commit: string, now: int) returns (r: Release)
      requires Ordered(rows) && forall i :: 0 <= i < |rows| ==> rows[i].id != id && rows[i].created < now
      modifies this
      ensures r == Release(id, now, commit, false) && rows == old(rows) + [r] && Ordered(rows)
    {
      r := Release(id, now, commit, false);
      rows := rows + [r];
    }

    /** Clears the current flag everywhere, then sets it on one row; rolled back if there is no such row. */
    method MarkCurrentRelease(id: nat) returns (ok: bool)
      requires Ordered(rows)
      modifies this
      ensures ok <==> exists i :: 0 <= i < |old(rows)| && old(rows)[i].id == id
      ensures rows == if ok then Marked(old(rows), id) else old(rows)
      ensures |rows| == |old(rows)|
      ensures forall i :: 0 <= i < |rows| ==>
                rows[i] == if ok then old(rows)[i].(current := old(rows)[i].id == id) else old(rows)[i]
      ensures ok ==> AtMostOneCurrent(rows)
    {
      var next := rows;
      var i := 0;
      while i < |next|
        invariant 0 <= i <= |next| == |rows|
        invariant forall j :: 0 <= j < |rows| ==> next[j] == if j < i then rows[j].(current := false) else rows[j]
      {
        next := next[i := next[i].(current := false)];
        i := i + 1;
      }
      ok := false;
      i := 0;
      while i < |next|
        invariant 0 <= i <= |next| == |rows|
        invariant ok <==> exists j :: 0 <= j < i && rows[j].id == id
        invariant forall j :: 0 <= j < |rows| ==> next[j] == rows[j].(current := j < i && rows[j].id == id)
      {
        if next[i].id == id {
          next := next[i := next[i].(current := true)];
          ok := true;
        }
        i := i + 1;
      }
      if ok {
        assert next == Marked(rows, id);
        rows := next;
      }
    }

    /** The newest releases, newest first; a limit that is not positive means ten. */
    method ListReleases(limit: int) returns (out: seq<Release>)
      requires Ordered(rows)
      ensures out == Newest(rows, if limit <= 0 then 10 else limit)
      ensures forall i, j :: 0 <= i < j < |out| ==> out[i].created > out[j].created
      ensures forall r, o :: r in rows && r !in out && o in out ==> r.created < o.created
    {
      var n := if limit <= 0 then 10 else limit;
      out := [];
      while |out| < n && |out| < |rows|
        invariant |out| <= n && |out| <= |rows|
        invariant forall i :: 0 <= i < |out| ==> out[i] == rows[|rows| - 1 - i]
      {
        out := out + [rows[|rows| - 1 - |out|]];
      }
      assert out == Newest(rows, n);
      forall r, o | r in rows && r !in out && o in out
        ensures r.created < o.created
      {
        LeftOutIsOlder(rows, n, r, o);
      }
    }

    /** The rollback handler's scan of the last five releases. */
    method RollbackTarget() returns (target: Option<Release>)
      requires Ordered(rows)
      ensures IsTarget(rows, target)
    {
      var releases := ListReleases(5);
      target := None;
      var i := 0;
      while i < |releases|
        invariant 0 <= i <= |releases|
        invariant target.None?
        invariant forall j :: 0 <= j < i ==> releases[j].current
      {
        if !releases[i].current {
          target := Some(releases[i]);
          assert rows[|rows| - 1 - i] == releases[i];
          NewerAreCurrent(rows, releases, i);
          break;
        }
        i := i + 1;
      }
      if target.None? {
        NewerAreCurrent(rows, releases, |releases|);
      }
    }

    /** The worker's last step: record the release, mark it if the mark succeeds. */
    method RecordRelease(id: nat, commit: string, now: int, markOk: bool)
      requires Ordered(rows) && forall i :: 0 <= i < |rows| ==> rows[i].id != id && rows[i].created < now
      modifies this
      ensures Ordered(rows) && rows == Recorded(old(rows), id, commit, now, markOk)
    {
      var r := CreateRelease(id, commit, now);
      if markOk {
        assert rows[|rows| - 1].id == id;
        var _ := MarkCurrentRelease(id);
      }
    }
  }

  lemma InNewest(rows: seq<Release>, n: nat, i: nat)
    requires i < |rows| && i >= |rows| - |Newest(rows, n)|
    ensures rows[i] in Newest(rows, n)
  {
    assert Newest(rows, n)[|rows| - 1 - i] == rows[i];
  }

  lemma LeftOutIsOlder(rows: seq<Release>, n: nat, r: Release, o: Release)
    requires Ordered(rows) && r in rows && r !in Newest(rows, n) && o in Newest(rows, n)
    ensures r.created < o.created
  {
    var out := Newest(rows, n);
    var i :| 0 <= i < |rows| && rows[i] == r;
    var j :| 0 <= j < |out| && out[j] == o;
    if i >= |rows| - |out| {
      InNewest(rows, n, i);
    }
  }

  lemma NewerAreCurrent(rows: seq<Release>, releases: seq<Release>, n: nat)
    requires releases == Newest(rows, 5) && n <= |releases| && forall j :: 0 <= j < n ==> releases[j].current
    ensures forall i :: 0 <= i < |rows| && i >= |rows| - n ==> rows[i].current
  {
    forall i | 0 <= i < |rows| && i >= |rows| - n
      ensures rows[i].current
    {
      assert releases[|rows| - 1 - i] == rows[i];
    }
  }

  function Recorded(rows: seq<Release>, id: nat, commit: string, now: int, markOk: bool): seq<Release> {
    var added := rows + [Release(id, now, commit, false)];
    if markOk then Marked(added, id) else added
  }

  // ------------------------------------------------------------- what a rollback targets

  /** The newest release if that one is not current, and the one just before it otherwise. */
  function Target(rows: seq<Release>): Option<Release> {
    if rows == [] then None
    else if !rows[|rows| - 1].current then Some(rows[|rows| - 1])
    else if |rows| == 1 then None
    else Some(rows[|rows| - 2])
  }

  /** With one current release at most, that is what the scan finds; its window of five never matters. */
  lemma TargetExactly(rows: seq<Release>, target: Option<Release>)
    requires AtMostOneCurrent(rows)
    ensures IsTarget(rows, target) <==> target == Target(rows)
  {
    var n := |rows|;
    if n > 0 && target == Target(rows) && target.Some? {
      var i := if rows[n - 1].current then n - 2 else n - 1;
      assert rows[i] == target.value && forall j :: i < j < n ==> rows[j].current;
    }
    if IsTarget(rows, target) && target.Some? {
      var i :| 0 <= i < n && rows[i] == target.value && !rows[i].current && forall j :: i < j < n ==> rows[j].current;
      assert i >= n - 2;
    }
    assert n > 1 ==> !(rows[n - 2].current && rows[n - 1].current);
  }

  // ------------------------------------------------------------- every history

  datatype Event =
    | Deploy(commit: string, markOk: bool)   // a deployment that succeeded
    | Rollback(markOk: bool)                 // a rollback whose deployment succeeded

  /** Ids and times of new rows come after all earlier ones. */
  function Append(rows: seq<Release>, commit: string, markOk: bool): seq<Release> {
    var last := if rows == [] then Release(0, 0, "", false) else rows[|rows| - 1];
    Recorded(rows, last.id + 1, commit, last.created + 1, markOk)
  }

  function Step(rows: seq<Release>, e: Event): seq<Release> {
    match e
    case Deploy(commit, markOk) => Append(rows, commit, markOk)
    case Rollback(markOk) => if Target(rows).Some? then Append(rows, Target(rows).value.commit, markOk) else rows
  }

  function Run(rows: seq<Release>, events: seq<Event>): seq<Release>
    decreases |events|
  {
    if events == [] then rows else Run(Step(rows, events[0]), events[1..])
  }

  ghost predicate RisingIds(rows: seq<Release>) {
    forall i, j :: 0 <= i < j < |rows| ==> rows[i].id < rows[j].id && rows[i].created < rows[j].created
  }

  lemma AppendKeeps(rows: seq<Release>, commit: string, markOk: bool)
    requires RisingIds(rows) && AtMostOneCurrent(rows)
    ensures var r := Append(rows, commit, markOk);
            && |r| == |rows| + 1 && r[|rows|].commit == commit && (r[|rows|].current <==> markOk)
            && RisingIds(r) && AtMostOneCurrent(r) && (markOk ==> NewestIsCurrent(r))
            && (forall i :: 0 <= i < |rows| ==> r[i].commit == rows[i].commit)
            && (!markOk ==> r[..|rows|] == rows)
  {
    var r := Append(rows, commit, markOk);
    forall i | 0 <= i < |rows|
      ensures rows[i].id < r[|rows|].id && rows[i].created < r[|rows|].created
    {
    }
  }

  lemma StepKeeps(rows: seq<Release>, e: Event)
    requires RisingIds(rows) && AtMostOneCurrent(rows)
    ensures RisingIds(Step(rows, e)) && AtMostOneCurrent(Step(rows, e))
    ensures e.markOk && NewestIsCurrent(rows) ==> NewestIsCurrent(Step(rows, e))
  {
    match e
    case Deploy(commit, markOk) => AppendKeeps(rows, commit, markOk);
    case Rollback(markOk) =>
      if Target(rows).Some? {
        AppendKeeps(rows, Target(rows).value.commit, markOk);
      }
  }

  /** In every history one release at most is current; while every mark succeeds, it is the newest. */
  lemma {:induction false} RunKeepsCurrent(rows: seq<Release>, events: seq<Event>)
    requires RisingIds(rows) && AtMostOneCurrent(rows)
    ensures RisingIds(Run(rows, events)) && AtMostOneCurrent(Run(rows, events))
    ensures NewestIsCurrent(rows) && (forall i :: 0 <= i < |events| ==> events[i].markOk) ==>
              NewestIsCurrent(Run(rows, events))
    decreases |events|
  {
    if events != [] {
      StepKeeps(rows, events[0]);
      RunKeepsCurrent(Step(rows, events[0]), events[1..]);
    }
  }

  // ------------------------------------------------------------- rollback as an involution

  /** The commit the node runs: the newest release's. */
  function RunningCommit(rows: seq<Release>): string
    requires rows != []
  {
    rows[|rows| - 1].commit
  }

  function Rollbacks(rows: seq<Release>, k: nat): seq<Release>
    decreases k
  {
    if k == 0 then rows else Step(Rollbacks(rows, k - 1), Rollback(true))
  }

  /** One rollback swaps the last two commits. */
  lemma RollbackSwaps(rows: seq<Release>) returns (next: seq<Release>)
    requires RisingIds(rows) && NewestIsCurrent(rows) && |rows| >= 2
    ensures next == Step(rows, Rollback(true))
            && |next| == |rows| + 1 && RisingIds(next) && NewestIsCurrent(next)
            && next[|next| - 1].commit == rows[|rows| - 2].commit && next[|next| - 2].commit == rows[|rows| - 1].commit
  {
    AppendKeeps(rows, rows[|rows| - 2].commit, true);
    next := Step(rows, Rollback(true));
  }

  /** What k rollbacks leave: the last two commits in their order for even k, swapped for odd k. */
  ghost predicate Alternates(rows: seq<Release>, r: seq<Release>, k: nat)
    requires |rows| >= 2
  {
    && RisingIds(r) && NewestIsCurrent(r) && |r| == |rows| + k
    && r[|r| - 1].commit == (if k % 2 == 0 then rows[|rows| - 1] else rows[|rows| - 2]).commit
    && r[|r| - 2].commit == (if k % 2 == 0 then rows[|rows| - 2] else rows[|rows| - 1]).commit
  }

  lemma AlternateStep(rows: seq<Release>, prev: seq<Release>, k: nat)
    requires |rows| >= 2 && Alternates(rows, prev, k)
    ensures Alternates(rows, Step(prev, Rollback(true)), k + 1)
  {
    var next := RollbackSwaps(prev);
    Swapped(rows, prev, next, k);
  }

  lemma Swapped(rows: seq<Release>, prev: seq<Release>, next: seq<Release>, k: nat)
    requires |rows| >= 2 && Alternates(rows, prev, k)
    requires |next| == |prev| + 1 && RisingIds(next) && NewestIsCurrent(next)
    requires next[|next| - 1].commit == prev[|prev| - 2].commit && next[|next| - 2].commit == prev[|prev| - 1].commit
    ensures Alternates(rows, next, k + 1)
  {
  }

  /** Successive rollbacks alternate between two commits and never reach an older release. */
  lemma {:induction false} RollbacksAlternate(rows: seq<Release>, k: nat)
    requires RisingIds(rows) && NewestIsCurrent(rows) && |rows| >= 2
    ensures Alternates(rows, Rollbacks(rows, k), k)
    decreases k
  {
    if k > 0 {
      RollbacksAlternate(rows, k - 1);
      AlternateStep(rows, Rollbacks(rows, k - 1), k - 1);
    }
  }

  /** Two rollbacks in a row restore the original commit exactly when the first one's mark succeeded
      or there was nothing to undo. */
  lemma TwoRollbacksRestore(rows: seq<Release>, first: bool, second: bool)
    requires RisingIds(rows) && NewestIsCurrent(rows) && |rows| >= 2
    ensures var r := Step(Step(rows, Rollback(first)), Rollback(second));
            r != [] && (RunningCommit(r) == RunningCommit(rows) <==>
                        first || rows[|rows| - 2].commit == rows[|rows| - 1].commit)
  {
    var a := Step(rows, Rollback(first));
    AppendKeeps(rows, rows[|rows| - 2].commit, first);
    assert Target(a).Some?;
    AppendKeeps(a, Target(a).value.commit, second);
    assert a[|a| - 2].commit == rows[|rows| - 1].commit;
  }

  // ------------------------------------------------------------- asking and finishing apart

  /** The handler picks the commit when the rollback is asked for; the release is recorded when its
      deployment finishes, and other deployments may finish in between. */
  datatype Board = Board(rows: seq<Release>, asked: map<nat, string>)

  datatype Move =
    | Ask(r: nat)
    | Finish(r: nat, markOk: bool)
    | Other(commit: string, markOk: bool)

  function Play(s: Board, m: Move): Board {
    match m
    case Ask(r) => if Target(s.rows).Some? then s.(asked := s.asked[r := Target(s.rows).value.commit]) else s
    case Finish(r, markOk) => if r in s.asked then Board(Append(s.rows, s.asked[r], markOk), s.asked - {r}) else s
    case Other(commit, markOk) => s.(rows := Append(s.rows, commit, markOk))
  }

  function PlayAll(s: Board, moves: seq<Move>): Board
    decreases |moves|
  {
    if moves == [] then s else PlayAll(Play(s, moves[0]), moves[1..])
  }

  predicate Marks(m: Move) {
    m.Ask? || m.markOk
  }

  predicate IsAbout(m: Move, r: nat) {
    (m.Ask? || m.Finish?) && m.r == r
  }

  /** `later` starts with the commits of `rows`. */
  ghost predicate KeepsCommits(rows: seq<Release>, later: seq<Release>) {
    |rows| <= |later| && forall i :: 0 <= i < |rows| ==> later[i].commit == rows[i].commit
  }

  lemma PlayKeeps(s: Board, m: Move)
    requires RisingIds(s.rows) && AtMostOneCurrent(s.rows)
    ensures var t := Play(s, m);
            && RisingIds(t.rows) && AtMostOneCurrent(t.rows) && KeepsCommits(s.rows, t.rows)
            && (Marks(m) && NewestIsCurrent(s.rows) ==> NewestIsCurrent(t.rows))
            && (forall r :: r in s.asked && !IsAbout(m, r) ==> r in t.asked && t.asked[r] == s.asked[r])
  {
    match m
    case Ask(_) =>
    case Finish(r, markOk) =>
      if r in s.asked {
        AppendKeeps(s.rows, s.asked[r], markOk);
      }
    case Other(commit, markOk) => AppendKeeps(s.rows, commit, markOk);
  }

  /** However rollbacks and deployments interleave, one release at most is current, the newest one while
      marks succeed, and a request keeps the commit it picked. */
  lemma {:induction false} PlayAllKeeps(s: Board, moves: seq<Move>, r: nat)
    requires RisingIds(s.rows) && AtMostOneCurrent(s.rows)
    ensures var t := PlayAll(s, moves);
            && RisingIds(t.rows) && AtMostOneCurrent(t.rows) && KeepsCommits(s.rows, t.rows)
            && (NewestIsCurrent(s.rows) && (forall i :: 0 <= i < |moves| ==> Marks(moves[i])) ==> NewestIsCurrent(t.rows))
            && (r in s.asked && (forall i :: 0 <= i < |moves| ==> !IsAbout(moves[i], r)) ==>
                  r in t.asked && t.asked[r] == s.asked[r])
    decreases |moves|
  {
    if moves != [] {
      PlayKeeps(s, moves[0]);
      PlayAllKeeps(Play(s, moves[0]), moves[1..], r);
    }
  }

  /** Asking and finishing with nothing in between is the one-step rollback. */
  lemma AtOnceIsRollback(s: Board, r: nat, markOk: bool)
    ensures Target(s.rows).Some? || r !in s.asked ==>
              Play(Play(s, Ask(r)), Finish(r, markOk)).rows == Step(s.rows, Rollback(markOk))
  {
  }

  /** Recording `commit` is what a rollback at once would do exactly when it is the commit before the
      newest one. */
  lemma RecordsLikeRollback(rows: seq<Release>, commit: string, markOk: bool)
    requires RisingIds(rows) && NewestIsCurrent(rows) && |rows| >= 2
    ensures Append(rows, commit, markOk) == Step(rows, Rollback(markOk)) <==> rows[|rows| - 2].commit == commit
  {
    var target := rows[|rows| - 2].commit;
    assert Target(rows) == Some(rows[|rows| - 2]);
    AppendKeeps(rows, commit, markOk);
    AppendKeeps(rows, target, markOk);
    assert Append(rows, commit, markOk)[|rows|].commit == commit && Append(rows, target, markOk)[|rows|].commit == target;
  }

  /** What a rollback asked for at `rows` does when it finishes at `now`. */
  ghost predicate FinishesLate(rows: seq<Release>, now: seq<Release>, end: seq<Release>, markOk: bool)
    requires |rows| >= 2
  {
    var n, atOnce := |rows|, Step(now, Rollback(markOk));
    && end == Append(now, rows[n - 2].commit, markOk)
    && |now| >= n && (end == atOnce <==> now[|now| - 2].commit == rows[n - 2].commit)
    && (|now| == n ==> end == atOnce)
    && (|now| == n + 1 ==> (end == atOnce <==> rows[n - 1].commit == rows[n - 2].commit))
  }

  lemma LateRecord(rows: seq<Release>, now: seq<Release>, markOk: bool)
    requires |rows| >= 2 && RisingIds(now) && NewestIsCurrent(now) && KeepsCommits(rows, now)
    ensures FinishesLate(rows, now, Append(now, rows[|rows| - 2].commit, markOk), markOk)
  {
    RecordsLikeRollback(now, rows[|rows| - 2].commit, markOk);
  }

  lemma AskPicks(s: Board, r: nat)
    requires NewestIsCurrent(s.rows) && |s.rows| >= 2
    ensures Play(s, Ask(r)) == Board(s.rows, s.asked[r := s.rows[|s.rows| - 2].commit])
  {
  }

  lemma FinishRecords(now: Board, rows: seq<Release>, r: nat, markOk: bool)
    requires |rows| >= 2 && r in now.asked && now.asked[r] == rows[|rows| - 2].commit
    requires RisingIds(now.rows) && NewestIsCurrent(now.rows) && KeepsCommits(rows, now.rows)
    ensures FinishesLate(rows, now.rows, Play(now, Finish(r, markOk)).rows, markOk)
  {
    LateRecord(rows, now.rows, markOk);
  }

  lemma LateFrom(asked: Board, rows: seq<Release>, r: nat, between: seq<Move>, markOk: bool, now: Board)
    requires RisingIds(rows) && NewestIsCurrent(rows) && |rows| >= 2
    requires asked.rows == rows && r in asked.asked && asked.asked[r] == rows[|rows| - 2].commit
    requires forall i :: 0 <= i < |between| ==> !IsAbout(between[i], r) && Marks(between[i])
    requires now == PlayAll(asked, between)
    ensures FinishesLate(rows, now.rows, Play(now, Finish(r, markOk)).rows, markOk)
  {
    PlayAllKeeps(asked, between, r);
    FinishRecords(now, rows, r, markOk);
  }

  /** A rollback that finishes later redeploys the release before the newest one of the time it was
      asked for.  That is what a rollback at once would do exactly when that commit is also the one
      before the newest now: always if no release was recorded since, and after a single one exactly
      when the last two commits were equal already. */
  lemma LateRollback(s: Board, r: nat, between: seq<Move>, markOk: bool, asked: Board, now: Board)
    requires RisingIds(s.rows) && NewestIsCurrent(s.rows) && |s.rows| >= 2
    requires forall i :: 0 <= i < |between| ==> !IsAbout(between[i], r) && Marks(between[i])
    requires asked == Play(s, Ask(r)) && now == PlayAll(asked, between)
    ensures FinishesLate(s.rows, now.rows, Play(now, Finish(r, markOk)).rows, markOk)
  {
    AskPicks(s, r);
    LateFrom(asked, s.rows, r, between, markOk, now);
  }
}

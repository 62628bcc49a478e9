/** One-time download links for backup runs: created with a deadline, redeemed, revoked. */
module Links {
  import opened Text
  import opened Durations

  type Token = string
  type LinkId = nat
  type RunId = string

  datatype Link = Link(
    run: RunId, project: string, token: Token, expiresAt: int, singleUse: bool,
    usedAt: Option<int>, revokedAt: Option<int>)

  type Table = map<LinkId, Link>

  /** The unique index on the token hash. */
  ghost predicate TokensUnique(links: Table) {
    forall i, j :: i in links && j in links && links[i].token == links[j].token ==> i == j
  }

  predicate TokenTaken(links: Table, token: Token) {
    exists i :: i in links && links[i].token == token
  }

  /** What the redeeming statement demands of a row. */
  predicate Redeemable(l: Link, now: int) {
    l.revokedAt.None? && l.usedAt.None? && l.expiresAt > now
  }

  predicate Matches(links: Table, i: LinkId, token: Token, now: int) {
    i in links && links[i].token == token && Redeemable(links[i], now)
  }

  function Consumed(l: Link, now: int): Link {
    if l.singleUse then l.(usedAt := Some(now)) else l
  }

  datatype CreateResult = Created | Invalid

  class LinkTable {
    var links: Table

    constructor ()
      ensures links == map[]
    {
      links := map[];
    }

    method CreateExpiringLink(id: LinkId, run: RunId, project: string, token: Token, ttl: int, singleUse: bool, now: int)
      returns (r: CreateResult)
      requires id !in links && TokensUnique(links)
      modifies this
      ensures TokensUnique(links)
      ensures r.Created? <==> CanCreate(old(links), run, project, token, ttl)
      ensures r.Created? <==>
                && token != "" && run != "" && project != "" && 0 < ttl <= 86_400_000_000_000
                && forall i :: i in old(links) ==> old(links)[i].token != token
      ensures links == if r.Created? then old(links)[id := Link(run, project, token, now + ttl, singleUse, None, None)]
                       else old(links)
      ensures r.Created? ==> Matches(links, id, token, now) && !Matches(links, id, token, now + DAY)
    {
      if token == "" || run == "" || project == "" || ttl <= 0 || ttl > DAY || TokenTaken(links, token) {
        return Invalid;
      }
      links := links[id := Link(run, project, token, now + ttl, singleUse, None, None)];
      return Created;
    }

    /** Unknown, revoked, expired and used tokens all give the same answer. */
    method RedeemExpiringLink(token: Token, now: int) returns (run: Option<RunId>)
      requires TokensUnique(links)
      modifies this
      ensures TokensUnique(links)
      ensures run.None? <==> forall i :: !Matches(old(links), i, token, now)
      ensures run.None? <==> forall i :: i in old(links) && old(links)[i].token == token ==>
                               old(links)[i].revokedAt.Some? || old(links)[i].usedAt.Some? || old(links)[i].expiresAt <= now
      ensures run.None? ==> links == old(links)
      ensures links.Keys == old(links).Keys
      ensures forall i :: i in links ==>
                links[i] == if run.Some? && old(links)[i].token == token && old(links)[i].singleUse
                            then old(links)[i].(usedAt := Some(now)) else old(links)[i]
      ensures run.Some? ==> exists i :: Matches(old(links), i, token, now) && run.value == old(links)[i].run
                                        && links == old(links)[i := Consumed(old(links)[i], now)]
    {
      if i :| i in links && links[i].token == token && Redeemable(links[i], now) {
        assert Matches(links, i, token, now);
        run := Some(links[i].run);
        links := links[i := Consumed(links[i], now)];
      } else {
        run := None;
      }
    }

    method RevokeExpiringLink(project: string, id: LinkId, now: int) returns (found: bool)
      modifies this
      ensures found <==> CanRevoke(old(links), project, id)
      ensures found <==> id in old(links) && old(links)[id].project == project && old(links)[id].revokedAt.None?
      ensures links == if found then old(links)[id := old(links)[id].(revokedAt := Some(now))] else old(links)
    {
      found := CanRevoke(links, project, id);
      if found {
        links := links[id := links[id].(revokedAt := Some(now))];
      }
    }
  }

  predicate CanCreate(links: Table, run: RunId, project: string, token: Token, ttl: int) {
    token != "" && run != "" && project != "" && 0 < ttl <= DAY && !TokenTaken(links, token)
  }

  predicate CanRevoke(links: Table, project: string, id: LinkId) {
    id in links && links[id].project == project && links[id].revokedAt.None?
  }

  // ------------------------------------------------------------- every history

  datatype Event =
    | Create(id: LinkId, run: RunId, project: string, token: Token, ttl: int, singleUse: bool, at: int)
    | Redeem(token: Token, at: int)
    | Revoke(project: string, id: LinkId, at: int)

  /** The link a redemption takes, if it succeeds. */
  ghost predicate Redeems(links: Table, e: Event, i: LinkId) {
    e.Redeem? && Matches(links, i, e.token, e.at)
  }

  ghost function Step(links: Table, e: Event): Table {
    match e
    case Create(id, run, project, token, ttl, singleUse, now) =>
      if id !in links && CanCreate(links, run, project, token, ttl)
      then links[id := Link(run, project, token, now + ttl, singleUse, None, None)] else links
    case Redeem(token, now) =>
      if i :| Matches(links, i, token, now) then links[i := Consumed(links[i], now)] else links
    case Revoke(project, id, now) =>
      if CanRevoke(links, project, id) then links[id := links[id].(revokedAt := Some(now))] else links
  }

  ghost function Run(links: Table, events: seq<Event>): Table
    decreases |events|
  {
    if events == [] then links else Run(Step(links, events[0]), events[1..])
  }

  /** Everything but the use and revocation marks. */
  predicate SameLink(l: Link, m: Link) {
    m.run == l.run && m.project == l.project && m.token == l.token && m.expiresAt == l.expiresAt && m.singleUse == l.singleUse
  }

  predicate IsSpent(l: Link) {
    l.usedAt.Some? || l.revokedAt.Some?
  }

  lemma StepKeeps(links: Table, e: Event, id: LinkId)
    requires TokensUnique(links)
    ensures TokensUnique(Step(links, e))
    ensures id in links ==> id in Step(links, e) && SameLink(links[id], Step(links, e)[id])
                            && (IsSpent(links[id]) ==> IsSpent(Step(links, e)[id]))
  {
  }

  /** Tokens stay unique, a link never changes what it is for, and a spent link stays spent. */
  lemma {:induction false} RunKeeps(links: Table, events: seq<Event>, id: LinkId)
    requires TokensUnique(links)
    ensures TokensUnique(Run(links, events))
    ensures id in links ==> id in Run(links, events) && SameLink(links[id], Run(links, events)[id])
                            && (IsSpent(links[id]) ==> IsSpent(Run(links, events)[id]))
    decreases |events|
  {
    if events != [] {
      StepKeeps(links, events[0], id);
      RunKeeps(Step(links, events[0]), events[1..], id);
    }
  }

  /** Revoking the link, or presenting a single-use token in time, spends it. */
  predicate Spends(id: LinkId, l: Link, e: Event) {
    || (e.Revoke? && e.id == id && e.project == l.project)
    || (e.Redeem? && e.token == l.token && e.at < l.expiresAt && l.singleUse)
  }

  lemma SpendStep(links: Table, e: Event, id: LinkId)
    requires TokensUnique(links) && id in links && !IsSpent(links[id])
    ensures id in Step(links, e) && (IsSpent(Step(links, e)[id]) <==> Spends(id, links[id], e))
  {
    if e.Redeem? && e.token == links[id].token && e.at < links[id].expiresAt {
      assert Matches(links, id, e.token, e.at);
    }
  }

  /** After any history, a token is accepted exactly when its deadline is ahead and nothing in the
      history spent the link; so a single-use token is accepted at most once, and none after a
      revocation or from the deadline on. */
  lemma {:induction false} RedeemExactly(links: Table, between: seq<Event>, id: LinkId, now: int)
    requires TokensUnique(links) && id in links && !IsSpent(links[id])
    ensures Matches(Run(links, between), id, links[id].token, now)
            <==> now < links[id].expiresAt && forall k :: 0 <= k < |between| ==> !Spends(id, links[id], between[k])
    decreases |between|
  {
    if between != [] {
      var next := Step(links, between[0]);
      StepKeeps(links, between[0], id);
      SpendStep(links, between[0], id);
      if IsSpent(next[id]) {
        RunKeeps(next, between[1..], id);
      } else {
        RedeemExactly(next, between[1..], id, now);
        assert forall k :: 0 < k < |between| ==> between[k] == between[1..][k - 1];
        assert forall e :: Spends(id, next[id], e) <==> Spends(id, links[id], e);
      }
    }
  }

  /** A link that has been created is accepted for its lifetime and no longer, unless something spends
      it first. */
  lemma CreatedIsRedeemable(links: Table, create: Event, between: seq<Event>, now: int)
    requires TokensUnique(links) && create.Create? && create.id !in links
    requires CanCreate(links, create.run, create.project, create.token, create.ttl)
    ensures var first, later := Step(links, create), Run(Step(links, create), between);
            && create.id in first
            && (Matches(later, create.id, create.token, now)
                <==> now < create.at + create.ttl
                     && forall k :: 0 <= k < |between| ==> !Spends(create.id, first[create.id], between[k]))
            && first[create.id].run == create.run && first[create.id].singleUse == create.singleUse
            && first[create.id].project == create.project
  {
    var first := Step(links, create);
    StepKeeps(links, create, create.id);
    assert first[create.id].token == create.token && first[create.id].expiresAt == create.at + create.ttl;
    RedeemExactly(first, between, create.id, now);
  }

  /** Two successful redemptions of one token return the same run, and the link is not single-use. */
  lemma RedeemedTwice(links: Table, first: Event, between: seq<Event>, second: Event, i: LinkId, j: LinkId)
    requires TokensUnique(links) && Redeems(links, first, i)
    requires Redeems(Run(Step(links, first), between), second, j) && first.token == second.token
    ensures i == j && !links[i].singleUse && Run(Step(links, first), between)[j].run == links[i].run
  {
    var next := Step(links, first);
    StepKeeps(links, first, i);
    RunKeeps(next, between, i);
    SpendStep(links, first, i);
  }
}

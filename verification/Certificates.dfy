/** Certificates and their bindings to domains.

Bindings are an append-only log: binding a certificate ends the domain's current binding and appends
a new one in one transaction.  The check that the certificate may serve comes before the transaction,
so revocations and expiry sweeps can fall between the two. */
module Certificates {
  import opened Text
  import opened Durations

  type CertId = nat
  type DomainId = string

  datatype CertState = Active | Expiring | Expired | Revoked | Superseded

  datatype Cert = Cert(state: CertState, notAfter: int, revokedAt: Option<int>, deleted: bool)

  type Certs = map<CertId, Cert>

  predicate Usable(c: Cert) {
    !c.deleted && (c.state.Active? || c.state.Expiring?)
  }

  predicate CanBind(certs: Certs, id: CertId) {
    id in certs && Usable(certs[id])
  }

  /** A binding is current while it has no end. */
  datatype Binding = Binding(domain: DomainId, cert: CertId, activated: int, deactivated: Option<int>)

  // ------------------------------------------------------------- one bind

  /** Ends the domain's current binding. */
  function Deactivated(bs: seq<Binding>, domain: DomainId, now: int): seq<Binding> {
    seq(|bs|, i requires 0 <= i < |bs| =>
      if bs[i].domain == domain && bs[i].deactivated.None? then bs[i].(deactivated := Some(now)) else bs[i])
  }

  /** The primary key refuses the same certificate twice at one instant. */
  predicate KeyTaken(bs: seq<Binding>, domain: DomainId, cert: CertId, now: int) {
    exists i :: 0 <= i < |bs| && bs[i].domain == domain && bs[i].cert == cert && bs[i].activated == now
  }

  function Bound(bs: seq<Binding>, domain: DomainId, cert: CertId, now: int): seq<Binding> {
    if KeyTaken(bs, domain, cert, now) then bs
    else Deactivated(bs, domain, now) + [Binding(domain, cert, now, None)]
  }

  // ------------------------------------------------------------- the timeline

  /** The binding is in force at `t`. */
  predicate Covers(b: Binding, t: int) {
    b.activated <= t && (b.deactivated.None? || t < b.deactivated.value)
  }

  predicate Serves(bs: seq<Binding>, i: int, domain: DomainId, t: int) {
    0 <= i < |bs| && bs[i].domain == domain && Covers(bs[i], t)
  }

  /** Nothing in the log lies after `clock`; a domain's bindings follow one another, and each ended one
      is followed by one that begins when it ends. */
  ghost predicate Timeline(bs: seq<Binding>, clock: int) {
    && (forall i :: 0 <= i < |bs| ==> bs[i].activated <= clock)
    && (forall i :: 0 <= i < |bs| && bs[i].deactivated.Some? ==> bs[i].activated <= bs[i].deactivated.value <= clock)
    && (forall i, j :: 0 <= i < j < |bs| && bs[i].domain == bs[j].domain ==>
          bs[i].deactivated.Some? && bs[i].deactivated.value <= bs[j].activated)
    && (forall i :: 0 <= i < |bs| && bs[i].deactivated.Some? ==> Followed(bs, i))
  }

  ghost predicate Followed(bs: seq<Binding>, i: int)
    requires 0 <= i < |bs| && bs[i].deactivated.Some?
  {
    exists j :: i < j < |bs| && bs[j].domain == bs[i].domain && bs[j].activated == bs[i].deactivated.value
  }

  /** After a bind, the next binding follows the one it ended, and the others are followed as before. */
  lemma BindFollows(bs: seq<Binding>, domain: DomainId, cert: CertId, now: int, i: int)
    requires !KeyTaken(bs, domain, cert, now) && 0 <= i < |bs|
    requires bs[i].deactivated.Some? ==> Followed(bs, i)
    ensures var r := Bound(bs, domain, cert, now); |r| == |bs| + 1 && (r[i].deactivated.Some? ==> Followed(r, i))
  {
    var r, n := Bound(bs, domain, cert, now), |bs|;
    if bs[i].deactivated.Some? {
      var j :| i < j < n && bs[j].domain == bs[i].domain && bs[j].activated == bs[i].deactivated.value;
      assert r[j].domain == r[i].domain && r[j].activated == r[i].deactivated.value;
    } else if r[i].deactivated.Some? {
      assert r[n].domain == r[i].domain && r[n].activated == r[i].deactivated.value;
    }
  }

  lemma BindKeepsTimeline(bs: seq<Binding>, clock: int, domain: DomainId, cert: CertId, now: int)
    requires Timeline(bs, clock) && clock <= now
    ensures Timeline(Bound(bs, domain, cert, now), now)
  {
    var r := Bound(bs, domain, cert, now);
    if !KeyTaken(bs, domain, cert, now) {
      assert r[|bs|] == Binding(domain, cert, now, None);
      forall i | 0 <= i < |r| && r[i].deactivated.Some?
        ensures Followed(r, i)
      {
        BindFollows(bs, domain, cert, now, i);
      }
    }
  }

  /** At every instant from the first bind on, exactly one binding of the domain is in force. */
  lemma ExactlyOneServes(bs: seq<Binding>, clock: int, domain: DomainId, t: int)
    requires Timeline(bs, clock)
    ensures (exists i :: Serves(bs, i, domain, t))
            <==> (exists i :: 0 <= i < |bs| && bs[i].domain == domain && bs[i].activated <= t)
    ensures forall i, j :: Serves(bs, i, domain, t) && Serves(bs, j, domain, t) ==> i == j
  {
    if i :| Serves(bs, i, domain, t) {
      assert 0 <= i < |bs| && bs[i].domain == domain && bs[i].activated <= t;
    }
    if i :| 0 <= i < |bs| && bs[i].domain == domain && bs[i].activated <= t {
      var k := LastServes(bs, clock, domain, t, i);
    }
  }

  /** Following the chain of endings from a binding reaches the one in force. */
  lemma {:induction false} LastServes(bs: seq<Binding>, clock: int, domain: DomainId, t: int, i: int) returns (k: int)
    requires Timeline(bs, clock) && 0 <= i < |bs| && bs[i].domain == domain && bs[i].activated <= t
    ensures Serves(bs, k, domain, t)
    decreases |bs| - i
  {
    k := i;
    if !Covers(bs[i], t) {
      assert Followed(bs, i);
      var j :| i < j < |bs| && bs[j].domain == bs[i].domain && bs[j].activated == bs[i].deactivated.value;
      k := LastServes(bs, clock, domain, t, j);
    }
  }

  /** `later` only adds to `bs`: rows keep everything but an end they did not have. */
  ghost predicate Extends(bs: seq<Binding>, later: seq<Binding>) {
    |bs| <= |later| && forall i :: 0 <= i < |bs| ==> KeepsRow(bs[i], later[i])
  }

  predicate KeepsRow(b: Binding, c: Binding) {
    c.domain == b.domain && c.cert == b.cert && c.activated == b.activated
    && (b.deactivated.Some? ==> c.deactivated == b.deactivated)
  }

  lemma BindExtends(bs: seq<Binding>, domain: DomainId, cert: CertId, now: int)
    ensures Extends(bs, Bound(bs, domain, cert, now))
  {
  }

  // ------------------------------------------------------------- the store

  const DEFAULT_WINDOW := 30 * DAY

  predicate IsExpiring(c: Cert, cutoff: int) {
    !c.deleted && (c.state.Active? || c.state.Expiring?) && c.notAfter <= cutoff
  }

  /** The certificates after a sweep: every one about to expire is marked. */
  function Swept(certs: Certs, cutoff: int): Certs {
    map id | id in certs :: if IsExpiring(certs[id], cutoff) then certs[id].(state := Expiring) else certs[id]
  }

  function MarkedExpiring(certs: Certs, id: CertId): Certs {
    if id in certs && !certs[id].deleted && certs[id].state.Active? then certs[id := certs[id].(state := Expiring)] else certs
  }

  function RevokedAt(certs: Certs, id: CertId, now: int): Certs {
    if id in certs && !certs[id].deleted && !certs[id].state.Revoked?
    then certs[id := certs[id].(state := Revoked, revokedAt := Some(now))] else certs
  }

  class Store {
    var certs: Certs
    var bindings: seq<Binding>

    constructor (certs: Certs)
      ensures this.certs == certs && bindings == []
    {
      this.certs := certs;
      bindings := [];
    }

    /** Binds a usable certificate and reports whether the log changed. */
    method Bind(domain: DomainId, cert: CertId, now: int) returns (ok: bool)
      modifies this`bindings
      ensures ok <==> CanBind(certs, cert) && !KeyTaken(old(bindings), domain, cert, now)
      ensures bindings == if ok then Bound(old(bindings), domain, cert, now) else old(bindings)
      ensures ok <==> cert in certs && !certs[cert].deleted && certs[cert].state !in {Expired, Revoked, Superseded}
                      && forall b :: b in old(bindings) ==> b.domain != domain || b.cert != cert || b.activated != now
      ensures ok ==> |bindings| == |old(bindings)| + 1 && bindings[|old(bindings)|] == Binding(domain, cert, now, None)
      ensures ok ==> forall i :: 0 <= i < |old(bindings)| ==>
                bindings[i] == if old(bindings)[i].domain == domain && old(bindings)[i].deactivated.None?
                               then old(bindings)[i].(deactivated := Some(now)) else old(bindings)[i]
      ensures ok ==> Serves(bindings, |bindings| - 1, domain, now)
    {
      if !CanBind(certs, cert) || KeyTaken(bindings, domain, cert, now) {
        return false;
      }
      bindings := Deactivated(bindings, domain, now);
      bindings := bindings + [Binding(domain, cert, now, None)];
      return true;
    }

    /** A candidate that fails validation or cannot be bound leaves the bindings as they were. */
    method SafeRenewCandidate(domain: DomainId, cert: CertId, valid: bool, now: int) returns (ok: bool)
      modifies this`bindings
      ensures ok <==> valid && CanBind(certs, cert) && !KeyTaken(old(bindings), domain, cert, now)
      ensures bindings == if ok then Bound(old(bindings), domain, cert, now) else old(bindings)
    {
      if cert !in certs || certs[cert].deleted || !valid {
        return false;
      }
      ok := Bind(domain, cert, now);
    }

    /** The certificate serving the domain now, unless it has been deleted. */
    method CurrentForDomain(domain: DomainId, ghost clock: int) returns (r: Option<CertId>)
      requires Timeline(bindings, clock)
      ensures r.Some? ==> exists i :: Serves(bindings, i, domain, clock) && bindings[i].cert == r.value
                                      && r.value in certs && !certs[r.value].deleted
      ensures r.None? ==> forall i :: Serves(bindings, i, domain, clock) ==>
                            bindings[i].cert !in certs || certs[bindings[i].cert].deleted
    {
      if i :| 0 <= i < |bindings| && bindings[i].domain == domain && bindings[i].deactivated.None?
              && bindings[i].cert in certs && !certs[bindings[i].cert].deleted {
        assert Serves(bindings, i, domain, clock);
        return Some(bindings[i].cert);
      }
      return None;
    }

    method MarkExpiring(id: CertId) returns (ok: bool)
      modifies this`certs
      ensures certs == MarkedExpiring(old(certs), id)
      ensures ok <==> id in old(certs) && !old(certs)[id].deleted && old(certs)[id].state.Active?
      ensures certs == if ok then old(certs)[id := old(certs)[id].(state := Expiring)] else old(certs)
    {
      ok := id in certs && !certs[id].deleted && certs[id].state.Active?;
      if ok {
        certs := certs[id := certs[id].(state := Expiring)];
      }
    }

    method Revoke(id: CertId, now: int) returns (ok: bool)
      modifies this`certs
      ensures certs == RevokedAt(old(certs), id, now)
      ensures ok <==> id in old(certs) && !old(certs)[id].deleted && !old(certs)[id].state.Revoked?
      ensures certs == if ok then old(certs)[id := old(certs)[id].(state := Revoked, revokedAt := Some(now))] else old(certs)
    {
      ok := id in certs && !certs[id].deleted && !certs[id].state.Revoked?;
      if ok {
        certs := certs[id := certs[id].(state := Revoked, revokedAt := Some(now))];
      }
    }

    /** The live certificates that end within the window, soonest first; no window means thirty days. */
    method ListExpiring(window: int, now: int) returns (ids: seq<CertId>)
      ensures forall id :: id in ids <==> id in certs && IsExpiring(certs[id], now + Window(window))
      ensures forall id :: id in ids <==>
                && id in certs && !certs[id].deleted && certs[id].state !in {Expired, Revoked, Superseded}
                && certs[id].notAfter - now <= if window > 0 then window else 2_592_000_000_000_000
      ensures forall i, j :: 0 <= i < j < |ids| && ids[i] in certs && ids[j] in certs ==>
                ids[i] != ids[j] && certs[ids[i]].notAfter <= certs[ids[j]].notAfter
    {
      var rest := set id | id in certs && IsExpiring(certs[id], now + Window(window));
      ids := [];
      while rest != {}
        invariant forall id :: id in rest ==> id in certs && id !in ids
        invariant forall id :: id in ids || id in rest <==> id in certs && IsExpiring(certs[id], now + Window(window))
        invariant forall i, j :: 0 <= i < j < |ids| && ids[i] in certs && ids[j] in certs ==>
                    ids[i] != ids[j] && certs[ids[i]].notAfter <= certs[ids[j]].notAfter
        invariant forall i, id :: 0 <= i < |ids| && id in rest && ids[i] in certs ==>
                    certs[ids[i]].notAfter <= certs[id].notAfter
        decreases |rest|
      {
        SoonestExists(certs, rest);
        var id :| id in rest && forall j :: j in rest ==> certs[id].notAfter <= certs[j].notAfter;
        ids := ids + [id];
        rest := rest - {id};
      }
    }

    /** Marks every certificate about to end and notifies about each, soonest first. */
    method Sweep(window: int, now: int) returns (notified: seq<CertId>)
      modifies this`certs
      ensures certs == Swept(old(certs), now + Window(window))
      ensures forall id :: id in notified <==> id in old(certs) && IsExpiring(old(certs)[id], now + Window(window))
      ensures certs.Keys == old(certs).Keys
      ensures forall id :: id in certs ==>
                certs[id] == if id in notified then old(certs)[id].(state := Expiring) else old(certs)[id]
      ensures forall i, j :: 0 <= i < j < |notified| && notified[i] in certs && notified[j] in certs ==>
                notified[i] != notified[j] && certs[notified[i]].notAfter <= certs[notified[j]].notAfter
    {
      var expiring := ListExpiring(window, now);
      ghost var before := certs;
      notified := [];
      var i := 0;
      while i < |expiring|
        invariant 0 <= i <= |expiring| && notified == expiring[..i]
        invariant certs.Keys == before.Keys
        invariant forall id :: id in certs ==>
          certs[id] == if id in expiring[..i] then before[id].(state := Expiring) else before[id]
      {
        var id := expiring[i];
        if certs[id].state.Active? {
          var _ := MarkExpiring(id);
        }
        notified := notified + [id];
        i := i + 1;
      }
      assert expiring[..i] == expiring;
    }
  }

  function Window(window: int): int {
    if window <= 0 then DEFAULT_WINDOW else window
  }

  /** A certificate may serve while it is live and active or about to expire. */
  lemma UsableStates(c: Cert)
    ensures c.state in {Active, Expiring} ==> (Usable(c) <==> !c.deleted)
    ensures c.state in {Expired, Revoked, Superseded} ==> !Usable(c)
  {
  }

  lemma WindowInNanoseconds(window: int)
    ensures Window(0) == 2_592_000_000_000_000
    ensures window < 0 ==> Window(window) == Window(0)
    ensures window > 0 ==> Window(window) == window
  {
  }

  lemma {:induction false} SoonestExists(certs: Certs, ids: set<CertId>)
    requires ids != {} && ids <= certs.Keys
    ensures exists id :: id in ids && forall j :: j in ids ==> certs[id].notAfter <= certs[j].notAfter
    decreases |ids|
  {
    var k :| k in ids;
    var rest := ids - {k};
    var best := k;
    if rest != {} {
      SoonestExists(certs, rest);
      var m :| m in rest && forall j :: j in rest ==> certs[m].notAfter <= certs[j].notAfter;
      best := if certs[k].notAfter < certs[m].notAfter then k else m;
    }
    forall j | j in ids
      ensures certs[best].notAfter <= certs[j].notAfter
    {
      assert j == k || j in rest;
    }
  }

  // ------------------------------------------------------------- every history

  /** A bind past its check. */
  datatype Binder = Binder(domain: DomainId, cert: CertId)

  datatype System = System(certs: Certs, bindings: seq<Binding>, binders: map<nat, Binder>, clock: int)

  datatype Event =
    | Tick(now: int)
    | Check(b: nat, domain: DomainId, cert: CertId, valid: bool)   // validation, then the usable check
    | Commit(b: nat, ok: bool)                                     // the transaction, at the clock
    | RevokeCert(id: CertId)
    | SweepCerts(window: int)
    | MarkCert(id: CertId)

  function Step(s: System, e: Event): System {
    match e
    case Tick(now) => if s.clock <= now then s.(clock := now) else s
    case Check(b, domain, cert, valid) =>
      if b !in s.binders && valid && CanBind(s.certs, cert) then s.(binders := s.binders[b := Binder(domain, cert)]) else s
    case Commit(b, ok) =>
      if b !in s.binders then s
      else
        var done := s.(binders := s.binders - {b});
        if ok then done.(bindings := Bound(s.bindings, s.binders[b].domain, s.binders[b].cert, s.clock)) else done
    case RevokeCert(id) => s.(certs := RevokedAt(s.certs, id, s.clock))
    case SweepCerts(window) => s.(certs := Swept(s.certs, s.clock + Window(window)))
    case MarkCert(id) => s.(certs := MarkedExpiring(s.certs, id))
  }

  function Run(s: System, events: seq<Event>): System
    decreases |events|
  {
    if events == [] then s else Run(Step(s, events[0]), events[1..])
  }

  lemma StepKeeps(s: System, e: Event)
    requires Timeline(s.bindings, s.clock)
    ensures Timeline(Step(s, e).bindings, Step(s, e).clock) && Extends(s.bindings, Step(s, e).bindings)
  {
    if e.Commit? && e.b in s.binders && e.ok {
      BindKeepsTimeline(s.bindings, s.clock, s.binders[e.b].domain, s.binders[e.b].cert, s.clock);
      BindExtends(s.bindings, s.binders[e.b].domain, s.binders[e.b].cert, s.clock);
    }
  }

  lemma {:induction false} RunKeeps(s: System, events: seq<Event>)
    requires Timeline(s.bindings, s.clock)
    ensures Timeline(Run(s, events).bindings, Run(s, events).clock) && Extends(s.bindings, Run(s, events).bindings)
    decreases |events|
  {
    if events != [] {
      StepKeeps(s, events[0]);
      RunKeeps(Step(s, events[0]), events[1..]);
    }
  }

  /** However binds, revocations and sweeps interleave: from a domain's first bind on, each instant is
      served by exactly one binding, and rows already written stay as they are. */
  lemma TimelineHasNoGaps(s: System, events: seq<Event>, domain: DomainId, t: int, first: int)
    requires Timeline(s.bindings, s.clock)
    requires 0 <= first < |s.bindings| && s.bindings[first].domain == domain && s.bindings[first].activated <= t
    ensures var bs := Run(s, events).bindings;
            && Extends(s.bindings, bs)
            && exists i :: Serves(bs, i, domain, t) && forall j :: Serves(bs, j, domain, t) ==> j == i
  {
    var r := Run(s, events);
    RunKeeps(s, events);
    assert KeepsRow(s.bindings[first], r.bindings[first]);
    ExactlyOneServes(r.bindings, r.clock, domain, t);
    var i := LastServes(r.bindings, r.clock, domain, t, first);
  }

  /** What served at a past instant never changes. */
  lemma {:induction false} PastIsFixed(s: System, events: seq<Event>, domain: DomainId, t: int, i: int)
    requires Timeline(s.bindings, s.clock) && t < s.clock && Serves(s.bindings, i, domain, t)
    ensures Serves(Run(s, events).bindings, i, domain, t)
    decreases |events|
  {
    if events != [] {
      var e := events[0];
      StepKeeps(s, e);
      PastIsFixed(Step(s, e), events[1..], domain, t, i);
    }
  }

  // ------------------------------------------------------------- certificate states

  /** A revoked certificate stays revoked, with its time, in every history. */
  lemma {:induction false} RevokedIsFinal(s: System, events: seq<Event>, id: CertId)
    requires id in s.certs && s.certs[id].state.Revoked?
    ensures id in Run(s, events).certs && Run(s, events).certs[id] == s.certs[id]
    decreases |events|
  {
    if events != [] {
      RevokedIsFinal(Step(s, events[0]), events[1..], id);
    }
  }

  /** A second sweep with no later cutoff changes nothing. */
  lemma SweepIsIdempotent(certs: Certs, cutoff: int, cutoff': int)
    requires cutoff' <= cutoff
    ensures Swept(Swept(certs, cutoff), cutoff') == Swept(certs, cutoff)
  {
  }

  /** A sweep never makes a usable certificate unusable or an unusable one usable. */
  lemma SweepKeepsUsable(certs: Certs, cutoff: int, id: CertId)
    ensures CanBind(Swept(certs, cutoff), id) <==> CanBind(certs, id)
  {
  }

  /** A pending bind commits a usable certificate exactly when nobody revoked it since its check. */
  lemma {:induction false} BoundUsableExactly(s: System, between: seq<Event>, id: CertId)
    requires CanBind(s.certs, id)
    ensures CanBind(Run(s, between).certs, id) <==> (forall i :: 0 <= i < |between| ==> between[i] != RevokeCert(id))
    decreases |between|
  {
    if between != [] {
      var next := Step(s, between[0]);
      if between[0] == RevokeCert(id) {
        RevokedIsFinal(next, between[1..], id);
      } else {
        BoundUsableExactly(next, between[1..], id);
        assert forall i :: 0 < i < |between| ==> between[i] == between[1..][i - 1];
      }
    }
  }

  // ------------------------------------------------------------- single steps

  /** A candidate that is checked and committed serves the domain from the commit on, in place of the
      certificate that served it; one that is not valid, or not usable, leaves no trace. */
  lemma CandidateServes(s: System, b: nat, domain: DomainId, cert: CertId, valid: bool, now: int)
    requires b !in s.binders && s.clock <= now
    requires forall x :: x in s.bindings ==> x.domain != domain || x.cert != cert || x.activated != now
    ensures var end := Step(Step(Step(s, Check(b, domain, cert, valid)), Tick(now)), Commit(b, true));
            && end.clock == now && end.certs == s.certs && end.binders == s.binders
            && if valid && cert in s.certs && !s.certs[cert].deleted && s.certs[cert].state in {Active, Expiring}
               then && |end.bindings| == |s.bindings| + 1 && end.bindings[|s.bindings|] == Binding(domain, cert, now, None)
                    && forall i :: 0 <= i < |s.bindings| ==>
                         end.bindings[i] == if s.bindings[i].domain == domain && s.bindings[i].deactivated.None?
                                            then s.bindings[i].(deactivated := Some(now)) else s.bindings[i]
               else end.bindings == s.bindings
  {
    assert s.binders[b := Binder(domain, cert)] - {b} == s.binders;
  }

  /** A commit that fails only ends the bind. */
  lemma FailedCommit(s: System, b: nat)
    ensures Step(s, Commit(b, false)) == s.(binders := s.binders - {b})
  {
    if b !in s.binders {
      assert s.binders - {b} == s.binders;
    }
  }

  /** After a sweep no live active certificate ends within the window, and those that did are expiring;
      nothing else changes. */
  lemma SweepMarks(s: System, window: int, id: CertId)
    requires id in s.certs
    ensures var end, within := Step(s, SweepCerts(window)),
                               s.certs[id].notAfter <= s.clock + if window > 0 then window else 2_592_000_000_000_000;
            && end.bindings == s.bindings && end.binders == s.binders && end.certs.Keys == s.certs.Keys
            && end.certs[id] == if !s.certs[id].deleted && s.certs[id].state in {Active, Expiring} && within
                                then s.certs[id].(state := Expiring) else s.certs[id]
  {
  }

  /** Marking moves a live active certificate and revoking any live one that is not revoked yet. */
  lemma MarkAndRevoke(s: System, id: CertId, other: CertId)
    requires other in s.certs
    ensures var c, end := s.certs[other], Step(s, MarkCert(id));
            && other in end.certs && end.bindings == s.bindings
            && end.certs[other] == if id == other && !c.deleted && c.state == Active then c.(state := Expiring) else c
    ensures var c, end := s.certs[other], Step(s, RevokeCert(id));
            && other in end.certs && end.bindings == s.bindings
            && end.certs[other] == if id == other && !c.deleted && c.state != Revoked
                                   then c.(state := Revoked, revokedAt := Some(s.clock)) else c
  {
  }
}

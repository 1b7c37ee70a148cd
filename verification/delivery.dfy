/** What reports do to holds, and why repeating a delivery is harmless. */
module Delivery {
  import opened Base
  import opened Holds
  import opened Tables
  import opened Webhook

  // ----- holds -----

  /** A complete safe heartbeat: locked, no session, and nothing unrevoked once it is applied. */
  ghost predicate SafeHeartbeat(creds: map<Id, Credential>, mid: Id, ep: Endpoint, r: Report, now: int) {
    && ValidReport(r, ep) && ep == Heartbeat
    && r.locked == Some(true) && r.active == Some(false)
    && Idle(CredsAfter(creds, mid, ep, r, now), mid)
  }

  /** Evidence about exactly `x`: a terminal report of it, or a valid heartbeat showing it alive. */
  predicate SettlesExactly(creds: map<Id, Credential>, mid: Id, ep: Endpoint, r: Report, x: Id)
    requires ValidReport(r, ep)
  {
    && r.id == Some(x)
    && (KindOf(creds, mid, ep, r) == Terminal || (KindOf(creds, mid, ep, r) == Alive && ep == Heartbeat))
  }

  /** A conflict ends exactly with a safe heartbeat. */
  lemma ConflictEndsOnlySafely(db: Db, mid: Id, ep: Endpoint, r: Report, now: int)
    requires mid in db.machines && ValidReport(r, ep)
    requires db.machines[mid].hold == Some(CONFLICT)
    ensures var hold := Apply(db, mid, ep, r, now).machines[mid].hold;
      && (hold == None <==> SafeHeartbeat(db.creds, mid, ep, r, now))
      && (hold == None || hold == Some(CONFLICT))
  {
    if r.id.Some? { ConflictIsNoGeneration(r.id.value); }
    if KindOf(db.creds, mid, ep, r) == Stray {
      var ids := Current(db.creds, mid) + {r.id.value};
      JoinIsLeastUpperBound(Some(CONFLICT), ids, None);
    }
  }

  /** A hold on one generation is cleared exactly by a safe heartbeat or by evidence about that generation. */
  lemma HoldEndsOnlyByEvidence(db: Db, mid: Id, ep: Endpoint, r: Report, now: int, x: Id)
    requires mid in db.machines && ValidReport(r, ep)
    requires db.machines[mid].hold == Some(x) && x != CONFLICT
    ensures var hold := Apply(db, mid, ep, r, now).machines[mid].hold;
      && (hold == None <==>
            SafeHeartbeat(db.creds, mid, ep, r, now) || SettlesExactly(db.creds, mid, ep, r, x))
      && (hold == None || hold == Some(x) || hold == Some(CONFLICT))
  {
    if KindOf(db.creds, mid, ep, r) == Stray {
      JoinIsLeastUpperBound(Some(x), Current(db.creds, mid) + {r.id.value}, None);
    }
  }

  /** An unsafe generation leaves the machine occupied, drained of credentials and held at least for it. */
  lemma StrayIsHeld(db: Db, mid: Id, ep: Endpoint, r: Report, now: int)
    requires mid in db.machines && ValidReport(r, ep) && KindOf(db.creds, mid, ep, r) == Stray
    ensures var after := Apply(db, mid, ep, r, now);
      && after.machines[mid].status == Occupied && Idle(after.creds, mid)
      && Below(r.id, after.machines[mid].hold)
      && forall v | v in Current(db.creds, mid) :: Below(Some(v), after.machines[mid].hold)
  {
    var ids := Current(db.creds, mid) + {r.id.value};
    JoinIsLeastUpperBound(db.machines[mid].hold, ids, None);
    assert r.id.value in ids;
    forall v | v in Current(db.creds, mid) ensures Below(Some(v), JoinAll(db.machines[mid].hold, ids)) {
      assert v in ids;
    }
  }

  /** A session is recorded as opened only for an unrevoked credential of the reporting machine. */
  lemma OpenedOnlyWhenCurrent(db: Db, mid: Id, ep: Endpoint, r: Report, now: int, id: Id)
    requires mid in db.machines && ValidReport(r, ep) && AllCoupled(db.creds) && id in db.creds
    ensures var after := Apply(db, mid, ep, r, now);
      && (after.creds[id].openedAt != db.creds[id].openedAt ==>
            && r.id == Some(id) && Opening(ep, r) && db.creds[id].machine == mid
            && db.creds[id].revokedAt.None? && db.creds[id].openedAt.None?
            && after.creds[id].openedAt == Some(now) && after.creds[id].version == 2
            && after.machines[mid].status == Occupied)
      && (db.creds[id].revokedAt.Some? ==> after.creds[id] == db.creds[id])
      && (db.creds[id].machine != mid ==> after.creds[id] == db.creds[id])
  {
  }

  // ----- repeated delivery -----

  function Timeless(m: Machine): Machine {
    m.(last := None)
  }

  /** Equal but for the time of the last heartbeat and the audit log. */
  ghost predicate Similar(a: Db, b: Db) {
    && a.creds == b.creds
    && a.machines.Keys == b.machines.Keys
    && forall mid | mid in a.machines :: Timeless(a.machines[mid]) == Timeless(b.machines[mid])
  }

  lemma CredsTwice(creds: map<Id, Credential>, mid: Id, ep: Endpoint, r: Report, now: int, again: int)
    requires ValidReport(r, ep)
    ensures var once := CredsAfter(creds, mid, ep, r, now);
      CredsAfter(once, mid, ep, r, again) == once
  {
    var once := CredsAfter(creds, mid, ep, r, now);
    if KindOf(creds, mid, ep, r) == Stray {
      assert RevokeAll(once, mid, again) == once;
    }
  }

  lemma KindTwice(creds: map<Id, Credential>, mid: Id, ep: Endpoint, r: Report, now: int)
    requires ValidReport(r, ep)
    ensures KindOf(CredsAfter(creds, mid, ep, r, now), mid, ep, r) == KindOf(creds, mid, ep, r)
  {
  }

  ghost predicate SettledMachine(m: Machine, mid: Id, creds: map<Id, Credential>, ep: Endpoint, r: Report, now: int,
                                 again: int)
    requires ValidReport(r, ep)
  {
    var after := CredsAfter(creds, mid, ep, r, now);
    var once := MachineAfter(m, mid, creds, after, ep, r, now);
    Timeless(MachineAfter(once, mid, after, after, ep, r, again)) == Timeless(once)
  }

  lemma AliveTwice(m: Machine, mid: Id, creds: map<Id, Credential>, ep: Endpoint, r: Report, now: int, again: int)
    requires ValidReport(r, ep) && KindOf(creds, mid, ep, r) == Alive
    ensures SettledMachine(m, mid, creds, ep, r, now, again)
  {
    KindTwice(creds, mid, ep, r, now);
    ConflictIsNoGeneration(r.id.value);
  }

  lemma StrayTwice(m: Machine, mid: Id, creds: map<Id, Credential>, ep: Endpoint, r: Report, now: int, again: int)
    requires ValidReport(r, ep) && KindOf(creds, mid, ep, r) == Stray
    ensures SettledMachine(m, mid, creds, ep, r, now, again)
  {
    KindTwice(creds, mid, ep, r, now);
    var after := RevokeAll(creds, mid, now);
    IdleHasNoCurrent(after, mid);
    assert Current(after, mid) + {r.id.value} == {r.id.value};
    JoinAbsorbs(m.hold, Current(creds, mid) + {r.id.value}, r.id.value);
  }

  lemma SettledTwice(m: Machine, mid: Id, creds: map<Id, Credential>, ep: Endpoint, r: Report, now: int, again: int)
    requires ValidReport(r, ep) && KindOf(creds, mid, ep, r) in {Empty, Terminal}
    ensures SettledMachine(m, mid, creds, ep, r, now, again)
  {
    KindTwice(creds, mid, ep, r, now);
  }

  lemma ApplyTwice(db: Db, mid: Id, ep: Endpoint, r: Report, now: int, again: int)
    requires mid in db.machines && ValidReport(r, ep)
    ensures var once := Apply(db, mid, ep, r, now);
      Similar(Apply(once, mid, ep, r, again), once)
  {
    CredsTwice(db.creds, mid, ep, r, now, again);
    assert SettledMachine(db.machines[mid], mid, db.creds, ep, r, now, again) by {
      match KindOf(db.creds, mid, ep, r) {
        case Alive => AliveTwice(db.machines[mid], mid, db.creds, ep, r, now, again);
        case Stray => StrayTwice(db.machines[mid], mid, db.creds, ep, r, now, again);
        case _ => SettledTwice(db.machines[mid], mid, db.creds, ep, r, now, again);
      }
    }
  }

  lemma ApplyRespectsSimilar(a: Db, b: Db, mid: Id, ep: Endpoint, r: Report, now: int)
    requires mid in a.machines && ValidReport(r, ep) && Similar(a, b)
    ensures Similar(Apply(a, mid, ep, r, now), Apply(b, mid, ep, r, now))
  {
    assert Timeless(a.machines[mid]) == Timeless(b.machines[mid]);
  }

  // The unique index on tokens, as far as one token is concerned.
  ghost predicate OneOwner(db: Db, token: string) {
    forall a, b | Authenticates(db, token, a) && Authenticates(db, token, b) :: a == b
  }

  lemma DeliverIsApply(db: Db, token: string, ep: Endpoint, r: Report, now: int, mid: Id)
    requires OneOwner(db, token) && ValidReport(r, ep) && Authenticates(db, token, mid)
    ensures Deliver(db, token, ep, r, now) == Commit(Apply(db, mid, ep, r, now), AnswerTo(db, mid, ep, r, now))
  {
  }

  lemma SameOwners(a: Db, b: Db, token: string)
    requires Similar(a, b)
    ensures forall mid :: Authenticates(a, token, mid) <==> Authenticates(b, token, mid)
  {
    forall mid ensures Authenticates(a, token, mid) <==> Authenticates(b, token, mid) {
      if mid in a.machines { assert Timeless(a.machines[mid]) == Timeless(b.machines[mid]); }
    }
  }

  lemma ApplyKeepsOwners(db: Db, mid: Id, ep: Endpoint, r: Report, now: int, token: string)
    requires mid in db.machines && ValidReport(r, ep)
    ensures forall k :: Authenticates(db, token, k) <==> Authenticates(Apply(db, mid, ep, r, now), token, k)
  {
    var after := Apply(db, mid, ep, r, now);
    assert after.machines[mid].token == db.machines[mid].token;
  }

  lemma DeliverRespectsSimilar(a: Db, b: Db, token: string, ep: Endpoint, r: Report, now: int)
    requires OneOwner(a, token) && Similar(a, b)
    ensures Similar(After(a, Deliver(a, token, ep, r, now)), After(b, Deliver(b, token, ep, r, now)))
  {
    SameOwners(a, b, token);
    if ValidReport(r, ep) && exists mid :: Authenticates(a, token, mid) {
      var mid :| Authenticates(a, token, mid);
      DeliverIsApply(a, token, ep, r, now, mid);
      DeliverIsApply(b, token, ep, r, now, mid);
      ApplyRespectsSimilar(a, b, mid, ep, r, now);
    }
  }

  /** Delivering the same report again, at any later time, changes no credential, status or hold. */
  lemma DeliverTwice(db: Db, token: string, ep: Endpoint, r: Report, now: int, again: int)
    requires OneOwner(db, token)
    ensures var once := After(db, Deliver(db, token, ep, r, now));
      OneOwner(once, token) && Similar(After(once, Deliver(once, token, ep, r, again)), once)
  {
    if ValidReport(r, ep) && exists mid :: Authenticates(db, token, mid) {
      var mid :| Authenticates(db, token, mid);
      DeliverIsApply(db, token, ep, r, now, mid);
      ApplyKeepsOwners(db, mid, ep, r, now, token);
      DeliverIsApply(Apply(db, mid, ep, r, now), token, ep, r, again, mid);
      ApplyTwice(db, mid, ep, r, now, again);
    }
  }

  /** One event of an outbox, with the moments at which it was delivered. */
  datatype Event = Event(ep: Endpoint, report: Report, first: int, repeats: seq<int>)

  ghost function Once(db: Db, token: string, e: Event): Db {
    After(db, Deliver(db, token, e.ep, e.report, e.first))
  }

  ghost function Again(db: Db, token: string, e: Event, times: seq<int>): Db
    decreases |times|
  {
    if times == [] then db else Again(After(db, Deliver(db, token, e.ep, e.report, times[0])), token, e, times[1..])
  }

  ghost function ExactlyOnce(db: Db, token: string, events: seq<Event>): Db
    decreases |events|
  {
    if events == [] then db else ExactlyOnce(Once(db, token, events[0]), token, events[1..])
  }

  ghost function AtLeastOnce(db: Db, token: string, events: seq<Event>): Db
    decreases |events|
  {
    if events == [] then db
    else AtLeastOnce(Again(Once(db, token, events[0]), token, events[0], events[0].repeats), token, events[1..])
  }

  /** One more repeat of an event leaves what its first delivery left. */
  lemma RepeatChangesNothing(db: Db, token: string, e: Event, b: Db, now: int)
    requires OneOwner(db, token) && Similar(b, Once(db, token, e))
    ensures Similar(After(b, Deliver(b, token, e.ep, e.report, now)), Once(db, token, e))
  {
    var once := Once(db, token, e);
    DeliverTwice(db, token, e.ep, e.report, e.first, now);
    SameOwners(b, once, token);
    DeliverRespectsSimilar(b, once, token, e.ep, e.report, now);
  }

  lemma {:induction false} RepeatsChangeNothing(db: Db, token: string, e: Event, b: Db, times: seq<int>)
    requires OneOwner(db, token) && Similar(b, Once(db, token, e))
    ensures Similar(Again(b, token, e, times), Once(db, token, e))
    decreases |times|
  {
    if times != [] {
      RepeatChangesNothing(db, token, e, b, times[0]);
      RepeatsChangeNothing(db, token, e, After(b, Deliver(b, token, e.ep, e.report, times[0])), times[1..]);
    }
  }

  /**
    * In-order at-least-once delivery means the same as exactly-once delivery: whatever the number and the times
    * of the repeats, both streams leave the same credentials, statuses and holds.
    */
  lemma {:induction false} AtLeastOnceIsExactlyOnce(a: Db, b: Db, token: string, events: seq<Event>)
    requires OneOwner(a, token) && Similar(a, b)
    ensures Similar(AtLeastOnce(a, token, events), ExactlyOnce(b, token, events))
    decreases |events|
  {
    if events != [] {
      var e := events[0];
      FirstDeliveries(a, b, token, e);
      AtLeastOnceIsExactlyOnce(Again(Once(a, token, e), token, e, e.repeats), Once(b, token, e), token, events[1..]);
    }
  }

  lemma FirstDeliveries(a: Db, b: Db, token: string, e: Event)
    requires OneOwner(a, token) && Similar(a, b)
    ensures var many := Again(Once(a, token, e), token, e, e.repeats);
      OneOwner(many, token) && Similar(many, Once(b, token, e))
  {
    DeliverTwice(a, token, e.ep, e.report, e.first, e.first);
    DeliverRespectsSimilar(a, b, token, e.ep, e.report, e.first);
    RepeatsChangeNothing(a, token, e, Once(a, token, e), e.repeats);
    SameOwners(Again(Once(a, token, e), token, e, e.repeats), Once(a, token, e), token);
  }
}

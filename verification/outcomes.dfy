/**
  * What every report and every transaction of the server comes to, said of the rows, the hold, the status and the
  * answer alone: when it takes effect, what it changes, and that it changes nothing else.
  */
module Outcomes {
  import opened Base
  import opened Holds
  import opened Tables
  import opened Reservation
  import opened Webhook
  import opened Delivery
  import opened Registry

  // ----- reports -----

  /** The report says that a session is open. */
  predicate SaysOpen(ep: Endpoint, r: Report) {
    ep == SessionOpen || (ep == Heartbeat && r.state == Some(SaysActive))
  }

  /** The report says that a generation waits for its login. */
  predicate SaysWaiting(ep: Endpoint, r: Report) {
    ep == Heartbeat && r.state == Some(SaysPending)
  }

  /** The report says that a generation has ended. */
  predicate SaysEnded(ep: Endpoint, r: Report) {
    ep == SessionClose || ep == CredentialExpired || (ep == Heartbeat && r.state == Some(SaysRevoked))
  }

  /** The audit row of an event on a machine. */
  function Logged(mid: Id, email: Option<string>, event: string, now: int): seq<AuditRow> {
    [AuditRow(Some(mid), email, event, now)]
  }

  /** The student of a credential, as the audit log stores one: an empty address is none. */
  function StudentOf(c: Credential): Option<string> {
    if c.email == "" then None else Some(c.email)
  }

  /** Every row but this one is as it was. */
  predicate OnlyRow(a: map<Id, Credential>, b: map<Id, Credential>, id: Id) {
    a.Keys == b.Keys && forall x | x in a && x != id :: b[x] == a[x]
  }

  /** Every machine but this one is as it was, and this one keeps its identity, its token and its visibility. */
  predicate OnlyMachine(a: map<Id, Machine>, b: map<Id, Machine>, mid: Id) {
    && mid in a && a.Keys == b.Keys && (forall k | k in a && k != mid :: b[k] == a[k])
    && b[mid] == a[mid].(status := b[mid].status, last := b[mid].last, hold := b[mid].hold)
  }

  /**
    * A report of an open session on an unrevoked credential of its machine is recorded: the credential is opened, now
    * unless it was before, the machine is occupied, and the hold settles, or keeps the generation until a heartbeat.
    */
  lemma OpeningIsRecorded(db: Db, mid: Id, ep: Endpoint, r: Report, now: int, id: Id)
    requires mid in db.machines && ValidReport(r, ep) && r.id == Some(id) && SaysOpen(ep, r)
    requires AllCoupled(db.creds) && Live(db.creds, id) && db.creds[id].machine == mid
    ensures var after, c, hold := Apply(db, mid, ep, r, now), db.creds[id], db.machines[mid].hold;
      && OnlyRow(db.creds, after.creds, id) && OnlyMachine(db.machines, after.machines, mid)
      && after.creds[id] == c.(version := 2, openedAt := if c.openedAt.Some? then c.openedAt else Some(now))
      && after.machines[mid].status == Occupied && after.machines[mid].last == Some(now)
      && after.machines[mid].hold == (
           if ep == SessionOpen && c.openedAt.Some? then hold
           else if hold.Some? && hold != Some(id) then Some(CONFLICT)
           else if ep == SessionOpen then Some(id) else None)
      && AnswerTo(db, mid, ep, r, now) == (if c.openedAt.Some? then AlreadyActive else Activated)
      && after.audit == db.audit + if c.openedAt.Some? then [] else Logged(mid, StudentOf(c), "session_open", now)
  {
    assert Coupled(db.creds[id]);
  }

  /** A pending heartbeat of an unrevoked, unopened credential confirms it and settles the hold. */
  lemma WaitingIsRecorded(db: Db, mid: Id, ep: Endpoint, r: Report, now: int, id: Id)
    requires mid in db.machines && ValidReport(r, ep) && r.id == Some(id) && SaysWaiting(ep, r)
    requires AllCoupled(db.creds) && Live(db.creds, id) && db.creds[id].machine == mid && db.creds[id].openedAt.None?
    ensures var after, hold := Apply(db, mid, ep, r, now), db.machines[mid].hold;
      && OnlyRow(db.creds, after.creds, id) && OnlyMachine(db.machines, after.machines, mid)
      && after.creds[id] == db.creds[id].(version := 1)
      && after.machines[mid].status == Occupied && after.machines[mid].last == Some(now)
      && after.machines[mid].hold == (if hold.Some? && hold != Some(id) then Some(CONFLICT) else None)
      && AnswerTo(db, mid, ep, r, now) == Observed && after.audit == db.audit
  {
    assert Coupled(db.creds[id]);
  }

  /** The credential may be reported as open, or as waiting for its login. */
  predicate Reportable(creds: map<Id, Credential>, mid: Id, ep: Endpoint, r: Report, id: Id) {
    Live(creds, id) && creds[id].machine == mid && (SaysWaiting(ep, r) ==> creds[id].openedAt.None?)
  }

  /** The hold covers an earlier one, this generation and every unrevoked credential of the machine. */
  ghost predicate Covers(hold: Option<Id>, was: Option<Id>, creds: map<Id, Credential>, mid: Id, id: Id) {
    && Below(was, hold) && Below(Some(id), hold)
    && forall v | Live(creds, v) && creds[v].machine == mid :: Below(Some(v), hold)
  }

  lemma JoinIsLeastCover(was: Option<Id>, creds: map<Id, Credential>, mid: Id, id: Id, ids: set<Id>, up: Option<Id>)
    requires ids == Current(creds, mid) + {id}
    ensures Covers(JoinAll(was, ids), was, creds, mid, id)
    ensures Covers(up, was, creds, mid, id) ==> Below(JoinAll(was, ids), up)
  {
    JoinIsLeastUpperBound(was, ids, up);
    assert id in ids && forall v | Live(creds, v) && creds[v].machine == mid :: v in ids;
  }

  /**
    * Any other live report ends every unrevoked credential of the machine and leaves the least hold on it that covers
    * the old one, those credentials and the reported generation.
    */
  lemma StrayIsContained(db: Db, mid: Id, ep: Endpoint, r: Report, now: int, id: Id, up: Option<Id>)
    requires mid in db.machines && ValidReport(r, ep) && r.id == Some(id) && (SaysOpen(ep, r) || SaysWaiting(ep, r))
    requires AllCoupled(db.creds) && !Reportable(db.creds, mid, ep, r, id)
    ensures var after, was := Apply(db, mid, ep, r, now), db.machines[mid].hold;
      && AllEnded(db.creds, after.creds, mid, now) && OnlyMachine(db.machines, after.machines, mid)
      && after.machines[mid].status == Occupied && after.machines[mid].last == Some(now)
      && Covers(after.machines[mid].hold, was, db.creds, mid, id)
      && (Covers(up, was, db.creds, mid, id) ==> Below(after.machines[mid].hold, up))
      && AnswerTo(db, mid, ep, r, now) == (
           if SaysWaiting(ep, r) then UnsafePending
           else if id in db.creds && db.creds[id].machine == mid then Stale else Unknown)
      && after.audit == db.audit + Logged(mid, None, "session_open", now)
  {
    assert id in db.creds ==> Coupled(db.creds[id]);
    JoinIsLeastCover(db.machines[mid].hold, db.creds, mid, id, Current(db.creds, mid) + {id}, up);
  }

  /** Every unrevoked credential of the machine is revoked now; every other row is as it was. */
  predicate AllEnded(a: map<Id, Credential>, b: map<Id, Credential>, mid: Id, now: int) {
    && a.Keys == b.Keys
    && forall x | x in a ::
         b[x] == if a[x].machine == mid && a[x].revokedAt.None? then a[x].(revokedAt := Some(now), version := 3)
                 else a[x]
  }

  /**
    * A report of an end revokes exactly its own generation, if the machine has it unrevoked. It clears the hold on that
    * generation, and a heartbeat clears any hold of a machine that is left without an unrevoked credential. If it
    * changed anything, or is a heartbeat, the machine becomes free exactly when nothing is unrevoked or held.
    */
  lemma EndIsRecorded(db: Db, mid: Id, ep: Endpoint, r: Report, now: int, id: Id)
    requires mid in db.machines && ValidReport(r, ep) && r.id == Some(id) && SaysEnded(ep, r) && AllCoupled(db.creds)
    ensures var after, m := Apply(db, mid, ep, r, now), db.machines[mid];
      var own := id in db.creds && db.creds[id].machine == mid;
      var ends := own && db.creds[id].revokedAt.None?;
      var idle := Idle(after.creds, mid);
      var settles := m.hold == Some(id) || (ep == Heartbeat && idle);
      && OnlyRow(db.creds, after.creds, id) && OnlyMachine(db.machines, after.machines, mid)
      && (id in db.creds ==>
            after.creds[id] == if ends then db.creds[id].(revokedAt := Some(now), version := 3) else db.creds[id])
      && after.machines[mid].last == Some(now)
      && after.machines[mid].hold == (if settles then None else m.hold)
      && after.machines[mid].status == (
           if !ends && m.hold != Some(id) && ep != Heartbeat then m.status
           else if !idle || (m.hold.Some? && !settles) then Occupied
           else if m.pin.None? then Offline else Available)
      && AnswerTo(db, mid, ep, r, now) == (
           if ends || settles then Closed else if own then AlreadyClosed else Unknown)
  {
    assert id in db.creds ==> Coupled(db.creds[id]);
    var after := CredsAfter(db.creds, mid, ep, r, now);
    if Owned(db.creds, mid, id) && db.creds[id].revokedAt.None? {
      assert after[id] != db.creds[id];
    }
  }

  /** An end is logged if it revokes, or is of a generation the machine never had; so is a timeout before any login. */
  lemma EndIsLogged(db: Db, mid: Id, ep: Endpoint, r: Report, now: int, id: Id)
    requires mid in db.machines && ValidReport(r, ep) && r.id == Some(id) && SaysEnded(ep, r) && AllCoupled(db.creds)
    ensures var after := Apply(db, mid, ep, r, now);
      var own := id in db.creds && db.creds[id].machine == mid;
      var ends := own && db.creds[id].revokedAt.None?;
      after.audit == db.audit
        + (if ends || !own
           then Logged(mid, if own then StudentOf(db.creds[id]) else None,
                       if ep == SessionClose then "session_close" else "force_revoke", now) else [])
        + (if ends && ep == CredentialExpired && db.creds[id].openedAt.None?
           then Logged(mid, StudentOf(db.creds[id]), "password_timeout", now) else [])
  {
    assert id in db.creds ==> Coupled(db.creds[id]);
  }

  /**
    * A heartbeat of a desktop without a generation: locked, it frees a machine without unrevoked credentials and leaves
    * the rows alone; unlocked, it ends every unrevoked credential and leaves the conflict.
    */
  lemma EmptyBeatIsRecorded(db: Db, mid: Id, r: Report, now: int)
    requires mid in db.machines && ValidReport(r, Heartbeat) && r.id.None?
    ensures var after, m := Apply(db, mid, Heartbeat, r, now), db.machines[mid];
      && OnlyMachine(db.machines, after.machines, mid) && after.machines[mid].last == Some(now)
      && (if r.locked == Some(true) then after.creds == db.creds else AllEnded(db.creds, after.creds, mid, now))
      && after.machines[mid].hold == (
           if r.locked != Some(true) then Some(CONFLICT) else if Idle(db.creds, mid) then None else m.hold)
      && after.machines[mid].status == (
           if r.locked != Some(true) || !Idle(db.creds, mid) then Occupied
           else if m.pin.None? then Offline else Available)
      && AnswerTo(db, mid, Heartbeat, r, now) == Observed && after.audit == db.audit
  {
  }

  /** Each accepted report with a generation says exactly one thing about it. */
  lemma ReportsSayOneThing(ep: Endpoint, r: Report)
    requires ValidReport(r, ep) && r.id.Some?
    ensures SaysOpen(ep, r) || SaysWaiting(ep, r) || SaysEnded(ep, r)
    ensures !(SaysOpen(ep, r) && SaysWaiting(ep, r)) && !(SaysOpen(ep, r) && SaysEnded(ep, r))
    ensures !(SaysWaiting(ep, r) && SaysEnded(ep, r))
  {
  }

  /**
    * A report with a generation is accepted exactly if its id has the right form and its version is the stage it
    * reports, 1 waiting, 2 open, 3 ended; a heartbeat also has to be active exactly when it says open and locked
    * exactly when it says ended.
    */
  lemma ReportsCarryTheirStage(ep: Endpoint, r: Report)
    requires r.id.Some?
    ensures ValidReport(r, ep) <==>
      && ValidId(r.id.value) && (SaysOpen(ep, r) || SaysWaiting(ep, r) || SaysEnded(ep, r))
      && r.version == Some(if SaysWaiting(ep, r) then 1 else if SaysOpen(ep, r) then 2 else 3)
      && (ep == Heartbeat ==> r.active == Some(SaysOpen(ep, r)) && r.locked == Some(SaysEnded(ep, r)))
  {
    if ep == Heartbeat && r.state.Some? {
      match r.state.value {
        case SaysPending =>
        case SaysActive =>
        case SaysRevoked =>
        case SaysOther =>
      }
    }
  }

  // ----- checkout -----

  /** What a confirmation asks of the tables. */
  predicate Intact(db: Db, mid: Id, target: Machine, id: Id) {
    && mid in db.machines && db.machines[mid].ip == target.ip && db.machines[mid].pin == target.pin
    && db.machines[mid].status == Occupied && db.machines[mid].hold.None?
    && Live(db.creds, id) && db.creds[id].machine == mid && db.creds[id].openedAt.None?
  }

  /**
    * A confirmation commits exactly for a credential that is unrevoked and unopened, whatever heartbeats it has seen,
    * on a machine that is occupied, without a hold and still the one that was reserved; it changes only the version.
    */
  lemma ConfirmsExactlyTheIntact(db: Db, mid: Id, target: Machine, id: Id, email: string, now: int)
    requires AllCoupled(db.creds) && target.pin.Some?
    ensures var tx := Confirm(db, mid, target, id, email, now);
      && (tx.Commit? <==>
            && mid in db.machines && db.machines[mid].ip == target.ip && db.machines[mid].pin == target.pin
            && db.machines[mid].status == Occupied && db.machines[mid].hold.None?
            && Live(db.creds, id) && db.creds[id].machine == mid && db.creds[id].openedAt.None?)
      && (tx.Commit? ==>
            && OnlyRow(db.creds, tx.db.creds, id) && tx.db.creds[id] == db.creds[id].(version := 1)
            && tx.db.machines == db.machines
            && tx.db.audit == db.audit + Logged(mid, Some(email), "provision_ok", now))
  {
    assert id in db.creds ==> Coupled(db.creds[id]);
  }

  /** What was reserved stays possible to confirm when the desktop's pending heartbeat comes first. */
  lemma HeartbeatKeepsIntact(db: Db, mid: Id, target: Machine, id: Id, token: string, r: Report, now: int)
    requires AllCoupled(db.creds) && OneOwner(db, token) && Authenticates(db, token, mid)
    requires Intact(db, mid, target, id)
    requires ValidReport(r, Heartbeat) && r.id == Some(id) && SaysWaiting(Heartbeat, r)
    ensures Intact(After(db, Deliver(db, token, Heartbeat, r, now)), mid, target, id)
  {
    DeliverIsApply(db, token, Heartbeat, r, now, mid);
    WaitingIsRecorded(db, mid, Heartbeat, r, now, id);
  }

  /** What a reservation leaves can be confirmed. */
  lemma ReservedIsIntact(db: Db, id: Id, mid: Id, student: string, now: int, expires: int)
    requires var tx := Reserve(db, id, mid, student, now, expires); tx.Commit?
    ensures var tx := Reserve(db, id, mid, student, now, expires); Intact(tx.db, mid, tx.value, id)
  {
  }

  // ----- compensation -----

  /** No other credential of the machine is unrevoked. */
  ghost predicate Alone(creds: map<Id, Credential>, mid: Id, id: Id) {
    forall x | Live(creds, x) && creds[x].machine == mid :: x == id
  }

  lemma AloneIsCurrent(creds: map<Id, Credential>, mid: Id, id: Id)
    ensures Alone(creds, mid, id) <==> Current(creds, mid) <= {id}
  {
    assert forall x | Live(creds, x) && creds[x].machine == mid :: x in Current(creds, mid);
  }

  /**
    * A preparation does nothing on a changed identity. It is refused only where making the credential unrevoked again
    * would give its student a second one.
    */
  lemma PreparesUnlessTaken(db: Db, mid: Id, target: Machine, id: Id, now: int)
    requires Inv(db) && id in db.creds && db.creds[id].machine == mid
    ensures var tx, m := Prepare(db, mid, target, id, now), db.machines[mid];
      var same := m.ip == target.ip && m.pin == target.pin;
      && (tx.Commit? <==>
            !same || !Alone(db.creds, mid, id)
            || forall x | Live(db.creds, x) && x != id :: Lower(db.creds[x].email) != Lower(db.creds[id].email))
      && (tx.Commit? ==> (tx.value <==> same) && (!same ==> tx.db == db))
  {
    AloneIsCurrent(db.creds, mid, id);
  }

  /**
    * On an unchanged identity a preparation leaves the least hold that covers the old one, the generation and whatever
    * is unrevoked on the machine, and, if nothing else is, the credential unrevoked and due from now on.
    */
  lemma PreparesExactly(db: Db, mid: Id, target: Machine, id: Id, now: int, up: Option<Id>)
    requires id in db.creds && db.creds[id].machine == mid
    requires var tx := Prepare(db, mid, target, id, now); tx.Commit? && tx.value
    ensures var after, was := Prepare(db, mid, target, id, now).db, db.machines[mid].hold;
      && OnlyMachine(db.machines, after.machines, mid) && OnlyRow(db.creds, after.creds, id)
      && after.machines[mid].status == Occupied && after.machines[mid].last == db.machines[mid].last
      && Covers(after.machines[mid].hold, was, db.creds, mid, id)
      && (Covers(up, was, db.creds, mid, id) ==> Below(after.machines[mid].hold, up))
      && after.audit == db.audit
      && after.creds[id] == if !Alone(db.creds, mid, id) then db.creds[id] else
           db.creds[id].(revokedAt := None, expires := now, version := if db.creds[id].openedAt.None? then 1 else 2)
  {
    AloneIsCurrent(db.creds, mid, id);
    var ids := Current(db.creds, mid);
    assert ids - {id} + {id} == ids + {id};
    JoinIsLeastCover(db.machines[mid].hold, db.creds, mid, id, ids + {id}, up);
  }

  /**
    * A finished compensation, on an unchanged identity and after an acknowledged revoke, revokes the credential now and
    * releases the machine exactly when it has no unrevoked credential left and is held for nothing else; in every other
    * case it changes neither rows nor machines.
    */
  lemma FinishesExactly(db: Db, mid: Id, target: Machine, id: Id, email: string, now: int, acked: bool)
    requires id in db.creds && db.creds[id].machine == mid
    ensures var tx := Finish(db, mid, target, id, email, now, acked);
      && (tx.Commit? <==> mid in db.machines)
      && (tx.Commit? ==>
            var m := db.machines[mid];
            var acts := acked && m.ip == target.ip && m.pin == target.pin;
            var frees := acts && (m.hold.None? || m.hold == Some(id)) && Alone(db.creds, mid, id);
            && (tx.value <==> frees)
            && tx.db.creds == (if acts then db.creds[id := db.creds[id].(revokedAt := Some(now), version := 3)]
                               else db.creds)
            && tx.db.audit == db.audit + (if m.ip == target.ip && m.pin == target.pin
                                          then Logged(mid, Some(email), "provision_fail", now) else [])
            && tx.db.machines == if frees then db.machines[mid := m.(status := Available, hold := None)]
                                 else db.machines)
  {
    if mid in db.machines {
      var revoked := Revoked(db.creds, id, now);
      assert Idle(revoked, mid) <==> Alone(db.creds, mid, id) by {
        assert forall x | Live(revoked, x) :: Live(db.creds, x) && x != id;
        assert forall x | Live(db.creds, x) && x != id :: Live(revoked, x) && revoked[x] == db.creds[x];
      }
    }
  }

  // ----- expiry -----

  /** A session that was reported open is never expired: from then on the answer is that it is active. */
  lemma OpenedIsNotExpired(db: Db, mid: Id, ep: Endpoint, r: Report, now: int, id: Id, target: Machine, email: string,
                           later: int)
    requires mid in db.machines && ValidReport(r, ep) && r.id == Some(id) && SaysOpen(ep, r)
    requires AllCoupled(db.creds) && Live(db.creds, id) && db.creds[id].machine == mid
    ensures var after := Apply(db, mid, ep, r, now);
      ExpireCommit(after, id, mid, target, email, later) == Commit(after, ActiveSession)
  {
    OpeningIsRecorded(db, mid, ep, r, now, id);
  }

  // ----- the registry -----

  /** The machine shares its name, its address or its pin with the identity. */
  predicate Shares(m: Machine, v: Identity) {
    m.name == v.name || m.ip == v.ip || m.pin == Some(v.pin)
  }

  /** No machine has any part of the identity. */
  predicate Foreign(machines: map<Id, Machine>, v: Identity) {
    forall k | k in machines :: !Shares(machines[k], v)
  }

  /**
    * An enrolment commits exactly if the identity is new, with a new id and token, or is that of one machine in all
    * three parts and of no other in any.
    */
  lemma EnrolsExactly(db: Db, v: Identity, id: Id, token: string)
    ensures Enroll(db, v, id, token).Commit? <==>
      if Foreign(db.machines, v)
      then id !in db.machines && forall k | k in db.machines :: db.machines[k].token != token
      else exists k :: k in db.machines && db.machines[k].name == v.name && db.machines[k].ip == v.ip
                       && db.machines[k].pin == Some(v.pin)
                       && forall j | j in db.machines && j != k :: !Shares(db.machines[j], v)
  {
    assert forall k | k in db.machines :: Matches(db.machines[k], v) <==> Shares(db.machines[k], v);
  }

  /** An enrolment of a new identity adds one machine with it, offline, unseen, visible and free. */
  lemma EnrolmentAdds(db: Db, v: Identity, id: Id, token: string)
    requires Foreign(db.machines, v) && Enroll(db, v, id, token).Commit?
    ensures var tx := Enroll(db, v, id, token);
      && tx.value == token && tx.db == db.(machines := tx.db.machines)
      && tx.db.machines.Keys == db.machines.Keys + {id} && id !in db.machines
      && (forall k | k in db.machines :: tx.db.machines[k] == db.machines[k])
      && var m := tx.db.machines[id];
         && m.name == v.name && m.ip == v.ip && m.pin == Some(v.pin) && m.token == token
         && m.status == Offline && m.last.None? && m.hold.None? && !m.hidden
  {
    assert forall k | k in db.machines :: Matches(db.machines[k], v) <==> Shares(db.machines[k], v);
  }

  /** An enrolment of a known identity changes nothing and answers with that machine's token. */
  lemma EnrolmentRepeats(db: Db, v: Identity, id: Id, token: string, k: Id)
    requires k in db.machines && Shares(db.machines[k], v) && Enroll(db, v, id, token).Commit?
    ensures Enroll(db, v, id, token) == Commit(db, db.machines[k].token)
    ensures db.machines[k].name == v.name && db.machines[k].ip == v.ip && db.machines[k].pin == Some(v.pin)
  {
    assert Matches(db.machines[k], v);
  }

  /**
    * A rekey commits exactly for an available machine without a hold or an unrevoked credential whose present identity
    * the caller names, and an identity and token no other machine has. The machine then has that identity, is offline
    * and unseen, and everything else is as it was.
    */
  lemma RekeysExactly(db: Db, mid: Id, expected: Machine, v: Identity, token: string, admin: string, now: int)
    ensures var tx := Rekey(db, mid, expected, v, token, admin, now);
      && (tx.Commit? <==>
            && mid in db.machines
            && db.machines[mid].name == expected.name && db.machines[mid].ip == expected.ip
            && db.machines[mid].pin == expected.pin
            && db.machines[mid].status == Available && db.machines[mid].hold.None?
            && (forall x | Live(db.creds, x) :: db.creds[x].machine != mid)
            && (forall k | k in db.machines && k != mid ::
                  !Shares(db.machines[k], v) && db.machines[k].token != token))
      && (tx.Commit? ==>
            && tx.value == token && tx.db.creds == db.creds && tx.db.machines.Keys == db.machines.Keys
            && tx.db.audit == db.audit + Logged(mid, Some(admin), "machine_rekey", now)
            && (forall k | k in db.machines && k != mid :: tx.db.machines[k] == db.machines[k])
            && var m := tx.db.machines[mid];
               && m.name == v.name && m.ip == v.ip && m.pin == Some(v.pin) && m.token == token
               && m.status == Offline && m.last.None? && m.hold.None? && m.hidden == db.machines[mid].hidden)
    ensures var tx := Rekey(db, mid, expected, v, token, admin, now);
      (tx.Abort? ==>
         tx.error == (
           if mid !in db.machines then NotFound
           else if (db.machines[mid].name, db.machines[mid].ip, db.machines[mid].pin)
                   != (expected.name, expected.ip, expected.pin) then IdentityChanged
           else if db.machines[mid].status == Available && db.machines[mid].hold.None?
                   && forall x | Live(db.creds, x) :: db.creds[x].machine != mid then IdentityConflict
           else NotDrained))
  {
    assert forall k | k in db.machines :: Matches(db.machines[k], v) <==> Shares(db.machines[k], v);
  }

  /** After a rekey the new token speaks for this machine alone, and a different old one for nobody. */
  lemma RekeyReplacesTheToken(db: Db, mid: Id, expected: Machine, v: Identity, token: string, admin: string, now: int,
                              k: Id)
    requires Inv(db)
    requires Rekey(db, mid, expected, v, token, admin, now).Commit?
    ensures var tx := Rekey(db, mid, expected, v, token, admin, now);
      && (Authenticates(tx.db, tx.value, k) <==> k == mid)
      && (db.machines[mid].token != tx.value ==> !Authenticates(tx.db, db.machines[mid].token, k))
  {
    RekeysExactly(db, mid, expected, v, token, admin, now);
  }

  /** Hiding a machine changes only that, and keeps it from being reserved until it is shown again. */
  lemma HidesExactly(db: Db, mid: Id, hidden: bool, admin: string, now: int, at: int)
    ensures var tx := SetHidden(db, mid, hidden, admin, now);
      && (tx.Commit? <==> mid in db.machines)
      && (tx.Commit? ==>
            && (tx.value <==> db.machines[mid].hidden != hidden)
            && tx.db.audit == db.audit + (if !tx.value then [] else
                 Logged(mid, Some(admin), if hidden then "machine_hide" else "machine_restore", now))
            && tx.db.creds == db.creds && tx.db.machines == db.machines[mid := db.machines[mid].(hidden := hidden)]
            && (hidden ==> !Reservable(tx.db.machines[mid], at)))
  {
  }
}

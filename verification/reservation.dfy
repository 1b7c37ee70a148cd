/** The transactions of Checkout, its compensation and Expire, each as one function of the tables. */
module Reservation {
  import opened Base
  import opened Holds
  import opened Tables

  const FRESH_PAST := 120000
  const FRESH_AHEAD := 30000

  predicate SameIdentity(m: Machine, target: Machine) {
    m.ip == target.ip && m.pin == target.pin
  }

  /** The guard of the reserving UPDATE. */
  predicate Reservable(m: Machine, now: int) {
    && m.status == Available && !m.hidden && m.pin.Some? && m.hold.None?
    && m.last.Some? && now - FRESH_PAST <= m.last.value <= now + FRESH_AHEAD
  }

  /** Some unrevoked row belongs to the student with this lower-cased address. */
  ghost predicate EmailTaken(creds: map<Id, Credential>, email: string) {
    exists id :: Live(creds, id) && Lower(creds[id].email) == email
  }

  function Audited(db: Db, mid: Id, email: string, event: string, now: int): Db {
    db.(audit := db.audit + [AuditRow(Some(mid), Some(email), event, now)])
  }

  /** Reserve for the student's lower-cased address; the value is the machine as read back. */
  ghost function Reserve(db: Db, id: Id, mid: Id, student: string, now: int, expires: int): Tx<Machine> {
    var email := Lower(student);
    if EmailTaken(db.creds, email) then Abort(AlreadyReserved)
    else if mid !in db.machines || !Reservable(db.machines[mid], now) then Abort(NotAvailable)
    else
      var m := db.machines[mid].(status := Occupied);
      if id in db.creds || !Idle(db.creds, mid) || EmailTaken(db.creds, Lower(email)) then
        Abort(ReservationConflict)
      else
        Commit(Audited(
          db.(machines := db.machines[mid := m],
              creds := db.creds[id := Credential(mid, email, now, expires, None, None, 0)]),
          mid, email, "checkout", now), m)
  }

  predicate Confirmable(db: Db, mid: Id, target: Machine, id: Id) {
    && mid in db.machines && target.pin.Some?
    && SameIdentity(db.machines[mid], target)
    && db.machines[mid].status == Occupied && db.machines[mid].hold.None?
    && id in db.creds && db.creds[id].machine == mid
    && db.creds[id].revokedAt.None? && db.creds[id].openedAt.None? && db.creds[id].version <= 1
  }

  function Confirm(db: Db, mid: Id, target: Machine, id: Id, email: string, now: int): Tx<()> {
    if !Confirmable(db, mid, target, id) then
      Abort(if mid in db.machines && SameIdentity(db.machines[mid], target)
               && db.machines[mid].status == Occupied && db.machines[mid].hold.None?
            then GenerationLost else ReservationLost)
    else
      Commit(Audited(db.(creds := db.creds[id := db.creds[id].(version := 1)]), mid, email, "provision_ok", now), ())
  }

  function Reopened(c: Credential, now: int): Credential {
    c.(revokedAt := None, expires := now, version := if c.openedAt.None? then 1 else 2)
  }

  /** Compensation before the remote revoke; the value says whether the identity still matched. */
  ghost function Prepare(db: Db, mid: Id, target: Machine, id: Id, now: int): Tx<bool> {
    if mid !in db.machines then Abort(NotFound)
    else if !SameIdentity(db.machines[mid], target) then Commit(db, false)
    else
      var ids := Current(db.creds, mid);
      var held := db.machines[mid].(status := Occupied, hold := JoinAll(db.machines[mid].hold, ids - {id} + {id}));
      if ids <= {id} then
        if id !in db.creds then Commit(db.(machines := db.machines[mid := held]), true)
        else if !IndexesAllow(db.creds, id) then Abort(Database)
        else Commit(db.(machines := db.machines[mid := held],
                        creds := db.creds[id := Reopened(db.creds[id], now)]), true)
      else Commit(db.(machines := db.machines[mid := held]), true)
  }

  function Revoked(creds: map<Id, Credential>, id: Id, now: int): map<Id, Credential> {
    if id in creds then creds[id := creds[id].(revokedAt := Some(now), version := 3)] else creds
  }

  /** A machine is released once nothing is current and no other generation is held. */
  function Released(m: Machine): Machine {
    m.(status := Available, hold := None)
  }

  ghost predicate Releasable(db: Db, mid: Id, id: Id) {
    && mid in db.machines
    && Idle(db.creds, mid)
    && (db.machines[mid].hold.None? || db.machines[mid].hold == Some(id))
  }

  ghost function ReleaseIf(db: Db, mid: Id, id: Id): Db {
    if Releasable(db, mid, id) then db.(machines := db.machines[mid := Released(db.machines[mid])]) else db
  }

  /** Compensation after the remote revoke; the value says whether the machine was released. */
  ghost function Finish(db: Db, mid: Id, target: Machine, id: Id, email: string, now: int, acked: bool): Tx<bool> {
    if mid !in db.machines then Abort(NotFound)
    else if !SameIdentity(db.machines[mid], target) then Commit(db, false)
    else if !acked then Commit(Audited(db, mid, email, "provision_fail", now), false)
    else
      var revoked := db.(creds := Revoked(db.creds, id, now));
      Commit(Audited(ReleaseIf(revoked, mid, id), mid, email, "provision_fail", now), Releasable(revoked, mid, id))
  }

  datatype Verdict = AlreadyReleased | ActiveSession | Retry | Held | Freed

  /** Expire's commit, after an acknowledged revoke of `id` on `target`. */
  ghost function ExpireCommit(db: Db, id: Id, mid: Id, target: Machine, email: string, now: int): Tx<Verdict> {
    if id !in db.creds then Abort(Database)
    else
      var c := db.creds[id];
      if c.openedAt.Some? && c.revokedAt.None? then Commit(db, ActiveSession)
      else if c.revokedAt.Some? || c.expires > now then Commit(db, AlreadyReleased)
      else if mid !in db.machines then Abort(Database)
      else if !SameIdentity(db.machines[mid], target) then Commit(db, Retry)
      else
        var revoked := db.(creds := Revoked(db.creds, id, now));
        var done := ReleaseIf(revoked, mid, id);
        Commit(Audited(Audited(done, mid, email, "force_revoke", now), mid, email, "password_timeout", now),
               if Releasable(revoked, mid, id) then Freed else Held)
  }

  // ----- every commit keeps the invariant -----

  lemma ReserveKeeps(db: Db, id: Id, mid: Id, student: string, now: int, expires: int)
    requires Inv(db)
    ensures var tx := Reserve(db, id, mid, student, now, expires);
      tx.Commit? ==> Inv(tx.db) && RowsKept(db, tx.db)
  {
    var tx := Reserve(db, id, mid, student, now, expires);
    if tx.Commit? {
      var spent := db.(creds := db.creds[id := Credential(mid, Lower(student), now, expires, Some(now), None, 3)]);
      SpentRowKeeps(db, spent, id);
      ReserveLocal(db, spent, tx.db, id, mid);
      LocalKeepsInv(spent, tx.db, mid);
    }
  }

  lemma SpentRowKeeps(db: Db, spent: Db, id: Id)
    requires Inv(db) && id !in db.creds
    requires id in spent.creds && spent.creds[id].machine in db.machines
    requires spent.creds[id].revokedAt.Some? && Coupled(spent.creds[id])
    requires spent == db.(creds := db.creds[id := spent.creds[id]])
    ensures Inv(spent) && RowsKept(db, spent)
  {
    assert forall x | Live(spent.creds, x) :: Live(db.creds, x) && spent.creds[x] == db.creds[x];
    forall k | k in db.machines && db.machines[k].status != Occupied ensures Idle(spent.creds, k) {
      assert Idle(db.creds, k);
    }
  }

  lemma ReserveLocal(db: Db, spent: Db, after: Db, id: Id, mid: Id)
    requires mid in db.machines && Idle(db.creds, mid) && AllCoupled(db.creds) && id !in db.creds
    requires id in after.creds && after.creds[id].machine == mid
    requires Live(after.creds, id) && Coupled(after.creds[id]) && !EmailTaken(db.creds, Lower(after.creds[id].email))
    requires after.creds == db.creds[id := after.creds[id]]
    requires after.machines == db.machines[mid := db.machines[mid].(status := Occupied)]
    requires id in spent.creds && spent == db.(creds := spent.creds) && spent.creds == db.creds[id := spent.creds[id]]
    requires spent.creds[id] == after.creds[id].(revokedAt := Some(after.creds[id].created), version := 3)
    ensures LocalTo(spent, after, mid)
  {
    assert IndexesAllow(after.creds, id) by {
      assert forall other | Live(after.creds, other) && other != id :: Live(db.creds, other);
    }
  }

  lemma ConfirmKeeps(db: Db, mid: Id, target: Machine, id: Id, email: string, now: int)
    requires Inv(db)
    ensures var tx := Confirm(db, mid, target, id, email, now);
      tx.Commit? ==> Inv(tx.db) && RowsKept(db, tx.db)
  {
    var tx := Confirm(db, mid, target, id, email, now);
    if tx.Commit? {
      LocalKeepsInv(db, tx.db, mid);
    }
  }

  lemma PrepareLocal(db: Db, mid: Id, target: Machine, id: Id, now: int)
    requires AllCoupled(db.creds)
    requires id in db.creds && db.creds[id].machine == mid
    requires var tx := Prepare(db, mid, target, id, now); tx.Commit? && tx.value
    ensures LocalTo(db, Prepare(db, mid, target, id, now).db, mid)
  {
    var after := Prepare(db, mid, target, id, now).db;
    assert IndexesAllow(after.creds, id) || after.creds == db.creds by {
      assert forall other | Live(after.creds, other) && other != id :: Live(db.creds, other);
    }
  }

  lemma PrepareKeeps(db: Db, mid: Id, target: Machine, id: Id, now: int)
    requires Inv(db)
    requires id in db.creds && db.creds[id].machine == mid
    ensures var tx := Prepare(db, mid, target, id, now);
      tx.Commit? ==> Inv(tx.db) && RowsKept(db, tx.db)
  {
    var tx := Prepare(db, mid, target, id, now);
    if tx.Commit? && tx.value {
      PrepareLocal(db, mid, target, id, now);
      LocalKeepsInv(db, tx.db, mid);
    }
  }

  lemma RevokeAndReleaseLocal(db: Db, mid: Id, id: Id, now: int)
    requires AllCoupled(db.creds) && DrainedUnlessOccupied(db.machines, db.creds) && mid in db.machines
    ensures LocalTo(db, ReleaseIf(db.(creds := Revoked(db.creds, id, now)), mid, id), mid)
  {
    var done := ReleaseIf(db.(creds := Revoked(db.creds, id, now)), mid, id);
    assert forall x | Live(done.creds, x) :: Live(db.creds, x);
  }

  lemma RevokeAndReleaseKeeps(db: Db, mid: Id, id: Id, now: int)
    requires Inv(db) && mid in db.machines
    ensures var done := ReleaseIf(db.(creds := Revoked(db.creds, id, now)), mid, id);
      Inv(done) && RowsKept(db, done)
  {
    RevokeAndReleaseLocal(db, mid, id, now);
    LocalKeepsInv(db, ReleaseIf(db.(creds := Revoked(db.creds, id, now)), mid, id), mid);
  }

  lemma FinishKeeps(db: Db, mid: Id, target: Machine, id: Id, email: string, now: int, acked: bool)
    requires Inv(db)
    ensures var tx := Finish(db, mid, target, id, email, now, acked);
      tx.Commit? ==> Inv(tx.db) && RowsKept(db, tx.db)
  {
    if mid in db.machines && SameIdentity(db.machines[mid], target) && acked {
      RevokeAndReleaseKeeps(db, mid, id, now);
    }
  }

  lemma ExpireCommitKeeps(db: Db, id: Id, mid: Id, target: Machine, email: string, now: int)
    requires Inv(db)
    ensures var tx := ExpireCommit(db, id, mid, target, email, now);
      tx.Commit? ==> Inv(tx.db) && RowsKept(db, tx.db)
  {
    var tx := ExpireCommit(db, id, mid, target, email, now);
    if tx.Commit? && tx.value in {Held, Freed} {
      RevokeAndReleaseKeeps(db, mid, id, now);
    }
  }

  // ----- what reservation, compensation and expiry promise -----

  /**
    * A reservation goes through exactly for a free, visible, recently seen machine and a student without another
    * unrevoked credential: on such a machine the indexes cannot object to a new id. It makes that id the only
    * unrevoked credential of the machine, with this expiry, touches nothing else, and can be confirmed at once. A
    * refusal says whether it is for the student or for the machine.
    */
  lemma ReservesExactlyFreeMachines(db: Db, id: Id, mid: Id, student: string, now: int, expires: int, at: int)
    requires Inv(db)
    ensures var tx := Reserve(db, id, mid, student, now, expires);
      var has := exists x :: Live(db.creds, x) && Lower(db.creds[x].email) == Lower(student);
      var free := mid in db.machines && (var m := db.machines[mid];
        && m.status == Available && !m.hidden && m.pin.Some? && m.hold.None?
        && m.last.Some? && now - 120_000 <= m.last.value <= now + 30_000);
      && (tx.Commit? <==> id !in db.creds && !has && free)
      && (tx.Abort? ==>
            tx.error == if has then AlreadyReserved else if !free then NotAvailable else ReservationConflict)
      && (tx.Commit? ==>
            && tx.value == tx.db.machines[mid]
            && tx.db.machines == db.machines[mid := db.machines[mid].(status := Occupied)]
            && tx.db.creds == db.creds[id := Credential(mid, Lower(student), now, expires, None, None, 0)]
            && Current(tx.db.creds, mid) == {id}
            && tx.db.audit == db.audit + [AuditRow(Some(mid), Some(Lower(student)), "checkout", now)]
            && Confirm(tx.db, mid, tx.value, id, student, at).Commit?)
  {
    LowerTwice(student);
    if mid in db.machines && Reservable(db.machines[mid], now) {
      assert Idle(db.creds, mid);
    }
  }

  /** Preparation never loses the generation: it holds it, or exposes the conflict. */
  lemma PrepareHoldsTheGeneration(db: Db, mid: Id, target: Machine, id: Id, now: int)
    requires Inv(db) && id in db.creds && db.creds[id].machine == mid
    requires var tx := Prepare(db, mid, target, id, now); tx.Commit? && tx.value
    ensures var after := Prepare(db, mid, target, id, now).db;
      && after.machines[mid].status == Occupied
      && Below(Some(id), after.machines[mid].hold)
      && Below(db.machines[mid].hold, after.machines[mid].hold)
      && (if Current(db.creds, mid) <= {id}
          then after.creds[id].revokedAt.None? && after.creds[id].expires <= now
               && after.creds[id].openedAt == db.creds[id].openedAt && Current(after.creds, mid) == {id}
          else after.creds == db.creds && id !in Current(db.creds, mid)
               && after.machines[mid].hold == Some(CONFLICT))
      && (forall other | other in db.creds && other != id :: after.creds[other] == db.creds[other])
      && (forall k | k in db.machines && k != mid :: after.machines[k] == db.machines[k])
  {
    var after := Prepare(db, mid, target, id, now).db;
    var ids := Current(db.creds, mid);
    JoinIsLeastUpperBound(db.machines[mid].hold, ids - {id} + {id}, None);
    if ids <= {id} {
      assert id in Current(after.creds, mid);
      forall other | other in Current(after.creds, mid) ensures other == id {
        assert other == id || other in ids;
      }
    } else {
      var v :| v in ids && v != id;
      CurrentAtMostOne(db, mid, v);
      assert id !in ids;
      assert Below(Some(v), after.machines[mid].hold);
    }
  }

  /** A finished compensation frees only its own generation, and only after an acknowledged revoke. */
  lemma FinishFreesOnlyItsOwn(db: Db, mid: Id, target: Machine, id: Id, email: string, now: int, acked: bool)
    requires var tx := Finish(db, mid, target, id, email, now, acked); tx.Commit?
    ensures var tx := Finish(db, mid, target, id, email, now, acked);
      && (tx.value ==> acked && SameIdentity(db.machines[mid], target) && Idle(tx.db.creds, mid))
      && (forall other | other in db.creds && other != id :: tx.db.creds[other] == db.creds[other])
      && (forall k | k in db.machines && (k != mid || (db.machines[k].hold.Some? && db.machines[k].hold != Some(id))) ::
            tx.db.machines[k] == db.machines[k])
      && (tx.db.machines != db.machines ==> tx.value)
      && (id in db.creds && tx.db.creds != db.creds ==> acked && tx.db.creds[id].revokedAt == Some(now))
  {
  }

  /**
    * Expire revokes exactly an unopened, unrevoked, due credential on an unchanged identity, touches no other
    * row and no hold of another generation, and reports a release exactly when it made one. The answer is to retry
    * exactly if such a credential is on a machine whose address or pin has changed.
    */
  lemma ExpireTouchesOnlyItsOwn(db: Db, id: Id, mid: Id, target: Machine, email: string, now: int)
    requires IndexesHold(db.creds) && mid in db.machines && id in db.creds && db.creds[id].machine == mid
    ensures var c := db.creds[id];
      var tx := ExpireCommit(db, id, mid, target, email, now);
      var due := c.revokedAt.None? && c.openedAt.None? && c.expires <= now && SameIdentity(db.machines[mid], target);
      && tx.Commit?
      && (due <==> tx.value in {Held, Freed})
      && (tx.db.creds == if due then db.creds[id := c.(revokedAt := Some(now), version := 3)] else db.creds)
      && (tx.value == Freed <==> due && (db.machines[mid].hold.None? || db.machines[mid].hold == Some(id)))
      && (tx.db.machines == if tx.value == Freed
          then db.machines[mid := db.machines[mid].(status := Available, hold := None)] else db.machines)
      && (tx.value == ActiveSession <==> c.openedAt.Some? && c.revokedAt.None?)
      && (tx.db.audit == db.audit + if due then [AuditRow(Some(mid), Some(email), "force_revoke", now),
                                                 AuditRow(Some(mid), Some(email), "password_timeout", now)] else [])
      && (tx.value == AlreadyReleased <==> c.revokedAt.Some? || (c.openedAt.None? && c.expires > now))
      && (tx.value == Retry <==>
            && c.revokedAt.None? && c.openedAt.None? && c.expires <= now
            && (db.machines[mid].ip != target.ip || db.machines[mid].pin != target.pin))
  {
    var tx := ExpireCommit(db, id, mid, target, email, now);
    if Live(db.creds, id) {
      assert Idle(Revoked(db.creds, id, now), mid) by {
        assert forall x | Live(Revoked(db.creds, id, now), x) :: Live(db.creds, x) && x != id;
      }
    }
  }
}

/**
  * What a student's history shows of the server's work: each transaction writes audit rows, and the activity log shows
  * those with a student and a listed event.
  */
module AuditTrail {
  import opened Base
  import opened Tables
  import opened Reservation
  import opened Webhook
  import opened Registry
  import opened Outcomes
  import A = ActivityLog

  /** A line of the history: what is shown, of whom, where and when. */
  datatype Line = Line(shown: A.Shown, email: string, machine: Option<Id>, at: int)

  function LineOf(row: AuditRow): Option<Line> {
    match A.Mapping(A.EventNamed(row.event))
    case Some(shown) => if row.email.Some? then Some(Line(shown, row.email.value, row.machine, row.at)) else None
    case None => None
  }

  /** The lines these audit rows add to the history. */
  function Lines(rows: seq<AuditRow>): seq<Line> {
    if rows == [] then []
    else
      var before, last := Lines(rows[..|rows| - 1]), LineOf(rows[|rows| - 1]);
      if last.Some? then before + [last.value] else before
  }

  /** What a transaction adds to the history. */
  predicate Adds(a: Db, b: Db, lines: seq<Line>) {
    |a.audit| <= |b.audit| && b.audit[..|a.audit|] == a.audit && Lines(b.audit[|a.audit|..]) == lines
  }

  function AtMostOne(line: Option<Line>): seq<Line> {
    if line.Some? then [line.value] else []
  }

  lemma NoRow(a: Db, b: Db)
    requires b.audit == a.audit
    ensures Adds(a, b, [])
  {
  }

  lemma OneRow(a: Db, b: Db, row: AuditRow)
    requires b.audit == a.audit + [row]
    ensures Adds(a, b, AtMostOne(LineOf(row)))
  {
    OneLine(row);
    assert b.audit[|a.audit|..] == [row];
  }

  lemma OneLine(row: AuditRow)
    ensures Lines([row]) == AtMostOne(LineOf(row))
  {
    assert [row][..0] == [];
  }

  lemma TwoRows(a: Db, b: Db, row: AuditRow, next: AuditRow)
    requires b.audit == a.audit + [row, next]
    ensures Adds(a, b, AtMostOne(LineOf(row)) + AtMostOne(LineOf(next)))
  {
    OneLine(row);
    assert [row, next][..1] == [row];
    assert b.audit[|a.audit|..] == [row, next];
  }

  /** The events that never appear in a history. */
  predicate Internal(event: string) {
    event in ["provision_ok", "provision_fail", "force_revoke", "machine_rekey", "machine_hide", "machine_restore"]
  }

  lemma InternalIsNotShown(row: AuditRow)
    requires Internal(row.event)
    ensures LineOf(row) == None
  {
  }

  lemma NobodysIsNotShown(row: AuditRow)
    requires row.email.None?
    ensures LineOf(row) == None
  {
  }

  lemma ShownLines(machine: Option<Id>, email: string, at: int)
    ensures LineOf(AuditRow(machine, Some(email), "checkout", at))
            == Some(Line(A.Shown(A.Web, A.Checkout, A.Reserved), email, machine, at))
    ensures LineOf(AuditRow(machine, Some(email), "session_open", at))
            == Some(Line(A.Shown(A.Physical, A.Login, A.LoggedIn), email, machine, at))
    ensures LineOf(AuditRow(machine, Some(email), "session_close", at))
            == Some(Line(A.Shown(A.Physical, A.Logout, A.LoggedOut), email, machine, at))
    ensures LineOf(AuditRow(machine, Some(email), "password_timeout", at))
            == Some(Line(A.Shown(A.Physical, A.Timeout, A.TimedOut), email, machine, at))
  {
  }

  /** A reservation is shown as a checkout of the student, made when it was asked for. */
  lemma ReservationIsShown(db: Db, id: Id, mid: Id, student: string, now: int, expires: int)
    requires Reserve(db, id, mid, student, now, expires).Commit?
    ensures var after := Reserve(db, id, mid, student, now, expires).db;
      Adds(db, after, [Line(A.Shown(A.Web, A.Checkout, A.Reserved), Lower(student), Some(mid), now)])
  {
    var after := Reserve(db, id, mid, student, now, expires).db;
    OneRow(db, after, after.audit[|db.audit|]);
  }

  lemma InternalRow(a: Db, b: Db, row: AuditRow)
    requires b.audit == a.audit + [row] && Internal(row.event)
    ensures Adds(a, b, [])
  {
    OneRow(a, b, row);
    InternalIsNotShown(row);
  }

  /** A confirmation is not shown. */
  lemma ConfirmationIsNotShown(db: Db, mid: Id, target: Machine, id: Id, email: string, now: int)
    requires Confirm(db, mid, target, id, email, now).Commit?
    ensures Adds(db, Confirm(db, mid, target, id, email, now).db, [])
  {
    InternalRow(db, Confirm(db, mid, target, id, email, now).db, AuditRow(Some(mid), Some(email), "provision_ok", now));
  }

  /** A compensation is not shown. */
  lemma CompensationIsNotShown(db: Db, mid: Id, target: Machine, id: Id, email: string, now: int, acked: bool)
    ensures var tx := Prepare(db, mid, target, id, now); tx.Commit? ==> Adds(db, tx.db, [])
    ensures var tx := Finish(db, mid, target, id, email, now, acked); tx.Commit? ==> Adds(db, tx.db, [])
  {
    var tx := Finish(db, mid, target, id, email, now, acked);
    if tx.Commit? && tx.db.audit != db.audit {
      InternalRow(db, tx.db, AuditRow(Some(mid), Some(email), "provision_fail", now));
    }
  }

  /** An expiry is shown as a timeout of the student exactly if it revoked the credential. */
  lemma ExpiryIsShown(db: Db, id: Id, mid: Id, target: Machine, email: string, now: int)
    requires ExpireCommit(db, id, mid, target, email, now).Commit?
    ensures var tx := ExpireCommit(db, id, mid, target, email, now);
      Adds(db, tx.db, if tx.value in {Held, Freed}
                      then [Line(A.Shown(A.Physical, A.Timeout, A.TimedOut), email, Some(mid), now)] else [])
  {
    var tx := ExpireCommit(db, id, mid, target, email, now);
    if tx.value in {Held, Freed} {
      var n := |db.audit|;
      assert tx.db.audit == db.audit + [tx.db.audit[n], tx.db.audit[n + 1]];
      TwoRows(db, tx.db, tx.db.audit[n], tx.db.audit[n + 1]);
    } else {
      NoRow(db, tx.db);
    }
  }

  /** The credential is unrevoked on the machine and belongs to a student. */
  predicate Students(db: Db, mid: Id, r: Report) {
    && r.id.Some? && Live(db.creds, r.id.value) && db.creds[r.id.value].machine == mid
    && db.creds[r.id.value].email != ""
  }

  /** Of the reports of an open session, the first is shown as a login of the credential's student. */
  lemma OpeningIsShown(db: Db, mid: Id, ep: Endpoint, r: Report, now: int)
    requires mid in db.machines && ValidReport(r, ep) && AllCoupled(db.creds) && r.id.Some? && SaysOpen(ep, r)
    ensures Adds(db, Apply(db, mid, ep, r, now),
                 if Students(db, mid, r) && db.creds[r.id.value].openedAt.None?
                 then [Line(A.Shown(A.Physical, A.Login, A.LoggedIn), db.creds[r.id.value].email, Some(mid), now)]
                 else [])
  {
    var after := Apply(db, mid, ep, r, now);
    assert r.id.value in db.creds ==> Coupled(db.creds[r.id.value]);
    if KindOf(db.creds, mid, ep, r) == Alive && db.creds[r.id.value].version < 2 {
      var row := AuditRow(Some(mid), Named(db.creds[r.id.value].email), "session_open", now);
      OneRow(db, after, row);
      ShownLines(Some(mid), db.creds[r.id.value].email, now);
      NobodysIsNotShown(row.(email := None));
    } else if KindOf(db.creds, mid, ep, r) == Stray {
      OneRow(db, after, AuditRow(Some(mid), None, "session_open", now));
      NobodysIsNotShown(AuditRow(Some(mid), None, "session_open", now));
    } else {
      NoRow(db, after);
    }
  }

  /** A report of a generation that waits, or of none, is not shown. */
  lemma WaitingIsNotShown(db: Db, mid: Id, ep: Endpoint, r: Report, now: int)
    requires mid in db.machines && ValidReport(r, ep) && (r.id.None? || SaysWaiting(ep, r))
    ensures Adds(db, Apply(db, mid, ep, r, now), [])
  {
    var after := Apply(db, mid, ep, r, now);
    if KindOf(db.creds, mid, ep, r) == Stray {
      OneRow(db, after, AuditRow(Some(mid), None, "session_open", now));
      NobodysIsNotShown(AuditRow(Some(mid), None, "session_open", now));
    } else {
      NoRow(db, after);
    }
  }

  /** The line an end is shown as: a close as a logout, an expiry of an unopened credential as a timeout. */
  function EndLine(c: Credential, mid: Id, ep: Endpoint, now: int): seq<Line> {
    if ep == SessionClose then [Line(A.Shown(A.Physical, A.Logout, A.LoggedOut), c.email, Some(mid), now)]
    else if ep == CredentialExpired && c.openedAt.None?
    then [Line(A.Shown(A.Physical, A.Timeout, A.TimedOut), c.email, Some(mid), now)]
    else []
  }

  lemma EndedRows(db: Db, after: Db, c: Credential, mid: Id, ep: Endpoint, now: int)
    requires ep != SessionOpen
    requires var event := if ep == CredentialExpired || ep == Heartbeat then "force_revoke" else "session_close";
      after.audit == db.audit + [AuditRow(Some(mid), Named(c.email), event, now)]
        + if ep == CredentialExpired && c.openedAt.None?
          then [AuditRow(Some(mid), Named(c.email), "password_timeout", now)] else []
    ensures Adds(db, after, if c.email != "" then EndLine(c, mid, ep, now) else [])
  {
    var email := Named(c.email);
    ShownLines(Some(mid), c.email, now);
    if ep == SessionClose {
      OneRow(db, after, AuditRow(Some(mid), email, "session_close", now));
      NobodysIsNotShown(AuditRow(Some(mid), None, "session_close", now));
    } else {
      var forced := AuditRow(Some(mid), email, "force_revoke", now);
      var timeout := AuditRow(Some(mid), email, "password_timeout", now);
      InternalIsNotShown(forced);
      NobodysIsNotShown(timeout.(email := None));
      if ep == CredentialExpired && c.openedAt.None? {
        TwoRows(db, after, forced, timeout);
      } else {
        OneRow(db, after, forced);
      }
    }
  }

  /**
    * A report of an end that revokes a student's credential is shown as a logout if it closes the session, as a timeout
    * if it expires the credential unopened, and not at all otherwise.
    */
  lemma EndIsShown(db: Db, mid: Id, ep: Endpoint, r: Report, now: int)
    requires mid in db.machines && ValidReport(r, ep) && AllCoupled(db.creds) && r.id.Some? && SaysEnded(ep, r)
    ensures Adds(db, Apply(db, mid, ep, r, now),
                 if Students(db, mid, r) then EndLine(db.creds[r.id.value], mid, ep, now) else [])
  {
    var after := Apply(db, mid, ep, r, now);
    assert r.id.value in db.creds ==> Coupled(db.creds[r.id.value]);
    if !Owned(db.creds, mid, r.id.value) {
      var event := if ep == CredentialExpired || ep == Heartbeat then "force_revoke" else "session_close";
      OneRow(db, after, AuditRow(Some(mid), None, event, now));
      NobodysIsNotShown(AuditRow(Some(mid), None, event, now));
    } else if db.creds[r.id.value].version >= 3 {
      NoRow(db, after);
    } else {
      EndedRows(db, after, db.creds[r.id.value], mid, ep, now);
    }
  }

  /** The administration of machines is not part of anyone's history. */
  lemma AdministrationIsNotShown(db: Db, mid: Id, expected: Machine, v: Identity, token: string, hidden: bool,
                                 admin: string, now: int)
    ensures var tx := Enroll(db, v, mid, token); tx.Commit? ==> Adds(db, tx.db, [])
    ensures var tx := Rekey(db, mid, expected, v, token, admin, now); tx.Commit? ==> Adds(db, tx.db, [])
    ensures var tx := SetHidden(db, mid, hidden, admin, now); tx.Commit? ==> Adds(db, tx.db, [])
  {
    EnrolmentIsNotShown(db, v, mid, token);
    RekeyIsNotShown(db, mid, expected, v, token, admin, now);
    VisibilityIsNotShown(db, mid, hidden, admin, now);
  }

  lemma EnrolmentIsNotShown(db: Db, v: Identity, id: Id, token: string)
    ensures var tx := Enroll(db, v, id, token); tx.Commit? ==> Adds(db, tx.db, [])
  {
  }

  lemma RekeyIsNotShown(db: Db, mid: Id, expected: Machine, v: Identity, token: string, admin: string, now: int)
    ensures var tx := Rekey(db, mid, expected, v, token, admin, now); tx.Commit? ==> Adds(db, tx.db, [])
  {
    var tx := Rekey(db, mid, expected, v, token, admin, now);
    if tx.Commit? {
      InternalRow(db, tx.db, AuditRow(Some(mid), Some(admin), "machine_rekey", now));
    }
  }

  lemma VisibilityIsNotShown(db: Db, mid: Id, hidden: bool, admin: string, now: int)
    ensures var tx := SetHidden(db, mid, hidden, admin, now); tx.Commit? ==> Adds(db, tx.db, [])
  {
    var tx := SetHidden(db, mid, hidden, admin, now);
    if tx.Commit? && tx.value {
      InternalRow(db, tx.db,
                  AuditRow(Some(mid), Some(admin), if hidden then "machine_hide" else "machine_restore", now));
    }
  }
}

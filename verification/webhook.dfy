/** The server's reaction to machine reports: heartbeats, session opens and terminal events. */
module Webhook {
  import opened Base
  import opened Holds
  import opened Tables

  datatype Endpoint = Heartbeat | SessionOpen | SessionClose | CredentialExpired

  datatype ReportedState = SaysPending | SaysActive | SaysRevoked | SaysOther

  datatype Report = Report(
    id: Option<Id>, version: Option<int>, locked: Option<bool>, active: Option<bool>, state: Option<ReportedState>)

  /** The shapes of report that are accepted at all. */
  predicate ValidReport(r: Report, ep: Endpoint) {
    && (r.id.Some? ==> ValidId(r.id.value))
    && if ep != Heartbeat then r.id.Some? && r.version == Some(if ep == SessionOpen then 2 else 3)
       else
         && r.locked.Some? && r.active.Some?
         && if r.id.None? then r.state.None? && r.version.None? && !r.active.value
            else match r.state
                 case Some(SaysPending) => r.version == Some(1) && !r.active.value && !r.locked.value
                 case Some(SaysActive) => r.version == Some(2) && r.active.value && !r.locked.value
                 case Some(SaysRevoked) => r.version == Some(3) && !r.active.value && r.locked.value
                 case _ => false
  }

  /** What a valid report amounts to for the machine it authenticates. */
  datatype Kind = Empty | Alive | Stray | Terminal

  predicate Opening(ep: Endpoint, r: Report) {
    ep == SessionOpen || (ep == Heartbeat && r.state == Some(SaysActive))
  }

  predicate Waiting(ep: Endpoint, r: Report) {
    ep == Heartbeat && r.state == Some(SaysPending)
  }

  predicate Owned(creds: map<Id, Credential>, mid: Id, id: Id) {
    id in creds && creds[id].machine == mid
  }

  function KindOf(creds: map<Id, Credential>, mid: Id, ep: Endpoint, r: Report): Kind
    requires ValidReport(r, ep)
  {
    if r.id.None? then Empty
    else if Opening(ep, r) || Waiting(ep, r) then
      var id := r.id.value;
      if Owned(creds, mid, id) && creds[id].revokedAt.None? && creds[id].version <= (if Opening(ep, r) then 2 else 1)
      then Alive else Stray
    else Terminal
  }

  function OpenedBy(c: Credential, now: int): Credential {
    c.(version := 2, openedAt := if c.openedAt.Some? then c.openedAt else Some(now), revokedAt := None)
  }

  /** The credential table after the report. */
  function CredsAfter(creds: map<Id, Credential>, mid: Id, ep: Endpoint, r: Report, now: int): map<Id, Credential>
    requires ValidReport(r, ep)
  {
    match KindOf(creds, mid, ep, r)
    case Empty => if r.locked.value then creds else RevokeAll(creds, mid, now)
    case Alive =>
      var id := r.id.value;
      if Opening(ep, r) then (if creds[id].version < 2 then creds[id := OpenedBy(creds[id], now)] else creds)
      else if creds[id].version < 1 then creds[id := creds[id].(version := 1)] else creds
    case Stray => RevokeAll(creds, mid, now)
    case Terminal =>
      var id := r.id.value;
      if Owned(creds, mid, id) && creds[id].version < 3
      then creds[id := creds[id].(revokedAt := Some(now), version := 3)] else creds
  }

  /** The machine after the report, given the credential table before and after it. */
  ghost function MachineAfter(m: Machine, mid: Id, creds: map<Id, Credential>, after: map<Id, Credential>,
                              ep: Endpoint, r: Report, now: int): Machine
    requires ValidReport(r, ep)
  {
    var seen := m.(last := Some(now));
    var kind := KindOf(creds, mid, ep, r);
    if kind == Alive then
      var id := r.id.value;
      seen.(status := Occupied,
            hold := if ep == Heartbeat then Reconcile(m.hold, id)
                    else if creds[id].version < 2 then Merge(m.hold, id) else m.hold)
    else if kind == Stray then
      seen.(status := Occupied, hold := JoinAll(m.hold, Current(creds, mid) + {r.id.value}))
    else if kind == Empty && !r.locked.value then
      seen.(status := Occupied, hold := Merge(m.hold, CONFLICT))
    else
      // Locked and without a session, or terminal evidence for one generation.
      var exact := r.id.Some? && m.hold == r.id;
      var safe := ep == Heartbeat && Idle(after, mid);
      var hold := if exact || safe then None else m.hold;
      if ep == Heartbeat || exact || after != creds then
        seen.(hold := hold,
              status := if !(Idle(after, mid) && hold.None?) then Occupied
                        else if m.pin.None? then Offline else Available)
      else seen.(hold := hold)
  }

  ghost predicate Authenticates(db: Db, token: string, mid: Id) {
    mid in db.machines && db.machines[mid].token == token
  }

  ghost function Apply(db: Db, mid: Id, ep: Endpoint, r: Report, now: int): Db
    requires mid in db.machines && ValidReport(r, ep)
  {
    var after := CredsAfter(db.creds, mid, ep, r, now);
    Db(db.machines[mid := MachineAfter(db.machines[mid], mid, db.creds, after, ep, r, now)], after,
       db.audit + AuditAfter(db, mid, ep, r, now))
  }

  /** What the caller is told; it depends on the tables before the report only. */
  datatype Answer = Observed | Activated | AlreadyActive | UnsafePending | Stale | Unknown | Closed | AlreadyClosed

  ghost function AnswerTo(db: Db, mid: Id, ep: Endpoint, r: Report, now: int): Answer
    requires mid in db.machines && ValidReport(r, ep)
  {
    var known := r.id.Some? && Owned(db.creds, mid, r.id.value);
    match KindOf(db.creds, mid, ep, r)
    case Empty => Observed
    case Alive =>
      if Waiting(ep, r) then Observed else if db.creds[r.id.value].version < 2 then Activated else AlreadyActive
    case Stray => if Waiting(ep, r) then UnsafePending else if known then Stale else Unknown
    case Terminal =>
      var after := CredsAfter(db.creds, mid, ep, r, now);
      if after != db.creds || db.machines[mid].hold == r.id || (ep == Heartbeat && Idle(after, mid)) then Closed
      else if known then AlreadyClosed else Unknown
  }

  function AuditAfter(db: Db, mid: Id, ep: Endpoint, r: Report, now: int): seq<AuditRow>
    requires mid in db.machines && ValidReport(r, ep)
  {
    match KindOf(db.creds, mid, ep, r)
    case Empty => []
    case Alive =>
      var c := db.creds[r.id.value];
      if Opening(ep, r) && c.version < 2 then [AuditRow(Some(mid), Named(c.email), "session_open", now)] else []
    case Stray => [AuditRow(Some(mid), None, "session_open", now)]
    case Terminal =>
      var id := r.id.value;
      var event := if ep == CredentialExpired || ep == Heartbeat then "force_revoke" else "session_close";
      if !Owned(db.creds, mid, id) then [AuditRow(Some(mid), None, event, now)]
      else if db.creds[id].version >= 3 then []
      else
        var c := db.creds[id];
        [AuditRow(Some(mid), Named(c.email), event, now)] +
        (if ep == CredentialExpired && c.openedAt.None?
         then [AuditRow(Some(mid), Named(c.email), "password_timeout", now)] else [])
  }

  // An empty address is stored as NULL.
  function Named(email: string): Option<string> {
    if email == "" then None else Some(email)
  }

  /** One delivery: rejected without effect, or applied to the machine the token belongs to. */
  ghost function Deliver(db: Db, token: string, ep: Endpoint, r: Report, now: int): Tx<Answer> {
    if !ValidReport(r, ep) then Abort(BadReport)
    else if !exists mid :: Authenticates(db, token, mid) then Abort(Unauthorized)
    else
      var mid :| Authenticates(db, token, mid);
      Commit(Apply(db, mid, ep, r, now), AnswerTo(db, mid, ep, r, now))
  }

  lemma TokenNamesOneMachine(db: Db, token: string, a: Id, b: Id)
    requires MachinesUnique(db.machines) && Authenticates(db, token, a) && Authenticates(db, token, b)
    ensures a == b
  {
  }

  // ----- the invariant -----

  lemma CredsAfterLocal(db: Db, mid: Id, ep: Endpoint, r: Report, now: int)
    requires ValidReport(r, ep) && AllCoupled(db.creds)
    ensures var after := CredsAfter(db.creds, mid, ep, r, now);
      && after.Keys == db.creds.Keys
      && (forall id | id in after ::
            && after[id].machine == db.creds[id].machine && after[id].email == db.creds[id].email
            && Coupled(after[id]) && db.creds[id].version <= after[id].version)
      && (forall id | Live(after, id) :: Live(db.creds, id))
  {
  }

  lemma ApplyLocal(db: Db, mid: Id, ep: Endpoint, r: Report, now: int)
    requires mid in db.machines && ValidReport(r, ep)
    requires AllCoupled(db.creds) && DrainedUnlessOccupied(db.machines, db.creds)
    ensures LocalTo(db, Apply(db, mid, ep, r, now), mid)
  {
    CredsAfterLocal(db, mid, ep, r, now);
  }

  lemma DeliverKeeps(db: Db, token: string, ep: Endpoint, r: Report, now: int)
    requires Inv(db)
    ensures var tx := Deliver(db, token, ep, r, now);
      tx.Commit? ==> Inv(tx.db) && RowsKept(db, tx.db)
  {
    var tx := Deliver(db, token, ep, r, now);
    if tx.Commit? {
      var mid :| Authenticates(db, token, mid) && tx.db == Apply(db, mid, ep, r, now);
      ApplyLocal(db, mid, ep, r, now);
      LocalKeepsInv(db, tx.db, mid);
    }
  }
}

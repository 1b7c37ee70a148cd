/**
  * The server as an automaton: every transaction and every bare read is one step, every running Checkout and
  * Expire has a position, remote calls return anything, and any other step may run in between.
  */
module ServerRuns {
  import opened Base
  import opened Tables
  import opened Reservation
  import opened Webhook
  import opened Registry

  /** A checkout after its reservation: the machine as it was then, the generation and the student. */
  datatype Job = Job(mid: Id, target: Machine, id: Id, email: string)

  datatype Proc =
    | Issuing(job: Job)
    | Confirming(job: Job)
    | Compensating(job: Job, at: int)
    | Revoking(job: Job, at: int)
    | Finishing(job: Job, at: int, acked: bool)
    | ExpireSeen(id: Id, c: Credential, at: int)
    | ExpireSending(id: Id, c: Credential, target: Machine, at: int)
    | ExpireAcked(id: Id, c: Credential, target: Machine, at: int)

  predicate IsCheckout(p: Proc) {
    p.Issuing? || p.Confirming? || p.Compensating? || p.Revoking? || p.Finishing?
  }

  /**
    * What becomes of a commit: it takes effect and is reported so, it is lost, or it takes effect although the
    * caller is told that it failed.
    */
  datatype Fate = Done | Lost | Unsure

  datatype Action =
    | StartCheckout(pid: nat, id: Id, mid: Id, student: string, now: int, expires: int, fate: Fate)
    | IssueReturns(pid: nat, ok: bool, now: int)
    | CommitConfirm(pid: nat, fate: Fate, now: int)
    | CommitPrepare(pid: nat, fate: Fate)
    | RevokeReturns(pid: nat, ok: bool)
    | CommitFinish(pid: nat, fate: Fate)
    | StartExpire(pid: nat, id: Id, now: int)
    | ReadMachine(pid: nat)
    | CommitExpire(pid: nat, fate: Fate)
    | Receive(token: string, ep: Endpoint, r: Report, now: int)
    | EnrollMachine(v: Identity, id: Id, token: string)
    | RekeyMachine(mid: Id, expected: Machine, v: Identity, token: string, admin: string, now: int)
    | HideMachine(mid: Id, hidden: bool, admin: string, now: int)
    | Vanish(pid: nat)

  /**
    * `acked` records every revoke a desktop acknowledged, by pin and generation; `ended` records every generation
    * that an expiry or a compensation revoked in the tables.
    */
  datatype Sys = Sys(db: Db, procs: map<nat, Proc>, acked: set<(string, Id)>, ended: set<(string, Id)>)

  const START := Sys(EMPTY, map[], {}, {})

  function Gone(s: Sys, pid: nat): Sys {
    s.(procs := s.procs - {pid})
  }

  function Goes(s: Sys, pid: nat, p: Proc): Sys {
    s.(procs := s.procs[pid := p])
  }

  /** The tables after a commit with this fate. */
  function Landed<T>(db: Db, tx: Tx<T>, fate: Fate): Db {
    if tx.Commit? && fate != Lost then tx.db else db
  }

  /** The state after a commit of call `pid`, which then stands at `next` or is gone. */
  function Committed(s: Sys, db: Db, pid: nat, next: Option<Proc>, more: set<(string, Id)>): Sys {
    s.(db := db, ended := s.ended + more,
       procs := if next.Some? then s.procs[pid := next.value] else s.procs - {pid})
  }

  function PinOf(m: Machine): string {
    if m.pin.Some? then m.pin.value else ""
  }

  ghost function Reserved(s: Sys, pid: nat, id: Id, mid: Id, student: string, now: int, expires: int, fate: Fate)
    : Sys
  {
    if pid in s.procs || !ValidId(id) || fate == Lost then s
    else match Reserve(s.db, id, mid, student, now, expires)
      case Commit(db, m) =>
        if fate == Done then Goes(s.(db := db), pid, Issuing(Job(mid, m, id, Lower(student)))) else s.(db := db)
      case Abort(_) => s
  }

  function IssueReturned(s: Sys, pid: nat, ok: bool, now: int): Sys {
    if pid in s.procs && s.procs[pid].Issuing? then
      Goes(s, pid, if ok then Confirming(s.procs[pid].job) else Compensating(s.procs[pid].job, now))
    else s
  }

  // A failed confirmation starts the compensation; a committed one hands out the password and ends the call.
  function Confirmed(s: Sys, pid: nat, fate: Fate, now: int): Sys {
    if pid in s.procs && s.procs[pid].Confirming? then
      var j := s.procs[pid].job;
      var tx := Confirm(s.db, j.mid, j.target, j.id, j.email, now);
      Committed(s, Landed(s.db, tx, fate), pid,
                if tx.Commit? && fate == Done then None else Some(Compensating(j, now)), {})
    else s
  }

  ghost function Prepared(s: Sys, pid: nat, fate: Fate): Sys {
    if pid in s.procs && s.procs[pid].Compensating? then
      var j := s.procs[pid].job;
      var tx := Prepare(s.db, j.mid, j.target, j.id, s.procs[pid].at);
      Committed(s, Landed(s.db, tx, fate), pid,
                if tx.Commit? && fate == Done then Some(Revoking(j, s.procs[pid].at)) else None, {})
    else s
  }

  ghost function Finished(s: Sys, pid: nat, fate: Fate): Sys {
    if pid in s.procs && s.procs[pid].Finishing? then
      var p := s.procs[pid];
      var tx := Finish(s.db, p.job.mid, p.job.target, p.job.id, p.job.email, p.at, p.acked);
      Committed(s, Landed(s.db, tx, fate), pid, None,
                if tx.Commit? && fate != Lost && p.acked && SameIdentity(s.db.machines[p.job.mid], p.job.target)
                then {(PinOf(p.job.target), p.job.id)} else {})
    else s
  }

  function ExpireStarted(s: Sys, pid: nat, id: Id, now: int): Sys {
    if pid !in s.procs && id in s.db.creds && s.db.creds[id].revokedAt.None? && s.db.creds[id].openedAt.None?
       && s.db.creds[id].expires <= now
    then Goes(s, pid, ExpireSeen(id, s.db.creds[id], now))
    else s
  }

  function MachineRead(s: Sys, pid: nat): Sys {
    if pid in s.procs && s.procs[pid].ExpireSeen? then
      var p := s.procs[pid];
      if p.c.machine in s.db.machines && s.db.machines[p.c.machine].pin.Some?
      then Goes(s, pid, ExpireSending(p.id, p.c, s.db.machines[p.c.machine], p.at))
      else Gone(s, pid)
    else s
  }

  ghost function Expired(s: Sys, pid: nat, fate: Fate): Sys {
    if pid in s.procs && s.procs[pid].ExpireAcked? then
      var p := s.procs[pid];
      var tx := ExpireCommit(s.db, p.id, p.c.machine, p.target, p.c.email, p.at);
      Committed(s, Landed(s.db, tx, fate), pid, None,
                if tx.Commit? && fate != Lost && tx.value in {Held, Freed} then {(PinOf(p.target), p.id)} else {})
    else s
  }

  // The remote revoke of a compensation or an expiry returns.
  function RevokeReturned(s: Sys, pid: nat, ok: bool): Sys {
    if pid !in s.procs then s
    else match s.procs[pid]
      case Revoking(j, at) =>
        var s' := Goes(s, pid, Finishing(j, at, ok));
        if ok then s'.(acked := s.acked + {(PinOf(j.target), j.id)}) else s'
      case ExpireSending(id, c, target, at) =>
        if ok then Goes(s, pid, ExpireAcked(id, c, target, at)).(acked := s.acked + {(PinOf(target), id)})
        else Gone(s, pid)
      case _ => s
  }

  ghost function Next(s: Sys, a: Action): Sys {
    match a
    case RevokeReturns(pid, ok) => RevokeReturned(s, pid, ok)
    case Vanish(pid) => Gone(s, pid)
    case Receive(token, ep, r, now) => s.(db := After(s.db, Deliver(s.db, token, ep, r, now)))
    case EnrollMachine(v, id, token) => s.(db := After(s.db, Enroll(s.db, v, id, token)))
    case RekeyMachine(mid, expected, v, token, admin, now) =>
      s.(db := After(s.db, Rekey(s.db, mid, expected, v, token, admin, now)))
    case HideMachine(mid, hidden, admin, now) => s.(db := After(s.db, SetHidden(s.db, mid, hidden, admin, now)))
    case StartExpire(pid, id, now) => ExpireStarted(s, pid, id, now)
    case ReadMachine(pid) => MachineRead(s, pid)
    case CommitExpire(pid, fate) => Expired(s, pid, fate)
    case StartCheckout(pid, id, mid, student, now, expires, fate) =>
      Reserved(s, pid, id, mid, student, now, expires, fate)
    case IssueReturns(pid, ok, now) => IssueReturned(s, pid, ok, now)
    case CommitConfirm(pid, fate, now) => Confirmed(s, pid, fate, now)
    case CommitPrepare(pid, fate) => Prepared(s, pid, fate)
    case CommitFinish(pid, fate) => Finished(s, pid, fate)
  }

  ghost function Run(s: Sys, actions: seq<Action>): Sys
    decreases |actions|
  {
    if actions == [] then s else Run(Next(s, actions[0]), actions[1..])
  }

  // ----- the inductive invariant -----

  ghost predicate JobOk(db: Db, j: Job) {
    && ValidId(j.id) && j.mid in db.machines && j.target.pin.Some?
    && j.id in db.creds && db.creds[j.id].machine == j.mid && db.creds[j.id].email == j.email
  }

  ghost predicate ProcOk(s: Sys, p: Proc) {
    match p
    case ExpireSeen(id, c, _) => ExpiryOk(s.db, id, c)
    case ExpireSending(id, c, target, _) => ExpiryOk(s.db, id, c) && target.pin.Some?
    case ExpireAcked(id, c, target, _) =>
      ExpiryOk(s.db, id, c) && target.pin.Some? && (target.pin.value, id) in s.acked
    case Finishing(j, _, acked) => JobOk(s.db, j) && (acked ==> (j.target.pin.value, j.id) in s.acked)
    case _ => JobOk(s.db, p.job)
  }

  ghost predicate ExpiryOk(db: Db, id: Id, c: Credential) {
    id in db.creds && db.creds[id].machine == c.machine && c.machine in db.machines
  }

  ghost predicate SysInv(s: Sys) {
    && Inv(s.db)
    && (forall pid | pid in s.procs :: ProcOk(s, s.procs[pid]))
    && s.ended <= s.acked
  }

  lemma ProcOkKept(s: Sys, t: Sys, p: Proc)
    requires RowsKept(s.db, t.db) && s.acked <= t.acked && ProcOk(s, p)
    ensures ProcOk(t, p)
  {
  }

  // Everything but the tables: positions stay justified when rows and acknowledgements only grow.
  lemma StepKeepsProcs(s: Sys, t: Sys, pid: nat)
    requires SysInv(s) && Inv(t.db) && RowsKept(s.db, t.db) && s.acked <= t.acked && t.ended <= t.acked
    requires t.procs.Keys <= s.procs.Keys + {pid}
    requires forall k | k in t.procs && k != pid :: k in s.procs && t.procs[k] == s.procs[k]
    requires pid in t.procs ==> ProcOk(t, t.procs[pid])
    ensures SysInv(t)
  {
    forall k | k in t.procs ensures ProcOk(t, t.procs[k]) {
      if k != pid { ProcOkKept(s, t, s.procs[k]); }
    }
  }

  // A step on the tables alone.
  lemma TablesStepKeeps(s: Sys, db: Db)
    requires SysInv(s) && Inv(db) && RowsKept(s.db, db)
    ensures SysInv(s.(db := db))
  {
    StepKeepsProcs(s, s.(db := db), 0);
  }

  lemma LandedKeeps<T>(db: Db, tx: Tx<T>, fate: Fate)
    requires Inv(db) && (tx.Commit? ==> Inv(tx.db) && RowsKept(db, tx.db))
    ensures Inv(Landed(db, tx, fate)) && RowsKept(db, Landed(db, tx, fate))
  {
  }

  lemma CommitKeeps(s: Sys, db: Db, pid: nat, next: Option<Proc>, more: set<(string, Id)>)
    requires SysInv(s) && Inv(db) && RowsKept(s.db, db) && more <= s.acked
    requires next.Some? ==> ProcOk(s, next.value)
    ensures SysInv(Committed(s, db, pid, next, more))
  {
    var t := Committed(s, db, pid, next, more);
    if next.Some? {
      ProcOkKept(s, t, next.value);
    }
    StepKeepsProcs(s, t, pid);
  }

  lemma ReceiveKeeps(s: Sys, token: string, ep: Endpoint, r: Report, now: int)
    requires SysInv(s)
    ensures var t := s.(db := After(s.db, Deliver(s.db, token, ep, r, now)));
      SysInv(t) && RowsKept(s.db, t.db)
  {
    DeliverKeeps(s.db, token, ep, r, now);
    TablesStepKeeps(s, After(s.db, Deliver(s.db, token, ep, r, now)));
  }

  lemma EnrollStepKeeps(s: Sys, v: Identity, id: Id, token: string)
    requires SysInv(s)
    ensures var t := s.(db := After(s.db, Enroll(s.db, v, id, token))); SysInv(t) && RowsKept(s.db, t.db)
  {
    EnrollKeeps(s.db, v, id, token);
    TablesStepKeeps(s, After(s.db, Enroll(s.db, v, id, token)));
  }

  lemma RekeyStepKeeps(s: Sys, mid: Id, expected: Machine, v: Identity, token: string, admin: string, now: int)
    requires SysInv(s)
    ensures var t := s.(db := After(s.db, Rekey(s.db, mid, expected, v, token, admin, now)));
      SysInv(t) && RowsKept(s.db, t.db)
  {
    RekeyKeeps(s.db, mid, expected, v, token, admin, now);
    TablesStepKeeps(s, After(s.db, Rekey(s.db, mid, expected, v, token, admin, now)));
  }

  lemma HideStepKeeps(s: Sys, mid: Id, hidden: bool, admin: string, now: int)
    requires SysInv(s)
    ensures var t := s.(db := After(s.db, SetHidden(s.db, mid, hidden, admin, now)));
      SysInv(t) && RowsKept(s.db, t.db)
  {
    SetHiddenKeeps(s.db, mid, hidden, admin, now);
    TablesStepKeeps(s, After(s.db, SetHidden(s.db, mid, hidden, admin, now)));
  }

  lemma ReservedKeeps(s: Sys, pid: nat, id: Id, mid: Id, student: string, now: int, expires: int,
                      fate: Fate)
    requires SysInv(s)
    ensures var t := Reserved(s, pid, id, mid, student, now, expires, fate); SysInv(t) && RowsKept(s.db, t.db)
  {
    ReserveKeeps(s.db, id, mid, student, now, expires);
    StepKeepsProcs(s, Reserved(s, pid, id, mid, student, now, expires, fate), pid);
  }

  lemma ConfirmedKeeps(s: Sys, pid: nat, fate: Fate, now: int)
    requires SysInv(s)
    ensures var t := Confirmed(s, pid, fate, now); SysInv(t) && RowsKept(s.db, t.db)
  {
    if pid in s.procs && s.procs[pid].Confirming? {
      var j := s.procs[pid].job;
      var tx := Confirm(s.db, j.mid, j.target, j.id, j.email, now);
      ConfirmKeeps(s.db, j.mid, j.target, j.id, j.email, now);
      assert ProcOk(s, s.procs[pid]);
      LandedKeeps(s.db, tx, fate);
      CommitKeeps(s, Landed(s.db, tx, fate), pid,
                  if tx.Commit? && fate == Done then None else Some(Compensating(j, now)), {});
    }
  }

  lemma PreparedKeeps(s: Sys, pid: nat, fate: Fate)
    requires SysInv(s)
    ensures var t := Prepared(s, pid, fate); SysInv(t) && RowsKept(s.db, t.db)
  {
    if pid in s.procs && s.procs[pid].Compensating? {
      var j, at := s.procs[pid].job, s.procs[pid].at;
      var tx := Prepare(s.db, j.mid, j.target, j.id, at);
      assert ProcOk(s, s.procs[pid]);
      PrepareKeeps(s.db, j.mid, j.target, j.id, at);
      LandedKeeps(s.db, tx, fate);
      CommitKeeps(s, Landed(s.db, tx, fate), pid,
                  if tx.Commit? && fate == Done then Some(Revoking(j, at)) else None, {});
    }
  }

  lemma FinishedKeeps(s: Sys, pid: nat, fate: Fate)
    requires SysInv(s)
    ensures var t := Finished(s, pid, fate); SysInv(t) && RowsKept(s.db, t.db)
  {
    if pid in s.procs && s.procs[pid].Finishing? {
      var p := s.procs[pid];
      var tx := Finish(s.db, p.job.mid, p.job.target, p.job.id, p.job.email, p.at, p.acked);
      FinishKeeps(s.db, p.job.mid, p.job.target, p.job.id, p.job.email, p.at, p.acked);
      assert ProcOk(s, p);
      LandedKeeps(s.db, tx, fate);
      CommitKeeps(s, Landed(s.db, tx, fate), pid, None,
                  if tx.Commit? && fate != Lost && p.acked && SameIdentity(s.db.machines[p.job.mid], p.job.target)
                  then {(PinOf(p.job.target), p.job.id)} else {});
    }
  }

  lemma ExpiryLands(db: Db, id: Id, mid: Id, target: Machine, email: string, at: int, fate: Fate)
    requires Inv(db)
    ensures var after := Landed(db, ExpireCommit(db, id, mid, target, email, at), fate);
      Inv(after) && RowsKept(db, after)
  {
    ExpireCommitKeeps(db, id, mid, target, email, at);
    LandedKeeps(db, ExpireCommit(db, id, mid, target, email, at), fate);
  }

  // What an expiry may record as ended was acknowledged.
  lemma ExpiryAcked(s: Sys, p: Proc)
    requires p.ExpireAcked? && ProcOk(s, p)
    ensures (PinOf(p.target), p.id) in s.acked
  {
  }

  lemma ExpiredKeeps(s: Sys, pid: nat, fate: Fate)
    requires SysInv(s)
    ensures var t := Expired(s, pid, fate); SysInv(t) && RowsKept(s.db, t.db)
  {
    if pid in s.procs && s.procs[pid].ExpireAcked? {
      var p := s.procs[pid];
      var tx := ExpireCommit(s.db, p.id, p.c.machine, p.target, p.c.email, p.at);
      var after := Landed(s.db, tx, fate);
      ExpiryLands(s.db, p.id, p.c.machine, p.target, p.c.email, p.at, fate);
      ExpiryAcked(s, p);
      var more := if tx.Commit? && fate != Lost && tx.value in {Held, Freed} then {(PinOf(p.target), p.id)} else {};
      CommitKeeps(s, after, pid, None, more);
      assert Expired(s, pid, fate) == Committed(s, after, pid, None, more);
    }
  }

  // Steps that leave the tables alone.
  lemma MoveKeeps(s: Sys, t: Sys, pid: nat)
    requires SysInv(s) && t.db == s.db && s.acked <= t.acked && t.ended == s.ended
    requires t.procs.Keys <= s.procs.Keys + {pid}
    requires forall k | k in t.procs && k != pid :: k in s.procs && t.procs[k] == s.procs[k]
    requires pid in t.procs ==> ProcOk(t, t.procs[pid])
    ensures SysInv(t)
  {
    StepKeepsProcs(s, t, pid);
  }

  lemma PositionStepKeeps(s: Sys, t: Sys, pid: nat, id: Id, ok: bool, now: int)
    requires SysInv(s) && t.db == s.db
    requires t == IssueReturned(s, pid, ok, now) || t == ExpireStarted(s, pid, id, now) || t == MachineRead(s, pid)
             || t == Gone(s, pid)
    ensures SysInv(t)
  {
    assert pid in t.procs ==> ProcOk(t, t.procs[pid]);
    MoveKeeps(s, t, pid);
  }

  lemma RevokeReturnedKeeps(s: Sys, pid: nat, ok: bool)
    requires SysInv(s)
    ensures SysInv(RevokeReturned(s, pid, ok)) && RevokeReturned(s, pid, ok).db == s.db
  {
    var t := RevokeReturned(s, pid, ok);
    if pid in s.procs {
      assert ProcOk(s, s.procs[pid]);
      assert pid in t.procs ==> ProcOk(t, t.procs[pid]);
    }
    MoveKeeps(s, t, pid);
  }

  lemma StepKeeps(s: Sys, a: Action)
    requires SysInv(s)
    ensures SysInv(Next(s, a)) && RowsKept(s.db, Next(s, a).db)
  {
    match a {
      case RevokeReturns(pid, ok) => RevokeReturnedKeeps(s, pid, ok);
      case Vanish(pid) => PositionStepKeeps(s, Next(s, a), pid, "", false, 0);
      case IssueReturns(pid, ok, now) => PositionStepKeeps(s, Next(s, a), pid, "", ok, now);
      case StartExpire(pid, id, now) => PositionStepKeeps(s, Next(s, a), pid, id, false, now);
      case ReadMachine(pid) => PositionStepKeeps(s, Next(s, a), pid, "", false, 0);
      case Receive(token, ep, r, now) => ReceiveKeeps(s, token, ep, r, now);
      case EnrollMachine(v, id, token) => EnrollStepKeeps(s, v, id, token);
      case RekeyMachine(mid, expected, v, token, admin, now) => RekeyStepKeeps(s, mid, expected, v, token, admin, now);
      case HideMachine(mid, hidden, admin, now) => HideStepKeeps(s, mid, hidden, admin, now);
      case CommitExpire(pid, fate) => ExpiredKeeps(s, pid, fate);
      case StartCheckout(pid, id, mid, student, now, expires, fate) =>
        ReservedKeeps(s, pid, id, mid, student, now, expires, fate);
      case CommitConfirm(pid, fate, now) => ConfirmedKeeps(s, pid, fate, now);
      case CommitPrepare(pid, fate) => PreparedKeeps(s, pid, fate);
      case CommitFinish(pid, fate) => FinishedKeeps(s, pid, fate);
    }
  }

  lemma {:induction false} RunKeeps(s: Sys, actions: seq<Action>)
    requires SysInv(s)
    ensures SysInv(Run(s, actions)) && RowsKept(s.db, Run(s, actions).db)
    decreases |actions|
  {
    if actions != [] {
      var t := Next(s, actions[0]);
      StepKeeps(s, actions[0]);
      RunKeeps(t, actions[1..]);
      RowsKeptTransitive(s.db, t.db, Run(t, actions[1..]).db);
    }
  }

  lemma RowsKeptTransitive(a: Db, b: Db, c: Db)
    requires RowsKept(a, b) && RowsKept(b, c)
    ensures RowsKept(a, c)
  {
  }

  /**
    * Over every interleaving from an empty store: one unrevoked credential per machine and per student, nothing
    * held or reserved on a machine that is not occupied, versions coupled, and every generation ended by an
    * expiry or a compensation was acknowledged by the desktop behind the stored pin.
    */
  lemma EveryRunIsSafe(actions: seq<Action>)
    ensures var s := Run(START, actions);
      && (forall a, b | Live(s.db.creds, a) && Live(s.db.creds, b) && a != b ::
            && s.db.creds[a].machine != s.db.creds[b].machine
            && Lower(s.db.creds[a].email) != Lower(s.db.creds[b].email))
      && (forall mid | mid in s.db.machines && s.db.machines[mid].status != Occupied ::
            s.db.machines[mid].hold.None? && Current(s.db.creds, mid) == {})
      && (forall id | id in s.db.creds :: Coupled(s.db.creds[id]))
      && StartupCheck(s.db)
      && s.ended <= s.acked
  {
    RunKeeps(START, actions);
    var s := Run(START, actions);
    InvPassesStartupCheck(s.db);
    forall mid | mid in s.db.machines && s.db.machines[mid].status != Occupied
      ensures Current(s.db.creds, mid) == {}
    {
      IdleHasNoCurrent(s.db.creds, mid);
    }
  }
}

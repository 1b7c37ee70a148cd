/**
  * The server's methods over mutable tables, statement by statement. Each transaction is proved to have exactly the
  * effect its function in `Reservation`, `Webhook` or `Registry` describes, and Checkout and Expire run with any other
  * step of the server between their transactions.
  */
module Server {
  import opened Base
  import opened Holds
  import opened Tables
  import opened Reservation
  import opened Webhook
  import opened Delivery
  import opened Registry
  import opened Outcomes
  import opened ServerRuns

  datatype Result<+T> = Ok(value: T) | Err(error: Error)

  /**
    * How a checkout fares: whether any other step of the server comes in between, what becomes of its commits and of
    * its two remote calls, and the clock readings at which the issue and the confirmation are seen to fail.
    */
  datatype Course = Course(
    quiet: bool, reserve: Fate, issued: bool, issueAt: int, confirm: Fate, confirmAt: int,
    prepare: Fate, revoked: bool, finish: Fate)

  class Service {
    var machines: map<Id, Machine>
    var creds: map<Id, Credential>
    var audit: seq<AuditRow>

    // The running calls, and what the desktops acknowledged so far.
    var procs: map<nat, Proc>
    var acked: set<(string, Id)>
    var ended: set<(string, Id)>

    constructor ()
      ensures State() == START
    {
      machines, creds, audit := map[], map[], [];
      procs, acked, ended := map[], {}, {};
    }

    function State(): Sys
      reads this
    {
      Sys(Tables(), procs, acked, ended)
    }

    function Tables(): Db
      reads this
    {
      Db(machines, creds, audit)
    }

    method Audit(mid: Id, email: Option<string>, event: string, now: int)
      modifies `audit
      ensures audit == old(audit) + [AuditRow(Some(mid), email, event, now)]
    {
      audit := audit + [AuditRow(Some(mid), email, event, now)];
    }

    // A failed transaction rolls back.
    method Rollback(machines0: map<Id, Machine>, creds0: map<Id, Credential>, audit0: seq<AuditRow>)
      modifies `machines, `creds, `audit
      ensures Tables() == Db(machines0, creds0, audit0)
    {
      machines, creds, audit := machines0, creds0, audit0;
    }

    method ReserveTx(id: Id, mid: Id, student: string, now: int, expires: int) returns (r: Result<Machine>)
      modifies `machines, `creds, `audit
      ensures var tx := Reserve(old(Tables()), id, mid, student, now, expires);
        && Tables() == After(old(Tables()), tx)
        && r == (if tx.Commit? then Ok(tx.value) else Err(tx.error))
    {
      var email := Lower(student);
      var before := (machines, creds, audit);
      if exists c | c in creds :: Lower(creds[c].email) == email && creds[c].revokedAt.None? {
        assert exists c :: Live(creds, c) && Lower(creds[c].email) == email;
        return Err(AlreadyReserved);
      }
      var updated := 0;
      if mid in machines && Reservable(machines[mid], now) {
        machines := machines[mid := machines[mid].(status := Occupied)];
        updated := 1;
      }
      if updated != 1 {
        return Err(NotAvailable);
      }
      var m := machines[mid];
      if id in creds || exists c | c in creds ::
           creds[c].revokedAt.None? && (creds[c].machine == mid || Lower(creds[c].email) == Lower(email)) {
        Rollback(before.0, before.1, before.2);
        return Err(ReservationConflict);
      }
      creds := creds[id := Credential(mid, email, now, expires, None, None, 0)];
      Audit(mid, Some(email), "checkout", now);
      return Ok(m);
    }

    method ConfirmTx(mid: Id, target: Machine, id: Id, email: string, now: int) returns (r: Result<()>)
      requires target.pin.Some?
      modifies `machines, `creds, `audit
      ensures var tx := Confirm(old(Tables()), mid, target, id, email, now);
        && Tables() == After(old(Tables()), tx)
        && r == (if tx.Commit? then Ok(tx.value) else Err(tx.error))
    {
      if !(mid in machines && machines[mid].ip == target.ip && machines[mid].pin == target.pin
           && machines[mid].status == Occupied && machines[mid].hold.None?) {
        return Err(ReservationLost);
      }
      if !(id in creds && creds[id].machine == mid && creds[id].revokedAt.None? && creds[id].openedAt.None?
           && creds[id].version <= 1) {
        return Err(GenerationLost);
      }
      creds := creds[id := creds[id].(version := 1)];
      Audit(mid, Some(email), "provision_ok", now);
      return Ok(());
    }

    method PrepareTx(mid: Id, target: Machine, id: Id, now: int) returns (r: Result<bool>)
      modifies `machines, `creds, `audit
      ensures var tx := Prepare(old(Tables()), mid, target, id, now);
        && Tables() == After(old(Tables()), tx)
        && r == (if tx.Commit? then Ok(tx.value) else Err(tx.error))
    {
      if mid !in machines {
        return Err(NotFound);
      }
      var m := machines[mid];
      if m.ip != target.ip || m.pin != target.pin {
        return Ok(false);
      }
      var ids := Current(creds, mid);
      var hold := MergeEach(m.hold, ids - {id});
      JoinOneMore(m.hold, ids - {id}, id);
      hold := Merge(hold, id);
      if ids == {} || ids == {id} {
        assert ids <= {id};
        if id in creds {
          if exists c | c in creds :: c != id && creds[c].revokedAt.None?
                                      && (creds[c].machine == creds[id].machine
                                          || Lower(creds[c].email) == Lower(creds[id].email)) {
            return Err(Database);
          }
          creds := creds[id := creds[id].(revokedAt := None, expires := now,
                                          version := if creds[id].openedAt.None? then 1 else 2)];
        }
      }
      machines := machines[mid := m.(status := Occupied, hold := hold)];
      return Ok(true);
    }

    /** Merges any number of generations into a hold, in whatever order the rows arrive. */
    static method MergeEach(hold: Option<Id>, ids: set<Id>) returns (r: Option<Id>)
      ensures r == JoinAll(hold, ids)
    {
      r := hold;
      var rest := ids;
      while rest != {}
        invariant rest <= ids && r == JoinAll(hold, ids - rest)
        decreases |rest|
      {
        var v :| v in rest;
        JoinOneMore(hold, ids - rest, v);
        assert ids - rest + {v} == ids - (rest - {v});
        r := Merge(r, v);
        rest := rest - {v};
      }
      assert ids - rest == ids;
    }

    method FinishTx(mid: Id, target: Machine, id: Id, email: string, now: int, acked: bool) returns (r: Result<bool>)
      modifies `machines, `creds, `audit
      ensures var tx := Finish(old(Tables()), mid, target, id, email, now, acked);
        && Tables() == After(old(Tables()), tx)
        && r == (if tx.Commit? then Ok(tx.value) else Err(tx.error))
    {
      if mid !in machines {
        return Err(NotFound);
      }
      var m := machines[mid];
      if m.ip != target.ip || m.pin != target.pin {
        return Ok(false);
      }
      var freed := false;
      if acked {
        if id in creds {
          creds := creds[id := creds[id].(revokedAt := Some(now), version := 3)];
        }
        IdleHasNoCurrent(creds, mid);
        if Current(creds, mid) == {} && (m.hold.None? || m.hold == Some(id)) {
          machines := machines[mid := m.(status := Available, hold := None)];
          freed := true;
        }
      }
      Audit(mid, Some(email), "provision_fail", now);
      return Ok(freed);
    }

    method ExpireTx(id: Id, mid: Id, target: Machine, email: string, now: int) returns (r: Result<Verdict>)
      modifies `machines, `creds, `audit
      ensures var tx := ExpireCommit(old(Tables()), id, mid, target, email, now);
        && Tables() == After(old(Tables()), tx)
        && r == (if tx.Commit? then Ok(tx.value) else Err(tx.error))
    {
      if id !in creds {
        return Err(Database);
      }
      var latest := creds[id];
      if latest.openedAt.Some? && latest.revokedAt.None? {
        return Ok(ActiveSession);
      }
      if latest.revokedAt.Some? || latest.expires > now {
        return Ok(AlreadyReleased);
      }
      if mid !in machines {
        return Err(Database);
      }
      var m := machines[mid];
      if m.ip != target.ip || m.pin != target.pin {
        return Ok(Retry);
      }
      creds := creds[id := latest.(revokedAt := Some(now), version := 3)];
      var verdict := Held;
      IdleHasNoCurrent(creds, mid);
      if Current(creds, mid) == {} && (m.hold.None? || m.hold == Some(id)) {
        machines := machines[mid := m.(status := Available, hold := None)];
        verdict := Freed;
      }
      Audit(mid, Some(email), "force_revoke", now);
      Audit(mid, Some(email), "password_timeout", now);
      return Ok(verdict);
    }

    method RevokeCurrent(mid: Id, now: int)
      modifies `creds
      ensures creds == RevokeAll(old(creds), mid, now)
    {
      creds := RevokeAll(creds, mid, now);
    }

    /** A report for one endpoint, as posted by a desktop. */
    method Webhook(token: string, ep: Endpoint, r: Report, now: int) returns (res: Result<Answer>)
      requires OneOwner(Tables(), token)
      modifies `machines, `creds, `audit
      ensures var tx := Deliver(old(Tables()), token, ep, r, now);
        && Tables() == After(old(Tables()), tx)
        && res == (if tx.Commit? then Ok(tx.value) else Err(tx.error))
      ensures res == Err(BadReport) <==> !ValidReport(r, ep)
      ensures res == Err(Unauthorized) <==>
        ValidReport(r, ep) && forall k | k in old(machines) :: old(machines)[k].token != token
      ensures res.Err? ==> Tables() == old(Tables())
    {
      if !ValidReport(r, ep) {
        return Err(BadReport);
      }
      if mid :| mid in machines && machines[mid].token == token {
        assert Authenticates(Tables(), token, mid);
        DeliverIsApply(Tables(), token, ep, r, now, mid);
        var answer := Accept(mid, ep, r, now);
        return Ok(answer);
      }
      return Err(Unauthorized);
    }

    // A valid report of the machine.
    method Accept(mid: Id, ep: Endpoint, r: Report, now: int) returns (answer: Answer)
      requires mid in machines && ValidReport(r, ep)
      modifies `machines, `creds, `audit
      ensures Tables() == Apply(old(Tables()), mid, ep, r, now) && answer == AnswerTo(old(Tables()), mid, ep, r, now)
    {
      if ep == Heartbeat && r.id.None? {
        EmptyHeartbeat(mid, r, now);
        return Observed;
      }
      var id := r.id.value;
      var known := id in creds && creds[id].machine == mid;
      var opening := ep == SessionOpen || (ep == Heartbeat && r.state == Some(SaysActive));
      var pending := ep == Heartbeat && r.state == Some(SaysPending);
      if opening || pending {
        var valid := known && creds[id].revokedAt.None?
                     && ((pending && creds[id].version < 2) || (opening && creds[id].version <= 2));
        if !valid {
          Unsafe(mid, id, now);
          return if pending then UnsafePending else if known then Stale else Unknown;
        }
        answer := LiveReport(mid, ep, r, id, now, pending);
      } else {
        answer := TerminalReport(mid, ep, r, id, now, known);
      }
    }

    method EmptyHeartbeat(mid: Id, r: Report, now: int)
      requires mid in machines && ValidReport(r, Heartbeat) && r.id.None?
      modifies `machines, `creds, `audit
      ensures Tables() == Apply(old(Tables()), mid, Heartbeat, r, now)
    {
      var m := machines[mid];
      var ids := Current(creds, mid);
      IdleHasNoCurrent(creds, mid);
      var state := Occupied;
      var hold := m.hold;
      if r.locked.value && ids == {} {
        state := Available;
        hold := None;
      } else if !r.locked.value {
        RevokeCurrent(mid, now);
        hold := Merge(hold, CONFLICT);
      }
      if m.pin.None? && state == Available {
        state := Offline;
      }
      machines := machines[mid := m.(last := Some(now), status := state, hold := hold)];
    }

    // A generation the server cannot accept is held, with every current one, until it is reconciled.
    method Unsafe(mid: Id, id: Id, now: int)
      requires mid in machines
      modifies `machines, `creds, `audit
      ensures machines == old(machines)[mid := old(machines[mid]).(status := Occupied, last := Some(now),
                            hold := JoinAll(old(machines[mid]).hold, Current(old(creds), mid) + {id}))]
      ensures creds == RevokeAll(old(creds), mid, now)
      ensures audit == old(audit) + [AuditRow(Some(mid), None, "session_open", now)]
    {
      var m := machines[mid];
      var ids := Current(creds, mid);
      var hold := MergeEach(m.hold, ids);
      JoinOneMore(m.hold, ids, id);
      hold := Merge(hold, id);
      RevokeCurrent(mid, now);
      machines := machines[mid := m.(status := Occupied, last := Some(now), hold := hold)];
      Audit(mid, None, "session_open", now);
    }

    method LiveReport(mid: Id, ep: Endpoint, r: Report, id: Id, now: int, pending: bool) returns (answer: Answer)
      requires mid in machines && ValidReport(r, ep) && r.id == Some(id)
      requires pending == Waiting(ep, r) && KindOf(creds, mid, ep, r) == Alive
      modifies `machines, `creds, `audit
      ensures Tables() == Apply(old(Tables()), mid, ep, r, now) && answer == AnswerTo(old(Tables()), mid, ep, r, now)
    {
      var c := creds[id];
      if pending {
        if c.version < 1 {
          creds := creds[id := c.(version := 1)];
        }
        answer := Observed;
      } else if c.version < 2 {
        creds := creds[id := c.(version := 2, openedAt := if c.openedAt.Some? then c.openedAt else Some(now),
                                revokedAt := None)];
        answer := Activated;
        Audit(mid, if c.email == "" then None else Some(c.email), "session_open", now);
      } else {
        answer := AlreadyActive;
      }
      var hold := machines[mid].hold;
      if ep == Heartbeat {
        hold := Reconcile(hold, id);
      } else if answer == Activated {
        hold := Merge(hold, id);
      }
      machines := machines[mid := machines[mid].(status := Occupied, last := Some(now), hold := hold)];
    }

    method TerminalReport(mid: Id, ep: Endpoint, r: Report, id: Id, now: int, known: bool) returns (answer: Answer)
      requires mid in machines && ValidReport(r, ep) && r.id == Some(id)
      requires known == Owned(creds, mid, id) && KindOf(creds, mid, ep, r) == Terminal
      modifies `machines, `creds, `audit
      ensures Tables() == Apply(old(Tables()), mid, ep, r, now) && answer == AnswerTo(old(Tables()), mid, ep, r, now)
    {
      var c := if known then creds[id] else Credential(mid, "", 0, 0, None, None, 0);
      var changed, settled := CloseGeneration(mid, ep, r, id, now, known);
      AuditTerminal(mid, ep, r, known, changed, c, now);
      answer := if changed || settled then Closed else if known then AlreadyClosed else Unknown;
    }

    method CloseGeneration(mid: Id, ep: Endpoint, r: Report, id: Id, now: int, known: bool)
      returns (changed: bool, settled: bool)
      requires mid in machines && ValidReport(r, ep) && r.id == Some(id)
      requires known == Owned(creds, mid, id) && KindOf(creds, mid, ep, r) == Terminal
      modifies `machines, `creds
      ensures creds == CredsAfter(old(creds), mid, ep, r, now)
      ensures machines == old(machines)[mid := MachineAfter(old(machines[mid]), mid, old(creds), creds, ep, r, now)]
      ensures changed <==> known && old(creds)[id].version < 3
      ensures changed <==> creds != old(creds)
      ensures settled <==> old(machines[mid]).hold == Some(id) || (ep == Heartbeat && Idle(creds, mid))
    {
      var m := machines[mid];
      changed := known && creds[id].version < 3;
      if changed {
        creds := creds[id := creds[id].(revokedAt := Some(now), version := 3)];
        assert creds[id] != old(creds)[id];
      }
      var ids := Current(creds, mid);
      IdleHasNoCurrent(creds, mid);
      var hold := m.hold;
      var exact := hold == Some(id);
      settled := exact || (ep == Heartbeat && ids == {});
      if settled {
        hold := None;
      }
      var state := m.status;
      if changed || exact || ep == Heartbeat {
        state := Occupied;
        if ids == {} && hold.None? {
          state := if m.pin.None? then Offline else Available;
        }
      }
      machines := machines[mid := m.(status := state, last := Some(now), hold := hold)];
    }

    method AuditTerminal(mid: Id, ep: Endpoint, r: Report, known: bool, changed: bool, c: Credential, now: int)
      requires ep == Heartbeat ==> r.state == Some(SaysRevoked)
      requires changed ==> known
      modifies `audit
      ensures var event := if ep == CredentialExpired || ep == Heartbeat then "force_revoke" else "session_close";
        var email := if known then Named(c.email) else None;
        audit == old(audit)
          + (if changed || !known then [AuditRow(Some(mid), email, event, now)] else [])
          + (if ep == CredentialExpired && changed && c.openedAt.None?
             then [AuditRow(Some(mid), email, "password_timeout", now)] else [])
    {
      var event := "session_close";
      var timeout := ep == CredentialExpired;
      if timeout || (ep == Heartbeat && r.state == Some(SaysRevoked)) {
        event := "force_revoke";
      }
      if changed || !known {
        var email := if known then Named(c.email) else None;
        Audit(mid, email, event, now);
        if timeout && changed && c.openedAt.None? {
          Audit(mid, email, "password_timeout", now);
        }
      }
    }

    method SetVisibility(mid: Id, hidden: bool, admin: string, now: int) returns (r: Result<bool>)
      modifies `machines, `creds, `audit
      ensures var tx := SetHidden(old(Tables()), mid, hidden, admin, now);
        && Tables() == After(old(Tables()), tx)
        && r == (if tx.Commit? then Ok(tx.value) else Err(tx.error))
    {
      if mid !in machines {
        return Err(NotFound);
      }
      var m := machines[mid];
      if m.hidden == hidden {
        return Ok(false);
      }
      machines := machines[mid := m.(hidden := hidden)];
      var event := "machine_restore";
      if hidden {
        event := "machine_hide";
      }
      Audit(mid, Some(admin), event, now);
      return Ok(true);
    }

    method EnrollTx(v: Identity, id: Id, token: string) returns (r: Result<string>)
      modifies `machines, `creds, `audit
      ensures var tx := Enroll(old(Tables()), v, id, token);
        && Tables() == After(old(Tables()), tx)
        && r == (if tx.Commit? then Ok(tx.value) else Err(tx.error))
    {
      var matches := set k | k in machines && Matches(machines[k], v);
      EnrollByMatches(Tables(), v, id, token, matches);
      if first :| first in matches {
        var m := machines[first];
        if matches != {first} || m.name != v.name || m.ip != v.ip || m.pin != Some(v.pin) {
          return Err(IdentityConflict);
        }
        return Ok(m.token);
      }
      if id in machines || exists k | k in machines :: machines[k].token == token {
        return Err(IdentityConflict);
      }
      machines := machines[id := Machine(v.name, v.ip, Some(v.pin), token, Offline, false, None, None)];
      return Ok(token);
    }

    method RekeyTx(mid: Id, expected: Machine, v: Identity, token: string, admin: string, now: int)
      returns (r: Result<string>)
      modifies `machines, `creds, `audit
      ensures var tx := Rekey(old(Tables()), mid, expected, v, token, admin, now);
        && Tables() == After(old(Tables()), tx)
        && r == (if tx.Commit? then Ok(tx.value) else Err(tx.error))
    {
      if mid !in machines {
        return Err(NotFound);
      }
      var m := machines[mid];
      if m.name != expected.name || m.ip != expected.ip || m.pin != expected.pin {
        return Err(IdentityChanged);
      }
      var ids := Current(creds, mid);
      IdleHasNoCurrent(creds, mid);
      if m.status != Available || m.hold.Some? || ids != {} {
        return Err(NotDrained);
      }
      if exists k | k in machines :: k != mid && (Matches(machines[k], v) || machines[k].token == token) {
        return Err(IdentityConflict);
      }
      machines := machines[mid := m.(name := v.name, ip := v.ip, pin := Some(v.pin), token := token, last := None,
                                     status := Offline)];
      Audit(mid, Some(admin), "machine_rekey", now);
      return Ok(token);
    }

    // ----- calls that span several transactions -----

    /** One step of any other call or request. */
    method Step(a: Action)
      requires SysInv(State())
      modifies this
      ensures State() == Next(old(State()), a) && SysInv(State()) && RowsKept(old(Tables()), Tables())
    {
      StepKeeps(State(), a);
      match a {
        case Vanish(pid) => procs := procs - {pid};
        case Receive(token, ep, r, now) =>
          InvNamesOneOwner(token);
          var _ := Webhook(token, ep, r, now);
        case EnrollMachine(v, id, token) => var _ := EnrollTx(v, id, token);
        case RekeyMachine(mid, expected, v, token, admin, now) => var _ := RekeyTx(mid, expected, v, token, admin, now);
        case HideMachine(mid, hidden, admin, now) => var _ := SetVisibility(mid, hidden, admin, now);
        case StartCheckout(pid, id, mid, student, now, expires, fate) =>
          var _ := ReserveStep(pid, id, mid, student, now, expires, fate);
        case IssueReturns(pid, ok, now) => procs := IssueReturned(State(), pid, ok, now).procs;
        case RevokeReturns(pid, ok) => RevokeStep(pid, ok);
        case StartExpire(pid, id, now) => procs := ExpireStarted(State(), pid, id, now).procs;
        case ReadMachine(pid) => procs := MachineRead(State(), pid).procs;
        case CommitConfirm(pid, fate, now) =>
          var _ := ConfirmStep(pid, fate, now);
        case CommitPrepare(pid, fate) => PrepareStep(pid, fate);
        case CommitFinish(pid, fate) =>
          var _ := FinishStep(pid, fate);
        case CommitExpire(pid, fate) =>
          var _ := ExpireStep(pid, fate);
      }
    }

    lemma InvNamesOneOwner(token: string)
      requires Inv(Tables())
      ensures OneOwner(Tables(), token)
    {
    }

    method ReserveStep(pid: nat, id: Id, mid: Id, student: string, now: int, expires: int, fate: Fate)
      returns (r: Result<Machine>)
      modifies this
      ensures State() == Reserved(old(State()), pid, id, mid, student, now, expires, fate)
      ensures pid !in old(procs) && ValidId(id) ==>
        var tx := Reserve(old(Tables()), id, mid, student, now, expires);
        && r == (if fate != Done then Err(Database) else if tx.Commit? then Ok(tx.value) else Err(tx.error))
        && (r.Ok? ==> pid in procs && procs[pid] == Issuing(Job(mid, tx.value, id, Lower(student))))
        && (r.Err? ==> pid !in procs)
    {
      r := Err(Database);
      if pid !in procs && ValidId(id) && fate != Lost {
        r := ReserveTx(id, mid, student, now, expires);
        if fate == Unsure {
          r := Err(Database);
        } else if r.Ok? {
          procs := procs[pid := Issuing(Job(mid, r.value, id, Lower(student)))];
        }
      }
    }

    method ConfirmStep(pid: nat, fate: Fate, now: int) returns (committed: bool)
      requires pid in procs && procs[pid].Confirming? ==> procs[pid].job.target.pin.Some?
      modifies this
      ensures State() == Confirmed(old(State()), pid, fate, now)
      ensures committed <==>
        && pid in old(procs) && old(procs[pid]).Confirming? && fate == Done
        && var j := old(procs[pid]).job; Confirm(old(Tables()), j.mid, j.target, j.id, j.email, now).Commit?
    {
      committed := false;
      if pid in procs && procs[pid].Confirming? {
        var j := procs[pid].job;
        var r: Result<()> := Err(Database);
        if fate != Lost {
          r := ConfirmTx(j.mid, j.target, j.id, j.email, now);
        }
        committed := r.Ok? && fate == Done;
        procs := if committed then procs - {pid} else procs[pid := Compensating(j, now)];
      }
    }

    method PrepareStep(pid: nat, fate: Fate)
      modifies this
      ensures State() == Prepared(old(State()), pid, fate)
    {
      if pid in procs && procs[pid].Compensating? {
        var p := procs[pid];
        var r: Result<bool> := Err(Database);
        if fate != Lost {
          r := PrepareTx(p.job.mid, p.job.target, p.job.id, p.at);
        }
        procs := if r.Ok? && fate == Done then procs[pid := Revoking(p.job, p.at)] else procs - {pid};
      }
    }

    method RevokeStep(pid: nat, ok: bool)
      modifies `procs, `acked
      ensures State() == RevokeReturned(old(State()), pid, ok)
    {
      var s := RevokeReturned(State(), pid, ok);
      procs, acked := s.procs, s.acked;
    }

    method FinishStep(pid: nat, fate: Fate) returns (committed: bool)
      modifies this
      ensures State() == Finished(old(State()), pid, fate)
      ensures committed ==> pid in old(procs) && old(procs[pid]).Finishing? && fate == Done
      ensures pid in old(procs) && old(procs[pid]).Finishing? && fate == Done ==>
        var p := old(procs[pid]);
        (committed <==> Finish(old(Tables()), p.job.mid, p.job.target, p.job.id, p.job.email, p.at, p.acked).Commit?)
    {
      committed := false;
      if pid in procs && procs[pid].Finishing? {
        var p := procs[pid];
        if fate != Lost {
          var matched := p.job.mid in machines && SameIdentity(machines[p.job.mid], p.job.target);
          var r := FinishTx(p.job.mid, p.job.target, p.job.id, p.job.email, p.at, p.acked);
          committed := r.Ok? && fate == Done;
          if r.Ok? && p.acked && matched { ended := ended + {(PinOf(p.job.target), p.job.id)}; }
        }
        procs := procs - {pid};
      }
    }

    method ExpireStep(pid: nat, fate: Fate) returns (r: Result<Verdict>)
      modifies this
      ensures State() == Expired(old(State()), pid, fate)
      ensures pid in old(procs) && old(procs[pid]).ExpireAcked? ==>
        var p := old(procs[pid]);
        var tx := ExpireCommit(old(Tables()), p.id, p.c.machine, p.target, p.c.email, p.at);
        r == if fate != Done then Err(Database) else if tx.Commit? then Ok(tx.value) else Err(tx.error)
    {
      r := Err(Database);
      if pid in procs && procs[pid].ExpireAcked? {
        var p := procs[pid];
        if fate != Lost {
          r := ExpireTx(p.id, p.c.machine, p.target, p.c.email, p.at);
          if r.Ok? && r.value in {Held, Freed} { ended := ended + {(PinOf(p.target), p.id)}; }
          if fate == Unsure { r := Err(Database); }
        }
        procs := procs - {pid};
      }
    }

    /** Any number of steps of other calls, reports and administration, while call `pid` waits; none if it is quiet. */
    method Others(pid: nat, quiet: bool)
      requires SysInv(State()) && pid in procs
      modifies this
      ensures SysInv(State())
      ensures pid in procs && procs[pid] == old(procs[pid])
      ensures quiet ==> State() == old(State())
    {
      var steps: nat := *;
      while steps > 0 && !quiet
        invariant SysInv(State())
        invariant pid in procs && procs[pid] == old(procs[pid])
        invariant quiet ==> State() == old(State())
      {
        var a: Action := *;
        if !Moves(a, pid) {
          OthersLeaveAlone(State(), a, pid);
          Step(a);
        }
        steps := steps - 1;
      }
    }

    /**
      * Checkout: reserve, issue over SSH, confirm; on any failure compensate. A password is handed out only when,
      * at the confirming commit, the credential is unrevoked and unopened and the machine is occupied, without a
      * hold and still the machine that was reserved. A refused reservation changes nothing; one whose commit is
      * reported as failed leaves the reservation whole or not at all. A completed compensation whose revoke was
      * acknowledged has revoked the credential and released the machine unless another generation is current or
      * held. When nothing else happens, a password is handed out exactly if the issue succeeds and no commit fails, and
      * a completed compensation frees the machine exactly if its revoke was acknowledged, and else holds it.
      */
    method Checkout(pid: nat, id: Id, mid: Id, student: string, now: int, expires: int, o: Course)
      returns (r: Result<()>, target: Machine)
      requires SysInv(State()) && pid !in procs && ValidId(id)
      modifies this
      ensures SysInv(State()) && pid !in procs
      ensures r.Ok? ==> o.issued && o.confirm == Done && Granted(Tables(), Job(mid, target, id, Lower(student)))
      ensures var tx := Reserve(old(Tables()), id, mid, student, now, expires);
        if tx.Abort? || o.reserve == Lost then
          r == Err(if tx.Abort? && o.reserve == Done then tx.error else Database) && State() == old(State())
        else if o.reserve == Unsure then r == Err(Database) && State() == old(State()).(db := tx.db)
        else target == tx.value && (r.Ok? || r.error in {ProvisioningFailed, ReconciliationRequired})
      ensures r == Err(ProvisioningFailed) ==>
        o.prepare == o.finish == Done && Settled(State(), Job(mid, target, id, Lower(student)), o.revoked)
      ensures o.quiet && o.reserve == Done && Reserve(old(Tables()), id, mid, student, now, expires).Commit? ==>
        if o.issued && o.confirm == Done then r.Ok?
        else if o.prepare != Done || o.finish != Done then r == Err(ReconciliationRequired)
        else r == Err(ProvisioningFailed) && LeftBehind(Tables(), mid, id, o.revoked)
    {
      target := Machine("", "", None, "", Offline, false, None, None);
      var reserved := Begin(pid, id, mid, student, now, expires, o.reserve);
      if reserved.Err? {
        return Err(reserved.error), target;
      }
      target := reserved.value;
      ReservedIsIntact(old(Tables()), id, mid, student, now, expires);
      var granted := AwaitIssue(pid, o);
      if granted {
        granted := AwaitConfirm(pid, o);
      }
      r := Ok(());
      if !granted {
        var e := Compensate(pid, o);
        r := Err(e);
      }
    }

    method Begin(pid: nat, id: Id, mid: Id, student: string, now: int, expires: int, fate: Fate)
      returns (r: Result<Machine>)
      requires SysInv(State()) && pid !in procs && ValidId(id)
      modifies this
      ensures SysInv(State())
      ensures var tx := Reserve(old(Tables()), id, mid, student, now, expires);
        && r == (if fate != Done then Err(Database) else if tx.Commit? then Ok(tx.value) else Err(tx.error))
        && Tables() == (if fate != Lost then After(old(Tables()), tx) else old(Tables()))
        && (if r.Ok? then pid in procs && procs[pid] == Issuing(Job(mid, tx.value, id, Lower(student)))
            else State() == old(State()).(db := Tables()))
    {
      ReservedKeeps(State(), pid, id, mid, student, now, expires, fate);
      r := ReserveStep(pid, id, mid, student, now, expires, fate);
    }

    /** The confirming commit, if it is reached and reported, hands out the password exactly if everything is intact. */
    method AwaitConfirm(pid: nat, o: Course) returns (granted: bool)
      requires SysInv(State()) && pid in procs && procs[pid].Confirming?
      modifies this
      ensures SysInv(State())
      ensures if granted then o.confirm == Done && pid !in procs && Granted(Tables(), old(procs[pid]).job)
              else pid in procs && procs[pid] == Compensating(old(procs[pid]).job, o.confirmAt)
      ensures var j := old(procs[pid]).job;
        && (!granted && o.confirm == Done ==> !Intact(Tables(), j.mid, j.target, j.id))
        && (o.quiet && Intact(old(Tables()), j.mid, j.target, j.id) ==>
              (granted <==> o.confirm == Done) && (!granted ==> Intact(Tables(), j.mid, j.target, j.id)))
    {
      Others(pid, o.quiet);
      var j := procs[pid].job;
      assert ProcOk(State(), procs[pid]);
      ConfirmedKeeps(State(), pid, o.confirm, o.confirmAt);
      ConfirmsExactlyTheIntact(Tables(), j.mid, j.target, j.id, j.email, o.confirmAt);
      if Intact(Tables(), j.mid, j.target, j.id) {
        ConfirmGrants(Tables(), j, o.confirmAt);
      }
      granted := ConfirmStep(pid, o.confirm, o.confirmAt);
    }

    /** Compensation: hold the generation, revoke it over SSH, release the machine if that was acknowledged. */
    method Compensate(pid: nat, o: Course) returns (e: Error)
      requires SysInv(State()) && pid in procs && procs[pid].Compensating?
      modifies this
      ensures SysInv(State()) && pid !in procs
      ensures e in {ProvisioningFailed, ReconciliationRequired}
      ensures e == ProvisioningFailed ==>
        o.prepare == o.finish == Done && Settled(State(), old(procs[pid]).job, o.revoked)
      ensures var j := old(procs[pid]).job;
        o.quiet && Intact(old(Tables()), j.mid, j.target, j.id) ==>
          && (e == ProvisioningFailed <==> o.prepare == o.finish == Done)
          && (e == ProvisioningFailed ==> LeftBehind(Tables(), j.mid, j.id, o.revoked))
    {
      QuietlyCompensated(State(), pid, o);
      var prepared := AwaitPrepare(pid, o);
      if !prepared {
        return ReconciliationRequired;
      }
      var _ := AwaitRevoke(pid, o.quiet, o.revoked);
      var committed := AwaitFinish(pid, o);
      e := if committed then ProvisioningFailed else ReconciliationRequired;
    }

    method AwaitPrepare(pid: nat, o: Course) returns (prepared: bool)
      requires SysInv(State()) && pid in procs && procs[pid].Compensating?
      modifies this
      ensures SysInv(State())
      ensures if prepared then o.prepare == Done && pid in procs
                               && procs[pid] == Revoking(old(procs[pid]).job, old(procs[pid]).at)
              else pid !in procs
      ensures o.quiet ==> State() == Prepared(old(State()), pid, o.prepare)
    {
      Others(pid, o.quiet);
      PreparedKeeps(State(), pid, o.prepare);
      PrepareStep(pid, o.prepare);
      prepared := pid in procs;
    }

    method AwaitFinish(pid: nat, o: Course) returns (committed: bool)
      requires SysInv(State()) && pid in procs && procs[pid].Finishing?
      modifies this
      ensures SysInv(State()) && pid !in procs
      ensures committed <==> o.finish == Done
      ensures committed ==> Settled(State(), old(procs[pid]).job, old(procs[pid]).acked)
      ensures o.quiet ==> State() == Finished(old(State()), pid, o.finish)
    {
      Others(pid, o.quiet);
      assert ProcOk(State(), procs[pid]);
      FinishedKeeps(State(), pid, o.finish);
      FinishSettles(State(), pid, o.finish);
      committed := FinishStep(pid, o.finish);
    }

    /** The remote revoke: it may be lost, fail, or be acknowledged by the desktop. */
    method AwaitRevoke(pid: nat, quiet: bool, acknowledged: bool) returns (going: bool)
      requires SysInv(State()) && pid in procs && (procs[pid].Revoking? || procs[pid].ExpireSending?)
      modifies this
      ensures SysInv(State())
      ensures going <==> pid in procs
      ensures match old(procs[pid])
        case Revoking(j, at) => going && procs[pid] == Finishing(j, at, acknowledged)
        case ExpireSending(id, c, target, at) =>
          (going <==> acknowledged) && (going ==> procs[pid] == ExpireAcked(id, c, target, at))
        case _ => false
      ensures quiet ==> State() == RevokeReturned(old(State()), pid, acknowledged)
    {
      Others(pid, quiet);
      RevokeReturnedKeeps(State(), pid, acknowledged);
      RevokeStep(pid, acknowledged);
      going := pid in procs;
    }

    /** The remote issue: it may be lost, fail, or be acknowledged by the desktop. */
    method AwaitIssue(pid: nat, o: Course) returns (issued: bool)
      requires SysInv(State()) && pid in procs && procs[pid].Issuing?
      modifies this
      ensures SysInv(State()) && pid in procs && issued == o.issued
      ensures procs[pid] == if issued then Confirming(old(procs[pid]).job)
                            else Compensating(old(procs[pid]).job, o.issueAt)
      ensures o.quiet ==> Tables() == old(Tables())
    {
      Others(pid, o.quiet);
      issued := o.issued;
      PositionStepKeeps(State(), IssueReturned(State(), pid, issued, o.issueAt), pid, "", issued, o.issueAt);
      procs := IssueReturned(State(), pid, issued, o.issueAt).procs;
    }

    /**
      * Expire: read the credential, read its machine, revoke over SSH, commit. `Freed` and `Held` are answered only
      * after the desktop behind the still stored pin acknowledged the revoke of exactly this generation; the other
      * answers say what the credential is now. When nothing else happens, a due credential of a pinned machine whose
      * revoke is acknowledged is revoked, and the machine freed exactly unless it is held for another generation.
      */
    method Expire(pid: nat, id: Id, now: int, quiet: bool, acknowledged: bool, fate: Fate)
      returns (r: Result<Verdict>)
      requires SysInv(State()) && pid !in procs
      modifies this
      ensures SysInv(State()) && pid !in procs
      ensures r.Ok? && r.value in {Held, Freed} ==>
        && acknowledged && fate == Done
        && id in creds && creds[id].revokedAt.Some? && creds[id].openedAt.None?
        && creds[id].machine in machines && machines[creds[id].machine].pin.Some?
        && (machines[creds[id].machine].pin.value, id) in acked
      ensures !Due(old(creds), id, now) ==>
        && State() == old(State())
        && r == Ok(if !Live(old(creds), id) then AlreadyReleased
                   else if old(creds)[id].openedAt.Some? then ActiveSession else Retry)
      ensures r == Ok(Freed) ==>
        machines[creds[id].machine].status == Available && machines[creds[id].machine].hold.None?
      ensures r == Ok(AlreadyReleased) ==>
        id !in creds || creds[id].revokedAt.Some? || (creds[id].openedAt.None? && creds[id].expires > now)
      ensures r == Ok(ActiveSession) ==> Live(creds, id) && creds[id].openedAt.Some?
      ensures fate == Done ==> r.Ok?
      ensures Due(old(creds), id, now) && !acknowledged ==> r == Ok(Retry)
      ensures quiet && Due(old(creds), id, now) && acknowledged && fate == Done ==>
        var m := old(machines)[old(creds)[id].machine];
        && r == Ok(if m.pin.None? then Retry else if m.hold.None? || m.hold == Some(id) then Freed else Held)
        && (m.pin.Some? ==> creds == old(creds)[id := old(creds)[id].(revokedAt := Some(now), version := 3)])
    {
      if id !in creds || creds[id].revokedAt.Some? {
        return Ok(AlreadyReleased);
      }
      if creds[id].openedAt.Some? {
        return Ok(ActiveSession);
      }
      if creds[id].expires > now {
        return Ok(Retry);
      }
      PositionStepKeeps(State(), ExpireStarted(State(), pid, id, now), pid, id, false, now);
      procs := ExpireStarted(State(), pid, id, now).procs;
      var pinned := AwaitMachine(pid, quiet);
      if !pinned {
        return Ok(Retry);
      }
      var going := AwaitRevoke(pid, quiet, acknowledged);
      if !going {
        return Ok(Retry);
      }
      r := CommitExpiry(pid, quiet, fate);
    }

    // The machine of a due credential is read.
    method AwaitMachine(pid: nat, quiet: bool) returns (pinned: bool)
      requires SysInv(State()) && pid in procs && procs[pid].ExpireSeen?
      modifies this
      ensures SysInv(State()) && (pinned <==> pid in procs)
      ensures var p := old(procs[pid]);
        && (pinned ==>
              procs[pid].ExpireSending? && procs[pid].id == p.id && procs[pid].c == p.c && procs[pid].at == p.at)
        && (quiet ==>
              && Tables() == old(Tables()) && p.c.machine in machines
              && (pinned <==> machines[p.c.machine].pin.Some?)
              && (pinned ==> procs[pid].target == machines[p.c.machine]))
    {
      Others(pid, quiet);
      assert ProcOk(State(), procs[pid]);
      PositionStepKeeps(State(), MachineRead(State(), pid), pid, "", false, 0);
      procs := MachineRead(State(), pid).procs;
      pinned := pid in procs;
    }

    // The last transaction of an expiry, after an acknowledged revoke.
    method CommitExpiry(pid: nat, quiet: bool, fate: Fate) returns (r: Result<Verdict>)
      requires SysInv(State()) && pid in procs && procs[pid].ExpireAcked?
      modifies this
      ensures SysInv(State()) && pid !in procs
      ensures Verdicts(State(), old(procs[pid]).id, old(procs[pid]).at, fate, r)
      ensures var p := old(procs[pid]);
        quiet && fate == Done && Due(old(creds), p.id, p.at) && p.c.machine in old(machines)
        && p.target == old(machines)[p.c.machine] ==>
          && r == Ok(if p.target.hold.None? || p.target.hold == Some(p.id) then Freed else Held)
          && creds == old(creds)[p.id := old(creds)[p.id].(revokedAt := Some(p.at), version := 3)]
    {
      Others(pid, quiet);
      assert ProcOk(State(), procs[pid]);
      ExpiredKeeps(State(), pid, fate);
      ExpiryAnswers(State(), pid, fate);
      ExpiresTheDue(State(), pid);
      r := ExpireStep(pid, fate);
    }
  }

  /** What an expiry's answer says about its credential `id`, read as due at `at`. */
  ghost predicate Verdicts(s: Sys, id: Id, at: int, fate: Fate, r: Result<Verdict>) {
    && (r.Ok? <==> fate == Done) && id in s.db.creds
    && var c := s.db.creds[id];
       && (r.Ok? && r.value in {Held, Freed} ==>
             && c.revokedAt.Some? && c.openedAt.None?
             && c.machine in s.db.machines && s.db.machines[c.machine].pin.Some?
             && (s.db.machines[c.machine].pin.value, id) in s.acked
             && (r.value == Freed ==>
                   s.db.machines[c.machine].status == Available && s.db.machines[c.machine].hold.None?))
       && (r == Ok(AlreadyReleased) ==> c.revokedAt.Some? || (c.openedAt.None? && c.expires > at))
       && (r == Ok(ActiveSession) ==> c.revokedAt.None? && c.openedAt.Some?)
  }

  lemma ExpiryAnswers(s: Sys, pid: nat, fate: Fate)
    requires pid in s.procs && s.procs[pid].ExpireAcked? && ProcOk(s, s.procs[pid]) && IndexesHold(s.db.creds)
    ensures var p := s.procs[pid];
      var tx := ExpireCommit(s.db, p.id, p.c.machine, p.target, p.c.email, p.at);
      Verdicts(Expired(s, pid, fate), p.id, p.at, fate,
               if fate != Done then Err(Database) else if tx.Commit? then Ok(tx.value) else Err(tx.error))
  {
    var p := s.procs[pid];
    ExpireTouchesOnlyItsOwn(s.db, p.id, p.c.machine, p.target, p.c.email, p.at);
  }

  lemma ExpiresTheDue(s: Sys, pid: nat)
    requires pid in s.procs && s.procs[pid].ExpireAcked? && ProcOk(s, s.procs[pid]) && IndexesHold(s.db.creds)
    ensures var p := s.procs[pid];
      Due(s.db.creds, p.id, p.at) && p.target == s.db.machines[p.c.machine] ==>
        var tx := ExpireCommit(s.db, p.id, p.c.machine, p.target, p.c.email, p.at);
        && tx.Commit? && tx.value == (if p.target.hold.None? || p.target.hold == Some(p.id) then Freed else Held)
        && tx.db.creds == s.db.creds[p.id := s.db.creds[p.id].(revokedAt := Some(p.at), version := 3)]
  {
    var p := s.procs[pid];
    ExpireTouchesOnlyItsOwn(s.db, p.id, p.c.machine, p.target, p.c.email, p.at);
  }

  /** What a completed compensation leaves when nothing else happened. */
  predicate LeftBehind(db: Db, mid: Id, id: Id, revoked: bool) {
    && mid in db.machines && id in db.creds && db.creds[id].machine == mid
    && if revoked
       then db.creds[id].revokedAt.Some? && db.machines[mid].status == Available && db.machines[mid].hold.None?
       else db.creds[id].revokedAt.None? && db.machines[mid].status == Occupied && db.machines[mid].hold == Some(id)
  }

  lemma QuietlyPrepared(db: Db, j: Job, at: int)
    requires Inv(db) && JobOk(db, j) && Intact(db, j.mid, j.target, j.id)
    ensures var tx := Prepare(db, j.mid, j.target, j.id, at);
      && tx.Commit? && LeftBehind(tx.db, j.mid, j.id, false) && Alone(tx.db.creds, j.mid, j.id)
      && SameIdentity(tx.db.machines[j.mid], j.target)
  {
    var tx := Prepare(db, j.mid, j.target, j.id, at);
    assert Alone(db.creds, j.mid, j.id);
    PreparesUnlessTaken(db, j.mid, j.target, j.id, at);
    PreparesExactly(db, j.mid, j.target, j.id, at, Some(j.id));
  }

  /** A compensation of an intact reservation, when nothing else happens. */
  lemma QuietlyCompensated(s: Sys, pid: nat, o: Course)
    requires SysInv(s) && pid in s.procs && s.procs[pid].Compensating?
    ensures var j := s.procs[pid].job;
      Intact(s.db, j.mid, j.target, j.id) && o.prepare == Done ==>
        var prepared := Prepared(s, pid, Done);
        && pid in prepared.procs
        && (o.finish == Done ==>
              LeftBehind(Finished(RevokeReturned(prepared, pid, o.revoked), pid, Done).db, j.mid, j.id, o.revoked))
  {
    var j, at := s.procs[pid].job, s.procs[pid].at;
    assert ProcOk(s, s.procs[pid]);
    if Intact(s.db, j.mid, j.target, j.id) {
      QuietlyPrepared(s.db, j, at);
      var prepared := Prepare(s.db, j.mid, j.target, j.id, at).db;
      FinishesExactly(prepared, j.mid, j.target, j.id, j.email, at, o.revoked);
    }
  }

  /** An unrevoked, unopened credential past its deadline. */
  predicate Due(creds: map<Id, Credential>, id: Id, now: int) {
    Live(creds, id) && creds[id].openedAt.None? && creds[id].expires <= now
  }

  /** The tables at a commit that hands out a password. */
  predicate Granted(db: Db, j: Job) {
    && j.target.pin.Some?
    && j.mid in db.machines && SameIdentity(db.machines[j.mid], j.target)
    && db.machines[j.mid].status == Occupied && db.machines[j.mid].hold.None?
    && j.id in db.creds && db.creds[j.id].machine == j.mid && db.creds[j.id].email == j.email
    && db.creds[j.id].revokedAt.None? && db.creds[j.id].openedAt.None? && db.creds[j.id].version == 1
    && Current(db.creds, j.mid) == {j.id}
  }

  /** Where a completed compensation leaves the tables. */
  predicate Settled(s: Sys, j: Job, acknowledged: bool) {
    && j.mid in s.db.machines
    && (acknowledged && SameIdentity(s.db.machines[j.mid], j.target) ==>
          && (PinOf(j.target), j.id) in s.acked
          && j.id in s.db.creds && s.db.creds[j.id].revokedAt.Some?
          && var m := s.db.machines[j.mid];
             || (m.status == Available && m.hold.None?)
             || (m.hold.Some? && m.hold.value != j.id)
             || Current(s.db.creds, j.mid) != {})
  }

  lemma FinishSettles(s: Sys, pid: nat, fate: Fate)
    requires pid in s.procs && s.procs[pid].Finishing? && ProcOk(s, s.procs[pid])
    ensures var p := s.procs[pid];
      Finish(s.db, p.job.mid, p.job.target, p.job.id, p.job.email, p.at, p.acked).Commit? && fate != Lost ==>
        Settled(Finished(s, pid, fate), p.job, p.acked)
  {
    var p := s.procs[pid];
    IdleHasNoCurrent(Revoked(s.db.creds, p.job.id, p.at), p.job.mid);
  }

  lemma ConfirmGrants(db: Db, j: Job, now: int)
    requires IndexesHold(db.creds) && AllCoupled(db.creds) && JobOk(db, j) && Intact(db, j.mid, j.target, j.id)
    ensures var tx := Confirm(db, j.mid, j.target, j.id, j.email, now);
      tx.Commit? && Granted(tx.db, j)
  {
    var after := Confirm(db, j.mid, j.target, j.id, j.email, now).db;
    ConfirmsExactlyTheIntact(db, j.mid, j.target, j.id, j.email, now);
    assert j.id in Current(db.creds, j.mid);
    CurrentAtMostOne(db, j.mid, j.id);
    assert Current(after.creds, j.mid) == Current(db.creds, j.mid);
  }

  /** The steps of call `pid` itself. */
  predicate Moves(a: Action, pid: nat) {
    match a
    case StartCheckout(p, _, _, _, _, _, _) => p == pid
    case IssueReturns(p, _, _) => p == pid
    case CommitConfirm(p, _, _) => p == pid
    case CommitPrepare(p, _) => p == pid
    case RevokeReturns(p, _) => p == pid
    case CommitFinish(p, _) => p == pid
    case StartExpire(p, _, _) => p == pid
    case ReadMachine(p) => p == pid
    case CommitExpire(p, _) => p == pid
    case Vanish(p) => p == pid
    case _ => false
  }

  lemma OthersLeaveAlone(s: Sys, a: Action, pid: nat)
    requires pid in s.procs && !Moves(a, pid)
    ensures pid in Next(s, a).procs && Next(s, a).procs[pid] == s.procs[pid]
  {
  }
}

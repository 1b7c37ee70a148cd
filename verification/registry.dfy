/** Enrolment, drained rekey and visibility of machines. */
module Registry {
  import opened Base
  import opened Tables

  /** A machine identity whose name, address and pin are already well formed. */
  datatype Identity = Identity(name: string, ip: string, pin: string)

  predicate Matches(m: Machine, v: Identity) {
    m.name == v.name || m.ip == v.ip || m.pin == Some(v.pin)
  }

  predicate Exactly(m: Machine, v: Identity) {
    m.name == v.name && m.ip == v.ip && m.pin == Some(v.pin)
  }

  ghost predicate TokenTaken(machines: map<Id, Machine>, token: string, except: set<Id>) {
    exists k :: k in machines && k !in except && machines[k].token == token
  }

  /** Enrolment answers with the token of the exact machine, inserts a new one, or refuses. */
  ghost function Enroll(db: Db, v: Identity, id: Id, token: string): Tx<string> {
    if exists k :: k in db.machines && Matches(db.machines[k], v) then
      if exists k :: k in db.machines && Exactly(db.machines[k], v)
                     && forall j | j in db.machines && j != k :: !Matches(db.machines[j], v) then
        var k :| k in db.machines && Exactly(db.machines[k], v)
                 && forall j | j in db.machines && j != k :: !Matches(db.machines[j], v);
        Commit(db, db.machines[k].token)
      else Abort(IdentityConflict)
    else if id in db.machines || TokenTaken(db.machines, token, {}) then Abort(IdentityConflict)
    else
      var m := Machine(v.name, v.ip, Some(v.pin), token, Offline, false, None, None);
      Commit(db.(machines := db.machines[id := m]), token)
  }

  /** The machines that share a name, an address or a pin with an identity decide an enrolment. */
  lemma EnrollByMatches(db: Db, v: Identity, id: Id, token: string, matches: set<Id>)
    requires matches == set k | k in db.machines && Matches(db.machines[k], v)
    ensures matches == {} ==>
      Enroll(db, v, id, token) ==
        if id in db.machines || TokenTaken(db.machines, token, {}) then Abort(IdentityConflict)
        else Commit(db.(machines := db.machines[id := Machine(v.name, v.ip, Some(v.pin), token, Offline, false, None,
                                                              None)]), token)
    ensures forall k | k in matches ::
      Enroll(db, v, id, token) ==
        if matches == {k} && Exactly(db.machines[k], v) then Commit(db, db.machines[k].token)
        else Abort(IdentityConflict)
  {
    assert forall k | k in db.machines && Matches(db.machines[k], v) :: k in matches;
    forall k | k in db.machines && Exactly(db.machines[k], v)
               && forall j | j in db.machines && j != k :: !Matches(db.machines[j], v)
      ensures matches == {k}
    {
    }
    if k :| k in matches && matches == {k} {
      assert forall j | j in db.machines && j != k :: j !in matches;
    }
  }

  predicate Identified(m: Machine, name: string, ip: string, pin: Option<string>) {
    m.name == name && m.ip == ip && m.pin == pin
  }

  ghost predicate Drained(db: Db, mid: Id) {
    && mid in db.machines && db.machines[mid].status == Available && db.machines[mid].hold.None?
    && Idle(db.creds, mid)
  }

  function Rekeyed(m: Machine, v: Identity, token: string): Machine {
    m.(name := v.name, ip := v.ip, pin := Some(v.pin), token := token, last := None, status := Offline)
  }

  /** Rekey replaces the identity of a drained machine whose present identity the caller names exactly. */
  ghost function Rekey(db: Db, mid: Id, expected: Machine, v: Identity, token: string, admin: string, now: int)
    : Tx<string>
  {
    if mid !in db.machines then Abort(NotFound)
    else if !Identified(db.machines[mid], expected.name, expected.ip, expected.pin) then Abort(IdentityChanged)
    else if !Drained(db, mid) then Abort(NotDrained)
    else if (exists k :: k in db.machines && k != mid && Matches(db.machines[k], v))
            || TokenTaken(db.machines, token, {mid}) then Abort(IdentityConflict)
    else Commit(Db(db.machines[mid := Rekeyed(db.machines[mid], v, token)], db.creds,
                   db.audit + [AuditRow(Some(mid), Some(admin), "machine_rekey", now)]), token)
  }

  /** Visibility never touches anything but the hidden flag. */
  function SetHidden(db: Db, mid: Id, hidden: bool, admin: string, now: int): Tx<bool> {
    if mid !in db.machines then Abort(NotFound)
    else if db.machines[mid].hidden == hidden then Commit(db, false)
    else
      var event := if hidden then "machine_hide" else "machine_restore";
      Commit(Db(db.machines[mid := db.machines[mid].(hidden := hidden)], db.creds,
                db.audit + [AuditRow(Some(mid), Some(admin), event, now)]), true)
  }

  lemma EnrollKeeps(db: Db, v: Identity, id: Id, token: string)
    requires Inv(db)
    ensures var tx := Enroll(db, v, id, token);
      tx.Commit? ==> Inv(tx.db) && RowsKept(db, tx.db)
  {
  }

  lemma RekeyKeeps(db: Db, mid: Id, expected: Machine, v: Identity, token: string, admin: string, now: int)
    requires Inv(db)
    ensures var tx := Rekey(db, mid, expected, v, token, admin, now);
      tx.Commit? ==> Inv(tx.db) && RowsKept(db, tx.db)
  {
    var tx := Rekey(db, mid, expected, v, token, admin, now);
    if tx.Commit? {
      RekeyKeepsUnique(db, tx.db, mid, v, token);
    }
  }

  lemma RekeyKeepsUnique(db: Db, after: Db, mid: Id, v: Identity, token: string)
    requires MachinesUnique(db.machines) && mid in db.machines
    requires after.machines == db.machines[mid := Rekeyed(db.machines[mid], v, token)]
    requires forall k | k in db.machines && k != mid :: !Matches(db.machines[k], v) && db.machines[k].token != token
    ensures MachinesUnique(after.machines)
  {
  }

  lemma SetHiddenKeeps(db: Db, mid: Id, hidden: bool, admin: string, now: int)
    requires Inv(db)
    ensures var tx := SetHidden(db, mid, hidden, admin, now);
      tx.Commit? ==> Inv(tx.db) && RowsKept(db, tx.db)
  {
    var tx := SetHidden(db, mid, hidden, admin, now);
    if tx.Commit? && tx.value {
      LocalKeepsInv(db, tx.db, mid);
    }
  }

  /** Enrolling the same identity again returns the same token and changes nothing. */
  lemma EnrollTwice(db: Db, v: Identity, id: Id, token: string, id2: Id, token2: string)
    requires Inv(db)
    requires Enroll(db, v, id, token).Commit?
    ensures var first := Enroll(db, v, id, token);
      Enroll(first.db, v, id2, token2) == Commit(first.db, first.value)
  {
    var first := Enroll(db, v, id, token);
    if first.db != db {
      assert Exactly(first.db.machines[id], v);
      assert forall j | j in first.db.machines && j != id :: !Matches(first.db.machines[j], v);
    } else {
      assert exists k :: k in db.machines && Matches(db.machines[k], v);
    }
  }
}

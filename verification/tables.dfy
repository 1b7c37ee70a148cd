/** The server's tables, the indexes SQLite enforces on them, and what every commit keeps. */
module Tables {
  import opened Base

  datatype Status = Available | Occupied | Offline

  datatype Machine = Machine(
    name: string, ip: string, pin: Option<string>, token: string,
    status: Status, hidden: bool, last: Option<int>, hold: Option<Id>)

  datatype Credential = Credential(
    machine: Id, email: string, created: int, expires: int,
    revokedAt: Option<int>, openedAt: Option<int>, version: int)

  datatype AuditRow = AuditRow(machine: Option<Id>, email: Option<string>, event: string, at: int)

  datatype Db = Db(machines: map<Id, Machine>, creds: map<Id, Credential>, audit: seq<AuditRow>)

  const EMPTY := Db(map[], map[], [])

  /** Why a call or a transaction gives up. */
  datatype Error =
    | BadReport | Unauthorized | NotFound
    | AlreadyReserved | NotAvailable | ReservationConflict
    | ReservationLost | GenerationLost
    | IdentityChanged | IdentityConflict | NotDrained
    | ReconciliationRequired | ProvisioningFailed
    | Database

  /** A transaction commits a new database with a value, or leaves the database alone. */
  datatype Tx<+T> = Commit(db: Db, value: T) | Abort(error: Error)

  function After<T>(db: Db, tx: Tx<T>): Db {
    if tx.Commit? then tx.db else db
  }

  function LowerChar(c: char): char {
    if 'A' <= c <= 'Z' then (c as int + 32) as char else c
  }

  /** The case folding both the code and the index on students apply. */
  function Lower(s: string): string {
    if s == "" then "" else [LowerChar(s[0])] + Lower(s[1..])
  }

  lemma {:induction false} LowerTwice(s: string)
    ensures Lower(Lower(s)) == Lower(s)
  {
    if s != "" {
      assert Lower(s)[1..] == Lower(s[1..]);
      LowerTwice(s[1..]);
    }
  }

  /** The rows of one machine that are not revoked. */
  function Current(creds: map<Id, Credential>, mid: Id): set<Id> {
    set id | id in creds && creds[id].machine == mid && creds[id].revokedAt.None?
  }

  predicate Live(creds: map<Id, Credential>, id: Id) {
    id in creds && creds[id].revokedAt.None?
  }

  /** No unrevoked credential on the machine. */
  ghost predicate Idle(creds: map<Id, Credential>, mid: Id) {
    forall id | Live(creds, id) :: creds[id].machine != mid
  }

  lemma IdleHasNoCurrent(creds: map<Id, Credential>, mid: Id)
    ensures Idle(creds, mid) <==> Current(creds, mid) == {}
  {
    if Current(creds, mid) == {} {
      forall id | Live(creds, id) ensures creds[id].machine != mid {
        assert id !in Current(creds, mid);
      }
    }
  }

  function RevokeAll(creds: map<Id, Credential>, mid: Id, now: int): (r: map<Id, Credential>)
    ensures r.Keys == creds.Keys
    ensures Idle(r, mid)
  {
    map id | id in creds ::
      if creds[id].machine == mid && creds[id].revokedAt.None?
      then creds[id].(revokedAt := Some(now), version := 3) else creds[id]
  }

  // The two partial unique indexes on unrevoked credentials.
  ghost predicate IndexesHold(creds: map<Id, Credential>) {
    forall a, b | Live(creds, a) && Live(creds, b) && a != b ::
      creds[a].machine != creds[b].machine && Lower(creds[a].email) != Lower(creds[b].email)
  }

  // The unique indexes on machines.
  ghost predicate MachinesUnique(machines: map<Id, Machine>) {
    forall a, b | a in machines && b in machines && a != b ::
      && machines[a].name != machines[b].name
      && machines[a].ip != machines[b].ip
      && machines[a].token != machines[b].token
      && (machines[a].pin.None? || machines[a].pin != machines[b].pin)
  }

  ghost predicate References(machines: map<Id, Machine>, creds: map<Id, Credential>) {
    forall id | id in creds :: creds[id].machine in machines
  }

  /** A machine that is not occupied has no hold and no unrevoked credential. */
  ghost predicate DrainedUnlessOccupied(machines: map<Id, Machine>, creds: map<Id, Credential>) {
    forall mid | mid in machines && machines[mid].status != Occupied :: machines[mid].hold.None? && Idle(creds, mid)
  }

  /** Version, revocation and opening say the same thing about a credential. */
  predicate Coupled(c: Credential) {
    && 0 <= c.version <= 3
    && (c.revokedAt.Some? <==> c.version == 3)
    && (c.revokedAt.None? ==> (c.openedAt.Some? <==> c.version == 2))
  }

  ghost predicate AllCoupled(creds: map<Id, Credential>) {
    forall id | id in creds :: Coupled(creds[id])
  }

  ghost predicate TablesInv(machines: map<Id, Machine>, creds: map<Id, Credential>) {
    && IndexesHold(creds)
    && MachinesUnique(machines)
    && References(machines, creds)
    && DrainedUnlessOccupied(machines, creds)
    && AllCoupled(creds)
  }

  ghost predicate Inv(db: Db) {
    TablesInv(db.machines, db.creds)
  }

  /** Rows are never deleted, and a credential keeps its machine and student. */
  ghost predicate RowsKept(a: Db, b: Db) {
    && a.machines.Keys <= b.machines.Keys
    && a.creds.Keys <= b.creds.Keys
    && forall id | id in a.creds ::
         b.creds[id].machine == a.creds[id].machine && b.creds[id].email == a.creds[id].email
  }

  /** What the startup check of the store counts: it asks less than `Inv` keeps. */
  ghost predicate StartupCheck(db: Db) {
    && (forall a, b | Live(db.creds, a) && Live(db.creds, b) && a != b :: db.creds[a].machine != db.creds[b].machine)
    && (forall a, b | Live(db.creds, a) && Live(db.creds, b) && a != b ::
          Lower(db.creds[a].email) != Lower(db.creds[b].email))
    && (forall mid | mid in db.machines && db.machines[mid].status == Available ::
          db.machines[mid].hold.None? && Idle(db.creds, mid))
  }

  /**
    * What one transaction on one machine does: identities and other machines stay, credentials change in place,
    * and a row becomes unrevoked only on that machine and only where the indexes allow it.
    */
  ghost predicate LocalTo(a: Db, b: Db, mid: Id) {
    && a.machines.Keys == b.machines.Keys
    && mid in a.machines
    && (forall k | k in a.machines && k != mid :: b.machines[k] == a.machines[k])
    && SameKeys(a.machines[mid], b.machines[mid])
    && a.creds.Keys == b.creds.Keys
    && (forall id | id in a.creds ::
          && b.creds[id].machine == a.creds[id].machine && b.creds[id].email == a.creds[id].email
          && Coupled(b.creds[id]))
    && (forall id | Live(b.creds, id) && !Live(a.creds, id) :: b.creds[id].machine == mid && IndexesAllow(b.creds, id))
    && (b.machines[mid].status != Occupied ==> b.machines[mid].hold.None? && Idle(b.creds, mid))
  }

  predicate SameKeys(m: Machine, n: Machine) {
    m.name == n.name && m.ip == n.ip && m.token == n.token && m.pin == n.pin
  }

  /** An unrevoked row is refused by an index when its machine or its student has another one. */
  ghost predicate IndexesAllow(creds: map<Id, Credential>, id: Id)
    requires id in creds
  {
    forall other | Live(creds, other) && other != id ::
      creds[other].machine != creds[id].machine && Lower(creds[other].email) != Lower(creds[id].email)
  }

  lemma LocalKeepsInv(a: Db, b: Db, mid: Id)
    requires Inv(a) && LocalTo(a, b, mid)
    ensures Inv(b) && RowsKept(a, b)
  {
    assert IndexesHold(b.creds) by {
      forall x, y | Live(b.creds, x) && Live(b.creds, y) && x != y
        ensures b.creds[x].machine != b.creds[y].machine && Lower(b.creds[x].email) != Lower(b.creds[y].email)
      {
        if !Live(a.creds, x) {
          assert IndexesAllow(b.creds, x);
        } else if !Live(a.creds, y) {
          assert IndexesAllow(b.creds, y);
        }
      }
    }
    assert DrainedUnlessOccupied(b.machines, b.creds) by {
      forall k | k in b.machines && k != mid && b.machines[k].status != Occupied ensures Idle(b.creds, k) {
        assert Idle(a.creds, k);
        forall id | Live(b.creds, id) ensures b.creds[id].machine != k {
          assert Live(a.creds, id) || b.creds[id].machine == mid;
        }
      }
    }
    assert MachinesUnique(b.machines) by {
      forall x, y | x in b.machines && y in b.machines && x != y
        ensures b.machines[x].name != b.machines[y].name && b.machines[x].ip != b.machines[y].ip
        ensures b.machines[x].token != b.machines[y].token
        ensures b.machines[x].pin.None? || b.machines[x].pin != b.machines[y].pin
      {
        assert SameKeys(a.machines[x], b.machines[x]) && SameKeys(a.machines[y], b.machines[y]);
      }
    }
  }

  /** The unrevoked credentials of the students with this lower-cased address. */
  function Holding(creds: map<Id, Credential>, email: string): set<Id> {
    set id | id in creds && Lower(creds[id].email) == email && creds[id].revokedAt.None?
  }

  lemma AtMostOne<T>(s: set<T>)
    ensures |s| <= 1 <==> forall a, b | a in s && b in s :: a == b
  {
    if s != {} {
      var x :| x in s;
      assert s == {x} + (s - {x});
      if y :| y in s - {x} {
        assert s == {x, y} + (s - {x, y});
      }
    }
  }

  lemma OnePerMachine(creds: map<Id, Credential>)
    ensures (forall mid :: |Current(creds, mid)| <= 1) <==>
      forall a, b | Live(creds, a) && Live(creds, b) && a != b :: creds[a].machine != creds[b].machine
  {
    forall mid ensures |Current(creds, mid)| <= 1 <==>
      forall a, b | a in Current(creds, mid) && b in Current(creds, mid) :: a == b
    {
      AtMostOne(Current(creds, mid));
    }
    if forall mid :: |Current(creds, mid)| <= 1 {
      forall a, b | Live(creds, a) && Live(creds, b) && a != b ensures creds[a].machine != creds[b].machine {
        assert a in Current(creds, creds[a].machine) && b in Current(creds, creds[b].machine);
      }
    }
  }

  lemma OnePerStudent(creds: map<Id, Credential>)
    ensures (forall email :: |Holding(creds, email)| <= 1) <==>
      forall a, b | Live(creds, a) && Live(creds, b) && a != b :: Lower(creds[a].email) != Lower(creds[b].email)
  {
    forall email ensures |Holding(creds, email)| <= 1 <==>
      forall a, b | a in Holding(creds, email) && b in Holding(creds, email) :: a == b
    {
      AtMostOne(Holding(creds, email));
    }
    if forall email :: |Holding(creds, email)| <= 1 {
      forall a, b | Live(creds, a) && Live(creds, b) && a != b
        ensures Lower(creds[a].email) != Lower(creds[b].email)
      {
        assert a in Holding(creds, Lower(creds[a].email)) && b in Holding(creds, Lower(creds[b].email));
      }
    }
  }

  /** The check counts: unrevoked rows by machine and by lower-cased address, and available machines with either. */
  lemma StartupCheckCounts(db: Db)
    ensures StartupCheck(db) <==>
      && (forall mid :: |Current(db.creds, mid)| <= 1) && (forall email :: |Holding(db.creds, email)| <= 1)
      && (forall mid | mid in db.machines && db.machines[mid].status == Available ::
            db.machines[mid].hold.None? && Current(db.creds, mid) == {})
  {
    OnePerMachine(db.creds);
    OnePerStudent(db.creds);
    forall mid ensures Idle(db.creds, mid) <==> Current(db.creds, mid) == {} {
      IdleHasNoCurrent(db.creds, mid);
    }
  }

  lemma InvPassesStartupCheck(db: Db)
    requires Inv(db)
    ensures StartupCheck(db)
  {
  }

  /** The startup check accepts tables that no run reaches: an offline machine with an unrevoked credential. */
  lemma StartupCheckAsksLess(db: Db, mid: Id, id: Id)
    requires mid in db.machines && db.machines[mid].status == Offline && db.machines.Keys == {mid}
    requires db.creds.Keys == {id} && Live(db.creds, id) && db.creds[id].machine == mid
    ensures StartupCheck(db) && !Inv(db)
  {
    assert !Idle(db.creds, mid);
  }

  /** At most one unrevoked credential per machine: the current set is empty or a singleton. */
  lemma CurrentAtMostOne(db: Db, mid: Id, id: Id)
    requires IndexesHold(db.creds) && id in Current(db.creds, mid)
    ensures Current(db.creds, mid) == {id}
  {
    forall other | other in Current(db.creds, mid) ensures other == id {
      assert Live(db.creds, other) && Live(db.creds, id);
    }
  }
}

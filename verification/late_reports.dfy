/**
  * Runs that end with a machine shown as available while its desktop is unlocked: a pending heartbeat of an ended
  * generation arrives late and takes away the credential of the next one, whose issue command is still under way; the
  * next safe heartbeat then frees the machine, and the issue command is carried out after that.
  */
module LateReports {
  import opened Base
  import opened Tables
  import opened Reservation
  import opened Webhook
  import opened Delivery
  import opened Registry
  import opened ServerRuns
  import opened Deadline
  import opened Joint

  /** The names in such a run: one machine, one student, two generations. */
  datatype Names = Names(name: string, ip: string, pin: string, token: string, mid: Id, student: string,
                         first: Id, second: Id)

  // ----- what is said and done -----

  function EmptyBeat(): Report {
    Report(None, None, Some(true), Some(false), None)
  }

  function PendingBeat(id: Id): Report {
    Report(Some(id), Some(1), Some(false), Some(false), Some(SaysPending))
  }

  function RevokedBeat(id: Id): Report {
    Report(Some(id), Some(3), Some(true), Some(false), Some(SaysRevoked))
  }

  // The desktop carries out an issue: the check of the marker, the record, the unlocked account, the end of the call.
  function Permitted(d: D.Desk): D.Desk {
    d.(permit := true)
  }

  function Recorded(d: D.Desk, id: Id): D.Desk {
    d.(record := Some(D.Record(id, 60, D.Pending, 1)))
  }

  function Opened(d: D.Desk): D.Desk {
    d.(locked := false)
  }

  function Left(d: D.Desk): D.Desk {
    d.(permit := false)
  }

  // It ends the generation at its deadline.
  function Locked(d: D.Desk): D.Desk {
    d.(locked := true)
  }

  function Buried(d: D.Desk, id: Id): D.Desk {
    d.(tombs := d.tombs + {id})
  }

  function Ended(d: D.Desk, id: Id): D.Desk {
    d.(record := Some(D.Record(id, 60, D.Revoked, 2)))
  }

  function FirstOpened(n: Names): D.Desk {
    Opened(Recorded(Permitted(D.FRESH), n.first))
  }

  function FirstEnded(n: Names): D.Desk {
    Ended(Buried(Locked(Left(FirstOpened(n))), n.first), n.first)
  }

  // ----- single steps -----

  /** What such a run is about: the machine, its credentials, its desktop, and the messages out. */
  datatype View = View(
    machine: Machine, creds: map<Id, Credential>, desk: D.Desk, issued: map<Id, Sent>,
    running: multiset<(nat, Id)>, posted: set<Report>, calls: nat)

  ghost function Hand(v: View): set<(Id, int)> {
    set x | x in v.running && x.0 == 0 && x.1 in v.issued :: (x.1, DeadlineOf(v.issued[x.1].expires))
  }

  ghost predicate Shows(w: World, n: Names, v: View) {
    && w.sys.db.machines == map[n.mid := v.machine]
    && v.machine.token == n.token && v.machine.pin == Some(n.pin)
    && w.sys.db.creds == v.creds
    && w.desks == map[0 := v.desk] && w.keys == map[n.pin := 0]
    && w.issued == v.issued && w.running == v.running
    && (forall r | r in v.posted :: (n.pin, Heartbeat, r) in w.reports)
    && (forall k | k in w.sys.procs :: k < v.calls)
  }

  lemma MoreMayMove(s: D.Desk, t: D.Desk, hand: set<(Id, int)>, revokes: set<Id>, logins: set<(Id, int)>)
    requires D.Commanded(s, t, hand, {}) && D.LoggedIn(s, t, {})
    ensures D.Commanded(s, t, hand, revokes) && D.LoggedIn(s, t, logins)
  {
  }

  lemma SameHand(w: World, n: Names, v: View)
    requires w.issued == v.issued && w.running == v.running
    ensures InHand(w, 0) == Hand(v)
  {
  }

  lemma DesktopMoves(w: World, n: Names, v: View, desk: D.Desk)
    requires Shows(w, n, v) && D.Legal(v.desk, desk)
    requires D.Commanded(v.desk, desk, Hand(v), {}) && D.LoggedIn(v.desk, desk, {})
    ensures Shows(Take(w, Desktop(0, desk)), n, v.(desk := desk))
  {
    assert Enabled(w, Desktop(0, desk)) by {
      SameHand(w, n, v);
      MoreMayMove(v.desk, desk, Hand(v), RevokedAt(w, 0), LoginsAt(w, 0));
    }
    assert Take(w, Desktop(0, desk)) == Moved(w, 0, desk);
    assert map[0 := v.desk][0 := desk] == map[0 := desk];
  }

  lemma DesktopPosts(w: World, n: Names, v: View, r: Report)
    requires Shows(w, n, v) && Genuine(v.desk, Heartbeat, r)
    ensures Shows(Take(w, Post(n.pin, Heartbeat, r)), n, v.(posted := v.posted + {r}))
  {
  }

  lemma DesktopTakesUp(w: World, n: Names, v: View, id: Id, now: int)
    requires Shows(w, n, v) && id in v.issued && v.issued[id].pin == n.pin
    requires InWindow(DeadlineOf(v.issued[id].expires), now)
    ensures var t := v.(running := v.running + multiset{(0, id)});
      Shows(Take(w, TakeUp(0, id, now)), n, t) && (id, DeadlineOf(v.issued[id].expires)) in Hand(t)
  {
    var t := v.(running := v.running + multiset{(0, id)});
    assert (0, id) in t.running;
  }

  lemma DeliveryChanges(db: Db, n: Names, r: Report, now: int, m: Machine, was: Machine)
    requires db.machines == map[n.mid := was] && was.token == n.token && ValidReport(r, Heartbeat)
    requires m == MachineAfter(was, n.mid, db.creds, CredsAfter(db.creds, n.mid, Heartbeat, r, now), Heartbeat, r, now)
    ensures var tx := Deliver(db, n.token, Heartbeat, r, now);
      && tx.Commit? && tx.db.machines == map[n.mid := m]
      && tx.db.creds == CredsAfter(db.creds, n.mid, Heartbeat, r, now)
  {
    assert Authenticates(db, n.token, n.mid);
    DeliverIsApply(db, n.token, Heartbeat, r, now, n.mid);
    assert map[n.mid := was][n.mid := m] == map[n.mid := m];
  }

  lemma ServerReceives(w: World, n: Names, v: View, r: Report, now: int, m: Machine, creds: map<Id, Credential>)
    requires Shows(w, n, v) && ValidReport(r, Heartbeat) && r in v.posted && SameKeys(v.machine, m)
    requires creds == CredsAfter(v.creds, n.mid, Heartbeat, r, now)
    requires m == MachineAfter(v.machine, n.mid, v.creds, creds, Heartbeat, r, now)
    ensures Shows(Take(w, Server(Receive(n.token, Heartbeat, r, now))), n, v.(machine := m, creds := creds))
  {
    DeliveryChanges(w.sys.db, n, r, now, m, v.machine);
    var a := Receive(n.token, Heartbeat, r, now);
    assert Truthful(w, a);
    assert Next(w.sys, a).procs == w.sys.procs;
  }

  function Row(n: Names, now: int, expires: int): Credential {
    Credential(n.mid, Lower(n.student), now, expires, None, None, 0)
  }

  lemma ReserveCommits(db: Db, n: Names, id: Id, m: Machine, now: int, expires: int)
    requires db.machines == map[n.mid := m] && id !in db.creds && (forall x :: !Live(db.creds, x)) && Reservable(m, now)
    ensures var tx := Reserve(db, id, n.mid, n.student, now, expires);
      && tx.Commit? && tx.value == m.(status := Occupied)
      && tx.db.machines == map[n.mid := m.(status := Occupied)]
      && tx.db.creds == db.creds[id := Row(n, now, expires)]
  {
  }

  function Lent(n: Names, v: View, id: Id, now: int, expires: int): View {
    v.(machine := v.machine.(status := Occupied), issued := v.issued[id := Sent(n.pin, expires)], calls := v.calls + 1,
       creds := v.creds[id := Row(n, now, expires)])
  }

  lemma CheckoutStarts(w: World, n: Names, v: View, id: Id, now: int, expires: int)
    requires Shows(w, n, v) && ValidId(id) && id !in v.creds && (forall x :: !Live(v.creds, x))
    requires Reservable(v.machine, now)
    ensures Shows(Take(w, Server(StartCheckout(v.calls, id, n.mid, n.student, now, expires, Done))), n,
                  Lent(n, v, id, now, expires))
  {
    ReserveCommits(w.sys.db, n, id, v.machine, now, expires);
  }

  // ----- the three reports of the run -----

  function Lab(n: Names, status: Status, last: Option<int>, hold: Option<Id>): Machine {
    Machine(n.name, n.ip, Some(n.pin), n.token, status, false, last, hold)
  }

  lemma EmptyBeatFrees(n: Names, now: int)
    ensures CredsAfter(map[], n.mid, Heartbeat, EmptyBeat(), now) == map[]
    ensures MachineAfter(Lab(n, Offline, None, None), n.mid, map[], map[], Heartbeat, EmptyBeat(), now)
            == Lab(n, Available, Some(now), None)
  {
  }

  lemma RevokedBeatFrees(n: Names, m: Machine, creds: map<Id, Credential>, now: int)
    requires ValidId(n.first) && n.first in creds && creds[n.first].machine == n.mid && m.pin.Some?
    requires creds[n.first].version == 3 ==> creds[n.first].revokedAt.Some?
    requires creds[n.first].version <= 3 && forall x | Live(creds, x) :: x == n.first
    ensures var after := CredsAfter(creds, n.mid, Heartbeat, RevokedBeat(n.first), now);
      && after.Keys == creds.Keys && (forall x :: !Live(after, x))
      && after[n.first].machine == n.mid && after[n.first].version == 3 && after[n.first].revokedAt.Some?
      && MachineAfter(m, n.mid, creds, after, Heartbeat, RevokedBeat(n.first), now)
         == m.(last := Some(now), hold := None, status := Available)
  {
    var after := CredsAfter(creds, n.mid, Heartbeat, RevokedBeat(n.first), now);
    assert KindOf(creds, n.mid, Heartbeat, RevokedBeat(n.first)) == Terminal;
    assert forall x | Live(after, x) :: Live(creds, x) && x != n.first;
    assert Idle(after, n.mid);
  }

  lemma LateBeatStrays(n: Names, m: Machine, creds: map<Id, Credential>, now: int)
    requires ValidId(n.first) && n.first in creds && creds[n.first].machine == n.mid
    requires creds[n.first].version == 3 && creds[n.first].revokedAt.Some?
    requires forall x | Live(creds, x) :: creds[x].machine == n.mid
    ensures var after := CredsAfter(creds, n.mid, Heartbeat, PendingBeat(n.first), now);
      && after.Keys == creds.Keys && (forall x :: !Live(after, x)) && after[n.first] == creds[n.first]
      && SameKeys(m, MachineAfter(m, n.mid, creds, after, Heartbeat, PendingBeat(n.first), now))
      && MachineAfter(m, n.mid, creds, after, Heartbeat, PendingBeat(n.first), now).last == Some(now)
  {
  }

  // ----- the run, in five parts -----

  function Preparation(n: Names): seq<Step> {
    [Install(0, n.pin),
     Server(EnrollMachine(Identity(n.name, n.ip, n.pin), n.mid, n.token)),
     Post(n.pin, Heartbeat, EmptyBeat()),
     Server(Receive(n.token, Heartbeat, EmptyBeat(), 0)),
     Server(StartCheckout(0, n.first, n.mid, n.student, 0, 60_000, Done))]
  }

  // A call takes up an issue, passes the check, writes the record and unlocks.
  function Issue(d: D.Desk, id: Id, now: int): seq<Step> {
    [TakeUp(0, id, now),
     Desktop(0, Permitted(d)),
     Desktop(0, Recorded(Permitted(d), id)),
     Desktop(0, Opened(Recorded(Permitted(d), id)))]
  }

  function FirstBeat(n: Names): seq<Step> {
    [Post(n.pin, Heartbeat, PendingBeat(n.first)),
     Desktop(0, Left(FirstOpened(n))),
     GiveUp(0, n.first)]
  }

  function FirstEnd(n: Names): seq<Step> {
    [Desktop(0, Locked(Left(FirstOpened(n)))),
     Desktop(0, Buried(Locked(Left(FirstOpened(n))), n.first)),
     Desktop(0, FirstEnded(n)),
     Post(n.pin, Heartbeat, RevokedBeat(n.first)),
     Server(Receive(n.token, Heartbeat, RevokedBeat(n.first), 1))]
  }

  function LateBeat(n: Names): seq<Step> {
    [Server(StartCheckout(1, n.second, n.mid, n.student, 1, 60_001, Done)),
     Server(Receive(n.token, Heartbeat, PendingBeat(n.first), 2)),
     Server(Receive(n.token, Heartbeat, RevokedBeat(n.first), 3))]
  }

  function Run(n: Names): seq<Step> {
    Preparation(n) + Issue(D.FRESH, n.first, 0) + FirstBeat(n) + FirstEnd(n) + LateBeat(n)
      + Issue(FirstEnded(n), n.second, 1)
  }

  lemma PlayTwo(w: World, a: Step, b: Step)
    ensures Play(w, [a, b]) == Take(Take(w, a), b)
  {
    assert [a, b][1..] == [b] && [b][1..] == [];
    assert Play(Take(w, a), [b]) == Play(Take(Take(w, a), b), []);
  }

  lemma PlayThree(w: World, a: Step, b: Step, c: Step)
    ensures Play(w, [a, b, c]) == Take(Take(Take(w, a), b), c)
  {
    assert [a, b, c][1..] == [b, c];
    PlayTwo(Take(w, a), b, c);
  }

  lemma PlayFour(w: World, a: Step, b: Step, c: Step, d: Step)
    ensures Play(w, [a, b, c, d]) == Take(Take(Take(Take(w, a), b), c), d)
  {
    assert [a, b, c, d][1..] == [b, c, d];
    PlayThree(Take(w, a), b, c, d);
  }

  lemma PlayFive(w: World, a: Step, b: Step, c: Step, d: Step, e: Step)
    ensures Play(w, [a, b, c, d, e]) == Take(Take(Take(Take(Take(w, a), b), c), d), e)
  {
    assert [a, b, c, d, e][1..] == [b, c, d, e];
    PlayFour(Take(w, a), b, c, d, e);
  }

  function Enrolled(n: Names): View {
    View(Lab(n, Offline, None, None), map[], D.FRESH, map[], multiset{}, {}, 0)
  }

  lemma Begins(n: Names)
    ensures var s := Preparation(n);
      Shows(Take(Take(BEGIN, s[0]), s[1]), n, Enrolled(n))
  {
    var w := Take(BEGIN, Preparation(n)[0]);
    assert w == BEGIN.(desks := map[0 := D.FRESH], keys := map[n.pin := 0]);
    var m := Lab(n, Offline, None, None);
    assert Enroll(w.sys.db, Identity(n.name, n.ip, n.pin), n.mid, n.token)
           == Commit(w.sys.db.(machines := map[n.mid := m]), n.token);
  }

  function Prepared(n: Names): View {
    Lent(n, Enrolled(n).(machine := Lab(n, Available, Some(0), None), posted := {EmptyBeat()}), n.first, 0, 60_000)
  }

  lemma Prepares(n: Names)
    requires ValidId(n.first)
    ensures Shows(Play(BEGIN, Preparation(n)), n, Prepared(n))
  {
    var s := Preparation(n);
    PlayFive(BEGIN, s[0], s[1], s[2], s[3], s[4]);
    assert s == [s[0], s[1], s[2], s[3], s[4]];
    Begins(n);
    var w := Take(Take(BEGIN, s[0]), s[1]);
    var v := Enrolled(n);
    DesktopPosts(w, n, v, EmptyBeat());
    w, v := Take(w, s[2]), v.(posted := {EmptyBeat()});
    EmptyBeatFrees(n, 0);
    ServerReceives(w, n, v, EmptyBeat(), 0, Lab(n, Available, Some(0), None), map[]);
    w, v := Take(w, s[3]), v.(machine := Lab(n, Available, Some(0), None));
    CheckoutStarts(w, n, v, n.first, 0, 60_000);
  }

  /** An issue may replace what this desktop has on record. */
  predicate Ready(d: D.Desk, id: Id) {
    && d.locked && !d.retired && d.marker.None? && id !in d.tombs
    && (d.record.Some? ==>
          d.record.value.phase == D.Revoked && d.record.value.id != id && d.record.value.id in d.tombs)
  }

  lemma IssueIsLegal(d: D.Desk, id: Id)
    requires ValidId(id) && Ready(d, id)
    ensures var recorded := Recorded(Permitted(d), id);
      D.Legal(d, Permitted(d)) && D.Legal(Permitted(d), recorded) && D.Legal(recorded, Opened(recorded))
  {
    var recorded := Recorded(Permitted(d), id);
    assert D.Administered(d, Permitted(d)) && D.Wrote(Permitted(d), recorded) && D.Unlocked(recorded, Opened(recorded));
  }

  lemma Issues(w: World, n: Names, v: View, id: Id, now: int)
    requires ValidId(id) && Shows(w, n, v) && Ready(v.desk, id)
    requires id in v.issued && v.issued[id].pin == n.pin && DeadlineOf(v.issued[id].expires) == 60 && now in {0, 1}
    ensures Shows(Play(w, Issue(v.desk, id, now)), n,
                  v.(desk := Opened(Recorded(Permitted(v.desk), id)), running := v.running + multiset{(0, id)}))
  {
    var s := Issue(v.desk, id, now);
    PlayFour(w, s[0], s[1], s[2], s[3]);
    assert s == [s[0], s[1], s[2], s[3]];
    IssueIsLegal(v.desk, id);
    DesktopTakesUp(w, n, v, id, now);
    var w1, v1 := Take(w, s[0]), v.(running := v.running + multiset{(0, id)});
    var v2 := v1.(desk := Permitted(v.desk));
    var v3 := v1.(desk := Recorded(Permitted(v.desk), id));
    assert Hand(v1) == Hand(v2) == Hand(v3);
    DesktopMoves(w1, n, v1, v2.desk);
    DesktopMoves(Take(w1, s[1]), n, v2, v3.desk);
    DesktopMoves(Take(Take(w1, s[1]), s[2]), n, v3, Opened(v3.desk));
  }

  lemma BeatsFirst(w: World, n: Names, v: View)
    requires Shows(w, n, v) && v.desk == FirstOpened(n) && (0, n.first) in v.running
    ensures Shows(Play(w, FirstBeat(n)), n,
                  v.(desk := Left(FirstOpened(n)), posted := v.posted + {PendingBeat(n.first)},
                     running := v.running - multiset{(0, n.first)}))
  {
    var s := FirstBeat(n);
    PlayThree(w, s[0], s[1], s[2]);
    assert s == [s[0], s[1], s[2]];
    assert D.Administered(FirstOpened(n), Left(FirstOpened(n)));
    DesktopPosts(w, n, v, PendingBeat(n.first));
    DesktopMoves(Take(w, s[0]), n, v.(posted := v.posted + {PendingBeat(n.first)}), Left(FirstOpened(n)));
  }

  lemma EndsFirst(w: World, n: Names, v: View, m: Machine, creds: map<Id, Credential>)
    requires ValidId(n.first) && Shows(w, n, v) && v.desk == Left(FirstOpened(n)) && SameKeys(v.machine, m)
    requires creds == CredsAfter(v.creds, n.mid, Heartbeat, RevokedBeat(n.first), 1)
    requires m == MachineAfter(v.machine, n.mid, v.creds, creds, Heartbeat, RevokedBeat(n.first), 1)
    ensures Shows(Play(w, FirstEnd(n)), n,
                  v.(desk := FirstEnded(n), posted := v.posted + {RevokedBeat(n.first)}, machine := m, creds := creds))
  {
    var s := FirstEnd(n);
    PlayFive(w, s[0], s[1], s[2], s[3], s[4]);
    assert s == [s[0], s[1], s[2], s[3], s[4]];
    var locked := Locked(v.desk);
    var buried := Buried(locked, n.first);
    assert D.Locked(v.desk, locked) && D.Buried(locked, buried, n.first) && D.Wrote(buried, FirstEnded(n));
    DesktopMoves(w, n, v, locked);
    DesktopMoves(Take(w, s[0]), n, v.(desk := locked), buried);
    DesktopMoves(Take(Take(w, s[0]), s[1]), n, v.(desk := buried), FirstEnded(n));
    var w3, v3 := Take(Take(Take(w, s[0]), s[1]), s[2]), v.(desk := FirstEnded(n));
    DesktopPosts(w3, n, v3, RevokedBeat(n.first));
    var w4, v4 := Take(w3, s[3]), v3.(posted := v.posted + {RevokedBeat(n.first)});
    ServerReceives(w4, n, v4, RevokedBeat(n.first), 1, m, creds);
  }

  // Lent again, and robbed of its credential by the late beat.
  lemma LendsAndStrays(w: World, n: Names, v: View) returns (t: View)
    requires ValidId(n.first) && ValidId(n.second) && n.first != n.second && Shows(w, n, v) && v.calls == 1
    requires v.creds.Keys == {n.first} && v.creds[n.first].machine == n.mid
    requires v.creds[n.first].version == 3 && v.creds[n.first].revokedAt.Some?
    requires v.machine == Lab(n, Available, Some(1), None) && PendingBeat(n.first) in v.posted
    ensures var s := LateBeat(n); Shows(Take(Take(w, s[0]), s[1]), n, t)
    ensures SameKeys(v.machine, t.machine) && n.first in t.creds && t.creds[n.first] == v.creds[n.first]
    ensures (forall x :: !Live(t.creds, x)) && t.posted == v.posted
    ensures t.desk == v.desk && t.issued == v.issued[n.second := Sent(n.pin, 60_001)]
  {
    var s := LateBeat(n);
    CheckoutStarts(w, n, v, n.second, 1, 60_001);
    t := Lent(n, v, n.second, 1, 60_001);
    LateBeatStrays(n, t.machine, t.creds, 2);
    var creds := CredsAfter(t.creds, n.mid, Heartbeat, PendingBeat(n.first), 2);
    var m := MachineAfter(t.machine, n.mid, t.creds, creds, Heartbeat, PendingBeat(n.first), 2);
    ServerReceives(Take(w, s[0]), n, t, PendingBeat(n.first), 2, m, creds);
    t := t.(machine := m, creds := creds);
  }

  // Freed again by the safe beat.
  lemma FreesLate(w: World, n: Names, v: View) returns (t: View)
    requires ValidId(n.first) && ValidId(n.second) && n.first != n.second && Shows(w, n, v) && v.calls == 1
    requires v.creds.Keys == {n.first} && v.creds[n.first].machine == n.mid
    requires v.creds[n.first].version == 3 && v.creds[n.first].revokedAt.Some?
    requires v.machine == Lab(n, Available, Some(1), None)
    requires PendingBeat(n.first) in v.posted && RevokedBeat(n.first) in v.posted
    ensures Shows(Play(w, LateBeat(n)), n, t)
    ensures t.machine.status == Available && t.machine.hold.None? && (forall x :: !Live(t.creds, x))
    ensures t.desk == v.desk && t.issued == v.issued[n.second := Sent(n.pin, 60_001)]
  {
    var s := LateBeat(n);
    PlayThree(w, s[0], s[1], s[2]);
    assert s == [s[0], s[1], s[2]];
    t := LendsAndStrays(w, n, v);
    RevokedBeatFrees(n, t.machine, t.creds, 3);
    var creds := CredsAfter(t.creds, n.mid, Heartbeat, RevokedBeat(n.first), 3);
    var m := MachineAfter(t.machine, n.mid, t.creds, creds, Heartbeat, RevokedBeat(n.first), 3);
    ServerReceives(Take(Take(w, s[0]), s[1]), n, t, RevokedBeat(n.first), 3, m, creds);
    t := t.(machine := m, creds := creds);
  }

  // Up to the end of the first generation.
  lemma FirstHalf(n: Names) returns (v: View)
    requires ValidId(n.first)
    ensures Shows(Play(Play(Play(Play(BEGIN, Preparation(n)), Issue(D.FRESH, n.first, 0)), FirstBeat(n)), FirstEnd(n)),
                  n, v)
    ensures v.calls == 1 && v.creds.Keys == {n.first} && v.creds[n.first].machine == n.mid
    ensures v.creds[n.first].version == 3 && v.creds[n.first].revokedAt.Some?
    ensures v.machine == Lab(n, Available, Some(1), None) && v.desk == FirstEnded(n)
    ensures PendingBeat(n.first) in v.posted && RevokedBeat(n.first) in v.posted
  {
    var w1 := Play(BEGIN, Preparation(n));
    Prepares(n);
    var w2 := Play(w1, Issue(D.FRESH, n.first, 0));
    Issues(w1, n, Prepared(n), n.first, 0);
    BeatsFirst(w2, n, Prepared(n).(desk := FirstOpened(n),
                                   running := Prepared(n).running + multiset{(0, n.first)}));
    var w3 := Play(w2, FirstBeat(n));
    v := Prepared(n).(desk := Left(FirstOpened(n)), posted := Prepared(n).posted + {PendingBeat(n.first)});
    assert v.running == Prepared(n).running + multiset{(0, n.first)} - multiset{(0, n.first)};
    RevokedBeatFrees(n, v.machine, v.creds, 1);
    var creds := CredsAfter(v.creds, n.mid, Heartbeat, RevokedBeat(n.first), 1);
    var m := MachineAfter(v.machine, n.mid, v.creds, creds, Heartbeat, RevokedBeat(n.first), 1);
    EndsFirst(w3, n, v, m, creds);
    v := v.(desk := FirstEnded(n), posted := v.posted + {RevokedBeat(n.first)}, machine := m, creds := creds);
  }

  /**
    * Available does not imply locked: at the end of this run the server shows the machine as available, without a
    * hold and without an unrevoked credential, while the desktop behind its pin is unlocked.
    */
  lemma AvailableButUnlocked(n: Names)
    requires ValidId(n.first) && ValidId(n.second) && n.first != n.second
    ensures var w := Play(BEGIN, Run(n));
      && n.mid in w.sys.db.machines && w.sys.db.machines[n.mid].pin == Some(n.pin)
      && w.sys.db.machines[n.mid].status == Available && w.sys.db.machines[n.mid].hold.None?
      && Idle(w.sys.db.creds, n.mid)
      && Behind(w.keys, n.pin, 0) && 0 in w.desks && !w.desks[0].locked
  {
    RunInParts(n);
    var v4 := FirstHalf(n);
    var w4 := Play(Play(Play(Play(BEGIN, Preparation(n)), Issue(D.FRESH, n.first, 0)), FirstBeat(n)), FirstEnd(n));
    var v5 := FreesLate(w4, n, v4);
    Issues(Play(w4, LateBeat(n)), n, v5, n.second, 1);
  }

  lemma RunInParts(n: Names)
    ensures Play(BEGIN, Run(n)) ==
      Play(Play(Play(Play(Play(Play(BEGIN, Preparation(n)), Issue(D.FRESH, n.first, 0)), FirstBeat(n)), FirstEnd(n)),
                LateBeat(n)), Issue(FirstEnded(n), n.second, 1))
  {
    var issue, last := Issue(D.FRESH, n.first, 0), Issue(FirstEnded(n), n.second, 1);
    PlayJoined(BEGIN, Preparation(n), issue);
    PlayJoined(BEGIN, Preparation(n) + issue, FirstBeat(n));
    PlayJoined(BEGIN, Preparation(n) + issue + FirstBeat(n), FirstEnd(n));
    PlayJoined(BEGIN, Preparation(n) + issue + FirstBeat(n) + FirstEnd(n), LateBeat(n));
    PlayJoined(BEGIN, Preparation(n) + issue + FirstBeat(n) + FirstEnd(n) + LateBeat(n), last);
  }

  lemma {:induction false} PlayJoined(w: World, a: seq<Step>, b: seq<Step>)
    ensures Play(w, a + b) == Play(Play(w, a), b)
    decreases |a|
  {
    if a == [] {
      assert a + b == b;
    } else {
      assert (a + b)[1..] == a[1..] + b;
      PlayJoined(Take(w, a[0]), a[1..], b);
    }
  }

  const SAMPLE := Names("lab-1", "100.64.0.1", "SHA256:pin", "token", "machine", "student",
                        "first_generation_____", "second_generation____")

  /** One such run, with every name spelled out. */
  lemma SampleRun()
    ensures var w := Play(BEGIN, Run(SAMPLE));
      && SAMPLE.mid in w.sys.db.machines && w.sys.db.machines[SAMPLE.mid].status == Available
      && Behind(w.keys, SAMPLE.pin, 0) && 0 in w.desks && !w.desks[0].locked
  {
    var n := SAMPLE;
    AvailableButUnlocked(n);
  }
}

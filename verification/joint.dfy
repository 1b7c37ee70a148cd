/**
  * Server and desktops together. A remote command is a message that may arrive late, more than once, out of order or
  * never: once the server has sent it, the desktop may take it up at any later moment, and whatever it has taken up it
  * may carry out at any moment until it gives up. Replies and reports travel the same way. Every other server step and
  * every other desktop effect may fall in between.
  */
module Joint {
  import opened Base
  import opened Tables
  import opened Reservation
  import opened Webhook
  import opened Delivery
  import opened ServerRuns
  import opened ServerHistory
  import opened Deadline
  import D = DesktopHistory
  import O = OutboxQueue
  import R = Desktop

  /** An issue command: the pin it was sent to, and the expiry its deadline was computed from. */
  datatype Sent = Sent(pin: string, expires: int)

  /**
    * `keys` holds the desktop behind every pin there ever was: a desktop whose host key is replaced keeps its state
    * under a new pin. `bound` holds the pin of the machine each generation was reserved on, `issued` the issue and
    * `revokes` the revoke commands ever sent, `acks` the acknowledgements given to revokes, `running` the issue
    * commands that calls on a desktop have taken up and not finished with, `logins` every login accepted and its
    * time, `activated` every generation that became active and where, `reports` every report ever posted and the pin
    * under which.
    */
  datatype World = World(
    sys: Sys, desks: map<nat, D.Desk>, keys: map<string, nat>,
    bound: map<Id, string>, issued: map<Id, Sent>, revokes: set<(string, Id)>, acks: set<(string, Id)>,
    running: multiset<(nat, Id)>, logins: set<(nat, Id, int)>, activated: set<(nat, Id)>,
    reports: set<(string, Endpoint, Report)>)

  const BEGIN := World(START, map[], map[], map[], map[], {}, {}, multiset{}, {}, {}, {})

  datatype Step =
    | Server(a: Action)
    | Install(host: nat, pin: string)
    | NewKey(host: nat, pin: string)
    | TakeUp(host: nat, id: Id, now: int)
    | GiveUp(host: nat, id: Id)
    | Login(host: nat, id: Id, now: int)
    | Desktop(host: nat, desk: D.Desk)
    | Acknowledge(pin: string, id: Id)
    | Post(pin: string, ep: Endpoint, r: Report)

  // ----- what connects the two sides -----

  /** The generation and pin a running call has a revoke command out for. */
  function Revokes(p: Proc): Option<(string, Id)> {
    match p
    case Revoking(j, _) => Some((PinOf(j.target), j.id))
    case ExpireSending(id, _, target, _) => Some((PinOf(target), id))
    case _ => None
  }

  /** An acknowledgement reaches the server only if the desktop gave it; a posted report only if it was posted. */
  ghost predicate Truthful(w: World, a: Action) {
    match a
    case RevokeReturns(pid, ok) =>
      ok && pid in w.sys.procs && Revokes(w.sys.procs[pid]).Some? ==> Revokes(w.sys.procs[pid]).value in w.acks
    case Receive(token, ep, r, _) =>
      forall mid | Authenticates(w.sys.db, token, mid) ::
        w.sys.db.machines[mid].pin.Some? && (w.sys.db.machines[mid].pin.value, ep, r) in w.reports
    case _ => true
  }

  /** The desktop with this pin. */
  predicate Behind(keys: map<string, nat>, pin: string, host: nat) {
    pin in keys && keys[pin] == host
  }

  /** An issue command for the generation was sent to this desktop. */
  predicate SentTo(keys: map<string, nat>, issued: map<Id, Sent>, host: nat, id: Id) {
    id in issued && Behind(keys, issued[id].pin, host)
  }

  /** The issue commands in hand on a desktop, with their deadlines. */
  ghost function InHand(w: World, host: nat): set<(Id, int)> {
    set x | x in w.running && x.0 == host && x.1 in w.issued :: (x.1, DeadlineOf(w.issued[x.1].expires))
  }

  function RevokedAt(w: World, host: nat): set<Id> {
    set x | x in w.revokes && Behind(w.keys, x.0, host) :: x.1
  }

  function LoginsAt(w: World, host: nat): set<(Id, int)> {
    set x | x in w.logins && x.0 == host :: (x.1, x.2)
  }

  /** The effect rests on a command in hand, a revoke that was sent, a login that was accepted. */
  ghost predicate Backed(w: World, host: nat, desk: D.Desk)
    requires host in w.desks
  {
    && D.Commanded(w.desks[host], desk, InHand(w, host), RevokedAt(w, host))
    && D.LoggedIn(w.desks[host], desk, LoginsAt(w, host))
  }

  /** What a desktop may post in its present state. */
  predicate Genuine(desk: D.Desk, ep: Endpoint, r: Report) {
    match ep
    case SessionOpen => r.id.Some? && O.Opened(r.id.value) in desk.events
    case SessionClose => r.id.Some? && O.Closed(r.id.value) in desk.events
    case CredentialExpired => r.id.Some? && O.TimedOut(r.id.value) in desk.events
    case Heartbeat =>
      && r.locked == Some(desk.locked)
      && if r.id.None? then desk.record.None?
         else
           match r.state
           case Some(SaysPending) => D.Holds(desk, r.id.value, D.Pending)
           case Some(SaysActive) => D.Holds(desk, r.id.value, D.Active)
           case Some(SaysRevoked) => D.Holds(desk, r.id.value, D.Revoked)
           case _ => false
  }

  /** The heartbeat posted for an observation of the desktop. */
  function BeatReport(b: R.Beat): Report {
    match b.record
    case None => Report(None, None, Some(b.locked), Some(b.active), None)
    case Some(r) =>
      match r.phase
      case Pending => Report(Some(r.id), Some(1), Some(b.locked), Some(b.active), Some(SaysPending))
      case Active => Report(Some(r.id), Some(2), Some(b.locked), Some(b.active), Some(SaysActive))
      case Revoked => Report(Some(r.id), Some(3), Some(b.locked), Some(b.active), Some(SaysRevoked))
  }

  /** The report posted for an event of the outbox. */
  function EventReport(e: O.Event): (Endpoint, Report) {
    match e
    case Opened(id) => (SessionOpen, Report(Some(id), Some(2), None, None, None))
    case Closed(id) => (SessionClose, Report(Some(id), Some(3), None, None, None))
    case TimedOut(id) => (CredentialExpired, Report(Some(id), Some(3), None, None, None))
  }

  /**
    * What the helper observes is posted truthfully, and the server accepts it exactly when a session is seen just
    * for an active record and the account is locked just for a revoked one.
    */
  lemma BeatIsGenuine(desk: D.Desk, b: R.Beat)
    requires D.DeskInv(desk) && b.record == desk.record && b.locked == desk.locked
    ensures Genuine(desk, Heartbeat, BeatReport(b))
    ensures ValidReport(BeatReport(b), Heartbeat) <==>
      match desk.record
      case None => !b.active
      case Some(r) => (r.phase == D.Active <==> b.active) && (r.phase == D.Revoked <==> desk.locked)
  {
  }

  /** An observation that makes sense: a session is seen just for an active record, the lock just for a revoked one. */
  predicate Coherent(b: R.Beat) {
    match b.record
    case None => !b.active
    case Some(r) => ValidId(r.id) && (r.phase == D.Active <==> b.active) && (r.phase == D.Revoked <==> b.locked)
  }

  /** The heartbeats the server accepts are exactly those of coherent observations. */
  lemma BeatsAreExact(r: Report)
    ensures ValidReport(r, Heartbeat) <==> exists b: R.Beat :: Coherent(b) && r == BeatReport(b)
  {
    if ValidReport(r, Heartbeat) {
      var phase := if r.state == Some(SaysPending) then D.Pending
                   else if r.state == Some(SaysActive) then D.Active else D.Revoked;
      var record := if r.id.None? then None else Some(D.Record(r.id.value, 0, phase, 0));
      var b := R.Beat(record, r.locked.value, r.active.value);
      assert Coherent(b) && r == BeatReport(b);
    }
  }

  /** The other reports it accepts are exactly those of some event, whatever else they say. */
  lemma EventsAreExact(ep: Endpoint, r: Report)
    requires ep != Heartbeat
    ensures ValidReport(r, ep) <==>
      exists e: O.Event :: ValidId(e.id) && EventReport(e) == (ep, Report(r.id, r.version, None, None, None))
  {
    if ValidReport(r, ep) {
      var e := if ep == SessionOpen then O.Opened(r.id.value)
               else if ep == SessionClose then O.Closed(r.id.value) else O.TimedOut(r.id.value);
      assert ValidId(e.id) && EventReport(e) == (ep, Report(r.id, r.version, None, None, None));
    }
  }

  /** Every event published in any history is posted truthfully, in a form the server accepts. */
  lemma EventIsGenuine(h: seq<D.Desk>, n: nat, e: O.Event)
    requires D.History(h) && n < |h| && e in h[n].events
    ensures Genuine(h[n], EventReport(e).0, EventReport(e).1)
    ensures ValidReport(EventReport(e).1, EventReport(e).0)
  {
    D.EventIdsAreValid(h, n);
    assert ValidId(e.id);
  }

  /** The stage a report claims its generation has reached. */
  function Claim(ep: Endpoint, r: Report): nat {
    match ep
    case SessionOpen => 2
    case SessionClose => 3
    case CredentialExpired => 3
    case Heartbeat =>
      match r.state
      case Some(SaysPending) => 1
      case Some(SaysActive) => 2
      case Some(SaysRevoked) => 3
      case _ => 0
  }

  ghost predicate Enabled(w: World, step: Step) {
    match step
    case Server(a) => Truthful(w, a)
    case Install(host, pin) => host !in w.desks && pin !in w.keys
    case NewKey(host, pin) => host in w.desks && pin !in w.keys
    case TakeUp(host, id, now) =>
      SentTo(w.keys, w.issued, host, id) && InWindow(DeadlineOf(w.issued[id].expires), now)
    case GiveUp(host, id) => (host, id) in w.running
    case Login(host, id, now) =>
      host in w.desks && D.Holds(w.desks[host], id, D.Pending) && now < w.desks[host].record.value.deadline
    case Desktop(host, desk) => host in w.desks && D.Legal(w.desks[host], desk) && Backed(w, host, desk)
    case Acknowledge(pin, id) =>
      && pin in w.keys && w.keys[pin] in w.desks
      && (pin, id) in w.revokes && D.RevokeAcknowledged(w.desks[w.keys[pin]], id)
    case Post(pin, ep, r) => pin in w.keys && w.keys[pin] in w.desks && Genuine(w.desks[w.keys[pin]], ep, r)
  }

  /** The pins of the generations reserved so far, after a server step. */
  ghost function Bound(w: World, a: Action): map<Id, string> {
    var t := Next(w.sys, a);
    if a.StartCheckout? && a.id in t.db.creds && a.id !in w.sys.db.creds && a.mid in t.db.machines
    then w.bound[a.id := PinOf(t.db.machines[a.mid])] else w.bound
  }

  /** The commands out after a server step. */
  ghost function Issued(w: World, a: Action): map<Id, Sent> {
    var t := Next(w.sys, a);
    if a.StartCheckout? && a.pid !in w.sys.procs && a.pid in t.procs && IsCheckout(t.procs[a.pid])
    then w.issued[a.id := Sent(PinOf(t.procs[a.pid].job.target), a.expires)] else w.issued
  }

  ghost function RevokesSent(w: World, a: Action): set<(string, Id)> {
    var t := Next(w.sys, a);
    w.revokes + set pid | pid in t.procs && Revokes(t.procs[pid]).Some? :: Revokes(t.procs[pid]).value
  }

  /** The generation that is active on a desktop. */
  function ActiveOn(host: nat, desk: D.Desk): set<(nat, Id)> {
    if desk.record.Some? && desk.record.value.phase == D.Active then {(host, desk.record.value.id)} else {}
  }

  ghost function Moved(w: World, host: nat, desk: D.Desk): World {
    w.(desks := w.desks[host := desk], activated := w.activated + ActiveOn(host, desk))
  }

  ghost function Take(w: World, step: Step): World {
    if !Enabled(w, step) then w
    else match step
      case Server(a) =>
        w.(sys := Next(w.sys, a), bound := Bound(w, a), issued := Issued(w, a), revokes := RevokesSent(w, a))
      case Install(host, pin) => w.(desks := w.desks[host := D.FRESH], keys := w.keys[pin := host])
      case NewKey(host, pin) => w.(keys := w.keys[pin := host])
      case TakeUp(host, id, _) => w.(running := w.running + multiset{(host, id)})
      case GiveUp(host, id) => w.(running := w.running - multiset{(host, id)})
      case Login(host, id, now) => w.(logins := w.logins + {(host, id, now)})
      case Desktop(host, desk) => Moved(w, host, desk)
      case Acknowledge(pin, id) => w.(acks := w.acks + {(pin, id)})
      case Post(pin, ep, r) => w.(reports := w.reports + {(pin, ep, r)})
  }

  ghost function Play(w: World, steps: seq<Step>): World
    decreases |steps|
  {
    if steps == [] then w else Play(Take(w, steps[0]), steps[1..])
  }

  lemma {:induction false} PlayOneMore(w: World, steps: seq<Step>, last: Step)
    ensures Play(w, steps + [last]) == Take(Play(w, steps), last)
    decreases |steps|
  {
    if steps == [] {
      assert steps + [last] == [last];
      assert Play(Take(w, last), []) == Take(w, last);
    } else {
      assert (steps + [last])[1..] == steps[1..] + [last];
      PlayOneMore(Take(w, steps[0]), steps[1..], last);
    }
  }

  // ----- the invariant -----

  /** The stage an event proves. */
  function Evidence(e: O.Event): nat {
    if e.Opened? then 2 else 3
  }

  /** A session was published as opened only once it was active, and as ended only once it had ended. */
  predicate Candid(desk: D.Desk) {
    forall i | 0 <= i < |desk.events| :: Evidence(desk.events[i]) <= D.Stage(desk, desk.events[i].id)
  }

  /** The generation is live on its desktop only on the command sent there, with the deadline that was sent. */
  predicate Owned(keys: map<string, nat>, issued: map<Id, Sent>, host: nat, desk: D.Desk) {
    desk.record.Some? && desk.record.value.phase != D.Revoked ==>
      && SentTo(keys, issued, host, desk.record.value.id)
      && desk.record.value.deadline == DeadlineOf(issued[desk.record.value.id].expires)
  }

  predicate DesksInv(desks: map<nat, D.Desk>, keys: map<string, nat>, issued: map<Id, Sent>) {
    forall host | host in desks ::
      D.DeskInv(desks[host]) && Candid(desks[host]) && Owned(keys, issued, host, desks[host])
  }

  /** The generation has got this far on the desktop. */
  predicate Reached(desks: map<nat, D.Desk>, host: nat, id: Id, stage: nat) {
    host in desks && stage <= D.Stage(desks[host], id)
  }

  /** The same, on the desktop behind a pin. */
  predicate ReachedAt(desks: map<nat, D.Desk>, keys: map<string, nat>, pin: string, id: Id, stage: nat) {
    pin in keys && Reached(desks, keys[pin], id, stage)
  }

  /** Everything the server can have learned is true of the desktops. */
  predicate MessagesTrue(desks: map<nat, D.Desk>, keys: map<string, nat>, acks: set<(string, Id)>,
                         reports: set<(string, Endpoint, Report)>) {
    && (forall x | x in acks :: ReachedAt(desks, keys, x.0, x.1, 3))
    && (forall x | x in reports && x.2.id.Some? ::
          ReachedAt(desks, keys, x.0, x.2.id.value, Claim(x.1, x.2)))
  }

  predicate OpenedAt(keys: map<string, nat>, activated: set<(nat, Id)>, pin: string, id: Id) {
    pin in keys && (keys[pin], id) in activated
  }

  /** A desktop publishes an opening only of a session that was active on it. */
  predicate OpeningsLived(host: nat, desk: D.Desk, activated: set<(nat, Id)>) {
    && ActiveOn(host, desk) <= activated
    && (forall i | 0 <= i < |desk.events| && desk.events[i].Opened? :: (host, desk.events[i].id) in activated)
  }

  /** Whoever says that a session was opened says it of one that was active on that desktop. */
  predicate OpeningsTrue(desks: map<nat, D.Desk>, keys: map<string, nat>, activated: set<(nat, Id)>,
                         reports: set<(string, Endpoint, Report)>) {
    && (forall host | host in desks :: OpeningsLived(host, desks[host], activated))
    && (forall x | x in reports && x.2.id.Some? && Claim(x.1, x.2) == 2 ::
          OpenedAt(keys, activated, x.0, x.2.id.value))
  }

  predicate RowsOpened(creds: map<Id, Credential>, bound: map<Id, string>, keys: map<string, nat>,
                       activated: set<(nat, Id)>) {
    forall id | id in creds && creds[id].openedAt.Some? :: id in bound && OpenedAt(keys, activated, bound[id], id)
  }

  /** Logins are accepted only for what was issued to the desktop, before the deadline that was sent. */
  predicate LoginsInTime(keys: map<string, nat>, issued: map<Id, Sent>, logins: set<(nat, Id, int)>) {
    forall x | x in logins :: SentTo(keys, issued, x.0, x.1) && x.2 < DeadlineOf(issued[x.1].expires)
  }

  /** Every session that was active had been logged into. */
  predicate OpenedLoggedIn(activated: set<(nat, Id)>, logins: set<(nat, Id, int)>) {
    forall x | x in activated :: exists y :: y in logins && y.0 == x.0 && y.1 == x.1
  }

  predicate RunningSent(keys: map<string, nat>, issued: map<Id, Sent>, running: multiset<(nat, Id)>) {
    forall x | x in running :: SentTo(keys, issued, x.0, x.1)
  }

  predicate KeysLead(desks: map<nat, D.Desk>, keys: map<string, nat>) {
    forall pin | pin in keys :: keys[pin] in desks
  }

  /** What holds on the side of the desktops. */
  predicate SideInv(desks: map<nat, D.Desk>, keys: map<string, nat>, issued: map<Id, Sent>,
                    running: multiset<(nat, Id)>, logins: set<(nat, Id, int)>, activated: set<(nat, Id)>) {
    && KeysLead(desks, keys) && DesksInv(desks, keys, issued)
    && RunningSent(keys, issued, running)
    && LoginsInTime(keys, issued, logins) && OpenedLoggedIn(activated, logins)
  }

  /** An unrevoked credential is on the machine with the pin it was reserved for. */
  ghost predicate CredsBound(machines: map<Id, Machine>, creds: map<Id, Credential>, bound: map<Id, string>) {
    && creds.Keys == bound.Keys
    && (forall id | Live(creds, id) ::
          creds[id].machine in machines && machines[creds[id].machine].pin == Some(bound[id]))
  }

  ghost predicate JobsBound(procs: map<nat, Proc>, bound: map<Id, string>) {
    forall pid | pid in procs && IsCheckout(procs[pid]) ::
      procs[pid].job.id in bound && Some(bound[procs[pid].job.id]) == procs[pid].job.target.pin
  }

  ghost predicate PinsBound(s: Sys, bound: map<Id, string>) {
    CredsBound(s.db.machines, s.db.creds, bound) && JobsBound(s.procs, bound)
  }

  /** An issue command went to the pin its generation was reserved for. */
  predicate IssuesBound(issued: map<Id, Sent>, bound: map<Id, string>) {
    forall id | id in issued :: id in bound && bound[id] == issued[id].pin
  }

  ghost predicate WorldInv(w: World) {
    && SysInv(w.sys)
    && SideInv(w.desks, w.keys, w.issued, w.running, w.logins, w.activated)
    && w.sys.acked <= w.acks
    && MessagesTrue(w.desks, w.keys, w.acks, w.reports)
    && OpeningsTrue(w.desks, w.keys, w.activated, w.reports)
    && PinsBound(w.sys, w.bound) && IssuesBound(w.issued, w.bound)
    && RowsOpened(w.sys.db.creds, w.bound, w.keys, w.activated)
    && IdsValid(w.sys.db.creds)
  }

  // ----- desktop steps -----

  lemma LegalKeepsCandid(s: D.Desk, t: D.Desk)
    requires D.RecordInv(s) && Candid(s) && D.Legal(s, t)
    ensures Candid(t)
  {
    forall i | 0 <= i < |t.events| ensures Evidence(t.events[i]) <= D.Stage(t, t.events[i].id) {
      D.LegalKeepsStage(s, t, t.events[i].id);
      if i < |s.events| {
        EventsStay(s, t, i);
      } else {
        LastEvent(s, t, i);
      }
    }
  }

  lemma EventsStay(s: D.Desk, t: D.Desk, i: nat)
    requires D.Legal(s, t) && i < |s.events|
    ensures i < |t.events| && t.events[i] == s.events[i]
  {
  }

  lemma LastEvent(s: D.Desk, t: D.Desk, i: nat)
    requires D.Legal(s, t) && |s.events| <= i < |t.events|
    ensures D.MayPublish(s, t.events[i]) && t.record == s.record
  {
  }

  lemma ReachedKept(desks: map<nat, D.Desk>, host: nat, desk: D.Desk, h: nat, id: Id, stage: nat)
    requires host in desks && D.DeskInv(desks[host]) && D.Legal(desks[host], desk)
    requires Reached(desks, h, id, stage)
    ensures Reached(desks[host := desk], h, id, stage)
  {
    if h == host {
      D.LegalKeepsStage(desks[host], desk, id);
    }
  }

  // A live record that stays is the record of a generation that was live before, with the same deadline.
  lemma LiveRecordKept(s: D.Desk, t: D.Desk)
    requires D.DeskInv(s) && D.Legal(s, t)
    requires t.record.Some? && t.record.value.phase != D.Revoked
    requires s.record.Some? && s.record.value.id == t.record.value.id
    ensures s.record.value.phase != D.Revoked && t.record.value.deadline == s.record.value.deadline
  {
    D.LegalKeepsStage(s, t, t.record.value.id);
  }

  lemma StepKeepsOwned(w: World, host: nat, desk: D.Desk)
    requires host in w.desks && D.DeskInv(w.desks[host]) && D.Legal(w.desks[host], desk) && Backed(w, host, desk)
    requires Owned(w.keys, w.issued, host, w.desks[host]) && RunningSent(w.keys, w.issued, w.running)
    ensures Owned(w.keys, w.issued, host, desk)
  {
    var s := w.desks[host];
    if desk.record.Some? && desk.record.value.phase != D.Revoked {
      if s.record.Some? && s.record.value.id == desk.record.value.id {
        LiveRecordKept(s, desk);
      } else {
        assert (desk.record.value.id, desk.record.value.deadline) in InHand(w, host);
      }
    }
  }

  lemma DesktopStepKeepsDesks(w: World, host: nat, desk: D.Desk)
    requires DesksInv(w.desks, w.keys, w.issued) && RunningSent(w.keys, w.issued, w.running)
    requires Enabled(w, Desktop(host, desk))
    ensures DesksInv(w.desks[host := desk], w.keys, w.issued)
  {
    D.LegalKeepsInv(w.desks[host], desk);
    LegalKeepsCandid(w.desks[host], desk);
    StepKeepsOwned(w, host, desk);
  }

  // A session that becomes active has been logged into.
  lemma ActiveLoggedIn(w: World, host: nat, desk: D.Desk)
    requires host in w.desks && Backed(w, host, desk) && OpeningsLived(host, w.desks[host], w.activated)
    requires OpenedLoggedIn(w.activated, w.logins)
    ensures OpenedLoggedIn(w.activated + ActiveOn(host, desk), w.logins)
  {
    forall x | x in ActiveOn(host, desk) && x !in w.activated
      ensures exists y :: y in w.logins && y.0 == x.0 && y.1 == x.1
    {
      assert D.InTime(LoginsAt(w, host), desk.record.value.id, desk.record.value.deadline);
      var z :| z in LoginsAt(w, host) && z.0 == desk.record.value.id && z.1 < desk.record.value.deadline;
      assert (host, z.0, z.1) in w.logins;
    }
  }

  lemma StepKeepsOpenings(host: nat, s: D.Desk, t: D.Desk, activated: set<(nat, Id)>)
    requires OpeningsLived(host, s, activated) && D.Legal(s, t)
    ensures OpeningsLived(host, t, activated + ActiveOn(host, t))
  {
    forall i | 0 <= i < |t.events| && t.events[i].Opened? ensures (host, t.events[i].id) in activated {
      if i < |s.events| {
        EventsStay(s, t, i);
      } else {
        LastEvent(s, t, i);
        assert (host, t.events[i].id) in ActiveOn(host, s);
      }
    }
  }

  lemma DesktopStepKeepsSide(w: World, host: nat, desk: D.Desk)
    requires SideInv(w.desks, w.keys, w.issued, w.running, w.logins, w.activated)
    requires host in w.desks && OpeningsLived(host, w.desks[host], w.activated) && Enabled(w, Desktop(host, desk))
    ensures var t := Moved(w, host, desk);
      SideInv(t.desks, t.keys, t.issued, t.running, t.logins, t.activated)
  {
    DesktopStepKeepsDesks(w, host, desk);
    ActiveLoggedIn(w, host, desk);
  }

  lemma DesktopStepKeepsOpenings(w: World, host: nat, desk: D.Desk)
    requires OpeningsTrue(w.desks, w.keys, w.activated, w.reports)
    requires host in w.desks && D.Legal(w.desks[host], desk)
    ensures var t := Moved(w, host, desk); OpeningsTrue(t.desks, t.keys, t.activated, t.reports)
  {
    StepKeepsOpenings(host, w.desks[host], desk, w.activated);
  }

  lemma DesktopStepKeeps(w: World, host: nat, desk: D.Desk)
    requires WorldInv(w) && Enabled(w, Desktop(host, desk))
    ensures WorldInv(Take(w, Desktop(host, desk)))
  {
    var t := Moved(w, host, desk);
    DesktopStepKeepsSide(w, host, desk);
    DesktopStepKeepsOpenings(w, host, desk);
    assert MessagesTrue(t.desks, t.keys, t.acks, t.reports) by {
      forall h, id, stage: nat | Reached(w.desks, h, id, stage) ensures Reached(t.desks, h, id, stage) {
        ReachedKept(w.desks, host, desk, h, id, stage);
      }
    }
  }

  lemma PostIsTrue(desk: D.Desk, ep: Endpoint, r: Report)
    requires D.DeskInv(desk) && Candid(desk) && Genuine(desk, ep, r) && r.id.Some?
    ensures Claim(ep, r) <= D.Stage(desk, r.id.value)
  {
  }

  lemma OpeningPosted(host: nat, desk: D.Desk, ep: Endpoint, r: Report, activated: set<(nat, Id)>)
    requires OpeningsLived(host, desk, activated) && Genuine(desk, ep, r) && r.id.Some? && Claim(ep, r) == 2
    ensures (host, r.id.value) in activated
  {
    if ep.SessionOpen? {
      var i :| 0 <= i < |desk.events| && desk.events[i] == O.Opened(r.id.value);
    } else {
      assert (host, r.id.value) in ActiveOn(host, desk);
    }
  }

  /** Desktops and keys are added, none is changed. */
  predicate Extends(desks: map<nat, D.Desk>, keys: map<string, nat>, desks2: map<nat, D.Desk>,
                    keys2: map<string, nat>) {
    && (forall host | host in desks :: host in desks2 && desks2[host] == desks[host])
    && (forall host | host in desks2 && host !in desks :: desks2[host] == D.FRESH)
    && (forall pin | pin in keys :: pin in keys2 && keys2[pin] == keys[pin])
    && KeysLead(desks2, keys2)
  }

  lemma ExtendedSide(w: World, desks: map<nat, D.Desk>, keys: map<string, nat>)
    requires SideInv(w.desks, w.keys, w.issued, w.running, w.logins, w.activated)
    requires Extends(w.desks, w.keys, desks, keys)
    ensures SideInv(desks, keys, w.issued, w.running, w.logins, w.activated)
  {
    assert D.DeskInv(D.FRESH) && Candid(D.FRESH);
  }

  lemma ExtendedMessages(w: World, desks: map<nat, D.Desk>, keys: map<string, nat>)
    requires MessagesTrue(w.desks, w.keys, w.acks, w.reports) && OpeningsTrue(w.desks, w.keys, w.activated, w.reports)
    requires RowsOpened(w.sys.db.creds, w.bound, w.keys, w.activated) && Extends(w.desks, w.keys, desks, keys)
    ensures MessagesTrue(desks, keys, w.acks, w.reports) && OpeningsTrue(desks, keys, w.activated, w.reports)
    ensures RowsOpened(w.sys.db.creds, w.bound, keys, w.activated)
  {
  }

  lemma KeyStepKeeps(w: World, step: Step)
    requires WorldInv(w) && Enabled(w, step) && (step.Install? || step.NewKey?)
    ensures WorldInv(Take(w, step))
  {
    var t := Take(w, step);
    assert Extends(w.desks, w.keys, t.desks, t.keys);
    ExtendedSide(w, t.desks, t.keys);
    ExtendedMessages(w, t.desks, t.keys);
  }

  lemma PostKeepsMessages(w: World, pin: string, ep: Endpoint, r: Report)
    requires DesksInv(w.desks, w.keys, w.issued) && MessagesTrue(w.desks, w.keys, w.acks, w.reports)
    requires OpeningsTrue(w.desks, w.keys, w.activated, w.reports) && Enabled(w, Post(pin, ep, r))
    ensures var reports := w.reports + {(pin, ep, r)};
      MessagesTrue(w.desks, w.keys, w.acks, reports) && OpeningsTrue(w.desks, w.keys, w.activated, reports)
  {
    if r.id.Some? {
      var host := w.keys[pin];
      PostIsTrue(w.desks[host], ep, r);
      if Claim(ep, r) == 2 {
        OpeningPosted(host, w.desks[host], ep, r, w.activated);
      }
    }
  }

  lemma MessageStepKeeps(w: World, step: Step)
    requires WorldInv(w) && Enabled(w, step) && (step.Acknowledge? || step.Post?)
    ensures WorldInv(Take(w, step))
  {
    if step.Post? {
      PostKeepsMessages(w, step.pin, step.ep, step.r);
    }
  }

  lemma CallKeepsRunning(w: World, step: Step)
    requires RunningSent(w.keys, w.issued, w.running) && Enabled(w, step) && (step.TakeUp? || step.GiveUp?)
    ensures RunningSent(w.keys, w.issued, Take(w, step).running)
  {
    forall x | x in Take(w, step).running ensures SentTo(w.keys, w.issued, x.0, x.1) {
      assert step.GiveUp? || x != (step.host, step.id) ==> x in w.running;
    }
  }

  lemma LoginInTime(w: World, step: Step)
    requires DesksInv(w.desks, w.keys, w.issued) && LoginsInTime(w.keys, w.issued, w.logins)
    requires Enabled(w, step) && step.Login?
    ensures LoginsInTime(w.keys, w.issued, Take(w, step).logins)
  {
  }

  lemma MoreLogins(activated: set<(nat, Id)>, logins: set<(nat, Id, int)>, more: set<(nat, Id, int)>)
    requires OpenedLoggedIn(activated, logins) && logins <= more
    ensures OpenedLoggedIn(activated, more)
  {
    forall x | x in activated ensures exists y :: y in more && y.0 == x.0 && y.1 == x.1 {
      var y :| y in logins && y.0 == x.0 && y.1 == x.1;
      assert y in more;
    }
  }

  lemma LoginStepKeeps(w: World, step: Step)
    requires WorldInv(w) && Enabled(w, step) && step.Login?
    ensures WorldInv(Take(w, step))
  {
    LoginInTime(w, step);
    MoreLogins(w.activated, w.logins, Take(w, step).logins);
  }

  lemma CallStepKeeps(w: World, step: Step)
    requires WorldInv(w) && Enabled(w, step) && (step.TakeUp? || step.GiveUp?)
    ensures WorldInv(Take(w, step))
  {
    CallKeepsRunning(w, step);
  }

  // ----- server steps -----

  ghost predicate PinsKept(a: map<Id, Machine>, b: map<Id, Machine>) {
    forall mid | mid in a :: mid in b && b[mid].pin == a[mid].pin
  }

  ghost predicate NothingRevived(a: map<Id, Credential>, b: map<Id, Credential>) {
    && a.Keys == b.Keys
    && forall id | Live(b, id) :: Live(a, id) && b[id].machine == a[id].machine
  }

  /** A step that keeps the pins and makes no row unrevoked keeps the bond. */
  lemma BondKept(a: Db, b: Db, bound: map<Id, string>)
    requires CredsBound(a.machines, a.creds, bound)
    requires PinsKept(a.machines, b.machines) && NothingRevived(a.creds, b.creds)
    ensures CredsBound(b.machines, b.creds, bound)
  {
  }

  lemma ReceiveKeepsBond(s: Sys, token: string, ep: Endpoint, r: Report, now: int, bound: map<Id, string>)
    requires SysInv(s) && CredsBound(s.db.machines, s.db.creds, bound)
    ensures var t := Next(s, Receive(token, ep, r, now)); CredsBound(t.db.machines, t.db.creds, bound)
  {
    if ValidReport(r, ep) && exists mid :: Authenticates(s.db, token, mid) {
      var mid :| Authenticates(s.db, token, mid);
      InvHasOneOwner(s.db, token);
      DeliverIsApply(s.db, token, ep, r, now, mid);
      ApplyKeepsBond(s.db, mid, ep, r, now, bound);
    }
  }

  lemma ApplyKeepsBond(db: Db, mid: Id, ep: Endpoint, r: Report, now: int, bound: map<Id, string>)
    requires AllCoupled(db.creds) && mid in db.machines && ValidReport(r, ep)
    requires CredsBound(db.machines, db.creds, bound)
    ensures var after := Apply(db, mid, ep, r, now); CredsBound(after.machines, after.creds, bound)
  {
    var after := Apply(db, mid, ep, r, now);
    CredsAfterLocal(db, mid, ep, r, now);
    assert after.machines[mid].pin == db.machines[mid].pin;
    BondKept(db, after, bound);
  }

  lemma RekeyKeepsBond(s: Sys, a: Action, bound: map<Id, string>)
    requires CredsBound(s.db.machines, s.db.creds, bound) && a.RekeyMachine?
    ensures var t := Next(s, a); CredsBound(t.db.machines, t.db.creds, bound)
  {
  }

  lemma RegistryKeepsBond(s: Sys, a: Action, bound: map<Id, string>)
    requires CredsBound(s.db.machines, s.db.creds, bound) && (a.EnrollMachine? || a.HideMachine?)
    ensures var t := Next(s, a); CredsBound(t.db.machines, t.db.creds, bound)
  {
    BondKept(s.db, Next(s, a).db, bound);
  }

  lemma PrepareKeepsBond(db: Db, j: Job, at: int, bound: map<Id, string>)
    requires CredsBound(db.machines, db.creds, bound)
    requires j.id in db.creds && db.creds[j.id].machine == j.mid && Some(bound[j.id]) == j.target.pin
    ensures var after := After(db, Prepare(db, j.mid, j.target, j.id, at));
      CredsBound(after.machines, after.creds, bound)
  {
    var after := After(db, Prepare(db, j.mid, j.target, j.id, at));
    assert PinsKept(db.machines, after.machines);
    assert forall id | Live(after.creds, id) && id != j.id :: Live(db.creds, id) && after.creds[id] == db.creds[id];
  }

  lemma PreparedKeepsBond(s: Sys, pid: nat, fate: Fate, bound: map<Id, string>)
    requires SysInv(s) && PinsBound(s, bound)
    ensures var t := Prepared(s, pid, fate); CredsBound(t.db.machines, t.db.creds, bound)
  {
    if pid in s.procs && s.procs[pid].Compensating? {
      assert ProcOk(s, s.procs[pid]);
      PrepareKeepsBond(s.db, s.procs[pid].job, s.procs[pid].at, bound);
    }
  }

  lemma FinishKeepsBond(db: Db, j: Job, at: int, acked: bool, bound: map<Id, string>)
    requires CredsBound(db.machines, db.creds, bound)
    ensures var after := After(db, Finish(db, j.mid, j.target, j.id, j.email, at, acked));
      CredsBound(after.machines, after.creds, bound)
  {
    BondKept(db, After(db, Finish(db, j.mid, j.target, j.id, j.email, at, acked)), bound);
  }

  lemma FinishedKeepsBond(s: Sys, pid: nat, fate: Fate, bound: map<Id, string>)
    requires CredsBound(s.db.machines, s.db.creds, bound)
    ensures var t := Finished(s, pid, fate); CredsBound(t.db.machines, t.db.creds, bound)
  {
    if pid in s.procs && s.procs[pid].Finishing? {
      FinishKeepsBond(s.db, s.procs[pid].job, s.procs[pid].at, s.procs[pid].acked, bound);
    }
  }

  lemma ExpiryKeepsBond(db: Db, id: Id, mid: Id, target: Machine, email: string, at: int, bound: map<Id, string>)
    requires CredsBound(db.machines, db.creds, bound)
    ensures var after := After(db, ExpireCommit(db, id, mid, target, email, at));
      CredsBound(after.machines, after.creds, bound)
  {
    BondKept(db, After(db, ExpireCommit(db, id, mid, target, email, at)), bound);
  }

  lemma ExpiredKeepsBond(s: Sys, pid: nat, fate: Fate, bound: map<Id, string>)
    requires CredsBound(s.db.machines, s.db.creds, bound)
    ensures var t := Expired(s, pid, fate); CredsBound(t.db.machines, t.db.creds, bound)
  {
    if pid in s.procs && s.procs[pid].ExpireAcked? {
      var p := s.procs[pid];
      ExpiryKeepsBond(s.db, p.id, p.c.machine, p.target, p.c.email, p.at, bound);
    }
  }

  lemma ConfirmedKeepsBond(s: Sys, pid: nat, fate: Fate, now: int, bound: map<Id, string>)
    requires CredsBound(s.db.machines, s.db.creds, bound)
    ensures var t := Confirmed(s, pid, fate, now); CredsBound(t.db.machines, t.db.creds, bound)
  {
    BondKept(s.db, Confirmed(s, pid, fate, now).db, bound);
  }

  lemma ReserveBinds(db: Db, id: Id, mid: Id, student: string, now: int, expires: int, bound: map<Id, string>)
    requires CredsBound(db.machines, db.creds, bound)
    ensures var tx := Reserve(db, id, mid, student, now, expires);
      tx.Commit? ==>
        && id !in db.creds && id in tx.db.creds && mid in tx.db.machines
        && CredsBound(tx.db.machines, tx.db.creds, bound[id := PinOf(tx.db.machines[mid])])
  {
  }

  lemma ReservedKeepsBond(w: World, a: Action)
    requires CredsBound(w.sys.db.machines, w.sys.db.creds, w.bound) && a.StartCheckout?
    ensures var t := Next(w.sys, a); CredsBound(t.db.machines, t.db.creds, Bound(w, a))
    ensures forall id | id in w.bound :: id in Bound(w, a) && Bound(w, a)[id] == w.bound[id]
  {
    ReserveBinds(w.sys.db, a.id, a.mid, a.student, a.now, a.expires, w.bound);
  }

  lemma ReservedKeepsJobs(w: World, a: Action)
    requires w.sys.db.creds.Keys == w.bound.Keys && JobsBound(w.sys.procs, w.bound) && a.StartCheckout?
    ensures JobsBound(Next(w.sys, a).procs, Bound(w, a))
  {
  }

  /** A running checkout keeps its machine, generation and student from start to end. */
  lemma JobsStay(s: Sys, a: Action, pid: nat)
    requires !a.StartCheckout?
    ensures var t := Next(s, a);
      pid in t.procs && IsCheckout(t.procs[pid]) ==>
        pid in s.procs && IsCheckout(s.procs[pid]) && t.procs[pid].job == s.procs[pid].job
  {
  }

  lemma JobsStayBound(s: Sys, a: Action, bound: map<Id, string>)
    requires JobsBound(s.procs, bound) && !a.StartCheckout?
    ensures JobsBound(Next(s, a).procs, bound)
  {
    forall pid | pid in Next(s, a).procs && IsCheckout(Next(s, a).procs[pid])
      ensures Next(s, a).procs[pid].job.id in bound
              && Some(bound[Next(s, a).procs[pid].job.id]) == Next(s, a).procs[pid].job.target.pin
    {
      JobsStay(s, a, pid);
    }
  }

  lemma BondStays(s: Sys, a: Action, bound: map<Id, string>)
    requires SysInv(s) && PinsBound(s, bound) && !a.StartCheckout?
    ensures var t := Next(s, a); CredsBound(t.db.machines, t.db.creds, bound)
  {
    match a {
      case Receive(token, ep, r, now) => ReceiveKeepsBond(s, token, ep, r, now, bound);
      case EnrollMachine(_, _, _) => RegistryKeepsBond(s, a, bound);
      case RekeyMachine(_, _, _, _, _, _) => RekeyKeepsBond(s, a, bound);
      case HideMachine(_, _, _, _) => RegistryKeepsBond(s, a, bound);
      case CommitPrepare(pid, fate) => PreparedKeepsBond(s, pid, fate, bound);
      case CommitFinish(pid, fate) => FinishedKeepsBond(s, pid, fate, bound);
      case CommitExpire(pid, fate) => ExpiredKeepsBond(s, pid, fate, bound);
      case CommitConfirm(pid, fate, now) => ConfirmedKeepsBond(s, pid, fate, now, bound);
      case _ =>
    }
  }

  lemma PinsStayBound(w: World, a: Action)
    requires SysInv(w.sys) && PinsBound(w.sys, w.bound)
    ensures PinsBound(Next(w.sys, a), Bound(w, a))
    ensures forall id | id in w.bound :: id in Bound(w, a) && Bound(w, a)[id] == w.bound[id]
  {
    if a.StartCheckout? {
      ReservedKeepsBond(w, a);
      ReservedKeepsJobs(w, a);
    } else {
      BondStays(w.sys, a, w.bound);
      JobsStayBound(w.sys, a, w.bound);
    }
  }

  lemma OtherStepsOpenNothing(s: Sys, a: Action)
    requires !a.Receive?
    ensures forall id | id in Next(s, a).db.creds && Next(s, a).db.creds[id].openedAt.Some? ::
              id in s.db.creds && s.db.creds[id].openedAt.Some?
  {
  }

  lemma OpeningApplied(w: World, mid: Id, ep: Endpoint, r: Report, now: int, id: Id)
    requires AllCoupled(w.sys.db.creds) && CredsBound(w.sys.db.machines, w.sys.db.creds, w.bound)
    requires OpeningsTrue(w.desks, w.keys, w.activated, w.reports)
    requires mid in w.sys.db.machines && w.sys.db.machines[mid].pin.Some?
    requires (w.sys.db.machines[mid].pin.value, ep, r) in w.reports && ValidReport(r, ep)
    requires id in w.sys.db.creds && w.sys.db.creds[id].openedAt.None?
    ensures var after := Apply(w.sys.db, mid, ep, r, now);
      id in after.creds && after.creds[id].openedAt.Some? ==> OpenedAt(w.keys, w.activated, w.bound[id], id)
  {
    OpenedOnlyWhenCurrent(w.sys.db, mid, ep, r, now, id);
  }

  /** An opening is recorded only on the report of the desktop the generation was reserved on, and active on. */
  lemma OpeningReported(w: World, token: string, ep: Endpoint, r: Report, now: int, id: Id)
    requires OneOwner(w.sys.db, token) && AllCoupled(w.sys.db.creds)
    requires CredsBound(w.sys.db.machines, w.sys.db.creds, w.bound)
    requires OpeningsTrue(w.desks, w.keys, w.activated, w.reports)
    requires Truthful(w, Receive(token, ep, r, now))
    requires id in w.sys.db.creds && w.sys.db.creds[id].openedAt.None?
    ensures var t := Next(w.sys, Receive(token, ep, r, now));
      id in t.db.creds && t.db.creds[id].openedAt.Some? ==> OpenedAt(w.keys, w.activated, w.bound[id], id)
  {
    if ValidReport(r, ep) && exists mid :: Authenticates(w.sys.db, token, mid) {
      var mid :| Authenticates(w.sys.db, token, mid);
      DeliverIsApply(w.sys.db, token, ep, r, now, mid);
      OpeningApplied(w, mid, ep, r, now, id);
    }
  }

  lemma RowsStayOpened(w: World, a: Action)
    requires WorldInv(w) && Truthful(w, a)
    requires forall id | id in w.bound :: id in Bound(w, a) && Bound(w, a)[id] == w.bound[id]
    ensures RowsOpened(Next(w.sys, a).db.creds, Bound(w, a), w.keys, w.activated)
  {
    var t := Next(w.sys, a);
    if a.Receive? {
      InvHasOneOwner(w.sys.db, a.token);
      ReportKeepsRows(w.sys, a.token, a.ep, a.r, a.now);
      forall id | id in t.db.creds && t.db.creds[id].openedAt.Some?
        ensures OpenedAt(w.keys, w.activated, w.bound[id], id)
      {
        if w.sys.db.creds[id].openedAt.None? {
          OpeningReported(w, a.token, a.ep, a.r, a.now, id);
        }
      }
    } else {
      OtherStepsOpenNothing(w.sys, a);
    }
  }

  lemma IssuesStayBound(w: World, a: Action)
    requires w.sys.db.creds.Keys == w.bound.Keys && IssuesBound(w.issued, w.bound)
    ensures IssuesBound(Issued(w, a), Bound(w, a))
    ensures forall id | id in w.issued :: id in Issued(w, a) && Issued(w, a)[id] == w.issued[id]
  {
  }

  // None of the commands out is forgotten, so what rests on them still does.
  lemma MoreIssues(w: World, issued: map<Id, Sent>)
    requires SideInv(w.desks, w.keys, w.issued, w.running, w.logins, w.activated)
    requires forall id | id in w.issued :: id in issued && issued[id] == w.issued[id]
    ensures SideInv(w.desks, w.keys, issued, w.running, w.logins, w.activated)
  {
  }

  lemma AcksStayTrue(w: World, a: Action)
    requires Truthful(w, a) && w.sys.acked <= w.acks
    ensures Next(w.sys, a).acked <= w.acks
  {
  }

  lemma ServerStepKeeps(w: World, a: Action)
    requires WorldInv(w) && Truthful(w, a)
    ensures WorldInv(Take(w, Server(a)))
  {
    StepKeeps(w.sys, a);
    PinsStayBound(w, a);
    IssuesStayBound(w, a);
    MoreIssues(w, Issued(w, a));
    RowsStayOpened(w, a);
    AcksStayTrue(w, a);
    IdsStayValid(w.sys, a);
  }

  lemma OtherStepKeeps(w: World, step: Step)
    requires WorldInv(w) && Enabled(w, step) && !step.Server? && !step.Desktop?
    ensures WorldInv(Take(w, step))
  {
    if step.Install? || step.NewKey? {
      KeyStepKeeps(w, step);
    } else if step.Acknowledge? || step.Post? {
      MessageStepKeeps(w, step);
    } else if step.Login? {
      LoginStepKeeps(w, step);
    } else {
      CallStepKeeps(w, step);
    }
  }

  lemma TakeKeeps(w: World, step: Step)
    requires WorldInv(w)
    ensures WorldInv(Take(w, step))
  {
    if Enabled(w, step) {
      if step.Server? {
        ServerStepKeeps(w, step.a);
      } else if step.Desktop? {
        DesktopStepKeeps(w, step.host, step.desk);
      } else {
        OtherStepKeeps(w, step);
      }
    }
  }

  lemma {:induction false} PlayKeeps(w: World, steps: seq<Step>)
    requires WorldInv(w)
    ensures WorldInv(Play(w, steps))
    decreases |steps|
  {
    if steps != [] {
      TakeKeeps(w, steps[0]);
      PlayKeeps(Take(w, steps[0]), steps[1..]);
    }
  }

  // ----- the main results -----

  /** The generation was active on the desktop at some moment of this run. */
  ghost predicate WasActive(steps: seq<Step>, host: nat, id: Id) {
    exists n | 0 <= n <= |steps| ::
      var w := Play(BEGIN, steps[..n]); host in w.desks && D.Holds(w.desks[host], id, D.Active)
  }

  lemma TakeOpens(w: World, step: Step, host: nat, id: Id)
    requires (host, id) in Take(w, step).activated && (host, id) !in w.activated
    ensures var t := Take(w, step); host in t.desks && D.Holds(t.desks[host], id, D.Active)
  {
  }

  lemma {:induction false} OpenedWasActive(steps: seq<Step>, host: nat, id: Id)
    requires (host, id) in Play(BEGIN, steps).activated
    ensures WasActive(steps, host, id)
    decreases |steps|
  {
    if steps != [] {
      var front, last := steps[..|steps| - 1], steps[|steps| - 1];
      assert steps == front + [last];
      PlayOneMore(BEGIN, front, last);
      if (host, id) in Play(BEGIN, front).activated {
        OpenedWasActive(front, host, id);
        var n :| 0 <= n <= |front| &&
          var w := Play(BEGIN, front[..n]); host in w.desks && D.Holds(w.desks[host], id, D.Active);
        assert front[..n] == steps[..n];
      } else {
        TakeOpens(Play(BEGIN, front), last, host, id);
        assert steps[..|steps|] == steps;
      }
    }
  }

  /**
    * Whatever is delayed, repeated, reordered or lost: a generation that an expiry or a compensation ended is dead
    * on the desktop it was revoked on; an unlocked desktop runs a generation the server issued to exactly it, with
    * the deadline the server sent, and has not ended; and the server records a session only if it was active on the
    * desktop the generation was reserved on.
    */
  lemma EveryJointRunIsSafe(steps: seq<Step>)
    ensures var w := Play(BEGIN, steps);
      && (forall x | x in w.sys.ended :: ReachedAt(w.desks, w.keys, x.0, x.1, 3))
      && (forall host | host in w.desks && !w.desks[host].locked ::
            && w.desks[host].record.Some?
            && var r := w.desks[host].record.value;
               && r.id in w.sys.db.creds && SentTo(w.keys, w.issued, host, r.id)
               && r.deadline == DeadlineOf(w.issued[r.id].expires)
               && (forall pin | Behind(w.keys, pin, host) :: (pin, r.id) !in w.sys.ended))
      && (forall id | id in w.sys.db.creds && w.sys.db.creds[id].openedAt.Some? ::
            id in w.bound && w.bound[id] in w.keys && WasActive(steps, w.keys[w.bound[id]], id))
  {
    PlayKeeps(BEGIN, steps);
    var w := Play(BEGIN, steps);
    forall x | x in w.sys.ended ensures ReachedAt(w.desks, w.keys, x.0, x.1, 3) {
      assert x in w.acks;
    }
    forall id | id in w.sys.db.creds && w.sys.db.creds[id].openedAt.Some?
      ensures w.bound[id] in w.keys && WasActive(steps, w.keys[w.bound[id]], id)
    {
      assert OpenedAt(w.keys, w.activated, w.bound[id], id);
      OpenedWasActive(steps, w.keys[w.bound[id]], id);
    }
  }

  /** An ended generation is not live, and an unlocked desktop runs another one. */
  lemma EndedIsDead(desk: D.Desk, id: Id)
    requires D.DeskInv(desk) && D.Stage(desk, id) == 3
    ensures !D.LiveRecord(desk, id)
    ensures !desk.locked ==> desk.record.Some? && desk.record.value.id != id
  {
  }

  lemma AcknowledgedHasEnded(w: World, pin: string, id: Id)
    requires MessagesTrue(w.desks, w.keys, w.acks, w.reports) && (pin, id) in w.acks
    ensures ReachedAt(w.desks, w.keys, pin, id, 3)
  {
  }

  lemma EndedWasAcknowledged(w: World)
    requires WorldInv(w)
    ensures w.sys.ended <= w.acks
  {
  }

  /** What a server step ended stays dead through every continuation of the joint run. */
  lemma EndedStaysDead(steps: seq<Step>, more: seq<Step>, pin: string, id: Id)
    requires (pin, id) in Play(BEGIN, steps).sys.ended
    ensures var w := Play(Play(BEGIN, steps), more);
      && ReachedAt(w.desks, w.keys, pin, id, 3)
      && var desk := w.desks[w.keys[pin]];
         !D.LiveRecord(desk, id) && (!desk.locked ==> desk.record.Some? && desk.record.value.id != id)
  {
    var v := Play(BEGIN, steps);
    assert (pin, id) in v.acks by {
      PlayKeeps(BEGIN, steps);
      EndedWasAcknowledged(v);
    }
    AcksGrow(v, more);
    var w := Play(v, more);
    assert DesksInv(w.desks, w.keys, w.issued) && MessagesTrue(w.desks, w.keys, w.acks, w.reports) by {
      PlayKeeps(BEGIN, steps);
      PlayKeeps(v, more);
    }
    AcknowledgedHasEnded(w, pin, id);
    EndedIsDead(w.desks[w.keys[pin]], id);
  }

  lemma {:induction false} AcksGrow(w: World, steps: seq<Step>)
    ensures w.acks <= Play(w, steps).acks
    decreases |steps|
  {
    if steps != [] {
      AcksGrow(Take(w, steps[0]), steps[1..]);
    }
  }

  /** When terminal evidence closes a generation on the server, the desktop it came from has ended that generation. */
  lemma TerminalEvidenceIsTrue(steps: seq<Step>, token: string, mid: Id, ep: Endpoint, r: Report, now: int)
    requires var w := Play(BEGIN, steps);
      && Truthful(w, Receive(token, ep, r, now)) && Authenticates(w.sys.db, token, mid)
      && ValidReport(r, ep) && KindOf(w.sys.db.creds, mid, ep, r) == Terminal
    ensures var w := Play(BEGIN, steps);
      && w.sys.db.machines[mid].pin.Some?
      && ReachedAt(w.desks, w.keys, w.sys.db.machines[mid].pin.value, r.id.value, 3)
  {
    var w := Play(BEGIN, steps);
    assert MessagesTrue(w.desks, w.keys, w.acks, w.reports) by {
      PlayKeeps(BEGIN, steps);
    }
    assert (w.sys.db.machines[mid].pin.value, ep, r) in w.reports;
    assert Claim(ep, r) == 3;
  }

  /** Releasing a machine in an expiry or a compensation means its generation is dead behind the stored pin. */
  lemma ReleasedMeansDead(steps: seq<Step>, a: Action, mid: Id)
    requires a.CommitFinish? || a.CommitExpire?
    requires var w := Play(BEGIN, steps);
      && mid in w.sys.db.machines && w.sys.db.machines[mid].status != Available
      && mid in Next(w.sys, a).db.machines && Next(w.sys, a).db.machines[mid].status == Available
    ensures var w := Play(BEGIN, steps);
      && a.pid in w.sys.procs && (w.sys.procs[a.pid].Finishing? || w.sys.procs[a.pid].ExpireAcked?)
      && w.sys.db.machines[mid].pin.Some?
      && var id := if a.CommitFinish? then w.sys.procs[a.pid].job.id else w.sys.procs[a.pid].id;
         ReachedAt(w.desks, w.keys, w.sys.db.machines[mid].pin.value, id, 3)
  {
    var w := Play(BEGIN, steps);
    PlayKeeps(BEGIN, steps);
    AvailableOnlyByEvidence(w.sys, a, mid);
    var id := if a.CommitFinish? then w.sys.procs[a.pid].job.id else w.sys.procs[a.pid].id;
    AcknowledgedHasEnded(w, w.sys.db.machines[mid].pin.value, id);
  }

  // ----- logins and the expiry -----

  /** The preparation of the compensation of `id` is one of these steps. */
  ghost predicate WasCompensated(steps: seq<Step>, id: Id) {
    exists i | 0 <= i < |steps| ::
      steps[i].Server? && OwnCompensation(Play(BEGIN, steps[..i]).sys, steps[i].a, id)
  }

  lemma ServerKeepsExpiry(w: World, a: Action, id: Id)
    requires id in Issued(w, a) && id in Next(w.sys, a).db.creds && w.sys.db.creds.Keys == w.bound.Keys
    requires SysInv(w.sys) && IssuesBound(w.issued, w.bound)
    requires Next(w.sys, a).db.creds[id].expires != Issued(w, a)[id].expires
    ensures OwnCompensation(w.sys, a, id)
      || (id in w.issued && id in w.sys.db.creds && w.sys.db.creds[id].expires != w.issued[id].expires)
  {
    if id in w.sys.db.creds {
      ExpiryMovesOnlyInCompensation(w.sys, a, id);
    }
  }

  lemma CompensatedSooner(front: seq<Step>, last: Step, id: Id)
    requires WasCompensated(front, id)
    ensures WasCompensated(front + [last], id)
  {
    var steps := front + [last];
    var i :| 0 <= i < |front| && front[i].Server? && OwnCompensation(Play(BEGIN, front[..i]).sys, front[i].a, id);
    assert front[..i] == steps[..i] && steps[i] == front[i];
  }

  lemma CompensatedNow(front: seq<Step>, last: Step, id: Id)
    requires last.Server? && OwnCompensation(Play(BEGIN, front).sys, last.a, id)
    ensures WasCompensated(front + [last], id)
  {
    var steps := front + [last];
    assert steps[..|front|] == front && steps[|front|] == last;
  }

  /** The expiry stored for a generation is another one than was sent. */
  predicate ExpiryMoved(w: World, id: Id) {
    id in w.issued && id in w.sys.db.creds && w.sys.db.creds[id].expires != w.issued[id].expires
  }

  lemma ExpiryMovedBefore(w: World, step: Step, id: Id)
    requires SysInv(w.sys) && w.sys.db.creds.Keys == w.bound.Keys && IssuesBound(w.issued, w.bound)
    requires ExpiryMoved(Take(w, step), id)
    ensures ExpiryMoved(w, id) || (step.Server? && OwnCompensation(w.sys, step.a, id))
  {
    if Enabled(w, step) && step.Server? {
      ServerKeepsExpiry(w, step.a, id);
    }
  }

  /** The expiry stored for a generation is the one that was sent, unless its checkout was compensated. */
  lemma {:induction false} ExpiryStands(steps: seq<Step>, id: Id)
    requires ExpiryMoved(Play(BEGIN, steps), id)
    ensures WasCompensated(steps, id)
    decreases |steps|
  {
    if steps != [] {
      var front, last := steps[..|steps| - 1], steps[|steps| - 1];
      var v := Play(BEGIN, front);
      assert steps == front + [last];
      PlayOneMore(BEGIN, front, last);
      assert ExpiryMoved(v, id) || (last.Server? && OwnCompensation(v.sys, last.a, id)) by {
        PlayKeeps(BEGIN, front);
        ExpiryMovedBefore(v, last, id);
      }
      if ExpiryMoved(v, id) {
        ExpiryStands(front, id);
        CompensatedSooner(front, last, id);
      } else {
        CompensatedNow(front, last, id);
      }
    }
  }

  /** The second begins, and under an expiry that is a time also ends, before that expiry. */
  predicate EndsBefore(second: int, expires: int) {
    second * 1000 < expires && (0 <= expires ==> second * 1000 + 999 < expires)
  }

  /**
    * Every session on a desktop was logged into in a second that lies, to its last millisecond, before the expiry
    * that the server sent and, unless the checkout was compensated, still stores.
    */
  lemma LoginsPrecedeExpiry(steps: seq<Step>, host: nat, id: Id)
    requires (host, id) in Play(BEGIN, steps).activated
    ensures var w := Play(BEGIN, steps);
      && SentTo(w.keys, w.issued, host, id) && id in w.sys.db.creds
      && (w.sys.db.creds[id].expires == w.issued[id].expires || WasCompensated(steps, id))
      && (exists x :: x in w.logins && x.0 == host && x.1 == id && EndsBefore(x.2, w.issued[id].expires))
  {
    var w := Play(BEGIN, steps);
    PlayKeeps(BEGIN, steps);
    assert OpenedLoggedIn(w.activated, w.logins);
    var x :| x in w.logins && x.0 == host && x.1 == id;
    assert LoginsInTime(w.keys, w.issued, w.logins);
    SecondsEndBefore(x.2, w.issued[id].expires);
    assert EndsBefore(x.2, w.issued[id].expires);
    if w.sys.db.creds[id].expires != w.issued[id].expires {
      ExpiryStands(steps, id);
    }
  }
}

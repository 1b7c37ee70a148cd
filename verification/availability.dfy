/**
  * What the server's view of a machine says about the lock of its desktop. A machine that is shown as available may
  * have an unlocked desktop; a desktop is certain to stay locked exactly if it is locked and every generation issued to
  * it is over.
  */
module Availability {
  import opened Base
  import opened Tables
  import opened Deadline
  import opened Joint

  // ----- when a desktop stays locked -----

  /** Only this desktop moves, and its clock, which shows `now`, does not go back. */
  predicate OnIts(step: Step, host: nat, now: int) {
    match step
    case TakeUp(h, _, t) => h == host && now <= t
    case GiveUp(h, _) => h == host
    case Login(h, _, t) => h == host && now <= t
    case Desktop(h, _) => h == host
    case _ => false
  }

  predicate DesktopOnly(steps: seq<Step>, host: nat, now: int) {
    forall i | 0 <= i < |steps| :: OnIts(steps[i], host, now)
  }

  predicate Unlocked(w: World, host: nat) {
    host in w.desks && !w.desks[host].locked
  }

  /** Some continuation on this desktop alone leaves it unlocked. */
  ghost predicate CanUnlock(w: World, host: nat, now: int) {
    exists steps :: DesktopOnly(steps, host, now) && Unlocked(Play(w, steps), host)
  }

  /** The generation can no longer be logged into: it has a tombstone, or its session is active behind a lock. */
  predicate Spent(desk: D.Desk, id: Id) {
    id in desk.tombs || (desk.locked && D.Holds(desk, id, D.Active))
  }

  /** Spent, or the deadline of its command has come before any call that still runs took it up. */
  predicate Over(w: World, host: nat, now: int, id: Id)
    requires host in w.desks && id in w.issued
  {
    Spent(w.desks[host], id) || ((host, id) !in w.running && DeadlineOf(w.issued[id].expires) <= now)
  }

  ghost predicate Shut(w: World, host: nat, now: int)
    requires host in w.desks
  {
    w.desks[host].locked && forall id | SentTo(w.keys, w.issued, host, id) :: Over(w, host, now, id)
  }

  lemma LegalKeepsSpent(s: D.Desk, t: D.Desk, id: Id)
    requires D.RecordInv(s) && D.Legal(s, t) && Spent(s, id)
    ensures Spent(t, id)
  {
    if exists x :: D.Buried(s, t, x) {
      var x :| D.Buried(s, t, x);
    } else if exists e :: D.Published(s, t, e) {
      var e :| D.Published(s, t, e);
    }
  }

  lemma HandsAreSpent(w: World, host: nat, now: int, x: (Id, int))
    requires host in w.desks && Shut(w, host, now) && RunningSent(w.keys, w.issued, w.running) && x in InHand(w, host)
    ensures Spent(w.desks[host], x.0)
  {
    assert (host, x.0) in w.running && SentTo(w.keys, w.issued, host, x.0);
  }

  // Only a generation with a command in hand that is not spent is unlocked.
  lemma SpentKeepLocked(s: D.Desk, t: D.Desk, issues: set<(Id, int)>, revokes: set<Id>)
    requires D.Legal(s, t) && D.Commanded(s, t, issues, revokes) && s.locked
    requires forall x | x in issues :: Spent(s, x.0)
    ensures t.locked
  {
  }

  lemma EffectKeepsLocked(w: World, host: nat, desk: D.Desk, now: int)
    requires Enabled(w, Desktop(host, desk)) && Shut(w, host, now)
    requires RunningSent(w.keys, w.issued, w.running)
    ensures desk.locked
  {
    forall x | x in InHand(w, host) ensures Spent(w.desks[host], x.0) {
      HandsAreSpent(w, host, now, x);
    }
    SpentKeepLocked(w.desks[host], desk, InHand(w, host), RevokedAt(w, host));
  }

  lemma EffectKeepsShut(w: World, host: nat, desk: D.Desk, now: int)
    requires DesksInv(w.desks, w.keys, w.issued) && RunningSent(w.keys, w.issued, w.running)
    requires Enabled(w, Desktop(host, desk)) && Shut(w, host, now)
    ensures Shut(Moved(w, host, desk), host, now)
  {
    EffectKeepsLocked(w, host, desk, now);
    forall id | SentTo(w.keys, w.issued, host, id) ensures Over(Moved(w, host, desk), host, now, id) {
      if Spent(w.desks[host], id) {
        LegalKeepsSpent(w.desks[host], desk, id);
      }
    }
  }

  lemma CallKeepsShut(w: World, step: Step, host: nat, now: int)
    requires host in w.desks && Shut(w, host, now) && Enabled(w, step) && OnIts(step, host, now) && !step.Desktop?
    ensures host in Take(w, step).desks && Shut(Take(w, step), host, now)
  {
    forall id | SentTo(w.keys, w.issued, host, id) ensures Over(Take(w, step), host, now, id) {
      assert Over(w, host, now, id);
    }
  }

  lemma StepKeepsShut(w: World, step: Step, host: nat, now: int)
    requires WorldInv(w) && host in w.desks && Shut(w, host, now) && OnIts(step, host, now)
    ensures host in Take(w, step).desks && Shut(Take(w, step), host, now)
  {
    if Enabled(w, step) {
      if step.Desktop? {
        EffectKeepsShut(w, host, step.desk, now);
      } else {
        CallKeepsShut(w, step, host, now);
      }
    }
  }

  lemma {:induction false} ShutStaysLocked(w: World, steps: seq<Step>, host: nat, now: int)
    requires WorldInv(w) && host in w.desks && Shut(w, host, now) && DesktopOnly(steps, host, now)
    ensures !Unlocked(Play(w, steps), host)
    decreases |steps|
  {
    if steps != [] {
      assert OnIts(steps[0], host, now);
      StepKeepsShut(w, steps[0], host, now);
      TakeKeeps(w, steps[0]);
      assert DesktopOnly(steps[1..], host, now) by {
        assert forall i | 0 <= i < |steps[1..]| :: steps[1..][i] == steps[i + 1];
      }
      ShutStaysLocked(Take(w, steps[0]), steps[1..], host, now);
    }
  }

  // ----- and when it can be unlocked -----

  lemma StepFirst(w: World, step: Step, host: nat, now: int)
    requires OnIts(step, host, now) && CanUnlock(Take(w, step), host, now)
    ensures CanUnlock(w, host, now)
  {
    var rest :| DesktopOnly(rest, host, now) && Unlocked(Play(Take(w, step), rest), host);
    var steps := [step] + rest;
    assert steps[1..] == rest;
    assert DesktopOnly(steps, host, now) && Play(w, steps) == Play(Take(w, step), rest);
  }

  lemma EffectFirst(w: World, host: nat, desk: D.Desk, now: int)
    requires Enabled(w, Desktop(host, desk)) && CanUnlock(Moved(w, host, desk), host, now)
    ensures CanUnlock(w, host, now)
  {
    StepFirst(w, Desktop(host, desk), host, now);
  }

  lemma UnlockedCanUnlock(w: World, host: nat, now: int)
    requires Unlocked(w, host)
    ensures CanUnlock(w, host, now)
  {
    assert DesktopOnly([], host, now) && Play(w, []) == w;
  }

  // What a call on the desktop has in hand stays there while it works.
  ghost predicate InHandOf(w: World, host: nat, id: Id, deadline: int) {
    host in w.desks && ValidId(id) && (id, deadline) in InHand(w, host)
  }

  lemma MovedHands(w: World, host: nat, desk: D.Desk, id: Id, deadline: int)
    requires InHandOf(w, host, id, deadline)
    ensures InHandOf(Moved(w, host, desk), host, id, deadline)
  {
  }

  // The account of a pending, unburied generation is unlocked by a helper that passed the check.
  lemma PendingCanUnlock(w: World, host: nat, id: Id, deadline: int, now: int)
    requires InHandOf(w, host, id, deadline) && w.desks[host].permit
    requires D.Holds(w.desks[host], id, D.Pending) && w.desks[host].record.value.deadline == deadline
    requires id !in w.desks[host].tombs
    ensures CanUnlock(w, host, now)
  {
    var desk := w.desks[host].(locked := false);
    assert D.Unlocked(w.desks[host], desk);
    UnlockedCanUnlock(Moved(w, host, desk), host, now);
    EffectFirst(w, host, desk, now);
  }

  // An issue finds a desktop whose record it may replace.
  lemma FreshCanUnlock(w: World, host: nat, id: Id, deadline: int, now: int)
    requires InHandOf(w, host, id, deadline) && id !in w.desks[host].tombs
    requires w.desks[host].permit && w.desks[host].locked && w.desks[host].marker.None?
    requires var r := w.desks[host].record;
      r.None? || (r.value.phase == D.Revoked && r.value.id != id && r.value.id in w.desks[host].tombs)
    ensures CanUnlock(w, host, now)
  {
    var desk := w.desks[host].(record := Some(D.Record(id, deadline, D.Pending, 1)));
    assert D.Wrote(w.desks[host], desk);
    MovedHands(w, host, desk, id, deadline);
    PendingCanUnlock(Moved(w, host, desk), host, id, deadline, now);
    EffectFirst(w, host, desk, now);
  }

  // The marker of an ended generation is removed first.
  lemma EndedCanUnlock(w: World, host: nat, id: Id, deadline: int, now: int)
    requires InHandOf(w, host, id, deadline) && id !in w.desks[host].tombs
    requires w.desks[host].permit && w.desks[host].locked && w.desks[host].record.Some?
    requires var r := w.desks[host].record.value;
      r.phase == D.Revoked && r.id != id && r.id in w.desks[host].tombs
    ensures CanUnlock(w, host, now)
  {
    var cleared := w.desks[host].(marker := None);
    assert D.Marked(w.desks[host], cleared);
    MovedHands(w, host, cleared, id, deadline);
    FreshCanUnlock(Moved(w, host, cleared), host, id, deadline, now);
    EffectFirst(w, host, cleared, now);
  }

  // Another generation on record is ended first.
  lemma OccupiedCanUnlock(w: World, host: nat, id: Id, deadline: int, now: int)
    requires InHandOf(w, host, id, deadline) && id !in w.desks[host].tombs
    requires w.desks[host].permit && w.desks[host].locked && w.desks[host].record.Some?
    requires w.desks[host].record.value.id != id && ValidId(w.desks[host].record.value.id)
    ensures CanUnlock(w, host, now)
  {
    var r := w.desks[host].record.value;
    var buried := w.desks[host].(tombs := w.desks[host].tombs + {r.id});
    var revoked := buried.(record := Some(r.(phase := D.Revoked)));
    assert D.Buried(w.desks[host], buried, r.id) && D.Wrote(buried, revoked);
    var w1 := Moved(w, host, buried);
    MovedHands(w, host, buried, id, deadline);
    MovedHands(w1, host, revoked, id, deadline);
    EndedCanUnlock(Moved(w1, host, revoked), host, id, deadline, now);
    EffectFirst(w1, host, revoked, now);
    EffectFirst(w, host, buried, now);
  }

  lemma PermittedCanUnlock(w: World, host: nat, id: Id, deadline: int, now: int)
    requires InHandOf(w, host, id, deadline) && !Spent(w.desks[host], id)
    requires D.RecordInv(w.desks[host]) && w.desks[host].permit && w.desks[host].locked
    requires D.Holds(w.desks[host], id, D.Pending) ==> w.desks[host].record.value.deadline == deadline
    ensures CanUnlock(w, host, now)
  {
    var r := w.desks[host].record;
    if r.None? {
      FreshCanUnlock(w, host, id, deadline, now);
    } else if r.value.id != id {
      OccupiedCanUnlock(w, host, id, deadline, now);
    } else {
      PendingCanUnlock(w, host, id, deadline, now);
    }
  }

  // A call with the command in hand can pass the check of the marker, once a new setup has removed it.
  lemma InHandCanUnlock(w: World, host: nat, id: Id, deadline: int, now: int)
    requires InHandOf(w, host, id, deadline) && !Spent(w.desks[host], id)
    requires D.RecordInv(w.desks[host]) && w.desks[host].locked
    requires D.Holds(w.desks[host], id, D.Pending) ==> w.desks[host].record.value.deadline == deadline
    ensures CanUnlock(w, host, now)
  {
    var ready := w.desks[host].(retired := false);
    var permitted := ready.(permit := true);
    var w1 := Moved(w, host, ready);
    assert D.Administered(w.desks[host], ready) && D.Administered(ready, permitted);
    MovedHands(w, host, ready, id, deadline);
    MovedHands(w1, host, permitted, id, deadline);
    PermittedCanUnlock(Moved(w1, host, permitted), host, id, deadline, now);
    EffectFirst(w1, host, permitted, now);
    EffectFirst(w, host, ready, now);
  }

  // A command that is not in hand can still be taken up until its deadline.
  lemma SentCanUnlock(w: World, host: nat, id: Id, now: int)
    requires host in w.desks && SentTo(w.keys, w.issued, host, id) && ValidId(id) && !Over(w, host, now, id)
    requires D.RecordInv(w.desks[host]) && Owned(w.keys, w.issued, host, w.desks[host]) && w.desks[host].locked
    ensures CanUnlock(w, host, now)
  {
    var deadline := DeadlineOf(w.issued[id].expires);
    if (host, id) in w.running {
      assert (id, deadline) in InHand(w, host);
      InHandCanUnlock(w, host, id, deadline, now);
    } else {
      var step := TakeUp(host, id, deadline - 1);
      var t := Take(w, step);
      assert (host, id) in t.running;
      assert (id, deadline) in InHand(t, host);
      InHandCanUnlock(t, host, id, deadline, now);
      StepFirst(w, step, host, now);
    }
  }

  /**
    * In every reachable state, a desktop whose clock shows `now` stays locked whatever it still does with the commands
    * sent to it if and only if it is locked and every generation issued to it is over: spent, or past its deadline
    * with no call left that took it up before. What the server shows for its machine does not enter.
    */
  lemma StaysLockedExactly(steps: seq<Step>, host: nat, now: int)
    requires host in Play(BEGIN, steps).desks
    ensures var w := Play(BEGIN, steps); !CanUnlock(w, host, now) <==> Shut(w, host, now)
  {
    PlayKeeps(BEGIN, steps);
    var w := Play(BEGIN, steps);
    if Shut(w, host, now) {
      forall more | DesktopOnly(more, host, now) ensures !Unlocked(Play(w, more), host) {
        ShutStaysLocked(w, more, host, now);
      }
    } else if Unlocked(w, host) {
      UnlockedCanUnlock(w, host, now);
    } else {
      var id :| SentTo(w.keys, w.issued, host, id) && !Over(w, host, now, id);
      SentCanUnlock(w, host, id, now);
    }
  }

  /** The same for the desktop behind the pin that is stored for a machine shown as available. */
  lemma AvailableStaysLockedExactly(steps: seq<Step>, mid: Id, now: int)
    requires var w := Play(BEGIN, steps);
      && mid in w.sys.db.machines && w.sys.db.machines[mid].status == Available
      && w.sys.db.machines[mid].pin.Some? && w.sys.db.machines[mid].pin.value in w.keys
    ensures var w := Play(BEGIN, steps);
      && var host := w.keys[w.sys.db.machines[mid].pin.value];
         host in w.desks && (!CanUnlock(w, host, now) <==> Shut(w, host, now))
  {
    var w := Play(BEGIN, steps);
    PlayKeeps(BEGIN, steps);
    StaysLockedExactly(steps, w.keys[w.sys.db.machines[mid].pin.value], now);
  }
}

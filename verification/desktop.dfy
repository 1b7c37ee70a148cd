/**
  * The privileged helpers of a desktop, written effect by effect. Every command and every file operation may fail,
  * may take effect and still report failure, and may be the last thing the process does; a crashed process does
  * nothing more. The ghost trace shows that whatever happens is a history in the sense of `DesktopHistory`.
  */
module Desktop {
  import opened Base
  import opened OutboxQueue
  import opened DesktopHistory
  import opened Codec
  import opened Deadline


  /** What a read of the credential-state record yields. */
  datatype Reading = Missing | Unreadable | Got(record: Record)

  /** What loginctl says about sessions of the guest. */
  datatype Inventory = Unknown | Present | Absent

  // What justifies the effects of a call: the command it carries out, the login it accepts, the end it makes.
  function IssueDuty(id: Id, deadline: int): Warrants {
    NOTHING.(issues := {(id, deadline)})
  }

  function RevokeDuty(id: Id): Warrants {
    NOTHING.(revokes := {id})
  }

  function LoginDuty(id: Id, now: int): Warrants {
    NOTHING.(logins := {(id, now)})
  }

  function EndOf(d: Desk): Warrants
    requires d.record.Some?
  {
    NOTHING.(ends := {d.record.value.id})
  }

  /** The record is that of an active session. */
  predicate InSession(d: Desk) {
    d.record.Some? && d.record.value.phase == Active
  }

  class Runtime {
    var disk: Desk
    var dead: bool

    // The password of the guest account.
    var password: string

    // Some effect of the running process failed, or the process crashed.
    ghost var faulted: bool

    // The last command of the running process on the account was the one that locks it.
    ghost var lockLast: bool

    const box: Outbox
    ghost var trace: seq<Desk>

    // What justified the effects before the running call, where in the trace that call began, and what justifies its
    // own effects.
    ghost var past: Warrants
    ghost var start: nat
    ghost var duty: Warrants

    /** What justifies the whole trace. */
    ghost function All(): Warrants
      reads `past, `duty
    {
      Plus(past, duty)
    }

    // The trace is a history of justified effects and ends with the disk as it is.
    ghost predicate Sound()
      reads `disk, `trace, `past, `start, `duty
    {
      && History(trace) && trace[|trace| - 1] == disk
      && Warranted(trace, 0, All()) && Warranted(trace, start, duty) && start < |trace|
    }

    ghost predicate Valid()
      reads `disk, `trace, `past, `start, `duty, box
    {
      Sound() && box.Valid() && disk.events == box.log
    }

    constructor ()
      ensures Valid() && trace == [FRESH] && All() == NOTHING && !dead && fresh(box)
    {
      disk := FRESH;
      dead, faulted, lockLast, password := false, false, false, "";
      trace, past, start, duty := [FRESH], NOTHING, 0, NOTHING;
      box := new Outbox();
    }

    // The invariant of every history holds on the disk.
    lemma DiskInv()
      requires Sound()
      ensures DeskInv(disk)
    {
      HistoryKeepsInv(trace, |trace| - 1);
    }

    /** Every step of the trace is a legal effect, on a command that was taken up, after a login in time and so on. */
    lemma TraceIsWarranted(i: nat)
      requires Sound() && 0 < i < |trace|
      ensures Legal(trace[i - 1], trace[i]) && Backed(trace[i - 1], trace[i], All())
      ensures start < i ==> Backed(trace[i - 1], trace[i], duty)
    {
      HistorySteps(trace, i);
      WarrantedSteps(trace, 0, All(), i);
      if start < i {
        WarrantedSteps(trace, start, duty, i);
      }
    }

    // ----- single effects -----

    // One effect: the disk becomes this, and the history goes on.
    method Become(next: Desk)
      requires Sound() && Legal(disk, next) && Backed(disk, next, duty)
      modifies `disk, `trace
      ensures Sound() && disk == next && trace == old(trace) + [next]
    {
      BackedByMore(disk, next, duty, All());
      disk, trace := next, trace + [next];
      assert trace[..|trace| - 1] == old(trace);
    }

    // A call begins, with this to justify it.
    ghost method Begin(d: Warrants)
      requires Sound()
      modifies `past, `start, `duty
      ensures Sound() && past == old(All()) && start == |trace| - 1 && duty == d
    {
      MoreWarrants(trace, 0, All(), Plus(All(), d));
      past, start, duty := All(), |trace| - 1, d;
    }

    // The running call has found a further justification.
    ghost method Warrant(more: Warrants)
      requires Sound()
      modifies `duty
      ensures Sound() && duty == Plus(old(duty), more)
    {
      MoreWarrants(trace, 0, All(), Plus(past, Plus(duty, more)));
      MoreWarrants(trace, start, duty, Plus(duty, more));
      duty := Plus(duty, more);
    }

    // The generation on record may end, whatever its phase.
    ghost method WarrantEnd()
      requires Sound() && disk.record.Some?
      modifies `duty
      ensures Sound() && duty == Plus(old(duty), EndOf(disk))
    {
      Warrant(EndOf(disk));
    }

    /** A command without effect on the modelled state; meanwhile another process may decommission the desktop. */
    method Cmd() returns (ok: bool)
      requires Sound()
      modifies `dead, `faulted, `disk, `trace
      ensures Sound() && old(trace) <= trace && (old(dead) ==> dead)
      ensures disk == old(disk) || disk == old(disk).(retired := true)
      ensures (ok ==> !dead) && faulted == (old(faulted) || !ok)
    {
      ok := *;
      var crash: bool, retires: bool := *, *;
      if retires {
        Become(disk.(retired := true));
      }
      dead := dead || crash;
      ok := ok && !dead;
      faulted := faulted || !ok;
    }

    /** passwd -l guest */
    method LockGuest() returns (ok: bool)
      requires Sound()
      modifies `dead, `faulted, `lockLast, `disk, `trace
      ensures Sound() && old(trace) <= trace && (old(dead) ==> dead && disk == old(disk))
      ensures disk == old(disk) || disk == old(disk).(locked := true)
      ensures (ok ==> disk.locked && !dead) && faulted == (old(faulted) || !ok)
      ensures if old(dead) then lockLast == old(lockLast) else lockLast
    {
      var applied: bool, crash: bool := *, *;
      ok := *;
      lockLast := lockLast || !dead;
      if !dead && applied {
        Become(disk.(locked := true));
      }
      dead := dead || crash;
      ok := ok && applied && !dead;
      faulted := faulted || !ok;
    }

    /** passwd -S guest: if it answers, it answers truly. */
    method IsLocked() returns (known: bool, locked: bool)
      requires Sound()
      modifies `dead, `faulted
      ensures Sound() && (old(dead) ==> dead)
      ensures (known ==> locked == disk.locked && !dead) && faulted == (old(faulted) || !known)
    {
      known := *;
      var crash: bool := *;
      dead := dead || crash;
      known := known && !dead;
      faulted := faulted || !known;
      locked := disk.locked;
    }

    /** Removing the PAM marker. */
    method ClearMarker() returns (ok: bool)
      requires Sound()
      modifies `dead, `faulted, `disk, `trace
      ensures Sound() && old(trace) <= trace && (old(dead) ==> dead && disk == old(disk))
      ensures disk == old(disk) || disk == old(disk).(marker := None)
      ensures (ok ==> disk.marker.None? && !dead) && faulted == (old(faulted) || !ok)
    {
      var applied: bool, crash: bool := *, *;
      if !dead && applied {
        Become(disk.(marker := None));
      }
      dead := dead || crash;
      ok := applied && !dead;
      faulted := faulted || !ok;
    }

    method WriteMarker(text: string) returns (ok: bool)
      requires Sound() && (!dead ==> disk.record.Some? && disk.record.value.phase == Pending)
      modifies `dead, `faulted, `disk, `trace
      ensures Sound() && old(trace) <= trace && (old(dead) ==> dead && disk == old(disk))
      ensures disk == old(disk) || disk == old(disk).(marker := Some(text))
      ensures (ok ==> disk.marker == Some(text) && !dead) && faulted == (old(faulted) || !ok)
    {
      var applied: bool, crash: bool := *, *;
      ok := *;
      if !dead && applied {
        Become(disk.(marker := Some(text)));
      }
      dead := dead || crash;
      ok := ok && applied && !dead;
      faulted := faulted || !ok;
    }

    /** The recovery note is written and removed on a best-effort basis. */
    method NoteRecovery()
      requires Sound()
      modifies `dead, `faulted, `disk, `trace
      ensures Sound() && old(trace) <= trace && (old(dead) ==> dead && disk == old(disk))
      ensures disk == old(disk) || disk == old(disk).(recovery := true)
      ensures (old(faulted) || dead ==> faulted) && (!faulted ==> disk.recovery)
    {
      var applied: bool, crash: bool := *, *;
      if !dead && applied {
        Become(disk.(recovery := true));
      }
      dead := dead || crash;
      faulted := faulted || dead || !applied;
    }

    method ClearRecovery() returns (ok: bool)
      requires Sound()
      modifies `dead, `faulted, `disk, `trace
      ensures Sound() && old(trace) <= trace && (old(dead) ==> dead && disk == old(disk))
      ensures disk == old(disk) || disk == old(disk).(recovery := false)
      ensures (ok ==> !disk.recovery && !dead) && faulted == (old(faulted) || !ok)
    {
      var applied: bool, crash: bool := *, *;
      if !dead && applied {
        Become(disk.(recovery := false));
      }
      dead := dead || crash;
      ok := applied && !dead;
      faulted := faulted || !ok;
    }

    method ReadRecord() returns (r: Reading)
      requires Sound()
      modifies `faulted
      ensures Sound() && faulted == (old(faulted) || r.Unreadable?)
      ensures match r
        case Missing => disk.record.None? && !dead
        case Got(s) => disk.record == Some(s) && !dead
        case Unreadable => true
    {
      var readable: bool := *;
      r := if dead || !readable then Unreadable else if disk.record.None? then Missing else Got(disk.record.value);
      faulted := faulted || r.Unreadable?;
    }

    /** A tombstone is written once and kept. */
    method Bury(id: Id) returns (ok: bool)
      requires Sound() && (!dead ==> disk.locked)
      modifies `dead, `faulted, `disk, `trace
      ensures Sound() && old(trace) <= trace && (old(dead) ==> dead && disk == old(disk))
      ensures disk == old(disk) || disk == old(disk).(tombs := old(disk).tombs + {id})
      ensures (ok ==> id in disk.tombs && !dead) && faulted == (old(faulted) || !ok)
    {
      var readable: bool, applied: bool, crash: bool := *, *, *;
      ok := *;
      if dead || !readable {
        faulted := true;
        return false;
      }
      if id in disk.tombs {
        return true;
      }
      if applied {
        var next := disk.(tombs := disk.tombs + {id});
        assert Buried(disk, next, id);
        Become(next);
      }
      dead := crash;
      ok := ok && applied && !dead;
      faulted := faulted || !ok;
    }

    /** One atomic replacement of the record. */
    method PutRecord(r: Record) returns (ok: bool)
      requires Sound() && (!dead ==> MayWrite(disk, r) && MayChange(r.id, r.deadline, r.phase))
      modifies `dead, `faulted, `disk, `trace
      ensures Sound() && old(trace) <= trace && (old(dead) ==> dead && disk == old(disk))
      ensures disk == old(disk) || disk == old(disk).(record := Some(r))
      ensures (ok ==> disk.record == Some(r) && !dead) && faulted == (old(faulted) || !ok)
    {
      var applied: bool, crash: bool := *, *;
      ok := *;
      if !dead && applied {
        var next := disk.(record := Some(r));
        assert Wrote(disk, next);
        Become(next);
      }
      dead := dead || crash;
      ok := ok && applied && !dead;
      faulted := faulted || !ok;
    }

    /** The outbox publishes the event, or not; a failure of the queue is not repeated. */
    method Queue(e: Event) returns (ok: bool)
      requires Valid() && (!dead ==> MayPublish(disk, e))
      modifies `dead, `faulted, `disk, `trace, box
      ensures Valid() && old(trace) <= trace && (old(dead) ==> dead && disk == old(disk))
      ensures disk == old(disk) || disk == old(disk).(events := old(disk).events + [e])
      ensures ok ==> disk == old(disk).(events := old(disk).events + [e]) && !dead
      ensures faulted == (old(faulted) || !ok)
    {
      if dead {
        faulted := true;
        return false;
      }
      var visible: bool;
      ok, visible := Hand(e);
      if visible {
        Publish(e);
      }
    }

    // The outbox takes the event, or not.
    method Hand(e: Event) returns (ok: bool, visible: bool)
      requires box.Valid() && !dead
      modifies `dead, `faulted, box
      ensures box.Valid() && box.log == if visible then old(box.log) + [e] else old(box.log)
      ensures (ok ==> visible && !dead) && faulted == (old(faulted) || !ok)
    {
      var crashed: bool;
      ok, crashed, visible := box.Append(e);
      dead, faulted := crashed, faulted || !ok;
    }

    // The event has become visible in the outbox.
    method Publish(e: Event)
      requires Sound() && MayPublish(disk, e) && box.Valid() && box.log == disk.events + [e]
      modifies `disk, `trace
      ensures Valid() && old(trace) <= trace && disk == old(disk).(events := old(disk).events + [e])
    {
      var next := disk.(events := disk.events + [e]);
      assert DesktopHistory.Published(disk, next, e);
      Become(next);
    }

    /** chpasswd: the new hash may itself unlock the account. */
    method SetPassword(text: string) returns (ok: bool)
      requires Sound() && (!dead ==> MayUnlock())
      modifies `dead, `faulted, `lockLast, `password, `disk, `trace
      ensures Sound() && old(trace) <= trace && (old(dead) ==> dead && disk == old(disk))
      ensures disk == old(disk) || disk == old(disk).(locked := false)
      ensures (ok ==> !dead && password == text) && faulted == (old(faulted) || !ok)
    {
      var unlocks: bool, applied: bool, crash: bool := *, *, *;
      if !dead && applied {
        password := text;
      }
      ok := *;
      lockLast := lockLast && dead;
      if !dead && unlocks {
        var next := disk.(locked := false);
        assert Unlocked(disk, next);
        Become(next);
      }
      dead := dead || crash;
      ok := ok && applied && !dead;
      faulted := faulted || !ok;
    }

    /** passwd -u guest: it may report success and still leave the account locked. */
    method UnlockGuest() returns (ok: bool)
      requires Sound() && (!dead ==> MayUnlock())
      modifies `dead, `faulted, `lockLast, `disk, `trace
      ensures Sound() && old(trace) <= trace && (old(dead) ==> dead && disk == old(disk))
      ensures disk == old(disk) || disk == old(disk).(locked := false)
      ensures (ok ==> !dead) && (old(faulted) || !ok ==> faulted) && (!faulted ==> !disk.locked)
    {
      var applied: bool, crash: bool := *, *;
      ok := *;
      lockLast := lockLast && dead;
      if !dead && applied {
        var next := disk.(locked := false);
        assert Unlocked(disk, next);
        Become(next);
      }
      dead := dead || crash;
      ok := ok && !dead;
      faulted := faulted || !ok || !applied;
    }

    ghost predicate MayUnlock()
      reads this
    {
      && disk.permit && disk.record.Some? && disk.record.value.phase == Pending
      && disk.record.value.id !in disk.tombs
      && (disk.record.value.id, disk.record.value.deadline) in duty.issues
    }

    // A new process starts and waits for guest.lock; it may time out.
    method TakeLock() returns (ok: bool)
      requires Sound()
      modifies `dead, `faulted, `disk, `trace
      ensures Sound() && old(trace) <= trace && (ok ==> !dead)
      ensures disk == old(disk).(permit := disk.permit, retired := disk.retired) && (old(disk).retired ==> disk.retired)
      ensures (disk.permit ==> old(disk).permit) && (ok ==> !disk.permit) && faulted == !ok
    {
      dead, faulted := false, false;
      ok := Cmd();
      if ok {
        Become(disk.(permit := false));
      }
    }

    method LeaveLock()
      requires Sound()
      modifies `disk, `trace
      ensures Sound() && old(trace) <= trace
      ensures disk == old(disk).(permit := disk.permit) && (disk.permit ==> old(disk).permit)
      ensures !dead ==> !disk.permit
    {
      if !dead {
        Become(disk.(permit := false));
      }
    }

    // The check of the decommission marker under guest.lock.
    method PassCheck() returns (ok: bool)
      requires Sound()
      modifies `disk, `trace, `faulted
      ensures Sound() && old(trace) <= trace
      ensures ok ==> !old(disk).retired && disk == old(disk).(permit := true)
      ensures !ok ==> disk == old(disk)
      ensures faulted == (old(faulted) || (!ok && !old(disk).retired))
    {
      ok := *;
      ok := ok && !disk.retired;
      faulted := faulted || (!ok && !disk.retired);
      if ok {
        var next := disk.(permit := true);
        assert Administered(disk, next);
        Become(next);
      }
    }

    // ----- composite operations -----

    /** Every local safety action; success confirms that the account is locked. */
    method Secure() returns (ok: bool)
      requires Sound()
      modifies `dead, `faulted, `lockLast, `disk, `trace
      ensures Sound() && old(trace) <= trace && (old(dead) ==> dead)
      ensures disk == old(disk).(locked := disk.locked, retired := disk.retired)
      ensures (old(disk).locked ==> disk.locked) && (old(disk).retired ==> disk.retired)
      ensures (ok ==> disk.locked && !dead) && (old(faulted) || !ok ==> faulted) && (old(dead) || lockLast)
    {
      var commanded := LockGuest();
      var known, locked := IsLocked();
      var lingerless := Cmd();
      var killed := Cmd();
      var external := Cmd();
      var scratched := Cmd();
      var seal := Cmd();
      ok := commanded && known && locked && lingerless && killed && external && scratched && seal;
    }

    /** A new generation was commanded, a login came in time, an active session may end. */
    ghost predicate MayChange(id: Id, deadline: int, phase: Phase)
      reads this
    {
      && (disk.record.None? || disk.record.value.id != id ==>
            if phase == Revoked then id in duty.revokes else (id, deadline) in duty.issues)
      && (phase == Active ==> InTime(duty.logins, id, deadline))
      && (InSession(disk) ==> disk.record.value.id in duty.ends)
    }

    /** When the record may become `phase` of `id`; the callers establish it. */
    ghost predicate Ready(id: Id, deadline: int, phase: Phase)
      reads this
    {
      && ValidId(id) && (!Displaces(disk, id) ==> MayChange(id, deadline, phase))
      && match phase
         case Pending =>
           && disk.permit && disk.locked && disk.marker.None? && id !in disk.tombs
           && (disk.record.Some? && disk.record.value.id == id ==>
                 disk.record.value.phase == Pending && disk.record.value.deadline == deadline)
         case Active => Holds(disk, id, Pending) && disk.record.value.deadline == deadline && disk.marker.Some?
         case Revoked =>
           && disk.locked
           && (disk.record.Some? && disk.record.value.id == id ==> disk.record.value.deadline == deadline)
           && (disk.record.Some? && disk.record.value.id != id ==> disk.marker.None?)
    }

    /** writeState: bury the generation that leaves, bury a revoked one before its record, then replace the record. */
    method WriteState(id: Id, deadline: int, phase: Phase, at: int) returns (ok: bool)
      requires Sound() && (!dead ==> Ready(id, deadline, phase))
      modifies `dead, `faulted, `disk, `trace
      ensures Sound() && old(trace) <= trace && (old(dead) ==> dead && disk == old(disk))
      ensures disk == old(disk).(record := disk.record, tombs := disk.tombs)
      ensures old(disk).tombs <= disk.tombs <= old(disk).tombs + (if phase == Revoked then {id} else {})
      ensures disk.record == old(disk).record || disk.record == Some(Record(id, deadline, phase, at))
      ensures Displaces(old(disk), id) ==> disk == old(disk) && !ok
      ensures ok ==>
        && disk.record == Some(Record(id, deadline, phase, at))
        && (phase == Revoked ==> id in disk.tombs) && !dead
      ensures (old(faulted) ==> faulted) && (!faulted ==> (ok <==> !Displaces(old(disk), id)))
    {
      ok := BuryBefore(id, deadline, phase);
      if ok {
        ok := PutRecord(Record(id, deadline, phase, at));
      }
    }

    // The checks and tombstones of writeState.
    method BuryBefore(id: Id, deadline: int, phase: Phase) returns (ok: bool)
      requires Sound() && (!dead ==> Ready(id, deadline, phase))
      modifies `dead, `faulted, `disk, `trace
      ensures Sound() && old(trace) <= trace && (old(dead) ==> dead && disk == old(disk))
      ensures disk == old(disk).(tombs := disk.tombs)
      ensures old(disk).tombs <= disk.tombs <= old(disk).tombs + (if phase == Revoked then {id} else {})
      ensures Displaces(old(disk), id) ==> disk == old(disk) && !ok
      ensures ok ==> !dead && (phase == Revoked ==> id in disk.tombs)
      ensures ok && disk.record.Some? && disk.record.value.id != id ==>
        disk.record.value.phase == Revoked && disk.record.value.id in disk.tombs
      ensures (old(faulted) ==> faulted) && (!faulted ==> (ok <==> !Displaces(old(disk), id)))
    {
      DiskInv();
      var seen := ReadRecord();
      if seen.Unreadable? {
        return false;
      }
      if seen.Got? && seen.record.id != id {
        if seen.record.phase != Revoked {
          return false;
        }
        var buried := Bury(seen.record.id);
        if !buried {
          return false;
        }
      }
      ok := true;
      if phase == Revoked {
        ok := Bury(id);
      }
    }

    /** Secures, removes the marker and leaves a note, as far as that goes. */
    method FailSecure()
      requires Sound()
      modifies `dead, `faulted, `lockLast, `disk, `trace
      ensures Sound() && old(trace) <= trace && (old(dead) ==> dead)
      ensures disk == old(disk).(locked := disk.locked, retired := disk.retired,
                                 marker := disk.marker, recovery := disk.recovery)
      ensures (old(disk).locked ==> disk.locked) && (old(disk).retired ==> disk.retired)
      ensures (disk.marker == old(disk).marker || disk.marker.None?)
      ensures (old(faulted) || (dead && !old(dead)) ==> faulted) && (old(dead) || lockLast)
      ensures !faulted ==> disk.locked && disk.marker.None? && disk.recovery
    {
      var _ := Secure();
      var _ := ClearMarker();
      NoteRecovery();
    }

    // chage, its postflight and the failure counters.
    method ResetAuthentication() returns (ok: bool)
      requires Sound()
      modifies `dead, `faulted, `disk, `trace
      ensures Sound() && old(trace) <= trace && (old(dead) ==> dead)
      ensures disk == old(disk) || disk == old(disk).(retired := true)
      ensures (ok ==> !dead) && (old(faulted) || !ok ==> faulted)
    {
      ok := Cmd();
      if ok { ok := Cmd(); }
      if ok { ok := Cmd(); }
      if ok { ok := Cmd(); }
    }

    // ----- guest-account.sh -----

    /**
      * The account helper. Success of an issue means a fresh pending record and an unlocked account, success of a
      * revoke means a locked account and a tombstoned, revoked record; nothing it does touches an active session.
      */
    method Account(args: seq<string>, input: string, now: int, configured: Option<int>, sessions: Inventory,
                   at: int)
      returns (ok: bool)
      requires Valid()
      modifies this, box
      ensures Valid() && old(trace) <= trace
      ensures InSession(old(disk)) ==> disk.record == old(disk).record && !ok
      ensures disk.events == old(disk).events
      ensures !Accepts(old(disk), ParseArguments(args, input), now, configured, sessions) ==>
        !ok && Untouched(old(disk), disk) && this.password == old(this.password)
      ensures old(disk).retired ==> disk.retired && (Sealed(old(disk)) ==> Sealed(disk))
      ensures ok ==> match ParseArguments(args, input)
        case Issue(id, deadline, password) =>
          && Asked(deadline, |password|, now, configured) && sessions == Absent && Issuable(old(disk), id, deadline)
          && disk.record == Some(Record(id, deadline, Pending, at)) && this.password == password
          && !disk.locked && disk.marker.None? && !disk.recovery
        case Revoke(id) =>
          && sessions == Absent && Revocable(old(disk), id)
          && RevokeAcknowledged(disk, id) && disk.marker.None? && !disk.recovery
        case Refused => false
      ensures past == old(All()) && start == |old(trace)| - 1
      ensures match ParseArguments(args, input)
        case Issue(id, deadline, password) =>
          && disk.tombs == old(disk).tombs
          && (disk.record == old(disk).record || (Holds(disk, id, Pending) && disk.record.value.deadline == deadline))
          && duty == if Asked(deadline, |password|, now, configured) then IssueDuty(id, deadline) else NOTHING
        case Revoke(id) =>
          && this.password == old(this.password)
          && disk.tombs <= old(disk).tombs + {id}
          && (disk.record == old(disk).record || disk.record == Some(RevokedBy(old(disk), id, now, at)))
          && duty == RevokeDuty(id)
        case Refused =>
          disk.record == old(disk).record && disk.tombs == old(disk).tombs && duty == NOTHING
      ensures !faulted && !ok ==> match ParseArguments(args, input)
        case Issue(id, deadline, password) =>
          disk.retired || !Asked(deadline, |password|, now, configured) || sessions != Absent
          || !Issuable(old(disk), id, deadline)
        case Revoke(id) => sessions != Absent || !Revocable(old(disk), id)
        case Refused => true
    {
      match ParseArguments(args, input) {
        case Refused =>
          Begin(NOTHING);
          ok := false;
        case Issue(id, deadline, password) =>
          ok := IssueAccount(id, deadline, password, now, configured, sessions, at);
        case Revoke(id) => ok := RevokeAccount(id, sessions, now, at);
      }
    }

    /** guest-account.sh issue, once its arguments and its password are read. */
    method IssueAccount(id: Id, deadline: int, text: string, now: int, configured: Option<int>, sessions: Inventory,
                        at: int)
      returns (ok: bool)
      requires Valid() && ValidId(id)
      modifies `dead, `faulted, `lockLast, `password, `disk, `trace, `past, `start, `duty
      ensures Valid() && old(trace) <= trace && past == old(All()) && start == |old(trace)| - 1
      ensures duty == if Asked(deadline, |text|, now, configured) then IssueDuty(id, deadline) else NOTHING
      ensures InSession(old(disk)) ==> disk.record == old(disk).record && !ok
      ensures disk.events == old(disk).events && disk.tombs == old(disk).tombs
      ensures old(disk).retired ==> disk.retired && (Sealed(old(disk)) ==> Sealed(disk))
      ensures disk.record == old(disk).record || (Holds(disk, id, Pending) && disk.record.value.deadline == deadline)
      ensures ok ==>
        && Asked(deadline, |text|, now, configured) && sessions == Absent && Issuable(old(disk), id, deadline)
        && disk.record == Some(Record(id, deadline, Pending, at)) && password == text
        && !disk.locked && disk.marker.None? && !disk.recovery && !disk.permit
      ensures !Asked(deadline, |text|, now, configured) || sessions != Absent || !Issuable(old(disk), id, deadline) ==>
        !ok && Untouched(old(disk), disk) && password == old(password)
      ensures !faulted && !ok ==>
        || disk.retired || !Asked(deadline, |text|, now, configured) || sessions != Absent
        || !Issuable(old(disk), id, deadline)
    {
      Begin(if Asked(deadline, |text|, now, configured) then IssueDuty(id, deadline) else NOTHING);
      ok := false;
      if now < deadline <= now + WINDOW && configured == Some(|text|) && 5 <= |text| <= 128 {
        ok := IssueUnderLock(id, deadline, text, sessions, at);
      }
    }

    method IssueUnderLock(id: Id, deadline: int, text: string, sessions: Inventory, at: int) returns (ok: bool)
      requires Valid() && ValidId(id) && (id, deadline) in duty.issues
      modifies `dead, `faulted, `lockLast, `password, `disk, `trace
      ensures Valid() && old(trace) <= trace
      ensures InSession(old(disk)) ==> disk.record == old(disk).record && !ok
      ensures disk.events == old(disk).events && disk.tombs == old(disk).tombs
      ensures old(disk).retired ==> disk.retired && (Sealed(old(disk)) ==> Sealed(disk))
      ensures disk.record == old(disk).record || (Holds(disk, id, Pending) && disk.record.value.deadline == deadline)
      ensures ok ==>
        && sessions == Absent && Issuable(old(disk), id, deadline)
        && disk.record == Some(Record(id, deadline, Pending, at)) && password == text
        && !disk.locked && disk.marker.None? && !disk.recovery && !disk.permit
      ensures sessions != Absent || !Issuable(old(disk), id, deadline) ==>
        !ok && Untouched(old(disk), disk) && password == old(password)
      ensures !faulted && !ok ==> disk.retired || sessions != Absent || !Issuable(old(disk), id, deadline)
    {
      ok := TakeLock();
      if ok {
        ok := IssueLocked(id, deadline, text, sessions, at);
        LeaveLock();
      }
    }

    /** guest-account.sh revoke, once its argument is read. */
    method RevokeAccount(id: Id, sessions: Inventory, now: int, at: int) returns (ok: bool)
      requires Valid() && ValidId(id)
      modifies `dead, `faulted, `lockLast, `disk, `trace, `past, `start, `duty
      ensures Valid() && old(trace) <= trace && past == old(All()) && start == |old(trace)| - 1
      ensures duty == RevokeDuty(id)
      ensures InSession(old(disk)) ==> disk.record == old(disk).record && !ok
      ensures disk.events == old(disk).events && disk.tombs <= old(disk).tombs + {id}
      ensures old(disk).retired ==> disk.retired && (Sealed(old(disk)) ==> Sealed(disk))
      ensures disk.record == old(disk).record || disk.record == Some(RevokedBy(old(disk), id, now, at))
      ensures ok ==>
        && sessions == Absent && Revocable(old(disk), id)
        && RevokeAcknowledged(disk, id) && disk.marker.None? && !disk.recovery
      ensures sessions != Absent || !Revocable(old(disk), id) ==>
        !ok && Untouched(old(disk), disk)
      ensures !faulted && !ok ==> sessions != Absent || !Revocable(old(disk), id)
    {
      Begin(RevokeDuty(id));
      ok := TakeLock();
      if ok {
        ok := RevokeLocked(id, sessions, now, at);
        LeaveLock();
      }
    }

    method IssueLocked(id: Id, deadline: int, text: string, sessions: Inventory, at: int) returns (ok: bool)
      requires Sound() && !dead && ValidId(id) && (id, deadline) in duty.issues
      modifies `dead, `faulted, `lockLast, `password, `disk, `trace
      ensures Sound() && old(trace) <= trace && (old(disk).retired ==> disk.retired)
      ensures old(disk).retired ==> disk == old(disk)
      ensures InSession(old(disk)) ==> disk.record == old(disk).record && !ok
      ensures disk.events == old(disk).events && disk.tombs == old(disk).tombs
      ensures sessions != Absent || !Issuable(old(disk), id, deadline) ==>
        !ok && Untouched(old(disk), disk) && password == old(password)
      ensures disk.record == old(disk).record || (Holds(disk, id, Pending) && disk.record.value.deadline == deadline)
      ensures (old(faulted) ==> faulted)
        && (!faulted && !ok ==> old(disk).retired || sessions != Absent || !Issuable(old(disk), id, deadline))
      ensures ok ==>
        && sessions == Absent && Issuable(old(disk), id, deadline) && !dead
        && disk.record == Some(Record(id, deadline, Pending, at)) && password == text
        && !disk.locked && disk.marker.None? && !disk.recovery
    {
      ok := PassCheck();
      if !ok {
        return;
      }
      var seen := ReadRecord();
      if seen.Unreadable? {
        NoteRecovery();
        return false;
      }
      if sessions != Absent {
        return false;
      }
      var readable := Cmd();  // reading the tombstone
      if !readable || id in disk.tombs {
        return false;
      }
      if seen.Got? && (seen.record.phase == Active
                       || (seen.record.phase == Pending && (seen.record.id != id || seen.record.deadline != deadline))
                       || (seen.record.phase == Revoked && seen.record.id == id)) {
        return false;
      }
      ok := IssueNow(id, deadline, text, at);
    }

    // Secure, with a note if that fails, and remove the marker.
    method SecureAndClear() returns (ok: bool)
      requires Sound()
      modifies `dead, `faulted, `lockLast, `disk, `trace
      ensures Sound() && old(trace) <= trace && (old(disk).retired ==> disk.retired)
      ensures disk == old(disk).(locked := disk.locked, retired := disk.retired,
                                 marker := disk.marker, recovery := disk.recovery)
      ensures (old(disk).locked ==> disk.locked) && (ok ==> disk.locked && disk.marker.None? && !dead)
      ensures old(faulted) || !ok ==> faulted
    {
      ok := Secure();
      if ok {
        ok := ClearMarker();
      } else {
        NoteRecovery();
      }
    }

    // Secure, remove the marker, write the pending record, open the account.
    method IssueNow(id: Id, deadline: int, text: string, at: int) returns (ok: bool)
      requires Sound() && !dead && ValidId(id) && disk.permit && Issuable(disk, id, deadline)
      requires (id, deadline) in duty.issues
      modifies `dead, `faulted, `lockLast, `password, `disk, `trace
      ensures Sound() && old(trace) <= trace && (old(disk).retired ==> disk.retired)
      ensures disk.events == old(disk).events && disk.tombs == old(disk).tombs
      ensures disk.record == old(disk).record || (Holds(disk, id, Pending) && disk.record.value.deadline == deadline)
      ensures old(faulted) || !ok ==> faulted
      ensures ok ==>
        && disk.record == Some(Record(id, deadline, Pending, at)) && password == text
        && !disk.locked && disk.marker.None? && !disk.recovery && !dead
    {
      ok := SecureAndClear();
      if ok {
        ok := WriteState(id, deadline, Pending, at);
      }
      if ok {
        ok := OpenAccount(id, deadline, text);
      }
    }

    // The record is pending: rotate the password, unlock, confirm; any failure locks again.
    method OpenAccount(id: Id, deadline: int, text: string) returns (ok: bool)
      requires Sound() && !dead && disk.permit && Holds(disk, id, Pending) && id !in disk.tombs && disk.marker.None?
      requires disk.record.value.deadline == deadline && (id, deadline) in duty.issues
      modifies `dead, `faulted, `lockLast, `password, `disk, `trace
      ensures Sound() && old(trace) <= trace
      ensures old(disk).retired ==> disk.retired
      ensures disk == old(disk).(locked := disk.locked, retired := disk.retired, recovery := disk.recovery)
      ensures (ok ==> !disk.locked && !disk.recovery && !dead && password == text) && (old(faulted) || !ok ==> faulted)
      ensures !ok && !dead ==> lockLast || !disk.locked
    {
      ok := RotatePassword(text);
      if ok {
        ok := ConfirmUnlocked();
      }
      if ok {
        ok := ClearRecovery();
      }
    }

    // A failure locks again and leaves a note.
    method RotatePassword(text: string) returns (ok: bool)
      requires Sound() && !dead && MayUnlock()
      modifies `dead, `faulted, `lockLast, `password, `disk, `trace
      ensures Sound() && old(trace) <= trace && (old(disk).retired ==> disk.retired)
      ensures disk == old(disk).(locked := disk.locked, retired := disk.retired, recovery := disk.recovery)
      ensures (ok ==> !dead && password == text) && (old(faulted) || !ok ==> faulted) && (!ok ==> lockLast || dead)
    {
      ok := ResetAuthentication();
      if ok {
        ok := SetPassword(text);
      }
      if !ok {
        Relock();
      }
    }

    method Relock()
      requires Sound()
      modifies `dead, `faulted, `lockLast, `disk, `trace
      ensures Sound() && old(trace) <= trace && (old(dead) ==> dead) && (old(faulted) ==> faulted)
      ensures disk == old(disk).(locked := disk.locked, recovery := disk.recovery)
      ensures old(dead) || lockLast
    {
      var _ := LockGuest();
      NoteRecovery();
    }

    // passwd -u and its postflight; anything else locks again.
    method ConfirmUnlocked() returns (ok: bool)
      requires Sound() && !dead && MayUnlock()
      modifies `dead, `faulted, `lockLast, `disk, `trace
      ensures Sound() && old(trace) <= trace && disk == old(disk).(locked := disk.locked)
      ensures (ok ==> !disk.locked && !dead) && (old(faulted) || !ok ==> faulted) && (!ok ==> lockLast || dead)
    {
      ok := UnlockGuest();
      if !ok {
        var _ := LockGuest();
        return;
      }
      var known, locked := IsLocked();
      if !known || locked {
        var _ := LockGuest();
        return false;
      }
    }

    method RevokeLocked(id: Id, sessions: Inventory, now: int, at: int) returns (ok: bool)
      requires Sound() && !dead && ValidId(id) && id in duty.revokes
      modifies `dead, `faulted, `lockLast, `disk, `trace
      ensures Sound() && old(trace) <= trace && (old(disk).retired ==> disk.retired)
      ensures disk.permit == old(disk).permit && (old(disk).locked ==> disk.locked)
      ensures InSession(old(disk)) ==> disk.record == old(disk).record && !ok
      ensures disk.events == old(disk).events && disk.tombs <= old(disk).tombs + {id}
      ensures sessions != Absent || !Revocable(old(disk), id) ==>
        !ok && Untouched(old(disk), disk)
      ensures disk.record == old(disk).record || disk.record == Some(RevokedBy(old(disk), id, now, at))
      ensures ok ==>
        && sessions == Absent && Revocable(old(disk), id)
        && RevokeAcknowledged(disk, id) && disk.marker.None? && !disk.recovery && !dead
      ensures (old(faulted) ==> faulted) && (!faulted && !ok ==> sessions != Absent || !Revocable(old(disk), id))
    {
      ok := false;
      var seen := ReadRecord();
      if seen.Unreadable? {
        NoteRecovery();
        return;
      }
      if sessions != Absent {
        return;
      }
      if seen.Got? && (seen.record.phase == Active || (seen.record.id != id && seen.record.phase != Revoked)) {
        return;
      }
      ok := RevokeNow(id, if seen.Got? && seen.record.id == id then seen.record.deadline else now, at);
    }

    // Secure, remove the marker, write the revoked record.
    method RevokeNow(id: Id, deadline: int, at: int) returns (ok: bool)
      requires Sound() && !dead && ValidId(id) && id in duty.revokes
      requires !InSession(disk)
      requires disk.record.Some? && disk.record.value.id == id ==> disk.record.value.deadline == deadline
      modifies `dead, `faulted, `lockLast, `disk, `trace
      ensures Sound() && old(trace) <= trace && (old(disk).retired ==> disk.retired)
      ensures disk.permit == old(disk).permit && (old(disk).locked ==> disk.locked)
      ensures disk.events == old(disk).events && disk.tombs <= old(disk).tombs + {id}
      ensures disk.record == old(disk).record || disk.record == Some(Record(id, deadline, Revoked, at))
      ensures ok ==> RevokeAcknowledged(disk, id) && disk.marker.None? && !disk.recovery && !dead
      ensures (old(faulted) ==> faulted) && (!faulted ==> (ok <==> !Displaces(old(disk), id)))
    {
      ok := SecureAndClear();
      if ok {
        ok := WriteState(id, deadline, Revoked, at);
      }
      if ok {
        ok := ClearRecovery();
      }
    }

    // ----- guest-session-hook.sh -----

    /**
      * PAM open_session at `now`: it succeeds only for a pending generation before its deadline on an unlocked
      * account, and leaves the session's marker and an active record; a second open leaves that record alone.
      */
    method PamOpen(key: string, now: int, at: int) returns (ok: bool)
      requires Valid() && IsContextKey(key)
      modifies `dead, `faulted, `lockLast, `disk, `trace, `past, `start, `duty, box
      ensures Valid() && old(trace) <= trace && (old(disk).retired ==> disk.retired)
      ensures past == old(All()) && start == |old(trace)| - 1
      ensures duty == NOTHING || (NotDue(old(disk), now) && duty == LoginDuty(old(disk).record.value.id, now))
      ensures InSession(old(disk)) ==> !ok && disk.record == old(disk).record && disk.events == old(disk).events
      ensures InSession(disk) && !InSession(old(disk)) ==>
        && Holds(old(disk), disk.record.value.id, Pending)
        && old(disk).record.value.changed <= now < old(disk).record.value.deadline
        && disk.record.value.deadline == old(disk).record.value.deadline && disk.record.value.changed == at
      ensures disk.record == old(disk).record || InSession(disk)
        || (old(disk).record.Some? && disk.record == Some(EndedAt(old(disk).record.value, at)))
      ensures ok ==> InSession(disk) && !disk.locked && disk.marker == Some(MarkerText(disk.record.value.id, key))
      ensures disk.events == old(disk).events
        || (old(disk).record.Some? && InSession(disk)
            && disk.events == old(disk).events + [Opened(old(disk).record.value.id)])
        || (old(disk).record.Some? && disk.events == old(disk).events + [TimedOut(old(disk).record.value.id)]
            && old(disk).record.value.deadline <= now && Holds(disk, old(disk).record.value.id, Revoked))
      ensures !faulted ==> (ok <==> Opens(old(disk), now))
      ensures !faulted && !ok && !InSession(old(disk)) ==> disk.locked && disk.marker.None?
      ensures !faulted && ok ==> !disk.recovery && disk.events == old(disk).events + [Opened(old(disk).record.value.id)]
      ensures !faulted && Late(old(disk), now) ==>
        && disk.locked && disk.marker.None? && Holds(disk, old(disk).record.value.id, Revoked)
        && disk.events == old(disk).events + [TimedOut(old(disk).record.value.id)]
      ensures old(disk).retired && Sealed(old(disk)) ==> Sealed(disk)
    {
      Begin(NOTHING);
      ok := TakeLock();
      if ok {
        ok := OpenLocked(key, now, at);
        LeaveLock();
      }
    }

    method OpenLocked(key: string, now: int, at: int) returns (ok: bool)
      requires Valid() && !dead && IsContextKey(key) && !disk.permit && duty == NOTHING
      modifies `dead, `faulted, `lockLast, `disk, `trace, `duty, box
      ensures Valid() && old(trace) <= trace && (old(disk).retired ==> disk.retired)
      ensures duty == NOTHING || (NotDue(old(disk), now) && duty == LoginDuty(old(disk).record.value.id, now))
      ensures InSession(old(disk)) ==> !ok && disk.record == old(disk).record && disk.events == old(disk).events
      ensures InSession(disk) && !InSession(old(disk)) ==>
        && Holds(old(disk), disk.record.value.id, Pending)
        && old(disk).record.value.changed <= now < old(disk).record.value.deadline
        && disk.record.value.deadline == old(disk).record.value.deadline && disk.record.value.changed == at
      ensures disk.record == old(disk).record || InSession(disk)
        || (old(disk).record.Some? && disk.record == Some(EndedAt(old(disk).record.value, at)))
      ensures ok ==>
        InSession(disk) && !disk.locked && disk.marker == Some(MarkerText(disk.record.value.id, key)) && !dead
      ensures disk.events == old(disk).events
        || (old(disk).record.Some? && InSession(disk)
            && disk.events == old(disk).events + [Opened(old(disk).record.value.id)])
        || (old(disk).record.Some? && disk.events == old(disk).events + [TimedOut(old(disk).record.value.id)]
            && old(disk).record.value.deadline <= now && Holds(disk, old(disk).record.value.id, Revoked))
      ensures disk.permit == old(disk).permit && (old(disk).locked ==> disk.locked)
      ensures (old(faulted) ==> faulted) && (!faulted ==> (ok <==> Opens(old(disk), now)))
      ensures !ok && !dead && !InSession(old(disk)) ==> lockLast
      ensures !faulted && !ok && !InSession(old(disk)) ==> disk.locked && disk.marker.None?
      ensures !faulted && ok ==> !disk.recovery && disk.events == old(disk).events + [Opened(old(disk).record.value.id)]
      ensures !faulted && Late(old(disk), now) ==>
        && disk.locked && disk.marker.None? && Holds(disk, old(disk).record.value.id, Revoked)
        && disk.events == old(disk).events + [TimedOut(old(disk).record.value.id)]
    {
      ok := false;
      var seen := ReadRecord();
      if seen.Got? && seen.record.phase == Active {
        return;
      }
      if !seen.Got? || seen.record.phase != Pending || now < seen.record.changed {
        FailSecure();
      } else if now >= seen.record.deadline {
        ExpireAtLogin(seen.record, at);
      } else {
        Warrant(LoginDuty(seen.record.id, now));
        assert (seen.record.id, now) in duty.logins;
        ok := OpenSession(seen.record, key, at);
      }
    }

    method ExpireAtLogin(r: Record, at: int)
      requires Valid() && !dead && disk.record == Some(r) && r.phase == Pending && !disk.permit
      modifies `dead, `faulted, `lockLast, `disk, `trace, box
      ensures Valid() && old(trace) <= trace && (old(disk).retired ==> disk.retired)
      ensures disk.record == old(disk).record || disk.record == Some(EndedAt(r, at))
      ensures disk.events == old(disk).events
        || (disk.events == old(disk).events + [TimedOut(r.id)] && Holds(disk, r.id, Revoked))
      ensures disk.permit == old(disk).permit && (old(disk).locked ==> disk.locked)
      ensures dead || lockLast
      ensures (old(faulted) ==> faulted) && (!faulted ==>
        && disk.locked && disk.marker.None? && Holds(disk, r.id, Revoked)
        && disk.events == old(disk).events + [TimedOut(r.id)])
    {
      DiskInv();
      var secured := Secure();
      if !secured {
        FailSecure();
        return;
      }
      var written := WriteState(r.id, r.deadline, Revoked, at);
      if !written {
        return;
      }
      var _ := ClearMarker();
      var _ := Queue(TimedOut(r.id));
    }

    method OpenSession(r: Record, key: string, at: int) returns (ok: bool)
      requires Valid() && !dead && disk.record == Some(r) && r.phase == Pending && IsContextKey(key) && !disk.permit
      requires InTime(duty.logins, r.id, r.deadline)
      modifies `dead, `faulted, `lockLast, `disk, `trace, box
      ensures Valid() && old(trace) <= trace && (old(disk).retired ==> disk.retired)
      ensures disk.record == old(disk).record || disk.record == Some(Record(r.id, r.deadline, Active, at))
      ensures ok ==> Holds(disk, r.id, Active) && !disk.locked && disk.marker == Some(MarkerText(r.id, key)) && !dead
      ensures disk.events == old(disk).events
        || (disk.events == old(disk).events + [Opened(r.id)] && Holds(disk, r.id, Active))
      ensures disk.permit == old(disk).permit && (old(disk).locked ==> disk.locked)
      ensures (old(faulted) ==> faulted) && (!faulted ==> (ok <==> !old(disk).locked))
      ensures !ok ==> dead || lockLast
      ensures !faulted && !ok ==> disk.locked && disk.marker.None?
      ensures !faulted && ok ==> !disk.recovery && disk.events == old(disk).events + [Opened(r.id)]
    {
      DiskInv();
      ok := PrepareSession(r, key, at);
      if !ok {
        FailSecure();
        return;
      }
      var _ := ClearRecovery();
      ok := Queue(Opened(r.id));
      if !ok {
        NoteRecovery();
      }
      ok := !dead;
    }

    // Unlocked account, no old processes, a prepared home, the marker, then the record.
    method PrepareSession(r: Record, key: string, at: int) returns (ok: bool)
      requires Sound() && !dead && disk.record == Some(r) && r.phase == Pending && ValidId(r.id) && !disk.permit
      requires InTime(duty.logins, r.id, r.deadline)
      modifies `dead, `faulted, `disk, `trace
      ensures Sound() && old(trace) <= trace && (old(disk).retired ==> disk.retired)
      ensures disk == old(disk).(record := disk.record, marker := disk.marker, retired := disk.retired)
      ensures disk.record == old(disk).record || disk.record == Some(Record(r.id, r.deadline, Active, at))
      ensures ok ==> Holds(disk, r.id, Active) && !disk.locked && disk.marker == Some(MarkerText(r.id, key)) && !dead
      ensures (old(faulted) ==> faulted) && (!faulted ==> (ok <==> !old(disk).locked))
    {
      ok := false;
      var known, locked := IsLocked();
      if !known || locked {
        return;
      }
      var killed := Cmd();
      if !killed {
        return;
      }
      var prepared := Cmd();
      if !prepared {
        return;
      }
      var marked := WriteMarker(MarkerText(r.id, key));
      if !marked {
        return;
      }
      ok := WriteState(r.id, r.deadline, Active, at);
    }

    /**
      * PAM close_session: a close that belongs to another context changes nothing; every other close secures the
      * account and ends the generation on record.
      */
    method PamClose(key: string, readable: bool, at: int) returns (ok: bool)
      requires Valid() && IsContextKey(key)
      modifies `dead, `faulted, `lockLast, `disk, `trace, `past, `start, `duty, box
      ensures Valid() && old(trace) <= trace && (old(disk).retired ==> disk.retired)
      ensures Foreign(old(disk).marker, key, readable) ==>
        disk == old(disk).(permit := disk.permit, retired := disk.retired)
      ensures ok && !Foreign(old(disk).marker, key, readable) ==>
        disk.locked && disk.marker.None? && disk.record.Some? && disk.record.value.phase == Revoked
      ensures disk.record == old(disk).record
        || (old(disk).record.Some? && disk.record == Some(EndedAt(old(disk).record.value, at)))
      ensures disk.events == old(disk).events
        || (old(disk).record.Some? && disk.events == old(disk).events + [Closed(old(disk).record.value.id)])
      ensures !faulted ==> (ok <==> Foreign(old(disk).marker, key, readable) || old(disk).record.Some?)
      ensures !faulted && !Foreign(old(disk).marker, key, readable) ==> disk.locked && disk.marker.None?
      ensures !faulted && ok && !Foreign(old(disk).marker, key, readable) ==>
        !disk.recovery && disk.events == old(disk).events + ClosedBy(old(disk), readable)
      ensures past == old(All()) && start == |old(trace)| - 1
      ensures duty == NOTHING
        || (!Foreign(old(disk).marker, key, readable) && old(disk).record.Some? && duty == EndOf(old(disk)))
      ensures old(disk).retired && Sealed(old(disk)) ==> Sealed(disk)
    {
      Begin(NOTHING);
      ok := TakeLock();
      if ok {
        ok := CloseLocked(key, readable, at);
        LeaveLock();
      }
    }

    method CloseLocked(key: string, readable: bool, at: int) returns (ok: bool)
      requires Valid() && !dead && !disk.permit && duty == NOTHING
      modifies `dead, `faulted, `lockLast, `disk, `trace, `duty, box
      ensures Valid() && old(trace) <= trace && (old(disk).retired ==> disk.retired)
      ensures Foreign(old(disk).marker, key, readable) ==> disk == old(disk)
      ensures ok && !Foreign(old(disk).marker, key, readable) ==>
        disk.locked && disk.marker.None? && disk.record.Some? && disk.record.value.phase == Revoked
      ensures disk.record == old(disk).record
        || (old(disk).record.Some? && disk.record == Some(EndedAt(old(disk).record.value, at)))
      ensures disk.events == old(disk).events
        || (old(disk).record.Some? && disk.events == old(disk).events + [Closed(old(disk).record.value.id)])
      ensures disk.permit == old(disk).permit && (old(disk).locked ==> disk.locked)
      ensures old(faulted) ==> faulted
      ensures !faulted ==> (ok <==> Foreign(old(disk).marker, key, readable) || old(disk).record.Some?)
      ensures !Foreign(old(disk).marker, key, readable) ==> dead || lockLast
      ensures !faulted && !Foreign(old(disk).marker, key, readable) ==> disk.locked && disk.marker.None?
      ensures !faulted && ok && !Foreign(old(disk).marker, key, readable) ==>
        !disk.recovery && disk.events == old(disk).events + ClosedBy(old(disk), readable)
      ensures duty == NOTHING
        || (!Foreign(old(disk).marker, key, readable) && old(disk).record.Some? && duty == EndOf(old(disk)))
    {
      var seen := ReadRecord();
      var marked := readable && disk.marker.Some?;
      if marked && MarkerKey(disk.marker.value).Some? && MarkerKey(disk.marker.value).value != key {
        return true;
      }
      ok := CloseSession(seen, marked, at);
    }

    method CloseSession(seen: Reading, marked: bool, at: int) returns (ok: bool)
      requires Valid() && !dead && !disk.permit
      requires seen.Got? ==> disk.record == Some(seen.record)
      requires marked ==> disk.marker.Some?
      requires seen.Missing? ==> disk.record.None?
      requires seen.Unreadable? ==> faulted
      requires duty == NOTHING
      modifies `dead, `faulted, `lockLast, `disk, `trace, `duty, box
      ensures Valid() && old(trace) <= trace && (old(disk).retired ==> disk.retired)
      ensures duty == NOTHING || (old(disk).record.Some? && duty == EndOf(old(disk)))
      ensures ok ==>
        disk.locked && disk.marker.None? && disk.record.Some? && disk.record.value.phase == Revoked && !dead
      ensures disk.record == old(disk).record
        || (old(disk).record.Some? && disk.record == Some(EndedAt(old(disk).record.value, at)))
      ensures disk.events == old(disk).events
        || (old(disk).record.Some? && disk.events == old(disk).events + [Closed(old(disk).record.value.id)])
      ensures disk.permit == old(disk).permit && (old(disk).locked ==> disk.locked)
      ensures (old(faulted) ==> faulted) && (!faulted ==> (ok <==> old(disk).record.Some?))
      ensures (dead || lockLast) && (!faulted ==> disk.locked && disk.marker.None?)
      ensures !faulted && ok ==> !disk.recovery && disk.events == old(disk).events + ClosedBy(old(disk), marked)
    {
      DiskInv();
      ok := EndRecord(seen, at);
      if !ok {
        return;
      }
      var r := seen.record;
      if r.phase != Revoked || marked {
        ok := Queue(Closed(r.id));
        if !ok {
          NoteRecovery();
        }
      } else {
        assert disk.events == disk.events + [];
      }
      ok := !dead;
    }

    // Secure, write the revoked record, remove the marker.
    method EndRecord(seen: Reading, at: int) returns (ok: bool)
      requires Sound() && !dead && duty == NOTHING
      requires seen.Got? ==> disk.record == Some(seen.record) && ValidId(seen.record.id)
      modifies `dead, `faulted, `lockLast, `disk, `trace, `duty
      ensures Sound() && old(trace) <= trace && (old(disk).retired ==> disk.retired)
      ensures duty == NOTHING || (old(disk).record.Some? && duty == EndOf(old(disk)))
      ensures ok ==> disk.locked && disk.marker.None? && seen.Got? && Holds(disk, seen.record.id, Revoked)
      ensures disk.record == old(disk).record || (seen.Got? && disk.record == Some(EndedAt(seen.record, at)))
      ensures (dead || lockLast) && (!faulted ==> disk.locked && disk.marker.None? && (ok ==> !disk.recovery))
      ensures (old(faulted) || dead ==> faulted) && (!faulted ==> (ok <==> seen.Got?))
      ensures disk.events == old(disk).events && disk.permit == old(disk).permit && (old(disk).locked ==> disk.locked)
    {
      ok := Secure();
      if !ok || !seen.Got? {
        FailSecure();
        return false;
      }
      ok := EndOnRecord(seen.record, at);
      if !ok {
        FailSecure();
        return;
      }
      ok := ClearUp();
    }

    // The record becomes revoked; its end is the justification.
    method EndOnRecord(r: Record, at: int) returns (ok: bool)
      requires Sound() && !dead && disk.record == Some(r) && ValidId(r.id) && disk.locked && duty == NOTHING
      modifies `dead, `faulted, `disk, `trace, `duty
      ensures Sound() && old(trace) <= trace && duty == EndOf(old(disk))
      ensures disk == old(disk).(record := disk.record, tombs := disk.tombs)
      ensures disk.record == old(disk).record || disk.record == Some(EndedAt(r, at))
      ensures (ok ==> Holds(disk, r.id, Revoked) && !dead) && (old(faulted) || !ok ==> faulted)
    {
      WarrantEnd();
      ok := WriteState(r.id, r.deadline, Revoked, at);
    }

    // Remove the marker, then the recovery note.
    method ClearUp() returns (ok: bool)
      requires Sound() && !dead
      modifies `dead, `faulted, `disk, `trace
      ensures Sound() && old(trace) <= trace && disk == old(disk).(marker := disk.marker, recovery := disk.recovery)
      ensures disk.marker == old(disk).marker || disk.marker.None?
      ensures (ok ==> disk.marker.None?) && (!faulted ==> !disk.recovery) && (old(faulted) || !ok || dead ==> faulted)
    {
      ok := ClearMarker();
      if ok {
        var _ := ClearRecovery();
      }
    }

    // ----- guest-cleanup.sh and guest-boot-lock.sh -----

    /**
      * Cleanup at `now`. An active session ends only at boot, or when no session is seen 120 seconds or more after
      * the last change; a pending generation is left alone until its deadline; a successful boot cleanup leaves
      * the account locked with nothing live on record.
      */
    method Cleanup(boot: bool, now: int, sessions: Inventory, at: int) returns (ok: bool)
      requires Valid()
      modifies `dead, `faulted, `lockLast, `disk, `trace, `past, `start, `duty, box
      ensures Valid() && old(trace) <= trace && (old(disk).retired ==> disk.retired)
      ensures past == old(All()) && start == |old(trace)| - 1
      ensures duty == NOTHING || (Ends(old(disk), boot, now, sessions) && duty == EndOf(old(disk)))
      ensures InSession(old(disk)) && disk.record != old(disk).record ==>
        boot || (sessions == Absent && now - old(disk).record.value.changed >= 120)
      ensures CleansUp(old(disk), disk, boot, now, sessions, at, ok)
      ensures ok && boot ==> Sealed(disk) && (disk.record.Some? ==> disk.record.value.phase == Revoked)
      ensures !faulted ==>
        && (ok <==> !Refuses(old(disk), boot, now, sessions))
        && Cleaned(old(disk), disk, CleanupOf(old(disk), boot, now, sessions))
      ensures old(disk).retired && Sealed(old(disk)) ==> Sealed(disk)
    {
      Begin(NOTHING);
      ok := TakeLock();
      if ok {
        ghost var locked := disk;
        ok := CleanupLocked(boot, now, sessions, at);
        ghost var done := disk;
        LeaveLock();
        CleanedUnderLock(old(disk), locked, done, disk, boot, now, sessions, at, ok);
      }
    }

    method CleanupLocked(boot: bool, now: int, sessions: Inventory, at: int) returns (ok: bool)
      requires Valid() && !dead && !disk.permit && duty == NOTHING
      modifies `dead, `faulted, `lockLast, `disk, `trace, `duty, box
      ensures Valid() && old(trace) <= trace && (old(disk).retired ==> disk.retired)
      ensures duty == NOTHING || (Ends(old(disk), boot, now, sessions) && duty == EndOf(old(disk)))
      ensures CleansUp(old(disk), disk, boot, now, sessions, at, ok)
      ensures (ok ==> !dead) && (ok && boot ==> disk.locked)
      ensures old(faulted) ==> faulted
      ensures !faulted ==>
        && (ok <==> !Refuses(old(disk), boot, now, sessions))
        && Cleaned(old(disk), disk, CleanupOf(old(disk), boot, now, sessions))
      ensures disk.permit == old(disk).permit && (old(disk).locked ==> disk.locked)
    {
      DiskInv();
      var seen := ReadRecord();
      if seen.Got? {
        ok := CleanRecord(seen.record, boot, now, sessions, at);
      } else {
        ok := CleanWithoutRecord(seen);
      }
    }

    method CleanRecord(r: Record, boot: bool, now: int, sessions: Inventory, at: int) returns (ok: bool)
      requires Valid() && !dead && !disk.permit && duty == NOTHING && disk.record == Some(r) && ValidId(r.id)
      modifies `dead, `faulted, `lockLast, `disk, `trace, `duty, box
      ensures Valid() && old(trace) <= trace && (old(disk).retired ==> disk.retired)
      ensures duty == NOTHING || (Ends(old(disk), boot, now, sessions) && duty == EndOf(old(disk)))
      ensures CleansUp(old(disk), disk, boot, now, sessions, at, ok)
      ensures (ok ==> !dead) && (ok && boot ==> disk.locked) && (old(faulted) ==> faulted)
      ensures !faulted ==>
        && (ok <==> !Refuses(old(disk), boot, now, sessions))
        && Cleaned(old(disk), disk, CleanupOf(old(disk), boot, now, sessions))
      ensures disk.permit == old(disk).permit && (old(disk).locked ==> disk.locked)
    {
      if !boot {
        if now < r.changed {
          FailSecure();
          return false;
        }
        if r.phase == Pending && now < r.deadline {
          return true;
        }
        if r.phase == Active {
          if sessions == Unknown {
            NoteRecovery();
            return false;
          }
          if sessions == Present || now - r.changed < 120 {
            return true;
          }
        }
      }
      ok := EndAndReport(r, boot, at);
    }

    // Ends the generation on record and, except at boot, publishes its terminal event.
    method EndAndReport(r: Record, boot: bool, at: int) returns (ok: bool)
      requires Valid() && !dead && !disk.permit && disk.record == Some(r) && ValidId(r.id)
      requires duty == NOTHING
      modifies `dead, `faulted, `lockLast, `disk, `trace, `duty, box
      ensures Valid() && old(trace) <= trace && (old(disk).retired ==> disk.retired)
      ensures duty == NOTHING || duty == EndOf(old(disk))
      ensures disk.record == old(disk).record || disk.record == Some(EndedAt(r, at))
      ensures disk.permit == old(disk).permit && (old(disk).locked ==> disk.locked)
      ensures disk.events == old(disk).events
        || (!boot && Holds(disk, r.id, Revoked)
            && disk.events == old(disk).events + [if r.phase == Pending then TimedOut(r.id) else Closed(r.id)])
      ensures old(faulted) || !ok ==> faulted
      ensures !faulted ==> disk.locked && disk.marker.None? && !disk.recovery
      ensures ok ==>
        && disk.locked && disk.marker.None? && Holds(disk, r.id, Revoked) && !dead
        && (!boot && r.phase != Revoked ==> disk.events != old(disk).events)
    {
      DiskInv();
      ok := EndByCleanup(r, at);
      if ok && !boot && r.phase != Revoked {
        ok := Queue(if r.phase == Pending then TimedOut(r.id) else Closed(r.id));
      }
    }

    method EndByCleanup(r: Record, at: int) returns (ok: bool)
      requires Sound() && !dead && disk.record == Some(r) && ValidId(r.id) && duty == NOTHING
      modifies `dead, `faulted, `lockLast, `disk, `trace, `duty
      ensures Sound() && old(trace) <= trace && (old(disk).retired ==> disk.retired)
      ensures duty == NOTHING || duty == EndOf(old(disk))
      ensures ok ==> disk.locked && disk.marker.None? && Holds(disk, r.id, Revoked) && !dead
      ensures (old(faulted) || !ok ==> faulted) && (!faulted ==> !disk.recovery)
      ensures disk.record == old(disk).record || disk.record == Some(EndedAt(r, at))
      ensures disk.events == old(disk).events && disk.permit == old(disk).permit && (old(disk).locked ==> disk.locked)
    {
      ok := Secure();
      if !ok {
        FailSecure();
        return;
      }
      ok := EndOnRecord(r, at);
      if ok {
        ok := ClearUp();
        ok := ok && !dead;
      }
    }

    // No readable record: secure anyway, and report anything but a missing file.
    method CleanWithoutRecord(seen: Reading) returns (ok: bool)
      requires Sound() && !dead && !seen.Got? && (seen.Missing? ==> disk.record.None?) && (seen.Unreadable? ==> faulted)
      modifies `dead, `faulted, `lockLast, `disk, `trace
      ensures Sound() && old(trace) <= trace && (old(disk).retired ==> disk.retired)
      ensures disk.record == old(disk).record && disk.events == old(disk).events
      ensures disk.permit == old(disk).permit && (old(disk).locked ==> disk.locked)
      ensures ok ==> disk.locked && disk.record.None? && !dead
      ensures !faulted ==> disk.locked && disk.marker.None?
      ensures old(faulted) || !ok ==> faulted
    {
      ok := Secure();
      if !ok {
        FailSecure();
        return;
      }
      var _ := ClearMarker();
      if seen.Unreadable? {
        NoteRecovery();
        return false;
      }
      ok := !dead;
    }

    // ----- guest-heartbeat.sh -----

    /** A heartbeat reports the record on disk, the true lock state, and the sessions that were seen. */
    method Heartbeat(sessions: Inventory) returns (beat: Option<Beat>)
      requires Valid()
      modifies `dead, `faulted, `lockLast, `disk, `trace, `past, `start, `duty, box
      ensures Valid() && old(trace) <= trace && (old(disk).retired ==> disk.retired)
      ensures past == old(All()) && start == |old(trace)| - 1 && duty == NOTHING
      ensures disk.record == old(disk).record && disk.tombs == old(disk).tombs && disk.events == old(disk).events
      ensures beat.Some? ==>
        && beat.value.record == disk.record && beat.value.locked == disk.locked
        && (beat.value.active <==> sessions == Present || (sessions == Unknown && InSession(disk)))
        && (disk.record.None? ==> disk.locked && disk.marker.None?)
      ensures !faulted ==>
        if old(disk).record.Some? then disk == old(disk).(permit := disk.permit, retired := disk.retired)
        else disk.locked && disk.marker.None?
      ensures !faulted ==> (beat.Some? <==> sessions != Unknown || InSession(old(disk)))
      ensures old(disk).retired && Sealed(old(disk)) ==> Sealed(disk)
    {
      beat := None;
      Begin(NOTHING);
      var taken := TakeLock();
      if taken {
        beat := Observe(sessions);
        LeaveLock();
      }
    }

    method Observe(sessions: Inventory) returns (beat: Option<Beat>)
      requires Sound() && !dead && !disk.permit
      modifies `dead, `faulted, `lockLast, `disk, `trace
      ensures Sound() && old(trace) <= trace && (old(disk).retired ==> disk.retired)
      ensures disk.record == old(disk).record && disk.tombs == old(disk).tombs && disk.events == old(disk).events
      ensures disk.permit == old(disk).permit && (old(disk).locked ==> disk.locked)
      ensures beat.Some? ==>
        && beat.value.record == disk.record && beat.value.locked == disk.locked
        && (beat.value.active <==> sessions == Present || (sessions == Unknown && InSession(disk)))
        && (disk.record.None? ==> disk.locked && disk.marker.None?)
      ensures !faulted ==>
        if old(disk).record.Some? then disk == old(disk).(permit := disk.permit, retired := disk.retired)
        else disk.locked && disk.marker.None?
      ensures (old(faulted) ==> faulted) && (!faulted ==> (beat.Some? <==> sessions != Unknown || InSession(old(disk))))
    {
      beat := None;
      var seen := ReadRecord();
      if !seen.Got? {
        var cleared := ClearWithoutRecord(seen);
        if !cleared {
          return;
        }
      }
      if sessions == Unknown && !(seen.Got? && seen.record.phase == Active) {
        return;
      }
      var known, locked := IsLocked();
      if !known {
        return;
      }
      beat := Some(Beat(if seen.Got? then Some(seen.record) else None, locked, sessions != Absent));
    }

    // Without a readable record, secure and remove the marker; a record that is there but cannot be read is an error.
    method ClearWithoutRecord(seen: Reading) returns (ok: bool)
      requires Sound() && !dead && !seen.Got? && (seen.Unreadable? ==> faulted)
      modifies `dead, `faulted, `lockLast, `disk, `trace
      ensures Sound() && old(trace) <= trace && (old(disk).retired ==> disk.retired)
      ensures disk == old(disk).(locked := disk.locked, retired := disk.retired, marker := disk.marker,
                                 recovery := disk.recovery)
      ensures old(disk).locked ==> disk.locked
      ensures ok ==> seen.Missing? && disk.locked && disk.marker.None? && !dead
      ensures (dead || lockLast) && (old(faulted) || !ok ==> faulted)
    {
      ok := Secure();
      if ok {
        ok := ClearMarker();
        ok := ok && !seen.Unreadable?;
      }
      if !ok {
        NoteRecovery();
      }
    }

    // ----- uninstall -----

    /**
      * Uninstall: refuse while a session is seen, write the decommission marker, let helpers that already wait for
      * guest.lock finish, clean up as at boot, and verify. Once its cleanup succeeded the desktop is sealed, whatever
      * happens afterwards.
      */
    method Uninstall(before: Inventory, after: Inventory, now: int, at: int)
      returns (ok: bool, ghost cleaned: bool)
      requires Valid()
      modifies this, box
      ensures Valid() && old(trace) <= trace && Within(old(All()), All())
      ensures cleaned ==> disk.retired && Sealed(disk)
      ensures before != Absent ==> !ok && (disk == old(disk) || disk == old(disk).(retired := true))
      ensures !faulted && before == Absent ==>
        cleaned && (ok <==> after == Absent && disk.marker.None? && !disk.recovery)
      ensures ok ==> cleaned && before == Absent && after == Absent && disk.marker.None? && !disk.recovery
    {
      dead, faulted, cleaned := false, false, false;
      ok := Cmd();
      if !ok || before != Absent {
        ok := false;
        return;
      }
      ok := Retire();
      if !ok {
        return;
      }
      ok := CleanRetired(now, at);
      if ok {
        cleaned := true;
        ok := VerifyLater(after);
      }
    }

    // Whatever happens after the cleanup, and then the verification.
    method VerifyLater(sessions: Inventory) returns (ok: bool)
      requires Valid() && disk.retired && Sealed(disk)
      modifies this, box
      ensures Valid() && old(trace) <= trace && Within(old(All()), All()) && disk.retired && Sealed(disk)
      ensures !faulted ==> (ok <==> sessions == Absent && disk.marker.None? && !disk.recovery)
      ensures ok ==> sessions == Absent && disk.marker.None? && !disk.recovery
    {
      Others();
      ok := VerifySafe(sessions);
    }

    // Helpers that already waited for guest.lock come first; then the boot cleanup.
    method CleanRetired(now: int, at: int) returns (ok: bool)
      requires Valid() && disk.retired
      modifies this, box
      ensures Valid() && old(trace) <= trace && Within(old(All()), All()) && disk.retired
      ensures (ok ==> Sealed(disk)) && (!ok ==> faulted)
    {
      Others();
      dead, faulted := false, false;
      ok := Cmd();
      if ok {
        ok := Cleanup(true, now, Absent, at);
      }
    }

    // The decommission marker is written without guest.lock.
    method Retire() returns (ok: bool)
      requires Sound() && !dead
      modifies `dead, `faulted, `disk, `trace
      ensures Sound() && old(trace) <= trace
      ensures disk == old(disk) || disk == old(disk).(retired := true)
      ensures (ok ==> disk.retired && !dead) && faulted == (old(faulted) || !ok)
    {
      var applied: bool, crash: bool := *, *;
      ok := *;
      if applied {
        Become(disk.(retired := true));
      }
      dead := crash;
      ok := ok && applied && !dead;
      faulted := faulted || !ok;
    }

    method VerifySafe(sessions: Inventory) returns (ok: bool)
      requires Sound()
      modifies `dead, `faulted, `disk, `trace
      ensures Sound() && old(trace) <= trace && disk.events == old(disk).events
      ensures old(disk).retired ==> disk.retired && (Sealed(old(disk)) ==> Sealed(disk))
      ensures !faulted ==>
        && (ok <==> sessions == Absent && old(disk).locked && disk.marker.None? && !disk.recovery)
        && disk == old(disk).(permit := disk.permit, retired := disk.retired)
      ensures ok ==> sessions == Absent && Sealed(disk) && disk.marker.None? && !disk.recovery
    {
      ok := TakeLock();
      if !ok {
        return;
      }
      var known, locked := IsLocked();
      ok := known && locked && sessions == Absent && disk.marker.None? && !disk.recovery;
      if ok {
        ok := Cmd();
        LeaveLock();
      }
    }

    /**
      * Any other helpers run, fail and crash, in any order and number. An active session they leave without warrant
      * for its end is as it was; its end is warranted only by a close that is not of another context, a boot
      * cleanup, or a cleanup that saw no session 120 seconds or more after the last change.
      */
    method Others()
      requires Valid()
      modifies this, box
      ensures Valid() && old(trace) <= trace && Within(old(All()), All())
      ensures old(disk).retired ==> disk.retired && (Sealed(old(disk)) ==> Sealed(disk))
      ensures InSession(old(disk)) && old(disk).record.value.id !in All().ends ==> disk.record == old(disk).record
    {
      var n: nat := *;
      while n > 0
        invariant Valid() && old(trace) <= trace && Within(old(All()), All())
        invariant old(disk).retired ==> disk.retired && (Sealed(old(disk)) ==> Sealed(disk))
      {
        var which: nat, boot: bool, readable: bool, now: int, at: int := *, *, *, *, *;
        var sessions: Inventory, configured: Option<int> := *, *;
        var args: seq<string>, text: string := *, *;
        if which == 0 {
          var _ := Account(args, text, now, configured, sessions, at);
        } else if which == 1 && IsContextKey(text) {
          var _ := PamOpen(text, now, at);
        } else if which == 2 && IsContextKey(text) {
          var _ := PamClose(text, readable, at);
        } else if which == 3 {
          var _ := Cleanup(boot, now, sessions, at);
        } else if which == 4 {
          var _ := Heartbeat(sessions);
        }
        n := n - 1;
      }
      if InSession(old(disk)) && old(disk).record.value.id !in All().ends {
        assert old(trace)[|old(trace)| - 1] == trace[|old(trace)| - 1];
        SessionsEndLawfully(trace, All(), |old(trace)| - 1, |trace| - 1, old(disk).record.value.id);
      }
    }
    /**
      * A login accepted at `now` is still a session, untouched, after every cleanup within 120 seconds, unless it is at
      * boot, as long as the clock does not go back while the login is handled.
      */
    method LogInAndClean(key: string, now: int, at: int, later: int, sessions: Inventory, at2: int)
      returns (entered: bool)
      requires Valid() && IsContextKey(key) && now <= at
      modifies this, box
      ensures Valid()
      ensures entered && later < now + 120 ==> InSession(disk) && disk.record.value.changed == at
    {
      entered := PamOpen(key, now, at);
      var _ := Cleanup(false, later, sessions, at2);
    }
  }

  /** The record of a generation that is ended at this second. */
  function EndedAt(r: Record, at: int): Record {
    r.(phase := Revoked, changed := at)
  }

  /** The record a revoke leaves: with the deadline on record, or the second of the revoke for an unknown generation. */
  function RevokedBy(d: Desk, id: Id, now: int, at: int): Record {
    if d.record.Some? && d.record.value.id == id then EndedAt(d.record.value, at) else Record(id, now, Revoked, at)
  }

  /** A pending generation whose login deadline lies ahead. */
  predicate NotDue(d: Desk, now: int) {
    d.record.Some? && d.record.value.phase == Pending && now < d.record.value.deadline
  }

  /** Writing the record of `id` would displace another live generation. */
  predicate Displaces(d: Desk, id: Id) {
    d.record.Some? && d.record.value.id != id && d.record.value.phase != Revoked
  }

  /** Nothing but guest.lock, the decommission marker and the recovery note may differ. */
  predicate Untouched(was: Desk, d: Desk) {
    d == was.(permit := d.permit, retired := d.retired, recovery := d.recovery)
  }

  /** The command is one that the desktop carries out in this state. */
  predicate Accepts(d: Desk, q: Request, now: int, configured: Option<int>, sessions: Inventory) {
    match q
    case Issue(id, deadline, password) =>
      Asked(deadline, |password|, now, configured) && sessions == Absent && Issuable(d, id, deadline)
    case Revoke(id) => sessions == Absent && Revocable(d, id)
    case Refused => false
  }

  /** What an issue must ask for. */
  predicate Asked(deadline: int, length: nat, now: int, configured: Option<int>) {
    InWindow(deadline, now) && configured == Some(length) && 5 <= length <= 128
  }

  /** The generation is new, or pending already with this very deadline. */
  predicate Issuable(d: Desk, id: Id, deadline: int) {
    && id !in d.tombs
    && (d.record.Some? ==>
          if d.record.value.id == id then d.record.value.phase == Pending && d.record.value.deadline == deadline
          else d.record.value.phase == Revoked)
  }

  /** No session is active on record and no other generation is live. */
  predicate Revocable(d: Desk, id: Id) {
    d.record.Some? ==> d.record.value.phase != Active && (d.record.value.id == id || d.record.value.phase == Revoked)
  }

  /** A login at `now` is in time, and the account is open. */
  predicate Opens(d: Desk, now: int) {
    && d.record.Some? && d.record.value.phase == Pending && !d.locked
    && d.record.value.changed <= now < d.record.value.deadline
  }

  /** A login at `now` finds the pending generation past its deadline. */
  predicate Late(d: Desk, now: int) {
    && d.record.Some? && d.record.value.phase == Pending
    && d.record.value.changed <= now && d.record.value.deadline <= now
  }

  /** For a password the desktop can read, an issue asks for nothing but its length and a deadline in the window. */
  lemma AskedExactly(deadline: int, password: string, now: int, configured: Option<int>)
    requires ValidPassword(password)
    ensures Asked(deadline, |password|, now, configured) <==>
      now < deadline <= now + 86_460 && configured == Some(|password|)
  {
  }

  /** An issue is carried out exactly if its pending record may be written once the account is secured. */
  lemma IssuableIsWritable(d: Desk, id: Id, deadline: int, at: int)
    requires RecordInv(d) && ValidId(id)
    ensures Issuable(d, id, deadline) <==>
      MayWrite(d.(permit := true, locked := true, marker := None), Record(id, deadline, Pending, at))
  {
  }

  /** A revoke is carried out exactly if there is no session and its record may be written after its tombstone. */
  lemma RevocableIsWritable(d: Desk, id: Id, at: int)
    requires RecordInv(d) && ValidId(id)
    ensures Revocable(d, id) <==>
      && !(d.record.Some? && d.record.value.phase == Active)
      && exists deadline ::
           MayWrite(d.(locked := true, marker := None, tombs := d.tombs + {id}), Record(id, deadline, Revoked, at))
  {
    var secured := d.(locked := true, marker := None, tombs := d.tombs + {id});
    var deadline := if d.record.Some? then d.record.value.deadline else 0;
    if Revocable(d, id) {
      assert MayWrite(secured, Record(id, deadline, Revoked, at));
    }
  }

  /** A login of a pending generation on an open account is in time or late, by the deadline alone. */
  lemma LoginsAreDecided(d: Desk, now: int)
    requires d.record.Some? && d.record.value.phase == Pending && !d.locked && d.record.value.changed <= now
    ensures Opens(d, now) <==> now < d.record.value.deadline
    ensures Late(d, now) <==> !Opens(d, now)
  {
  }

  /** A close is foreign exactly if the marker it can read was written by a login of another context. */
  lemma ForeignExactly(id: Id, mine: string, other: string, readable: bool)
    requires ValidId(id) && IsContextKey(mine) && IsContextKey(other)
    ensures Foreign(Some(MarkerText(id, mine)), other, readable) <==> readable && mine != other
    ensures !Foreign(None, other, readable)
  {
    MarkerKeyUndoesText(id, mine);
  }

  /**
    * A session that is closed publishes its close; once it is closed and its marker gone, no close publishes again. A
    * close that was cut off before it removed the marker is made up for by the next.
    */
  lemma ClosesOnce(d: Desk, closed: Desk, readable: bool)
    requires d.record.Some? && d.record.value.phase != Revoked
    requires Holds(closed, d.record.value.id, Revoked) && closed.marker.None?
    ensures ClosedBy(d, readable) == [Closed(d.record.value.id)] && ClosedBy(closed, readable) == []
    ensures forall text :: ClosedBy(closed.(marker := Some(text)), true) == [Closed(d.record.value.id)]
  {
  }

  /** The event a close publishes, unless everything was closed before. */
  function ClosedBy(d: Desk, readable: bool): seq<Event>
    requires d.record.Some?
  {
    if d.record.value.phase != Revoked || (readable && d.marker.Some?) then [Closed(d.record.value.id)] else []
  }

  /** A cleanup that may not end anything: the clock went back, or an active session cannot be inventoried. */
  predicate Refuses(d: Desk, boot: bool, now: int, sessions: Inventory) {
    && !boot && d.record.Some?
    && (now < d.record.value.changed || (d.record.value.phase == Active && sessions == Unknown))
  }

  /** A cleanup that must end the generation on record. */
  predicate Ends(d: Desk, boot: bool, now: int, sessions: Inventory) {
    && d.record.Some?
    && (boot || (now >= d.record.value.changed && match d.record.value.phase
                 case Pending => d.record.value.deadline <= now
                 case Active => sessions == Absent && now - d.record.value.changed >= 120
                 case Revoked => true))
  }

  /** What a cleanup does: nothing, a note, an end of the generation on record, or only securing the account. */
  datatype Clean = Nothing | Note | End | Lock

  predicate Cleaned(was: Desk, d: Desk, c: Clean) {
    match c
    case Nothing => d == was.(permit := d.permit, retired := d.retired)
    case Note => d == was.(permit := d.permit, retired := d.retired, recovery := true)
    case End => d.locked && d.marker.None? && !d.recovery
    case Lock => d.locked && d.marker.None? && (was.record.Some? ==> d.recovery)
  }

  /**
    * Whatever fails, a cleanup changes the record only to revoke a generation that must end, publishes at most that
    * end, and not at boot; success means that what must end has ended, locked, and with its event unless at boot.
    */
  predicate CleansUp(was: Desk, d: Desk, boot: bool, now: int, sessions: Inventory, at: int, ok: bool) {
    && (d.record != was.record ==>
          Ends(was, boot, now, sessions) && d.record == Some(EndedAt(was.record.value, at)))
    && (d.events != was.events ==>
          && !boot && Ends(was, boot, now, sessions) && Holds(d, was.record.value.id, Revoked)
          && d.events == was.events + [if was.record.value.phase == Pending then TimedOut(was.record.value.id)
                                       else Closed(was.record.value.id)])
    && (ok && Ends(was, boot, now, sessions) ==>
          && d.locked && d.marker.None? && Holds(d, was.record.value.id, Revoked)
          && (!boot && was.record.value.phase != Revoked ==> d.events != was.events))
  }

  // Who holds guest.lock, and a decommissioning meanwhile, make no difference.
  lemma CleanedUnderLock(was: Desk, locked: Desk, d: Desk, left: Desk, boot: bool, now: int, sessions: Inventory,
                         at: int, ok: bool)
    requires locked == was.(permit := locked.permit, retired := locked.retired)
    requires left == d.(permit := left.permit)
    ensures CleansUp(locked, d, boot, now, sessions, at, ok) ==> CleansUp(was, left, boot, now, sessions, at, ok)
    ensures var c := CleanupOf(was, boot, now, sessions);
      c == CleanupOf(locked, boot, now, sessions) && (Cleaned(locked, d, c) ==> Cleaned(was, left, c))
  {
  }

  /**
    * A cleanup ends, leaves alone or refuses: an active session is ended only without a session seen for 120 seconds,
    * a pending generation only once it is due, and everything at boot.
    */
  lemma CleanupsAreDecided(d: Desk, boot: bool, now: int, sessions: Inventory)
    ensures var c := CleanupOf(d, boot, now, sessions);
      && (c == End <==> Ends(d, boot, now, sessions))
      && (Refuses(d, boot, now, sessions) <==> c == Note || (c == Lock && d.record.Some?))
      && (c == Nothing && now >= d.record.value.changed ==> NotDue(d, now) || (InSession(d) && sessions != Unknown))
      && (!boot && NotDue(d, now) && d.record.value.changed <= now ==> c == Nothing)
      && (!boot && InSession(d) && d.record.value.changed <= now < d.record.value.changed + 120 ==>
            c == if sessions == Unknown then Note else Nothing)
  {
  }

  function CleanupOf(d: Desk, boot: bool, now: int, sessions: Inventory): Clean {
    if d.record.None? then Lock
    else
      var r := d.record.value;
      if boot then End
      else if now < r.changed then Lock
      else if r.phase == Pending && now < r.deadline then Nothing
      else if r.phase == Active && sessions == Unknown then Note
      else if r.phase == Active && (sessions == Present || now - r.changed < 120) then Nothing
      else End
  }

  datatype Beat = Beat(record: Option<Record>, locked: bool, active: bool)

  /** A readable, well-formed marker of another context. */
  predicate Foreign(marker: Option<string>, key: string, readable: bool) {
    readable && marker.Some? && MarkerKey(marker.value).Some? && MarkerKey(marker.value).value != key
  }
}

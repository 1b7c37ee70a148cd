/** How holds and versions evolve along the runs of the server. */
module ServerHistory {
  import opened Base
  import opened Holds
  import opened Tables
  import opened Reservation
  import opened Webhook
  import opened Delivery
  import opened ServerRuns

  ghost predicate IdsValid(creds: map<Id, Credential>) {
    forall id | id in creds :: ValidId(id)
  }

  /** The only events that clear a hold on `x`: a safe heartbeat, or evidence about exactly `x`. */
  ghost predicate Clears(s: Sys, a: Action, mid: Id, x: Id) {
    match a
    case Receive(token, ep, r, now) =>
      && ValidReport(r, ep) && Authenticates(s.db, token, mid)
      && (SafeHeartbeat(s.db.creds, mid, ep, r, now) || SettlesExactly(s.db.creds, mid, ep, r, x))
    case CommitFinish(pid, fate) => fate != Lost && FinishEnds(s, pid, mid, x)
    case CommitExpire(pid, fate) => fate != Lost && ExpiryEnds(s, pid, mid, x)
    case _ => false
  }

  // An acknowledged compensation of exactly `x` on an unchanged identity with nothing else current.
  ghost predicate FinishEnds(s: Sys, pid: nat, mid: Id, x: Id) {
    && pid in s.procs && s.procs[pid].Finishing? && s.procs[pid].acked
    && s.procs[pid].job.mid == mid && s.procs[pid].job.id == x
    && mid in s.db.machines && SameIdentity(s.db.machines[mid], s.procs[pid].job.target)
    && Idle(Revoked(s.db.creds, x, s.procs[pid].at), mid)
  }

  // An acknowledged expiry of exactly `x`, still due, on an unchanged identity.
  ghost predicate ExpiryEnds(s: Sys, pid: nat, mid: Id, x: Id) {
    && pid in s.procs && s.procs[pid].ExpireAcked?
    && s.procs[pid].c.machine == mid && s.procs[pid].id == x
    && mid in s.db.machines && SameIdentity(s.db.machines[mid], s.procs[pid].target)
    && x in s.db.creds && s.db.creds[x].revokedAt.None? && s.db.creds[x].openedAt.None?
    && s.db.creds[x].expires <= s.procs[pid].at
  }

  /** The hold of one machine before and after a step. */
  ghost predicate HoldMoves(before: Option<Id>, after: Option<Id>, clears: bool) {
    before.Some? ==>
      (after.None? <==> clears) && (after.None? || after == before || after == Some(CONFLICT))
  }

  lemma HoldAfterReport(s: Sys, token: string, ep: Endpoint, r: Report, now: int, mid: Id, x: Id)
    requires Inv(s.db) && mid in s.db.machines && s.db.machines[mid].hold == Some(x)
    ensures var t := Next(s, Receive(token, ep, r, now));
      mid in t.db.machines && HoldMoves(Some(x), t.db.machines[mid].hold, Clears(s, Receive(token, ep, r, now), mid, x))
  {
    if ValidReport(r, ep) && exists k :: Authenticates(s.db, token, k) {
      var k :| Authenticates(s.db, token, k);
      DeliverIsApply(s.db, token, ep, r, now, k);
      if k == mid {
        if r.id.Some? { ConflictIsNoGeneration(r.id.value); }
        if x == CONFLICT {
          ConflictEndsOnlySafely(s.db, mid, ep, r, now);
        } else {
          HoldEndsOnlyByEvidence(s.db, mid, ep, r, now, x);
        }
      }
    }
  }

  lemma HoldAfterPrepare(s: Sys, pid: nat, fate: Fate, mid: Id, x: Id)
    requires mid in s.db.machines && s.db.machines[mid].hold == Some(x)
    ensures var t := Prepared(s, pid, fate);
      mid in t.db.machines && HoldMoves(Some(x), t.db.machines[mid].hold, false)
  {
    if pid in s.procs && s.procs[pid].Compensating? && s.procs[pid].job.mid in s.db.machines {
      var j := s.procs[pid].job;
      var ids := Current(s.db.creds, j.mid) - {j.id} + {j.id};
      JoinIsLeastUpperBound(s.db.machines[j.mid].hold, ids, None);
    }
  }

  lemma HoldAfterFinish(s: Sys, pid: nat, fate: Fate, mid: Id, x: Id)
    requires mid in s.db.machines && s.db.machines[mid].hold == Some(x)
    ensures var t := Finished(s, pid, fate);
      mid in t.db.machines && HoldMoves(Some(x), t.db.machines[mid].hold, fate != Lost && FinishEnds(s, pid, mid, x))
  {
  }

  // Reservations and rekeys need a machine without a hold; the other steps do not write holds at all.
  lemma HoldAfterRegistry(s: Sys, a: Action, mid: Id, x: Id)
    requires a.EnrollMachine? || a.RekeyMachine? || a.HideMachine?
    requires mid in s.db.machines && s.db.machines[mid].hold == Some(x)
    ensures var t := Next(s, a);
      mid in t.db.machines && t.db.machines[mid].hold == Some(x)
  {
  }

  lemma HoldAfterCheckout(s: Sys, a: Action, mid: Id, x: Id)
    requires a.StartCheckout? || a.CommitConfirm?
    requires mid in s.db.machines && s.db.machines[mid].hold == Some(x)
    ensures var t := Next(s, a);
      mid in t.db.machines && t.db.machines[mid].hold == Some(x)
  {
  }

  lemma HoldAfterExpire(s: Sys, pid: nat, fate: Fate, mid: Id, x: Id)
    requires IndexesHold(s.db.creds) && mid in s.db.machines && s.db.machines[mid].hold == Some(x)
    requires pid in s.procs && s.procs[pid].ExpireAcked? ==> ProcOk(s, s.procs[pid])
    ensures var t := Expired(s, pid, fate);
      mid in t.db.machines && HoldMoves(Some(x), t.db.machines[mid].hold, fate != Lost && ExpiryEnds(s, pid, mid, x))
  {
    if pid in s.procs && s.procs[pid].ExpireAcked? {
      var p := s.procs[pid];
      ExpireTouchesOnlyItsOwn(s.db, p.id, p.c.machine, p.target, p.c.email, p.at);
    }
  }

  /**
    * A hold on a generation, or the conflict hold, is cleared by a step exactly when the step carries the
    * evidence `Clears` names; every other step leaves it in place or raises it to the conflict hold.
    */
  lemma HoldClearedOnlyByEvidence(s: Sys, a: Action, mid: Id, x: Id)
    requires SysInv(s) && mid in s.db.machines && s.db.machines[mid].hold == Some(x)
    ensures var t := Next(s, a);
      mid in t.db.machines && HoldMoves(Some(x), t.db.machines[mid].hold, Clears(s, a, mid, x))
  {
    match a {
      case Receive(token, ep, r, now) => HoldAfterReport(s, token, ep, r, now, mid, x);
      case CommitPrepare(pid, fate) => HoldAfterPrepare(s, pid, fate, mid, x);
      case CommitFinish(pid, fate) => HoldAfterFinish(s, pid, fate, mid, x);
      case CommitExpire(pid, fate) => HoldAfterExpire(s, pid, fate, mid, x);
      case EnrollMachine(_, _, _) => HoldAfterRegistry(s, a, mid, x);
      case RekeyMachine(_, _, _, _, _, _) => HoldAfterRegistry(s, a, mid, x);
      case HideMachine(_, _, _, _) => HoldAfterRegistry(s, a, mid, x);
      case StartCheckout(_, _, _, _, _, _, _) => HoldAfterCheckout(s, a, mid, x);
      case CommitConfirm(_, _, _) => HoldAfterCheckout(s, a, mid, x);
      case _ =>
    }
  }

  /** No step of the run is a safe heartbeat of the machine. */
  ghost predicate NeverSafe(s: Sys, actions: seq<Action>, mid: Id)
    decreases |actions|
  {
    actions == [] || (!SafeStep(s, actions[0], mid) && NeverSafe(Next(s, actions[0]), actions[1..], mid))
  }

  ghost predicate SafeStep(s: Sys, a: Action, mid: Id) {
    && a.Receive? && ValidReport(a.r, a.ep) && Authenticates(s.db, a.token, mid)
    && SafeHeartbeat(s.db.creds, mid, a.ep, a.r, a.now)
  }

  lemma ConflictStep(s: Sys, a: Action, mid: Id)
    requires SysInv(s) && IdsValid(s.db.creds)
    requires mid in s.db.machines && s.db.machines[mid].hold == Some(CONFLICT)
    ensures var t := Next(s, a);
      && mid in t.db.machines
      && (t.db.machines[mid].hold == None <==> SafeStep(s, a, mid))
      && (t.db.machines[mid].hold == None || t.db.machines[mid].hold == Some(CONFLICT))
  {
    HoldClearedOnlyByEvidence(s, a, mid, CONFLICT);
    if a.Receive? && a.r.id.Some? && ValidReport(a.r, a.ep) { ConflictIsNoGeneration(a.r.id.value); }
    if a.CommitFinish? && a.pid in s.procs && s.procs[a.pid].Finishing? {
      assert ProcOk(s, s.procs[a.pid]);
      ConflictIsNoGeneration(s.procs[a.pid].job.id);
    }
    if a.CommitExpire? && a.pid in s.procs && s.procs[a.pid].ExpireAcked? {
      assert ProcOk(s, s.procs[a.pid]);
      ConflictIsNoGeneration(s.procs[a.pid].id);
    }
  }

  lemma ReportKeepsRows(s: Sys, token: string, ep: Endpoint, r: Report, now: int)
    requires OneOwner(s.db, token) && AllCoupled(s.db.creds)
    ensures var t := Next(s, Receive(token, ep, r, now));
      && t.db.creds.Keys == s.db.creds.Keys && t.procs == s.procs
      && forall id | id in s.db.creds ::
           s.db.creds[id].version <= t.db.creds[id].version && s.db.creds[id].expires == t.db.creds[id].expires
  {
    if ValidReport(r, ep) && exists k :: Authenticates(s.db, token, k) {
      var k :| Authenticates(s.db, token, k);
      DeliverIsApply(s.db, token, ep, r, now, k);
      CredsAfterLocal(s.db, k, ep, r, now);
    }
  }

  lemma InvHasOneOwner(db: Db, token: string)
    requires Inv(db)
    ensures OneOwner(db, token) && AllCoupled(db.creds)
  {
  }

  // New ids come from reservations only.
  lemma KeysGrowByReservation(s: Sys, a: Action)
    requires !a.Receive?
    ensures var t := Next(s, a);
      t.db.creds.Keys == s.db.creds.Keys
      || (a.StartCheckout? && ValidId(a.id) && t.db.creds.Keys == s.db.creds.Keys + {a.id})
  {
  }

  lemma IdsStayValid(s: Sys, a: Action)
    requires SysInv(s) && IdsValid(s.db.creds)
    ensures IdsValid(Next(s, a).db.creds)
  {
    if a.Receive? {
      InvHasOneOwner(s.db, a.token);
      ReportKeepsRows(s, a.token, a.ep, a.r, a.now);
    } else {
      KeysGrowByReservation(s, a);
    }
  }

  /** A conflict outlives every run without a safe heartbeat, and the machine stays occupied throughout. */
  lemma {:induction false} ConflictOutlivesTheRun(s: Sys, actions: seq<Action>, mid: Id)
    requires SysInv(s) && IdsValid(s.db.creds)
    requires mid in s.db.machines && s.db.machines[mid].hold == Some(CONFLICT)
    requires NeverSafe(s, actions, mid)
    ensures var t := Run(s, actions);
      && mid in t.db.machines && t.db.machines[mid].hold == Some(CONFLICT) && t.db.machines[mid].status == Occupied
    decreases |actions|
  {
    if actions != [] {
      StepKeeps(s, actions[0]);
      ConflictStep(s, actions[0], mid);
      IdsStayValid(s, actions[0]);
      ConflictOutlivesTheRun(Next(s, actions[0]), actions[1..], mid);
    }
  }

  lemma {:induction false} RunIdsStayValid(s: Sys, actions: seq<Action>)
    requires SysInv(s) && IdsValid(s.db.creds)
    ensures IdsValid(Run(s, actions).db.creds)
    decreases |actions|
  {
    if actions != [] {
      StepKeeps(s, actions[0]);
      IdsStayValid(s, actions[0]);
      RunIdsStayValid(Next(s, actions[0]), actions[1..]);
    }
  }

  /** The same for a conflict that arose in any run from an empty store. */
  lemma ConflictOutlivesEveryRun(before: seq<Action>, actions: seq<Action>, mid: Id)
    requires var s := Run(START, before);
      && mid in s.db.machines && s.db.machines[mid].hold == Some(CONFLICT) && NeverSafe(s, actions, mid)
    ensures var t := Run(Run(START, before), actions);
      && mid in t.db.machines && t.db.machines[mid].hold == Some(CONFLICT) && t.db.machines[mid].status == Occupied
  {
    RunKeeps(START, before);
    RunIdsStayValid(START, before);
    ConflictOutlivesTheRun(Run(START, before), actions, mid);
  }

  // ----- availability -----

  /** A report from the machine itself that shows nothing alive. */
  ghost predicate ReportsQuiet(s: Sys, a: Action, mid: Id) {
    && a.Receive? && ValidReport(a.r, a.ep) && Authenticates(s.db, a.token, mid)
    && KindOf(s.db.creds, mid, a.ep, a.r) in {Empty, Terminal}
  }

  /** The commit of a compensation or an expiry after an acknowledged revoke behind the stored pin. */
  ghost predicate ReleasesAcknowledged(s: Sys, a: Action, mid: Id) {
    && mid in s.db.machines && s.db.machines[mid].pin.Some?
    && ((a.CommitFinish? && a.pid in s.procs && s.procs[a.pid].Finishing? && s.procs[a.pid].job.mid == mid
         && (s.db.machines[mid].pin.value, s.procs[a.pid].job.id) in s.acked)
        || (a.CommitExpire? && a.pid in s.procs && s.procs[a.pid].ExpireAcked? && s.procs[a.pid].c.machine == mid
            && (s.db.machines[mid].pin.value, s.procs[a.pid].id) in s.acked))
  }

  lemma AvailableAfterReport(s: Sys, a: Action, mid: Id)
    requires a.Receive? && OneOwner(s.db, a.token) && mid in s.db.machines && s.db.machines[mid].status != Available
    ensures var t := Next(s, a);
      && mid in t.db.machines
      && (t.db.machines[mid].status == Available ==> ReportsQuiet(s, a, mid))
      && (t.db.machines[mid].last != s.db.machines[mid].last ==>
            ValidReport(a.r, a.ep) && Authenticates(s.db, a.token, mid) && t.db.machines[mid].last == Some(a.now))
  {
    if ValidReport(a.r, a.ep) && exists k :: Authenticates(s.db, a.token, k) {
      var k :| Authenticates(s.db, a.token, k);
      DeliverIsApply(s.db, a.token, a.ep, a.r, a.now, k);
    }
  }

  lemma AvailableAfterFinish(s: Sys, pid: nat, fate: Fate, mid: Id)
    requires mid in s.db.machines && s.db.machines[mid].status != Available
    requires pid in s.procs && s.procs[pid].Finishing? ==> ProcOk(s, s.procs[pid])
    ensures var t := Finished(s, pid, fate);
      && mid in t.db.machines && t.db.machines[mid].last == s.db.machines[mid].last
      && (t.db.machines[mid].status == Available ==> ReleasesAcknowledged(s, CommitFinish(pid, fate), mid))
  {
  }

  lemma AvailableAfterExpiry(s: Sys, pid: nat, fate: Fate, mid: Id)
    requires mid in s.db.machines && s.db.machines[mid].status != Available
    requires pid in s.procs && s.procs[pid].ExpireAcked? ==> ProcOk(s, s.procs[pid])
    ensures var t := Expired(s, pid, fate);
      && mid in t.db.machines && t.db.machines[mid].last == s.db.machines[mid].last
      && (t.db.machines[mid].status == Available ==> ReleasesAcknowledged(s, CommitExpire(pid, fate), mid))
  {
  }

  lemma OthersMakeNothingAvailable(s: Sys, a: Action, mid: Id)
    requires !a.Receive? && !a.CommitFinish? && !a.CommitExpire?
    requires mid in s.db.machines && s.db.machines[mid].status != Available
    ensures var t := Next(s, a);
      && mid in t.db.machines && t.db.machines[mid].status != Available
      && (t.db.machines[mid].last == s.db.machines[mid].last || t.db.machines[mid].last.None?)
  {
  }

  /**
    * A machine becomes available only on a report of its own that shows nothing alive, or when a compensation or
    * an expiry ends after an acknowledged revoke behind the pin that is stored; it counts as seen only on a valid
    * report of its own. So a new or rekeyed machine is not lent before its first safe report.
    */
  lemma AvailableOnlyByEvidence(s: Sys, a: Action, mid: Id)
    requires SysInv(s) && mid in s.db.machines && s.db.machines[mid].status != Available
    ensures var t := Next(s, a);
      && mid in t.db.machines
      && (t.db.machines[mid].status == Available ==> ReportsQuiet(s, a, mid) || ReleasesAcknowledged(s, a, mid))
      && (t.db.machines[mid].last != s.db.machines[mid].last && t.db.machines[mid].last.Some? ==>
            a.Receive? && ValidReport(a.r, a.ep) && Authenticates(s.db, a.token, mid))
  {
    if a.Receive? {
      InvHasOneOwner(s.db, a.token);
      AvailableAfterReport(s, a, mid);
    } else if a.CommitFinish? {
      AvailableAfterFinish(s, a.pid, a.fate, mid);
    } else if a.CommitExpire? {
      AvailableAfterExpiry(s, a.pid, a.fate, mid);
    } else {
      OthersMakeNothingAvailable(s, a, mid);
    }
  }

  /** A valid report of the machine itself. */
  ghost predicate ReportStep(s: Sys, a: Action, mid: Id) {
    a.Receive? && ValidReport(a.r, a.ep) && Authenticates(s.db, a.token, mid)
  }

  ghost predicate NeverReports(s: Sys, actions: seq<Action>, mid: Id)
    decreases |actions|
  {
    actions == [] || (!ReportStep(s, actions[0], mid) && NeverReports(Next(s, actions[0]), actions[1..], mid))
  }

  lemma UnseenAfterReport(s: Sys, a: Action, mid: Id)
    requires a.Receive? && OneOwner(s.db, a.token) && mid in s.db.machines && !ReportStep(s, a, mid)
    ensures var t := Next(s, a);
      mid in t.db.machines && t.db.machines[mid].last == s.db.machines[mid].last
  {
    if ValidReport(a.r, a.ep) && exists k :: Authenticates(s.db, a.token, k) {
      var k :| Authenticates(s.db, a.token, k);
      DeliverIsApply(s.db, a.token, a.ep, a.r, a.now, k);
    }
  }

  lemma UnseenAfterOthers(s: Sys, a: Action, mid: Id)
    requires !a.Receive? && mid in s.db.machines && s.db.machines[mid].last.None?
    ensures var t := Next(s, a);
      mid in t.db.machines && t.db.machines[mid].last.None?
  {
  }

  /** Along every run without a valid report of its own, a machine never seen stays unseen and is not lent. */
  lemma {:induction false} UnseenUntilReport(s: Sys, actions: seq<Action>, mid: Id, now: int)
    requires SysInv(s) && mid in s.db.machines && s.db.machines[mid].last.None? && NeverReports(s, actions, mid)
    ensures var t := Run(s, actions);
      mid in t.db.machines && t.db.machines[mid].last.None? && !Reservable(t.db.machines[mid], now)
    decreases |actions|
  {
    if actions != [] {
      var a := actions[0];
      if a.Receive? {
        InvHasOneOwner(s.db, a.token);
        UnseenAfterReport(s, a, mid);
      } else {
        UnseenAfterOthers(s, a, mid);
      }
      StepKeeps(s, a);
      UnseenUntilReport(Next(s, a), actions[1..], mid, now);
    }
  }

  lemma NewIdentityIsUnseen(s: Sys, a: Action, mid: Id)
    requires a.EnrollMachine? || (a.RekeyMachine? && a.mid == mid)
    requires mid in Next(s, a).db.machines
    requires mid in s.db.machines ==> Next(s, a).db.machines[mid] != s.db.machines[mid]
    ensures var m := Next(s, a).db.machines[mid];
      m.status == Offline && m.last.None? && m.hold.None? && m.pin == Some(a.v.pin)
  {
  }

  /**
    * In any run from an empty store, a machine just enrolled or rekeyed is offline and unseen, and it cannot be
    * reserved at any time until a valid report of its own arrives.
    */
  lemma NewIdentityAwaitsReport(before: seq<Action>, a: Action, actions: seq<Action>, mid: Id, now: int)
    requires a.EnrollMachine? || (a.RekeyMachine? && a.mid == mid)
    requires var s := Run(START, before);
      && mid in Next(s, a).db.machines
      && (mid in s.db.machines ==> Next(s, a).db.machines[mid] != s.db.machines[mid])
      && NeverReports(Next(s, a), actions, mid)
    ensures var t := Next(Run(START, before), a);
      && t.db.machines[mid].status == Offline && t.db.machines[mid].last.None?
      && mid in Run(t, actions).db.machines && !Reservable(Run(t, actions).db.machines[mid], now)
  {
    var s := Run(START, before);
    RunKeeps(START, before);
    StepKeeps(s, a);
    NewIdentityIsUnseen(s, a, mid);
    UnseenUntilReport(Next(s, a), actions, mid, now);
  }

  // ----- versions -----

  /** The compensation of the checkout that created `id` takes its preparation step. */
  predicate OwnCompensation(s: Sys, a: Action, id: Id) {
    a.CommitPrepare? && a.pid in s.procs && s.procs[a.pid].Compensating? && s.procs[a.pid].job.id == id
  }

  /** Some checkout of `id` has not returned. */
  predicate CheckoutRuns(s: Sys, id: Id) {
    exists pid :: pid in s.procs && IsCheckout(s.procs[pid]) && s.procs[pid].job.id == id
  }

  lemma VersionAfterCommit(s: Sys, a: Action, id: Id)
    requires a.StartCheckout? || a.CommitConfirm? || a.CommitPrepare? || a.CommitFinish? || a.CommitExpire?
    requires id in s.db.creds && AllCoupled(s.db.creds)
    ensures var t := Next(s, a);
      && id in t.db.creds
      && (t.db.creds[id].version < s.db.creds[id].version ==> OwnCompensation(s, a, id))
  {
    assert Coupled(s.db.creds[id]);
  }

  lemma ExpiryAfterCommit(s: Sys, a: Action, id: Id)
    requires a.StartCheckout? || a.CommitConfirm? || a.CommitPrepare? || a.CommitFinish? || a.CommitExpire?
    requires id in s.db.creds
    ensures var t := Next(s, a);
      && id in t.db.creds
      && (t.db.creds[id].expires != s.db.creds[id].expires ==> OwnCompensation(s, a, id))
  {
  }

  /** The expiry of a credential changes only in the preparation of its own checkout's compensation. */
  lemma ExpiryMovesOnlyInCompensation(s: Sys, a: Action, id: Id)
    requires SysInv(s) && id in s.db.creds
    ensures var t := Next(s, a);
      && id in t.db.creds
      && (t.db.creds[id].expires != s.db.creds[id].expires ==> OwnCompensation(s, a, id))
  {
    if a.Receive? {
      InvHasOneOwner(s.db, a.token);
      ReportKeepsRows(s, a.token, a.ep, a.r, a.now);
    } else if a.StartCheckout? || a.CommitConfirm? || a.CommitPrepare? || a.CommitFinish? || a.CommitExpire? {
      ExpiryAfterCommit(s, a, id);
    }
  }

  lemma CheckoutsStartFresh(s: Sys, a: Action, id: Id)
    requires id in s.db.creds && !CheckoutRuns(s, id)
    ensures !CheckoutRuns(Next(s, a), id)
  {
  }

  /** A version falls only in the compensation of its own checkout. */
  lemma VersionFallsOnlyInCompensation(s: Sys, a: Action, id: Id)
    requires SysInv(s) && id in s.db.creds
    ensures var t := Next(s, a);
      && id in t.db.creds
      && (t.db.creds[id].version < s.db.creds[id].version ==> OwnCompensation(s, a, id))
  {
    if a.Receive? {
      InvHasOneOwner(s.db, a.token);
      ReportKeepsRows(s, a.token, a.ep, a.r, a.now);
    } else if a.StartCheckout? || a.CommitConfirm? || a.CommitPrepare? || a.CommitFinish? || a.CommitExpire? {
      VersionAfterCommit(s, a, id);
    }
  }

  /** Once its checkout has returned, a credential's version never decreases in any continuation. */
  lemma {:induction false} VersionIsMonotone(s: Sys, actions: seq<Action>, id: Id)
    requires SysInv(s) && id in s.db.creds && !CheckoutRuns(s, id)
    ensures var t := Run(s, actions);
      id in t.db.creds && s.db.creds[id].version <= t.db.creds[id].version && !CheckoutRuns(t, id)
    decreases |actions|
  {
    if actions != [] {
      VersionFallsOnlyInCompensation(s, actions[0], id);
      CheckoutsStartFresh(s, actions[0], id);
      StepKeeps(s, actions[0]);
      VersionIsMonotone(Next(s, actions[0]), actions[1..], id);
    }
  }

  // ----- expiry -----

  // The same wherever the expiry stands, given that its position is justified.
  lemma ExpiryStepIsExact(s: Sys, pid: nat, fate: Fate)
    requires pid in s.procs && s.procs[pid].ExpireAcked?
    requires IndexesHold(s.db.creds) && ProcOk(s, s.procs[pid])
    ensures ExpiresExactly(s, Expired(s, pid, fate), s.procs[pid])
  {
    var p := s.procs[pid];
    ExpireTouchesOnlyItsOwn(s.db, p.id, p.c.machine, p.target, p.c.email, p.at);
  }

  /** What the commit of expiry `p` may do. */
  ghost predicate ExpiresExactly(s: Sys, t: Sys, p: Proc)
    requires p.ExpireAcked?
  {
    && p.id in s.db.creds && p.id in t.db.creds && t.db.machines.Keys == s.db.machines.Keys
    && (t.db.creds[p.id] != s.db.creds[p.id] ==>
          s.db.creds[p.id].openedAt.None? && s.db.creds[p.id].revokedAt.None? && t.db.creds[p.id].revokedAt.Some?)
    && (forall id | id in s.db.creds && id != p.id :: id in t.db.creds && t.db.creds[id] == s.db.creds[id])
    && (forall k | k in s.db.machines && t.db.machines[k] != s.db.machines[k] ::
          && k == p.c.machine
          && (s.db.machines[k].hold.None? || s.db.machines[k].hold == Some(p.id))
          && s.db.machines[k].pin.Some? && (s.db.machines[k].pin.value, p.id) in s.acked
          && t.db.machines[k].status == Available && t.db.creds[p.id].revokedAt.Some?)
  }

  /**
    * In every run from an empty store, the commit of an expiry revokes only its own unopened credential, leaves every
    * other row and every hold of another generation alone, and releases the machine only after the desktop behind the
    * pin that is still stored acknowledged the revoke.
    */
  lemma ExpiryIsExact(actions: seq<Action>, pid: nat, fate: Fate)
    requires pid in Run(START, actions).procs && Run(START, actions).procs[pid].ExpireAcked?
    ensures var s := Run(START, actions);
      ExpiresExactly(s, Next(s, CommitExpire(pid, fate)), s.procs[pid])
  {
    var s := Run(START, actions);
    assert IndexesHold(s.db.creds) && ProcOk(s, s.procs[pid]) by {
      RunKeeps(START, actions);
    }
    ExpiryStepIsExact(s, pid, fate);
  }
}

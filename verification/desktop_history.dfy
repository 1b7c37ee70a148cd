/**
  * The desktop's durable state and the single effects its lifecycle code may have on it. A history is any sequence
  * of such effects from a fresh installation; a crash is a history that stops between two effects.
  */
module DesktopHistory {
  import opened Base
  import opened OutboxQueue

  datatype Phase = Pending | Active | Revoked

  /** The credential-state record. */
  datatype Record = Record(id: Id, deadline: int, phase: Phase, changed: int)

  /**
    * `retired` is the decommission marker, `permit` holds while the owner of guest.lock has passed the check for
    * that marker, `events` is everything ever published to the outbox.
    */
  datatype Desk = Desk(
    record: Option<Record>, tombs: set<Id>, marker: Option<string>, locked: bool,
    retired: bool, permit: bool, recovery: bool, events: seq<Event>)

  const FRESH := Desk(None, {}, None, true, false, false, false, [])

  predicate Holds(s: Desk, id: Id, phase: Phase) {
    s.record.Some? && s.record.value.id == id && s.record.value.phase == phase
  }

  predicate LiveRecord(s: Desk, id: Id) {
    Holds(s, id, Pending) || Holds(s, id, Active)
  }

  predicate Silent(events: seq<Event>, id: Id) {
    forall i | 0 <= i < |events| :: events[i].id != id
  }

  /** From its first event on, `id` is the only generation that published. */
  predicate Tail(events: seq<Event>, id: Id) {
    forall i, j | 0 <= i < j < |events| && events[i].id == id :: events[j].id == id
  }

  // ----- the effects -----

  predicate MayWrite(s: Desk, r: Record) {
    && ValidId(r.id)
    && match r.phase
       case Pending =>
         && s.permit && s.locked && s.marker.None? && r.id !in s.tombs
         && (s.record.None?
             || (Holds(s, r.id, Pending) && s.record.value.deadline == r.deadline)
             || (s.record.value.phase == Revoked && s.record.value.id != r.id && s.record.value.id in s.tombs))
       case Active => Holds(s, r.id, Pending) && s.record.value.deadline == r.deadline && s.marker.Some?
       case Revoked =>
         && s.locked && r.id in s.tombs
         && (s.record.None?
             || (s.record.value.id == r.id && s.record.value.deadline == r.deadline)
             || (s.record.value.phase == Revoked && s.record.value.id in s.tombs && s.marker.None?))
  }

  predicate MayPublish(s: Desk, e: Event) {
    if e.Opened? then Holds(s, e.id, Active) && Silent(s.events, e.id)
    else Holds(s, e.id, Revoked) && Tail(s.events, e.id)
  }

  predicate Wrote(s: Desk, t: Desk) {
    t.record.Some? && t == s.(record := t.record) && MayWrite(s, t.record.value)
  }

  predicate Locked(s: Desk, t: Desk) {
    t == s.(locked := true)
  }

  predicate Unlocked(s: Desk, t: Desk) {
    && t == s.(locked := false)
    && s.permit && s.record.Some? && s.record.value.phase == Pending && s.record.value.id !in s.tombs
  }

  predicate Buried(s: Desk, t: Desk, id: Id) {
    t == s.(tombs := s.tombs + {id}) && s.locked
  }

  predicate Marked(s: Desk, t: Desk) {
    t == s.(marker := t.marker) && (t.marker.None? || (s.record.Some? && s.record.value.phase == Pending))
  }

  predicate Published(s: Desk, t: Desk, e: Event) {
    t == s.(events := s.events + [e]) && MayPublish(s, e)
  }

  // Taking or leaving guest.lock, passing its check, decommissioning, setting up again, the recovery note.
  predicate Administered(s: Desk, t: Desk) {
    || t == s.(permit := false)
    || (t == s.(permit := true) && !s.retired)
    || t == s.(retired := t.retired)
    || t == s.(recovery := t.recovery)
  }

  ghost predicate Legal(s: Desk, t: Desk) {
    || t == s || Wrote(s, t) || Locked(s, t) || Unlocked(s, t) || Marked(s, t) || Administered(s, t)
    || (exists id :: Buried(s, t, id)) || (exists e :: Published(s, t, e))
  }

  ghost predicate History(h: seq<Desk>) {
    && h != []
    && if |h| == 1 then h[0] == FRESH else History(h[..|h| - 1]) && Legal(h[|h| - 2], h[|h| - 1])
  }

  lemma {:induction false} HistorySteps(h: seq<Desk>, i: nat)
    requires History(h) && i < |h|
    ensures if i == 0 then h[0] == FRESH else Legal(h[i - 1], h[i])
    decreases |h|
  {
    if i < |h| - 1 {
      HistorySteps(h[..|h| - 1], i);
    }
  }

  // ----- why a desktop changes -----

  /**
    * What justifies effects: the issue commands taken up before their deadlines, each with its deadline, the revoke
    * commands taken up, the logins accepted, each with its time, and the sessions ended for a lawful reason.
    */
  datatype Warrants = Warrants(issues: set<(Id, int)>, revokes: set<Id>, logins: set<(Id, int)>, ends: set<Id>)

  const NOTHING := Warrants({}, {}, {}, {})

  function Plus(a: Warrants, b: Warrants): Warrants {
    Warrants(a.issues + b.issues, a.revokes + b.revokes, a.logins + b.logins, a.ends + b.ends)
  }

  predicate Within(a: Warrants, b: Warrants) {
    a.issues <= b.issues && a.revokes <= b.revokes && a.logins <= b.logins && a.ends <= b.ends
  }

  /** A generation enters the record, and the account is unlocked for it, only on a command for it. */
  predicate Commanded(s: Desk, t: Desk, issues: set<(Id, int)>, revokes: set<Id>) {
    t.record.Some? ==>
      var r := t.record.value;
      && (s.record.None? || s.record.value.id != r.id ==>
            if r.phase == Revoked then r.id in revokes else (r.id, r.deadline) in issues)
      && (s.locked && !t.locked ==> (r.id, r.deadline) in issues)
  }

  /** Some login of the generation was accepted before this deadline. */
  predicate InTime(logins: set<(Id, int)>, id: Id, deadline: int) {
    exists x :: x in logins && x.0 == id && x.1 < deadline
  }

  /** A session becomes active only after a login before its deadline. */
  predicate LoggedIn(s: Desk, t: Desk, logins: set<(Id, int)>) {
    t.record.Some? && t.record.value.phase == Active && t.record != s.record ==>
      InTime(logins, t.record.value.id, t.record.value.deadline)
  }

  /** An active session changes only for a lawful reason. */
  predicate EndedLawfully(s: Desk, t: Desk, ends: set<Id>) {
    s.record.Some? && s.record.value.phase == Active && t.record != s.record ==> s.record.value.id in ends
  }

  predicate Backed(s: Desk, t: Desk, w: Warrants) {
    Commanded(s, t, w.issues, w.revokes) && LoggedIn(s, t, w.logins) && EndedLawfully(s, t, w.ends)
  }

  /** Every effect of the history after its state `k` is justified. */
  ghost predicate Warranted(h: seq<Desk>, k: nat, w: Warrants) {
    |h| > k + 1 ==> Warranted(h[..|h| - 1], k, w) && Backed(h[|h| - 2], h[|h| - 1], w)
  }

  lemma {:induction false} WarrantedSteps(h: seq<Desk>, k: nat, w: Warrants, i: nat)
    requires Warranted(h, k, w) && k < i < |h|
    ensures Backed(h[i - 1], h[i], w)
    decreases |h|
  {
    if i < |h| - 1 {
      WarrantedSteps(h[..|h| - 1], k, w, i);
    }
  }

  lemma BackedByMore(s: Desk, t: Desk, a: Warrants, b: Warrants)
    requires Backed(s, t, a) && Within(a, b)
    ensures Backed(s, t, b)
  {
  }

  lemma {:induction false} MoreWarrants(h: seq<Desk>, k: nat, a: Warrants, b: Warrants)
    requires Warranted(h, k, a) && Within(a, b)
    ensures Warranted(h, k, b)
    decreases |h|
  {
    if |h| > k + 1 {
      MoreWarrants(h[..|h| - 1], k, a, b);
      BackedByMore(h[|h| - 2], h[|h| - 1], a, b);
    }
  }

  /** Along a warranted history a session that was active stays so, unless it was ended for a lawful reason. */
  lemma {:induction false} SessionsEndLawfully(h: seq<Desk>, w: Warrants, i: nat, j: nat, id: Id)
    requires Warranted(h, 0, w) && i <= j < |h| && Holds(h[i], id, Active) && id !in w.ends
    ensures h[j].record == h[i].record
    decreases j
  {
    if i < j {
      SessionsEndLawfully(h, w, i, j - 1, id);
      WarrantedSteps(h, 0, w, j);
    }
  }

  // ----- what every history keeps -----

  /** The published events form one block per generation, with an opening, if any, at its start. */
  ghost predicate Blocks(events: seq<Event>) {
    && (forall i, j, k | 0 <= i < j < k < |events| && events[i].id == events[k].id :: events[j].id == events[i].id)
    && (forall i, j | 0 <= i < j < |events| && events[j].Opened? :: events[i].id != events[j].id)
  }

  /** The same, said of one event after another. */
  predicate Grouped(events: seq<Event>) {
    if events == [] then true
    else
      var before, e := events[..|events| - 1], events[|events| - 1];
      Grouped(before) && Tail(before, e.id) && (e.Opened? ==> Silent(before, e.id))
  }

  lemma {:induction false} GroupedIsBlocks(events: seq<Event>)
    requires Grouped(events)
    ensures Blocks(events)
  {
    if events != [] {
      var n := |events| - 1;
      var before := events[..n];
      GroupedIsBlocks(before);
      assert forall i | 0 <= i < n :: before[i] == events[i];
      forall i, j, k | 0 <= i < j < k < |events| && events[i].id == events[k].id
        ensures events[j].id == events[i].id
      {
        assert before[j] == events[j];
      }
    }
  }

  predicate Safe(s: Desk) {
    !s.locked ==> s.record.Some? && s.record.value.phase != Revoked && s.record.value.id !in s.tombs
  }

  predicate RecordInv(s: Desk) {
    && Safe(s)
    && (s.record.Some? ==> ValidId(s.record.value.id))
    && (s.record.Some? && s.record.value.phase == Revoked ==> s.record.value.id in s.tombs)
    && (s.marker.Some? ==> s.record.Some?)
  }

  /** An event is about an ended generation or the one in the record, which may still publish where it must. */
  predicate EventsInv(s: Desk) {
    && (forall i | 0 <= i < |s.events| ::
          s.events[i].id in s.tombs || (s.record.Some? && s.record.value.id == s.events[i].id))
    && (s.record.Some? && s.record.value.phase == Pending ==> Silent(s.events, s.record.value.id))
    && (s.record.Some? && (s.record.value.phase != Revoked || s.marker.Some?) ==> Tail(s.events, s.record.value.id))
    && Grouped(s.events)
  }

  predicate DeskInv(s: Desk) {
    RecordInv(s) && EventsInv(s)
  }

  lemma WrittenKeepsRecordInv(s: Desk, t: Desk)
    requires RecordInv(s) && Wrote(s, t)
    ensures RecordInv(t)
  {
  }

  lemma LegalKeepsRecordInv(s: Desk, t: Desk)
    requires RecordInv(s) && Legal(s, t)
    ensures RecordInv(t)
  {
    if Wrote(s, t) {
      WrittenKeepsRecordInv(s, t);
    } else if exists id :: Buried(s, t, id) {
      var id :| Buried(s, t, id);
    }
  }

  lemma WrittenKeepsEventsInv(s: Desk, t: Desk)
    requires DeskInv(s) && Wrote(s, t)
    ensures EventsInv(t)
  {
  }

  lemma PublishedKeepsEventsInv(s: Desk, t: Desk, e: Event)
    requires DeskInv(s) && Published(s, t, e)
    ensures EventsInv(t)
  {
    assert t.events[..|t.events| - 1] == s.events;
    assert Tail(s.events, e.id);
  }

  // Every other effect leaves the events alone, and the record too.
  lemma QuietKeepsEventsInv(s: Desk, t: Desk)
    requires EventsInv(s) && t.events == s.events && t.record == s.record && s.tombs <= t.tombs
    requires t.marker.Some? ==> s.marker.Some? || (s.record.Some? && s.record.value.phase == Pending)
    ensures EventsInv(t)
  {
  }

  lemma LegalKeepsInv(s: Desk, t: Desk)
    requires DeskInv(s) && Legal(s, t)
    ensures DeskInv(t)
  {
    LegalKeepsRecordInv(s, t);
    if Wrote(s, t) {
      WrittenKeepsEventsInv(s, t);
    } else if exists e :: Published(s, t, e) {
      var e :| Published(s, t, e);
      PublishedKeepsEventsInv(s, t, e);
    } else {
      QuietKeepsEventsInv(s, t);
    }
  }

  lemma {:induction false} HistoryKeepsInv(h: seq<Desk>, i: nat)
    requires History(h) && i < |h|
    ensures DeskInv(h[i])
  {
    HistorySteps(h, i);
    if i > 0 {
      HistoryKeepsInv(h, i - 1);
      LegalKeepsInv(h[i - 1], h[i]);
    }
  }

  /** At every point of every history, crashes included, an unlocked account has a live, untombstoned generation. */
  lemma UnlockedOnlyForLiveGeneration(h: seq<Desk>, i: nat)
    requires History(h) && i < |h| && !h[i].locked
    ensures exists id :: LiveRecord(h[i], id) && id !in h[i].tombs
  {
    HistoryKeepsInv(h, i);
    var r := h[i].record.value;
    assert LiveRecord(h[i], r.id);
  }

  /** 0 never seen, 1 pending, 2 active, 3 ended. */
  function Stage(s: Desk, id: Id): nat {
    if Holds(s, id, Pending) then 1
    else if Holds(s, id, Active) then 2
    else if Holds(s, id, Revoked) || id in s.tombs then 3
    else 0
  }

  lemma WrittenKeepsStage(s: Desk, t: Desk, id: Id)
    requires RecordInv(s) && Wrote(s, t)
    ensures Stage(s, id) <= Stage(t, id)
  {
  }

  lemma LegalKeepsStage(s: Desk, t: Desk, id: Id)
    requires RecordInv(s) && Legal(s, t)
    ensures Stage(s, id) <= Stage(t, id)
  {
    if Wrote(s, t) {
      WrittenKeepsStage(s, t, id);
    } else {
      assert t.record == s.record && s.tombs <= t.tombs;
    }
  }

  /** A generation only ever moves from pending to active to ended, and never comes back. */
  lemma {:induction false} StagesNeverGoBack(h: seq<Desk>, i: nat, j: nat, id: Id)
    requires History(h) && i <= j < |h|
    ensures Stage(h[i], id) <= Stage(h[j], id)
    decreases j
  {
    if i < j {
      StagesNeverGoBack(h, i, j - 1, id);
      HistoryKeepsInv(h, j - 1);
      HistorySteps(h, j);
      LegalKeepsStage(h[j - 1], h[j], id);
    }
  }

  /** What a desktop's acknowledgement of a revoke stands for. */
  predicate RevokeAcknowledged(s: Desk, id: Id) {
    Holds(s, id, Revoked) && id in s.tombs && s.locked
  }

  /** After an acknowledged revoke the generation is never pending or active again, and no login opens under it. */
  lemma RevokedForever(h: seq<Desk>, i: nat, j: nat, id: Id)
    requires History(h) && i <= j < |h| && RevokeAcknowledged(h[i], id)
    ensures !LiveRecord(h[j], id)
    ensures !h[j].locked ==> h[j].record.Some? && h[j].record.value.id != id
  {
    StagesNeverGoBack(h, i, j, id);
    HistoryKeepsInv(h, j);
  }

  /** A generation that left the record never returns to it pending or active. */
  lemma NeverReturns(h: seq<Desk>, i: nat, j: nat, k: nat, id: Id)
    requires History(h) && i < j < k < |h|
    requires h[i].record.Some? && h[i].record.value.id == id
    requires !(h[j].record.Some? && h[j].record.value.id == id)
    ensures !LiveRecord(h[k], id)
  {
    StagesNeverGoBack(h, i, j, id);
    StagesNeverGoBack(h, j, k, id);
  }

  /** The events published over any history: one block per generation, at most one opening, first in its block. */
  lemma EventsFormBlocks(h: seq<Desk>, i: nat)
    requires History(h) && i < |h|
    ensures Blocks(h[i].events)
  {
    HistoryKeepsInv(h, i);
    GroupedIsBlocks(h[i].events);
  }

  predicate WellNamed(events: seq<Event>) {
    forall i | 0 <= i < |events| :: ValidId(events[i].id)
  }

  lemma LegalKeepsNames(s: Desk, t: Desk)
    requires RecordInv(s) && WellNamed(s.events) && Legal(s, t)
    ensures WellNamed(t.events)
  {
    if exists e :: Published(s, t, e) {
      var e :| Published(s, t, e);
      assert ValidId(e.id);
    } else {
      assert t.events == s.events;
    }
  }

  /** Every event ever published is about a well-formed generation. */
  lemma {:induction false} EventIdsAreValid(h: seq<Desk>, n: nat)
    requires History(h) && n < |h|
    ensures WellNamed(h[n].events)
    decreases n
  {
    HistorySteps(h, n);
    if n > 0 {
      EventIdsAreValid(h, n - 1);
      HistoryKeepsInv(h, n - 1);
      LegalKeepsNames(h[n - 1], h[n]);
    }
  }

  // ----- decommissioning -----

  /** Locked, and whoever holds guest.lock has no permission to unlock. */
  predicate Sealed(s: Desk) {
    s.locked && !s.permit
  }

  lemma LegalKeepsSealed(s: Desk, t: Desk)
    requires Legal(s, t) && Sealed(s) && s.retired
    ensures Sealed(t)
  {
  }

  /** While the decommission marker exists, a sealed desktop stays locked in every continuation. */
  lemma {:induction false} RetiredStaysLocked(h: seq<Desk>, i: nat, j: nat)
    requires History(h) && i <= j < |h| && Sealed(h[i])
    requires forall k | i <= k < j :: h[k].retired
    ensures Sealed(h[j])
    decreases j
  {
    if i < j {
      RetiredStaysLocked(h, i, j - 1);
      HistorySteps(h, j);
      LegalKeepsSealed(h[j - 1], h[j]);
    }
  }
}

/**
  * The one-time compaction of the old clock-named event queue: every generation it mentions is tombstoned and
  * reported closed, a journal remembers them across crashes, and the old files are archived last.
  */
module LegacyOutbox {
  import opened Base
  import opened OutboxQueue
  import opened DesktopHistory

  predicate Distinct(ids: seq<Id>) {
    forall i, j | 0 <= i < j < |ids| :: ids[i] != ids[j]
  }

  /** Named by an old event file, by the journal or by the state record. */
  predicate Mentioned(id: Id, legacy: map<string, Id>, journal: Option<seq<Id>>, record: Option<Record>) {
    || (exists f | f in legacy :: legacy[f] == id)
    || (journal.Some? && id in journal.value)
    || (record.Some? && id == record.value.id)
  }

  function AddOnce(ids: seq<Id>, id: Id): (r: seq<Id>)
    ensures forall x :: x in r <==> x in ids || x == id
    ensures Distinct(ids) ==> Distinct(r)
  {
    if id in ids then ids else ids + [id]
  }

  /** Nothing but some of these files is gone. */
  predicate Remains(was: map<string, Id>, now: map<string, Id>, files: set<string>) {
    && (forall f | f in now :: f in was && now[f] == was[f])
    && (forall f | f in was && f !in files :: f in now)
  }

  class Host {
    var legacy: map<string, Id>      // old event files and the generation each one names
    var journal: Option<seq<Id>>
    var record: Option<Record>
    var tombs: set<Id>
    var published: seq<Event>        // every numbered event ever queued
    var dead: bool

    // Some step of the running attempt failed, or it was killed.
    ghost var faulted: bool

    // The generations whose record other helpers replaced by that of another one.
    ghost var displaced: set<Id>

    predicate Unfinished()
      reads this
    {
      legacy != map[] || journal.Some?
    }

    /** The generations an unfinished compaction has to deal with. */
    predicate Affected(id: Id)
      reads this
    {
      Unfinished() && Mentioned(id, legacy, journal, record)
    }

    /** Named by an old event file or by the journal. */
    predicate Listed(id: Id)
      reads this
    {
      Mentioned(id, legacy, journal, None)
    }

    /** Tombstoned, and reported closed with version 3. */
    predicate Done(id: Id)
      reads this
    {
      id in tombs && Closed(id) in published
    }

    ghost predicate Valid()
      reads this
    {
      && (journal.Some? ==> journal.value != [])
      && (record.Some? && record.value.phase == Revoked ==> record.value.id in tombs)
      && displaced <= tombs
    }

    constructor (legacy: map<string, Id>, record: Option<Record>, tombs: set<Id>)
      requires record.Some? && record.value.phase == Revoked ==> record.value.id in tombs
      ensures Valid() && this.legacy == legacy && journal == None && this.record == record && this.tombs == tombs
      ensures published == [] && displaced == {}
    {
      this.legacy, this.record, this.tombs := legacy, record, tombs;
      journal, published, dead, faulted, displaced := None, [], false, false, {};
    }

    // ----- single effects; each may fail, apply and still fail, or be the last one before a crash -----

    method Cmd() returns (ok: bool)
      modifies `dead, `faulted
      ensures (ok ==> !dead) && faulted == (old(faulted) || !ok)
    {
      var crash: bool := *;
      ok := *;
      dead := dead || crash;
      ok := ok && !dead;
      faulted := faulted || !ok;
    }

    method WriteJournal(ids: seq<Id>) returns (ok: bool)
      requires Valid() && ids != []
      modifies `dead, `faulted, `journal
      ensures Valid() && (journal == old(journal) || journal == Some(ids))
      ensures (ok ==> journal == Some(ids) && !dead) && faulted == (old(faulted) || !ok)
    {
      var applied: bool, crash: bool := *, *;
      ok := *;
      if !dead && applied {
        journal := Some(ids);
      }
      dead := dead || crash;
      ok := ok && applied && !dead;
      faulted := faulted || !ok;
    }

    method RemoveJournal() returns (ok: bool)
      requires Valid()
      modifies `dead, `faulted, `journal
      ensures Valid() && (journal == old(journal) || journal.None?)
      ensures (ok ==> journal.None? && !dead) && faulted == (old(faulted) || !ok)
    {
      var applied: bool, crash: bool := *, *;
      ok := *;
      if !dead && applied {
        journal := None;
      }
      dead := dead || crash;
      ok := ok && applied && !dead;
      faulted := faulted || !ok;
    }

    method Bury(id: Id) returns (ok: bool)
      requires Valid()
      modifies `dead, `faulted, `tombs
      ensures Valid() && old(tombs) <= tombs <= old(tombs) + {id}
      ensures (ok ==> id in tombs && !dead) && faulted == (old(faulted) || !ok)
    {
      var applied: bool, crash: bool := *, *;
      ok := *;
      if !dead && applied {
        tombs := tombs + {id};
      }
      dead := dead || crash;
      ok := ok && applied && !dead;
      faulted := faulted || !ok;
    }

    /** The record of a generation that still counts as live becomes revoked, after its tombstone. */
    method RevokeRecord() returns (ok: bool)
      requires Valid() && record.Some?
      modifies `dead, `faulted, `record, `tombs
      ensures Valid() && record.Some? && record.value.id == old(record).value.id
      ensures old(tombs) <= tombs <= old(tombs) + {record.value.id}
      ensures (ok ==> record.value.phase == Revoked && !dead) && faulted == (old(faulted) || !ok)
    {
      ok := Bury(record.value.id);
      if ok {
        var applied: bool, crash: bool := *, *;
        var changed: int := *;
        if applied {
          record := Some(record.value.(phase := Revoked, changed := changed));
        }
        dead := crash;
        ok := applied && !dead;
        faulted := faulted || !ok;
      }
    }

    method QueueClose(id: Id) returns (ok: bool)
      requires Valid() && id in tombs
      modifies `dead, `faulted, `published
      ensures Valid() && (published == old(published) || published == old(published) + [Closed(id)])
      ensures (ok ==> Closed(id) in published && !dead) && faulted == (old(faulted) || !ok)
    {
      var applied: bool, crash: bool := *, *;
      ok := *;
      if !dead && applied {
        published := published + [Closed(id)];
      }
      dead := dead || crash;
      ok := ok && applied && !dead;
      faulted := faulted || !ok;
    }

    /** Each file moves on its own; a crash may fall between two of them. */
    method Archive(files: set<string>) returns (ok: bool)
      requires Valid() && !dead && files <= legacy.Keys
      modifies `dead, `faulted, `legacy
      ensures Valid() && Remains(old(legacy), legacy, files)
      ensures (ok ==> legacy.Keys !! files && !dead) && (old(faulted) || !ok ==> faulted)
    {
      ok := true;
      var rest := files;
      while rest != {} && ok
        invariant rest <= files && Remains(old(legacy), legacy, files)
        invariant ok ==> legacy.Keys !! (files - rest) && !dead
        invariant old(faulted) || !ok ==> faulted
        decreases |rest|
      {
        var f :| f in rest;
        ok := Move(f);
        rest := rest - {f};
      }
    }

    method Move(file: string) returns (ok: bool)
      modifies `dead, `faulted, `legacy
      ensures legacy == old(legacy) || legacy == old(legacy) - {file}
      ensures (ok ==> legacy == old(legacy) - {file} && !dead) && faulted == (old(faulted) || !ok)
    {
      var applied: bool, crash: bool := *, *;
      ok := *;
      if !dead && applied {
        legacy := legacy - {file};
      }
      dead := dead || crash;
      ok := ok && applied && !dead;
      faulted := faulted || !ok;
    }

    /** The journal first, then the old files, then the record: each generation once. */
    method Collect() returns (ids: seq<Id>)
      ensures forall id :: id in ids <==> Mentioned(id, legacy, journal, record)
      ensures journal.None? || Distinct(journal.value) ==> Distinct(ids)
    {
      ids := if journal.Some? then journal.value else [];
      var files := legacy.Keys;
      while files != {}
        invariant files <= legacy.Keys
        invariant forall id :: id in ids <==>
          || (exists f | f in legacy && f !in files :: legacy[f] == id)
          || (journal.Some? && id in journal.value)
        invariant journal.None? || Distinct(journal.value) ==> Distinct(ids)
        decreases |files|
      {
        var f :| f in files;
        ids := AddOnce(ids, legacy[f]);
        files := files - {f};
      }
      if record.Some? {
        ids := AddOnce(ids, record.value.id);
      }
    }

    /**
      * One attempt. Whatever fails and wherever it is killed, every affected generation stays affected or is done,
      * nothing done is undone, and only tombstoned generations are reported closed. A successful attempt leaves
      * none affected; a journal that names a generation twice is refused, and none is ever written.
      */
    method Migrate() returns (ok: bool)
      requires Valid()
      modifies this
      ensures Valid() && displaced == old(displaced)
      ensures forall id | old(Affected(id)) :: Affected(id) || Done(id)
      ensures forall id | old(Listed(id)) :: Listed(id) || Done(id)
      ensures old(tombs) <= tombs && old(published) <= published
      ensures forall i | |old(published)| <= i < |published| :: published[i].Closed? && published[i].id in tombs
      ensures ok ==> !Unfinished() && (old(Unfinished()) && record.Some? ==> record.value.phase == Revoked)
      ensures record.Some? <==> old(record).Some?
      ensures record.Some? ==> record.value.id == old(record).value.id
      ensures old(journal).Some? && !Distinct(old(journal).value) ==> !ok && journal == old(journal)
      ensures journal == old(journal) || journal.None? || Distinct(journal.value)
      ensures !faulted ==> (ok <==> old(journal).None? || Distinct(old(journal).value))
    {
      dead, faulted := false, false;
      ok := Cmd();
      if !ok || !Unfinished() {
        return;
      }
      if journal.Some? && !Distinct(journal.value) {
        return false;
      }
      var files := legacy.Keys;
      var ids := Collect();
      assert ids != [] by {
        if legacy != map[] {
          var f :| f in legacy;
          assert Mentioned(legacy[f], legacy, journal, record);
        } else {
          assert Mentioned(journal.value[0], legacy, journal, record);
        }
      }
      ok := Cmd();  // the endpoint is observed dormant
      if ok {
        ok := WriteJournal(ids);
      }
      if ok {
        ok := Compact(ids, files);
      }
    }

    /** The part after the journal is durable. */
    method Compact(ids: seq<Id>, files: set<string>) returns (ok: bool)
      requires Valid() && !dead && ids != [] && Distinct(ids) && journal == Some(ids) && files == legacy.Keys
      requires forall f | f in legacy :: legacy[f] in ids
      requires record.Some? ==> record.value.id in ids
      modifies this
      ensures Valid() && displaced == old(displaced)
      ensures journal == Some(ids) || forall id | id in ids :: Done(id)
      ensures old(tombs) <= tombs && old(published) <= published
      ensures forall i | |old(published)| <= i < |published| :: published[i].Closed? && published[i].id in tombs
      ensures ok ==> !Unfinished() && (record.Some? ==> record.value.phase == Revoked)
      ensures record.Some? <==> old(record).Some?
      ensures record.Some? ==> record.value.id == old(record).value.id
      ensures journal == old(journal) || journal.None?
      ensures old(faulted) || !ok ==> faulted
    {
      ok := Cmd();  // secure the guest, clear the PAM marker, observe it dormant again
      if !ok {
        return;
      }
      if record.Some? && record.value.phase != Revoked {
        ok := RevokeRecord();
        if !ok {
          return;
        }
      }
      ok := CloseAll(ids);
      if !ok {
        return;
      }
      ok := Archive(files);
      if !ok {
        return;
      }
      assert legacy.Keys == {};
      ok := RemoveJournal();
    }

    method CloseAll(ids: seq<Id>) returns (ok: bool)
      requires Valid() && !dead
      modifies `dead, `faulted, `tombs, `published
      ensures Valid() && old(tombs) <= tombs && old(published) <= published
      ensures forall i | |old(published)| <= i < |published| :: published[i].Closed? && published[i].id in tombs
      ensures ok ==> !dead && forall id | id in ids :: Done(id)
      ensures old(faulted) || !ok ==> faulted
    {
      ok := true;
      var k := 0;
      while k < |ids| && ok
        invariant 0 <= k <= |ids| && Valid() && old(tombs) <= tombs && old(published) <= published
        invariant forall i | |old(published)| <= i < |published| :: published[i].Closed? && published[i].id in tombs
        invariant ok ==> !dead && forall i | 0 <= i < k :: Done(ids[i])
        invariant old(faulted) || !ok ==> faulted
        decreases |ids| - k, ok
      {
        ok := Bury(ids[k]);
        if ok {
          ok := QueueClose(ids[k]);
          k := k + 1;
        }
      }
    }

    /**
      * Between two attempts the other helpers run: they add tombstones and events, and they replace the record under
      * its rule, a generation only after its tombstone. The old files and the journal are not theirs.
      */
    method Meanwhile()
      requires Valid()
      modifies `record, `tombs, `published, `displaced
      ensures Valid() && old(tombs) <= tombs && old(published) <= published && old(displaced) <= displaced
      ensures old(record).Some? ==>
        record.Some? && (record.value.id == old(record).value.id || old(record).value.id in displaced)
    {
      var n: nat := *;
      while n > 0
        invariant Valid() && old(tombs) <= tombs && old(published) <= published && old(displaced) <= displaced
        invariant old(record).Some? ==>
          record.Some? && (record.value.id == old(record).value.id || old(record).value.id in displaced)
      {
        var buries: bool, publishes: bool, id: Id, e: Event, next: Record := *, *, *, *, *;
        if buries {
          tombs := tombs + {id};
        } else if publishes {
          published := published + [e];
        } else if Replaces(next) {
          Replace(next);
        }
        n := n - 1;
      }
    }

    /** The same generation, or another one after an ended one; revoked only after its tombstone. */
    predicate Replaces(next: Record)
      reads this
    {
      && (next.phase == Revoked ==> next.id in tombs)
      && (record.Some? ==> record.value.id == next.id || record.value.phase == Revoked)
    }

    method Replace(next: Record)
      requires Valid() && Replaces(next)
      modifies `record, `displaced
      ensures Valid() && record == Some(next)
      ensures displaced == old(displaced) +
        if old(record).Some? && old(record).value.id != next.id then {old(record).value.id} else {}
    {
      if record.Some? && record.value.id != next.id {
        displaced := displaced + {record.value.id};
      }
      record := Some(next);
    }

    /** The generation on record needs nothing more, or is still there to be dealt with, or was replaced. */
    ghost predicate Followed(id: Id)
      reads this
    {
      Done(id) || (Unfinished() && record.Some? && record.value.id == id) || id in displaced
    }

    // One attempt and, unless it succeeded, what happens after it.
    method Attempt() returns (ok: bool)
      requires Valid()
      modifies this
      ensures Valid() && old(tombs) <= tombs && old(published) <= published
      ensures forall id | old(Listed(id)) :: Listed(id) || Done(id)
      ensures forall id | old(Followed(id)) :: Followed(id)
      ensures ok ==> !Unfinished()
    {
      assert Unfinished() && record.Some? ==> Affected(record.value.id);
      ok := Migrate();
      assert forall id | old(Followed(id)) :: Followed(id);
      if !ok {
        Meanwhile();
      }
    }

    /**
      * After any number of killed or failed attempts, with any helpers running between them, a successful one has
      * tombstoned and closed every generation that the old files or the journal named, and the one that was on record
      * too, unless a helper replaced it meanwhile; then it is tombstoned.
      */
    method MigrateUntilDone(attempts: nat) returns (ok: bool)
      requires Valid()
      modifies this
      ensures Valid() && old(tombs) <= tombs && old(published) <= published
      ensures forall id | old(Listed(id)) :: Listed(id) || Done(id)
      ensures ok ==> !Unfinished() && forall id | old(Listed(id)) :: Done(id)
      ensures ok && old(Unfinished()) && old(record).Some? ==>
        old(record).value.id in tombs && (Done(old(record).value.id) || old(record).value.id in displaced)
    {
      ok := false;
      var n := 0;
      while n < attempts && !ok
        invariant Valid() && old(tombs) <= tombs && old(published) <= published
        invariant forall id | old(Listed(id)) :: Listed(id) || Done(id)
        invariant old(Unfinished()) && old(record).Some? ==> Followed(old(record).value.id)
        invariant ok ==> !Unfinished()
        decreases attempts - n
      {
        ok := Attempt();
        n := n + 1;
      }
    }
  }
}

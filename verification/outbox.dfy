/** The desktop's durable event queue: numbered event files, in-order at-least-once delivery. */
module OutboxQueue {
  import opened Base

  /** The events a desktop reports: session-open (version 2), session-close and credential-expired (version 3). */
  datatype Event = Opened(id: Id) | Closed(id: Id) | TimedOut(id: Id)

  const MAX_SEQUENCE: nat := 999_999_999_999_999_999

  datatype Item = Item(number: nat, event: Event)

  function Max(a: nat, b: nat): nat {
    if a < b then b else a
  }

  // ----- deliveries as positions in the log of published events -----

  /** Positions 0, 1, 2, ... in order, each once or more, the last one being `k - 1`. */
  ghost predicate Staircase(d: seq<nat>, k: nat) {
    if d == [] then k == 0
    else
      var front := d[..|d| - 1];
      k > 0 && d[|d| - 1] == k - 1 && (Staircase(front, k) || Staircase(front, k - 1))
  }

  /** Repeats of the same position are dropped. */
  ghost function Collapse(d: seq<nat>): seq<nat> {
    if d == [] then []
    else
      var front := d[..|d| - 1];
      if front != [] && d[|d| - 1] == front[|front| - 1] then Collapse(front) else Collapse(front) + [d[|d| - 1]]
  }

  lemma {:induction false} StaircaseCollapses(d: seq<nat>, k: nat)
    requires Staircase(d, k)
    ensures |Collapse(d)| == k
    ensures forall i | 0 <= i < k :: Collapse(d)[i] == i
    decreases |d|
  {
    if d != [] {
      var front := d[..|d| - 1];
      if Staircase(front, k) {
        StaircaseCollapses(front, k);
      } else {
        StaircaseCollapses(front, k - 1);
      }
    }
  }

  function EventsOf(items: seq<Item>): (r: seq<Event>)
    ensures |r| == |items|
  {
    seq(|items|, i requires 0 <= i < |items| => items[i].event)
  }

  lemma EventsOfConcat(a: seq<Item>, b: seq<Item>)
    ensures EventsOf(a + b) == EventsOf(a) + EventsOf(b)
  {
  }

  /** The events received, repeats collapsed, when the positions `d` of the log were delivered. */
  ghost function Received(log: seq<Event>, d: seq<nat>, k: nat): seq<Event>
    requires k <= |log| && Staircase(d, k)
  {
    StaircaseCollapses(d, k);
    var c := Collapse(d);
    seq(|c|, i requires 0 <= i < |c| => log[c[i]])
  }

  lemma ReceivedIsPrefix(log: seq<Event>, d: seq<nat>, k: nat)
    requires k <= |log| && Staircase(d, k)
    ensures Received(log, d, k) == log[..k]
  {
    StaircaseCollapses(d, k);
  }

  // ----- event files -----

  predicate Increasing(s: seq<Item>) {
    forall i, j | 0 <= i < j < |s| :: s[i].number < s[j].number
  }

  /** Every number in use is covered by the persisted counter. */
  predicate Counted(s: seq<Item>, counter: Option<nat>) {
    forall i | 0 <= i < |s| :: counter.Some? && 1 <= s[i].number <= counter.value
  }

  function LastUsed(counter: Option<nat>): nat {
    if counter.Some? then counter.value else 0
  }

  /** The directory that holds exactly these items. */
  function FilesOf(s: seq<Item>): map<nat, Event> {
    if s == [] then map[]
    else
      var last := s[|s| - 1];
      FilesOf(s[..|s| - 1])[last.number := last.event]
  }

  lemma {:induction false} FilesOfMembers(s: seq<Item>, n: nat)
    requires Increasing(s)
    ensures n in FilesOf(s) <==> exists i :: 0 <= i < |s| && s[i].number == n
    ensures forall i | 0 <= i < |s| && s[i].number == n :: FilesOf(s)[n] == s[i].event
    decreases |s|
  {
    if s != [] {
      var front := s[..|s| - 1];
      FilesOfMembers(front, n);
      assert forall i | 0 <= i < |front| :: front[i] == s[i];
      if exists i :: 0 <= i < |front| && front[i].number == n {
        var i :| 0 <= i < |front| && front[i].number == n;
        assert s[i].number == n;
      }
    }
  }

  lemma FilesOfTail(s: seq<Item>, n: nat)
    requires Increasing(s) && s != []
    ensures n in FilesOf(s[1..]) <==> n in FilesOf(s) && n != s[0].number
    ensures n in FilesOf(s[1..]) ==> n in FilesOf(s) && FilesOf(s[1..])[n] == FilesOf(s)[n]
  {
    var rest := s[1..];
    FilesOfMembers(s, n);
    FilesOfMembers(rest, n);
    if i :| 0 <= i < |s| && s[i].number == n && n != s[0].number {
      assert rest[i - 1].number == n;
    }
    if i :| 0 <= i < |rest| && rest[i].number == n {
      assert s[i + 1] == rest[i];
    }
  }

  /** The first name of a listing belongs to the oldest item; without it, the rest is left. */
  lemma FirstIsOldest(s: seq<Item>)
    requires Increasing(s) && s != []
    ensures s[0].number in FilesOf(s) && FilesOf(s)[s[0].number] == s[0].event
    ensures forall n | n in FilesOf(s) :: s[0].number <= n
    ensures FilesOf(s[1..]) == FilesOf(s) - {s[0].number}
  {
    FilesOfMembers(s, s[0].number);
    forall n | n in FilesOf(s) ensures s[0].number <= n {
      FilesOfMembers(s, n);
    }
    forall n: nat ensures n in FilesOf(s[1..]) <==> n in FilesOf(s) && n != s[0].number {
      FilesOfTail(s, n);
    }
    forall n | n in FilesOf(s[1..]) ensures n in FilesOf(s) && FilesOf(s[1..])[n] == FilesOf(s)[n] {
      FilesOfTail(s, n);
    }
  }

  class Outbox {
    var counter: Option<nat>
    var files: map<nat, Event>

    // Everything ever published: its events, the items already removed and those still in files; and every
    // delivery by position.
    ghost var log: seq<Event>
    ghost var gone: seq<Item>
    ghost var rest: seq<Item>
    ghost var delivered: seq<nat>

    // Some file or network operation of the running process failed.
    ghost var faulted: bool

    ghost function Published(): seq<Item>
      reads this
    {
      gone + rest
    }

    ghost predicate Numbered()
      reads this
    {
      && Increasing(Published())
      && (counter.Some? ==> counter.value <= MAX_SEQUENCE)
      && Counted(Published(), counter)
    }

    ghost predicate Valid()
      reads this
    {
      && Numbered()
      && log == EventsOf(Published())
      && files == FilesOf(rest)
      && (Staircase(delivered, |gone|) || (rest != [] && Staircase(delivered, |gone| + 1)))
    }

    constructor ()
      ensures Valid() && Published() == [] && log == [] && delivered == []
    {
      counter, files := None, map[];
      log, gone, rest, delivered, faulted := [], [], [], [], false;
    }

    lemma RestIncreasing()
      requires Numbered()
      ensures Increasing(rest)
    {
      forall i, j | 0 <= i < j < |rest| ensures rest[i].number < rest[j].number {
        assert rest[i] == Published()[|gone| + i] && rest[j] == Published()[|gone| + j];
      }
    }

    /** The largest number in use: the scan of the files never finds more than the persisted counter. */
    method Highest() returns (n: nat)
      requires Numbered() && files == FilesOf(rest)
      ensures n == LastUsed(counter)
      ensures forall i | 0 <= i < |Published()| :: Published()[i].number <= n
    {
      n := LastUsed(counter);
      var names := files.Keys;
      while names != {}
        invariant names <= files.Keys && n == LastUsed(counter)
        decreases |names|
      {
        var k :| k in names;
        RestIncreasing();
        FilesOfMembers(rest, k);
        assert exists i :: 0 <= i < |Published()| && Published()[i].number == k by {
          var i :| 0 <= i < |rest| && rest[i].number == k;
          assert Published()[|gone| + i] == rest[i];
        }
        n := Max(n, k);
        names := names - {k};
      }
    }

    /** Reading a directory or a file. */
    method Read() returns (ok: bool)
      requires Valid()
      modifies `faulted
      ensures Valid() && faulted == (old(faulted) || !ok)
    {
      ok := *;
      faulted := faulted || !ok;
      assert Published() == old(Published());
    }

    /** One file replacement or removal: it may fail before it happens, or after it; success implies it happened. */
    method Persist() returns (applied: bool, ok: bool)
      modifies `faulted
      ensures (ok ==> applied) && faulted == (old(faulted) || !ok)
    {
      applied := *;
      ok := *;
      ok := ok && applied;
      faulted := faulted || !ok;
    }

    /**
      * Queue: persist the next number, then publish the event under it. Either write may fail, take effect and
      * still report an error, or be followed by a crash; a number is then skipped, never used twice. Without such a
      * failure the call succeeds unless the numbers are used up.
      */
    method Queue(e: Event) returns (ok: bool, crashed: bool, visible: bool)
      requires Valid()
      modifies this
      ensures Valid() && gone == old(gone) && delivered == old(delivered)
      ensures if visible then rest == old(rest) + [Item(LastUsed(old(counter)) + 1, e)]
              else rest == old(rest) && files == old(files)
      ensures log == if visible then old(log) + [e] else old(log)
      ensures ok ==> visible && !crashed
      ensures (old(faulted) ==> faulted) && (!faulted ==> (ok <==> old(counter) != Some(MAX_SEQUENCE)))
    {
      ok, crashed, visible := false, false, false;
      var readable := Read();
      if !readable {
        return;
      }
      var last := Highest();
      if last >= MAX_SEQUENCE {
        return;
      }
      var next := last + 1;
      var counted, kept := Persist();
      if counted {
        counter := Some(next);
      }
      if !kept {
        crashed := *;
        return;
      }
      var written, done := Persist();
      if written {
        Publish(next, e);
        visible := true;
      }
      if !done {
        crashed := *;
        return;
      }
      ok := true;
    }

    /** The same, as the lifecycle code sees it. */
    method Append(e: Event) returns (ok: bool, crashed: bool, visible: bool)
      requires Valid()
      modifies this
      ensures Valid() && log == if visible then old(log) + [e] else old(log)
      ensures ok ==> visible && !crashed
      ensures (old(faulted) ==> faulted) && (!faulted ==> (ok <==> old(counter) != Some(MAX_SEQUENCE)))
    {
      ok, crashed, visible := Queue(e);
    }

    method Publish(n: nat, e: Event)
      requires Valid() && counter == Some(n) && 1 <= n <= MAX_SEQUENCE
      requires forall i | 0 <= i < |Published()| :: Published()[i].number < n
      modifies `files, `rest, `log
      ensures Valid() && rest == old(rest) + [Item(n, e)] && log == old(log) + [e]
    {
      files := files[n := e];
      rest, log := rest + [Item(n, e)], log + [e];
      assert rest[..|rest| - 1] == old(rest);
      assert Published() == old(Published()) + [Item(n, e)];
      EventsOfConcat(old(Published()), [Item(n, e)]);
    }

    /** The event files in the order of their names. */
    static method Entries(files: map<nat, Event>, ghost items: seq<Item>) returns (entries: seq<nat>)
      requires Increasing(items) && files == FilesOf(items)
      ensures |entries| == |items| && forall i | 0 <= i < |items| :: entries[i] == items[i].number
    {
      entries := [];
      ghost var left := items;
      var names := files.Keys;
      while names != {}
        invariant Increasing(left) && names == FilesOf(left).Keys
        invariant |entries| <= |items| && left == items[|entries|..]
        invariant forall i | 0 <= i < |entries| :: entries[i] == items[i].number
        decreases |names|
      {
        var n := Least(names);
        FirstIsOldest(left);
        assert left != [] && n == left[0].number && left[0] == items[|entries|];
        assert (FilesOf(left) - {n}).Keys == names - {n};
        assert items[|entries|..][1..] == items[|entries| + 1..];
        entries := entries + [n];
        left := left[1..];
        names := names - {n};
      }
      if left != [] { FirstIsOldest(left); }
    }

    static method Least(s: set<nat>) returns (m: nat)
      requires s != {}
      ensures m in s && forall x | x in s :: m <= x
    {
      m :| m in s;
      var todo := s - {m};
      while todo != {}
        invariant todo <= s && m in s && forall x | x in s && x !in todo :: m <= x
        decreases |todo|
      {
        var x :| x in todo;
        if x < m { m := x; }
        todo := todo - {x};
      }
    }

    /** Other processes queue any number of events while the flush waits for the network. */
    method OthersQueue()
      requires Valid()
      modifies this
      ensures Valid() && gone == old(gone) && delivered == old(delivered) && old(rest) <= rest
      ensures old(Published()) <= Published() && faulted == old(faulted)
    {
      ghost var mine := faulted;
      var n: nat := *;
      while n > 0
        invariant Valid() && gone == old(gone) && delivered == old(delivered) && old(rest) <= rest
      {
        var e: Event := *;
        var _, _, _ := Queue(e);
        n := n - 1;
      }
      faulted := mine;
    }

    /** A post of the oldest remaining event: it may not arrive, arrive unacknowledged, or be acknowledged. */
    method Post() returns (acknowledged: bool)
      requires Valid() && rest != []
      modifies `delivered, `faulted
      ensures Valid() && faulted == (old(faulted) || !acknowledged)
      ensures delivered == old(delivered) || delivered == old(delivered) + [|gone|]
      ensures acknowledged ==> Staircase(delivered, |gone| + 1)
    {
      var arrived: bool := *;
      acknowledged := *;
      acknowledged := acknowledged && arrived;
      if arrived {
        delivered := delivered + [|gone|];
        assert delivered[..|delivered| - 1] == old(delivered);
        assert Staircase(delivered, |gone| + 1);
      }
      assert Published() == old(Published());
      faulted := faulted || !acknowledged;
    }

    method Remove(n: nat)
      requires Valid() && rest != [] && n == rest[0].number && Staircase(delivered, |gone| + 1)
      modifies `files, `gone, `rest
      ensures Valid() && gone == old(gone) + [old(rest)[0]] && rest == old(rest)[1..]
      ensures Published() == old(Published())
    {
      RestIncreasing();
      FirstIsOldest(rest);
      files := files - {n};
      gone, rest := gone + [rest[0]], rest[1..];
      assert Published() == old(Published());
    }

    /**
      * Flush: post the files of one directory listing in name order, removing each after its acknowledgement and
      * stopping at the first failure. Events queued meanwhile keep their place behind the listing. While another
      * flush runs, a second one does nothing.
      */
    method Flush(busy: bool) returns (ok: bool)
      requires Valid()
      modifies this
      ensures Valid() && old(Published()) <= Published() && old(gone) <= gone
      ensures busy ==> ok && Published() == old(Published()) && gone == old(gone) && delivered == old(delivered)
      ensures ok && !busy ==> |gone| == |old(Published())|
      ensures (old(faulted) ==> faulted) && (!faulted ==> ok)
    {
      ok := true;
      if !busy {
        ok := PostAll();
      }
    }

    method PostAll() returns (ok: bool)
      requires Valid()
      modifies this
      ensures Valid() && old(Published()) <= Published() && old(gone) <= gone
      ensures ok ==> |gone| == |old(Published())|
      ensures (old(faulted) ==> faulted) && (!faulted ==> ok)
    {
      ok := Read();
      if !ok {
        return;
      }
      RestIncreasing();
      ghost var all, before := Published(), gone;
      var entries := Entries(files, rest);
      var i := 0;
      while i < |entries|
        invariant 0 <= i <= |entries| && Valid()
        invariant |gone| == |before| + i && |before| + |entries| == |all|
        invariant before <= gone && all <= Published() && (old(faulted) ==> faulted)
        invariant forall k | 0 <= k < |entries| :: entries[k] == all[|before| + k].number
      {
        assert rest[0] == Published()[|gone|] == all[|gone|];
        ok := Send(entries[i]);
        if !ok {
          return;
        }
        i := i + 1;
      }
      ok := true;
    }

    /** One file of the listing: post it and, once acknowledged, remove it. */
    method Send(n: nat) returns (ok: bool)
      requires Valid() && rest != [] && n == rest[0].number
      modifies this
      ensures Valid() && old(Published()) <= Published() && old(gone) <= gone
      ensures ok ==> |gone| == |old(gone)| + 1
      ensures (old(faulted) ==> faulted) && (!faulted ==> ok)
    {
      ok := Read();
      if !ok {
        return;
      }
      OthersQueue();
      ok := Post();
      if !ok {
        return;
      }
      OthersQueue();
      var removed, synced := Persist();
      if removed {
        Remove(n);
      }
      ok := synced;
    }

    /**
      * Nothing is lost, reordered or invented: the events the server received, repeats collapsed, are a prefix of
      * the published ones that ends at the first remaining file or right behind it; what was removed, followed by
      * what remains in files, is everything published, under strictly increasing numbers.
      */
    lemma DeliveredThenRemaining()
      requires Valid()
      ensures exists k: nat :: |gone| <= k <= |gone| + 1 && k <= |log| && Staircase(delivered, k)
                               && Received(log, delivered, k) == log[..k]
      ensures log == EventsOf(gone) + EventsOf(rest)
      ensures Staircase(delivered, |gone|) ==> Received(log, delivered, |gone|) + EventsOf(rest) == log
      ensures files == FilesOf(rest) && Increasing(gone + rest)
    {
      EventsOfConcat(gone, rest);
      if Staircase(delivered, |gone|) {
        ReceivedIsPrefix(log, delivered, |gone|);
        assert log[..|gone|] == EventsOf(gone);
      } else {
        ReceivedIsPrefix(log, delivered, |gone| + 1);
      }
    }
  }
}

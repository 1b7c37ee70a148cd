/**
  * The activity log: one page of the audit table at a time, newest first, continued by a cursor that names the last
  * row shown. Following the cursors to the end shows every matching row exactly once.
  */
module ActivityLog {
  import opened Base
  import opened Tables
  import opened Codec

  const PAGE := 50

  /** Where a row stands in the listing. Rows are shown by time and then by id, both descending. */
  datatype Key = Key(time: int, id: string)

  datatype AuditEvent =
    | WebCheckout | WebLogin | WebLogout | SessionOpen | SessionClose | PasswordTimeout
    | Unlisted(name: string)

  datatype Detail = Detail(event: AuditEvent, email: Option<string>, machine: Option<Id>)

  type Log = map<Key, Detail>

  datatype Source = Web | Physical

  datatype Action = Checkout | Login | Logout | Timeout

  datatype Status = Reserved | LoggedIn | LoggedOut | TimedOut

  datatype Shown = Shown(source: Source, action: Action, status: Status)

  /** The six events a page may show; every other audit row is internal. */
  function Mapping(event: AuditEvent): Option<Shown> {
    match event
    case WebCheckout => Some(Shown(Web, Checkout, Reserved))
    case WebLogin => Some(Shown(Web, Login, LoggedIn))
    case WebLogout => Some(Shown(Web, Logout, LoggedOut))
    case SessionOpen => Some(Shown(Physical, Login, LoggedIn))
    case SessionClose => Some(Shown(Physical, Logout, LoggedOut))
    case PasswordTimeout => Some(Shown(Physical, Timeout, TimedOut))
    case Unlisted(_) => None
  }

  /** The event an audit row is about, by the name it is stored under. */
  function EventNamed(name: string): AuditEvent {
    if name == "checkout" then WebCheckout
    else if name == "login" then WebLogin
    else if name == "logout" then WebLogout
    else if name == "session_open" then SessionOpen
    else if name == "session_close" then SessionClose
    else if name == "password_timeout" then PasswordTimeout
    else Unlisted(name)
  }

  const LISTED := [WebCheckout, WebLogin, WebLogout, SessionOpen, SessionClose, PasswordTimeout]

  /** A filter parameter: absent or "all", one known value, or anything else. */
  datatype Filter<T> = All | Only(value: T) | Unknown

  /** The cursor parameter after decoding. */
  datatype Position = Start | Malformed | After(key: Key)

  datatype Query = Query(source: Filter<Source>, action: Filter<Action>, email: string, position: Position)

  datatype Entry = Entry(key: Key, shown: Shown, email: string, machine: Option<(Id, string)>)

  datatype Reply = Page(entries: seq<Entry>, next: Option<Key>) | Rejected(reason: string)

  // ----- the order -----

  predicate Newer(a: Key, b: Key) {
    a.time > b.time || (a.time == b.time && LexBefore(b.id, a.id))
  }

  lemma {:induction false} LexIsTransitive(a: string, b: string, c: string)
    requires LexBefore(a, b) && LexBefore(b, c)
    ensures LexBefore(a, c)
  {
    if a != "" && a[0] == b[0] == c[0] {
      LexIsTransitive(a[1..], b[1..], c[1..]);
    }
  }

  lemma {:induction false} LexIsTotal(a: string, b: string)
    ensures a == b || LexBefore(a, b) || LexBefore(b, a)
  {
    if a != "" && b != "" && a[0] == b[0] {
      LexIsTotal(a[1..], b[1..]);
      assert a == [a[0]] + a[1..] && b == [b[0]] + b[1..];
    }
  }

  lemma NewerIsTotalOrder(a: Key, b: Key, c: Key)
    ensures !(Newer(a, b) && Newer(b, a))
    ensures a == b || Newer(a, b) || Newer(b, a)
    ensures Newer(a, b) && Newer(b, c) ==> Newer(a, c)
  {
    LexIsAsymmetric(a.id, b.id);
    LexIsTotal(a.id, b.id);
    if LexBefore(c.id, b.id) && LexBefore(b.id, a.id) {
      LexIsTransitive(c.id, b.id, a.id);
    }
  }

  // ----- the listing: what ORDER BY and LIMIT mean -----

  predicate IsNewest(m: Key, s: set<Key>) {
    m in s && forall k | k in s && k != m :: Newer(m, k)
  }

  method Newest(s: set<Key>) returns (m: Key)
    requires s != {}
    ensures IsNewest(m, s)
  {
    m :| m in s;
    var rest := s - {m};
    while rest != {}
      invariant rest <= s && m in s - rest
      invariant forall k | k in s - rest && k != m :: Newer(m, k)
      decreases |rest|
    {
      var k :| k in rest;
      rest := rest - {k};
      if Newer(k, m) {
        NewestMoves(s - rest, m, k);
        m := k;
      } else {
        NewerIsTotalOrder(m, k, k);
      }
    }
  }

  lemma NewestMoves(s: set<Key>, m: Key, n: Key)
    requires Newer(n, m) && forall k | k in s && k != m && k != n :: Newer(m, k)
    ensures forall k | k in s && k != n :: Newer(n, k)
  {
    forall k | k in s && k != n ensures Newer(n, k) {
      NewerIsTotalOrder(n, m, k);
    }
  }

  ghost predicate Sorted(r: seq<Key>) {
    forall i, j | 0 <= i < j < |r| :: Newer(r[i], r[j])
  }

  /** The sequence shows every row of the set once, newest first. */
  ghost predicate Lists(r: seq<Key>, s: set<Key>) {
    Sorted(r) && forall k :: k in r <==> k in s
  }

  ghost predicate Above(r: seq<Key>, s: set<Key>) {
    forall k, j | k in r && j in s :: Newer(k, j)
  }

  function OlderThan(s: set<Key>, c: Key): set<Key> {
    set k | k in s && Newer(c, k)
  }

  /** The newest rows of the set in order, as many as the limit allows; `rest` are the others. */
  ghost predicate Head(p: seq<Key>, s: set<Key>, rest: set<Key>, limit: nat) {
    && |p| == (if |s| <= limit then |s| else limit)
    && rest <= s
    && Lists(p, s - rest)
    && Above(p, rest)
  }

  /** There is only one listing of a set. */
  lemma {:induction false} ListingIsUnique(a: seq<Key>, b: seq<Key>, s: set<Key>)
    requires Lists(a, s) && Lists(b, s)
    ensures a == b
    decreases |a|
  {
    if a == [] {
      assert s == {};
      ListingLength(b, s);
    } else {
      assert a[0] in s;
      assert a[0] in b;
      assert b[0] in s;
      assert b[0] in a;
      NewerIsTotalOrder(a[0], b[0], b[0]);
      TailLists(a, s);
      TailLists(b, s);
      ListingIsUnique(a[1..], b[1..], s - {a[0]});
    }
  }

  lemma TailLists(r: seq<Key>, s: set<Key>)
    requires Lists(r, s) && r != []
    ensures Lists(r[1..], s - {r[0]})
  {
    forall k ensures k in r[1..] <==> k in s - {r[0]} {
      if k in r[1..] {
        var j :| 0 <= j < |r[1..]| && r[1..][j] == k;
        assert k == r[j + 1] && Newer(r[0], r[j + 1]);
        NewerIsTotalOrder(k, k, k);
      }
    }
  }

  lemma ListingsJoin(a: seq<Key>, b: seq<Key>, s: set<Key>, t: set<Key>)
    requires Lists(a, s) && Lists(b, t) && Above(a, t)
    ensures Lists(a + b, s + t)
  {
    forall i, j | 0 <= i < j < |a + b| ensures Newer((a + b)[i], (a + b)[j]) {
      if i < |a| <= j {
        assert a[i] in a && b[j - |a|] in b;
      }
    }
  }

  lemma {:induction false} ListingLength(r: seq<Key>, s: set<Key>)
    requires Lists(r, s)
    ensures |r| == |s|
    decreases |r|
  {
    if r == [] {
      assert s == {};
    } else {
      TailLists(r, s);
      assert r[0] in r;
      ListingLength(r[1..], s - {r[0]});
    }
  }

  /** What is left after a page is what is older than its last row: the cursor loses nothing and repeats nothing. */
  lemma RestIsOlder(p: seq<Key>, s: set<Key>, rest: set<Key>)
    requires rest <= s && Lists(p, s - rest) && Above(p, rest) && p != []
    ensures rest == OlderThan(s, p[|p| - 1])
  {
    var c := p[|p| - 1];
    assert c in p;
    forall k | k in s ensures k in rest <==> Newer(c, k) {
      NewerIsTotalOrder(c, k, k);
      if k !in rest {
        assert k in p;
        var i :| 0 <= i < |p| && p[i] == k;
        assert i == |p| - 1 || Newer(p[i], p[|p| - 1]);
      }
    }
  }

  // ----- one page -----

  predicate Selects(q: Query, event: AuditEvent) {
    match Mapping(event)
    case None => false
    case Some(m) => (q.source.All? || q.source == Only(m.source)) && (q.action.All? || q.action == Only(m.action))
  }

  predicate Matches(q: Query, d: Detail) {
    && d.email.Some?
    && Selects(q, d.event)
    && (q.email == "" || Lower(d.email.value) == Lower(q.email))
  }

  function Matching(rows: Log, q: Query): set<Key> {
    set k | k in rows && Matches(q, rows[k])
  }

  /** The rows a page may still show. */
  function Remaining(rows: Log, q: Query): set<Key> {
    if q.position.After? then OlderThan(Matching(rows, q), q.position.key) else Matching(rows, q)
  }

  predicate KnownFilters(q: Query) {
    !q.source.Unknown? && !q.action.Unknown?
  }

  /** A timeout is physical and a checkout is not, so two pairs of filters select no event at all. */
  predicate Contradictory(q: Query) {
    || (q.source == Only(Web) && q.action == Only(Timeout))
    || (q.source == Only(Physical) && q.action == Only(Checkout))
  }

  predicate GoodRequest(q: Query) {
    && |q.email| <= 254
    && !q.position.Malformed?
    && (q.position.After? ==> ValidId(q.position.key.id))
  }

  function Describe(key: Key, d: Detail, names: map<Id, string>): (e: Entry)
    requires d.email.Some? && Mapping(d.event).Some?
    ensures e.key == key && d.email == Some(e.email)
  {
    Entry(key, Mapping(d.event).value, d.email.value,
          if d.machine.Some? && d.machine.value in names
          then Some((d.machine.value, names[d.machine.value])) else None)
  }

  function KeysOf(entries: seq<Entry>): (r: seq<Key>)
    ensures |r| == |entries| && forall i | 0 <= i < |r| :: r[i] == entries[i].key
  {
    if entries == [] then [] else [entries[0].key] + KeysOf(entries[1..])
  }

  lemma {:induction false} KeysOfJoined(a: seq<Entry>, b: seq<Entry>)
    ensures KeysOf(a + b) == KeysOf(a) + KeysOf(b)
  {
    forall i | 0 <= i < |a + b| ensures KeysOf(a + b)[i] == (KeysOf(a) + KeysOf(b))[i] {
    }
  }

  lemma SelectsNothing(q: Query)
    requires KnownFilters(q)
    ensures (forall e :: !Selects(q, e)) <==> Contradictory(q)
  {
    assert q.source.Only? ==> q.source.value.Web? || q.source.value.Physical?;
    assert q.action.Only? ==> q.action.value.Checkout? || q.action.value.Login? || q.action.value.Logout?
                              || q.action.value.Timeout?;
    var web := if q.action == Only(Checkout) then WebCheckout
               else if q.action == Only(Logout) then WebLogout else WebLogin;
    var physical := if q.action == Only(Timeout) then PasswordTimeout
                    else if q.action == Only(Logout) then SessionClose else SessionOpen;
    assert Contradictory(q) || Selects(q, web) || Selects(q, physical);
  }

  /** Each entry describes its row as it stands in the table. */
  predicate Described(entries: seq<Entry>, keys: seq<Key>, rows: Log, q: Query, names: map<Id, string>) {
    && |entries| == |keys|
    && forall i | 0 <= i < |keys| ::
         keys[i] in rows && Matches(q, rows[keys[i]]) && entries[i] == Describe(keys[i], rows[keys[i]], names)
  }

  /** The newest remaining rows, at most a page of them, and a cursor exactly when rows are left over. */
  ghost predicate Shows(rows: Log, q: Query, names: map<Id, string>, entries: seq<Entry>, next: Option<Key>,
                        rest: set<Key>) {
    var keys := KeysOf(entries);
    && Described(entries, keys, rows, q, names)
    && Head(keys, Remaining(rows, q), rest, PAGE)
    && (if rest == {} then next.None? else |keys| == PAGE && next == Some(keys[PAGE - 1]))
  }

  /** Each entry shows its row's student and what the row's event means. */
  predicate Truthful(entries: seq<Entry>, rows: Log) {
    forall e | e in entries ::
      e.key in rows && rows[e.key].email == Some(e.email) && Mapping(rows[e.key].event) == Some(e.shown)
  }

  lemma DescribedIsTruthful(entries: seq<Entry>, keys: seq<Key>, rows: Log, q: Query, names: map<Id, string>)
    requires Described(entries, keys, rows, q, names)
    ensures Truthful(entries, rows)
    ensures forall e | e in entries ::
      e.machine == match rows[e.key].machine
                   case Some(id) => if id in names then Some((id, names[id])) else None
                   case None => None
    ensures forall e | e in entries ::
      && (q.email == "" || Lower(e.email) == Lower(q.email))
      && (q.source.Only? ==> e.shown.source == q.source.value)
      && (q.action.Only? ==> e.shown.action == q.action.value)
  {
    forall e | e in entries
      ensures e.key in rows && rows[e.key].email == Some(e.email) && Mapping(rows[e.key].event) == Some(e.shown)
              && Matches(q, rows[e.key]) && e == Describe(e.key, rows[e.key], names)
    {
      var i :| 0 <= i < |entries| && entries[i] == e;
      assert e == Describe(keys[i], rows[keys[i]], names);
    }
  }

  /** Every entry is of the student, the source and the action asked for. */
  predicate Sought(entries: seq<Entry>, q: Query) {
    forall e | e in entries ::
      && (q.email == "" || Lower(e.email) == Lower(q.email))
      && (q.source.Only? ==> e.shown.source == q.source.value)
      && (q.action.Only? ==> e.shown.action == q.action.value)
  }

  /** The rows that match are those with a student and a listed event, of the student, source and action asked for. */
  lemma MatchesTheWanted(rows: Log, q: Query)
    requires KnownFilters(q)
    ensures forall k | k in rows ::
      k in Matching(rows, q) <==>
        && rows[k].email.Some? && Mapping(rows[k].event).Some?
        && (q.email == "" || Lower(rows[k].email.value) == Lower(q.email))
        && (q.source.Only? ==> Mapping(rows[k].event).value.source == q.source.value)
        && (q.action.Only? ==> Mapping(rows[k].event).value.action == q.action.value)
  {
  }

  /** Entries shown so far and a further page, given where each of them stands. */
  lemma EntriesJoin(seen: seq<Entry>, page: seq<Entry>, rows: Log, q: Query, at: Query)
    requires Truthful(seen, rows) && Sought(seen, q) && Truthful(page, rows) && Sought(page, at)
    requires at == q.(position := at.position)
    ensures Truthful(seen + page, rows) && Sought(seen + page, q)
  {
  }

  // Arrivals change no row that was shown.
  lemma StillTruthful(seen: seq<Entry>, before: Log, now: Log)
    requires Truthful(seen, before) && Kept(before, now)
    ensures Truthful(seen, now)
  {
  }

  /** What a page shows, said of its entries and of the rows it leaves out. */
  lemma {:induction false} PageIsExact(rows: Log, q: Query, names: map<Id, string>, entries: seq<Entry>,
                                       next: Option<Key>, rest: set<Key>)
    requires KnownFilters(q) && Shows(rows, q, names, entries, next, rest)
    ensures |entries| <= 50 && (next.Some? ==> |entries| == 50) && Truthful(entries, rows)
    ensures forall e | e in entries ::
      e.machine == match rows[e.key].machine
                   case Some(id) => if id in names then Some((id, names[id])) else None
                   case None => None
    ensures forall e | e in entries ::
      && (q.email == "" || Lower(e.email) == Lower(q.email))
      && (q.source.Only? ==> e.shown.source == q.source.value)
      && (q.action.Only? ==> e.shown.action == q.action.value)
    ensures forall k | k in rows && rows[k].email.Some? && Mapping(rows[k].event).Some?
                       && (q.email == "" || Lower(rows[k].email.value) == Lower(q.email))
                       && (q.source.Only? ==> Mapping(rows[k].event).value.source == q.source.value)
                       && (q.action.Only? ==> Mapping(rows[k].event).value.action == q.action.value)
                       && (q.position.After? ==> Newer(q.position.key, k)) ::
      k in KeysOf(entries) || (next.Some? && Newer(next.value, k))
  {
    DescribedIsTruthful(entries, KeysOf(entries), rows, q, names);
    MatchesTheWanted(rows, q);
    assert next.Some? ==> next.value in KeysOf(entries);
  }

  /** What a walk has shown in the end, said of its entries and of the rows there were. */
  lemma WalkIsExact(was: Log, now: Log, q: Query, seen: seq<Entry>)
    requires KnownFilters(q) && Kept(was, now) && forall k | k in was && k in Matching(now, q) :: k in KeysOf(seen)
    ensures forall k | k in was && now[k].email.Some? && Mapping(now[k].event).Some?
                       && (q.email == "" || Lower(now[k].email.value) == Lower(q.email))
                       && (q.source.Only? ==> Mapping(now[k].event).value.source == q.source.value)
                       && (q.action.Only? ==> Mapping(now[k].event).value.action == q.action.value) ::
      k in KeysOf(seen)
  {
    MatchesTheWanted(now, q);
  }

  lemma KeysOfDescribed(entries: seq<Entry>, keys: seq<Key>, rows: Log, q: Query, names: map<Id, string>)
    requires Described(entries, keys, rows, q, names)
    ensures KeysOf(entries) == keys
  {
    forall i | 0 <= i < |keys| ensures KeysOf(entries)[i] == keys[i] {
    }
  }

  lemma AllListed(e: AuditEvent)
    ensures Mapping(e).Some? <==> e in LISTED
  {
    assert LISTED[0] == WebCheckout && LISTED[1] == WebLogin && LISTED[2] == WebLogout;
    assert LISTED[3] == SessionOpen && LISTED[4] == SessionClose && LISTED[5] == PasswordTimeout;
  }

  /** Rows are kept as they are; others may have arrived. */
  predicate Kept(was: Log, now: Log) {
    forall k | k in was :: k in now && now[k] == was[k]
  }

  /** Every row that arrived is later than every row there was. */
  predicate Late(was: Log, now: Log) {
    forall k, j | k in now && k !in was && j in was :: k.time > j.time
  }

  /** What arrived while a walk waited behind a cursor. */
  datatype Pause = Pause(cursor: Key, arrived: set<Key>)

  /** Everything that arrived, at whichever pause. */
  function Arrived(pauses: seq<Pause>): set<Key> {
    if pauses == [] then {} else Arrived(pauses[..|pauses| - 1]) + pauses[|pauses| - 1].arrived
  }

  /** The row arrived while the cursor was newer than it. */
  predicate CaughtUp(k: Key, pauses: seq<Pause>) {
    exists i :: 0 <= i < |pauses| && k in pauses[i].arrived && Newer(pauses[i].cursor, k)
  }

  /** The pauses come behind ever older rows that were shown, and account for every row that is new. */
  ghost predicate Accounts(was: Log, now: Log, shown: seq<Key>, pauses: seq<Pause>) {
    && now.Keys == was.Keys + Arrived(pauses)
    && (forall i | 0 <= i < |pauses| :: pauses[i].cursor in shown && pauses[i].arrived !! was.Keys)
    && (forall i, j | 0 <= i < j < |pauses| ::
          Newer(pauses[i].cursor, pauses[j].cursor) && pauses[i].arrived !! pauses[j].arrived)
  }

  /** A walk shows, or has still to show, what matched at its start and what it has not passed when it arrives. */
  ghost predicate Due(was: Log, now: Log, q: Query, pauses: seq<Pause>, shown: seq<Key>, rest: set<Key>) {
    forall k :: k in shown || k in rest <==> k in Matching(now, q) && (k in was || CaughtUp(k, pauses))
  }

  lemma NothingPaused(was: Log, q: Query)
    requires q.position.Start?
    ensures Accounts(was, was, [], []) && Due(was, was, q, [], [], Remaining(was, q))
  {
  }

  // Another page: what was due is shown or left.
  lemma PageIsDue(was: Log, now: Log, q: Query, pauses: seq<Pause>, shown: seq<Key>, page: seq<Key>, rest: set<Key>,
                  older: set<Key>)
    requires Accounts(was, now, shown, pauses) && Due(was, now, q, pauses, shown, rest)
    requires forall k :: k in page || k in older <==> k in rest
    ensures Accounts(was, now, shown + page, pauses) && Due(was, now, q, pauses, shown + page, older)
  {
    assert forall k :: k in shown + page <==> k in shown || k in page;
  }

  lemma {:induction false} ArrivedSomewhere(pauses: seq<Pause>, k: Key)
    ensures k in Arrived(pauses) <==> exists i :: 0 <= i < |pauses| && k in pauses[i].arrived
    decreases |pauses|
  {
    if pauses != [] {
      var front := pauses[..|pauses| - 1];
      ArrivedSomewhere(front, k);
      assert forall i | 0 <= i < |front| :: front[i] == pauses[i];
    }
  }

  lemma CaughtUpOneMore(k: Key, pauses: seq<Pause>, last: Pause)
    ensures CaughtUp(k, pauses + [last]) <==> CaughtUp(k, pauses) || (k in last.arrived && Newer(last.cursor, k))
  {
    var more := pauses + [last];
    assert forall i | 0 <= i < |pauses| :: more[i] == pauses[i];
    if k in last.arrived && Newer(last.cursor, k) {
      assert more[|pauses|] == last;
    }
  }

  // The walk waits behind the last row it has shown.
  lemma PauseAccounts(was: Log, before: Log, now: Log, shown: seq<Key>, pauses: seq<Pause>, c: Key)
    requires Kept(before, now) && Accounts(was, before, shown, pauses) && Sorted(shown) && Last(shown, c)
    requires forall i | 0 <= i < |pauses| :: pauses[i].cursor != c
    ensures Accounts(was, now, shown, pauses + [Pause(c, now.Keys - before.Keys)])
  {
    var last := Pause(c, now.Keys - before.Keys);
    var more := pauses + [last];
    assert more[..|pauses|] == pauses;
    forall i | 0 <= i < |pauses| ensures Newer(pauses[i].cursor, c) && pauses[i].arrived !! last.arrived {
      var n :| 0 <= n < |shown| && shown[n] == pauses[i].cursor;
      forall k | k in pauses[i].arrived ensures k in before {
        ArrivedSomewhere(pauses, k);
      }
    }
  }

  lemma PauseIsDue(was: Log, before: Log, now: Log, q: Query, at: Query, pauses: seq<Pause>, shown: seq<Key>)
    requires at == q.(position := at.position) && at.position.After? && Kept(was, before) && Kept(before, now)
    requires before.Keys == was.Keys + Arrived(pauses)
    requires Due(was, before, q, pauses, shown, Remaining(before, at))
    ensures var last := Pause(at.position.key, now.Keys - before.Keys);
      Due(was, now, q, pauses + [last], shown, Remaining(now, at))
  {
    var last := Pause(at.position.key, now.Keys - before.Keys);
    forall k
      ensures k in shown || k in Remaining(now, at) <==>
        k in Matching(now, q) && (k in was || CaughtUp(k, pauses + [last]))
    {
      CaughtUpOneMore(k, pauses, last);
      if CaughtUp(k, pauses) {
        ArrivedSomewhere(pauses, k);
      }
    }
  }

  class AuditLog {
    var rows: Log
    var names: map<Id, string>

    ghost predicate Valid()
      reads `rows
    {
      forall k | k in rows :: ValidId(k.id)
    }

    constructor (rows: Log, names: map<Id, string>)
      requires forall k | k in rows :: ValidId(k.id)
      ensures Valid() && this.rows == rows && this.names == names
    {
      this.rows, this.names := rows, names;
    }

    method Activity(q: Query) returns (reply: Reply, ghost rest: set<Key>)
      ensures reply.Page? <==>
        && !q.source.Unknown? && !q.action.Unknown?
        && (Contradictory(q)
            || (|q.email| <= 254 && !q.position.Malformed? && (q.position.After? ==> ValidId(q.position.key.id))))
      ensures reply.Page? && Contradictory(q) ==> reply == Page([], None) && Matching(rows, q) == {}
      ensures reply.Page? && GoodRequest(q) ==> Shows(rows, q, names, reply.entries, reply.next, rest)
      ensures reply.Page? ==>
        && |reply.entries| <= 50 && (reply.next.Some? ==> |reply.entries| == 50)
        && Truthful(reply.entries, rows)
        && (forall e | e in reply.entries ::
              e.machine == match rows[e.key].machine
                           case Some(id) => if id in names then Some((id, names[id])) else None
                           case None => None)
        && (forall e | e in reply.entries ::
              && (q.email == "" || Lower(e.email) == Lower(q.email))
              && (q.source.Only? ==> e.shown.source == q.source.value)
              && (q.action.Only? ==> e.shown.action == q.action.value))
        && (forall k | k in rows && rows[k].email.Some? && Mapping(rows[k].event).Some?
                       && (q.email == "" || Lower(rows[k].email.value) == Lower(q.email))
                       && (q.source.Only? ==> Mapping(rows[k].event).value.source == q.source.value)
                       && (q.action.Only? ==> Mapping(rows[k].event).value.action == q.action.value)
                       && (q.position.After? ==> Newer(q.position.key, k)) ::
              k in KeysOf(reply.entries) || (reply.next.Some? && Newer(reply.next.value, k)))
    {
      rest := {};
      if q.source.Unknown? {
        return Rejected("Invalid source"), {};
      }
      if q.action.Unknown? {
        return Rejected("Invalid action"), {};
      }
      var events := SelectedEvents(q);
      SelectsNothing(q);
      if events == [] {
        return Page([], None), {};
      }
      assert Selects(q, events[0]);
      if |q.email| > 254 {
        return Rejected("Email too long"), {};
      }
      if q.position.Malformed? || (q.position.After? && !ValidId(q.position.key.id)) {
        return Rejected("Invalid cursor"), {};
      }
      reply, rest := PageOf(q);
      PageIsExact(rows, q, names, reply.entries, reply.next, rest);
    }

    // One page of a good request.
    method PageOf(q: Query) returns (reply: Reply, ghost rest: set<Key>)
      requires GoodRequest(q)
      ensures reply.Page? && Shows(rows, q, names, reply.entries, reply.next, rest)
    {
      var keys: seq<Key>;
      keys, rest := Select(Remaining(rows, q));
      var entries := Scan(keys, q);
      KeysOfDescribed(entries, keys, rows, q, names);
      if |entries| > PAGE {
        Truncate(keys, Remaining(rows, q), rest);
        rest := rest + {keys[PAGE]};
        reply := Page(entries[..PAGE], Some(entries[PAGE - 1].key));
        KeysOfDescribed(entries[..PAGE], keys[..PAGE], rows, q, names);
      } else {
        LastPage(keys, Remaining(rows, q), rest);
        reply := Page(entries, None);
      }
    }

    method SelectedEvents(q: Query) returns (events: seq<AuditEvent>)
      ensures forall e :: e in events <==> Selects(q, e)
    {
      events := [];
      for i := 0 to |LISTED|
        invariant forall e :: e in events <==> e in LISTED[..i] && Selects(q, e)
      {
        if Selects(q, LISTED[i]) {
          events := events + [LISTED[i]];
        }
      }
      forall e | Selects(q, e) ensures e in LISTED {
        AllListed(e);
      }
    }

    /** Order, and one row more than a page. */
    static method Select(s: set<Key>) returns (keys: seq<Key>, ghost rest: set<Key>)
      ensures Head(keys, s, rest, PAGE + 1)
    {
      keys := [];
      var left := s;
      while left != {} && |keys| <= PAGE
        invariant left <= s && |keys| == |s| - |left| && |keys| <= PAGE + 1
        invariant Lists(keys, s - left) && Above(keys, left)
        decreases |left|
      {
        var m := Newest(left);
        assert Lists([m], {m});
        ListingsJoin(keys, [m], s - left, {m});
        left := left - {m};
        assert s - left == s - (left + {m}) + {m};
        keys := keys + [m];
      }
      rest := left;
    }

    method Scan(found: seq<Key>, q: Query) returns (entries: seq<Entry>)
      requires forall k | k in found :: k in rows && Matches(q, rows[k])
      ensures Described(entries, found, rows, q, names)
    {
      entries := [];
      for i := 0 to |found|
        invariant Described(entries, found[..i], rows, q, names)
      {
        assert found[i] in found;
        entries := entries + [Describe(found[i], rows[found[i]], names)];
      }
    }

    /** Rows are only ever added, with any times; no more of them than the budget allows. */
    method Append(budget: nat) returns (left: nat)
      requires Valid()
      modifies this
      ensures Valid() && Kept(old(rows), rows) && |rows.Keys| + left <= |old(rows).Keys| + budget
    {
      left := budget;
      var going: bool := *;
      while left > 0 && going
        invariant Valid() && Kept(old(rows), rows) && |rows.Keys| + left <= |old(rows).Keys| + budget
        decreases left
      {
        var key: Key, detail: Detail := *, *;
        if key !in rows && ValidId(key.id) {
          Insert(key, detail);
        }
        left := left - 1;
        going := *;
      }
      var renamed: map<Id, string> := *;
      names := renamed;
    }

    method Insert(key: Key, detail: Detail)
      requires Valid() && key !in rows && ValidId(key.id)
      modifies `rows
      ensures Valid() && Kept(old(rows), rows) && |rows.Keys| == |old(rows).Keys| + 1
    {
      rows := rows[key := detail];
      assert rows.Keys == old(rows).Keys + {key};
    }

    /**
      * Following the cursors to the end, while any number of rows with any times arrives between pages, ends and
      * shows, newest first and each at most once, exactly the rows that match and either were there when the walk
      * began or arrived when the cursor was still newer than they are. So none is shown that arrived if all of those
      * are later than all there was.
      */
    method FollowAll(q: Query, budget: nat) returns (seen: seq<Entry>, ghost pauses: seq<Pause>)
      requires Valid() && KnownFilters(q) && !Contradictory(q) && |q.email| <= 254 && q.position.Start?
      modifies this
      ensures Kept(old(rows), rows) && Sorted(KeysOf(seen)) && Accounts(old(rows), rows, KeysOf(seen), pauses)
      ensures forall k :: k in KeysOf(seen) <==> k in Matching(rows, q) && (k in old(rows) || CaughtUp(k, pauses))
      ensures Late(old(rows), rows) ==> Lists(KeysOf(seen), old(Matching(rows, q)))
      ensures Truthful(seen, rows)
      ensures forall e | e in seen ::
        && (q.email == "" || Lower(e.email) == Lower(q.email))
        && (q.source.Only? ==> e.shown.source == q.source.value)
        && (q.action.Only? ==> e.shown.action == q.action.value)
      ensures forall k | k in old(rows) && rows[k].email.Some? && Mapping(rows[k].event).Some?
                         && (q.email == "" || Lower(rows[k].email.value) == Lower(q.email))
                         && (q.source.Only? ==> Mapping(rows[k].event).value.source == q.source.value)
                         && (q.action.Only? ==> Mapping(rows[k].event).value.action == q.action.value) ::
        k in KeysOf(seen)
    {
      ghost var was, shown, rest := rows, [], Remaining(rows, q);
      WalkStarts(was, q);
      NothingPaused(was, q);
      seen, pauses := [], [];
      var at, more, left := q, true, budget;
      while more
        invariant AtPage(q, at) && Kept(was, rows) && shown == KeysOf(seen)
        invariant if more then OnPage(was, rows, at, shown, rest) else rest == {}
        invariant Walked(was, rows, q, shown, rest)
        invariant Accounts(was, rows, shown, pauses) && Due(was, rows, q, pauses, shown, rest)
        invariant Truthful(seen, rows) && Sought(seen, q)
        decreases more, |rest| + left
      {
        WalkElsewhere(was, rows, q, at, shown, rest);
        var page, next;
        ghost var older;
        page, next, older := NextPage(was, at, shown, rest);
        KeysOfJoined(seen, page);
        EntriesJoin(seen, page, rows, q, at);
        PageIsDue(was, rows, q, pauses, shown, KeysOf(page), rest, older);
        NewCursor(was, rows, pauses, shown, KeysOf(page), older);
        seen, shown, rest := seen + page, shown + KeysOf(page), older;
        WalkElsewhere(was, rows, at, q, shown, rest);
        more := next.Some?;
        if more {
          at := at.(position := After(next.value));
          ghost var before := rows;
          left, rest, pauses := Wait(was, q, at, shown, rest, pauses, left);
          StillTruthful(seen, before, rows);
        }
      }
      WalkDone(was, rows, q, shown);
      WalkIsExact(was, rows, q, seen);
    }

    // Between two pages.
    method Wait(ghost was: Log, ghost q: Query, at: Query, ghost seen: seq<Key>, ghost older: set<Key>,
                ghost pauses: seq<Pause>, budget: nat)
      returns (left: nat, ghost rest: set<Key>, ghost longer: seq<Pause>)
      requires Valid() && Kept(was, rows) && at.position.After? && Last(seen, at.position.key)
      requires at == q.(position := at.position)
      requires older == Remaining(rows, at) && Walked(was, rows, q, seen, older)
      requires Accounts(was, rows, seen, pauses) && Due(was, rows, q, pauses, seen, older)
      requires forall i | 0 <= i < |pauses| :: pauses[i].cursor != at.position.key
      modifies this
      ensures Valid() && Kept(was, rows) && Kept(old(rows), rows)
      ensures OnPage(was, rows, at, seen, rest) && Walked(was, rows, q, seen, rest)
      ensures Accounts(was, rows, seen, longer) && Due(was, rows, q, longer, seen, rest)
      ensures |rest| + left <= |older| + budget
    {
      ghost var before := rows;
      left := Append(budget);
      WalkElsewhere(was, before, q, at, seen, older);
      ArrivalStep(was, before, rows, at, seen, older);
      WalkElsewhere(was, rows, at, q, seen, Remaining(rows, at));
      RemainingGrowth(before, rows, at);
      PauseAccounts(was, before, rows, seen, pauses, at.position.key);
      PauseIsDue(was, before, rows, q, at, pauses, seen);
      rest := Remaining(rows, at);
      longer := pauses + [Pause(at.position.key, rows.Keys - before.Keys)];
    }

    ghost predicate AtPage(q: Query, at: Query)
      reads this
    {
      Valid() && at == q.(position := at.position) && GoodRequest(at)
    }

    // One page, and where the walk stands after it.
    method NextPage(ghost was: Log, at: Query, ghost seen: seq<Key>, ghost rest: set<Key>)
      returns (page: seq<Entry>, next: Option<Key>, ghost older: set<Key>)
      requires Valid() && GoodRequest(at) && KnownFilters(at) && !Contradictory(at)
      requires Kept(was, rows) && OnPage(was, rows, at, seen, rest) && Walked(was, rows, at, seen, rest)
      ensures Walked(was, rows, at, seen + KeysOf(page), older)
      ensures forall k :: k in KeysOf(page) || k in older <==> k in rest
      ensures Truthful(page, rows) && Sought(page, at)
      ensures next.Some? ==> page != []
      ensures if next.None? then older == {} else
        && Last(seen + KeysOf(page), next.value) && ValidId(next.value.id)
        && older == Remaining(rows, at.(position := After(next.value))) && |older| < |rest|
    {
      var reply;
      reply, older := Activity(at);
      page, next := reply.entries, reply.next;
      assert Head(KeysOf(page), rest, older, PAGE);
      if Late(was, rows) {
        LatePagesAreOld(was, rows, at, seen, rest);
      }
      PageStep(was, rows, at, seen, KeysOf(page), rest, older);
      if older != {} {
        PageCursor(rows, at, seen, KeysOf(page), rest, older);
      }
    }
  }

  // The last row of a page was no cursor before.
  lemma NewCursor(was: Log, now: Log, pauses: seq<Pause>, shown: seq<Key>, page: seq<Key>, older: set<Key>)
    requires Accounts(was, now, shown, pauses) && Sorted(shown + page)
    ensures page != [] ==> forall i | 0 <= i < |pauses| :: pauses[i].cursor != (shown + page)[|shown + page| - 1]
  {
    if page != [] {
      var all := shown + page;
      forall i | 0 <= i < |pauses| ensures pauses[i].cursor != all[|all| - 1] {
        var n :| 0 <= n < |shown| && shown[n] == pauses[i].cursor;
        assert Newer(all[n], all[|all| - 1]);
        NewerIsTotalOrder(all[n], all[n], all[n]);
      }
    }
  }

  lemma WalkStarts(was: Log, q: Query)
    requires q.position.Start?
    ensures Walked(was, was, q, [], Remaining(was, q)) && OnPage(was, was, q, [], Remaining(was, q))
  {
  }

  /** What a walk has shown does not depend on where it stands. */
  lemma WalkElsewhere(was: Log, now: Log, q: Query, at: Query, seen: seq<Key>, rest: set<Key>)
    requires at == q.(position := at.position) && Walked(was, now, q, seen, rest)
    ensures Walked(was, now, at, seen, rest)
  {
    assert Matching(was, at) == Matching(was, q) && Matching(now, at) == Matching(now, q);
  }

  lemma WalkDone(was: Log, now: Log, q: Query, seen: seq<Key>)
    requires Kept(was, now) && Walked(was, now, q, seen, {})
    ensures Sorted(seen) && (forall k | k in was :: k in seen <==> k in Matching(was, q))
    ensures forall k | k in seen :: k in Matching(now, q)
    ensures Late(was, now) ==> Lists(seen, Matching(was, q))
  {
  }

  /** The walk stands before a page: at the start nothing has arrived, later the cursor is the last row shown. */
  ghost predicate OnPage(was: Log, now: Log, at: Query, seen: seq<Key>, rest: set<Key>) {
    && rest == Remaining(now, at)
    && (at.position.Start? ==> now == was)
    && (at.position.After? ==> Last(seen, at.position.key))
  }

  ghost predicate Last(r: seq<Key>, c: Key) {
    r != [] && r[|r| - 1] == c
  }

  /** What a walk has shown, when `rest` remains to be shown. */
  ghost predicate Walked(was: Log, now: Log, q: Query, seen: seq<Key>, rest: set<Key>) {
    && Sorted(seen) && Above(seen, rest)
    && (forall k | k in was :: k in seen <==> k in Matching(was, q) && k !in rest)
    && (forall k | k in seen :: k in Matching(now, q))
    && (Late(was, now) ==> forall k | k in seen :: k in was)
  }

  /**
    * Arrivals change what a cursor leaves to show exactly if one of them matches and is older than the cursor; before
    * the first page, exactly if one of them matches.
    */
  lemma ArrivalsAreInvisibleExactly(was: Log, now: Log, q: Query)
    requires Kept(was, now)
    ensures Remaining(now, q) == Remaining(was, q) <==>
      forall k | k in now && k !in was && Matches(q, now[k]) :: q.position.After? && !Newer(q.position.key, k)
  {
    if Remaining(now, q) == Remaining(was, q) {
      forall k | k in now && k !in was && Matches(q, now[k]) ensures q.position.After? && !Newer(q.position.key, k) {
        assert k !in Remaining(was, q);
      }
    }
  }

  /** Whatever arrived, the rows there were before remain to be shown as they did. */
  lemma ArrivalsHideNothing(was: Log, now: Log, q: Query)
    requires Kept(was, now)
    ensures Remaining(now, q) * was.Keys == Remaining(was, q)
  {
  }

  /** The cursor strictly decreases, and what is older than it is cut from what remained before. */
  lemma CursorFalls(rows: Log, q: Query, c: Key)
    requires c in Remaining(rows, q)
    ensures Remaining(rows, q.(position := After(c))) == OlderThan(Remaining(rows, q), c)
    ensures q.position.After? ==> Newer(q.position.key, c)
  {
    forall k | k in Matching(rows, q) && Newer(c, k) ensures k in Remaining(rows, q) {
      if q.position.After? {
        NewerIsTotalOrder(q.position.key, c, k);
      }
    }
  }

  /** Dropping the extra row that only says there is another page. */
  lemma Truncate(keys: seq<Key>, s: set<Key>, rest: set<Key>)
    requires Head(keys, s, rest, PAGE + 1) && |keys| == PAGE + 1
    ensures Head(keys[..PAGE], s, rest + {keys[PAGE]}, PAGE)
  {
    var last := keys[PAGE];
    var p := keys[..PAGE];
    assert last in keys;
    forall k ensures k in p <==> k in s - (rest + {last}) {
      NewerIsTotalOrder(last, last, last);
      if k in keys && k != last {
        var i :| 0 <= i < |keys| && keys[i] == k;
        assert p[i] == k;
      }
    }
    forall k, j | k in p && j in rest + {last} ensures Newer(k, j) {
      var i :| 0 <= i < |p| && p[i] == k;
      assert keys[i] in keys;
    }
  }

  /** A listing that fits on the page is complete. */
  lemma LastPage(keys: seq<Key>, s: set<Key>, rest: set<Key>)
    requires Head(keys, s, rest, PAGE + 1) && |keys| <= PAGE
    ensures rest == {} && Head(keys, s, {}, PAGE)
  {
    ListingLength(keys, s - rest);
    assert s == (s - rest) + rest;
  }

  lemma LatePagesAreOld(was: Log, now: Log, q: Query, seen: seq<Key>, before: set<Key>)
    requires Kept(was, now) && before == Remaining(now, q) && Walked(was, now, q, seen, before) && Late(was, now)
    requires !q.position.Malformed? && (q.position.Start? ==> now == was)
    requires q.position.After? ==> Last(seen, q.position.key)
    ensures before <= was.Keys
  {
    if q.position.After? {
      var c := q.position.key;
      assert c in seen;
      forall k | k in before ensures k in was {
        assert Newer(c, k);
      }
    }
  }

  /** One page moves the walk on: what was shown before, then the page, then what its cursor leaves. */
  lemma PageStep(was: Log, now: Log, q: Query, seen: seq<Key>, page: seq<Key>, before: set<Key>, after: set<Key>)
    requires Kept(was, now) && before == Remaining(now, q) && Walked(was, now, q, seen, before)
    requires Late(was, now) ==> before <= was.Keys
    requires Head(page, before, after, PAGE)
    ensures Walked(was, now, q, seen + page, after)
  {
    PageJoins(seen, page, before, after);
    ArrivalsHideNothing(was, now, q);
  }

  /** The cursor of a page that is not the last names its last row and leaves exactly what the page left. */
  lemma PageCursor(now: Log, q: Query, seen: seq<Key>, page: seq<Key>, before: set<Key>, after: set<Key>)
    requires before == Remaining(now, q) && Head(page, before, after, PAGE) && after != {}
    ensures page != [] && Last(seen + page, page[|page| - 1]) && page[|page| - 1] in before
    ensures after == Remaining(now, q.(position := After(page[|page| - 1]))) && |after| < |before|
  {
    ListingLength(page, before - after);
    assert before == before - after + after;
    RestIsOlder(page, before, after);
    assert page[|page| - 1] in page;
    CursorFalls(now, q, page[|page| - 1]);
  }

  lemma PageJoins(seen: seq<Key>, page: seq<Key>, before: set<Key>, after: set<Key>)
    requires Sorted(seen) && Above(seen, before) && after <= before && Lists(page, before - after) && Above(page, after)
    ensures Sorted(seen + page) && Above(seen + page, after)
    ensures forall k :: k in seen + page <==> k in seen || k in before - after
  {
    forall i, j | 0 <= i < j < |seen + page| ensures Newer((seen + page)[i], (seen + page)[j]) {
      if i < |seen| <= j {
        assert seen[i] in seen && page[j - |seen|] in page;
      }
    }
  }

  /** Rows that arrive between two pages keep the walk in step with the cursor. */
  lemma ArrivalStep(was: Log, before: Log, now: Log, q: Query, seen: seq<Key>, older: set<Key>)
    requires Kept(was, before) && Kept(before, now)
    requires q.position.After? && Last(seen, q.position.key) && older == Remaining(before, q)
    requires Walked(was, before, q, seen, older)
    ensures Walked(was, now, q, seen, Remaining(now, q))
  {
    ArrivalsHideNothing(was, before, q);
    ArrivalsHideNothing(was, now, q);
    forall k, j | k in seen && j in Remaining(now, q) ensures Newer(k, j) {
      var i :| 0 <= i < |seen| && seen[i] == k;
      NewerIsTotalOrder(k, q.position.key, j);
      assert i == |seen| - 1 || Newer(seen[i], seen[|seen| - 1]);
    }
  }

  /** What remains grows by no more than what arrived. */
  lemma RemainingGrowth(before: Log, now: Log, q: Query)
    requires Kept(before, now)
    ensures |Remaining(now, q)| + |before.Keys| <= |Remaining(before, q)| + |now.Keys|
  {
    var arrived := now.Keys - before.Keys;
    assert now.Keys == before.Keys + arrived;
    SubsetSize(Remaining(now, q), Remaining(before, q) + arrived);
  }

  lemma SubsetSize<T>(a: set<T>, b: set<T>)
    requires a <= b
    ensures |a| <= |b|
  {
    assert b == a + (b - a);
  }
}

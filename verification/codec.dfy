/** The text records both sides exchange or keep on disk, and that parsing undoes printing. */
module Codec {
  import opened Base
  import opened OutboxQueue
  import opened DesktopHistory

  // ----- fields -----

  function Split(s: string, sep: char): (r: seq<string>)
    ensures r != []
  {
    if s == "" then [""]
    else
      var rest := Split(s[1..], sep);
      if s[0] == sep then [""] + rest else [[s[0]] + rest[0]] + rest[1..]
  }

  function Join(fields: seq<string>, sep: char): string
    requires fields != []
  {
    if |fields| == 1 then fields[0] else fields[0] + [sep] + Join(fields[1..], sep)
  }

  lemma {:induction false} SplitField(a: string, sep: char, rest: string)
    requires sep !in a
    ensures Split(a, sep) == [a]
    ensures Split(a + [sep] + rest, sep) == [a] + Split(rest, sep)
  {
    if a == "" {
      assert ("" + [sep] + rest)[1..] == rest;
    } else {
      SplitField(a[1..], sep, rest);
      assert (a + [sep] + rest)[1..] == a[1..] + [sep] + rest;
      assert [a[0]] + a[1..] == a;
    }
  }

  /** Splitting recovers the fields of any join whose fields avoid the separator. */
  lemma {:induction false} SplitUndoesJoin(fields: seq<string>, sep: char)
    requires fields != [] && forall i | 0 <= i < |fields| :: sep !in fields[i]
    ensures Split(Join(fields, sep), sep) == fields
    decreases |fields|
  {
    if |fields| == 1 {
      SplitField(fields[0], sep, "");
    } else {
      SplitField(fields[0], sep, Join(fields[1..], sep));
      SplitUndoesJoin(fields[1..], sep);
    }
  }

  lemma JoinEmptyFirst(rest: seq<string>, sep: char)
    requires rest != []
    ensures Join([""] + rest, sep) == [sep] + Join(rest, sep)
  {
    assert ([""] + rest)[1..] == rest;
    assert "" + [sep] + Join(rest, sep) == [sep] + Join(rest, sep);
  }

  lemma JoinLongerFirst(c: char, rest: seq<string>, sep: char)
    requires rest != []
    ensures Join([[c] + rest[0]] + rest[1..], sep) == [c] + Join(rest, sep)
  {
    var longer := [[c] + rest[0]] + rest[1..];
    assert longer[1..] == rest[1..];
    if |rest| > 1 {
      var tail := [sep] + Join(rest[1..], sep);
      assert Join(longer, sep) == [c] + rest[0] + tail && Join(rest, sep) == rest[0] + tail;
    }
  }

  /** Every text is the join of its fields, and none of them holds the separator. */
  lemma {:induction false} JoinUndoesSplit(s: string, sep: char)
    ensures Join(Split(s, sep), sep) == s
    ensures forall i | 0 <= i < |Split(s, sep)| :: sep !in Split(s, sep)[i]
  {
    FieldsArePlain(s, sep);
    if s != "" {
      var rest := Split(s[1..], sep);
      JoinUndoesSplit(s[1..], sep);
      JoinEmptyFirst(rest, sep);
      JoinLongerFirst(s[0], rest, sep);
      assert s == [s[0]] + s[1..];
    }
  }

  lemma {:induction false} FieldsArePlain(s: string, sep: char)
    ensures forall i | 0 <= i < |Split(s, sep)| :: sep !in Split(s, sep)[i]
  {
    if s != "" {
      FieldsArePlain(s[1..], sep);
    }
  }

  // ----- numbers -----

  function DigitChar(d: nat): (c: char)
    requires d < 10
    ensures Digit(c)
  {
    '0' + d as char
  }

  function Decimal(n: nat): (s: string)
    ensures s != "" && AllDigits(s)
  {
    if n < 10 then [DigitChar(n)] else Decimal(n / 10) + [DigitChar(n % 10)]
  }

  function Value(s: string): nat
    requires forall i | 0 <= i < |s| :: Digit(s[i])
  {
    if s == "" then 0
    else
      var last := s[|s| - 1];
      assert Digit(last);
      10 * Value(s[..|s| - 1]) + (last as int - '0' as int)
  }

  lemma {:induction false} ValueUndoesDecimal(n: nat)
    ensures Value(Decimal(n)) == n
  {
    if n < 10 {
      assert [DigitChar(n)][..0] == "";
    } else {
      ValueUndoesDecimal(n / 10);
      var s := Decimal(n / 10) + [DigitChar(n % 10)];
      assert s[..|s| - 1] == Decimal(n / 10);
    }
  }

  function Power10(w: nat): nat {
    if w == 0 then 1 else 10 * Power10(w - 1)
  }

  lemma {:induction false} DecimalWidth(n: nat, w: nat)
    requires n < Power10(w) && w > 0
    ensures |Decimal(n)| <= w
  {
    if n >= 10 {
      assert Power10(1) == 10;
      DecimalWidth(n / 10, w - 1);
    }
  }

  lemma TwelveDigits(n: nat)
    requires n < 1_000_000_000_000
    ensures |Decimal(n)| <= 12
  {
    assert Power10(4) == 10_000;
    assert Power10(8) == 100_000_000;
    assert Power10(12) == 1_000_000_000_000;
    DecimalWidth(n, 12);
  }

  /** A time as both helpers accept it: digits only, at most twelve, positive. */
  function ParseTime(s: string): (r: Option<int>)
    ensures r.Some? ==> r.value > 0
  {
    if AllDigits(s) && |s| <= 12 && Value(s) > 0 then Some(Value(s)) else None
  }

  predicate IsTime(t: int) {
    0 < t < 1_000_000_000_000
  }

  lemma ParseUndoesPrintedTime(t: int)
    requires IsTime(t)
    ensures ParseTime(Decimal(t)) == Some(t)
  {
    ValueUndoesDecimal(t);
    TwelveDigits(t);
  }

  /** Digits denote the number they pad. */
  lemma {:induction false} DigitsArePadded(s: string)
    requires forall i | 0 <= i < |s| :: Digit(s[i])
    ensures Value(s) < Power10(|s|) && s == Padded(Value(s), |s|)
  {
    if s != "" {
      var front, last := s[..|s| - 1], s[|s| - 1];
      DigitsArePadded(front);
      assert Digit(last) && Value(s) == 10 * Value(front) + (last as int - '0' as int);
      assert Value(s) / 10 == Value(front) && DigitChar(Value(s) % 10) == last;
    }
  }

  lemma {:induction false} PaddedValue(n: nat, w: nat)
    requires n < Power10(w)
    ensures (forall i | 0 <= i < w :: Digit(Padded(n, w)[i])) && Value(Padded(n, w)) == n
  {
    if w > 0 {
      PaddedValue(n / 10, w - 1);
      var front := Padded(n / 10, w - 1);
      var s := front + [DigitChar(n % 10)];
      assert s[..|s| - 1] == front && s[|s| - 1] == DigitChar(n % 10);
      assert forall i | 0 <= i < w - 1 :: s[i] == front[i];
    }
  }

  /** A time is accepted exactly as at most twelve digits, leading zeros included, of a positive number. */
  lemma TimesAreExact(s: string, t: int)
    ensures ParseTime(s) == Some(t) <==>
      0 < t && 0 < |s| <= 12 && t < Power10(|s|) && s == Padded(t, |s|)
  {
    if AllDigits(s) {
      DigitsArePadded(s);
    }
    if 0 < t && 0 < |s| <= 12 && t < Power10(|s|) && s == Padded(t, |s|) {
      PaddedValue(t, |s|);
    }
  }

  // ----- one-line files -----

  /** A file is read only if it holds exactly one newline-terminated line. */
  function OneLine(content: string): Option<string> {
    if content != "" && content[|content| - 1] == '\n' && '\n' !in content[..|content| - 1]
    then Some(content[..|content| - 1]) else None
  }

  // ----- credential-state -----

  function PhaseName(p: Phase): string {
    match p case Pending => "pending" case Active => "active" case Revoked => "revoked"
  }

  function VersionText(p: Phase): string {
    match p case Pending => "1" case Active => "2" case Revoked => "3"
  }

  function PhaseNamed(s: string): Option<Phase> {
    if s == "pending" then Some(Pending) else if s == "active" then Some(Active)
    else if s == "revoked" then Some(Revoked) else None
  }

  function RecordFields(r: Record): seq<string>
    requires r.deadline >= 0 && r.changed >= 0
  {
    [r.id, Decimal(r.deadline), PhaseName(r.phase), VersionText(r.phase), Decimal(r.changed)]
  }

  function PrintRecord(r: Record): string
    requires r.deadline >= 0 && r.changed >= 0
  {
    Join(RecordFields(r), '\t') + "\n"
  }

  function ParseRecord(line: string): Option<Record> {
    var f := Split(line, '\t');
    if |f| != 5 || !ValidId(f[0]) then None
    else
      var deadline, phase, changed := ParseTime(f[1]), PhaseNamed(f[2]), ParseTime(f[4]);
      if deadline.Some? && changed.Some? && phase.Some? && f[3] == VersionText(phase.value)
      then Some(Record(f[0], deadline.value, phase.value, changed.value)) else None
  }

  function ReadRecordFile(content: string): Option<Record> {
    var line := OneLine(content);
    if line.Some? then ParseRecord(line.value) else None
  }

  predicate Plain(s: string) {
    '\t' !in s && '\n' !in s && ' ' !in s
  }

  lemma IdIsPlain(id: Id)
    requires ValidId(id)
    ensures Plain(id)
  {
    forall i | 0 <= i < |id| ensures id[i] != '\t' && id[i] != '\n' && id[i] != ' ' {
      assert IdChar(id[i]);
    }
  }

  lemma DecimalIsPlain(n: nat)
    ensures Plain(Decimal(n))
  {
    var s := Decimal(n);
    forall i | 0 <= i < |s| ensures s[i] != '\t' && s[i] != '\n' && s[i] != ' ' {
      assert Digit(s[i]);
    }
  }

  lemma {:induction false} JoinIsOneLine(fields: seq<string>, sep: char)
    requires fields != [] && sep != '\n' && forall i | 0 <= i < |fields| :: '\n' !in fields[i]
    ensures '\n' !in Join(fields, sep)
    decreases |fields|
  {
    if |fields| > 1 {
      JoinIsOneLine(fields[1..], sep);
    }
  }

  lemma OneLineUndoesNewline(line: string)
    requires '\n' !in line
    ensures OneLine(line + "\n") == Some(line)
  {
    assert (line + "\n")[..|line|] == line;
  }

  /** Reading the state file recovers every record that writeState prints. */
  lemma ReadUndoesPrint(r: Record)
    requires ValidId(r.id) && IsTime(r.deadline) && IsTime(r.changed)
    ensures ReadRecordFile(PrintRecord(r)) == Some(r)
  {
    var fields := RecordFields(r);
    IdIsPlain(r.id);
    DecimalIsPlain(r.deadline);
    DecimalIsPlain(r.changed);
    forall i | 0 <= i < |fields| ensures '\t' !in fields[i] && '\n' !in fields[i] {
      assert fields[i] == r.id || fields[i] == Decimal(r.deadline) || fields[i] == PhaseName(r.phase)
          || fields[i] == VersionText(r.phase) || fields[i] == Decimal(r.changed);
    }
    SplitUndoesJoin(fields, '\t');
    JoinIsOneLine(fields, '\t');
    OneLineUndoesNewline(Join(fields, '\t'));
    ParseUndoesPrintedTime(r.deadline);
    ParseUndoesPrintedTime(r.changed);
  }

  lemma OneLineExactly(content: string, line: string)
    ensures OneLine(content) == Some(line) <==> '\n' !in line && content == line + "\n"
  {
    if '\n' !in line && content == line + "\n" {
      OneLineUndoesNewline(line);
    }
    if OneLine(content) == Some(line) {
      assert content == content[..|content| - 1] + [content[|content| - 1]];
    }
  }

  /** The texts of a record: its two times may have leading zeros. */
  predicate RecordLine(line: string, r: Record, deadline: string, changed: string) {
    && ValidId(r.id) && ParseTime(deadline) == Some(r.deadline) && ParseTime(changed) == Some(r.changed)
    && line == Join([r.id, deadline, PhaseName(r.phase), VersionText(r.phase), changed], '\t')
  }

  lemma RecordLineIsParsed(line: string, r: Record, deadline: string, changed: string)
    requires RecordLine(line, r, deadline, changed)
    ensures '\n' !in line && ParseRecord(line) == Some(r)
  {
    var fields := [r.id, deadline, PhaseName(r.phase), VersionText(r.phase), changed];
    IdIsPlain(r.id);
    forall i | 0 <= i < 5 ensures '\t' !in fields[i] && '\n' !in fields[i] {
      assert i == 1 || i == 4 ==> AllDigits(fields[i]);
    }
    SplitUndoesJoin(fields, '\t');
    JoinIsOneLine(fields, '\t');
  }

  /** A state file is read as a record exactly if it is one line of that record's five fields, version included. */
  lemma RecordsAreExact(content: string, r: Record)
    ensures ReadRecordFile(content) == Some(r) <==>
      exists line, deadline, changed :: RecordLine(line, r, deadline, changed) && content == line + "\n"
  {
    if line, deadline, changed :| RecordLine(line, r, deadline, changed) && content == line + "\n" {
      RecordLineIsParsed(line, r, deadline, changed);
      OneLineExactly(content, line);
    }
    if ReadRecordFile(content) == Some(r) {
      var line := OneLine(content).value;
      OneLineExactly(content, line);
      var f := Split(line, '\t');
      JoinUndoesSplit(line, '\t');
      assert f == [r.id, f[1], PhaseName(r.phase), VersionText(r.phase), f[4]];
      assert RecordLine(line, r, f[1], f[4]);
    }
  }

  // ----- the PAM marker -----

  predicate HexChar(c: char) {
    '0' <= c <= '9' || 'a' <= c <= 'f'
  }

  predicate IsContextKey(s: string) {
    |s| == 64 && forall i | 0 <= i < |s| :: HexChar(s[i])
  }

  function MarkerText(id: Id, key: string): string {
    id + "\t" + key
  }

  /** The context a well-formed marker belongs to. */
  function MarkerKey(text: string): Option<string> {
    var f := Split(text, '\t');
    if |f| == 2 && ValidId(f[0]) && IsContextKey(f[1]) then Some(f[1]) else None
  }

  lemma MarkerKeyUndoesText(id: Id, key: string)
    requires ValidId(id) && IsContextKey(key)
    ensures MarkerKey(MarkerText(id, key)) == Some(key)
  {
    IdIsPlain(id);
    forall i | 0 <= i < |key| ensures key[i] != '\t' { assert HexChar(key[i]); }
    SplitField(id, '\t', key);
    SplitField(key, '\t', "");
    assert MarkerText(id, key) == id + ['\t'] + key;
  }

  /** A marker is well-formed exactly if it is the text of some generation and the context. */
  lemma MarkersAreExact(text: string, key: string)
    ensures MarkerKey(text) == Some(key) <==>
      IsContextKey(key) && exists id :: ValidId(id) && text == MarkerText(id, key)
  {
    if IsContextKey(key) {
      if id :| ValidId(id) && text == MarkerText(id, key) {
        MarkerKeyUndoesText(id, key);
      }
    }
    if MarkerKey(text) == Some(key) {
      var f := Split(text, '\t');
      JoinUndoesSplit(text, '\t');
      assert f == [f[0], key] && f[1..] == [key];
      assert text == f[0] + ['\t'] + key;
      assert ValidId(f[0]) && text == MarkerText(f[0], key);
    }
  }

  // ----- outbox events -----

  function EventFields(e: Event): seq<string> {
    match e
    case Opened(id) => ["session-open", id, "2"]
    case Closed(id) => ["session-close", id, "3"]
    case TimedOut(id) => ["credential-expired", id, "3"]
  }

  function PrintEvent(e: Event): string {
    Join(EventFields(e), '\t') + "\n"
  }

  // strconv.Atoi: an optional sign and digits.
  function Atoi(s: string): Option<int> {
    if s != "" && (s[0] == '+' || s[0] == '-') then
      if AllDigits(s[1..]) then Some(if s[0] == '-' then -(Value(s[1..]) as int) else Value(s[1..])) else None
    else if AllDigits(s) then Some(Value(s)) else None
  }

  function ParseEvent(line: string): Option<Event> {
    var f := Split(line, '\t');
    if |f| != 3 || !ValidId(f[1]) then None
    else
      var version := Atoi(f[2]);
      if f[0] == "session-open" && version == Some(2) then Some(Opened(f[1]))
      else if f[0] == "session-close" && version == Some(3) then Some(Closed(f[1]))
      else if f[0] == "credential-expired" && version == Some(3) then Some(TimedOut(f[1]))
      else None
  }

  function ReadEventFile(content: string): Option<Event> {
    var line := OneLine(content);
    if line.Some? then ParseEvent(line.value) else None
  }

  lemma AtoiUndoesDecimal(n: nat)
    ensures Atoi(Decimal(n)) == Some(n)
  {
    ValueUndoesDecimal(n);
    assert Digit(Decimal(n)[0]);
  }

  /** Flush recovers every event that Queue writes. */
  lemma FlushReadsWhatQueueWrote(e: Event)
    requires ValidId(e.id)
    ensures ReadEventFile(PrintEvent(e)) == Some(e)
  {
    var fields := EventFields(e);
    IdIsPlain(e.id);
    assert Decimal(2) == "2" && Decimal(3) == "3";
    AtoiUndoesDecimal(2);
    AtoiUndoesDecimal(3);
    forall i | 0 <= i < |fields| ensures '\t' !in fields[i] && '\n' !in fields[i] {
      assert fields[i] == e.id || fields[i] == "session-open" || fields[i] == "session-close"
          || fields[i] == "credential-expired" || fields[i] == "2" || fields[i] == "3";
    }
    SplitUndoesJoin(fields, '\t');
    JoinIsOneLine(fields, '\t');
    OneLineUndoesNewline(Join(fields, '\t'));
  }

  lemma EventLineIsRead(content: string, e: Event, v: string)
    requires ValidId(e.id) && EventLine(content, e, v)
    ensures ReadEventFile(content) == Some(e)
  {
    var fields := [EventFields(e)[0], e.id, v];
    IdIsPlain(e.id);
    AtoiIsPlain(v);
    forall i | 0 <= i < 3 ensures '\t' !in fields[i] && '\n' !in fields[i] {
    }
    SplitUndoesJoin(fields, '\t');
    JoinIsOneLine(fields, '\t');
    OneLineExactly(content, Join(fields, '\t'));
  }

  /** An event file is accepted exactly with the version its endpoint reports. */
  lemma EventsAreExact(content: string, e: Event)
    ensures ReadEventFile(content) == Some(e) <==>
      exists v :: ValidId(e.id) && EventLine(content, e, v)
  {
    if v :| ValidId(e.id) && EventLine(content, e, v) {
      EventLineIsRead(content, e, v);
    }
    if ReadEventFile(content) == Some(e) {
      var line := OneLine(content).value;
      OneLineExactly(content, line);
      var f := Split(line, '\t');
      JoinUndoesSplit(line, '\t');
      assert f == [EventFields(e)[0], e.id, f[2]];
      assert EventLine(content, e, f[2]);
    }
  }

  predicate EventLine(content: string, e: Event, v: string) {
    && Atoi(v) == Some(if e.Opened? then 2 else 3)
    && content == Join([EventFields(e)[0], e.id, v], '\t') + "\n"
  }

  lemma AtoiIsPlain(v: string)
    requires Atoi(v).Some?
    ensures '\t' !in v && '\n' !in v
  {
    forall i | 0 <= i < |v| ensures v[i] != '\t' && v[i] != '\n' {
      if v[0] == '+' || v[0] == '-' {
        assert i > 0 ==> v[i] == v[1..][i - 1] && Digit(v[1..][i - 1]);
      } else {
        assert Digit(v[i]);
      }
    }
  }

  // ----- event file names -----

  /** `n` in exactly `w` digits. */
  function Padded(n: nat, w: nat): (s: string)
    requires n < Power10(w)
    ensures |s| == w
  {
    if w == 0 then "" else Padded(n / 10, w - 1) + [DigitChar(n % 10)]
  }

  predicate LexBefore(a: string, b: string) {
    if a == "" then b != ""
    else b != "" && (a[0] < b[0] || (a[0] == b[0] && LexBefore(a[1..], b[1..])))
  }

  lemma {:induction false} LexAppend(a: string, b: string, c: char, d: char)
    requires |a| == |b| && (LexBefore(a, b) || (a == b && c < d))
    ensures LexBefore(a + [c], b + [d])
  {
    if a != "" {
      assert (a + [c])[1..] == a[1..] + [c] && (b + [d])[1..] == b[1..] + [d];
      if a[0] == b[0] { LexAppend(a[1..], b[1..], c, d); }
    }
  }

  lemma {:induction false} PaddedOrder(n: nat, m: nat, w: nat)
    requires n < m < Power10(w)
    ensures LexBefore(Padded(n, w), Padded(m, w))
    decreases w
  {
    if n / 10 < m / 10 {
      PaddedOrder(n / 10, m / 10, w - 1);
    }
    LexAppend(Padded(n / 10, w - 1), Padded(m / 10, w - 1), DigitChar(n % 10), DigitChar(m % 10));
  }

  lemma EighteenDigits(n: nat)
    requires n <= MAX_SEQUENCE
    ensures n < Power10(18)
  {
    assert Power10(6) == 1_000_000;
    assert Power10(12) == 1_000_000_000_000;
    assert Power10(18) == 1_000_000_000_000_000_000;
  }

  function FileName(n: nat): string
    requires n <= MAX_SEQUENCE
  {
    EighteenDigits(n);
    "event-v2-" + Padded(n, 18)
  }

  lemma {:induction false} LexPrefix(p: string, a: string, b: string)
    ensures LexBefore(p + a, p + b) <==> LexBefore(a, b)
  {
    if p == "" {
      assert p + a == a && p + b == b;
    } else {
      assert (p + a)[1..] == p[1..] + a && (p + b)[1..] == p[1..] + b;
      LexPrefix(p[1..], a, b);
    }
  }

  lemma {:induction false} LexIsAsymmetric(a: string, b: string)
    ensures !(LexBefore(a, b) && LexBefore(b, a))
  {
    if a != "" && b != "" { LexIsAsymmetric(a[1..], b[1..]); }
  }

  /** Directory order of event files is the order of their numbers, up to the largest sequence. */
  lemma NamesSortLikeNumbers(n: nat, m: nat)
    requires n <= MAX_SEQUENCE && m <= MAX_SEQUENCE
    ensures LexBefore(FileName(n), FileName(m)) <==> n < m
    ensures FileName(n) == FileName(m) <==> n == m
  {
    EighteenDigits(n);
    EighteenDigits(m);
    LexPrefix("event-v2-", Padded(n, 18), Padded(m, 18));
    LexPrefix("event-v2-", Padded(m, 18), Padded(n, 18));
    LexIsAsymmetric(FileName(n), FileName(m));
    if n < m { PaddedOrder(n, m, 18); }
    if m < n { PaddedOrder(m, n, 18); }
  }

  predicate Numbered(items: seq<Item>) {
    Increasing(items) && forall i | 0 <= i < |items| :: items[i].number <= MAX_SEQUENCE
  }

  predicate Named(name: string, items: seq<Item>)
    requires Numbered(items)
  {
    exists k :: 0 <= k < |items| && FileName(items[k].number) == name
  }

  predicate NamesSorted(names: seq<string>) {
    forall i, j | 0 <= i < j < |names| :: LexBefore(names[i], names[j])
  }

  /** A directory listing: the names of exactly these events, each once, sorted as strings. */
  ghost predicate ListsNames(names: seq<string>, items: seq<Item>)
    requires Numbered(items)
  {
    NamesSorted(names) && forall name :: name in names <==> Named(name, items)
  }

  lemma NamedTail(name: string, items: seq<Item>)
    requires Numbered(items) && items != []
    ensures Numbered(items[1..])
    ensures Named(name, items[1..]) <==> Named(name, items) && name != FileName(items[0].number)
  {
    if k :| 0 <= k < |items| && FileName(items[k].number) == name {
      NamesSortLikeNumbers(items[0].number, items[k].number);
      assert k > 0 ==> items[1..][k - 1] == items[k];
    }
    if k :| 0 <= k < |items[1..]| && FileName(items[1..][k].number) == name {
      NamesSortLikeNumbers(items[0].number, items[k + 1].number);
      assert items[1..][k] == items[k + 1];
    }
  }

  lemma SortedTail(name: string, names: seq<string>)
    requires NamesSorted(names) && names != []
    ensures NamesSorted(names[1..]) && (name in names[1..] <==> name in names && name != names[0])
  {
    if name in names[1..] {
      var i :| 0 <= i < |names[1..]| && names[1..][i] == name;
      assert LexBefore(names[0], names[i + 1]);
      LexIsAsymmetric(name, name);
    }
  }

  lemma FirstNameIsOldest(names: seq<string>, items: seq<Item>)
    requires Numbered(items) && ListsNames(names, items) && names != []
    ensures items != [] && names[0] == FileName(items[0].number)
  {
    assert forall j | 0 < j < |names| :: LexBefore(names[0], names[j]);
    assert names[0] in names;
    var k :| 0 <= k < |items| && FileName(items[k].number) == names[0];
    var first := FileName(items[0].number);
    assert Named(first, items);
    var i :| 0 <= i < |names| && names[i] == first;
    NamesSortLikeNumbers(items[k].number, items[0].number);
  }

  /** Reading the directory by name, as the flush does, yields the remaining events in publication order. */
  lemma {:induction false} NamesListInPublicationOrder(names: seq<string>, items: seq<Item>)
    requires Numbered(items) && ListsNames(names, items)
    ensures |names| == |items| && forall i | 0 <= i < |items| :: names[i] == FileName(items[i].number)
    decreases |names|
  {
    if names == [] {
      assert items != [] ==> Named(FileName(items[0].number), items);
    } else {
      FirstNameIsOldest(names, items);
      forall name ensures name in names[1..] <==> Named(name, items[1..]) {
        NamedTail(name, items);
        SortedTail(name, names);
      }
      SortedTail("", names);
      NamesListInPublicationOrder(names[1..], items[1..]);
      forall i | 0 <= i < |items| ensures names[i] == FileName(items[i].number) {
        assert i > 0 ==> names[1..][i - 1] == names[i] && items[1..][i - 1] == items[i];
      }
    }
  }

  lemma OutboxIsNumbered(box: Outbox)
    requires box.Valid()
    ensures Numbered(box.rest)
  {
    box.RestIncreasing();
    forall i | 0 <= i < |box.rest| ensures box.rest[i].number <= MAX_SEQUENCE {
      assert box.rest[i] == box.Published()[|box.gone| + i];
    }
  }

  predicate NamesFile(name: string, files: map<nat, Event>) {
    exists n :: n in files && n <= MAX_SEQUENCE && FileName(n) == name
  }

  /** A listing of the outbox directory: the names of exactly its files, each once, sorted as strings. */
  ghost predicate ListsFiles(names: seq<string>, files: map<nat, Event>) {
    NamesSorted(names) && forall name :: name in names <==> NamesFile(name, files)
  }

  lemma FilesAreNamed(name: string, items: seq<Item>)
    requires Numbered(items)
    ensures Named(name, items) <==> NamesFile(name, FilesOf(items))
  {
    if k :| 0 <= k < |items| && FileName(items[k].number) == name {
      FilesOfMembers(items, items[k].number);
    }
    if n :| n in FilesOf(items) && n <= MAX_SEQUENCE && FileName(n) == name {
      FilesOfMembers(items, n);
    }
  }

  /** The same for the files of an outbox at any moment. */
  lemma OutboxListsInPublicationOrder(names: seq<string>, box: Outbox)
    requires box.Valid() && ListsFiles(names, box.files)
    ensures |names| == |box.rest|
    ensures forall i | 0 <= i < |names| ::
              box.rest[i].number <= MAX_SEQUENCE && names[i] == FileName(box.rest[i].number)
  {
    OutboxIsNumbered(box);
    forall name ensures name in names <==> Named(name, box.rest) {
      FilesAreNamed(name, box.rest);
    }
    NamesListInPublicationOrder(names, box.rest);
  }

  // ----- the SSH command -----

  const HELPER := "/usr/local/sbin/guest-account.sh"

  /** The desktop's password pattern: letters and digits without the ones easily confused. */
  predicate PasswordChar(c: char) {
    'A' <= c <= 'H' || 'J' <= c <= 'N' || 'P' <= c <= 'Z' || 'a' <= c <= 'k' || 'm' <= c <= 'z' || '2' <= c <= '9'
  }

  predicate ValidPassword(p: string) {
    5 <= |p| <= 128 && forall i | 0 <= i < |p| :: PasswordChar(p[i])
  }

  function ReadPassword(input: string): Option<string> {
    var line := OneLine(input);
    if line.Some? && |input| <= 129 && ValidPassword(line.value) then line else None
  }

  function IssueCommand(id: Id, deadline: nat): string {
    Join(["sudo", HELPER, "issue", id, Decimal(deadline)], ' ')
  }

  function RevokeCommand(id: Id): string {
    Join(["sudo", HELPER, "revoke", id], ' ')
  }

  datatype Dispatched = Denied | Run(args: seq<string>, input: string)

  function Dispatch(original: string, input: string): Dispatched {
    var f := Split(original, ' ');
    if |f| < 4 || f[0] != "sudo" || f[1] != HELPER || !ValidId(f[3]) then Denied
    else if f[2] == "revoke" && |f| == 4 then Run(["--", f[1], f[2], f[3]], "")
    else if f[2] == "issue" && |f| == 5 then
      var password := ReadPassword(input);
      if |f[4]| <= 12 && AllDigits(f[4]) && password.Some?
      then Run(["--", f[1], f[2], f[3], f[4]], password.value + "\n") else Denied
    else Denied
  }

  datatype Request = Issue(id: Id, deadline: int, password: string) | Revoke(id: Id) | Refused

  /** The helper's own reading of its arguments, before any check that depends on the clock or the disk. */
  function ParseArguments(args: seq<string>, input: string): Request {
    if |args| < 2 || !ValidId(args[1]) then Refused
    else if args[0] == "issue" then
      if |args| != 3 || ParseTime(args[2]).None? || ReadPassword(input).None? then Refused
      else Issue(args[1], ParseTime(args[2]).value, ReadPassword(input).value)
    else if args[0] == "revoke" && |args| == 2 then Revoke(args[1])
    else Refused
  }

  lemma PasswordLine(p: string)
    requires ValidPassword(p)
    ensures ReadPassword(p + "\n") == Some(p)
  {
    forall i | 0 <= i < |p| ensures p[i] != '\n' { assert PasswordChar(p[i]); }
    OneLineUndoesNewline(p);
  }

  /** The dispatcher and the helper recover exactly the generation, deadline and password that were sent. */
  lemma IssueArrivesIntact(id: Id, deadline: int, password: string)
    requires ValidId(id) && IsTime(deadline) && ValidPassword(password)
    ensures var d := Dispatch(IssueCommand(id, deadline), password + "\n");
      d.Run? && |d.args| == 5 && d.args[..2] == ["--", HELPER]
      && ParseArguments(d.args[2..], d.input) == Issue(id, deadline, password)
  {
    var fields := ["sudo", HELPER, "issue", id, Decimal(deadline)];
    IdIsPlain(id);
    DecimalIsPlain(deadline);
    forall i | 0 <= i < |fields| ensures ' ' !in fields[i] {
      assert fields[i] == "sudo" || fields[i] == HELPER || fields[i] == "issue" || fields[i] == id
          || fields[i] == Decimal(deadline);
    }
    SplitUndoesJoin(fields, ' ');
    PasswordLine(password);
    TwelveDigits(deadline);
    ParseUndoesPrintedTime(deadline);
  }

  lemma RevokeArrivesIntact(id: Id, input: string)
    requires ValidId(id)
    ensures var d := Dispatch(RevokeCommand(id), input);
      d.Run? && |d.args| == 4 && d.args[..2] == ["--", HELPER] && ParseArguments(d.args[2..], d.input) == Revoke(id)
  {
    var fields := ["sudo", HELPER, "revoke", id];
    IdIsPlain(id);
    forall i | 0 <= i < |fields| ensures ' ' !in fields[i] {
      assert fields[i] == "sudo" || fields[i] == HELPER || fields[i] == "revoke" || fields[i] == id;
    }
    SplitUndoesJoin(fields, ' ');
  }

  /** A password is read exactly from one line of five to 128 of its characters. */
  lemma PasswordsAreExact(input: string, p: string)
    ensures ReadPassword(input) == Some(p) <==> ValidPassword(p) && input == p + "\n"
  {
    OneLineExactly(input, p);
    if ValidPassword(p) && input == p + "\n" {
      PasswordLine(p);
    }
  }

  predicate IssueText(original: string, id: Id, deadline: string) {
    && ValidId(id) && AllDigits(deadline) && |deadline| <= 12
    && original == Join(["sudo", HELPER, "issue", id, deadline], ' ')
  }

  /**
    * The dispatcher runs nothing but the account helper, and that only for a revoke of a well-formed generation or for
    * an issue of one with a deadline in digits and a password.
    */
  lemma DispatchIsExact(original: string, input: string)
    ensures Dispatch(original, input).Run? <==>
      || (exists id :: ValidId(id) && original == RevokeCommand(id))
      || (exists id, deadline :: IssueText(original, id, deadline) && ReadPassword(input).Some?)
    ensures match Dispatch(original, input)
      case Denied => true
      case Run(args, text) =>
        if |args| == 4 then args[..3] == ["--", HELPER, "revoke"] && original == RevokeCommand(args[3]) && text == ""
        else |args| == 5 && args[..3] == ["--", HELPER, "issue"] && IssueText(original, args[3], args[4])
             && text == input && ReadPassword(input).Some?
  {
    if id :| ValidId(id) && original == RevokeCommand(id) {
      RevokeArrivesIntact(id, input);
    }
    if id, deadline :| IssueText(original, id, deadline) && ReadPassword(input).Some? {
      IssueIsRun(original, input, id, deadline);
    }
    var f := Split(original, ' ');
    JoinUndoesSplit(original, ' ');
    if Dispatch(original, input).Run? {
      if f[2] == "revoke" {
        assert f == ["sudo", HELPER, "revoke", f[3]];
      } else {
        assert f == ["sudo", HELPER, "issue", f[3], f[4]];
        assert IssueText(original, f[3], f[4]);
        PasswordsAreExact(input, ReadPassword(input).value);
      }
    }
  }

  lemma IssueIsRun(original: string, input: string, id: Id, deadline: string)
    requires IssueText(original, id, deadline) && ReadPassword(input).Some?
    ensures Dispatch(original, input).Run?
  {
    var fields := ["sudo", HELPER, "issue", id, deadline];
    IdIsPlain(id);
    forall i | 0 <= i < |fields| ensures ' ' !in fields[i] {
      assert i == 4 ==> AllDigits(fields[i]);
    }
    SplitUndoesJoin(fields, ' ');
  }
}

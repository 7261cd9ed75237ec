/** The two text files behind the tracker, `sessions.txt` and `tags.txt`.
    Each file is modelled by the sequence of lines that reading it line by
    line yields; writing, compacting and deleting are operations on that
    sequence. */
module Database {
  import opened Results
  import opened Text
  import opened Time
  import opened Sessions

  /** The lines of `lines` that are not empty, in their original order:
      the `filter(|x| !x.is_empty())` applied by every reader. */
  function NonEmptyLines(lines: seq<string>): (r: seq<string>)
    ensures |r| <= |lines|
    ensures forall i :: 0 <= i < |r| ==> r[i] != []
    ensures forall l :: l in r ==> l in lines
    ensures forall l :: l in lines && l != [] ==> l in r
  {
    if lines == [] then []
    else
      var rest := NonEmptyLines(lines[..|lines| - 1]);
      var last := lines[|lines| - 1];
      assert forall l :: l in lines ==> l in lines[..|lines| - 1] || l == last;
      if last == [] then rest else rest + [last]
  }

  /** Filtering distributes over concatenation, so it keeps the order. */
  lemma {:induction false} NonEmptyLinesAppend(a: seq<string>, b: seq<string>)
    ensures NonEmptyLines(a + b) == NonEmptyLines(a) + NonEmptyLines(b)
    decreases |b|
  {
    if b == [] {
      assert a + b == a;
    } else {
      var b' := b[..|b| - 1];
      assert (a + b)[..|a + b| - 1] == a + b';
      NonEmptyLinesAppend(a, b');
    }
  }

  /** A file without empty lines is read back unchanged. */
  lemma {:induction false} NonEmptyLinesOfClean(lines: seq<string>)
    requires forall i :: 0 <= i < |lines| ==> lines[i] != []
    ensures NonEmptyLines(lines) == lines
    decreases |lines|
  {
    if lines != [] {
      NonEmptyLinesOfClean(lines[..|lines| - 1]);
    }
  }

  lemma NonEmptyLinesIdempotent(lines: seq<string>)
    ensures NonEmptyLines(NonEmptyLines(lines)) == NonEmptyLines(lines)
  {
    NonEmptyLinesOfClean(NonEmptyLines(lines));
  }

  /** `remove_empty_lines`: the file is rewritten with only its non-empty
      lines; when it has none it is left as it is. */
  function Compacted(lines: seq<string>): (r: seq<string>)
    ensures NonEmptyLines(lines) == [] ==> r == lines
    ensures NonEmptyLines(lines) != [] ==> r == NonEmptyLines(lines) && r != []
  {
    if NonEmptyLines(lines) == [] then lines else NonEmptyLines(lines)
  }

  lemma CompactedIdempotent(lines: seq<string>)
    ensures Compacted(Compacted(lines)) == Compacted(lines)
  {
    NonEmptyLinesIdempotent(lines);
  }

  /** Appending a non-empty line to a file and compacting it leaves the
      earlier non-empty lines followed by the new one. */
  lemma AppendedLine(lines: seq<string>, line: string)
    requires line != []
    ensures Compacted(lines + [line]) == NonEmptyLines(lines) + [line]
  {
    NonEmptyLinesAppend(lines, [line]);
    assert NonEmptyLines([line]) == NonEmptyLines([]) + [line] by {
      assert [line][..0] == [];
    }
  }

  /** `Vec::remove(index)`: the sequence without its element at `index`. */
  function RemovedAt<T>(lines: seq<T>, index: nat): (r: seq<T>)
    requires index < |lines|
    ensures |r| == |lines| - 1
    ensures forall j :: 0 <= j < index ==> r[j] == lines[j]
    ensures forall j :: index <= j < |r| ==> r[j] == lines[j + 1]
  {
    lines[..index] + lines[index + 1..]
  }

  /** The message of `Vec::remove` on an index past the end. */
  function RemovalPanic(index: nat, len: nat): string
  {
    "removal index (is " + Decimal(index) + ") should be < len (is " + Decimal(len) + ")"
  }

  predicate AllFinished(sessions: seq<Session>)
  {
    forall i :: 0 <= i < |sessions| ==> !IsRunning(sessions[i])
  }

  /** The lines of finished sessions, one per session, in order. */
  function DbLines(sessions: seq<Session>, sep: char): (r: seq<string>)
    requires AllFinished(sessions)
    ensures |r| == |sessions|
    ensures forall i :: 0 <= i < |r| ==> r[i] == DbLine(sessions[i], sep) && r[i] != []
  {
    seq(|sessions|, i requires 0 <= i < |sessions| => DbLine(sessions[i], sep))
  }

  lemma DbLinesSnoc(sessions: seq<Session>, s: Session, sep: char)
    requires AllFinished(sessions) && !IsRunning(s)
    ensures AllFinished(sessions + [s])
    ensures DbLines(sessions + [s], sep) == DbLines(sessions, sep) + [DbLine(s, sep)]
  {
    assert AllFinished(sessions + [s]) by {
      forall i | 0 <= i < |sessions + [s]| ensures !IsRunning((sessions + [s])[i]) {
        if i < |sessions| {
          assert (sessions + [s])[i] == sessions[i];
        }
      }
    }
  }

  /** The raw lines after writing a newline and then each line of `written`
      to a truncated file: a non-empty write begins with an empty line. */
  function RawWrite(written: seq<string>): seq<string>
  {
    if written == [] then [] else [""] + written
  }

  /** Position of the first running session, or the length when all are finished. */
  function FirstRunning(sessions: seq<Session>): (k: nat)
    ensures k <= |sessions|
    ensures AllFinished(sessions[..k])
    ensures k < |sessions| ==> IsRunning(sessions[k])
  {
    if sessions == [] then 0
    else if IsRunning(sessions[0]) then 0
    else
      var k := 1 + FirstRunning(sessions[1..]);
      assert forall i :: 1 <= i < k ==> sessions[..k][i] == sessions[1..][..k - 1][i - 1];
      k
  }

  /** The state of a file after a write that may have been cut short. */
  datatype FileWrite = FileWrite(outcome: Outcome, lines: seq<string>)

  /** `export_all_sessions`: the file is truncated and every session is
      written in order. A running session makes `construct_db_string` panic
      part-way, leaving the lines of the sessions before it. When every
      session is finished the file ends up holding exactly their lines. */
  function ExportAll(sessions: seq<Session>, sep: char): (w: FileWrite)
    ensures w.outcome.Done? <==> AllFinished(sessions)
    ensures w.outcome.Done? ==> w.lines == DbLines(sessions, sep)
    ensures w.outcome.Panicked? ==> w.outcome.message == "Cannot export ongoing session."
    ensures w.outcome.Panicked? ==> w.lines == RawWrite(DbLines(sessions[..FirstRunning(sessions)], sep))
  {
    var k := FirstRunning(sessions);
    if k == |sessions| then
      assert sessions[..k] == sessions;
      var written := DbLines(sessions, sep);
      NonEmptyLinesOfClean(written);
      NonEmptyLinesAppend([""], written);
      assert NonEmptyLines([""]) == [] by {
        assert [""][..0] == [];
      }
      FileWrite(Done, Compacted(RawWrite(written)))
    else
      FileWrite(Panicked("Cannot export ongoing session."), RawWrite(DbLines(sessions[..k], sep)))
  }

  /** The session held by the pieces of a split line: the date and the two
      times are placed on the line's date. Fewer than five pieces, or an
      unreadable date or time, panics. */
  function ParseFields(parts: seq<string>): (r: Result<Session>)
    ensures r.Ok? ==> !IsRunning(r.value)
    ensures |parts| < 5 ==> r == Abort(IndexPanic(|parts|, |parts|))
    ensures r.Ok? ==> |parts| >= 5 && r.value.description == parts[1] && r.value.tag == parts[2]
                      && Day(r.value.start) == Day(r.value.end.value)
  {
    if |parts| < 5 then
      Abort(IndexPanic(|parts|, |parts|))
    else
      match ParseDateTime(parts[0], parts[3])
      case None => Abort("Error parsing start date.")
      case Some(start) =>
        match ParseDateTime(parts[0], parts[4])
        case None => Abort("Error parsing end date.")
        case Some(end) =>
          ParseDateTimeParts(parts[0], parts[3]);
          ParseDateTimeParts(parts[0], parts[4]);
          Ok(Session(parts[1], parts[2], start, Some(end)))
  }

  /** One line of `sessions.txt` read back, split at the separator. Every
      session read back is finished. */
  function ParseLine(line: string, sep: char): Result<Session>
  {
    ParseFields(Split(line, sep))
  }

  /** The sessions of a list of lines, line by line; the first line that
      cannot be read ends the whole parse with its panic. */
  function ParseAll(lines: seq<string>, sep: char): (r: Result<seq<Session>>)
    ensures r.Ok? <==> forall i :: 0 <= i < |lines| ==> ParseLine(lines[i], sep).Ok?
    ensures r.Ok? ==> |r.value| == |lines|
                      && forall i :: 0 <= i < |lines| ==> r.value[i] == ParseLine(lines[i], sep).value
  {
    if lines == [] then Ok([])
    else
      var front := lines[..|lines| - 1];
      FrontOfLines(lines, front, sep);
      match ParseAll(front, sep)
      case Abort(m) => Abort(m)
      case Ok(parsed) =>
        match ParseLine(lines[|lines| - 1], sep)
        case Abort(m) => Abort(m)
        case Ok(s) =>
          ParsedSnoc(lines, sep, parsed, s);
          Ok(parsed + [s])
  }

  lemma FrontOfLines(lines: seq<string>, front: seq<string>, sep: char)
    requires |lines| >= 1 && front == lines[..|lines| - 1]
    ensures (forall i :: 0 <= i < |lines| ==> ParseLine(lines[i], sep).Ok?)
            <==> (forall i :: 0 <= i < |front| ==> ParseLine(front[i], sep).Ok?) && ParseLine(lines[|lines| - 1], sep).Ok?
  {
    assert forall i :: 0 <= i < |front| ==> front[i] == lines[i];
  }

  lemma ParsedSnoc(lines: seq<string>, sep: char, parsed: seq<Session>, s: Session)
    requires |lines| >= 1 && |parsed| == |lines| - 1
    requires forall i :: 0 <= i < |lines| - 1 ==> ParseLine(lines[i], sep).Ok? && parsed[i] == ParseLine(lines[i], sep).value
    requires ParseLine(lines[|lines| - 1], sep) == Ok(s)
    ensures forall i :: 0 <= i < |lines| ==> (parsed + [s])[i] == ParseLine(lines[i], sep).value
  {
  }

  /** A failed parse reports the panic of one of the lines. */
  lemma {:induction false} ParseAllAbortIsLine(lines: seq<string>, sep: char)
    requires ParseAll(lines, sep).Abort?
    ensures exists i :: 0 <= i < |lines| && ParseLine(lines[i], sep) == Abort(ParseAll(lines, sep).message)
    decreases |lines|
  {
    var front := lines[..|lines| - 1];
    if ParseAll(front, sep).Abort? {
      ParseAllAbortIsLine(front, sep);
      var i :| 0 <= i < |front| && ParseLine(front[i], sep) == Abort(ParseAll(front, sep).message);
      assert front[i] == lines[i];
      ParseAllAbortExtends(lines, sep);
    } else {
      ParseAllAbortAtLast(lines, sep);
    }
  }

  /** A parse that gets past all lines but the last fails on the last. */
  lemma ParseAllAbortAtLast(lines: seq<string>, sep: char)
    requires |lines| >= 1 && ParseAll(lines[..|lines| - 1], sep).Ok? && ParseAll(lines, sep).Abort?
    ensures ParseLine(lines[|lines| - 1], sep) == Abort(ParseAll(lines, sep).message)
  {
  }

  /** `parse_sessions`: `None` for no lines, otherwise one session per line. */
  function ParseSessionsOf(lines: seq<string>, sep: char): (r: Result<Option<seq<Session>>>)
    ensures lines == [] ==> r == Ok(None)
    ensures r.Ok? && r.value.Some? ==> ParseAll(lines, sep) == Ok(r.value.value) && r.value.value != []
    ensures lines != [] && ParseAll(lines, sep).Ok? ==> r == Ok(Some(ParseAll(lines, sep).value))
    ensures ParseAll(lines, sep).Abort? ==> r == Abort(ParseAll(lines, sep).message)
  {
    match ParseAll(lines, sep)
    case Abort(m) => Abort(m)
    case Ok(parsed) => if parsed == [] then Ok(None) else Ok(Some(parsed))
  }

  predicate SameDay(s: Session)
    requires !IsRunning(s)
  {
    Day(s.start) == Day(s.end.value)
  }

  /** Reading back a written line gives the session with its end time moved
      onto its start day. */
  lemma ParseDbLine(s: Session, sep: char)
    requires !IsRunning(s) && SafeSeparator(sep) && sep !in s.description && sep !in s.tag
    ensures ParseLine(DbLine(s, sep), sep)
            == Ok(s.(end := Some(Day(s.start) * SecondsPerDay + SecondOfDay(s.end.value))))
  {
    DbLineSplits(s, sep);
    ParseDbFields(s);
  }

  /** The written fields of a session parse back to it, with the end time on the start day. */
  lemma ParseDbFields(s: Session)
    requires !IsRunning(s)
    ensures ParseFields(DbFields(s))
            == Ok(s.(end := Some(Day(s.start) * SecondsPerDay + SecondOfDay(s.end.value))))
  {
    DbFieldsTimes(s);
    ParseFieldsOfParts(DbFields(s), s, Day(s.start), SecondOfDay(s.start), SecondOfDay(s.end.value));
  }

  /** The date and the two times written for a session parse back. */
  lemma DbFieldsTimes(s: Session)
    requires !IsRunning(s)
    ensures ParseDate(DbFields(s)[0]) == Some(Day(s.start))
    ensures ParseTime(DbFields(s)[3]) == Some(SecondOfDay(s.start))
    ensures ParseTime(DbFields(s)[4]) == Some(SecondOfDay(s.end.value))
  {
    ParseFormatDate(s.start);
    ParseFormatTime(s.start);
    ParseFormatTime(s.end.value);
  }

  /** Pieces that hold the description and tag of `s` and whose date and
      times parse to the start of `s` give `s` with that end. */
  lemma ParseFieldsOfParts(parts: seq<string>, s: Session, day: int, start: nat, end: nat)
    requires |parts| >= 5 && parts[1] == s.description && parts[2] == s.tag
    requires ParseDate(parts[0]) == Some(day) && day * SecondsPerDay + start == s.start
    requires ParseTime(parts[3]) == Some(start) && ParseTime(parts[4]) == Some(end)
    ensures ParseFields(parts) == Ok(s.(end := Some(day * SecondsPerDay + end)))
  {
  }

  /** A session that ends on the day it started is read back exactly. */
  lemma ParseDbLineSameDay(s: Session, sep: char)
    requires !IsRunning(s) && SafeSeparator(sep) && sep !in s.description && sep !in s.tag
    requires SameDay(s)
    ensures ParseLine(DbLine(s, sep), sep) == Ok(s)
  {
    ParseDbLine(s, sep);
    var e := s.end.value;
    assert Day(s.start) * SecondsPerDay + SecondOfDay(e) == e;
    assert s.(end := Some(e)) == s;
  }

  /** A session that runs past midnight is not read back as written: its end
      is moved back by whole days onto the start day. */
  lemma MidnightSessionNotRestored(s: Session, sep: char)
    requires !IsRunning(s) && SafeSeparator(sep) && sep !in s.description && sep !in s.tag
    requires Day(s.start) < Day(s.end.value)
    ensures ParseLine(DbLine(s, sep), sep).Ok?
    ensures ParseLine(DbLine(s, sep), sep).value.end.value
            == s.end.value - (Day(s.end.value) - Day(s.start)) * SecondsPerDay
    ensures ParseLine(DbLine(s, sep), sep).value != s
  {
    ParseDbLine(s, sep);
    var e := s.end.value;
    assert e == Day(e) * SecondsPerDay + SecondOfDay(e);
    assert Day(s.start) * SecondsPerDay + SecondOfDay(e) == e - (Day(e) - Day(s.start)) * SecondsPerDay;
  }

  /** Every session whose line can be parsed again unchanged. */
  predicate Restorable(sessions: seq<Session>, sep: char)
  {
    forall i :: 0 <= i < |sessions| ==>
      !IsRunning(sessions[i]) && SameDay(sessions[i])
      && sep !in sessions[i].description && sep !in sessions[i].tag
  }

  /** Writing a list of same-day sessions and parsing the lines back gives
      the same list. */
  lemma ParseDbLines(sessions: seq<Session>, sep: char)
    requires SafeSeparator(sep) && Restorable(sessions, sep)
    ensures ParseAll(DbLines(sessions, sep), sep) == Ok(sessions)
    ensures sessions != [] ==> ParseSessionsOf(DbLines(sessions, sep), sep) == Ok(Some(sessions))
  {
    var lines := DbLines(sessions, sep);
    forall i | 0 <= i < |lines|
      ensures ParseLine(lines[i], sep) == Ok(sessions[i])
    {
      ParseDbLineSameDay(sessions[i], sep);
    }
    var r := ParseAll(lines, sep);
    assert r.Ok?;
    assert r.value == sessions;
  }

  /** Which of the two files an operation works on. */
  datatype DbFile = SessionsFile | TagsFile

  /** The database handler with the current contents of its two files. */
  class DatabaseHandler {
    var sessionLines: seq<string>
    var tagLines: seq<string>

    constructor(sessionLines: seq<string>, tagLines: seq<string>)
      ensures this.sessionLines == sessionLines && this.tagLines == tagLines
    {
      this.sessionLines := sessionLines;
      this.tagLines := tagLines;
    }

    /** `remove_empty_lines` on one of the files. */
    method RemoveEmptyLines(file: DbFile)
      modifies this
      ensures file.SessionsFile? ==> sessionLines == Compacted(old(sessionLines)) && tagLines == old(tagLines)
      ensures file.TagsFile? ==> tagLines == Compacted(old(tagLines)) && sessionLines == old(sessionLines)
    {
      if file.SessionsFile? {
        var entries := NonEmptyLines(sessionLines);
        if entries != [] {
          sessionLines := entries;
        }
      } else {
        var entries := NonEmptyLines(tagLines);
        if entries != [] {
          tagLines := entries;
        }
      }
    }

    /** `export_session`: appends one session line and compacts the file. */
    method ExportSession(line: string)
      modifies this
      ensures sessionLines == Compacted(old(sessionLines) + [line])
      ensures tagLines == old(tagLines)
    {
      sessionLines := sessionLines + [line];
      RemoveEmptyLines(SessionsFile);
    }

    /** `export_tag`: appends one tag and compacts the file. */
    method ExportTag(tag: string)
      modifies this
      ensures tagLines == Compacted(old(tagLines) + [tag])
      ensures sessionLines == old(sessionLines)
    {
      tagLines := tagLines + [tag];
      RemoveEmptyLines(TagsFile);
    }

    /** `export_all_sessions`: rewrites the sessions file from `sessions`. */
    method ExportAllSessions(sessions: seq<Session>, sep: char) returns (outcome: Outcome)
      modifies this
      ensures FileWrite(outcome, sessionLines) == ExportAll(sessions, sep)
      ensures tagLines == old(tagLines)
    {
      sessionLines := [];
      var i := 0;
      while i < |sessions|
        invariant 0 <= i <= |sessions|
        invariant AllFinished(sessions[..i])
        invariant sessionLines == RawWrite(DbLines(sessions[..i], sep))
        invariant tagLines == old(tagLines)
      {
        var line := ConstructDbString(sessions[i], sep);
        if line.Abort? {
          assert FirstRunning(sessions) == i by {
            FirstRunningAt(sessions, i);
          }
          return Panicked(line.message);
        }
        assert sessions[..i + 1] == sessions[..i] + [sessions[i]];
        DbLinesSnoc(sessions[..i], sessions[i], sep);
        sessionLines := (if sessionLines == [] then [""] else sessionLines) + [line.value];
        i := i + 1;
      }
      assert sessions[..i] == sessions;
      RemoveEmptyLines(SessionsFile);
      outcome := Done;
    }

    /** `delete_session`: removes the raw line at `index`, blank lines
        included; an index past the end panics. */
    method DeleteSession(index: nat) returns (outcome: Outcome)
      modifies this
      ensures index < |old(sessionLines)| ==> outcome == Done && sessionLines == RemovedAt(old(sessionLines), index)
      ensures index >= |old(sessionLines)| ==>
                outcome == Panicked(RemovalPanic(index, |old(sessionLines)|)) && sessionLines == old(sessionLines)
      ensures tagLines == old(tagLines)
    {
      if index >= |sessionLines| {
        return Panicked(RemovalPanic(index, |sessionLines|));
      }
      sessionLines := RemovedAt(sessionLines, index);
      outcome := Done;
    }

    /** `parse_sessions`: reads the lines one after the other. */
    method ParseSessions(lines: seq<string>, sep: char) returns (r: Result<Option<seq<Session>>>)
      ensures r == ParseSessionsOf(lines, sep)
    {
      var parsed: seq<Session> := [];
      var i := 0;
      while i < |lines|
        invariant 0 <= i <= |lines|
        invariant ParseAll(lines[..i], sep) == Ok(parsed)
      {
        assert lines[..i + 1][..i] == lines[..i];
        var session := ParseLine(lines[i], sep);
        if session.Abort? {
          assert ParseAll(lines[..i + 1], sep) == Abort(session.message);
          ParseAllAbortsOnPrefix(lines, i + 1, sep);
          return Abort(session.message);
        }
        parsed := parsed + [session.value];
        i := i + 1;
      }
      assert lines[..i] == lines;
      if parsed == [] {
        return Ok(None);
      }
      r := Ok(Some(parsed));
    }

    /** `import_sessions`: the non-empty lines of the sessions file, parsed. */
    method ImportSessions(sep: char) returns (r: Result<Option<seq<Session>>>)
      ensures r == ParseSessionsOf(NonEmptyLines(sessionLines), sep)
    {
      var lines := NonEmptyLines(sessionLines);
      r := ParseSessions(lines, sep);
    }

    /** `import_tags`: the non-empty lines of the tags file. */
    method ImportTags() returns (r: Option<seq<string>>)
      ensures r == Some(NonEmptyLines(tagLines))
    {
      r := Some(NonEmptyLines(tagLines));
    }
  }

  lemma {:induction false} FirstRunningAt(sessions: seq<Session>, i: nat)
    requires i < |sessions| && AllFinished(sessions[..i]) && IsRunning(sessions[i])
    ensures FirstRunning(sessions) == i
    decreases i
  {
    if i > 0 {
      assert !IsRunning(sessions[..i][0]);
      assert sessions[1..][..i - 1] == sessions[..i][1..];
      FirstRunningAt(sessions[1..], i - 1);
    }
  }

  /** A parse that fails on a prefix fails on the whole list with the same message. */
  lemma {:induction false} ParseAllAbortsOnPrefix(lines: seq<string>, n: nat, sep: char)
    requires n <= |lines| && ParseAll(lines[..n], sep).Abort?
    ensures ParseAll(lines, sep) == ParseAll(lines[..n], sep)
    decreases |lines| - n
  {
    if n < |lines| {
      var longer := lines[..n + 1];
      assert longer[..|longer| - 1] == lines[..n];
      ParseAllAbortExtends(longer, sep);
      ParseAllAbortsOnPrefix(lines, n + 1, sep);
    } else {
      assert lines[..n] == lines;
    }
  }

  /** A parse that fails before the last line fails the same way with it. */
  lemma ParseAllAbortExtends(lines: seq<string>, sep: char)
    requires |lines| >= 1 && ParseAll(lines[..|lines| - 1], sep).Abort?
    ensures ParseAll(lines, sep) == ParseAll(lines[..|lines| - 1], sep)
  {
  }

}

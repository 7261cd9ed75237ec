/** A tracked work session: what was done, under which tag, and when. */
module Sessions {
  import opened Results
  import opened Text
  import opened Time
  import opened AppState

  /** `end` is `None` while the session is still running. */
  datatype Session = Session(description: string, tag: string, start: Timestamp, end: Option<Timestamp>)

  predicate IsRunning(s: Session)
  {
    s.end.None?
  }

  /** Duration of a finished session in seconds. */
  function Duration(s: Session): int
    requires !IsRunning(s)
  {
    s.end.value - s.start
  }

  /** `PartialEq::eq`: field-wise comparison. It agrees with equality of the
      records, so sessions behave as plain values. */
  function SessionEq(a: Session, b: Session): (r: bool)
    ensures r <==> a == b
  {
    a.description == b.description && a.tag == b.tag && a.start == b.start && a.end == b.end
  }

  /** `Clone::clone`, via `Session::from`: an equal copy. */
  function Clone(s: Session): (r: Session)
    ensures SessionEq(r, s)
  {
    Session(s.description, s.tag, s.start, s.end)
  }

  /** `set_field`: applies one edited field to the session. A date edit moves
      the whole session to the new start, keeping its length; description and
      tag edits are trimmed and ignored when nothing is left; start and end
      are replaced as given. */
  function SetField(s: Session, field: SessionField): (r: Session)
    ensures field.Date? ==> r.start == field.date && r.description == s.description && r.tag == s.tag
                            && (IsRunning(r) <==> IsRunning(s))
                            && (!IsRunning(s) ==> Duration(r) == Duration(s))
    ensures field.Description? ==> r.tag == s.tag && r.start == s.start && r.end == s.end
    ensures field.Description? && AllWhitespace(field.description) ==> r == s
    ensures field.Description? && !AllWhitespace(field.description) ==>
              r.description == Trim(field.description) && r.description != []
    ensures field.Tag? ==> r.description == s.description && r.start == s.start && r.end == s.end
    ensures field.Tag? && AllWhitespace(field.tag) ==> r == s
    ensures field.Tag? && !AllWhitespace(field.tag) ==> r.tag == Trim(field.tag) && r.tag != []
    ensures field.Start? ==> r == s.(start := field.start)
    ensures field.End? ==> r == s.(end := field.end)
    ensures field.NoField? ==> r == s
  {
    match field
    case Date(newDate) =>
      var delta := newDate - s.start;
      var end := if s.end.Some? then Some(s.end.value + delta) else s.end;
      s.(start := s.start + delta, end := end)
    case Description(d) =>
      var d := Trim(d);
      if d != [] then s.(description := d) else s
    case Tag(t) =>
      var t := Trim(t);
      if t != [] then s.(tag := t) else s
    case Start(t) => s.(start := t)
    case End(e) => s.(end := e)
    case NoField => s
  }

  /** Applying the same description or tag edit twice is the same as once. */
  lemma SetFieldTextIdempotent(s: Session, field: SessionField)
    requires field.Description? || field.Tag?
    ensures SetField(SetField(s, field), field) == SetField(s, field)
  {
  }

  /** Re-applying the values a session already has changes nothing: the cursor
      carries the buffer's own start and end, so confirming an untouched date,
      start or end field is a no-op. */
  lemma SetFieldOwnValues(s: Session)
    ensures SetField(s, SessionField.Date(s.start)) == s
    ensures SetField(s, SessionField.Start(s.start)) == s
    ensures SetField(s, SessionField.End(s.end)) == s
  {
  }

  /** `get_end_time_string`: the end time as `%H:%M:%S`, or `None` while running.
      The text reads back as the end's time of day. */
  function GetEndTimeString(s: Session): (r: Option<string>)
    ensures r.None? <==> IsRunning(s)
    ensures r.Some? ==> ParseTime(r.value) == Some(SecondOfDay(s.end.value))
  {
    if s.end.Some? then
      ParseFormatTime(s.end.value);
      Some(FormatTime(s.end.value))
    else
      None
  }

  /** `get_duration_string`: `hh:mm:ss` of `end - start`, or `None` while
      running. A duration of less than a day reads back as itself. */
  function GetDurationString(s: Session): (r: Option<string>)
    ensures r.None? <==> IsRunning(s)
    ensures r.Some? && 0 <= Duration(s) < SecondsPerDay ==> ParseTime(r.value) == Some(Duration(s))
  {
    if s.end.Some? then
      DurationReadsBack(s.end.value - s.start);
      Some(FormatDuration(s.end.value - s.start))
    else
      None
  }

  lemma DurationReadsBack(d: int)
    ensures 0 <= d < SecondsPerDay ==> ParseTime(FormatDuration(d)) == Some(d)
  {
    if 0 <= d < SecondsPerDay {
      FormatDurationParses(d);
    }
  }

  /** A separator that cannot occur in a written date or time. */
  predicate SafeSeparator(sep: char)
  {
    !IsDigit(sep) && sep != '-' && sep != ':'
  }

  /** The separator the application uses. */
  const ValueSeparator: char := ';'

  lemma ValueSeparatorIsSafe()
    ensures SafeSeparator(ValueSeparator)
  {
  }

  /** The five written fields of a finished session, and the empty piece after
      the trailing separator. */
  function DbFields(s: Session): (fields: seq<string>)
    requires !IsRunning(s)
    ensures |fields| == 6
  {
    [FormatDate(s.start), s.description, s.tag, FormatTime(s.start), FormatTime(s.end.value), ""]
  }

  /** The line written for a finished session: the fields joined by `sep`.
      It is never empty and ends with the separator. */
  function DbLine(s: Session, sep: char): (r: string)
    requires !IsRunning(s)
    ensures |r| >= 5 && r[|r| - 1] == sep
  {
    DbLineLayout(s, sep);
    Join(DbFields(s), sep)
  }

  /** Joining the fields puts the separator after each of the five. */
  lemma DbLineLayout(s: Session, sep: char)
    requires !IsRunning(s)
    ensures Join(DbFields(s), sep) == FormatDate(s.start) + [sep] + s.description + [sep] + s.tag + [sep]
                                      + FormatTime(s.start) + [sep] + FormatTime(s.end.value) + [sep]
  {
    JoinFive(FormatDate(s.start), s.description, s.tag, FormatTime(s.start), FormatTime(s.end.value), sep);
  }

  lemma JoinFive(a: string, b: string, c: string, d: string, e: string, sep: char)
    ensures Join([a, b, c, d, e, ""], sep) == a + [sep] + b + [sep] + c + [sep] + d + [sep] + e + [sep]
  {
    var f := [a, b, c, d, e, ""];
    assert Join(f[4..], sep) == e + [sep] + "";
    assert Join(f[3..], sep) == d + [sep] + e + [sep];
    assert Join(f[2..], sep) == c + [sep] + d + [sep] + e + [sep];
    assert Join(f[1..], sep) == b + [sep] + c + [sep] + d + [sep] + e + [sep];
  }

  /** `construct_db_string`: the line of a finished session; it panics on a
      running one. When description and tag hold no separator, splitting the
      line gives back exactly the five fields. */
  function ConstructDbString(s: Session, sep: char): (r: Result<string>)
    ensures r.Abort? <==> IsRunning(s)
    ensures r.Abort? ==> r.message == "Cannot export ongoing session."
    ensures r.Ok? ==> r.value == DbLine(s, sep) && |r.value| >= 5 && r.value[|r.value| - 1] == sep
    ensures r.Ok? && SafeSeparator(sep) && sep !in s.description && sep !in s.tag ==>
              Split(r.value, sep) == DbFields(s)
  {
    if s.end.None? then
      Abort("Cannot export ongoing session.")
    else
      DbLineSplitsWhenSafe(s, sep);
      Ok(DbLine(s, sep))
  }

  lemma DbLineSplitsWhenSafe(s: Session, sep: char)
    requires !IsRunning(s)
    ensures SafeSeparator(sep) && sep !in s.description && sep !in s.tag ==> Split(DbLine(s, sep), sep) == DbFields(s)
  {
    if SafeSeparator(sep) && sep !in s.description && sep !in s.tag {
      DbLineSplits(s, sep);
    }
  }

  /** The written line is the fields joined by the separator, so splitting it
      recovers them when no field holds the separator. */
  lemma DbLineSplits(s: Session, sep: char)
    requires !IsRunning(s) && SafeSeparator(sep) && sep !in s.description && sep !in s.tag
    ensures Split(DbLine(s, sep), sep) == DbFields(s)
  {
    var f := DbFields(s);
    assert forall p :: p in f ==> sep !in p;
    SplitJoin(f, sep);
  }
}

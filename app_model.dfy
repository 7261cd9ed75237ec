/** The state of the application manager as a value, and the effect of each
    of its operations on that value. The class `Manager.AppManager` keeps the
    same state in fields and is proved to follow these functions. */
module AppModel {
  import opened Results
  import opened Text
  import opened Time
  import opened AppState
  import opened Sessions
  import opened Database

  /** Everything the application manager holds that the transition logic
      reads or writes, together with the contents of the two files. */
  datatype AppView = AppView(
    running: bool,
    tags: seq<string>,
    tempTagIndex: nat,
    selectedSessionIndex: nat,
    selectedSessionField: SessionField,
    selectedDatetimeSegment: nat,
    selectedTagIndex: nat,
    sessions: seq<Session>,
    state: CommandState,
    descriptionBuffer: string,
    tagBuffer: string,
    sessionEditBuffer: Option<Session>,
    sessionLines: seq<string>,
    tagLines: seq<string>)

  /** The result of an operation that may panic: how it ended and the state
      it left behind (at the point of the panic, if it panicked). */
  datatype Run = Run(outcome: Outcome, app: AppView)

  /** What the application does not change when it only moves through its
      menus: the sessions, the tags and both files. */
  predicate SameData(a: AppView, b: AppView)
  {
    a.sessions == b.sessions && a.tags == b.tags && a.sessionLines == b.sessionLines && a.tagLines == b.tagLines
  }

  /** `is_last_session_still_running`. */
  predicate IsLastSessionStillRunning(sessions: seq<Session>)
  {
    sessions != [] && IsRunning(sessions[|sessions| - 1])
  }

  predicate NoDuplicates(tags: seq<string>)
  {
    forall i, j :: 0 <= i < j < |tags| ==> tags[i] != tags[j]
  }

  /** The state `new` builds before it reads the files: running, in the list
      view, with nothing selected, empty buffers and no sessions or tags. */
  function Fresh(sessionLines: seq<string>, tagLines: seq<string>): (v: AppView)
    ensures v.running && v.state == Idle && v.sessions == [] && v.tags == []
    ensures v.sessionEditBuffer.None? && v.selectedSessionField.NoField?
    ensures v.sessionLines == sessionLines && v.tagLines == tagLines
  {
    AppView(true, [], 0, 0, NoField, 0, 0, [], Idle, [], [], None, sessionLines, tagLines)
  }

  /** `new`: the non-empty lines of the sessions file are parsed, and a line
      that cannot be read panics. Only when at least one session was read is
      the tags file read too; the selected tag is then the tag of the newest
      session, which panics when the tags file does not hold it. */
  function Initial(sessionLines: seq<string>, tagLines: seq<string>): (r: Run)
    ensures r.app == Fresh(sessionLines, tagLines).(sessions := r.app.sessions, tags := r.app.tags,
                                                     selectedTagIndex := r.app.selectedTagIndex)
    ensures r.app.sessions == [] ==> r.app.tags == [] && r.app.selectedTagIndex == 0
    ensures r.outcome.Done? <==>
              ParseAll(NonEmptyLines(sessionLines), ValueSeparator).Ok?
              && (NonEmptyLines(sessionLines) != [] ==>
                    ParseAll(NonEmptyLines(sessionLines), ValueSeparator).value[|NonEmptyLines(sessionLines)| - 1].tag
                    in NonEmptyLines(tagLines))
    ensures r.outcome.Done? ==> r.app.sessions == ParseAll(NonEmptyLines(sessionLines), ValueSeparator).value
    ensures r.outcome.Done? && r.app.sessions != [] ==>
              r.app.tags == NonEmptyLines(tagLines) && r.app.selectedTagIndex < |r.app.tags|
              && r.app.tags[r.app.selectedTagIndex] == r.app.sessions[|r.app.sessions| - 1].tag
  {
    var blank := Fresh(sessionLines, tagLines);
    var lines := NonEmptyLines(sessionLines);
    match ParseSessionsOf(lines, ValueSeparator)
    case Abort(m) => Run(Panicked(m), blank)
    case Ok(None) => Run(Done, blank)
    case Ok(Some(sessions)) =>
      var v := blank.(sessions := sessions, tags := NonEmptyLines(tagLines));
      match IndexOfTag(v.tags, sessions[|sessions| - 1].tag)
      case Abort(m) => Run(Panicked(m), v)
      case Ok(i) => Run(Done, v.(selectedTagIndex := i))
  }

  /** `get_selected_session_field_index`: the column of the field under the cursor. */
  function FieldIndex(field: SessionField): (i: nat)
    ensures i <= 4
    ensures i == 0 <==> field.Date? || field.NoField?
  {
    match field
    case NoField => 0
    case Date(_) => 0
    case Description(_) => 1
    case Tag(_) => 2
    case Start(_) => 3
    case End(_) => 4
  }

  /** The cursor carries the current value of its field in the edit buffer. */
  predicate Carries(field: SessionField, buffer: Session)
  {
    match field
    case Date(d) => d == buffer.start
    case Description(d) => d == buffer.description
    case Tag(t) => t == buffer.tag
    case Start(t) => t == buffer.start
    case End(e) => e == buffer.end
    case NoField => true
  }

  /** `increment_selected_session_field`: the cursor moves one field to the
      right, stopping at End, and picks up that field's value from the buffer.
      Without a buffer nothing moves; `NoField` stays put. */
  function IncrementField(field: SessionField, buffer: Option<Session>): (r: SessionField)
    ensures buffer.None? ==> r == field
    ensures buffer.Some? ==> Carries(r, buffer.value) && (r.NoField? <==> field.NoField?)
    ensures buffer.Some? && !field.NoField? ==>
              FieldIndex(r) == (if FieldIndex(field) < 4 then FieldIndex(field) + 1 else 4)
  {
    match buffer
    case None => field
    case Some(b) =>
      match field
      case Date(_) => SessionField.Description(b.description)
      case Description(_) => SessionField.Tag(b.tag)
      case Tag(_) => SessionField.Start(b.start)
      case Start(_) => SessionField.End(b.end)
      case End(_) => SessionField.End(b.end)
      case NoField => NoField
  }

  /** `decrement_selected_session_field`: the cursor moves one field to the
      left, stopping at Date. */
  function DecrementField(field: SessionField, buffer: Option<Session>): (r: SessionField)
    ensures buffer.None? ==> r == field
    ensures buffer.Some? ==> Carries(r, buffer.value) && (r.NoField? <==> field.NoField?)
    ensures buffer.Some? && !field.NoField? ==>
              FieldIndex(r) == (if FieldIndex(field) > 0 then FieldIndex(field) - 1 else 0)
  {
    match buffer
    case None => field
    case Some(b) =>
      match field
      case Date(_) => SessionField.Date(b.start)
      case Description(_) => SessionField.Date(b.start)
      case Tag(_) => SessionField.Description(b.description)
      case Start(_) => SessionField.Tag(b.tag)
      case End(_) => SessionField.Start(b.start)
      case NoField => NoField
  }

  /** Moving right and then left returns to the same field, and so does
      moving left and then right, except at the two ends of the row. */
  lemma FieldCycleInverse(field: SessionField, b: Session)
    requires !field.NoField?
    ensures FieldIndex(field) < 4 ==>
              FieldIndex(DecrementField(IncrementField(field, Some(b)), Some(b))) == FieldIndex(field)
    ensures FieldIndex(field) > 0 ==>
              FieldIndex(IncrementField(DecrementField(field, Some(b)), Some(b))) == FieldIndex(field)
  {
  }

  /** `get_index_of_tag`: the first position of `tag`; a missing tag panics. */
  function IndexOfTag(tags: seq<string>, tag: string): (r: Result<nat>)
    ensures r.Ok? <==> tag in tags
    ensures r.Ok? ==> r.value < |tags| && tags[r.value] == tag && tag !in tags[..r.value]
    ensures forall j :: 0 <= j < |tags| && tags[j] == tag ==> r.Ok? && r.value <= j
    ensures r.Abort? ==> r.message == "Failed to retrieve tag index."
  {
    if tags == [] then Abort("Failed to retrieve tag index.")
    else if tags[0] == tag then Ok(0)
    else
      match IndexOfTag(tags[1..], tag)
      case Abort(m) => Abort(m)
      case Ok(i) =>
        assert tags[..i + 1] == [tags[0]] + tags[1..][..i];
        Ok(i + 1)
  }

  /** `try_start_new_session`: the description buffer is trimmed; when the
      selected tag exists and the trimmed description is not empty, one
      running session starting at `now` is appended and the buffer cleared.
      Nothing else changes. */
  function TryStartNewSession(v: AppView, now: Timestamp): (r: AppView)
    ensures var d := Trim(v.descriptionBuffer);
            if v.selectedTagIndex < |v.tags| && d != [] then
              r == v.(sessions := v.sessions + [Session(d, v.tags[v.selectedTagIndex], now, None)],
                      descriptionBuffer := [])
            else
              r == v.(descriptionBuffer := d)
    ensures |r.sessions| == |v.sessions| + 1 ==>
              IsLastSessionStillRunning(r.sessions) && r.sessions[..|v.sessions|] == v.sessions
  {
    var d := Trim(v.descriptionBuffer);
    if v.selectedTagIndex < |v.tags| && d != [] then
      var r := v.(sessions := v.sessions + [Session(d, v.tags[v.selectedTagIndex], now, None)], descriptionBuffer := []);
      assert r.sessions[..|v.sessions|] == v.sessions;
      r
    else
      v.(descriptionBuffer := d)
  }

  /** `try_store_tag`: the tag buffer is trimmed; an empty or already known
      tag is refused and the tags stay as they are. Otherwise the tag is
      appended in memory and to the tags file, becomes the selected tag, and
      the buffer is cleared. The tags never gain a duplicate. */
  function TryStoreTag(v: AppView): (r: AppView)
    ensures var t := Trim(v.tagBuffer);
            if t == [] || t in v.tags then
              r == v.(tagBuffer := t)
            else
              r.tags == v.tags + [t] && r.selectedTagIndex == |v.tags| && r.tags[r.selectedTagIndex] == t
              && r.tagLines == NonEmptyLines(v.tagLines) + [t] && r.tagBuffer == []
              && r == v.(tags := r.tags, tagLines := r.tagLines, selectedTagIndex := r.selectedTagIndex, tagBuffer := [])
    ensures NoDuplicates(v.tags) ==> NoDuplicates(r.tags)
  {
    var t := Trim(v.tagBuffer);
    if t == [] || t in v.tags then
      v.(tagBuffer := t)
    else
      var tags := v.tags + [t];
      AppendedLine(v.tagLines, t);
      v.(tags := tags, tagLines := Compacted(v.tagLines + [t]), selectedTagIndex := |tags| - 1, tagBuffer := [])
  }

  /** A new tag is appended to the tags and to the compacted tags file. */
  lemma TryStoreTagStored(v: AppView)
    requires Trim(v.tagBuffer) != [] && Trim(v.tagBuffer) !in v.tags
    ensures var t := Trim(v.tagBuffer);
            TryStoreTag(v) == v.(tags := v.tags + [t], tagLines := Compacted(v.tagLines + [t]),
                                 selectedTagIndex := |v.tags|, tagBuffer := [])
  {
  }

  /** The sessions whose lines belong in the sessions file: all of them, or
      all but the last while the last is running. */
  function Settled(sessions: seq<Session>): seq<Session>
  {
    if IsLastSessionStillRunning(sessions) then sessions[..|sessions| - 1] else sessions
  }

  /** `end_running_session`: a running last session is ended at `now` and its
      line appended to the sessions file. Otherwise nothing changes. */
  function EndRunningSession(v: AppView, now: Timestamp): (r: AppView)
    ensures !IsLastSessionStillRunning(v.sessions) ==> r == v
    ensures IsLastSessionStillRunning(v.sessions) ==>
              var n := |v.sessions|;
              var ended := v.sessions[n - 1].(end := Some(now));
              r == v.(sessions := v.sessions[n - 1 := ended],
                      sessionLines := NonEmptyLines(v.sessionLines) + [DbLine(ended, ValueSeparator)])
    ensures !IsLastSessionStillRunning(r.sessions) && |r.sessions| == |v.sessions|
  {
    if IsLastSessionStillRunning(v.sessions) then
      var n := |v.sessions|;
      var ended := v.sessions[n - 1].(end := Some(now));
      var line := ConstructDbString(ended, ValueSeparator);
      assert line == Ok(DbLine(ended, ValueSeparator));
      AppendedLine(v.sessionLines, line.value);
      var sessions := v.sessions[n - 1 := ended];
      assert sessions[n - 1] == ended;
      v.(sessions := sessions, sessionLines := Compacted(v.sessionLines + [line.value]))
    else
      v
  }

  /** `delete_selected_session`: nothing happens on an empty list. Otherwise
      a finished selected session first loses its raw line in the file, then
      the selected session is removed from memory. An index past the end of
      either panics with `Vec::remove`'s message. */
  function DeleteSelectedSession(v: AppView): (r: Run)
    ensures v.sessions == [] ==> r == Run(Done, v)
    ensures r.outcome.Done? && v.sessions != [] ==>
              var i := v.selectedSessionIndex;
              i < |v.sessions|
              && r.app.sessions == RemovedAt(v.sessions, i)
              && (IsRunning(v.sessions[i]) ==> r.app.sessionLines == v.sessionLines)
              && (!IsRunning(v.sessions[i]) ==> i < |v.sessionLines| && r.app.sessionLines == RemovedAt(v.sessionLines, i))
              && r.app == v.(sessions := r.app.sessions, sessionLines := r.app.sessionLines)
    ensures r.outcome.Panicked? ==> v.selectedSessionIndex >= |v.sessionLines| || v.selectedSessionIndex >= |v.sessions|
    ensures v.sessions != [] ==>
              (r.outcome.Done? <==> v.selectedSessionIndex < |v.sessions|
                                    && (IsRunning(v.sessions[v.selectedSessionIndex]) || v.selectedSessionIndex < |v.sessionLines|))
    ensures r.outcome.Panicked? ==> r.app.sessionLines == v.sessionLines
  {
    if v.sessions == [] then Run(Done, v)
    else
      var i := v.selectedSessionIndex;
      var afterFile :=
        if i < |v.sessions| && !IsRunning(v.sessions[i]) then
          if i < |v.sessionLines| then Run(Done, v.(sessionLines := RemovedAt(v.sessionLines, i)))
          else Run(Panicked(RemovalPanic(i, |v.sessionLines|)), v)
        else Run(Done, v);
      if afterFile.outcome.Panicked? then afterFile
      else if i < |v.sessions| then Run(Done, afterFile.app.(sessions := RemovedAt(v.sessions, i)))
      else Run(Panicked(RemovalPanic(i, |v.sessions|)), afterFile.app)
  }

  /** `start_new_session_based_on_selected`: a finished selected session is
      started again: its description and tag are loaded into the new-session
      input and `try_start_new_session` runs. A running selected session, or
      no selection, changes nothing. Whether the last session is still
      running is not looked at. */
  function StartNewSessionBasedOnSelected(v: AppView, now: Timestamp): (r: Run)
    ensures v.selectedSessionIndex >= |v.sessions| || IsRunning(v.sessions[v.selectedSessionIndex]) ==> r == Run(Done, v)
    ensures r.outcome.Panicked? ==> r.app == v && v.sessions[v.selectedSessionIndex].tag !in v.tags
    ensures v.selectedSessionIndex < |v.sessions| && !IsRunning(v.sessions[v.selectedSessionIndex]) ==>
              (r.outcome.Panicked? <==> v.sessions[v.selectedSessionIndex].tag !in v.tags)
    ensures r.app == v.(sessions := r.app.sessions, descriptionBuffer := r.app.descriptionBuffer,
                        selectedTagIndex := r.app.selectedTagIndex)
    ensures r.outcome.Done? && |r.app.sessions| != |v.sessions| ==>
              var s := v.sessions[v.selectedSessionIndex];
              r.app.sessions == v.sessions + [Session(Trim(s.description), s.tag, now, None)]
    ensures r.outcome.Done? && |r.app.sessions| == |v.sessions| ==> r.app.sessions == v.sessions
    ensures v.selectedSessionIndex < |v.sessions| && !IsRunning(v.sessions[v.selectedSessionIndex])
            && v.sessions[v.selectedSessionIndex].tag in v.tags ==>
              (|r.app.sessions| == |v.sessions| + 1 <==> !AllWhitespace(v.sessions[v.selectedSessionIndex].description))
  {
    if v.selectedSessionIndex < |v.sessions| then
      var s := v.sessions[v.selectedSessionIndex];
      if IsRunning(s) then Run(Done, v)
      else
        match IndexOfTag(v.tags, s.tag)
        case Abort(m) => Run(Panicked(m), v)
        case Ok(index) =>
          Run(Done, TryStartNewSession(v.(descriptionBuffer := s.description, selectedTagIndex := index), now))
    else
      Run(Done, v)
  }

  /** `session_buffer_has_pending_changes`: the edit buffer differs from the
      selected session. */
  function SessionBufferHasPendingChanges(v: AppView): (r: bool)
    ensures r <==> v.selectedSessionIndex < |v.sessions| && v.sessionEditBuffer.Some?
                   && v.sessionEditBuffer.value != v.sessions[v.selectedSessionIndex]
  {
    if v.selectedSessionIndex < |v.sessions| then
      match v.sessionEditBuffer
      case Some(edited) => !SessionEq(v.sessions[v.selectedSessionIndex], edited)
      case None => false
    else
      false
  }

  /** `apply_changes_to_session`: the buffer replaces the selected session;
      when the result is finished the whole sessions file is rewritten, which
      panics if any session is still running. */
  function ApplyChangesToSession(v: AppView): (r: Run)
    ensures !(v.selectedSessionIndex < |v.sessions| && v.sessionEditBuffer.Some?) ==> r == Run(Done, v)
    ensures v.selectedSessionIndex < |v.sessions| && v.sessionEditBuffer.Some? ==>
              r.app.sessions == v.sessions[v.selectedSessionIndex := v.sessionEditBuffer.value]
              && (IsRunning(v.sessionEditBuffer.value) ==> r == Run(Done, v.(sessions := r.app.sessions)))
              && (!IsRunning(v.sessionEditBuffer.value) ==>
                    (r.outcome.Done? <==> AllFinished(r.app.sessions))
                    && (r.outcome.Done? ==> r.app.sessionLines == DbLines(r.app.sessions, ValueSeparator)))
    ensures r.app == v.(sessions := r.app.sessions, sessionLines := r.app.sessionLines)
    ensures r.outcome.Panicked? ==> r.app.sessionLines == ExportAll(r.app.sessions, ValueSeparator).lines
  {
    if v.selectedSessionIndex < |v.sessions| && v.sessionEditBuffer.Some? then
      var sessions := v.sessions[v.selectedSessionIndex := v.sessionEditBuffer.value];
      var v' := v.(sessions := sessions);
      if !IsRunning(v.sessionEditBuffer.value) then
        var w := ExportAll(sessions, ValueSeparator);
        Run(w.outcome, v'.(sessionLines := w.lines))
      else
        Run(Done, v')
    else
      Run(Done, v)
  }

  /** `store_modified_field_to_session_buffer`: the field under the cursor is
      applied to the edit buffer with `set_field`. */
  function StoreModifiedField(v: AppView): (r: AppView)
    ensures v.sessionEditBuffer.None? ==> r == v
    ensures v.sessionEditBuffer.Some? ==>
              r == v.(sessionEditBuffer := Some(SetField(v.sessionEditBuffer.value, v.selectedSessionField)))
    ensures (v.sessionEditBuffer.Some? && Carries(v.selectedSessionField, v.sessionEditBuffer.value)
             && !v.selectedSessionField.Description? && !v.selectedSessionField.Tag?) ==> r == v
  {
    match v.sessionEditBuffer
    case None => v
    case Some(b) => v.(sessionEditBuffer := Some(SetField(b, v.selectedSessionField)))
  }

  /** `copy_selected_session_to_buffer`: the selected session is copied into
      the edit buffer, the cursor goes to its date, and the tag cursor to its
      tag, which panics if the tag is not known. */
  function CopySelectedSessionToBuffer(v: AppView): (r: Run)
    ensures v.selectedSessionIndex >= |v.sessions| ==> r == Run(Done, v)
    ensures v.selectedSessionIndex < |v.sessions| ==>
              var s := v.sessions[v.selectedSessionIndex];
              r.app.sessionEditBuffer == Some(s) && r.app.selectedSessionField == SessionField.Date(s.start)
              && (r.outcome.Done? <==> s.tag in v.tags)
              && (r.outcome.Done? ==> r.app.tempTagIndex < |v.tags| && v.tags[r.app.tempTagIndex] == s.tag)
              && SameData(r.app, v) && r.app.state == v.state
    ensures r.app == v.(sessionEditBuffer := r.app.sessionEditBuffer, selectedSessionField := r.app.selectedSessionField,
                        tempTagIndex := r.app.tempTagIndex)
  {
    if v.selectedSessionIndex < |v.sessions| then
      var s := v.sessions[v.selectedSessionIndex];
      var v' := v.(sessionEditBuffer := Some(Clone(s)), selectedSessionField := SessionField.Date(s.start));
      match IndexOfTag(v.tags, s.tag)
      case Abort(m) => Run(Panicked(m), v')
      case Ok(index) => Run(Done, v'.(tempTagIndex := index))
    else
      Run(Done, v)
  }
}

/** The application manager (`AppManager`) as an object whose methods update
    its fields in place and write through its database handler. `Snapshot`
    reads the fields and both files as an `AppModel.AppView`, and every
    method is proved to have on that view the effect the function of the same
    name in `AppModel` describes. */
module Manager {
  import opened Results
  import opened Text
  import opened Time
  import opened AppState
  import opened Sessions
  import opened Database
  import opened AppModel

  class AppManager {
    const database: DatabaseHandler
    var running: bool
    var tags: seq<string>
    var tempTagIndex: nat
    var selectedSessionIndex: nat
    var selectedSessionField: SessionField
    var selectedDatetimeSegment: nat
    var selectedTagIndex: nat
    var sessions: seq<Session>
    var state: CommandState
    var descriptionBuffer: string
    var tagBuffer: string
    var sessionEditBuffer: Option<Session>

    /** The fields together with the current contents of the two files. */
    function Snapshot(): AppView
      reads this, database
    {
      AppView(running, tags, tempTagIndex, selectedSessionIndex, selectedSessionField,
              selectedDatetimeSegment, selectedTagIndex, sessions, state, descriptionBuffer,
              tagBuffer, sessionEditBuffer, database.sessionLines, database.tagLines)
    }

    /** The manager `new` builds before it reads the files. */
    constructor Blank(database: DatabaseHandler)
      ensures this.database == database
      ensures Snapshot() == Fresh(database.sessionLines, database.tagLines)
    {
      this.database := database;
      running := true;
      tags := [];
      tempTagIndex := 0;
      selectedSessionIndex := 0;
      selectedSessionField := NoField;
      selectedDatetimeSegment := 0;
      selectedTagIndex := 0;
      sessions := [];
      state := Idle;
      descriptionBuffer := [];
      tagBuffer := [];
      sessionEditBuffer := None;
    }

    /** `new`: a blank manager that then loads the sessions and, when there
        are any, the tags, and selects the newest session's tag. */
    static method New(database: DatabaseHandler) returns (m: AppManager, outcome: Outcome)
      ensures fresh(m) && m.database == database
      ensures Run(outcome, m.Snapshot()) == Initial(database.sessionLines, database.tagLines)
    {
      m := new AppManager.Blank(database);
      var loaded := database.ImportSessions(ValueSeparator);
      match loaded
      case Abort(message) =>
        return m, Panicked(message);
      case Ok(None) =>
        return m, Done;
      case Ok(Some(sessions)) =>
        m.sessions := sessions;
        var tags := database.ImportTags();
        m.tags := tags.value;
        var index := m.GetIndexOfTag(sessions[|sessions| - 1].tag);
        if index.Abort? {
          return m, Panicked(index.message);
        }
        m.SetSelectedTagIndex(index.value);
        outcome := Done;
    }

    /** `increment_selected_session_field`. */
    method IncrementSelectedSessionField()
      modifies this
      ensures Snapshot() == old(Snapshot()).(selectedSessionField := IncrementField(old(selectedSessionField), sessionEditBuffer))
    {
      selectedSessionField := IncrementField(selectedSessionField, sessionEditBuffer);
    }

    /** `decrement_selected_session_field`. */
    method DecrementSelectedSessionField()
      modifies this
      ensures Snapshot() == old(Snapshot()).(selectedSessionField := DecrementField(old(selectedSessionField), sessionEditBuffer))
    {
      selectedSessionField := DecrementField(selectedSessionField, sessionEditBuffer);
    }

    /** `get_selected_session_field_index`. */
    method GetSelectedSessionFieldIndex() returns (i: nat)
      ensures i == FieldIndex(selectedSessionField)
    {
      match selectedSessionField
      case NoField => i := 0;
      case Date(_) => i := 0;
      case Description(_) => i := 1;
      case Tag(_) => i := 2;
      case Start(_) => i := 3;
      case End(_) => i := 4;
    }

    /** `get_index_of_tag`: a scan for the first tag equal to `tag`. */
    method GetIndexOfTag(tag: string) returns (r: Result<nat>)
      ensures r == IndexOfTag(tags, tag)
    {
      var i := 0;
      while i < |tags|
        invariant 0 <= i <= |tags|
        invariant forall j :: 0 <= j < i ==> tags[j] != tag
      {
        if tags[i] == tag {
          return Ok(i);
        }
        i := i + 1;
      }
      r := Abort("Failed to retrieve tag index.");
    }

    /** `try_start_new_session`. */
    method TryStartNewSession(now: Timestamp)
      modifies this
      ensures Snapshot() == AppModel.TryStartNewSession(old(Snapshot()), now)
    {
      descriptionBuffer := Trim(descriptionBuffer);
      if selectedTagIndex < |tags| && descriptionBuffer != [] {
        sessions := sessions + [Session(descriptionBuffer, tags[selectedTagIndex], now, None)];
        descriptionBuffer := [];
      }
    }

    /** `tags.iter().any(..)`: a scan that stops at the first tag equal to
        `tag`. */
    method HasTag(tag: string) returns (b: bool)
      ensures b <==> tag in tags
    {
      var i := 0;
      while i < |tags|
        invariant 0 <= i <= |tags|
        invariant forall j :: 0 <= j < i ==> tags[j] != tag
      {
        if tags[i] == tag {
          return true;
        }
        i := i + 1;
      }
      b := false;
    }

    /** `try_store_tag`. */
    method TryStoreTag()
      modifies this, database
      ensures Snapshot() == AppModel.TryStoreTag(old(Snapshot()))
    {
      ghost var v := Snapshot();
      tagBuffer := Trim(tagBuffer);
      var known := HasTag(tagBuffer);
      if tagBuffer == [] || known {
        return;
      }
      TryStoreTagStored(v);
      tags := tags + [tagBuffer];
      database.ExportTag(tagBuffer);
      SetSelectedTagIndex(|tags| - 1);
      tagBuffer := [];
    }

    /** `set_selected_tag_index`. */
    method SetSelectedTagIndex(index: nat)
      modifies this
      ensures Snapshot() == old(Snapshot()).(selectedTagIndex := index)
    {
      selectedTagIndex := index;
    }

    /** `get_selected_tag_index`. */
    method GetSelectedTagIndex() returns (index: nat)
      ensures index == selectedTagIndex
    {
      index := selectedTagIndex;
    }

    /** `is_last_session_still_running`. */
    method IsLastSessionStillRunning() returns (b: bool)
      ensures b == AppModel.IsLastSessionStillRunning(sessions)
    {
      if sessions == [] {
        return false;
      }
      b := IsRunning(sessions[|sessions| - 1]);
    }

    /** `end_running_session`: the newest session, if it runs, gets `now` as
        its end and its line is appended to the sessions file. */
    method EndRunningSession(now: Timestamp)
      modifies this, database
      ensures Snapshot() == AppModel.EndRunningSession(old(Snapshot()), now)
    {
      ghost var v := Snapshot();
      if sessions != [] {
        var n := |sessions|;
        if IsRunning(sessions[n - 1]) {
          var ended := sessions[n - 1].(end := Some(now));
          sessions := sessions[n - 1 := ended];
          var line := ConstructDbString(ended, ValueSeparator);
          database.ExportSession(line.value);
          AppendedLine(v.sessionLines, line.value);
          ghost var expected := AppModel.EndRunningSession(v, now);
          assert expected.sessions == sessions;
          assert expected.sessionLines == database.sessionLines;
        }
      }
    }

    /** `delete_selected_session`. */
    method DeleteSelectedSession() returns (outcome: Outcome)
      modifies this, database
      ensures Run(outcome, Snapshot()) == AppModel.DeleteSelectedSession(old(Snapshot()))
    {
      if sessions == [] {
        return Done;
      }
      if selectedSessionIndex < |sessions| && !IsRunning(sessions[selectedSessionIndex]) {
        outcome := database.DeleteSession(selectedSessionIndex);
        if outcome.Panicked? {
          return;
        }
      }
      if selectedSessionIndex >= |sessions| {
        return Panicked(RemovalPanic(selectedSessionIndex, |sessions|));
      }
      sessions := RemovedAt(sessions, selectedSessionIndex);
      outcome := Done;
    }

    /** `start_new_session_based_on_selected`. */
    method StartNewSessionBasedOnSelected(now: Timestamp) returns (outcome: Outcome)
      modifies this
      ensures Run(outcome, Snapshot()) == AppModel.StartNewSessionBasedOnSelected(old(Snapshot()), now)
    {
      if selectedSessionIndex < |sessions| {
        var session := sessions[selectedSessionIndex];
        if IsRunning(session) {
          return Done;
        }
        var index := GetIndexOfTag(session.tag);
        if index.Abort? {
          return Panicked(index.message);
        }
        descriptionBuffer := session.description;
        SetSelectedTagIndex(index.value);
        TryStartNewSession(now);
      }
      outcome := Done;
    }

    /** `session_buffer_has_pending_changes`. */
    method SessionBufferHasPendingChanges() returns (b: bool)
      ensures b == AppModel.SessionBufferHasPendingChanges(Snapshot())
    {
      if selectedSessionIndex < |sessions| {
        match sessionEditBuffer
        case Some(edited) =>
          b := !SessionEq(sessions[selectedSessionIndex], edited);
        case None =>
          b := false;
      } else {
        b := false;
      }
    }

    /** `apply_changes_to_session`: the buffer replaces the selected session,
        and when that one is finished the sessions file is rewritten. */
    method ApplyChangesToSession() returns (outcome: Outcome)
      modifies this, database
      ensures Run(outcome, Snapshot()) == AppModel.ApplyChangesToSession(old(Snapshot()))
    {
      if selectedSessionIndex < |sessions| && sessionEditBuffer.Some? {
        var edited := sessionEditBuffer.value;
        sessions := sessions[selectedSessionIndex := edited];
        if !IsRunning(edited) {
          outcome := database.ExportAllSessions(sessions, ValueSeparator);
          return;
        }
      }
      outcome := Done;
    }

    /** `store_modified_field_to_session_buffer`. */
    method StoreModifiedFieldToSessionBuffer()
      modifies this
      ensures Snapshot() == AppModel.StoreModifiedField(old(Snapshot()))
    {
      if sessionEditBuffer.Some? {
        sessionEditBuffer := Some(SetField(sessionEditBuffer.value, selectedSessionField));
      }
    }

    /** `copy_selected_session_to_buffer`. */
    method CopySelectedSessionToBuffer() returns (outcome: Outcome)
      modifies this
      ensures Run(outcome, Snapshot()) == AppModel.CopySelectedSessionToBuffer(old(Snapshot()))
    {
      if selectedSessionIndex < |sessions| {
        var session := sessions[selectedSessionIndex];
        sessionEditBuffer := Some(Clone(session));
        selectedSessionField := SessionField.Date(session.start);
        var index := GetIndexOfTag(session.tag);
        if index.Abort? {
          return Panicked(index.message);
        }
        tempTagIndex := index.value;
      }
      outcome := Done;
    }

    /** `clear_session_edit_buffer`. */
    method ClearSessionEditBuffer()
      modifies this
      ensures Snapshot() == old(Snapshot()).(sessionEditBuffer := None)
    {
      sessionEditBuffer := None;
    }
  }
}

/** The invariant the application keeps between key events, and what each
    operation of the application manager does to it. */
module Invariants {
  import opened Results
  import opened Text
  import opened Time
  import opened AppState
  import opened Sessions
  import opened Database
  import opened AppModel

  /** At most one session runs, and it is the newest. */
  predicate RunningOnlyLast(sessions: seq<Session>)
  {
    forall i :: 0 <= i < |sessions| - 1 ==> !IsRunning(sessions[i])
  }

  /** Nothing is persisted while it runs: at most the newest session runs,
      and the sessions file holds exactly the lines of the others, in order. */
  predicate SessionsInv(sessions: seq<Session>, lines: seq<string>)
  {
    RunningOnlyLast(sessions) && AllFinished(Settled(sessions)) && WrittenAs(lines, Settled(sessions))
  }

  /** Line `i` of the file is the line of session `i`. */
  predicate WrittenAs(lines: seq<string>, sessions: seq<Session>)
    requires AllFinished(sessions)
  {
    |lines| == |sessions| && forall i {:trigger lines[i]} :: 0 <= i < |lines| ==> lines[i] == DbLine(sessions[i], ValueSeparator)
  }

  /** The file holds the lines of the sessions exactly when it is their
      serialisation. */
  lemma WrittenAsDbLines(lines: seq<string>, sessions: seq<Session>)
    requires AllFinished(sessions)
    ensures WrittenAs(lines, sessions) <==> lines == DbLines(sessions, ValueSeparator)
  {
  }

  /** A tag cursor points at a tag, or is 0 while there are none. */
  predicate TagIndexOk(i: nat, tags: seq<string>)
  {
    i < |tags| || (tags == [] && i == 0)
  }

  /** The facts about the sessions, the tags and the files. */
  predicate DataInv(v: AppView)
  {
    SessionsInv(v.sessions, v.sessionLines) && NoDuplicates(v.tags)
    && TagIndexOk(v.selectedTagIndex, v.tags) && TagIndexOk(v.tempTagIndex, v.tags)
  }

  /** The states in which a session is being edited field by field. */
  predicate InFieldEdit(state: CommandState)
  {
    state == Modify(Edit(EditFields(SessionFieldEditState.Browse)))
    || state == Modify(Edit(EditFields(Editing)))
    || state == Modify(Edit(Confirm))
  }

  /** The date, start and end under the cursor are the buffer's own: they
      cannot be edited. */
  predicate TimesCarried(field: SessionField, b: Session)
  {
    (field.Date? ==> field.date == b.start)
    && (field.Start? ==> field.start == b.start)
    && (field.End? ==> field.end == b.end)
  }

  /** While a session is edited field by field, the buffer holds it with its
      start and end untouched and the tag cursor is on a tag when the field
      is the tag; otherwise there is no buffer and no cursor. */
  predicate EditInv(v: AppView)
  {
    if InFieldEdit(v.state) then
      v.sessionEditBuffer.Some? && v.selectedSessionIndex < |v.sessions|
      && v.sessionEditBuffer.value.start == v.sessions[v.selectedSessionIndex].start
      && v.sessionEditBuffer.value.end == v.sessions[v.selectedSessionIndex].end
      && TimesCarried(v.selectedSessionField, v.sessionEditBuffer.value)
      && (v.selectedSessionField.Tag? ==> v.tempTagIndex < |v.tags|)
    else
      v.sessionEditBuffer.None? && v.selectedSessionField.NoField?
  }

  /** The invariant of the application between two key events. */
  predicate Inv(v: AppView)
  {
    DataInv(v) && (v.state.Modify? ==> v.selectedSessionIndex < |v.sessions|) && EditInv(v)
  }

  /** A step that leaves the sessions, the tags, both files and the
      selected tag alone keeps the data invariant as long as the tag cursor
      stays on a tag. */
  lemma DataFrame(v: AppView, w: AppView)
    requires DataInv(v)
    ensures (w.sessions == v.sessions && w.sessionLines == v.sessionLines && w.tags == v.tags
             && w.selectedTagIndex == v.selectedTagIndex && TagIndexOk(w.tempTagIndex, w.tags)) ==> DataInv(w)
  {
  }

  /** With only the last session possibly running, all other sessions are
      settled; with no running session, all of them are. */
  lemma SettledOfRunningOnlyLast(sessions: seq<Session>)
    requires RunningOnlyLast(sessions)
    ensures AllFinished(Settled(sessions))
    ensures !IsLastSessionStillRunning(sessions) ==> Settled(sessions) == sessions && AllFinished(sessions)
  {
  }

  /** Removing one finished session removes its line. */
  lemma {:induction false} DbLinesRemovedAt(sessions: seq<Session>, i: nat)
    requires AllFinished(sessions) && i < |sessions|
    ensures AllFinished(RemovedAt(sessions, i))
    ensures DbLines(RemovedAt(sessions, i), ValueSeparator) == RemovedAt(DbLines(sessions, ValueSeparator), i)
  {
    var r := RemovedAt(sessions, i);
    assert AllFinished(r) by {
      forall j | 0 <= j < |r| ensures !IsRunning(r[j]) {
        if j >= i {
          assert r[j] == sessions[j + 1];
        }
      }
    }
  }

  /** The invariant of a freshly loaded application: the sessions file was
      written by the application and read back whole, no session runs, and
      the state is the list view with no edit in progress. */
  lemma LoadedFileInv(v: AppView)
    requires AllFinished(v.sessions) && v.sessionLines == DbLines(v.sessions, ValueSeparator)
    requires NoDuplicates(v.tags) && TagIndexOk(v.selectedTagIndex, v.tags) && v.tempTagIndex == 0
    requires v.state == Idle && v.sessionEditBuffer.None? && v.selectedSessionField.NoField?
    ensures Inv(v)
  {
  }

  /** Starting on a sessions file the application wrote: when every session
      ended on the day it started and the tags file holds distinct tags,
      including the newest session's, the sessions are read back exactly and
      the invariant holds from the first key event on. Distinct tags in the
      file are a hypothesis here; the application does not keep the file so
      (see `Properties.StoredTagDuplicatedInFile`). */
  lemma InitialInv(sessions: seq<Session>, tagLines: seq<string>)
    requires Restorable(sessions, ValueSeparator)
    requires NoDuplicates(NonEmptyLines(tagLines))
    requires sessions != [] ==> sessions[|sessions| - 1].tag in NonEmptyLines(tagLines)
    ensures AllFinished(sessions)
    ensures var r := Initial(DbLines(sessions, ValueSeparator), tagLines);
            r.outcome.Done? && r.app.sessions == sessions && Inv(r.app)
  {
    var lines := DbLines(sessions, ValueSeparator);
    ValueSeparatorIsSafe();
    NonEmptyLinesOfClean(lines);
    ParseDbLines(sessions, ValueSeparator);
    var r := Initial(lines, tagLines);
    LoadedFileInv(r.app);
  }

  /** `end_running_session` keeps the data invariant, and afterwards no
      session runs. */
  lemma EndRunningSessionInv(v: AppView, now: Timestamp)
    requires DataInv(v)
    ensures DataInv(EndRunningSession(v, now))
    ensures AllFinished(EndRunningSession(v, now).sessions)
  {
    var r := EndRunningSession(v, now);
    if IsLastSessionStillRunning(v.sessions) {
      EndedKeepsDataInv(v, r, now);
    } else {
      SettledOfRunningOnlyLast(v.sessions);
    }
  }

  /** Ending the running newest session and appending its line keeps the
      data invariant and leaves every session finished. */
  lemma EndedKeepsDataInv(v: AppView, w: AppView, now: Timestamp)
    requires DataInv(v) && IsLastSessionStillRunning(v.sessions)
    requires var n := |v.sessions|;
             var ended := v.sessions[n - 1].(end := Some(now));
             w == v.(sessions := v.sessions[n - 1 := ended],
                     sessionLines := NonEmptyLines(v.sessionLines) + [DbLine(ended, ValueSeparator)])
    ensures DataInv(w) && AllFinished(w.sessions)
  {
    var n := |v.sessions|;
    EndedSessionsInv(v.sessions, v.sessionLines, v.sessions[n - 1].(end := Some(now)));
  }

  /** The sessions half of `EndedKeepsDataInv`: replacing the running newest
      session by a finished one and appending its line. */
  lemma EndedSessionsInv(sessions: seq<Session>, lines: seq<string>, ended: Session)
    requires SessionsInv(sessions, lines) && IsLastSessionStillRunning(sessions) && !IsRunning(ended)
    ensures var after := sessions[|sessions| - 1 := ended];
            AllFinished(after) && SessionsInv(after, NonEmptyLines(lines) + [DbLine(ended, ValueSeparator)])
  {
    var n := |sessions|;
    var after := sessions[n - 1 := ended];
    SettledOfRunningOnlyLast(sessions);
    assert after == sessions[..n - 1] + [ended];
    NonEmptyLinesOfClean(lines);
    DbLinesSnoc(sessions[..n - 1], ended, ValueSeparator);
    WrittenAsDbLines(lines, sessions[..n - 1]);
    WrittenAsDbLines(NonEmptyLines(lines) + [DbLine(ended, ValueSeparator)], after);
    assert Settled(after) == after;
  }

  /** `try_start_new_session` keeps the data invariant when no session runs. */
  lemma TryStartNewSessionInv(v: AppView, now: Timestamp)
    requires DataInv(v) && !IsLastSessionStillRunning(v.sessions)
    ensures DataInv(TryStartNewSession(v, now))
  {
    var r := TryStartNewSession(v, now);
    SettledOfRunningOnlyLast(v.sessions);
    if |r.sessions| == |v.sessions| + 1 {
      assert Settled(r.sessions) == v.sessions;
    }
  }

  /** `try_store_tag` keeps the data invariant. */
  lemma TryStoreTagInv(v: AppView)
    requires DataInv(v)
    ensures DataInv(TryStoreTag(v))
  {
  }

  /** Removing a session keeps only the last one possibly running. */
  lemma RemovedAtRunningOnlyLast(sessions: seq<Session>, i: nat)
    requires RunningOnlyLast(sessions) && i < |sessions|
    ensures RunningOnlyLast(RemovedAt(sessions, i))
  {
    var after := RemovedAt(sessions, i);
    forall j | 0 <= j < |after| - 1 ensures !IsRunning(after[j]) {
      if j >= i {
        assert after[j] == sessions[j + 1];
      }
    }
  }

  /** Removing a finished session removes its line from the settled lines. */
  lemma RemovedFinishedSettled(sessions: seq<Session>, i: nat)
    requires RunningOnlyLast(sessions) && i < |sessions| && !IsRunning(sessions[i])
    ensures i < |Settled(sessions)|
    ensures AllFinished(Settled(RemovedAt(sessions, i)))
    ensures DbLines(Settled(RemovedAt(sessions, i)), ValueSeparator)
            == RemovedAt(DbLines(Settled(sessions), ValueSeparator), i)
  {
    var after := RemovedAt(sessions, i);
    var settled := Settled(sessions);
    SettledOfRunningOnlyLast(sessions);
    DbLinesRemovedAt(settled, i);
    if IsLastSessionStillRunning(sessions) {
      assert after[|after| - 1] == sessions[|sessions| - 1];
      assert Settled(after) == RemovedAt(settled, i);
    } else {
      assert Settled(after) == after;
    }
  }

  /** Removing the running session leaves the settled sessions as they were. */
  lemma RemovedRunningSettled(sessions: seq<Session>, i: nat)
    requires RunningOnlyLast(sessions) && i < |sessions| && IsRunning(sessions[i])
    ensures Settled(RemovedAt(sessions, i)) == Settled(sessions)
  {
    var n := |sessions|;
    assert i == n - 1;
    assert RemovedAt(sessions, i) == sessions[..n - 1];
    RemovedAtRunningOnlyLast(sessions, i);
    SettledOfRunningOnlyLast(sessions[..n - 1]);
  }

  /** `delete_selected_session` keeps the data invariant when it completes. */
  lemma DeleteSelectedSessionInv(v: AppView)
    requires DataInv(v)
    ensures DeleteSelectedSession(v).outcome.Done? ==> DataInv(DeleteSelectedSession(v).app)
  {
    var r := DeleteSelectedSession(v);
    if r.outcome.Done? && v.sessions != [] {
      RemovalKeepsDataInv(v, r.app, v.selectedSessionIndex);
    }
  }

  /** Removing session `i`, and its line when it is finished, keeps the data
      invariant. */
  lemma RemovalKeepsDataInv(v: AppView, w: AppView, i: nat)
    requires DataInv(v) && i < |v.sessions|
    requires w.sessions == RemovedAt(v.sessions, i)
    requires IsRunning(v.sessions[i]) ==> w.sessionLines == v.sessionLines
    requires !IsRunning(v.sessions[i]) ==> i < |v.sessionLines| && w.sessionLines == RemovedAt(v.sessionLines, i)
    requires w == v.(sessions := w.sessions, sessionLines := w.sessionLines)
    ensures DataInv(w)
  {
    RemovedAtRunningOnlyLast(v.sessions, i);
    if IsRunning(v.sessions[i]) {
      RemovedRunningSettled(v.sessions, i);
    } else {
      RemovedFinishedSettled(v.sessions, i);
    }
  }

  /** `start_new_session_based_on_selected` keeps the data invariant when no
      session runs. */
  lemma StartNewSessionBasedOnSelectedInv(v: AppView, now: Timestamp)
    requires DataInv(v) && !IsLastSessionStillRunning(v.sessions)
    ensures StartNewSessionBasedOnSelected(v, now).outcome.Done? ==> DataInv(StartNewSessionBasedOnSelected(v, now).app)
  {
    var i := v.selectedSessionIndex;
    if i < |v.sessions| && !IsRunning(v.sessions[i]) {
      match IndexOfTag(v.tags, v.sessions[i].tag)
      case Abort(_) =>
      case Ok(index) =>
        TryStartNewSessionInv(v.(descriptionBuffer := v.sessions[i].description, selectedTagIndex := index), now);
    }
  }

  /** `copy_selected_session_to_buffer` keeps the data invariant. */
  lemma CopySelectedSessionToBufferInv(v: AppView)
    requires DataInv(v)
    ensures DataInv(CopySelectedSessionToBuffer(v).app)
  {
  }

  /** `apply_changes_to_session`, with a buffer that kept the selected
      session's start and end, keeps the data invariant when it completes. */
  lemma ApplyChangesToSessionInv(v: AppView)
    requires DataInv(v) && v.sessionEditBuffer.Some? && v.selectedSessionIndex < |v.sessions|
    requires v.sessionEditBuffer.value.end == v.sessions[v.selectedSessionIndex].end
    ensures ApplyChangesToSession(v).outcome.Done? ==> DataInv(ApplyChangesToSession(v).app)
  {
    var r := ApplyChangesToSession(v);
    var i := v.selectedSessionIndex;
    var n := |v.sessions|;
    var b := v.sessionEditBuffer.value;
    SettledOfRunningOnlyLast(v.sessions);
    if r.outcome.Done? {
      assert RunningOnlyLast(r.app.sessions) by {
        forall j | 0 <= j < n - 1 ensures !IsRunning(r.app.sessions[j]) {
          if j == i {
            assert !IsRunning(v.sessions[j]);
          }
        }
      }
      if IsRunning(b) {
        assert i == n - 1;
        assert Settled(r.app.sessions) == Settled(v.sessions);
      } else {
        assert !IsLastSessionStillRunning(r.app.sessions);
      }
    }
  }

  /** Storing the field under the cursor keeps the buffer's start and end. */
  lemma StoreModifiedFieldKeepsTimes(v: AppView)
    requires v.sessionEditBuffer.Some? && TimesCarried(v.selectedSessionField, v.sessionEditBuffer.value)
    ensures StoreModifiedField(v).sessionEditBuffer.Some?
    ensures StoreModifiedField(v).sessionEditBuffer.value.start == v.sessionEditBuffer.value.start
    ensures StoreModifiedField(v).sessionEditBuffer.value.end == v.sessionEditBuffer.value.end
  {
    SetFieldOwnValues(v.sessionEditBuffer.value);
  }
}

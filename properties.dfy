/** What one key event does: the invariant every step but one keeps, the
    hazards of the transition function, and the behaviour of each state. */
module Properties {
  import opened Results
  import opened Text
  import opened Time
  import opened AppState
  import opened ControlKeys
  import opened Sessions
  import opened Database
  import opened AppModel
  import opened Transitions
  import opened Invariants

  // ---------------------------------------------------------------------
  // Preservation of the invariant, state by state

  lemma StepIdleInv(v: AppView, key: KeyCode)
    requires Inv(v) && v.state == Idle
    ensures StepIdle(v, key).outcome.Done? ==> Inv(StepIdle(v, key).app)
  {
    DataFrame(v, StepIdle(v, key).app);
  }

  lemma ConfirmEndPreviousInv(v: AppView, key: KeyCode, now: Timestamp)
    requires Inv(v) && v.state == CommandState.New(SessionInputState.Description(Yes))
    ensures Inv(StepNew(v, SessionInputState.Description(Yes), key, now).app)
  {
    var r := StepNew(v, SessionInputState.Description(Yes), key, now);
    if key == KeyYes {
      var e := EndRunningSession(v, now);
      EndRunningSessionInv(v, now);
      TryStartNewSessionInv(e, now);
    } else {
      DataFrame(v, r.app);
    }
  }

  lemma DescriptionInputInv(v: AppView, key: KeyCode, now: Timestamp)
    requires Inv(v) && v.state == DescriptionInput
    ensures Inv(StepNew(v, SessionInputState.Description(No), key, now).app)
  {
    var r := StepNew(v, SessionInputState.Description(No), key, now);
    if key == KeyEnter && !IsLastSessionStillRunning(v.sessions) {
      TryStartNewSessionInv(v, now);
    } else {
      DataFrame(v, r.app);
    }
  }

  lemma TagSelectInv(v: AppView, key: KeyCode, now: Timestamp)
    requires Inv(v) && v.state == TagSelect
    ensures Inv(StepNew(v, SessionInputState.Tag(Select), key, now).app)
  {
    var r := StepNew(v, SessionInputState.Tag(Select), key, now);
    if key == KeyEnter {
      assert r.app == v.(selectedTagIndex := v.tempTagIndex, state := DescriptionInput);
    } else {
      DataFrame(v, r.app);
    }
  }

  lemma TagInputInv(v: AppView, key: KeyCode, now: Timestamp)
    requires Inv(v) && v.state == CommandState.New(SessionInputState.Tag(TagInputState.New))
    ensures Inv(StepNew(v, SessionInputState.Tag(TagInputState.New), key, now).app)
  {
    var r := StepNew(v, SessionInputState.Tag(TagInputState.New), key, now);
    if key == KeyEnter {
      TryStoreTagInv(v);
    } else {
      DataFrame(v, r.app);
    }
  }

  lemma StepNewInv(v: AppView, input: SessionInputState, key: KeyCode, now: Timestamp)
    requires Inv(v) && v.state == CommandState.New(input)
    ensures StepNew(v, input, key, now).outcome.Done? ==> Inv(StepNew(v, input, key, now).app)
  {
    match input
    case Description(Yes) => ConfirmEndPreviousInv(v, key, now);
    case Description(No) => DescriptionInputInv(v, key, now);
    case Tag(Select) => TagSelectInv(v, key, now);
    case Tag(New) => TagInputInv(v, key, now);
    case Tag(Delete(_)) =>
  }

  /** Choosing a session to edit loads it into the buffer with the cursor on
      its date and the tag cursor on its tag. */
  lemma EditBrowseInv(v: AppView, key: KeyCode)
    requires Inv(v) && v.state == SessionsBrowse
    ensures StepSessionsBrowse(v, key).outcome.Done? ==> Inv(StepSessionsBrowse(v, key).app)
  {
    var r := StepSessionsBrowse(v, key);
    DataFrame(v, r.app);
    if key == KeyEnter {
      CopySelectedSessionToBufferInv(v);
    }
  }

  /** Moving the cursor to field `f`, which carries the buffer's values. */
  lemma FieldMoveInv(v: AppView, f: SessionField)
    requires Inv(v) && v.state == FieldsBrowse && Carries(f, v.sessionEditBuffer.value)
    ensures SyncTagCursor(v.(selectedSessionField := f)).outcome.Done? ==>
              Inv(SyncTagCursor(v.(selectedSessionField := f)).app)
  {
    var r := SyncTagCursor(v.(selectedSessionField := f));
    DataFrame(v, r.app);
  }

  /** Moving over the fields keeps the buffer and lands the tag cursor on a
      tag whenever the cursor reaches the tag column. */
  lemma FieldsBrowseInv(v: AppView, key: KeyCode)
    requires Inv(v) && v.state == FieldsBrowse
    ensures StepFieldsBrowse(v, key).outcome.Done? ==>
              Inv(StepFieldsBrowse(v, key).app)
  {
    var r := StepFieldsBrowse(v, key);
    if key == KeyLeft {
      FieldMoveInv(v, DecrementField(v.selectedSessionField, v.sessionEditBuffer));
    } else if key == KeyRight {
      FieldMoveInv(v, IncrementField(v.selectedSessionField, v.sessionEditBuffer));
    } else {
      DataFrame(v, r.app);
    }
  }

  /** Editing the field under the cursor: ENTER stores it into the buffer,
      which keeps the start and end because those fields take no input. */
  lemma EditingInv(v: AppView, key: KeyCode)
    requires Inv(v) && v.state == Modify(Edit(EditFields(Editing)))
    ensures StepEditing(v, key).outcome.Done? ==> Inv(StepEditing(v, key).app)
  {
    var w :=
      if key == KeyEscape then v.(state := FieldsBrowse)
      else if key == KeyEnter then StoreModifiedField(v).(state := FieldsBrowse)
      else v;
    assert StepEditing(v, key) == EditFieldInput(w, key);
    assert Inv(w) by {
      DataFrame(v, w);
      if key == KeyEnter {
        StoreModifiedFieldKeepsTimes(v);
      }
    }
    FieldInputInv(w, key);
  }

  /** Typing into a field keeps the cursor on the buffer's own times and the
      tag cursor on a tag. */
  lemma FieldInputInv(v: AppView, key: KeyCode)
    requires Inv(v) && InFieldEdit(v.state)
    ensures EditFieldInput(v, key).outcome.Done? ==> Inv(EditFieldInput(v, key).app)
  {
    var r := EditFieldInput(v, key);
    DataFrame(v, r.app);
    match v.selectedSessionField
    case Description(d) =>
      assert r.app == v.(selectedSessionField := r.app.selectedSessionField);
    case Tag(_) =>
      if r.outcome.Done? && (key == KeyUp || key == KeyDown) {
        assert r.app.tempTagIndex < |v.tags|;
        assert r.app == v.(tempTagIndex := r.app.tempTagIndex, selectedSessionField := r.app.selectedSessionField);
      }
    case _ =>
  }

  lemma EditConfirmInv(v: AppView, key: KeyCode)
    requires Inv(v) && v.state == Modify(Edit(Confirm))
    ensures StepEditConfirm(v, key).outcome.Done? ==> Inv(StepEditConfirm(v, key).app)
  {
    var r := StepEditConfirm(v, key);
    if key == KeyYes {
      ApplyConfirmedInv(v);
    } else {
      DataFrame(v, r.app);
    }
  }

  /** YES to "apply the changes?" keeps the invariant once back at the list. */
  lemma ApplyConfirmedInv(v: AppView)
    requires Inv(v) && v.state == Modify(Edit(Confirm))
    ensures var a := ApplyChangesToSession(v);
            a.outcome.Done? ==> Inv(LeaveEdit(a.app, Idle).app)
  {
    var a := ApplyChangesToSession(v);
    ApplyChangesToSessionInv(v);
    if a.outcome.Done? {
      LeftEditInv(a.app);
    }
  }

  /** Leaving the edit flow for the list keeps the invariant when the data is sound. */
  lemma LeftEditInv(x: AppView)
    requires DataInv(x)
    ensures Inv(LeaveEdit(x, Idle).app)
  {
    DataFrame(x, LeaveEdit(x, Idle).app);
  }

  lemma StepEditInv(v: AppView, edit: SessionEditState, key: KeyCode)
    requires Inv(v) && v.state == Modify(Edit(edit))
    ensures StepEdit(v, edit, key).outcome.Done? ==> Inv(StepEdit(v, edit, key).app)
  {
    match edit
    case Browse => EditBrowseInv(v, key);
    case EditFields(Browse) => FieldsBrowseInv(v, key);
    case EditFields(Editing) => EditingInv(v, key);
    case Confirm => EditConfirmInv(v, key);
  }

  /** A YES/NO confirmation keeps the invariant when the action it confirms
      does, once the state is back at the list. */
  lemma ConfirmedInv(v: AppView, key: KeyCode, action: Run)
    requires Inv(v) && !InFieldEdit(v.state)
    requires key == KeyYes && action.outcome.Done? ==>
               DataInv(action.app) && action.app.sessionEditBuffer.None? && action.app.selectedSessionField.NoField?
    ensures Confirmed(v, key, action).outcome.Done? ==> Inv(Confirmed(v, key, action).app)
  {
    DataFrame(v, v.(state := Idle));
    if key == KeyYes && action.outcome.Done? {
      DataFrame(action.app, action.app.(state := Idle));
    }
  }

  lemma ContinueConfirmInv(v: AppView, key: KeyCode, now: Timestamp)
    requires Inv(v) && v.state == Modify(SessionModifyState.Continue(Yes))
    requires !(key == KeyYes && IsLastSessionStillRunning(v.sessions))
    ensures var r := Confirmed(v, key, StartNewSessionBasedOnSelected(v, now));
            r.outcome.Done? ==> Inv(r.app)
  {
    var a := StartNewSessionBasedOnSelected(v, now);
    if key == KeyYes {
      StartNewSessionBasedOnSelectedInv(v, now);
    }
    ConfirmedInv(v, key, a);
  }

  lemma DeleteConfirmInv(v: AppView, key: KeyCode, now: Timestamp)
    requires Inv(v) && v.state == Modify(SessionModifyState.Delete(Yes))
    ensures var r := Confirmed(v, key, DeleteSelectedSession(v));
            r.outcome.Done? ==> Inv(r.app)
  {
    var a := DeleteSelectedSession(v);
    DeleteSelectedSessionInv(v);
    ConfirmedInv(v, key, a);
  }

  lemma StepModifyInv(v: AppView, mode: SessionModifyState, key: KeyCode, now: Timestamp)
    requires Inv(v) && v.state == Modify(mode)
    requires !(mode == SessionModifyState.Continue(Yes) && key == KeyYes && IsLastSessionStillRunning(v.sessions))
    ensures StepModify(v, mode, key, now).outcome.Done? ==> Inv(StepModify(v, mode, key, now).app)
  {
    match mode
    case Edit(edit) => StepEditInv(v, edit, key);
    case Continue(Yes) => ContinueConfirmInv(v, key, now);
    case Continue(No) => DataFrame(v, StepModify(v, mode, key, now).app);
    case Delete(Yes) => DeleteConfirmInv(v, key, now);
    case Delete(No) => DataFrame(v, StepModify(v, mode, key, now).app);
  }

  lemma StepQuittingInv(v: AppView, key: KeyCode, now: Timestamp)
    requires Inv(v) && v.state == Quitting
    ensures StepQuitting(v, key, now).outcome.Done? ==> Inv(StepQuitting(v, key, now).app)
  {
    var r := StepQuitting(v, key, now);
    if key == KeyYes {
      var e := if IsLastSessionStillRunning(v.sessions) then EndRunningSession(v, now) else v;
      EndRunningSessionInv(v, now);
      assert r.app == e.(running := false);
      DataFrame(e, r.app);
    } else {
      DataFrame(v, r.app);
    }
  }

  lemma StepEndInv(v: AppView, key: KeyCode, now: Timestamp)
    requires Inv(v) && v.state == CommandState.End
    ensures Inv(Confirmed(v, key, Run(Done, EndRunningSession(v, now))).app)
  {
    EndedInv(v, now);
    ConfirmedInv(v, key, Run(Done, EndRunningSession(v, now)));
  }

  /** Ending the running session from a state outside the field editor and
      returning to the list keeps the invariant. */
  lemma EndedInv(v: AppView, now: Timestamp)
    requires Inv(v) && !InFieldEdit(v.state)
    ensures Inv(EndRunningSession(v, now).(state := Idle))
  {
    var e := EndRunningSession(v, now);
    EndRunningSessionInv(v, now);
    DataFrame(e, e.(state := Idle));
  }

  /** Every key event that completes keeps the invariant, except YES on
      continuing a session while the newest session still runs: only
      the selected session is checked there, so a second running session
      can be started (see `ContinueStartsSecondRunningSession`). */
  lemma StepInv(v: AppView, event: Option<KeyCode>, now: Timestamp)
    requires Inv(v)
    requires !(v.state == Modify(SessionModifyState.Continue(Yes)) && event == Some(KeyYes)
               && IsLastSessionStillRunning(v.sessions))
    ensures Step(v, event, now).outcome.Done? ==> Inv(Step(v, event, now).app)
  {
    match event
    case None =>
    case Some(key) =>
      match v.state
      case Idle => StepIdleInv(v, key);
      case New(input) => StepNewInv(v, input, key, now);
      case Modify(mode) => StepModifyInv(v, mode, key, now);
      case End => StepEndInv(v, key, now);
      case Quitting => StepQuittingInv(v, key, now);
  }

  // ---------------------------------------------------------------------
  // Hazards

  /** Continuing a finished session while the newest one still runs starts a
      second running session: afterwards two sessions run and the newest is
      no longer the only one. */
  lemma ContinueStartsSecondRunningSession(v: AppView, now: Timestamp)
    requires Inv(v) && v.state == Modify(SessionModifyState.Continue(Yes))
    requires IsLastSessionStillRunning(v.sessions) && v.selectedSessionIndex < |v.sessions| - 1
    requires v.sessions[v.selectedSessionIndex].tag in v.tags
    requires !AllWhitespace(v.sessions[v.selectedSessionIndex].description)
    ensures Step(v, Some(KeyYes), now).outcome.Done?
    ensures var after := Step(v, Some(KeyYes), now).app.sessions;
            |after| == |v.sessions| + 1 && IsRunning(after[|v.sessions| - 1]) && IsRunning(after[|v.sessions|])
            && !RunningOnlyLast(after)
  {
    var r := StartNewSessionBasedOnSelected(v, now);
    ContinueAppendsSession(v, now);
    assert Step(v, Some(KeyYes), now) == Run(Done, r.app.(state := Idle));
    assert IsRunning(r.app.sessions[|v.sessions| - 1]);
  }

  /** Starting on a sessions file with no sessions leaves the tags file
      unread: no tag is in memory while the tags file keeps its lines. */
  lemma InitialWithoutSessions(tagLines: seq<string>)
    ensures Initial([], tagLines) == Run(Done, Fresh([], tagLines))
    ensures Initial([], tagLines).app.tags == [] && Initial([], tagLines).app.tagLines == tagLines
  {
    assert NonEmptyLines([]) == [];
  }

  /** A new tag is compared with the tags in memory alone. So after a start
      with no sessions (`InitialWithoutSessions`), storing a tag the tags file
      already holds writes it a second time. */
  lemma StoredTagDuplicatedInFile(v: AppView, now: Timestamp)
    requires v.tags == [] && v.state == CommandState.New(SessionInputState.Tag(TagInputState.New))
    requires v.tagBuffer in NonEmptyLines(v.tagLines) && v.tagBuffer != [] && Trim(v.tagBuffer) == v.tagBuffer
    ensures var r := Step(v, Some(KeyEnter), now);
            r.outcome.Done? && r.app.tagLines == NonEmptyLines(v.tagLines) + [v.tagBuffer]
            && !NoDuplicates(NonEmptyLines(r.app.tagLines))
  {
    NewTagEnter(v, now);
    DuplicatedTagLine(v.tagLines, v.tagBuffer);
  }

  /** Appending a line the file already holds leaves it there twice. */
  lemma DuplicatedTagLine(tagLines: seq<string>, t: string)
    requires t in NonEmptyLines(tagLines) && t != []
    ensures !NoDuplicates(NonEmptyLines(NonEmptyLines(tagLines) + [t]))
  {
    var lines := NonEmptyLines(tagLines) + [t];
    NonEmptyLinesAppend(NonEmptyLines(tagLines), [t]);
    NonEmptyLinesIdempotent(tagLines);
    assert NonEmptyLines([t]) == [t] by {
      assert [t][..0] == [];
    }
    var i :| 0 <= i < |NonEmptyLines(tagLines)| && NonEmptyLines(tagLines)[i] == t;
    assert NonEmptyLines(lines)[i] == NonEmptyLines(lines)[|lines| - 1];
  }

  /** A tags file holding a tag twice is loaded as it is, so once a session
      exists the application starts outside the invariant. */
  lemma DuplicateTagsReloaded(sessions: seq<Session>, tagLines: seq<string>)
    requires Restorable(sessions, ValueSeparator) && sessions != []
    requires sessions[|sessions| - 1].tag in NonEmptyLines(tagLines)
    requires !NoDuplicates(NonEmptyLines(tagLines))
    ensures var r := Initial(DbLines(sessions, ValueSeparator), tagLines);
            r.outcome.Done? && r.app.sessions == sessions && !Inv(r.app)
  {
    var lines := DbLines(sessions, ValueSeparator);
    ValueSeparatorIsSafe();
    NonEmptyLinesOfClean(lines);
    ParseDbLines(sessions, ValueSeparator);
    var r := Initial(lines, tagLines);
    assert r.app.tags == NonEmptyLines(tagLines);
  }

  /** Continuing a finished session whose tag is known and whose description
      is not blank appends a running copy of it. */
  lemma ContinueAppendsSession(v: AppView, now: Timestamp)
    requires v.selectedSessionIndex < |v.sessions| && !IsRunning(v.sessions[v.selectedSessionIndex])
    requires v.sessions[v.selectedSessionIndex].tag in v.tags
    requires !AllWhitespace(v.sessions[v.selectedSessionIndex].description)
    ensures var s := v.sessions[v.selectedSessionIndex];
            var r := StartNewSessionBasedOnSelected(v, now);
            r.outcome.Done? && r.app.sessions == v.sessions + [Session(Trim(s.description), s.tag, now, None)]
  {
    var s := v.sessions[v.selectedSessionIndex];
    var d := Trim(s.description);
    assert d != [];
    var r := StartNewSessionBasedOnSelected(v, now);
    match IndexOfTag(v.tags, s.tag)
    case Ok(index) =>
      assert r.app == TryStartNewSession(v.(descriptionBuffer := s.description, selectedTagIndex := index), now);
      assert r.app.sessions == v.sessions + [Session(d, v.tags[index], now, None)];
  }

  /** Confirming an edit of an older finished session while the newest one
      runs rewrites the whole sessions file, which meets the running session
      and panics. */
  lemma EditWhileRunningPanics(v: AppView, now: Timestamp)
    requires Inv(v) && v.state == Modify(Edit(Confirm))
    requires IsLastSessionStillRunning(v.sessions) && v.selectedSessionIndex < |v.sessions| - 1
    ensures Step(v, Some(KeyYes), now).outcome == Panicked("Cannot export ongoing session.")
  {
    var i := v.selectedSessionIndex;
    var n := |v.sessions|;
    var b := v.sessionEditBuffer.value;
    assert !IsRunning(v.sessions[i]) && !IsRunning(b);
    var sessions := v.sessions[i := b];
    assert IsRunning(sessions[n - 1]);
  }

  /** Edit, continue and delete from the list view panic on an empty list. */
  lemma EmptyListPanics(v: AppView, key: KeyCode, now: Timestamp)
    requires v.state == Idle && v.sessions == []
    requires key == KeyEdit || key == KeyContinue || key == KeyDelete
    ensures Step(v, Some(key), now) == Run(Panicked(SubtractOverflow), v)
  {
  }

  // ---------------------------------------------------------------------
  // Behaviour of the states

  /** The list view: NEW opens the description input, QUIT the quit
      confirmation, END the end confirmation only when a session runs;
      edit, continue and delete select the newest session; any other key
      does nothing. */
  lemma IdleKeys(v: AppView, key: KeyCode, now: Timestamp)
    requires v.state == Idle
    ensures key == KeyNew ==> Step(v, Some(key), now) == Run(Done, v.(state := DescriptionInput))
    ensures key == KeyQuit ==> Step(v, Some(key), now) == Run(Done, v.(state := Quitting))
    ensures key == KeyEnd && IsLastSessionStillRunning(v.sessions) ==>
              Step(v, Some(key), now) == Run(Done, v.(state := CommandState.End))
    ensures key == KeyEnd && !IsLastSessionStillRunning(v.sessions) ==> Step(v, Some(key), now) == Run(Done, v)
    ensures (key == KeyEdit || key == KeyContinue || key == KeyDelete) && v.sessions != [] ==>
              var r := Step(v, Some(key), now);
              r.outcome.Done? && r.app == v.(selectedSessionIndex := |v.sessions| - 1, state := r.app.state)
              && (key == KeyEdit ==> r.app.state == SessionsBrowse)
              && (key == KeyContinue ==> r.app.state == Modify(SessionModifyState.Continue(No)))
              && (key == KeyDelete ==> r.app.state == Modify(SessionModifyState.Delete(No)))
    ensures !(key in {KeyNew, KeyQuit, KeyEnd, KeyEdit, KeyContinue, KeyDelete}) ==>
              Step(v, Some(key), now) == Run(Done, v)
  {
  }

  /** The three session lists (edit, continue, delete): UP moves towards the
      newest and DOWN towards the oldest session, never leaving the list,
      and nothing else changes. */
  lemma BrowseStaysInList(v: AppView, key: KeyCode, now: Timestamp)
    requires v.state in {SessionsBrowse, Modify(SessionModifyState.Continue(No)), Modify(SessionModifyState.Delete(No))}
    requires v.selectedSessionIndex < |v.sessions|
    requires key == KeyUp || key == KeyDown
    ensures var r := Step(v, Some(key), now);
            r.outcome.Done? && r.app == v.(selectedSessionIndex := r.app.selectedSessionIndex)
            && r.app.selectedSessionIndex < |v.sessions|
            && (key == KeyUp ==> r.app.selectedSessionIndex == if v.selectedSessionIndex + 1 < |v.sessions|
                                                               then v.selectedSessionIndex + 1 else v.selectedSessionIndex)
            && (key == KeyDown ==> r.app.selectedSessionIndex == if v.selectedSessionIndex > 0
                                                                 then v.selectedSessionIndex - 1 else 0)
  {
  }

  /** ENTER on a description: with a running session it only asks whether to
      end it; otherwise it starts the new session and returns to the list. */
  lemma DescriptionEnter(v: AppView, now: Timestamp)
    requires v.state == DescriptionInput
    ensures IsLastSessionStillRunning(v.sessions) ==>
              Step(v, Some(KeyEnter), now) == Run(Done, v.(state := CommandState.New(SessionInputState.Description(Yes))))
    ensures !IsLastSessionStillRunning(v.sessions) ==>
              Step(v, Some(KeyEnter), now) == Run(Done, TryStartNewSession(v, now).(state := Idle))
  {
  }

  /** Confirming the end of the running session ends it at `now` before the
      new session starts; the new session, if started, is then the only one
      running. */
  lemma ConfirmEndPrevious(v: AppView, now: Timestamp)
    requires Inv(v) && v.state == CommandState.New(SessionInputState.Description(Yes))
    requires IsLastSessionStillRunning(v.sessions)
    ensures var r := Step(v, Some(KeyYes), now);
            var n := |v.sessions|;
            r.outcome.Done? && r.app.state == Idle && |r.app.sessions| >= n
            && r.app.sessions[..n] == v.sessions[n - 1 := v.sessions[n - 1].(end := Some(now))]
            && (|r.app.sessions| > n ==> IsLastSessionStillRunning(r.app.sessions))
            && Inv(r.app)
  {
    var a := TryStartNewSession(EndRunningSession(v, now), now);
    assert Step(v, Some(KeyYes), now) == StepNew(v, SessionInputState.Description(Yes), KeyYes, now);
    assert StepNew(v, SessionInputState.Description(Yes), KeyYes, now) == Run(Done, a.(state := Idle));
    ConfirmEndPreviousInv(v, KeyYes, now);
    EndThenStart(v, now);
  }

  /** Ending the running session and then starting one keeps the ended
      sessions in front, and the started one is the newest. */
  lemma EndThenStart(v: AppView, now: Timestamp)
    requires IsLastSessionStillRunning(v.sessions)
    ensures var a := TryStartNewSession(EndRunningSession(v, now), now);
            var n := |v.sessions|;
            |a.sessions| >= n && a.sessions[..n] == v.sessions[n - 1 := v.sessions[n - 1].(end := Some(now))]
            && (|a.sessions| > n ==> IsLastSessionStillRunning(a.sessions))
  {
    var e := EndRunningSession(v, now);
    var a := TryStartNewSession(e, now);
    assert a.sessions[..|v.sessions|] == e.sessions;
  }

  /** NO and ESC on the question whether to end the running session go back
      to the description and change nothing else. */
  lemma ConfirmEndPreviousCancel(v: AppView, key: KeyCode, now: Timestamp)
    requires v.state == CommandState.New(SessionInputState.Description(Yes))
    requires key == KeyNo || key == KeyEscape
    ensures Step(v, Some(key), now) == Run(Done, v.(state := DescriptionInput))
  {
  }

  /** Choosing a tag: the tag cursor stays on a tag, and ENTER makes it the
      selected tag and returns to the description. */
  lemma TagSelection(v: AppView, key: KeyCode, now: Timestamp)
    requires v.state == TagSelect && TagIndexOk(v.tempTagIndex, v.tags)
    ensures TagIndexOk(Step(v, Some(key), now).app.tempTagIndex, v.tags)
    ensures key == KeyEnter ==>
              Step(v, Some(key), now) == Run(Done, v.(selectedTagIndex := v.tempTagIndex, state := DescriptionInput))
  {
  }

  /** ENTER on a new tag always returns to the description, whether the tag
      was stored or refused. */
  lemma NewTagEnter(v: AppView, now: Timestamp)
    requires v.state == CommandState.New(SessionInputState.Tag(TagInputState.New))
    ensures Step(v, Some(KeyEnter), now) == Run(Done, TryStoreTag(v).(state := DescriptionInput))
  {
  }

  /** ESC over the fields asks for confirmation exactly when the buffer
      differs from the session; otherwise it drops the buffer and goes back
      to the list. No session or file changes. */
  lemma FieldsEscape(v: AppView, now: Timestamp)
    requires v.state == FieldsBrowse
    ensures var r := Step(v, Some(KeyEscape), now);
            r.outcome.Done? && SameData(r.app, v)
            && (r.app.state == Modify(Edit(Confirm)) <==> SessionBufferHasPendingChanges(v))
            && (!SessionBufferHasPendingChanges(v) ==>
                  r.app.state == SessionsBrowse && r.app.sessionEditBuffer.None? && r.app.selectedSessionField.NoField?)
  {
  }

  /** LEFT and RIGHT over the fields move the cursor one column; landing on
      the tag column puts the tag cursor on the buffer's tag. */
  lemma FieldsMove(v: AppView, key: KeyCode, now: Timestamp)
    requires Inv(v) && v.state == FieldsBrowse && (key == KeyLeft || key == KeyRight)
    requires !v.selectedSessionField.NoField?
    ensures var r := Step(v, Some(key), now);
            var i := FieldIndex(v.selectedSessionField);
            SameData(r.app, v) && r.app.state == v.state
            && FieldIndex(r.app.selectedSessionField) == (if key == KeyLeft then (if i > 0 then i - 1 else 0)
                                                          else (if i < 4 then i + 1 else 4))
            && (r.outcome.Done? && r.app.selectedSessionField.Tag? ==>
                  r.app.tempTagIndex < |v.tags| && v.tags[r.app.tempTagIndex] == v.sessionEditBuffer.value.tag)
            && (r.outcome.Panicked? <==> r.app.selectedSessionField.Tag? && v.sessionEditBuffer.value.tag !in v.tags)
  {
  }

  /** Editing a field: ENTER stores it into the buffer with `set_field`, ESC
      leaves the buffer as it is; both return to the fields. The date, start
      and end take no other input. */
  lemma EditingKeys(v: AppView, key: KeyCode, now: Timestamp)
    requires v.state == Modify(Edit(EditFields(Editing)))
    ensures key == KeyEnter ==>
              Step(v, Some(key), now) == Run(Done, StoreModifiedField(v).(state := FieldsBrowse))
    ensures key == KeyEscape ==> Step(v, Some(key), now) == Run(Done, v.(state := FieldsBrowse))
    ensures v.selectedSessionField.Date? || v.selectedSessionField.Start? || v.selectedSessionField.End? ==>
              key != KeyEnter && key != KeyEscape ==> Step(v, Some(key), now) == Run(Done, v)
  {
  }

  /** Typing into the description field; UP and DOWN on the tag field put
      the tag under the tag cursor into the field. */
  lemma EditingInput(v: AppView, key: KeyCode, now: Timestamp)
    requires v.state == Modify(Edit(EditFields(Editing))) && key != KeyEnter && key != KeyEscape
    ensures var r := Step(v, Some(key), now);
            (v.selectedSessionField.Description? && key.Char? ==>
               r == Run(Done, v.(selectedSessionField := SessionField.Description(v.selectedSessionField.description + [key.c]))))
            && (v.selectedSessionField.Tag? && (key == KeyUp || key == KeyDown) && v.tempTagIndex < |v.tags| ==>
                  r.outcome.Done? && r.app.selectedSessionField == SessionField.Tag(v.tags[r.app.tempTagIndex])
                  && r.app == v.(tempTagIndex := r.app.tempTagIndex, selectedSessionField := r.app.selectedSessionField))
  {
  }

  /** NO and ESC in a confirmation change no session, tag or file: they go
      back to the list, except ESC on an edit confirmation, which goes back
      to the fields. */
  lemma CancelChangesNothing(v: AppView, key: KeyCode, now: Timestamp)
    requires key == KeyNo || key == KeyEscape
    requires v.state in {Modify(Edit(Confirm)), Modify(SessionModifyState.Continue(Yes)),
                         Modify(SessionModifyState.Delete(Yes)), CommandState.End, Quitting}
    ensures var r := Step(v, Some(key), now);
            r.outcome.Done? && SameData(r.app, v) && r.app.running == v.running
            && r.app.state == (if v.state == Modify(Edit(Confirm)) && key == KeyEscape then FieldsBrowse else Idle)
  {
  }

  /** YES on the end confirmation ends the running session at `now`. */
  lemma EndYes(v: AppView, now: Timestamp)
    requires v.state == CommandState.End && IsLastSessionStillRunning(v.sessions)
    ensures var r := Step(v, Some(KeyYes), now);
            var n := |v.sessions|;
            r.outcome.Done? && r.app.state == Idle && |r.app.sessions| == n
            && r.app.sessions[..n - 1] == v.sessions[..n - 1]
            && r.app.sessions[n - 1] == v.sessions[n - 1].(end := Some(now))
            && !IsLastSessionStillRunning(r.app.sessions)
  {
  }

  /** YES on the quit confirmation stops the application with no session
      running; with the invariant, every session is then in the file. */
  lemma QuitYes(v: AppView, now: Timestamp)
    requires v.state == Quitting
    ensures var r := Step(v, Some(KeyYes), now);
            r.outcome.Done? && !r.app.running && !IsLastSessionStillRunning(r.app.sessions)
            && |r.app.sessions| == |v.sessions|
    ensures Inv(v) ==> AllFinished(Step(v, Some(KeyYes), now).app.sessions)
                       && Step(v, Some(KeyYes), now).app.sessionLines
                          == DbLines(Step(v, Some(KeyYes), now).app.sessions, ValueSeparator)
  {
    if Inv(v) {
      EndRunningSessionInv(v, now);
      StepInv(v, Some(KeyYes), now);
    }
  }

  /** The tags and the tags file are left as they were. */
  predicate TagsKept(v: AppView, w: AppView)
  {
    w.tags == v.tags && w.tagLines == v.tagLines
  }

  lemma StepNewKeepsTags(v: AppView, input: SessionInputState, key: KeyCode, now: Timestamp)
    requires !(input == SessionInputState.Tag(TagInputState.New) && key == KeyEnter)
    ensures TagsKept(v, StepNew(v, input, key, now).app)
  {
    match input
    case Description(Yes) =>
      if key == KeyYes {
        EndThenStartKeepsTags(v, now);
      }
    case Description(No) =>
      if key == KeyEnter {
        StartKeepsTags(v, now);
      }
    case Tag(Select) =>
    case Tag(New) =>
      assert key != KeyEnter;
    case Tag(Delete(_)) =>
  }

  lemma StartKeepsTags(v: AppView, now: Timestamp)
    ensures TagsKept(v, TryStartNewSession(v, now))
  {
  }

  lemma EndThenStartKeepsTags(v: AppView, now: Timestamp)
    ensures TagsKept(v, TryStartNewSession(EndRunningSession(v, now), now))
  {
    var e := EndRunningSession(v, now);
    assert TagsKept(v, e);
    StartKeepsTags(e, now);
  }

  /** A confirmation keeps the tags when its action does. */
  lemma ConfirmedKeepsTags(v: AppView, key: KeyCode, action: Run)
    requires TagsKept(v, action.app)
    ensures TagsKept(v, Confirmed(v, key, action).app)
  {
  }

  lemma StepEditKeepsTags(v: AppView, edit: SessionEditState, key: KeyCode)
    ensures TagsKept(v, StepEdit(v, edit, key).app)
  {
    match edit
    case Browse => EditBrowseKeepsTags(v, key);
    case EditFields(Browse) => FieldsBrowseKeepsTags(v, key);
    case EditFields(Editing) => EditingKeepsTags(v, key);
    case Confirm => EditConfirmKeepsTags(v, key);
  }

  lemma EditBrowseKeepsTags(v: AppView, key: KeyCode)
    ensures TagsKept(v, StepSessionsBrowse(v, key).app)
  {
    if key == KeyEnter {
      var c := CopySelectedSessionToBuffer(v);
      assert TagsKept(v, c.app);
    }
  }

  lemma FieldsBrowseKeepsTags(v: AppView, key: KeyCode)
    ensures TagsKept(v, StepFieldsBrowse(v, key).app)
  {
    if key == KeyLeft {
      var w := v.(selectedSessionField := DecrementField(v.selectedSessionField, v.sessionEditBuffer));
      assert TagsKept(w, SyncTagCursor(w).app);
    } else if key == KeyRight {
      var w := v.(selectedSessionField := IncrementField(v.selectedSessionField, v.sessionEditBuffer));
      assert TagsKept(w, SyncTagCursor(w).app);
    }
  }

  lemma EditingKeepsTags(v: AppView, key: KeyCode)
    ensures TagsKept(v, StepEditing(v, key).app)
  {
    var w :=
      if key == KeyEscape then v.(state := FieldsBrowse)
      else if key == KeyEnter then StoreModifiedField(v).(state := FieldsBrowse)
      else v;
    assert StepEditing(v, key) == EditFieldInput(w, key);
    assert TagsKept(v, w);
    assert TagsKept(w, EditFieldInput(w, key).app);
  }

  lemma EditConfirmKeepsTags(v: AppView, key: KeyCode)
    ensures TagsKept(v, StepEditConfirm(v, key).app)
  {
    if key == KeyYes {
      var a := ApplyChangesToSession(v);
      assert TagsKept(v, a.app);
    }
  }

  lemma StepModifyKeepsTags(v: AppView, mode: SessionModifyState, key: KeyCode, now: Timestamp)
    ensures TagsKept(v, StepModify(v, mode, key, now).app)
  {
    match mode
    case Edit(edit) => StepEditKeepsTags(v, edit, key);
    case Continue(Yes) =>
      var a := StartNewSessionBasedOnSelected(v, now);
      assert TagsKept(v, a.app);
      ConfirmedKeepsTags(v, key, a);
    case Continue(No) =>
    case Delete(Yes) =>
      var a := DeleteSelectedSession(v);
      assert TagsKept(v, a.app);
      ConfirmedKeepsTags(v, key, a);
    case Delete(No) =>
  }

  /** The tags only grow, one new distinct tag at a time, and only a step
      that stores a tag writes the tags file. */
  lemma TagsOnlyGrow(v: AppView, event: Option<KeyCode>, now: Timestamp)
    ensures var r := Step(v, event, now).app;
            (r.tags == v.tags && r.tagLines == v.tagLines)
            || (r.tags == v.tags + [Trim(v.tagBuffer)] && Trim(v.tagBuffer) !in v.tags && Trim(v.tagBuffer) != []
                && r.tagLines == NonEmptyLines(v.tagLines) + [Trim(v.tagBuffer)])
    ensures NoDuplicates(v.tags) ==> NoDuplicates(Step(v, event, now).app.tags)
  {
    if v.state == CommandState.New(SessionInputState.Tag(TagInputState.New)) && event == Some(KeyEnter) {
      assert Step(v, event, now).app == TryStoreTag(v).(state := DescriptionInput);
    } else {
      StepKeepsTags(v, event, now);
    }
  }

  lemma StepKeepsTags(v: AppView, event: Option<KeyCode>, now: Timestamp)
    requires !(v.state == CommandState.New(SessionInputState.Tag(TagInputState.New)) && event == Some(KeyEnter))
    ensures TagsKept(v, Step(v, event, now).app)
  {
    match event
    case None =>
    case Some(key) =>
      match v.state
      case Idle =>
      case New(input) => StepNewKeepsTags(v, input, key, now);
      case Modify(mode) => StepModifyKeepsTags(v, mode, key, now);
      case End =>
      case Quitting =>
  }
}

/** `update`, the body of the main loop, on the application manager object:
    it reads the current command state, then calls the manager's methods and
    sets its fields as the key requires. Each method here is proved to do to
    the manager exactly what the matching function of `Transitions` does to
    its snapshot, so every property proved of `Step` holds of `Update`. */
module MainLoop {
  import opened Results
  import opened Text
  import opened Time
  import opened AppState
  import opened ControlKeys
  import opened AppModel
  import opened Transitions
  import opened Manager

  /** The list view. */
  method UpdateIdle(app: AppManager, key: KeyCode) returns (outcome: Outcome)
    modifies app
    ensures Run(outcome, app.Snapshot()) == StepIdle(old(app.Snapshot()), key)
  {
    outcome := Done;
    if key == KeyNew {
      app.state := CommandState.New(SessionInputState.Description(No));
    } else if key == KeyEdit || key == KeyContinue || key == KeyDelete {
      if app.sessions == [] {
        return Panicked(SubtractOverflow);
      }
      app.selectedSessionIndex := |app.sessions| - 1;
      if key == KeyEdit {
        app.state := Modify(SessionModifyState.Edit(SessionEditState.Browse));
      } else if key == KeyContinue {
        app.state := Modify(SessionModifyState.Continue(No));
      } else {
        app.state := Modify(SessionModifyState.Delete(No));
      }
    } else if key == KeyEnd {
      var running := app.IsLastSessionStillRunning();
      if running {
        app.state := CommandState.End;
      }
    } else if key == KeyQuit {
      app.state := Quitting;
    }
  }

  /** Typing the description of a new session, or confirming the end of the
      running one. */
  method UpdateDescription(app: AppManager, confirm: ConfirmOpen, key: KeyCode, now: Timestamp) returns (outcome: Outcome)
    modifies app, app.database
    ensures Run(outcome, app.Snapshot()) == StepNew(old(app.Snapshot()), SessionInputState.Description(confirm), key, now)
  {
    outcome := Done;
    match confirm
    case Yes =>
      if key == KeyYes {
        app.EndRunningSession(now);
        app.TryStartNewSession(now);
        app.state := Idle;
      } else if key == KeyNo || key == KeyEscape {
        app.state := DescriptionInput;
      }
    case No =>
      match key
      case Esc =>
        app.state := Idle;
      case Backspace =>
        if app.descriptionBuffer != [] {
          app.descriptionBuffer := app.descriptionBuffer[..|app.descriptionBuffer| - 1];
        }
      case Enter =>
        var running := app.IsLastSessionStillRunning();
        if running {
          app.state := CommandState.New(SessionInputState.Description(Yes));
        } else {
          app.TryStartNewSession(now);
          app.state := Idle;
        }
      case Tab =>
        var index := app.GetSelectedTagIndex();
        app.tempTagIndex := index;
        app.state := TagSelect;
      case Char(c) =>
        app.descriptionBuffer := app.descriptionBuffer + [c];
      case _ =>
  }

  /** Choosing the tag of a new session, or typing a new tag. */
  method UpdateTag(app: AppManager, tagState: TagInputState, key: KeyCode, now: Timestamp) returns (outcome: Outcome)
    modifies app, app.database
    ensures Run(outcome, app.Snapshot()) == StepNew(old(app.Snapshot()), SessionInputState.Tag(tagState), key, now)
  {
    outcome := Done;
    match tagState
    case Select =>
      UpdateTagSelect(app, key, now);
    case New =>
      UpdateTagInput(app, key, now);
    case Delete(_) =>
  }

  /** Moving over the tags and choosing one. */
  method UpdateTagSelect(app: AppManager, key: KeyCode, now: Timestamp)
    modifies app
    ensures Run(Done, app.Snapshot()) == StepNew(old(app.Snapshot()), SessionInputState.Tag(Select), key, now)
  {
    if key == KeyNew {
      app.state := CommandState.New(SessionInputState.Tag(TagInputState.New));
    } else if key == KeyEscape {
      app.state := DescriptionInput;
    } else if key == KeyUp {
      if app.tempTagIndex > 0 {
        app.tempTagIndex := app.tempTagIndex - 1;
      }
    } else if key == KeyDown {
      if app.tempTagIndex + 1 < |app.tags| {
        app.tempTagIndex := app.tempTagIndex + 1;
      }
    } else if key == KeyEnter {
      app.SetSelectedTagIndex(app.tempTagIndex);
      app.state := DescriptionInput;
    }
  }

  /** Typing a new tag; ENTER stores it. */
  method UpdateTagInput(app: AppManager, key: KeyCode, now: Timestamp)
    modifies app, app.database
    ensures Run(Done, app.Snapshot()) == StepNew(old(app.Snapshot()), SessionInputState.Tag(TagInputState.New), key, now)
  {
    match key {
      case Esc =>
        app.state := TagSelect;
      case Backspace =>
        if app.tagBuffer != [] {
          app.tagBuffer := app.tagBuffer[..|app.tagBuffer| - 1];
        }
      case Enter =>
        app.TryStoreTag();
        app.state := DescriptionInput;
      case Char(c) =>
        app.tagBuffer := app.tagBuffer + [c];
      case _ =>
    }
  }

  /** After LEFT or RIGHT over the fields: on the tag column the tag cursor
      goes to the buffer's tag. */
  method PointTagCursorAtBuffer(app: AppManager) returns (outcome: Outcome)
    modifies app
    ensures Run(outcome, app.Snapshot()) == SyncTagCursor(old(app.Snapshot()))
  {
    if app.selectedSessionField.Tag? {
      if app.sessionEditBuffer.None? {
        return Panicked(UnwrapNone);
      }
      var index := app.GetIndexOfTag(app.sessionEditBuffer.value.tag);
      if index.Abort? {
        return Panicked(index.message);
      }
      app.tempTagIndex := index.value;
    }
    outcome := Done;
  }

  /** The key applied to the field under the cursor while it is edited. */
  method TypeIntoField(app: AppManager, key: KeyCode) returns (outcome: Outcome)
    modifies app
    ensures Run(outcome, app.Snapshot()) == EditFieldInput(old(app.Snapshot()), key)
  {
    outcome := Done;
    match app.selectedSessionField
    case Description(d) =>
      match key {
        case Backspace =>
          app.selectedSessionField := SessionField.Description(if d == [] then d else d[..|d| - 1]);
        case Char(c) =>
          app.selectedSessionField := SessionField.Description(d + [c]);
        case _ =>
      }
    case Tag(_) =>
      if key == KeyUp || key == KeyDown {
        if key == KeyUp {
          if app.tempTagIndex > 0 {
            app.tempTagIndex := app.tempTagIndex - 1;
          }
        } else if app.tempTagIndex + 1 < |app.tags| {
          app.tempTagIndex := app.tempTagIndex + 1;
        }
        if app.tempTagIndex >= |app.tags| {
          return Panicked(IndexPanic(|app.tags|, app.tempTagIndex));
        }
        app.selectedSessionField := SessionField.Tag(app.tags[app.tempTagIndex]);
      }
    case _ =>
  }

  /** Choosing the session to edit. */
  method UpdateEditBrowse(app: AppManager, key: KeyCode) returns (outcome: Outcome)
    modifies app
    ensures Run(outcome, app.Snapshot()) == StepSessionsBrowse(old(app.Snapshot()), key)
  {
    outcome := Done;
    match key
    case Esc =>
      app.state := Idle;
    case Up =>
      if app.selectedSessionIndex + 1 < |app.sessions| {
        app.selectedSessionIndex := app.selectedSessionIndex + 1;
      }
    case Down =>
      if app.selectedSessionIndex > 0 {
        app.selectedSessionIndex := app.selectedSessionIndex - 1;
      }
    case Enter =>
      outcome := app.CopySelectedSessionToBuffer();
      if outcome.Panicked? {
        return;
      }
      app.state := FieldsBrowse;
    case _ =>
  }

  /** Moving over the fields of the session being edited. */
  method UpdateFieldsBrowse(app: AppManager, key: KeyCode) returns (outcome: Outcome)
    modifies app
    ensures Run(outcome, app.Snapshot()) == StepFieldsBrowse(old(app.Snapshot()), key)
  {
    outcome := Done;
    match key
    case Esc =>
      var pending := app.SessionBufferHasPendingChanges();
      if pending {
        app.state := Modify(Edit(Confirm));
      } else {
        app.ClearSessionEditBuffer();
        app.selectedSessionField := NoField;
        app.state := SessionsBrowse;
      }
    case Left =>
      app.DecrementSelectedSessionField();
      outcome := PointTagCursorAtBuffer(app);
    case Right =>
      app.IncrementSelectedSessionField();
      outcome := PointTagCursorAtBuffer(app);
    case Enter =>
      app.selectedDatetimeSegment := 0;
      app.state := Modify(Edit(EditFields(Editing)));
    case _ =>
  }

  /** Editing the field under the cursor: ESC and ENTER first go back to
      the fields (ENTER storing the field), then the key reaches the field. */
  method UpdateEditing(app: AppManager, key: KeyCode) returns (outcome: Outcome)
    modifies app
    ensures Run(outcome, app.Snapshot()) == StepEditing(old(app.Snapshot()), key)
  {
    if key == KeyEscape {
      app.state := FieldsBrowse;
    } else if key == KeyEnter {
      app.StoreModifiedFieldToSessionBuffer();
      app.state := FieldsBrowse;
    }
    outcome := TypeIntoField(app, key);
  }

  /** Confirming the changes to the edited session. */
  method UpdateEditConfirm(app: AppManager, key: KeyCode) returns (outcome: Outcome)
    modifies app, app.database
    ensures Run(outcome, app.Snapshot()) == StepEditConfirm(old(app.Snapshot()), key)
  {
    outcome := Done;
    if key == KeyYes {
      outcome := app.ApplyChangesToSession();
      if outcome.Panicked? {
        return;
      }
      app.ClearSessionEditBuffer();
      app.selectedSessionField := NoField;
      app.state := Idle;
    } else if key == KeyNo {
      app.ClearSessionEditBuffer();
      app.selectedSessionField := NoField;
      app.state := Idle;
    } else if key == KeyEscape {
      app.state := FieldsBrowse;
    }
  }

  /** Choosing the session to continue or delete; ENTER asks to confirm. */
  method UpdateChoose(app: AppManager, key: KeyCode, confirm: CommandState) returns (outcome: Outcome)
    modifies app
    ensures Run(outcome, app.Snapshot()) == StepChoose(old(app.Snapshot()), key, confirm)
  {
    outcome := Done;
    match key
    case Esc =>
      app.state := Idle;
    case Up =>
      if app.selectedSessionIndex + 1 < |app.sessions| {
        app.selectedSessionIndex := app.selectedSessionIndex + 1;
      }
    case Down =>
      if app.selectedSessionIndex > 0 {
        app.selectedSessionIndex := app.selectedSessionIndex - 1;
      }
    case Enter =>
      app.state := confirm;
    case _ =>
  }

  /** YES on continuing the selected session. */
  method UpdateContinueConfirm(app: AppManager, key: KeyCode, now: Timestamp) returns (outcome: Outcome)
    modifies app
    ensures Run(outcome, app.Snapshot()) == StepModify(old(app.Snapshot()), SessionModifyState.Continue(Yes), key, now)
  {
    outcome := Done;
    if key == KeyYes {
      outcome := app.StartNewSessionBasedOnSelected(now);
      if outcome.Panicked? {
        return;
      }
      app.state := Idle;
    } else if key == KeyNo || key == KeyEscape {
      app.state := Idle;
    }
  }

  /** YES on deleting the selected session. */
  method UpdateDeleteConfirm(app: AppManager, key: KeyCode, now: Timestamp) returns (outcome: Outcome)
    modifies app, app.database
    ensures Run(outcome, app.Snapshot()) == StepModify(old(app.Snapshot()), SessionModifyState.Delete(Yes), key, now)
  {
    outcome := Done;
    if key == KeyYes {
      outcome := app.DeleteSelectedSession();
      if outcome.Panicked? {
        return;
      }
      app.state := Idle;
    } else if key == KeyNo || key == KeyEscape {
      app.state := Idle;
    }
  }

  /** Confirming the end of the running session. */
  method UpdateEnd(app: AppManager, key: KeyCode, now: Timestamp) returns (outcome: Outcome)
    modifies app, app.database
    ensures Run(outcome, app.Snapshot()) == Confirmed(old(app.Snapshot()), key, Run(Done, EndRunningSession(old(app.Snapshot()), now)))
  {
    outcome := Done;
    if key == KeyYes {
      app.EndRunningSession(now);
      app.state := Idle;
    } else if key == KeyNo || key == KeyEscape {
      app.state := Idle;
    }
  }

  /** Confirming quitting: a running session is ended first. */
  method UpdateQuitting(app: AppManager, key: KeyCode, now: Timestamp) returns (outcome: Outcome)
    modifies app, app.database
    ensures Run(outcome, app.Snapshot()) == StepQuitting(old(app.Snapshot()), key, now)
  {
    outcome := Done;
    if key == KeyYes {
      var running := app.IsLastSessionStillRunning();
      if running {
        app.EndRunningSession(now);
      }
      app.running := false;
    } else if key == KeyNo || key == KeyEscape {
      app.state := Idle;
    }
  }

  /** `update`: the key event read this time round, if any, applied in the
      current command state; `now` is the wall-clock time read by the
      operations that start or end a session. */
  method Update(app: AppManager, event: Option<KeyCode>, now: Timestamp) returns (outcome: Outcome)
    modifies app, app.database
    ensures Run(outcome, app.Snapshot()) == Step(old(app.Snapshot()), event, now)
  {
    match event
    case None =>
      outcome := Done;
    case Some(key) =>
      match app.state {
        case Idle =>
          outcome := UpdateIdle(app, key);
        case New(input) =>
          match input {
            case Description(confirm) =>
              outcome := UpdateDescription(app, confirm, key, now);
            case Tag(tagState) =>
              outcome := UpdateTag(app, tagState, key, now);
          }
        case Modify(mode) =>
          match mode {
            case Edit(edit) =>
              match edit {
                case Browse =>
                  outcome := UpdateEditBrowse(app, key);
                case EditFields(fieldState) =>
                  if fieldState == SessionFieldEditState.Browse {
                    outcome := UpdateFieldsBrowse(app, key);
                  } else {
                    outcome := UpdateEditing(app, key);
                  }
                case Confirm =>
                  outcome := UpdateEditConfirm(app, key);
              }
            case Continue(confirm) =>
              if confirm == Yes {
                outcome := UpdateContinueConfirm(app, key, now);
              } else {
                outcome := UpdateChoose(app, key, Modify(SessionModifyState.Continue(Yes)));
              }
            case Delete(confirm) =>
              if confirm == Yes {
                outcome := UpdateDeleteConfirm(app, key, now);
              } else {
                outcome := UpdateChoose(app, key, Modify(SessionModifyState.Delete(Yes)));
              }
          }
        case End =>
          outcome := UpdateEnd(app, key, now);
        case Quitting =>
          outcome := UpdateQuitting(app, key, now);
      }
  }
}

/** The key-driven transition function of the application (`update`): one
    key event moves the nested command state and performs the operation the
    state and the key select. */
module Transitions {
  import opened Results
  import opened Text
  import opened Time
  import opened AppState
  import opened ControlKeys
  import opened Sessions
  import opened Database
  import opened AppModel

  /** The message of the underflow in `sessions.len() - 1` on an empty list. */
  const SubtractOverflow: string := "attempt to subtract with overflow"

  /** The message of `Option::unwrap` on `None`. */
  const UnwrapNone: string := "called `Option::unwrap()` on a `None` value"

  function Pop(s: string): string
  {
    if s == [] then s else s[..|s| - 1]
  }

  /** UP in a list of sessions: towards the newest, stopping at the last. */
  function SessionUp(v: AppView): (r: AppView)
    ensures r == v.(selectedSessionIndex := r.selectedSessionIndex)
    ensures v.selectedSessionIndex + 1 < |v.sessions| ==> r.selectedSessionIndex == v.selectedSessionIndex + 1
    ensures v.selectedSessionIndex + 1 >= |v.sessions| ==> r == v
  {
    if v.selectedSessionIndex + 1 < |v.sessions| then v.(selectedSessionIndex := v.selectedSessionIndex + 1) else v
  }

  /** DOWN in a list of sessions: towards the oldest, stopping at the first. */
  function SessionDown(v: AppView): (r: AppView)
    ensures r == v.(selectedSessionIndex := r.selectedSessionIndex)
    ensures v.selectedSessionIndex > 0 ==> r.selectedSessionIndex == v.selectedSessionIndex - 1
    ensures v.selectedSessionIndex == 0 ==> r == v
  {
    if v.selectedSessionIndex > 0 then v.(selectedSessionIndex := v.selectedSessionIndex - 1) else v
  }

  /** UP in the tag list. */
  function TagUp(v: AppView): (r: AppView)
    ensures r == v.(tempTagIndex := r.tempTagIndex)
    ensures r.tempTagIndex == if v.tempTagIndex > 0 then v.tempTagIndex - 1 else 0
  {
    if v.tempTagIndex > 0 then v.(tempTagIndex := v.tempTagIndex - 1) else v
  }

  /** DOWN in the tag list. */
  function TagDown(v: AppView): (r: AppView)
    ensures r == v.(tempTagIndex := r.tempTagIndex)
    ensures v.tempTagIndex + 1 < |v.tags| ==> r.tempTagIndex == v.tempTagIndex + 1
    ensures v.tempTagIndex + 1 >= |v.tags| ==> r == v
  {
    if v.tempTagIndex + 1 < |v.tags| then v.(tempTagIndex := v.tempTagIndex + 1) else v
  }

  /** Typing the description of a new session. */
  const DescriptionInput: CommandState := CommandState.New(SessionInputState.Description(No))

  /** Choosing the tag of a new session. */
  const TagSelect: CommandState := CommandState.New(SessionInputState.Tag(Select))

  /** Choosing the session to edit. */
  const SessionsBrowse: CommandState := Modify(Edit(SessionEditState.Browse))

  /** Moving over the fields of the session being edited. */
  const FieldsBrowse: CommandState := Modify(Edit(EditFields(SessionFieldEditState.Browse)))

  function Goto(v: AppView, state: CommandState): Run
  {
    Run(Done, v.(state := state))
  }

  /** The list view. */
  function StepIdle(v: AppView, key: KeyCode): (r: Run)
    ensures SameData(r.app, v)
    ensures r.outcome.Panicked? <==> (key == KeyEdit || key == KeyContinue || key == KeyDelete) && v.sessions == []
  {
    if key == KeyNew then Goto(v, CommandState.New(SessionInputState.Description(No)))
    else if key == KeyEdit || key == KeyContinue || key == KeyDelete then
      if v.sessions == [] then Run(Panicked(SubtractOverflow), v)
      else
        var mode :=
          if key == KeyEdit then SessionModifyState.Edit(SessionEditState.Browse)
          else if key == KeyContinue then SessionModifyState.Continue(No)
          else SessionModifyState.Delete(No);
        Goto(v.(selectedSessionIndex := |v.sessions| - 1), Modify(mode))
    else if key == KeyEnd then
      if IsLastSessionStillRunning(v.sessions) then Goto(v, CommandState.End) else Run(Done, v)
    else if key == KeyQuit then Goto(v, Quitting)
    else Run(Done, v)
  }

  /** Composing a new session: the description, its confirmation and the tag input. */
  function StepNew(v: AppView, input: SessionInputState, key: KeyCode, now: Timestamp): Run
  {
    match input
    case Description(Yes) =>
      if key == KeyYes then Goto(TryStartNewSession(EndRunningSession(v, now), now), Idle)
      else if key == KeyNo || key == KeyEscape then Goto(v, DescriptionInput)
      else Run(Done, v)
    case Description(No) =>
      (match key
       case Esc => Goto(v, Idle)
       case Backspace => Run(Done, v.(descriptionBuffer := Pop(v.descriptionBuffer)))
       case Enter =>
         if IsLastSessionStillRunning(v.sessions) then Goto(v, CommandState.New(SessionInputState.Description(Yes)))
         else Goto(TryStartNewSession(v, now), Idle)
       case Tab => Goto(v.(tempTagIndex := v.selectedTagIndex), TagSelect)
       case Char(c) => Run(Done, v.(descriptionBuffer := v.descriptionBuffer + [c]))
       case _ => Run(Done, v))
    case Tag(Select) =>
      if key == KeyNew then Goto(v, CommandState.New(SessionInputState.Tag(TagInputState.New)))
      else if key == KeyEscape then Goto(v, DescriptionInput)
      else if key == KeyUp then Run(Done, TagUp(v))
      else if key == KeyDown then Run(Done, TagDown(v))
      else if key == KeyEnter then Goto(v.(selectedTagIndex := v.tempTagIndex), DescriptionInput)
      else Run(Done, v)
    case Tag(New) =>
      (match key
       case Esc => Goto(v, TagSelect)
       case Backspace => Run(Done, v.(tagBuffer := Pop(v.tagBuffer)))
       case Enter => Goto(TryStoreTag(v), DescriptionInput)
       case Char(c) => Run(Done, v.(tagBuffer := v.tagBuffer + [c]))
       case _ => Run(Done, v))
    case Tag(Delete(_)) => Run(Done, v)
  }

  /** After LEFT or RIGHT: landing on the tag column points the tag cursor
      at the buffer's tag. */
  function SyncTagCursor(v: AppView): Run
  {
    if v.selectedSessionField.Tag? then
      match v.sessionEditBuffer
      case None => Run(Panicked(UnwrapNone), v)
      case Some(b) =>
        match IndexOfTag(v.tags, b.tag)
        case Abort(m) => Run(Panicked(m), v)
        case Ok(i) => Run(Done, v.(tempTagIndex := i))
    else
      Run(Done, v)
  }

  /** Typing into the field under the cursor while editing it. */
  function EditFieldInput(v: AppView, key: KeyCode): Run
  {
    match v.selectedSessionField
    case Description(d) =>
      (match key
       case Backspace => Run(Done, v.(selectedSessionField := SessionField.Description(Pop(d))))
       case Char(c) => Run(Done, v.(selectedSessionField := SessionField.Description(d + [c])))
       case _ => Run(Done, v))
    case Tag(_) =>
      if key == KeyUp || key == KeyDown then
        var w := if key == KeyUp then TagUp(v) else TagDown(v);
        if w.tempTagIndex < |w.tags| then
          Run(Done, w.(selectedSessionField := SessionField.Tag(w.tags[w.tempTagIndex])))
        else
          Run(Panicked(IndexPanic(|w.tags|, w.tempTagIndex)), w)
      else
        Run(Done, v)
    case _ => Run(Done, v)
  }

  /** Clearing the edit buffer and the cursor, then going to `state`. */
  function LeaveEdit(v: AppView, state: CommandState): Run
  {
    Goto(v.(sessionEditBuffer := None, selectedSessionField := NoField), state)
  }

  /** Choosing the session to edit; ENTER copies it into the edit buffer. */
  function StepSessionsBrowse(v: AppView, key: KeyCode): Run
  {
    match key
    case Esc => Goto(v, Idle)
    case Up => Run(Done, SessionUp(v))
    case Down => Run(Done, SessionDown(v))
    case Enter =>
      var c := CopySelectedSessionToBuffer(v);
      if c.outcome.Panicked? then c else Goto(c.app, FieldsBrowse)
    case _ => Run(Done, v)
  }

  /** Moving over the fields of the buffer; ESC asks for confirmation when
      the buffer differs from the session. */
  function StepFieldsBrowse(v: AppView, key: KeyCode): Run
  {
    match key
    case Esc =>
      if SessionBufferHasPendingChanges(v) then Goto(v, Modify(Edit(Confirm)))
      else LeaveEdit(v, SessionsBrowse)
    case Left =>
      SyncTagCursor(v.(selectedSessionField := DecrementField(v.selectedSessionField, v.sessionEditBuffer)))
    case Right =>
      SyncTagCursor(v.(selectedSessionField := IncrementField(v.selectedSessionField, v.sessionEditBuffer)))
    case Enter => Goto(v.(selectedDatetimeSegment := 0), Modify(Edit(EditFields(Editing))))
    case _ => Run(Done, v)
  }

  /** Editing the field under the cursor: ESC leaves it, ENTER stores it into
      the buffer, and the key is then typed into the field. */
  function StepEditing(v: AppView, key: KeyCode): Run
  {
    var w :=
      if key == KeyEscape then v.(state := FieldsBrowse)
      else if key == KeyEnter then StoreModifiedField(v).(state := FieldsBrowse)
      else v;
    EditFieldInput(w, key)
  }

  /** Confirming the changes: YES applies the buffer to the session. */
  function StepEditConfirm(v: AppView, key: KeyCode): Run
  {
    if key == KeyYes then
      var a := ApplyChangesToSession(v);
      if a.outcome.Panicked? then a else LeaveEdit(a.app, Idle)
    else if key == KeyNo then LeaveEdit(v, Idle)
    else if key == KeyEscape then Goto(v, FieldsBrowse)
    else Run(Done, v)
  }

  /** Editing a session: choosing it, moving over its fields, editing one,
      and confirming the changes. */
  function StepEdit(v: AppView, edit: SessionEditState, key: KeyCode): Run
  {
    match edit
    case Browse => StepSessionsBrowse(v, key)
    case EditFields(Browse) => StepFieldsBrowse(v, key)
    case EditFields(Editing) => StepEditing(v, key)
    case Confirm => StepEditConfirm(v, key)
  }

  /** Choosing a session in the continue or delete list; ENTER opens `confirm`. */
  function StepChoose(v: AppView, key: KeyCode, confirm: CommandState): Run
  {
    match key
    case Esc => Goto(v, Idle)
    case Up => Run(Done, SessionUp(v))
    case Down => Run(Done, SessionDown(v))
    case Enter => Goto(v, confirm)
    case _ => Run(Done, v)
  }

  /** A YES/NO confirmation: YES runs `action` and returns to the list, NO
      and ESC return to the list. */
  function Confirmed(v: AppView, key: KeyCode, action: Run): Run
  {
    if key == KeyYes then
      if action.outcome.Panicked? then action else Goto(action.app, Idle)
    else if key == KeyNo || key == KeyEscape then Goto(v, Idle)
    else Run(Done, v)
  }

  function StepModify(v: AppView, mode: SessionModifyState, key: KeyCode, now: Timestamp): Run
  {
    match mode
    case Edit(edit) => StepEdit(v, edit, key)
    case Continue(Yes) => Confirmed(v, key, StartNewSessionBasedOnSelected(v, now))
    case Continue(No) => StepChoose(v, key, Modify(SessionModifyState.Continue(Yes)))
    case Delete(Yes) => Confirmed(v, key, DeleteSelectedSession(v))
    case Delete(No) => StepChoose(v, key, Modify(SessionModifyState.Delete(Yes)))
  }

  /** Quitting: YES ends a running session and stops the main loop. */
  function StepQuitting(v: AppView, key: KeyCode, now: Timestamp): Run
  {
    if key == KeyYes then
      var w := if IsLastSessionStillRunning(v.sessions) then EndRunningSession(v, now) else v;
      Run(Done, w.(running := false))
    else if key == KeyNo || key == KeyEscape then Goto(v, Idle)
    else Run(Done, v)
  }

  /** `update`: one key event, if any, applied in the current state; `now` is
      the wall-clock time the operations that start or end a session read. */
  function Step(v: AppView, event: Option<KeyCode>, now: Timestamp): Run
  {
    match event
    case None => Run(Done, v)
    case Some(key) =>
      match v.state
      case Idle => StepIdle(v, key)
      case New(input) => StepNew(v, input, key, now)
      case Modify(mode) => StepModify(v, mode, key, now)
      case End => Confirmed(v, key, Run(Done, EndRunningSession(v, now)))
      case Quitting => StepQuitting(v, key, now)
  }
}

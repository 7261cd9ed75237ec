/** The nested command state of the user interface and its title text
    (the `Display` implementations). */
module AppState {
  import opened Results
  import opened Time

  datatype ConfirmOpen = Yes | No

  datatype TagInputState = Select | New | Delete(confirm: ConfirmOpen)

  datatype SessionInputState = Description(confirm: ConfirmOpen) | Tag(tagState: TagInputState)

  datatype SessionFieldEditState = Browse | Editing

  datatype SessionEditState = Browse | EditFields(fieldState: SessionFieldEditState) | Confirm

  datatype SessionModifyState = Edit(editState: SessionEditState) | Continue(confirm: ConfirmOpen) | Delete(confirm: ConfirmOpen)

  datatype CommandState = Idle | New(input: SessionInputState) | Modify(modifyState: SessionModifyState) | End | Quitting

  /** The field the edit cursor is on, carrying the value being edited.
      `NoField` is the source's `SessionField::None`. */
  datatype SessionField =
    | Date(date: Timestamp)
    | Description(description: string)
    | Tag(tag: string)
    | Start(start: Timestamp)
    | End(end: Option<Timestamp>)
    | NoField

  function TagInputText(s: TagInputState): string
  {
    match s
    case Select => "Select"
    case New => "New"
    case Delete(_) => "Delete"
  }

  function SessionInputText(s: SessionInputState): string
  {
    match s
    case Description(_) => "Description"
    case Tag(t) => "Tag: " + TagInputText(t)
  }

  function CommandStateText(s: CommandState): string
  {
    match s
    case Idle => "List"
    case New(input) => "Input: " + SessionInputText(input)
    case Modify(_) => "Delete"
    case End => "End"
    case Quitting => "Quitting"
  }

  /** What the title text reveals of a state: its top-level mode and, while a
      new session is composed, which input is open. Confirmation flags and the
      kind of modification (edit, continue or delete) are not shown. */
  predicate SameTitle(a: CommandState, b: CommandState)
  {
    match (a, b)
    case (Idle, Idle) => true
    case (End, End) => true
    case (Quitting, Quitting) => true
    case (Modify(_), Modify(_)) => true
    case (New(x), New(y)) =>
      (x.Description? && y.Description?)
      || (x.Tag? && y.Tag? && (x.tagState.Select? == y.tagState.Select?) && (x.tagState.New? == y.tagState.New?))
    case _ => false
  }

  /** The title of two states is the same exactly when `SameTitle` holds; in
      particular every modification sub-state is titled "Delete". */
  lemma TitleIdentifiesMode(a: CommandState, b: CommandState)
    ensures CommandStateText(a) == CommandStateText(b) <==> SameTitle(a, b)
    ensures a.Modify? ==> CommandStateText(a) == "Delete"
    ensures a.New? ==> CommandStateText(a) == "Input: " + SessionInputText(a.input)
  {
    var ta, tb := CommandStateText(a), CommandStateText(b);
    if ta == tb && a.New? && b.New? {
      var sa, sb := SessionInputText(a.input), SessionInputText(b.input);
      assert sa == ta[7..] && sb == tb[7..];
      if a.input.Tag? && b.input.Tag? {
        assert TagInputText(a.input.tagState) == sa[5..];
        assert TagInputText(b.input.tagState) == sb[5..];
      } else {
        assert sa[0] == sb[0];
      }
    }
  }
}

/** The key bindings of the application and the control panel listing. */
module ControlKeys {

  /** The keys crossterm reports that the application tells apart; every
      other key (function keys, Home, Insert, ...) is `Other`. */
  datatype KeyCode = Char(c: char) | Enter | Tab | Up | Down | Left | Right | Backspace | Esc | Other

  const KeyNew: KeyCode := Char('n')
  const KeyDelete: KeyCode := Char('d')
  const KeyEnd: KeyCode := Char(' ')
  const KeyEdit: KeyCode := Char('e')
  const KeyCopy: KeyCode := Char('c')
  const KeyQuit: KeyCode := Char('q')
  const KeyEnter: KeyCode := Enter
  const KeyTab: KeyCode := Tab
  const KeyYes: KeyCode := Char('y')
  const KeyNo: KeyCode := Char('n')
  const KeyUp: KeyCode := Up
  const KeyDown: KeyCode := Down
  const KeyLeft: KeyCode := Left
  const KeyRight: KeyCode := Right
  const KeyBackspace: KeyCode := Backspace
  const KeyEscape: KeyCode := Esc

  /** The key the list view uses to continue (copy) a session. The transition
      function names it KEY_CONTINUE, which the key table does not define; it
      is the copy key. */
  const KeyContinue: KeyCode := KeyCopy

  datatype Control = Control(key: KeyCode, description: string)

  /** The label of a character key in the control panel. Any other key makes
      the source panic, so callers must pass a character key. */
  function KeyToChar(key: KeyCode): (r: string)
    requires key.Char?
    ensures key.c == ' ' ==> r == "SPACE"
    ensures key.c != ' ' ==> r == [key.c]
  {
    if key.c == ' ' then "SPACE" else [key.c]
  }

  /** Two different character keys never get the same label. */
  lemma KeyLabelsDistinct(a: KeyCode, b: KeyCode)
    requires a.Char? && b.Char? && a != b
    ensures KeyToChar(a) != KeyToChar(b)
  {
    if a.c != ' ' && b.c != ' ' {
      assert KeyToChar(a)[0] == a.c;
    }
  }

  /** The controls of the list view, in panel order. All are character keys
      and no two share a key or a label, so the panel is unambiguous. */
  function GetControls(): (r: seq<Control>)
    ensures |r| == 6
    ensures forall i :: 0 <= i < |r| ==> r[i].key.Char?
    ensures forall i, j :: 0 <= i < j < |r| ==> r[i].key != r[j].key
    ensures forall i, j :: 0 <= i < j < |r| ==> KeyToChar(r[i].key) != KeyToChar(r[j].key)
    ensures r[0].key == KeyNew && r[1].key == KeyEdit && r[2].key == KeyDelete
    ensures r[3].key == KeyCopy && r[4].key == KeyEnd && r[5].key == KeyQuit
    ensures r[0].description == "new" && r[1].description == "edit" && r[2].description == "delete"
    ensures r[3].description == "copy" && r[4].description == "end" && r[5].description == "quit"
  {
    var r := [
      Control(KeyNew, "new"),
      Control(KeyEdit, "edit"),
      Control(KeyDelete, "delete"),
      Control(KeyCopy, "copy"),
      Control(KeyEnd, "end"),
      Control(KeyQuit, "quit")
    ];
    forall i, j | 0 <= i < j < |r| ensures KeyToChar(r[i].key) != KeyToChar(r[j].key) {
      KeyLabelsDistinct(r[i].key, r[j].key);
    }
    r
  }

  /** The same key means "new" in the list view and "no" in every confirmation. */
  lemma NewKeyIsNoKey()
    ensures KeyNew == KeyNo && KeyContinue == KeyCopy
  {
  }
}

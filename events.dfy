/** Terminal input events as the keyboard-event decoder delivers them, and the
    editor's gate that lets only key events through. */
module Events {

  /** The key that an event is about. Keys the editor gives no meaning to
      are kept so that "any other key" has inhabitants. */
  datatype KeyCode =
    | Backspace | Enter | Left | Right | Up | Down | Home | End
    | PageUp | PageDown | Tab | BackTab | Delete | Insert
    | F(number: nat) | Char(c: char) | Null | Esc
    | CapsLock | ScrollLock | NumLock | PrintScreen | Pause | Menu | KeypadBegin
    | Media(media: nat) | Modifier(modifier: nat)

  datatype KeyModifier = Shift | Control | Alt | Super | Hyper | Meta

  datatype KeyEventKind = Press | Repeat | Release

  datatype KeyEvent = KeyEvent(code: KeyCode, modifiers: set<KeyModifier>, kind: KeyEventKind)

  /** Every kind of input event; mouse events are reduced to their cell. */
  datatype Event =
    | FocusGained
    | FocusLost
    | Key(key: KeyEvent)
    | Mouse(column: nat, row: nat)
    | Paste(content: string)
    | Resize(columns: nat, rows: nat)

  /** An I/O error of kind `Other` with its message. */
  datatype Error = Other(message: string)

  const InvalidKeyEvent: Error := Other("Invalid key event")

  datatype Result<T> = Ok(value: T) | Err(error: Error)

  datatype Option<T> = None | Some(value: T)

  /** Accepts key events and rejects every other event with an error. */
  function ParseKeyEvent(event: Event): (r: Result<KeyEvent>)
    ensures r.Ok? <==> event.Key?
    ensures r.Ok? ==> Key(r.value) == event
    ensures r.Err? ==> r.error == InvalidKeyEvent
  {
    if event.Key? then Ok(event.key) else Err(InvalidKeyEvent)
  }
}

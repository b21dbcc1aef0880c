/**
 * The part of crossterm's key events the application reads: the key code and the set of
 * modifier flags. A pattern `KeyModifiers::CONTROL` matches only when Control is the one
 * flag held.
 */
module Keys {

  /** crossterm's `KeyModifiers` flags. */
  datatype Modifier = Shift | Control | Alt | Super | Hyper | Meta

  /** crossterm's `KeyCode`, the variants a terminal delivers for ordinary keys. */
  datatype KeyCode =
    | Char(c: char)
    | Enter
    | Tab
    | BackTab
    | Backspace
    | Delete
    | Insert
    | Left
    | Right
    | Up
    | Down
    | Home
    | End
    | PageUp
    | PageDown
    | Esc
    | F(n: nat)
    | Null

  /** A key press: its code and the modifiers held. */
  datatype KeyEvent = KeyEvent(code: KeyCode, modifiers: set<Modifier>)

  /** The modifiers are exactly `KeyModifiers::CONTROL`. */
  predicate ControlOnly(key: KeyEvent)
  {
    key.modifiers == {Control}
  }

  /** The key code is the character c, whatever the modifiers. */
  predicate IsChar(key: KeyEvent, c: char)
  {
    key.code == Char(c)
  }

  /** c pressed with Control as the only modifier. */
  predicate IsControlChar(key: KeyEvent, c: char)
  {
    IsChar(key, c) && ControlOnly(key)
  }
}

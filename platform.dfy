/** The machine and library types the game is written against: Rust's fixed-width
    integers, ratatui's `Rect`, and the crossterm key and event values that the
    key handler matches on. */
module Platform {

  /** Rust `u16`. Arithmetic on a newtype is range-checked by Dafny, which is how
      the model states that no `u16` operation of the game may overflow or
      underflow (a panic in a debug build). */
  newtype u16 = x: int | 0 <= x <= 0xFFFF

  /** Rust `i16`, the type of the ball's velocity components. */
  newtype i16 = x: int | -0x8000 <= x <= 0x7FFF

  datatype Option<T> = None | Some(value: T)

  /** ratatui `Rect`: top-left corner and size, all `u16`. */
  datatype Rect = Rect(x: u16, y: u16, width: u16, height: u16)

  /** crossterm `KeyCode`; the game distinguishes characters and the two
      vertical arrow keys, every other key code is `OtherKey`. */
  datatype KeyCode = Char(c: char) | Up | Down | OtherKey

  /** The flags of crossterm `KeyModifiers`; a value of that bit set is a set
      of these, so `KeyModifiers::NONE` is `{}` and `KeyModifiers::CONTROL` is
      `{Control}`. */
  datatype Modifier = Shift | Control | Alt | Super | Hyper | Meta

  /** crossterm `KeyEvent`, reduced to the two fields the game matches on
      (its `kind` and `state` are always skipped with `..`). */
  datatype KeyEvent = KeyEvent(code: KeyCode, modifiers: set<Modifier>)

  /** crossterm `Event`. */
  datatype Event =
    | FocusGained
    | FocusLost
    | Key(key: KeyEvent)
    | Mouse
    | Paste(text: string)
    | Resize(columns: u16, rows: u16)
}

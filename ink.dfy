/** What Ink's `useInput` passes to a handler for one keystroke: the typed
    text and the flags of the special keys. */
module Ink {
  datatype Key = Key(input: string, enter: bool, escape: bool, tab: bool, shift: bool,
                     backspace: bool, delete: bool, ctrl: bool, meta: bool,
                     leftArrow: bool, rightArrow: bool)

  /** `input && !key.ctrl && !key.meta`: text to insert. */
  predicate Typed(k: Key) {
    k.input != "" && !k.ctrl && !k.meta
  }

  /** A key that only types `input`. */
  function Char(input: string): Key {
    Key(input, false, false, false, false, false, false, false, false, false, false)
  }

  /** The Enter key alone. */
  const Enter: Key := Key("", true, false, false, false, false, false, false, false, false, false)
}

/** The vim-style single-line editor: word motions, and the keystroke
    handler over the value, the cursor, the mode, the pending `:` command,
    the visual selection start and the error line. `onSubmit`, `onCancel` and
    `setInputLocked` are recorded as the signals and the lock flag they
    produce. */
module VimInput {
  import opened Wrappers
  import opened JsString
  import opened Ink

  datatype Mode = Normal | Insert | Replace | Command | Visual

  /** A call of `onSubmit(value)` or `onCancel()`. */
  datatype Signal = Submitted(text: string) | Cancelled

  datatype Editor = Editor(value: string, cursor: nat, mode: Mode, command: string, selectStart: nat,
                           error: Option<string>, locked: bool, signals: seq<Signal>)

  function Max(a: int, b: int): (r: int)
    ensures r >= a && r >= b && (r == a || r == b)
  {
    if a >= b then a else b
  }

  function Min(a: int, b: int): (r: int)
    ensures r <= a && r <= b && (r == a || r == b)
  {
    if a <= b then a else b
  }

  // ----------------------------------------------------------- word motions

  /** The separators of the word motions. */
  predicate IsSep(c: char) { c == ' ' || c == ':' }

  /** `value[i]` is a separator; false past either end, where it is undefined. */
  predicate SepAt(v: string, i: int) { 0 <= i < |v| && IsSep(v[i]) }

  /** The first separator at or after `pos`, or the end. */
  function WordEnd(v: string, pos: nat): (r: nat)
    ensures pos >= |v| ==> r == pos
    ensures pos < |v| ==> pos <= r <= |v| && (r == |v| || IsSep(v[r]))
    ensures forall i :: pos <= i < r ==> !IsSep(v[i])
    decreases |v| - pos
  {
    if pos < |v| && !IsSep(v[pos]) then WordEnd(v, pos + 1) else pos
  }

  /** The first non-separator at or after `pos`, or the end. */
  function SepEnd(v: string, pos: nat): (r: nat)
    ensures pos >= |v| ==> r == pos
    ensures pos < |v| ==> pos <= r <= |v| && (r == |v| || !IsSep(v[r]))
    ensures forall i :: pos <= i < r ==> IsSep(v[i])
    decreases |v| - pos
  {
    if pos < |v| && IsSep(v[pos]) then SepEnd(v, pos + 1) else pos
  }

  /** Where `w` goes: past the rest of the word and the separators after it,
      but never past the last character. */
  function NextWord(v: string, cursor: nat): (r: nat)
    ensures r <= Max(0, |v| - 1)
    ensures cursor <= |v| - 1 ==> cursor <= r
  {
    Min(SepEnd(v, WordEnd(v, cursor)), Max(0, |v| - 1))
  }

  /** `findNextWord(value, cursor)`. */
  method FindNextWord(v: string, cursor: nat) returns (r: nat)
    ensures r == NextWord(v, cursor)
  {
    var pos := cursor;
    while pos < |v| && v[pos] != ' ' && v[pos] != ':'
      invariant cursor <= pos && WordEnd(v, pos) == WordEnd(v, cursor)
      decreases |v| - pos
    {
      pos := pos + 1;
    }
    ghost var wordEnd := pos;
    while pos < |v| && (v[pos] == ' ' || v[pos] == ':')
      invariant wordEnd <= pos && SepEnd(v, pos) == SepEnd(v, wordEnd)
      decreases |v| - pos
    {
      pos := pos + 1;
    }
    r := Min(pos, Max(0, |v| - 1));
  }

  /** Back over the separators just before `pos`. */
  function BackOverSeps(v: string, pos: nat): (r: nat)
    ensures r <= pos && (r == 0 || !SepAt(v, r - 1))
    ensures forall i :: r <= i < pos ==> SepAt(v, i)
  {
    if pos > 0 && SepAt(v, pos - 1) then BackOverSeps(v, pos - 1) else pos
  }

  /** Back over the word characters just before `pos`. */
  function BackOverWord(v: string, pos: nat): (r: nat)
    ensures r <= pos && (r == 0 || SepAt(v, r - 1))
    ensures forall i :: r <= i < pos ==> !SepAt(v, i)
  {
    if pos > 0 && !SepAt(v, pos - 1) then BackOverWord(v, pos - 1) else pos
  }

  /** Where `b` goes: the start of the word before the cursor, which is the
      start of the text or a position just after a separator. */
  function PrevWord(v: string, cursor: nat): (r: nat)
    ensures r <= cursor
    ensures r == 0 || SepAt(v, r - 1)
  {
    var pos := if cursor > 0 && SepAt(v, cursor - 1) then cursor - 1 else cursor;
    BackOverWord(v, BackOverSeps(v, pos))
  }

  /** `findPrevWord(value, cursor)`. */
  method FindPrevWord(v: string, cursor: nat) returns (r: nat)
    ensures r == PrevWord(v, cursor)
  {
    var pos := cursor;
    if pos > 0 && SepAt(v, pos - 1) {
      pos := pos - 1;
    }
    ghost var start := pos;
    while pos > 0 && SepAt(v, pos - 1)
      invariant BackOverSeps(v, pos) == BackOverSeps(v, start)
    {
      pos := pos - 1;
    }
    ghost var wordEnd := pos;
    while pos > 0 && !SepAt(v, pos - 1)
      invariant BackOverWord(v, pos) == BackOverWord(v, wordEnd)
    {
      pos := pos - 1;
    }
    r := pos;
  }

  // ------------------------------------------------------------ transitions

  /** The state after mounting: the default value, the cursor at 0, normal
      mode and navigation locked. */
  function Initial(defaultValue: string): Editor {
    Editor(defaultValue, 0, Normal, "", 0, None, true, [])
  }

  /** The cursor never passes the end of the value, and a selection being
      made starts inside it. */
  predicate Valid(e: Editor) {
    e.cursor <= |e.value| && (e.mode == Visual ==> e.selectStart <= |e.value|)
  }

  /** `submit()`: unlock navigation and call `onSubmit(value)`. */
  function AfterSubmit(e: Editor): Editor {
    e.(locked := false, signals := e.signals + [Submitted(e.value)])
  }

  /** `cancel()`: unlock navigation and call `onCancel()`. */
  function AfterCancel(e: Editor): Editor {
    e.(locked := false, signals := e.signals + [Cancelled])
  }

  /** `executeCommand(cmd)`. */
  function Execute(e: Editor, cmd: string): Editor {
    var trimmed := LowerAll(Trim(cmd));
    var done :=
      if trimmed == "w" || trimmed == "wq" then AfterSubmit(e)
      else if trimmed == "q" || trimmed == "q!" then AfterCancel(e)
      else e.(error := Some("Unknown command: " + cmd));
    done.(command := "", mode := Normal)
  }

  /** The cursor motions that normal and visual mode share. */
  function Motion(e: Editor, k: Key): Option<nat> {
    var last := Max(0, |e.value| - 1);
    if k.input == "h" || k.leftArrow then Some(Max(0, e.cursor - 1))
    else if k.input == "l" || k.rightArrow then Some(Min(last, e.cursor + 1))
    else if k.input == "0" || k.input == "^" then Some(0)
    else if k.input == "$" then Some(last)
    else if k.input == "w" then Some(NextWord(e.value, e.cursor))
    else if k.input == "b" then Some(PrevWord(e.value, e.cursor))
    else None
  }

  function CommandKey(e: Editor, k: Key): Editor {
    if k.enter then Execute(e, e.command)
    else if k.escape then e.(command := "", mode := Normal)
    else if k.backspace || k.delete then
      if |e.command| > 0 then e.(command := Slice(e.command, 0, -1)) else e.(mode := Normal)
    else if Typed(k) then e.(command := e.command + k.input)
    else e
  }

  function NormalKey(e: Editor, k: Key): Editor {
    var v, c := e.value, e.cursor;
    if k.escape then AfterCancel(e)
    else if k.input == ":" then e.(mode := Command, command := "")
    else if Motion(e, k).Some? then e.(cursor := Motion(e, k).value)
    else EditKey(e, k)
  }

  /** A normal-mode key that is neither Escape, ':' nor a motion: the edits
      and the mode switches. */
  function EditKey(e: Editor, k: Key): Editor {
    var v, c := e.value, e.cursor;
    if k.input == "x" then
      if |v| > 0 && c < |v| then
        e.(value := Slice(v, 0, c) + SliceFrom(v, c + 1),
           cursor := if c >= |v| - 1 && c > 0 then c - 1 else c,
           error := None)
      else e
    else if k.backspace || k.delete then e.(cursor := Max(0, c - 1))
    else if k.input == "v" then e.(selectStart := c, mode := Visual)
    else if k.input == "r" then e.(mode := Replace)
    else if k.input == "i" then e.(mode := Insert)
    else if k.input == "a" then e.(cursor := Min(|v|, c + 1), mode := Insert)
    else if k.input == "I" then e.(cursor := 0, mode := Insert)
    else if k.input == "A" then e.(cursor := |v|, mode := Insert)
    else e
  }

  function InsertKey(e: Editor, k: Key, multiline: bool): Editor {
    var v, c := e.value, e.cursor;
    if k.escape then e.(mode := Normal, cursor := Max(0, c - 1))
    else if k.enter then
      if multiline then e.(value := Slice(v, 0, c) + "\n" + SliceFrom(v, c), cursor := c + 1)
      else AfterSubmit(e)
    else if k.backspace || k.delete then
      if c > 0 then e.(value := Slice(v, 0, c - 1) + SliceFrom(v, c), cursor := c - 1, error := None)
      else e
    else if Typed(k) then e.(value := Slice(v, 0, c) + k.input + SliceFrom(v, c), cursor := c + 1, error := None)
    else e
  }

  function ReplaceKey(e: Editor, k: Key): Editor {
    var v, c := e.value, e.cursor;
    if k.escape then e.(mode := Normal)
    else if Typed(k) then
      e.(value := if c < |v| then Slice(v, 0, c) + k.input + SliceFrom(v, c + 1) else v + k.input,
         error := None, mode := Normal)
    else e
  }

  function VisualKey(e: Editor, k: Key): Editor {
    var v, c := e.value, e.cursor;
    if k.escape then e.(mode := Normal)
    else if Motion(e, k).Some? then e.(cursor := Motion(e, k).value)
    else SelectionKey(e, k)
  }

  /** A visual-mode key that is neither Escape nor a motion: `x` and `d`
      delete the selection, both ends included; other keys do nothing. */
  function SelectionKey(e: Editor, k: Key): Editor {
    if k.input == "x" || k.input == "d" then
      var start := Min(e.selectStart, e.cursor);
      var end := Max(e.selectStart, e.cursor);
      e.(value := Slice(e.value, 0, start) + SliceFrom(e.value, end + 1), cursor := start, error := None, mode := Normal)
    else e
  }

  /** One keystroke of the `useInput` handler. */
  function Next(e: Editor, k: Key, multiline: bool): Editor {
    match e.mode
    case Command => CommandKey(e, k)
    case Normal => NormalKey(e, k)
    case Insert => InsertKey(e, k, multiline)
    case Replace => ReplaceKey(e, k)
    case Visual => VisualKey(e, k)
  }

  // ------------------------------------------------------------- properties

  lemma NormalKeyValid(e: Editor, k: Key)
    requires Valid(e) && e.mode == Normal
    ensures Valid(NormalKey(e, k))
  {
    if !k.escape && k.input != ":" && Motion(e, k).None? {
      EditKeyValid(e, k);
    }
  }

  lemma EditKeyValid(e: Editor, k: Key)
    requires Valid(e) && e.mode == Normal
    ensures Valid(EditKey(e, k))
  {
    var v, c := e.value, e.cursor;
    if k.input == "x" && |v| > 0 && c < |v| {
      assert |Slice(v, 0, c) + SliceFrom(v, c + 1)| == |v| - 1;
    }
  }

  lemma VisualKeyValid(e: Editor, k: Key)
    requires Valid(e) && e.mode == Visual
    ensures Valid(VisualKey(e, k))
  {
    if !k.escape && Motion(e, k).None? && (k.input == "x" || k.input == "d") {
      var start := Min(e.selectStart, e.cursor);
      assert |Slice(e.value, 0, start)| == start;
    }
  }

  lemma InsertKeyValid(e: Editor, k: Key, multiline: bool)
    requires Valid(e) && e.mode == Insert
    ensures Valid(InsertKey(e, k, multiline))
  {
    var v, c := e.value, e.cursor;
    if !k.escape && !k.enter && (k.backspace || k.delete) && c > 0 {
      assert |Slice(v, 0, c - 1) + SliceFrom(v, c)| == |v| - 1;
    }
  }

  lemma ReplaceKeyValid(e: Editor, k: Key)
    requires Valid(e) && e.mode == Replace
    ensures Valid(ReplaceKey(e, k))
  {
    var v, c := e.value, e.cursor;
    if !k.escape && Typed(k) && c < |v| {
      assert |Slice(v, 0, c) + k.input + SliceFrom(v, c + 1)| == |v| - 1 + |k.input|;
    }
  }

  /** Every keystroke keeps the cursor within the value and a selection being
      made inside it. */
  lemma NextPreservesValid(e: Editor, k: Key, multiline: bool)
    requires Valid(e)
    ensures Valid(Next(e, k, multiline))
  {
    match e.mode
    case Normal => NormalKeyValid(e, k);
    case Visual => VisualKeyValid(e, k);
    case Insert => InsertKeyValid(e, k, multiline);
    case Replace => ReplaceKeyValid(e, k);
    case Command =>
  }

  /** In normal mode `h`, `l`, `0`, `^` and `$` leave the cursor on a
      character, or at 0 on an empty value. */
  lemma NormalMotionsInBounds(e: Editor, k: Key, multiline: bool)
    requires Valid(e) && e.mode == Normal && !k.escape
    requires k.input in {"h", "l", "0", "^", "$"}
    ensures Next(e, k, multiline) == e.(cursor := Next(e, k, multiline).cursor)
    ensures Next(e, k, multiline).cursor <= Max(0, |e.value| - 1)
  {
  }

  /** Typing in insert mode puts the text at the cursor and moves one right. */
  lemma InsertTyping(e: Editor, k: Key, multiline: bool)
    requires Valid(e) && e.mode == Insert && Typed(k)
    requires !k.escape && !k.enter && !k.backspace && !k.delete
    ensures Next(e, k, multiline) ==
      e.(value := e.value[..e.cursor] + k.input + e.value[e.cursor..], cursor := e.cursor + 1, error := None)
  {
  }

  /** Backspace in insert mode does nothing at the start, and otherwise drops
      the character before the cursor and moves one left. */
  lemma InsertBackspace(e: Editor, k: Key, multiline: bool)
    requires Valid(e) && e.mode == Insert && !k.escape && !k.enter && k.backspace
    ensures e.cursor == 0 ==> Next(e, k, multiline) == e
    ensures e.cursor > 0 ==> (Next(e, k, multiline) ==
      e.(value := e.value[..e.cursor - 1] + e.value[e.cursor..], cursor := e.cursor - 1, error := None))
  {
  }

  /** `x` in normal mode removes exactly the character at the cursor and
      leaves the cursor on a character of the shorter value. */
  lemma NormalDelete(e: Editor, k: Key, multiline: bool)
    requires e.mode == Normal && k.input == "x" && !k.escape && !k.leftArrow && !k.rightArrow
    requires e.cursor < |e.value|
    ensures var n := Next(e, k, multiline);
      n.value == e.value[..e.cursor] + e.value[e.cursor + 1..] &&
      n.cursor <= Max(0, |n.value| - 1) && n.error == None &&
      n == e.(value := n.value, cursor := n.cursor, error := None)
  {
  }

  /** `x` or `d` in visual mode removes the selected range, both ends
      included, puts the cursor at its start and returns to normal mode. */
  lemma VisualDelete(e: Editor, k: Key, multiline: bool)
    requires Valid(e) && e.mode == Visual && (k.input == "x" || k.input == "d")
    requires !k.escape && !k.leftArrow && !k.rightArrow
    ensures var start := Min(e.selectStart, e.cursor);
      var end := Max(e.selectStart, e.cursor);
      Next(e, k, multiline) ==
        e.(value := e.value[..start] + (if end < |e.value| then e.value[end + 1..] else []),
           cursor := start, error := None, mode := Normal)
  {
  }

  /** Enter in command mode runs the command: `w`/`wq` submit the value,
      `q`/`q!` cancel, whatever the case and surrounding spaces, and anything
      else reports an error; the command is then cleared and the mode is
      normal. */
  lemma CommandOutcome(e: Editor, k: Key, multiline: bool)
    requires e.mode == Command && k.enter
    ensures var n := Next(e, k, multiline);
      var t := LowerAll(Trim(e.command));
      n.command == "" && n.mode == Normal &&
      n.value == e.value && n.cursor == e.cursor && n.selectStart == e.selectStart &&
      (t == "w" || t == "wq" ==> n.signals == e.signals + [Submitted(e.value)] && !n.locked && n.error == e.error) &&
      (t == "q" || t == "q!" ==> n.signals == e.signals + [Cancelled] && !n.locked && n.error == e.error) &&
      (t !in {"w", "wq", "q", "q!"} ==>
        n.signals == e.signals && n.locked == e.locked && n.error == Some("Unknown command: " + e.command))
  {
  }

  /** `:wq` typed from normal mode submits the value, however it is padded
      or capitalised. */
  lemma TypedCommandSubmits(e: Editor, cmd: string, multiline: bool)
    requires LowerAll(Trim(cmd)) == "wq"
    ensures Next(e.(mode := Command, command := cmd), Enter, multiline).signals == e.signals + [Submitted(e.value)]
  {
  }

  // ------------------------------------------------------ the missing lock

  /** The members of the value the navigation provider hands its consumers,
      by name. */
  const ProviderMembers: set<string> := {
    "focusedSection", "currentView", "isViewFocused", "isClientFocused", "isProjectsFocused",
    "isTasksFocused", "mode", "setMode", "registerKeyHandler", "unregisterKeyHandler",
    "getBorderTitle", "clients", "selectedClientId", "getSelectedClient", "selectNextClient",
    "selectPreviousClient", "setSelectedClientId", "reloadClients", "projects", "selectedProjectId",
    "getSelectedProject", "selectNextProject", "selectPreviousProject", "setSelectedProjectId",
    "reloadProjects", "selectedTaskId", "setSelectedTaskId", "reload", "setReload"}

  const LockError := "TypeError: setInputLocked is not a function"

  /** `setInputLocked(b)` on the member destructured from the context: a
      member the context lacks reads as `undefined`, and calling it throws. */
  function CallLock(members: set<string>): (r: Result<(), string>)
    ensures r.Ok? <==> "setInputLocked" in members
    ensures r.Err? ==> r.error == LockError
  {
    if "setInputLocked" in members then Ok(()) else Err(LockError)
  }

  /** The mount effect as written: lock, then reset the value and cursor. */
  function MountAsWritten(members: set<string>, defaultValue: string): (r: Result<Editor, string>)
    ensures r.Ok? <==> "setInputLocked" in members
    ensures r.Ok? ==> r.value == Initial(defaultValue)
    ensures r.Err? ==> r.error == LockError
  {
    match CallLock(members)
    case Err(m) => Err(m)
    case Ok(_) => Ok(Initial(defaultValue))
  }

  /** `submit()` as written: the unlock runs first, so a throw there means
      `onSubmit` is never called. */
  function SubmitAsWritten(members: set<string>, e: Editor): (r: Result<Editor, string>)
    ensures r.Ok? <==> "setInputLocked" in members
    ensures r.Ok? ==> r.value == AfterSubmit(e)
    ensures r.Err? ==> r.error == LockError
  {
    match CallLock(members)
    case Err(m) => Err(m)
    case Ok(_) => Ok(AfterSubmit(e))
  }

  /** `cancel()` as written: `onCancel` is never reached when the unlock throws. */
  function CancelAsWritten(members: set<string>, e: Editor): (r: Result<Editor, string>)
    ensures r.Ok? <==> "setInputLocked" in members
    ensures r.Ok? ==> r.value == AfterCancel(e)
    ensures r.Err? ==> r.error == LockError
  {
    match CallLock(members)
    case Err(m) => Err(m)
    case Ok(_) => Ok(AfterCancel(e))
  }

  /** `executeCommand(cmd)` as written: a throw from `submit` or `cancel`
      skips the clearing of the command and the return to normal mode. */
  function ExecuteAsWritten(members: set<string>, e: Editor, cmd: string): (r: Result<Editor, string>)
    ensures "setInputLocked" in members ==> r == Ok(Execute(e, cmd))
    ensures r.Err? <==> "setInputLocked" !in members && LowerAll(Trim(cmd)) in {"w", "wq", "q", "q!"}
  {
    var trimmed := LowerAll(Trim(cmd));
    var done :=
      if trimmed == "w" || trimmed == "wq" then SubmitAsWritten(members, e)
      else if trimmed == "q" || trimmed == "q!" then CancelAsWritten(members, e)
      else Ok(e.(error := Some("Unknown command: " + cmd)));
    match done
    case Err(m) => Err(m)
    case Ok(d) => Ok(d.(command := "", mode := Normal))
  }

  /** One keystroke as written: the three places that call `submit` or
      `cancel` go through the context's lock; every other key is `Next`. */
  function NextAsWritten(members: set<string>, e: Editor, k: Key, multiline: bool): Result<Editor, string> {
    match e.mode
    case Command => if k.enter then ExecuteAsWritten(members, e, e.command) else Ok(CommandKey(e, k))
    case Normal => if k.escape then CancelAsWritten(members, e) else Ok(NormalKey(e, k))
    case Insert =>
      if !k.escape && k.enter && !multiline then SubmitAsWritten(members, e) else Ok(InsertKey(e, k, multiline))
    case Replace => Ok(ReplaceKey(e, k))
    case Visual => Ok(VisualKey(e, k))
  }

  /** With a context that supplies the lock, the code as written is `Next`;
      without one, exactly the keystrokes that would submit or cancel throw,
      so no signal ever reaches `onSubmit` or `onCancel`. */
  lemma NextAsWrittenSpec(members: set<string>, e: Editor, k: Key, multiline: bool)
    ensures "setInputLocked" in members ==> NextAsWritten(members, e, k, multiline) == Ok(Next(e, k, multiline))
    ensures "setInputLocked" !in members ==>
      (NextAsWritten(members, e, k, multiline).Err? <==> Next(e, k, multiline).signals != e.signals)
    ensures NextAsWritten(members, e, k, multiline).Ok? ==>
      NextAsWritten(members, e, k, multiline).value == Next(e, k, multiline)
  {
    var n := Next(e, k, multiline);
    match e.mode
    case Command =>
      if k.enter {
        var t := LowerAll(Trim(e.command));
        assert n == Execute(e, e.command);
        if t in {"w", "wq", "q", "q!"} {
          assert |n.signals| == |e.signals| + 1;
        } else {
          assert n.signals == e.signals;
        }
      }
    case Normal =>
      if k.escape {
        assert |n.signals| == |e.signals| + 1;
      } else {
        assert n.signals == e.signals by { NormalKeySilent(e, k); }
      }
    case Insert =>
      if !k.escape && k.enter && !multiline {
        assert |n.signals| == |e.signals| + 1;
      }
    case Replace =>
    case Visual =>
  }

  /** A normal-mode key other than Escape emits no signal. */
  lemma NormalKeySilent(e: Editor, k: Key)
    requires !k.escape
    ensures NormalKey(e, k).signals == e.signals
  {
  }

  /** The provider's value has no `setInputLocked`, so as written the editor
      throws as soon as it mounts, and `:wq` throws instead of submitting. */
  lemma ProviderLacksLock(e: Editor, cmd: string, defaultValue: string, multiline: bool)
    requires LowerAll(Trim(cmd)) == "wq"
    ensures MountAsWritten(ProviderMembers, defaultValue) == Err(LockError)
    ensures NextAsWritten(ProviderMembers, e.(mode := Command, command := cmd), Enter, multiline) == Err(LockError)
  {
    assert "setInputLocked" !in ProviderMembers;
  }

  // ------------------------------------------------------------------ state

  /** The component's state, updated in place by each keystroke. */
  class VimTextInput {
    var value: string
    var cursor: nat
    var mode: Mode
    var command: string
    var selectStart: nat
    var error: Option<string>
    var locked: bool
    var signals: seq<Signal>
    const multiline: bool

    function State(): Editor
      reads this
    {
      Editor(value, cursor, mode, command, selectStart, error, locked, signals)
    }

    constructor (defaultValue: string, multiline: bool)
      ensures State() == Initial(defaultValue) && this.multiline == multiline
    {
      value, cursor, mode, command, selectStart := defaultValue, 0, Normal, "", 0;
      error, locked, signals := None, true, [];
      this.multiline := multiline;
    }

    method Submit()
      modifies this
      ensures State() == AfterSubmit(old(State()))
    {
      locked := false;
      signals := signals + [Submitted(value)];
    }

    method Cancel()
      modifies this
      ensures State() == AfterCancel(old(State()))
    {
      locked := false;
      signals := signals + [Cancelled];
    }

    method ExecuteCommand(cmd: string)
      modifies this
      ensures State() == Execute(old(State()), cmd)
    {
      var trimmed := LowerAll(Trim(cmd));
      if trimmed == "w" || trimmed == "wq" {
        Submit();
      } else if trimmed == "q" || trimmed == "q!" {
        Cancel();
      } else {
        error := Some("Unknown command: " + cmd);
      }
      command := "";
      mode := Normal;
    }

    /** The motion a key asks for, if any, with the word motions run as
        loops. */
    method MoveCursor(k: Key) returns (moved: bool)
      modifies this
      ensures moved == Motion(old(State()), k).Some?
      ensures State() == if moved then old(State()).(cursor := Motion(old(State()), k).value) else old(State())
    {
      moved := true;
      if k.input == "h" || k.leftArrow {
        cursor := Max(0, cursor - 1);
      } else if k.input == "l" || k.rightArrow {
        cursor := Min(Max(0, |value| - 1), cursor + 1);
      } else if k.input == "0" || k.input == "^" {
        cursor := 0;
      } else if k.input == "$" {
        cursor := Max(0, |value| - 1);
      } else if k.input == "w" {
        cursor := FindNextWord(value, cursor);
      } else if k.input == "b" {
        cursor := FindPrevWord(value, cursor);
      } else {
        moved := false;
      }
    }

    method CommandInput(k: Key)
      requires mode == Command
      modifies this
      ensures State() == CommandKey(old(State()), k)
    {
      if k.enter {
        ExecuteCommand(command);
      } else if k.escape {
        command := "";
        mode := Normal;
      } else if k.backspace || k.delete {
        if |command| > 0 {
          command := Slice(command, 0, -1);
        } else {
          mode := Normal;
        }
      } else if Typed(k) {
        command := command + k.input;
      }
    }

    method NormalInput(k: Key)
      requires mode == Normal
      modifies this
      ensures State() == NormalKey(old(State()), k)
    {
      if k.escape {
        Cancel();
        return;
      }
      if k.input == ":" {
        mode := Command;
        command := "";
        return;
      }
      var moved := MoveCursor(k);
      if moved {
        return;
      }
      EditInput(k);
    }

    /** The edits and mode switches of normal mode. */
    method EditInput(k: Key)
      modifies this
      ensures State() == EditKey(old(State()), k)
    {
      if k.input == "x" {
        if |value| > 0 && cursor < |value| {
          var c, len := cursor, |value|;
          value := Slice(value, 0, c) + SliceFrom(value, c + 1);
          if c >= len - 1 && c > 0 {
            cursor := c - 1;
          }
          error := None;
        }
      } else if k.backspace || k.delete {
        cursor := Max(0, cursor - 1);
      } else if k.input == "v" {
        selectStart := cursor;
        mode := Visual;
      } else if k.input == "r" {
        mode := Replace;
      } else if k.input == "i" {
        mode := Insert;
      } else if k.input == "a" {
        cursor := Min(|value|, cursor + 1);
        mode := Insert;
      } else if k.input == "I" {
        cursor := 0;
        mode := Insert;
      } else if k.input == "A" {
        cursor := |value|;
        mode := Insert;
      }
    }

    method InsertInput(k: Key)
      requires mode == Insert
      modifies this
      ensures State() == InsertKey(old(State()), k, multiline)
    {
      var c := cursor;
      if k.escape {
        mode := Normal;
        cursor := Max(0, cursor - 1);
      } else if k.enter {
        if multiline {
          value := Slice(value, 0, c) + "\n" + SliceFrom(value, c);
          cursor := c + 1;
        } else {
          Submit();
        }
      } else if k.backspace || k.delete {
        if c > 0 {
          value := Slice(value, 0, c - 1) + SliceFrom(value, c);
          cursor := c - 1;
          error := None;
        }
      } else if Typed(k) {
        value := Slice(value, 0, c) + k.input + SliceFrom(value, c);
        cursor := c + 1;
        error := None;
      }
    }

    method ReplaceInput(k: Key)
      requires mode == Replace
      modifies this
      ensures State() == ReplaceKey(old(State()), k)
    {
      if k.escape {
        mode := Normal;
      } else if Typed(k) {
        if cursor < |value| {
          value := Slice(value, 0, cursor) + k.input + SliceFrom(value, cursor + 1);
        } else {
          value := value + k.input;
        }
        error := None;
        mode := Normal;
      }
    }

    method VisualInput(k: Key)
      requires mode == Visual
      modifies this
      ensures State() == VisualKey(old(State()), k)
    {
      if k.escape {
        mode := Normal;
        return;
      }
      var moved := MoveCursor(k);
      if moved {
        return;
      }
      SelectionInput(k);
    }

    /** `x` or `d` on a selection. */
    method SelectionInput(k: Key)
      modifies this
      ensures State() == SelectionKey(old(State()), k)
    {
      if k.input == "x" || k.input == "d" {
        var start := Min(selectStart, cursor);
        var end := Max(selectStart, cursor);
        value := Slice(value, 0, start) + SliceFrom(value, end + 1);
        cursor := start;
        error := None;
        mode := Normal;
      }
    }

    /** The `useInput` handler: one keystroke, dispatched on the mode. */
    method HandleKey(k: Key)
      modifies this
      ensures State() == Next(old(State()), k, multiline)
      ensures Valid(old(State())) ==> Valid(State())
    {
      if Valid(State()) {
        NextPreservesValid(State(), k, multiline);
      }
      match mode
      case Command => CommandInput(k);
      case Normal => NormalInput(k);
      case Insert => InsertInput(k);
      case Replace => ReplaceInput(k);
      case Visual => VisualInput(k);
    }
  }
}

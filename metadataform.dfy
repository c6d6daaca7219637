/** `MetadataEditingForm`: a four-field form (epic, category, exploration,
    scope) for a task's metadata. The epic is typed as text; category and
    scope are toggled by one-letter shortcuts; exploration is a yes/no flag. */
module MetadataForm {
  import opened Wrappers
  import opened JsString
  import opened Ink

  const Categories: seq<string> := ["integration", "feature", "ui", "fix", "refactor", "config"]
  const CategoryShortcuts: map<string, string> :=
    map["i" := "integration", "f" := "feature", "u" := "ui", "x" := "fix", "r" := "refactor", "c" := "config"]
  const Scopes: seq<string> := ["small", "medium", "large"]
  const ScopeShortcuts: map<string, string> := map["s" := "small", "m" := "medium", "l" := "large"]

  /** `FIELDS`, indexed by `currentField`. */
  const Fields: seq<string> := ["epic", "category", "exploration", "scope"]
  const EpicField := 0
  const CategoryField := 1
  const ExplorationField := 2
  const ScopeField := 3

  /** `table[input.toLowerCase()]` for a key the table itself defines. */
  function Shortcut(table: map<string, string>, input: string): (r: Option<string>)
    ensures r.Some? <==> LowerAll(input) in table
    ensures r.Some? ==> r.value == table[LowerAll(input)]
  {
    var k := LowerAll(input);
    if k in table then Some(table[k]) else None
  }

  /** Every category shortcut names one of the categories, and likewise for
      scopes. */
  lemma ShortcutsNameChoices(input: string)
    ensures Shortcut(CategoryShortcuts, input).Some? ==> Shortcut(CategoryShortcuts, input).value in Categories
    ensures Shortcut(ScopeShortcuts, input).Some? ==> Shortcut(ScopeShortcuts, input).value in Scopes
  {
  }

  /** Shortcuts ignore case: "F" selects the feature category like "f". */
  lemma ShortcutIgnoresCase(input: string)
    ensures Shortcut(CategoryShortcuts, input) == Shortcut(CategoryShortcuts, LowerAll(input))
    ensures Shortcut(ScopeShortcuts, input) == Shortcut(ScopeShortcuts, LowerAll(input))
  {
    LowerAllIdempotent(input);
  }

  /** What a shortcut key does to the selected value: a second press of the
      same shortcut clears the selection, and Backspace or Delete clears it. */
  function ChoiceKey(table: map<string, string>, current: string, k: Key): (r: string)
    ensures Shortcut(table, k.input) == Some(current) ==> r == ""
    ensures Shortcut(table, k.input).Some? && current != Shortcut(table, k.input).value ==> r == Shortcut(table, k.input).value
    ensures Shortcut(table, k.input).None? && (k.backspace || k.delete) ==> r == ""
    ensures Shortcut(table, k.input).None? && !k.backspace && !k.delete ==> r == current
  {
    match Shortcut(table, k.input)
    case Some(choice) => if current == choice then "" else choice
    case None => if k.backspace || k.delete then "" else current
  }

  /** Pressing the same shortcut twice selects it if it was selected, and
      clears the selection otherwise. */
  lemma ShortcutTwice(table: map<string, string>, current: string, k: Key)
    requires LowerAll(k.input) in table
    ensures var c := table[LowerAll(k.input)];
      ChoiceKey(table, ChoiceKey(table, current, k), k) == if current == c then c else ""
  {
  }

  /** A selection stays one of the table's values or empty. */
  lemma ChoiceKeyInRange(table: map<string, string>, choices: seq<string>, current: string, k: Key)
    requires forall key :: key in table ==> table[key] in choices
    requires current in choices || current == ""
    ensures var r := ChoiceKey(table, current, k); r in choices || r == ""
  {
  }

  // ---------------------------------------------------------------------
  // The category lookup as the source writes it.

  /** The names `Object.prototype` defines; a plain object literal inherits
      them, so indexing one with such a name finds a value. */
  const ObjectPrototypeKeys: set<string> :=
    {"constructor", "__proto__", "hasOwnProperty", "isPrototypeOf", "propertyIsEnumerable",
     "toString", "toLocaleString", "valueOf",
     "__defineGetter__", "__defineSetter__", "__lookupGetter__", "__lookupSetter__"}

  /** The result of indexing an object literal: its own string property, an
      inherited member (a function or an object, hence truthy), or nothing. */
  datatype Lookup = Own(value: string) | Inherited(name: string) | Absent

  /** `CATEGORY_SHORTCUTS[input?.toLowerCase()]` with JavaScript's property
      lookup, prototype chain included. */
  function ShortcutAsWritten(table: map<string, string>, input: string): (r: Lookup)
    ensures r.Absent? <==> LowerAll(input) !in table && LowerAll(input) !in ObjectPrototypeKeys
  {
    var k := LowerAll(input);
    if k in table then Own(table[k])
    else if k in ObjectPrototypeKeys then Inherited(k)
    else Absent
  }

  /** A category value of the source's form state: a string, or the
      prototype member a lookup returned. */
  datatype Selection = Chosen(s: string) | Member(name: string)

  /** The category branch of the input handler as written: any truthy lookup
      result is toggled into the selection. */
  function ChoiceKeyAsWritten(table: map<string, string>, current: Selection, k: Key): (r: Selection)
    ensures ShortcutAsWritten(table, k.input).Absent? && !k.backspace && !k.delete ==> r == current
  {
    match ShortcutAsWritten(table, k.input)
    case Own(choice) => if current == Chosen(choice) then Chosen("") else Chosen(choice)
    case Inherited(name) => if current == Member(name) then Chosen("") else Member(name)
    case Absent => if k.backspace || k.delete then Chosen("") else current
  }

  /** Pasting "constructor" into the category field selects
      `Object.prototype.constructor`, which is not a category, and that is
      what the form then submits as the category. */
  lemma ConstructorIsSelected()
    ensures ChoiceKeyAsWritten(CategoryShortcuts, Chosen(""), Char("constructor")) == Member("constructor")
  {
    var k := "constructor";
    assert LowerAll(k) == k by {
      LowerAllIdentity(k);
    }
    assert k !in CategoryShortcuts;
  }

  /** Away from the prototype's names the written lookup and the own-key
      lookup agree. */
  lemma AsWrittenAgrees(table: map<string, string>, current: string, k: Key)
    requires LowerAll(k.input) !in ObjectPrototypeKeys
    ensures ChoiceKeyAsWritten(table, Chosen(current), k) == Chosen(ChoiceKey(table, current, k))
  {
  }

  // ---------------------------------------------------------------------
  // The form.

  /** The `defaultValues` prop; a missing or null value is `None`. */
  datatype Defaults = Defaults(epic: Option<string>, category: Option<string>, isExploration: bool, scope: Option<string>)

  /** The object passed to `onSubmit`: empty strings become `null`. */
  datatype Metadata = Metadata(epic: Option<string>, category: Option<string>, isExploration: bool, scope: Option<string>)

  datatype Signal = Submitted(metadata: Metadata) | Cancelled

  /** The form's state: the field index, `values`, the epic's `textInput`,
      whether the navigation mode is insert, and the callbacks made so far. */
  datatype Form = Form(currentField: nat, epic: string, category: string, isExploration: bool,
                       scope: string, textInput: string, insertMode: bool, signals: seq<Signal>)

  /** `x || ''`. */
  function OrEmpty(o: Option<string>): (r: string)
    ensures o.Some? ==> r == o.value
    ensures o.None? ==> r == ""
  {
    match o
    case Some(s) => s
    case None => ""
  }

  /** `x || null` for a string. */
  function OrNull(s: string): (r: Option<string>)
    ensures r.None? <==> s == ""
    ensures r.Some? ==> r.value == s
  {
    if s == "" then None else Some(s)
  }

  /** `OrNull` undoes `OrEmpty`, except that an empty default is null. */
  lemma OrNullOrEmpty(o: Option<string>)
    ensures OrNull(OrEmpty(o)) == if o == Some("") then None else o
  {
  }

  /** The state after the first render and the mount effect, which switches
      the navigation to insert mode. */
  function Initial(d: Defaults): (r: Form)
    ensures r.currentField == EpicField && r.insertMode && r.signals == []
    ensures r.textInput == r.epic == OrEmpty(d.epic)
    ensures r.category == OrEmpty(d.category) && r.scope == OrEmpty(d.scope)
    ensures r.isExploration == d.isExploration
  {
    Form(EpicField, OrEmpty(d.epic), OrEmpty(d.category), d.isExploration, OrEmpty(d.scope),
         OrEmpty(d.epic), true, [])
  }

  /** The fields' values as `handleSubmitAll` reports them. */
  function MetadataOf(f: Form): (r: Metadata)
    ensures r.epic.None? <==> f.epic == ""
    ensures r.category.None? <==> f.category == ""
    ensures r.scope.None? <==> f.scope == ""
    ensures r.isExploration == f.isExploration
  {
    Metadata(OrNull(f.epic), OrNull(f.category), f.isExploration, OrNull(f.scope))
  }

  /** `handleSubmitAll`. */
  function AfterSubmitAll(f: Form): Form {
    f.(signals := f.signals + [Submitted(MetadataOf(f))], insertMode := false)
  }

  /** `nextField`: the text input is loaded when entering the category or
      scope field; past the last field the form is submitted. */
  function AfterNextField(f: Form): Form {
    if f.currentField < |Fields| - 1 then
      var next := f.currentField + 1;
      f.(currentField := next,
         textInput := if next == CategoryField then f.category
                      else if next == ScopeField then f.scope
                      else f.textInput)
    else AfterSubmitAll(f)
  }

  /** `prevField`: the text input is reloaded when returning to the epic. */
  function AfterPrevField(f: Form): Form {
    if f.currentField > 0 then
      var prev := f.currentField - 1;
      f.(currentField := prev, textInput := if prev == EpicField then f.epic else f.textInput)
    else f
  }

  /** `{...v, epic: textInput}`. */
  function SaveEpic(f: Form): Form {
    f.(epic := f.textInput)
  }

  /** The exploration field: y, Y or space toggles the flag, n or N clears it. */
  function ExplorationKey(current: bool, k: Key): (r: bool)
    ensures k.input in {"y", "Y", " "} ==> r == !current
    ensures k.input in {"n", "N"} ==> !r
    ensures k.input !in {"y", "Y", " ", "n", "N"} ==> r == current
  {
    var toggled := if k.input in {"y", "Y", " "} then !current else current;
    if k.input in {"n", "N"} then false else toggled
  }

  /** One keystroke through the input handler. */
  function Step(f: Form, k: Key): Form {
    if k.escape then
      f.(signals := f.signals + [Cancelled], insertMode := false)
    else if k.tab then
      var saved := if f.currentField == EpicField then SaveEpic(f) else f;
      if k.shift then AfterPrevField(saved) else AfterNextField(saved)
    else if f.currentField == EpicField then
      if k.enter then AfterNextField(SaveEpic(f))
      else if k.backspace || k.delete then f.(textInput := Slice(f.textInput, 0, -1))
      else if Typed(k) then f.(textInput := f.textInput + k.input)
      else f
    else if f.currentField == CategoryField then
      if k.enter then AfterNextField(f)
      else f.(category := ChoiceKey(CategoryShortcuts, f.category, k))
    else if f.currentField == ExplorationField then
      if k.enter then AfterNextField(f)
      else f.(isExploration := ExplorationKey(f.isExploration, k))
    else if f.currentField == ScopeField then
      if k.enter then AfterSubmitAll(f)
      else f.(scope := ChoiceKey(ScopeShortcuts, f.scope, k))
    else f
  }

  /** The form's invariant: the field index names a field, and category and
      scope are each one of their choices or empty. */
  predicate Valid(f: Form) {
    f.currentField < |Fields| && CategoryOk(f.category) && ScopeOk(f.scope)
  }

  predicate CategoryOk(c: string) {
    c in Categories || c == ""
  }

  predicate ScopeOk(c: string) {
    c in Scopes || c == ""
  }

  /** Defaults within the choices give a valid form. */
  lemma InitialValid(d: Defaults)
    requires d.category.None? || d.category.value in Categories || d.category.value == ""
    requires d.scope.None? || d.scope.value in Scopes || d.scope.value == ""
    ensures Valid(Initial(d))
  {
  }

  lemma StepPreservesValid(f: Form, k: Key)
    requires Valid(f)
    ensures Valid(Step(f, k))
  {
    if k.escape || k.tab || k.enter {
    } else if f.currentField == CategoryField {
      ChoiceKeyInRange(CategoryShortcuts, Categories, f.category, k);
    } else if f.currentField == ScopeField {
      ChoiceKeyInRange(ScopeShortcuts, Scopes, f.scope, k);
    }
  }

  /** Escape reports a cancel, returns the navigation to normal mode and
      changes nothing else. */
  lemma EscapeCancels(f: Form, k: Key)
    requires k.escape
    ensures Step(f, k) == f.(signals := f.signals + [Cancelled], insertMode := false)
  {
  }

  /** Tab and Enter move to the next field, keeping the epic typed so far;
      on the scope field they submit. */
  lemma ForwardKeys(f: Form, k: Key)
    requires Valid(f) && !k.escape && ((k.tab && !k.shift) || (k.enter && !k.tab))
    ensures f.currentField < ScopeField ==> Step(f, k).currentField == f.currentField + 1 && Step(f, k).signals == f.signals
    ensures f.currentField == EpicField ==> Step(f, k).epic == f.textInput && Step(f, k).textInput == f.category
    ensures f.currentField == ExplorationField ==> Step(f, k).textInput == f.scope
    ensures f.currentField == ScopeField ==> Step(f, k) == AfterSubmitAll(f)
  {
  }

  /** Shift+Tab moves back one field but never before the first, and the
      epic's text is restored on returning to it. */
  lemma BackKey(f: Form, k: Key)
    requires Valid(f) && !k.escape && k.tab && k.shift
    ensures Step(f, k).currentField == if f.currentField == 0 then 0 else f.currentField - 1
    ensures Step(f, k).signals == f.signals
    ensures f.currentField == CategoryField ==> Step(f, k).textInput == f.epic
  {
  }

  /** Typing in the epic field only edits the text input; the epic itself
      changes only when the field is left. */
  lemma EpicEditing(f: Form, k: Key)
    requires f.currentField == EpicField && !k.escape && !k.tab && !k.enter
    ensures (k.backspace || k.delete) ==> Step(f, k) == f.(textInput := Slice(f.textInput, 0, -1))
    ensures !k.backspace && !k.delete && Typed(k) ==> Step(f, k) == f.(textInput := f.textInput + k.input)
    ensures Step(f, k).epic == f.epic
  {
  }

  /** On the exploration field a key changes only the flag. */
  lemma ExplorationOnly(f: Form, k: Key)
    requires f.currentField == ExplorationField && !k.escape && !k.tab && !k.enter
    ensures Step(f, k) == f.(isExploration := ExplorationKey(f.isExploration, k))
  {
  }

  /** A submission reports the fields with empty strings as null and moves
      the navigation back to normal mode. */
  lemma SubmitReports(f: Form)
    ensures AfterSubmitAll(f).signals[|f.signals|] == Submitted(MetadataOf(f))
    ensures var m := AfterSubmitAll(f).signals[|f.signals|].metadata;
      m.epic == OrNull(f.epic) && m.category == OrNull(f.category) &&
      m.scope == OrNull(f.scope) && m.isExploration == f.isExploration
    ensures !AfterSubmitAll(f).insertMode
  {
  }

  /** The component's state held in place; each keystroke runs the handler. */
  class MetadataEditingForm {
    var currentField: nat
    var epic: string
    var category: string
    var isExploration: bool
    var scope: string
    var textInput: string
    var insertMode: bool
    var signals: seq<Signal>

    function State(): Form
      reads this
    {
      Form(currentField, epic, category, isExploration, scope, textInput, insertMode, signals)
    }

    constructor (d: Defaults)
      ensures State() == Initial(d)
    {
      currentField := EpicField;
      epic := OrEmpty(d.epic);
      category := OrEmpty(d.category);
      isExploration := d.isExploration;
      scope := OrEmpty(d.scope);
      textInput := OrEmpty(d.epic);
      insertMode := true;
      signals := [];
    }

    method SubmitAll()
      modifies this
      ensures State() == AfterSubmitAll(old(State()))
    {
      signals := signals + [Submitted(MetadataOf(State()))];
      insertMode := false;
    }

    method NextField()
      modifies this
      ensures State() == AfterNextField(old(State()))
    {
      if currentField < |Fields| - 1 {
        currentField := currentField + 1;
        if currentField == CategoryField {
          textInput := category;
        } else if currentField == ScopeField {
          textInput := scope;
        }
      } else {
        SubmitAll();
      }
    }

    method PrevField()
      modifies this
      ensures State() == AfterPrevField(old(State()))
    {
      if currentField > 0 {
        currentField := currentField - 1;
        if currentField == EpicField {
          textInput := epic;
        }
      }
    }

    method HandleKey(k: Key)
      modifies this
      ensures State() == Step(old(State()), k)
      ensures Valid(old(State())) ==> Valid(State())
    {
      if Valid(State()) {
        StepPreservesValid(State(), k);
      }
      if k.escape {
        signals := signals + [Cancelled];
        insertMode := false;
        return;
      }
      if k.tab {
        if currentField == EpicField {
          epic := textInput;
        }
        if k.shift {
          PrevField();
        } else {
          NextField();
        }
        return;
      }
      FieldInput(k);
    }

    /** The per-field part of the handler, for a key other than Escape and
        Tab. */
    method FieldInput(k: Key)
      requires !k.escape && !k.tab
      modifies this
      ensures State() == Step(old(State()), k)
    {
      if currentField == EpicField {
        if k.enter {
          epic := textInput;
          NextField();
        } else if k.backspace || k.delete {
          textInput := Slice(textInput, 0, -1);
        } else if Typed(k) {
          textInput := textInput + k.input;
        }
      } else if currentField == CategoryField {
        if k.enter {
          NextField();
        } else {
          category := ChoiceKey(CategoryShortcuts, category, k);
        }
      } else if currentField == ExplorationField {
        if k.enter {
          NextField();
        } else {
          isExploration := ExplorationKey(isExploration, k);
        }
      } else if currentField == ScopeField {
        if k.enter {
          SubmitAll();
        } else {
          scope := ChoiceKey(ScopeShortcuts, scope, k);
        }
      }
    }
  }
}

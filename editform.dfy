/** `EditForm`: a generic form over a list of named fields, each with its own
    text buffer; Tab and Enter walk through the fields and submit after the
    last one. */
module EditForms {
  import opened JsValue
  import opened JsString
  import opened Ink

  /** One entry of the `fields` prop; `caption` is its `label`. */
  datatype Field = Field(name: string, caption: string, defaultValue: Value)

  /** The object passed to `onSubmit`, or a cancel. */
  datatype Signal = Submitted(result: map<string, string>) | Cancelled

  /** The component's state: the field index, `values`, `textInputs`,
      whether the navigation mode is insert, and the callbacks made so far. */
  datatype Buffers = Buffers(currentField: nat, values: map<string, Value>, texts: map<string, string>,
                             insertMode: bool, signals: seq<Signal>)

  /** The names of the fields. */
  function Names(fields: seq<Field>): set<string> {
    set i | 0 <= i < |fields| :: fields[i].name
  }

  lemma NamesSnoc(fields: seq<Field>, f: Field)
    ensures Names(fields + [f]) == Names(fields) + {f.name}
  {
    var all := fields + [f];
    assert forall i :: 0 <= i < |fields| ==> all[i] == fields[i];
    assert all[|fields|] == f;
  }

  /** Field `i` is the last one carrying its name, so its entry survives the
      object spread. */
  predicate LastWithName(fields: seq<Field>, i: int)
    requires 0 <= i < |fields|
  {
    forall j :: i < j < |fields| ==> fields[j].name != fields[i].name
  }

  /** `String(defaultValue ?? '')`. */
  function InitialText(f: Field): (r: string)
    ensures f.defaultValue.Undefined? || f.defaultValue.Null? ==> r == ""
    ensures f.defaultValue.Str? ==> r == f.defaultValue.s
  {
    ToStr(Nullish(f.defaultValue, Str("")))
  }

  /** `fields.reduce((acc, f) => ({...acc, [f.name]: String(f.defaultValue ?? '')}), {})`. */
  function InitialTexts(fields: seq<Field>): (r: map<string, string>)
    ensures r.Keys == Names(fields)
    ensures forall i :: 0 <= i < |fields| && LastWithName(fields, i) ==> r[fields[i].name] == InitialText(fields[i])
  {
    if fields == [] then map[]
    else
      var init := fields[..|fields| - 1];
      var f := fields[|fields| - 1];
      assert fields == init + [f];
      NamesSnoc(init, f);
      assert forall i :: 0 <= i < |init| && LastWithName(fields, i) ==> LastWithName(init, i) && fields[i] == init[i];
      InitialTexts(init)[f.name := InitialText(f)]
  }

  /** `fields.reduce((acc, f) => ({...acc, [f.name]: f.defaultValue ?? ''}), {})`. */
  function InitialValues(fields: seq<Field>): (r: map<string, Value>)
    ensures r.Keys == Names(fields)
    ensures forall i :: 0 <= i < |fields| && LastWithName(fields, i) ==> r[fields[i].name] == Nullish(fields[i].defaultValue, Str(""))
  {
    if fields == [] then map[]
    else
      var init := fields[..|fields| - 1];
      var f := fields[|fields| - 1];
      assert fields == init + [f];
      NamesSnoc(init, f);
      assert forall i :: 0 <= i < |init| && LastWithName(fields, i) ==> LastWithName(init, i) && fields[i] == init[i];
      InitialValues(init)[f.name := Nullish(f.defaultValue, Str(""))]
  }

  /** The `result` object `handleSubmitAll` builds: one key per field name,
      holding that field's text. */
  function SubmitResult(fields: seq<Field>, texts: map<string, string>): (r: map<string, string>)
    requires Names(fields) <= texts.Keys
    ensures r.Keys == Names(fields)
    ensures forall n :: n in r ==> r[n] == texts[n]
  {
    if fields == [] then map[]
    else
      var init := fields[..|fields| - 1];
      var f := fields[|fields| - 1];
      assert fields == init + [f];
      NamesSnoc(init, f);
      SubmitResult(init, texts)[f.name := texts[f.name]]
  }

  /** One more field of a prefix adds its own entry. */
  lemma SubmitResultStep(fields: seq<Field>, i: nat, texts: map<string, string>)
    requires i < |fields| && Names(fields) <= texts.Keys
    ensures Names(fields[..i + 1]) <= texts.Keys
    ensures SubmitResult(fields[..i + 1], texts) == SubmitResult(fields[..i], texts)[fields[i].name := texts[fields[i].name]]
  {
    var init, f := fields[..i], fields[i];
    assert fields[..i + 1] == init + [f];
    assert fields[..i + 1][..i] == init;
    NamesSnoc(init, f);
    assert Names(fields[..i + 1]) <= Names(fields) by {
      forall n | n in Names(fields[..i + 1]) ensures n in Names(fields) {
        var j :| 0 <= j < i + 1 && fields[..i + 1][j].name == n;
        assert fields[j].name == n;
      }
    }
  }

  /** The state the form is in: the index names a field and every field has
      a text buffer. */
  predicate Valid(fields: seq<Field>, s: Buffers) {
    s.currentField < |fields| && Names(fields) <= s.texts.Keys
  }

  /** The state after the first render and the mount effect, which switches
      the navigation to insert mode. */
  function Initial(fields: seq<Field>): (r: Buffers)
    ensures r.currentField == 0 && r.insertMode && r.signals == []
    ensures r.texts == InitialTexts(fields) && r.values == InitialValues(fields)
  {
    Buffers(0, InitialValues(fields), InitialTexts(fields), true, [])
  }

  /** A rendered form has at least one field, since `fields[currentField]` is
      read on every render. */
  lemma InitialValid(fields: seq<Field>)
    requires |fields| > 0
    ensures Valid(fields, Initial(fields))
  {
  }

  /** `currentName`. */
  function CurrentName(fields: seq<Field>, s: Buffers): string
    requires s.currentField < |fields|
  {
    fields[s.currentField].name
  }

  /** `setValues(v => ({...v, [currentName]: textInputs[currentName]}))`. */
  function SaveCurrent(fields: seq<Field>, s: Buffers): (r: Buffers)
    requires Valid(fields, s)
  {
    var name := CurrentName(fields, s);
    s.(values := s.values[name := Str(s.texts[name])])
  }

  /** `handleSubmitAll`. */
  function AfterSubmitAll(fields: seq<Field>, s: Buffers): Buffers
    requires Names(fields) <= s.texts.Keys
  {
    s.(signals := s.signals + [Submitted(SubmitResult(fields, s.texts))], insertMode := false)
  }

  /** `nextField`. */
  function AfterNextField(fields: seq<Field>, s: Buffers): Buffers
    requires Valid(fields, s)
  {
    var saved := SaveCurrent(fields, s);
    if s.currentField < |fields| - 1 then saved.(currentField := s.currentField + 1)
    else AfterSubmitAll(fields, saved)
  }

  /** `prevField`. */
  function AfterPrevField(fields: seq<Field>, s: Buffers): Buffers
    requires Valid(fields, s)
  {
    var saved := SaveCurrent(fields, s);
    if s.currentField > 0 then saved.(currentField := s.currentField - 1) else saved
  }

  /** One keystroke through the input handler. */
  function Step(fields: seq<Field>, s: Buffers, k: Key): Buffers
    requires Valid(fields, s)
  {
    var name := CurrentName(fields, s);
    if k.escape then s.(signals := s.signals + [Cancelled], insertMode := false)
    else if k.tab then (if k.shift then AfterPrevField(fields, s) else AfterNextField(fields, s))
    else if k.enter then AfterNextField(fields, s)
    else if k.backspace || k.delete then s.(texts := s.texts[name := Slice(s.texts[name], 0, -1)])
    else if Typed(k) then s.(texts := s.texts[name := s.texts[name] + k.input])
    else s
  }

  lemma StepPreservesValid(fields: seq<Field>, s: Buffers, k: Key)
    requires Valid(fields, s)
    ensures Valid(fields, Step(fields, s, k))
  {
  }

  /** A typed character goes to the current field's text and to no other. */
  lemma TypingEditsCurrentOnly(fields: seq<Field>, s: Buffers, k: Key, other: string)
    requires Valid(fields, s) && Typed(k)
    requires !k.escape && !k.tab && !k.enter && !k.backspace && !k.delete
    ensures var name := CurrentName(fields, s); var r := Step(fields, s, k);
      r.texts[name] == s.texts[name] + k.input &&
      (other != name && other in s.texts ==> other in r.texts && r.texts[other] == s.texts[other]) &&
      r.texts.Keys == s.texts.Keys && r.currentField == s.currentField && r.signals == s.signals
  {
  }

  /** Backspace or Delete drops the last character of the current field's
      text and of no other. */
  lemma BackspaceEditsCurrentOnly(fields: seq<Field>, s: Buffers, k: Key, other: string)
    requires Valid(fields, s) && (k.backspace || k.delete)
    requires !k.escape && !k.tab && !k.enter
    ensures var name := CurrentName(fields, s); var r := Step(fields, s, k);
      r.texts[name] == (if s.texts[name] == "" then "" else s.texts[name][..|s.texts[name]| - 1]) &&
      (other != name && other in s.texts ==> other in r.texts && r.texts[other] == s.texts[other]) &&
      r.texts.Keys == s.texts.Keys && r.currentField == s.currentField && r.signals == s.signals
  {
    SliceDropLast(s.texts[CurrentName(fields, s)]);
  }

  /** Tab or Enter moves to the next field, and on the last field submits
      every field's text; the text left behind is saved into `values`. */
  lemma ForwardKeys(fields: seq<Field>, s: Buffers, k: Key)
    requires Valid(fields, s) && !k.escape && ((k.tab && !k.shift) || (k.enter && !k.tab))
    ensures var r := Step(fields, s, k); var name := CurrentName(fields, s);
      r.texts == s.texts && r.values == s.values[name := Str(s.texts[name])] &&
      (s.currentField < |fields| - 1 ==> r.currentField == s.currentField + 1 && r.signals == s.signals) &&
      (s.currentField == |fields| - 1 ==>
        r.currentField == s.currentField && !r.insertMode &&
        r.signals == s.signals + [Submitted(SubmitResult(fields, s.texts))])
  {
  }

  /** Shift+Tab moves back one field, never before the first. */
  lemma BackKey(fields: seq<Field>, s: Buffers, k: Key)
    requires Valid(fields, s) && !k.escape && k.tab && k.shift
    ensures var r := Step(fields, s, k);
      r.currentField == (if s.currentField == 0 then 0 else s.currentField - 1) &&
      r.texts == s.texts && r.signals == s.signals
  {
  }

  /** Escape reports a cancel, returns the navigation to normal mode and
      changes nothing else. */
  lemma EscapeCancels(fields: seq<Field>, s: Buffers, k: Key)
    requires Valid(fields, s) && k.escape
    ensures Step(fields, s, k) == s.(signals := s.signals + [Cancelled], insertMode := false)
  {
  }

  /** The submitted result holds exactly the fields' names, each with its
      field's text. */
  lemma SubmittedResult(fields: seq<Field>, texts: map<string, string>, i: int)
    requires Names(fields) <= texts.Keys && 0 <= i < |fields|
    ensures var r := SubmitResult(fields, texts);
      fields[i].name in r && r[fields[i].name] == texts[fields[i].name] && |r.Keys| <= |fields|
  {
    NamesBound(fields);
  }

  lemma {:induction false} NamesBound(fields: seq<Field>)
    ensures |Names(fields)| <= |fields|
  {
    if fields != [] {
      var init := fields[..|fields| - 1];
      var f := fields[|fields| - 1];
      assert fields == init + [f];
      NamesSnoc(init, f);
      NamesBound(init);
    }
  }

  /** The component with its state held in place. */
  class EditForm {
    const fields: seq<Field>
    var currentField: nat
    var values: map<string, Value>
    var texts: map<string, string>
    var insertMode: bool
    var signals: seq<Signal>

    function State(): Buffers
      reads this
    {
      Buffers(currentField, values, texts, insertMode, signals)
    }

    constructor (fields: seq<Field>)
      requires |fields| > 0
      ensures this.fields == fields && State() == Initial(fields) && Valid(fields, State())
    {
      this.fields := fields;
      currentField := 0;
      values := InitialValues(fields);
      texts := InitialTexts(fields);
      insertMode := true;
      signals := [];
    }

    /** The loop of `handleSubmitAll` that copies each field's text. */
    method CollectResult() returns (result: map<string, string>)
      requires Names(fields) <= texts.Keys
      ensures result == SubmitResult(fields, texts)
    {
      result := map[];
      for i := 0 to |fields|
        invariant Names(fields[..i]) <= texts.Keys
        invariant result == SubmitResult(fields[..i], texts)
      {
        var f := fields[i];
        SubmitResultStep(fields, i, texts);
        result := result[f.name := texts[f.name]];
      }
      assert fields[..|fields|] == fields;
    }

    method SubmitAll()
      requires Names(fields) <= texts.Keys
      modifies this
      ensures State() == AfterSubmitAll(fields, old(State()))
    {
      var result := CollectResult();
      signals := signals + [Submitted(result)];
      insertMode := false;
    }

    method NextField()
      requires Valid(fields, State())
      modifies this
      ensures State() == AfterNextField(fields, old(State()))
    {
      var name := fields[currentField].name;
      values := values[name := Str(texts[name])];
      if currentField < |fields| - 1 {
        currentField := currentField + 1;
      } else {
        SubmitAll();
      }
    }

    method PrevField()
      requires Valid(fields, State())
      modifies this
      ensures State() == AfterPrevField(fields, old(State()))
    {
      var name := fields[currentField].name;
      values := values[name := Str(texts[name])];
      if currentField > 0 {
        currentField := currentField - 1;
      }
    }

    method HandleKey(k: Key)
      requires Valid(fields, State())
      modifies this
      ensures State() == Step(fields, old(State()), k)
      ensures Valid(fields, State())
    {
      StepPreservesValid(fields, State(), k);
      var name := fields[currentField].name;
      if k.escape {
        signals := signals + [Cancelled];
        insertMode := false;
      } else if k.tab {
        if k.shift {
          PrevField();
        } else {
          NextField();
        }
      } else if k.enter {
        NextField();
      } else if k.backspace || k.delete {
        texts := texts[name := Slice(texts[name], 0, -1)];
      } else if Typed(k) {
        texts := texts[name := texts[name] + k.input];
      }
    }
  }
}

/** The name rules `clientService.create` and `clientService.update` enforce
    before handing a client name to the data layer. */
module ClientService {
  import opened Wrappers
  import opened JsString

  const MaxNameLength := 50
  const EmptyName := "Client name cannot be empty"
  const LongName := "Client name cannot exceed 50 characters"

  /** `create(data)`: `!name || name.trim().length === 0`, then
      `name.length > 50`; a missing name is `None`. The result is the name
      handed to the client model, or the message of the error thrown. */
  function ValidateName(name: Option<string>): (r: Result<string, string>)
    ensures name.None? ==> r == Err(EmptyName)
    ensures name.Some? && AllWhitespace(name.value) ==> r == Err(EmptyName)
    ensures name.Some? && !AllWhitespace(name.value) && |name.value| > MaxNameLength ==> r == Err(LongName)
    ensures r.Ok? <==> name.Some? && !AllWhitespace(name.value) && |name.value| <= MaxNameLength
    ensures r.Ok? ==> r.value == name.value
  {
    match name
    case None => Err(EmptyName)
    case Some(n) =>
      if n == "" || |Trim(n)| == 0 then Err(EmptyName)
      else if |n| > MaxNameLength then Err(LongName)
      else Ok(n)
  }

  /** `update(id, name)`: the id and name passed to `edit`, or the error
      thrown; the rules are those of `create`. */
  function Update(id: int, name: Option<string>): (r: Result<(int, string), string>)
    ensures r.Ok? <==> ValidateName(name).Ok?
    ensures r.Ok? ==> r.value == (id, ValidateName(name).value)
    ensures r.Err? ==> r.error == ValidateName(name).error
  {
    match name
    case None => Err(EmptyName)
    case Some(n) =>
      if n == "" || |Trim(n)| == 0 then Err(EmptyName)
      else if |n| > MaxNameLength then Err(LongName)
      else Ok((id, n))
  }

  /** A name of spaces, tabs or other whitespace is empty once trimmed, and
      both operations refuse it. */
  lemma BlankNameRejected(id: int, w: string)
    requires |w| > 0 && forall i :: 0 <= i < |w| ==> w[i] in {' ', '\t', '\n'}
    ensures ValidateName(Some(w)) == Err(EmptyName)
    ensures Update(id, Some(w)) == Err(EmptyName)
  {
  }

  /** Surrounding whitespace does not make a name acceptable or not in
      itself: the length limit counts it, the emptiness test ignores it. */
  lemma PaddingCountsTowardsLimit(n: string)
    requires !AllWhitespace(n) && |n| == MaxNameLength
    ensures ValidateName(Some(n)).Ok?
    ensures ValidateName(Some(n + " ")) == Err(LongName)
  {
    assert !AllWhitespace(n + " ") by {
      var i :| 0 <= i < |n| && !IsWhitespace(n[i]);
      assert (n + " ")[i] == n[i];
    }
  }
}

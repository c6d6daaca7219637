/** `TruncatedText`: the text shown for a label of at most `maxLength`
    characters. */
module TruncatedText {
  import opened Wrappers
  import opened JsString

  /** The displayed text, or `None` when nothing is rendered (`!text`). */
  function DisplayText(text: Option<string>, maxLength: int): Option<string> {
    if text.None? || text.value == "" then None
    else if |text.value| > maxLength then Some(Slice(text.value, 0, maxLength - 1) + "…")
    else text
  }

  /** Missing or empty text renders nothing; short text is shown as it is;
      longer text is cut to exactly `maxLength` characters, the last being the
      ellipsis and the rest a prefix of the original. */
  lemma DisplayTextSpec(text: Option<string>, maxLength: int)
    ensures text.None? || text.value == "" <==> DisplayText(text, maxLength).None?
    ensures text.Some? && text.value != "" && |text.value| <= maxLength ==> DisplayText(text, maxLength) == text
    ensures text.Some? && |text.value| > maxLength >= 1 ==>
      var d := DisplayText(text, maxLength).value;
      |d| == maxLength && d[|d| - 1] == '…' && d[..|d| - 1] <= text.value
  {
  }

  /** With `maxLength` 0 the bound counts from the end, so the label loses its
      last character instead of shrinking to the ellipsis. */
  lemma ZeroLengthKeepsText()
    ensures DisplayText(Some("abc"), 0) == Some("ab…")
  {
    assert SliceBound(-1, 3) == 2;
    assert Slice("abc", 0, -1) == "abc"[0..2] == "ab";
    assert "ab" + "…" == "ab…";
  }
}

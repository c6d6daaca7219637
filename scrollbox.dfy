/** `ScrollBox`: the window of children shown for a selected index. */
module ScrollBox {
  import opened JsString

  /** `Math.max(0, selectedIndex - height + 1)`. */
  function StartIndex(height: int, selectedIndex: int): (r: int)
    ensures r >= 0
    ensures selectedIndex < height ==> r == 0
    ensures selectedIndex >= height - 1 ==> r + height - 1 == selectedIndex
  {
    if selectedIndex - height + 1 > 0 then selectedIndex - height + 1 else 0
  }

  /** `childArray.slice(startIndex, startIndex + height)`. */
  function Visible<T>(children: seq<T>, height: int, selectedIndex: int): (r: seq<T>)
  {
    var start := StartIndex(height, selectedIndex);
    Slice(children, start, start + height)
  }

  /** At most `height` children are shown, as the contiguous run starting at
      the window start. */
  lemma VisibleIsWindow<T>(children: seq<T>, height: int, selectedIndex: int)
    requires height >= 0
    ensures var start := StartIndex(height, selectedIndex);
      var r := Visible(children, height, selectedIndex);
      |r| <= height &&
      (start <= |children| ==> r == children[start..if start + height <= |children| then start + height else |children|]) &&
      (start > |children| ==> r == [])
  {
  }

  /** The selected child is on screen, and once the list has scrolled it is
      the last visible row. */
  lemma SelectedIsVisible<T>(children: seq<T>, height: int, selectedIndex: int)
    requires 0 <= selectedIndex < |children| && height >= 1
    ensures var start := StartIndex(height, selectedIndex);
      var r := Visible(children, height, selectedIndex);
      0 <= selectedIndex - start < |r| && r[selectedIndex - start] == children[selectedIndex] &&
      (selectedIndex >= height - 1 ==> selectedIndex - start == |r| - 1)
  {
    VisibleIsWindow(children, height, selectedIndex);
  }

  /** An index below the height, such as -1 for an item that is not found,
      shows the list from the top. */
  lemma SmallIndexShowsTop<T>(children: seq<T>, height: int, selectedIndex: int)
    requires 0 <= height && selectedIndex < height
    ensures Visible(children, height, selectedIndex) == children[..if height <= |children| then height else |children|]
  {
  }
}

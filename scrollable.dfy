/** `useScrollableList(items, {wrap})`: the selected index of a list, moved by
    the `select*` callbacks and pulled back inside the list when it shrinks. */
module ScrollableList {
  import opened Wrappers

  /** The index `selectNext` moves to from `prev` in a list of `len`. */
  function NextIndex(prev: int, len: nat, wrap: bool): (r: int)
    requires len > 0
    ensures 0 <= prev < len && wrap ==> r == (prev + 1) % len
    ensures 0 <= prev < len && !wrap ==> r == if prev + 1 < len then prev + 1 else prev
    ensures 0 <= prev ==> 0 <= r
  {
    if prev >= len - 1 then (if wrap then 0 else prev) else prev + 1
  }

  /** The index `selectPrevious` moves to from `prev`. */
  function PrevIndex(prev: int, len: nat, wrap: bool): (r: int)
    requires len > 0
    ensures 0 <= prev < len && wrap ==> r == (prev - 1) % len
    ensures 0 <= prev < len && !wrap ==> r == if prev > 0 then prev - 1 else 0
    ensures prev < len ==> r < len
  {
    if prev <= 0 then (if wrap then len - 1 else prev) else prev - 1
  }

  /** With wrapping, stepping forward and back returns to the same index, in
      either order. */
  lemma NextPrevInverse(i: int, len: nat)
    requires 0 <= i < len
    ensures PrevIndex(NextIndex(i, len, true), len, true) == i
    ensures NextIndex(PrevIndex(i, len, true), len, true) == i
  {
  }

  /** The shrink effect: an empty list resets the index to 0, and an index
      past the end moves to the last item. */
  function Clamp(index: int, len: nat): (r: int)
    ensures len == 0 ==> r == 0
    ensures len > 0 && index < len ==> r == index
    ensures len > 0 && index >= len ==> r == len - 1
  {
    if len == 0 then 0 else if index >= len then len - 1 else index
  }

  /** Clamping twice is clamping once, and a clamped non-negative index is in
      range on a non-empty list. */
  lemma ClampIdempotent(index: int, len: nat)
    ensures Clamp(Clamp(index, len), len) == Clamp(index, len)
    ensures len > 0 && 0 <= index ==> 0 <= Clamp(index, len) < len
  {
  }

  /** `items[selectedIndex] || null`, for items that are truthy objects. */
  function SelectedItem<T>(items: seq<T>, index: int): (r: Option<T>)
    ensures r.Some? <==> 0 <= index < |items|
    ensures r.Some? ==> r.value == items[index]
  {
    if 0 <= index < |items| then Some(items[index]) else None
  }

  /** The hook's state: the items of the current render and the index. */
  class ScrollableList<T> {
    var items: seq<T>
    var selectedIndex: int
    const wrap: bool

    /** The index is on an item, or 0 for an empty list. */
    predicate Valid()
      reads this
    {
      if items == [] then selectedIndex == 0 else 0 <= selectedIndex < |items|
    }

    constructor (items: seq<T>, wrap: bool)
      ensures this.items == items && selectedIndex == 0 && this.wrap == wrap
    {
      this.items := items;
      selectedIndex := 0;
      this.wrap := wrap;
    }

    /** A render with new items, followed by the shrink effect. */
    method SetItems(newItems: seq<T>)
      modifies this
      ensures items == newItems && selectedIndex == Clamp(old(selectedIndex), |newItems|)
      ensures old(selectedIndex) >= 0 ==> Valid()
    {
      items := newItems;
      if |items| == 0 {
        selectedIndex := 0;
      } else if selectedIndex >= |items| {
        selectedIndex := |items| - 1;
      }
    }

    method SelectNext()
      modifies this
      ensures items == old(items)
      ensures selectedIndex == if items == [] then old(selectedIndex) else NextIndex(old(selectedIndex), |items|, wrap)
      ensures old(Valid()) ==> Valid()
    {
      if |items| == 0 {
        return;
      }
      selectedIndex := NextIndex(selectedIndex, |items|, wrap);
    }

    method SelectPrevious()
      modifies this
      ensures items == old(items)
      ensures selectedIndex == if items == [] then old(selectedIndex) else PrevIndex(old(selectedIndex), |items|, wrap)
      ensures old(Valid()) ==> Valid()
    {
      if |items| == 0 {
        return;
      }
      selectedIndex := PrevIndex(selectedIndex, |items|, wrap);
    }

    method SelectFirst()
      modifies this
      ensures items == old(items) && selectedIndex == 0 && Valid()
    {
      selectedIndex := 0;
    }

    method SelectLast()
      modifies this
      ensures items == old(items)
      ensures selectedIndex == if items == [] then old(selectedIndex) else |items| - 1
      ensures old(Valid()) ==> Valid()
    {
      if |items| == 0 {
        return;
      }
      selectedIndex := |items| - 1;
    }

    function Selected(): (r: Option<T>)
      reads this
      ensures Valid() && items != [] ==> r == Some(items[selectedIndex])
    {
      SelectedItem(items, selectedIndex)
    }
  }
}

/** Time entries as the analytics and pricing services receive them from the
    repository: a start, and an end once the entry is stopped. */
module Entries {
  import opened Wrappers

  type Hour = h: nat | h < 24

  /** A point in time: the stored text (compared as a string against rate
      dates), the instant in whole seconds, and the local calendar day and
      hour that the timezone layer reads off it. */
  datatype Stamp = Stamp(text: string, seconds: int, day: int, hour: Hour)

  datatype Entry = Entry(start: Stamp, end: Option<Stamp>)

  /** `e.end` is truthy: the entry is stopped. */
  predicate IsClosed(e: Entry) {
    e.end.Some?
  }

  predicate AllClosed(es: seq<Entry>) {
    forall i :: 0 <= i < |es| ==> IsClosed(es[i])
  }

  /** `entries.filter(e => e.end)`. */
  function Closed(es: seq<Entry>): (r: seq<Entry>)
    ensures AllClosed(r) && |r| <= |es|
  {
    if es == [] then []
    else if IsClosed(es[0]) then [es[0]] + Closed(es[1..])
    else Closed(es[1..])
  }

  /** The filter keeps exactly the closed entries. */
  lemma {:induction false} ClosedMembers(es: seq<Entry>, e: Entry)
    ensures e in Closed(es) <==> e in es && IsClosed(e)
  {
    if es != [] {
      ClosedMembers(es[1..], e);
      assert es == [es[0]] + es[1..];
    }
  }

  /** Filtering a list of closed entries changes nothing. */
  lemma {:induction false} ClosedOfClosed(es: seq<Entry>)
    requires AllClosed(es)
    ensures Closed(es) == es
  {
    if es != [] {
      ClosedOfClosed(es[1..]);
    }
  }

  lemma {:induction false} ClosedAppend(a: seq<Entry>, b: seq<Entry>)
    ensures Closed(a + b) == Closed(a) + Closed(b)
  {
    if a == [] {
      assert a + b == b;
    } else {
      assert (a + b)[1..] == a[1..] + b;
      ClosedAppend(a[1..], b);
    }
  }

  /** `calculateDuration(start, end)`, in seconds. */
  function Duration(e: Entry): int
    requires IsClosed(e)
  {
    e.end.value.seconds - e.start.seconds
  }

  /** `sumEntryDurations` over closed entries. */
  function SumDurations(es: seq<Entry>): int
    requires AllClosed(es)
  {
    if es == [] then 0 else SumDurations(es[..|es| - 1]) + Duration(es[|es| - 1])
  }

  lemma {:induction false} SumDurationsAppend(a: seq<Entry>, b: seq<Entry>)
    requires AllClosed(a) && AllClosed(b)
    ensures AllClosed(a + b)
    ensures SumDurations(a + b) == SumDurations(a) + SumDurations(b)
  {
    if b == [] {
      assert a + b == a;
    } else {
      assert (a + b)[..|a + b| - 1] == a + b[..|b| - 1];
      SumDurationsAppend(a, b[..|b| - 1]);
    }
  }

  /** The seconds of all closed entries, open ones contributing nothing. */
  function ClosedSeconds(es: seq<Entry>): int {
    SumDurations(Closed(es))
  }

  /** The durations of a list of closed entries, in order. */
  function Durations(es: seq<Entry>): (r: seq<int>)
    requires AllClosed(es)
    ensures |r| == |es| && forall i :: 0 <= i < |es| ==> r[i] == Duration(es[i])
  {
    seq(|es|, i requires 0 <= i < |es| => Duration(es[i]))
  }
}

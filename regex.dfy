/** Building blocks for the anchored regular expressions of the input
    parsers: the greedy repetition `\d*` or `\s*` at the front of a string.
    Each pattern the parsers use is deterministic once written with these,
    because every quantified class is followed by a character outside it. */
module Regex {
  import opened JsString

  /** Cutting a string and joining the pieces gives it back. */
  lemma Rejoin(s: string, k: nat)
    requires k <= |s|
    ensures s[..k] + s[k..] == s
  {
  }

  /** The two character classes the parsers repeat: `\d` and `\s`. */
  datatype CharClass = Digits | Spaces

  predicate InClass(c: char, cls: CharClass) {
    match cls
    case Digits => IsDigit(c)
    case Spaces => IsWhitespace(c)
  }

  predicate AllIn(s: string, cls: CharClass) {
    forall i :: 0 <= i < |s| ==> InClass(s[i], cls)
  }

  /** Whether the class cannot be extended into `s`: `s` is empty or
      starts outside the class. */
  predicate StopsAt(s: string, cls: CharClass) {
    s == [] || !InClass(s[0], cls)
  }

  /** How many characters the greedy repetition of `cls` consumes from the
      front of `s`. */
  function Span(s: string, cls: CharClass): (k: nat)
    ensures k <= |s|
  {
    if s == [] || !InClass(s[0], cls) then 0 else 1 + Span(s[1..], cls)
  }

  /** The greedy repetition takes a run of the class and stops before a
      character outside it. */
  lemma {:induction false} SpanMaximal(s: string, cls: CharClass)
    ensures AllIn(s[..Span(s, cls)], cls)
    ensures StopsAt(s[Span(s, cls)..], cls)
  {
    if s != [] && InClass(s[0], cls) {
      SpanMaximal(s[1..], cls);
      assert s[..Span(s, cls)] == [s[0]] + s[1..][..Span(s[1..], cls)];
      assert s[Span(s, cls)..] == s[1..][Span(s[1..], cls)..];
    }
  }

  /** Conversely, on a run of the class followed by something that stops it,
      the greedy repetition takes exactly that run. */
  lemma {:induction false} SpanOf(run: string, rest: string, cls: CharClass)
    requires AllIn(run, cls) && StopsAt(rest, cls)
    ensures Span(run + rest, cls) == |run|
  {
    if run == [] {
      assert run + rest == rest;
    } else {
      assert (run + rest)[0] == run[0];
      assert (run + rest)[1..] == run[1..] + rest;
      assert AllIn(run[1..], cls) by {
        forall i | 0 <= i < |run| - 1 ensures InClass(run[1..][i], cls) {
          assert run[1..][i] == run[i + 1];
        }
      }
      SpanOf(run[1..], rest, cls);
    }
  }

  /** Splitting at the greedy span of a run followed by a stop gives the run
      and the rest back. */
  lemma SplitAtSpan(run: string, rest: string, cls: CharClass)
    requires AllIn(run, cls) && StopsAt(rest, cls)
    ensures Span(run + rest, cls) == |run|
    ensures (run + rest)[..|run|] == run && (run + rest)[|run|..] == rest
  {
    SpanOf(run, rest, cls);
  }
}

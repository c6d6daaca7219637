/** `parseTimeInput` of the time edit form: after trimming, the text must match
    `^(\d{1,2}):(\d{2})(?::(\d{2}))?$`, and the numbers must be a clock time. */
module TimeInput {
  import opened Wrappers
  import opened JsString
  import opened Regex

  /** A clock time; `seconds` is 0 when the input has none. */
  datatype Clock = Clock(hours: nat, minutes: nat, seconds: nat)

  predicate ValidClock(c: Clock) {
    c.hours <= 23 && c.minutes <= 59 && c.seconds <= 59
  }

  /** The three capture groups of a match of the pattern. */
  datatype ClockForm = ClockForm(hours: string, minutes: string, seconds: Option<string>)

  predicate TwoDigits(s: string) {
    |s| == 2 && AllDigits(s)
  }

  predicate ClockWellFormed(f: ClockForm) {
    1 <= |f.hours| <= 2 && AllDigits(f.hours) && TwoDigits(f.minutes) &&
    (f.seconds.Some? ==> TwoDigits(f.seconds.value))
  }

  function SecondsText(o: Option<string>): string {
    if o.Some? then ":" + o.value else []
  }

  /** The text a layout prints. */
  function ClockText(f: ClockForm): string {
    f.hours + (":" + (f.minutes + SecondsText(f.seconds)))
  }

  /** The anchored pattern. `\d{1,2}` is followed by ':', which is not a
      digit, so the greedy digit run decides where the hours end. */
  function MatchClock(t: string): Option<ClockForm> {
    var k := Span(t, Digits);
    if k < 1 || k > 2 || |t| < k + 3 || t[k] != ':' || !IsDigit(t[k + 1]) || !IsDigit(t[k + 2]) then None
    else
      var rest := t[k + 3..];
      if rest == [] then Some(ClockForm(t[..k], t[k + 1..k + 3], None))
      else if |rest| == 3 && rest[0] == ':' && IsDigit(rest[1]) && IsDigit(rest[2]) then
        Some(ClockForm(t[..k], t[k + 1..k + 3], Some(rest[1..])))
      else None
  }

  /** What MatchClock accepts is a well-formed layout printing the input. */
  lemma MatchClockSound(t: string)
    requires MatchClock(t).Some?
    ensures ClockWellFormed(MatchClock(t).value)
    ensures ClockText(MatchClock(t).value) == t
  {
    var k := Span(t, Digits);
    SpanMaximal(t, Digits);
    var f := MatchClock(t).value;
    assert f.hours == t[..k];
    assert f.minutes == t[k + 1..k + 3];
    assert AllDigits(f.hours) by {
      forall i | 0 <= i < |f.hours| ensures IsDigit(f.hours[i]) {
        assert InClass(t[..k][i], Digits);
      }
    }
    assert TwoDigits(f.minutes) by {
      assert f.minutes[0] == t[k + 1] && f.minutes[1] == t[k + 2];
    }
    if f.seconds.Some? {
      var r := t[k + 3..];
      assert f.seconds.value == r[1..];
      assert TwoDigits(f.seconds.value) by {
        assert r[1..][0] == r[1] && r[1..][1] == r[2];
      }
    }
    assert SecondsText(f.seconds) == t[k + 3..];
    assert f.minutes + SecondsText(f.seconds) == t[k + 1..] by {
      assert t[k + 1..] == t[k + 1..k + 3] + t[k + 3..];
    }
    assert ":" + t[k + 1..] == t[k..] by {
      assert t[k] == ':';
    }
    Rejoin(t, k);
  }

  /** Every well-formed layout is read back as itself. */
  lemma MatchClockComplete(f: ClockForm)
    requires ClockWellFormed(f)
    ensures MatchClock(ClockText(f)) == Some(f)
  {
    var rest := ":" + (f.minutes + SecondsText(f.seconds));
    assert AllIn(f.hours, Digits);
    SplitAtSpan(f.hours, rest, Digits);
    var t := ClockText(f);
    var k := |f.hours|;
    assert t[k..] == rest;
    assert t[k + 1..k + 3] == f.minutes;
    assert t[k + 3..] == SecondsText(f.seconds);
  }

  /** `parseTimeInput(input)`; `None` is the `null` result. */
  function ParseTimeInput(input: string): (r: Option<Clock>)
    ensures r.Some? ==> ValidClock(r.value)
  {
    match MatchClock(Trim(input))
    case None => None
    case Some(f) =>
      MatchClockSound(Trim(input));
      ClockOf(f)
  }

  /** The parsed numbers and the range checks, with 0 for missing seconds. */
  function ClockOf(f: ClockForm): (r: Option<Clock>)
    requires ClockWellFormed(f)
    ensures r.Some? ==> ValidClock(r.value)
  {
    var h := DecimalValue(f.hours);
    var m := DecimalValue(f.minutes);
    var s := if f.seconds.Some? then DecimalValue(f.seconds.value) else 0;
    if h > 23 then None
    else if m > 59 then None
    else if s > 59 then None
    else Some(Clock(h, m, s))
  }

  // ------------------------------------------------------------ properties

  /** An accepted input is a layout of the pattern around whitespace, and the
      clock holds the digits it gives. */
  lemma ParseTimeInputSound(input: string)
    requires ParseTimeInput(input).Some?
    ensures exists f :: ClockWellFormed(f) && ClockText(f) == Trim(input) && ClockOf(f) == ParseTimeInput(input)
  {
    MatchClockSound(Trim(input));
  }

  /** A layout is accepted, with the value its digits give, exactly when
      the numbers are in range; whitespace around it does not matter. */
  lemma ParseTimeInputForm(w1: string, f: ClockForm, w2: string)
    requires AllWhitespace(w1) && AllWhitespace(w2) && ClockWellFormed(f)
    ensures ParseTimeInput(w1 + ClockText(f) + w2) == ClockOf(f)
  {
    var t := ClockText(f);
    assert t[0] == f.hours[0];
    assert !IsWhitespace(t[|t| - 1]) by {
      if f.seconds.Some? {
        assert t[|t| - 1] == f.seconds.value[1];
      } else {
        assert t[|t| - 1] == f.minutes[1];
      }
    }
    TrimPadded(w1, t, w2);
    MatchClockComplete(f);
  }

  /** Whitespace around the input does not matter. */
  lemma TimeInputIgnoresPadding(w1: string, s: string, w2: string)
    requires AllWhitespace(w1) && AllWhitespace(w2)
    ensures ParseTimeInput(w1 + s + w2) == ParseTimeInput(s)
  {
    var a, b := TrimSplit(s);
    calc {
      Trim(w1 + s + w2);
    == { assert w1 + s + w2 == (w1 + a) + Trim(s) + (b + w2); }
      Trim((w1 + a) + Trim(s) + (b + w2));
    == { TrimPadded(w1 + a, Trim(s), b + w2); }
      Trim(s);
    }
  }

  /** Two digits, zero-padded, as the `HH`, `mm` and `ss` tokens of the
      form's default value print them. */
  function Pad2(n: nat): (r: string)
    requires n < 100
    ensures TwoDigits(r)
  {
    [Digit(n / 10), Digit(n % 10)]
  }

  lemma Pad2Value(n: nat)
    requires n < 100
    ensures DecimalValue(Pad2(n)) == n
  {
    var r := Pad2(n);
    assert r[..1][..0] == [];
    assert DecimalValue(r[..1]) == n / 10;
    assert DecimalValue(r) == (n / 10) * 10 + n % 10;
  }

  /** The default value `HH:mm:ss` of a clock time. */
  function FormatClock(c: Clock): string
    requires ValidClock(c)
  {
    ClockText(ClockForm(Pad2(c.hours), Pad2(c.minutes), Some(Pad2(c.seconds))))
  }

  /** The default value the form shows parses back to the same time. */
  lemma FormatClockRoundTrip(c: Clock)
    requires ValidClock(c)
    ensures ParseTimeInput(FormatClock(c)) == Some(c)
  {
    var f := ClockForm(Pad2(c.hours), Pad2(c.minutes), Some(Pad2(c.seconds)));
    Pad2Value(c.hours);
    Pad2Value(c.minutes);
    Pad2Value(c.seconds);
    ParseTimeInputForm([], f, []);
    assert [] + ClockText(f) + [] == ClockText(f);
  }

  // -------------------------------------------------------------- examples

  lemma ExampleShortHours()
    ensures ParseTimeInput("9:05") == Some(Clock(9, 5, 0))
  {
    var f := ClockForm("9", "05", None);
    assert ClockWellFormed(f) by {
      assert AllDigits("9") && AllDigits("05");
    }
    ParseTimeInputForm([], f, []);
    assert [] + ClockText(f) + [] == "9:05";
    ExampleNumbers();
    assert ClockOf(f) == Some(Clock(9, 5, 0));
  }

  lemma ExampleOutOfRange()
    ensures ParseTimeInput("24:00") == None
  {
    var f := ClockForm("24", "00", None);
    ParseTimeInputForm([], f, []);
    assert [] + ClockText(f) + [] == "24:00";
    ExampleNumbers();
  }

  /** The numbers the examples spell. */
  lemma ExampleNumbers()
    ensures DecimalValue("9") == 9 && DecimalValue("05") == 5 && DecimalValue("24") == 24
  {
    assert "9"[..0] == [];
    assert "05"[..1] == "0" && "0"[..0] == [];
    assert "24"[..1] == "2" && "2"[..0] == [];
  }
}

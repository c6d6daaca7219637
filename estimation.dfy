/** `parseEstimation` of the estimation form
    (src/components/tasks/EstimationEditingForm.js): a duration typed as
    "30m", "2h", "1h30m", "1.5h" or plain digits, read as whole minutes.
    The three anchored regular expressions are modelled as parsers into
    layout values that record every piece of the matched text, so that each
    parser is shown to accept exactly the strings its layouts print. */
module Estimation {
  import opened Wrappers
  import opened JsString
  import opened Regex
  import opened JsValue

  // ------------------------------------------------------------ /^(\d+)\s*m$/

  /** A match of `^(\d+)\s*m$`: the captured digits and the spaces before
      the unit. */
  datatype MinutesForm = MinutesForm(digits: string, space: string)

  predicate MinutesWellFormed(f: MinutesForm) {
    IsDigitRun(f.digits) && AllWhitespace(f.space)
  }

  function MinutesText(f: MinutesForm): string {
    f.digits + (f.space + "m")
  }

  function MatchMinutes(t: string): Option<MinutesForm> {
    var k := Span(t, Digits);
    var rest := t[k..];
    var w := Span(rest, Spaces);
    if k > 0 && rest[w..] == "m" then Some(MinutesForm(t[..k], rest[..w])) else None
  }

  /** What MatchMinutes accepts is a well-formed layout printing the input. */
  lemma MatchMinutesSound(t: string)
    requires MatchMinutes(t).Some?
    ensures MinutesWellFormed(MatchMinutes(t).value)
    ensures MinutesText(MatchMinutes(t).value) == t
  {
    var k := Span(t, Digits);
    var rest := t[k..];
    SpanMaximal(t, Digits);
    SpanMaximal(rest, Spaces);
    var w := Span(rest, Spaces);
    assert rest == rest[..w] + rest[w..];
    assert t == t[..k] + rest;
  }

  /** Every well-formed layout is accepted, with its own pieces. */
  lemma MatchMinutesComplete(f: MinutesForm)
    requires MinutesWellFormed(f)
    ensures MatchMinutes(MinutesText(f)) == Some(f)
  {
    var t := MinutesText(f);
    SplitAtSpan(f.digits, f.space + "m", Digits);
    SplitAtSpan(f.space, "m", Spaces);
  }

  // ------------------------------------------------- /^(\d+(?:\.\d+)?)\s*h\s*(\d+)?\s*m?$/

  /** The number before 'h': digits, optionally a point and more digits. */
  datatype Decimal = Decimal(whole: string, frac: Option<string>)

  predicate DecimalWellFormed(n: Decimal) {
    IsDigitRun(n.whole) && (n.frac.Some? ==> IsDigitRun(n.frac.value))
  }

  function FracText(frac: Option<string>): string {
    if frac.Some? then "." + frac.value else ""
  }

  function DecimalText(n: Decimal): string {
    n.whole + FracText(n.frac)
  }

  function Pow10(k: nat): (p: nat)
    ensures p >= 1
  {
    if k == 0 then 1 else 10 * Pow10(k - 1)
  }

  /** `parseFloat` of the matched number, as an exact rational. */
  function DecimalReal(n: Decimal): (x: real)
    requires DecimalWellFormed(n)
    ensures x >= 0.0
  {
    DecimalValue(n.whole) as real +
      if n.frac.Some? then DecimalValue(n.frac.value) as real / Pow10(|n.frac.value|) as real else 0.0
  }

  /** The text after the number can neither extend it nor start a fraction. */
  predicate EndsNumber(rest: string) {
    rest == [] || (!IsDigit(rest[0]) && rest[0] != '.')
  }

  /** The number at the front of `t` and what follows it. */
  function MatchDecimal(t: string): Option<(Decimal, string)> {
    var k := Span(t, Digits);
    if k == 0 then None
    else
      match MatchFraction(t[k..])
      case None => None
      case Some((frac, rest)) => Some((Decimal(t[..k], frac), rest))
  }

  /** `(?:\.\d+)?`. A point not followed by a digit cannot be matched by the
      rest of the pattern either, so the whole match fails there. */
  function MatchFraction(u: string): Option<(Option<string>, string)> {
    if u != [] && u[0] == '.' then
      var after := u[1..];
      var k := Span(after, Digits);
      if k == 0 then None else Some((Some(after[..k]), after[k..]))
    else Some((None, u))
  }

  lemma MatchFractionSound(u: string)
    requires MatchFraction(u).Some?
    ensures var (frac, rest) := MatchFraction(u).value;
      (frac.Some? ==> IsDigitRun(frac.value)) && FracText(frac) + rest == u &&
      (frac.Some? ==> rest == [] || !IsDigit(rest[0])) &&
      (frac.None? ==> rest == u && (rest == [] || rest[0] != '.'))
  {
    if u != [] && u[0] == '.' {
      var after := u[1..];
      SpanMaximal(after, Digits);
      var k := Span(after, Digits);
      calc {
        ("." + after[..k]) + after[k..];
      == { assert ("." + after[..k]) + after[k..] == "." + (after[..k] + after[k..]); }
        "." + (after[..k] + after[k..]);
      == { Rejoin(after, k); }
        "." + after;
      }
    }
  }

  lemma MatchDecimalSound(t: string)
    requires MatchDecimal(t).Some?
    ensures DecimalWellFormed(MatchDecimal(t).value.0)
    ensures DecimalText(MatchDecimal(t).value.0) + MatchDecimal(t).value.1 == t
    ensures var (n, rest) := MatchDecimal(t).value;
      (rest == [] || !IsDigit(rest[0])) && (n.frac.None? ==> EndsNumber(rest))
  {
    var k := Span(t, Digits);
    var whole, u := t[..k], t[k..];
    SpanMaximal(t, Digits);
    assert IsDigitRun(whole) by {
      assert k > 0;
      assert forall i :: 0 <= i < |whole| ==> InClass(whole[i], Digits);
    }
    MatchFractionSound(u);
    var (frac, rest) := MatchFraction(u).value;
    assert MatchDecimal(t).value == (Decimal(whole, frac), rest);
    assert DecimalText(Decimal(whole, frac)) + rest == t by {
      assert (whole + FracText(frac)) + rest == whole + (FracText(frac) + rest);
      Rejoin(t, k);
    }
    assert frac.None? ==> rest == u && StopsAt(u, Digits);
  }

  lemma MatchFractionComplete(frac: Option<string>, rest: string)
    requires frac.Some? ==> IsDigitRun(frac.value) && (rest == [] || !IsDigit(rest[0]))
    requires frac.None? ==> rest == [] || rest[0] != '.'
    ensures MatchFraction(FracText(frac) + rest) == Some((frac, rest))
  {
    if frac.None? {
      assert FracText(frac) + rest == rest;
    } else {
      var b := frac.value;
      assert ("." + b + rest)[1..] == b + rest;
      SplitAtSpan(b, rest, Digits);
    }
  }

  lemma MatchDecimalComplete(n: Decimal, rest: string)
    requires DecimalWellFormed(n) && EndsNumber(rest)
    ensures MatchDecimal(DecimalText(n) + rest) == Some((n, rest))
  {
    var u := FracText(n.frac) + rest;
    assert DecimalText(n) + rest == n.whole + u;
    assert StopsAt(u, Digits) by {
      if n.frac.Some? { assert u[0] == '.'; } else { assert u == rest; }
    }
    SplitAtSpan(n.whole, u, Digits);
    MatchFractionComplete(n.frac, rest);
  }

  /** What follows the 'h': `\s*(\d+)?\s*m?`. When no minutes are given the
      two `\s*` meet, and the first, being greedy, takes all the spaces. */
  datatype HourTail = HourTail(space2: string, minutes: Option<string>, space3: string, unit: bool)

  predicate TailWellFormed(tl: HourTail) {
    AllWhitespace(tl.space2) && AllWhitespace(tl.space3) &&
    (tl.minutes.Some? ==> IsDigitRun(tl.minutes.value)) &&
    (tl.minutes.None? ==> tl.space3 == [])
  }

  function OptText(o: Option<string>): string {
    if o.Some? then o.value else ""
  }

  function UnitText(unit: bool): string {
    if unit then "m" else ""
  }

  function TailText(tl: HourTail): string {
    tl.space2 + (OptText(tl.minutes) + (tl.space3 + UnitText(tl.unit)))
  }

  /** `\s*m?$`: the spaces and whether the unit is there. */
  function MatchUnitEnd(u: string): Option<(string, bool)> {
    var w := Span(u, Spaces);
    var rest := u[w..];
    if rest == [] || rest == "m" then Some((u[..w], rest == "m")) else None
  }

  /** `(\d+)?\s*m?$`. */
  function MatchMinutesEnd(u: string): Option<(Option<string>, string, bool)> {
    var k := Span(u, Digits);
    match MatchUnitEnd(u[k..])
    case None => None
    case Some((space3, unit)) => Some((if k > 0 then Some(u[..k]) else None, space3, unit))
  }

  function MatchTail(u: string): Option<HourTail> {
    var w := Span(u, Spaces);
    match MatchMinutesEnd(u[w..])
    case None => None
    case Some((minutes, space3, unit)) => Some(HourTail(u[..w], minutes, space3, unit))
  }

  lemma MatchUnitEndSound(u: string)
    requires MatchUnitEnd(u).Some?
    ensures AllWhitespace(MatchUnitEnd(u).value.0)
    ensures MatchUnitEnd(u).value.0 + UnitText(MatchUnitEnd(u).value.1) == u
    ensures StopsAt(u, Spaces) ==> MatchUnitEnd(u).value.0 == []
  {
    var w := Span(u, Spaces);
    SpanMaximal(u, Spaces);
    Rejoin(u, w);
    assert UnitText(MatchUnitEnd(u).value.1) == u[w..];
  }

  lemma MatchMinutesEndSound(u: string)
    requires MatchMinutesEnd(u).Some? && StopsAt(u, Spaces)
    ensures var (minutes, space3, unit) := MatchMinutesEnd(u).value;
      TailWellFormed(HourTail([], minutes, space3, unit)) &&
      OptText(minutes) + (space3 + UnitText(unit)) == u
  {
    var k := Span(u, Digits);
    SpanMaximal(u, Digits);
    MatchUnitEndSound(u[k..]);
    Rejoin(u, k);
    if k == 0 { assert u[k..] == u; }
  }

  lemma MatchTailSound(u: string)
    requires MatchTail(u).Some?
    ensures TailWellFormed(MatchTail(u).value)
    ensures TailText(MatchTail(u).value) == u
  {
    var w := Span(u, Spaces);
    SpanMaximal(u, Spaces);
    MatchMinutesEndSound(u[w..]);
    Rejoin(u, w);
  }

  lemma MatchUnitEndComplete(space3: string, unit: bool)
    requires AllWhitespace(space3)
    ensures MatchUnitEnd(space3 + UnitText(unit)) == Some((space3, unit))
  {
    SplitAtSpan(space3, UnitText(unit), Spaces);
  }

  lemma MatchTailComplete(tl: HourTail)
    requires TailWellFormed(tl)
    ensures MatchTail(TailText(tl)) == Some(tl)
  {
    var rest := OptText(tl.minutes) + (tl.space3 + UnitText(tl.unit));
    assert StopsAt(rest, Spaces) by {
      if tl.minutes.None? { assert rest == UnitText(tl.unit); }
      else { assert rest[0] == tl.minutes.value[0]; }
    }
    SplitAtSpan(tl.space2, rest, Spaces);
    MatchUnitEndComplete(tl.space3, tl.unit);
    if tl.minutes.None? {
      assert rest == tl.space3 + UnitText(tl.unit);
      SplitAtSpan([], rest, Digits);
      assert rest[0..] == rest;
    } else {
      SplitAtSpan(tl.minutes.value, tl.space3 + UnitText(tl.unit), Digits);
    }
  }

  /** A match of the whole hours pattern. */
  datatype HoursForm = HoursForm(number: Decimal, space1: string, tail: HourTail)

  predicate HoursWellFormed(f: HoursForm) {
    DecimalWellFormed(f.number) && AllWhitespace(f.space1) && TailWellFormed(f.tail)
  }

  function HoursText(f: HoursForm): string {
    DecimalText(f.number) + (f.space1 + ("h" + TailText(f.tail)))
  }

  function MatchHours(t: string): Option<HoursForm> {
    match MatchDecimal(t)
    case None => None
    case Some((n, rest)) =>
      match MatchUnit(rest)
      case None => None
      case Some((space1, tl)) => Some(HoursForm(n, space1, tl))
  }

  /** `\s*h` followed by the tail. */
  function MatchUnit(rest: string): Option<(string, HourTail)> {
    var w1 := Span(rest, Spaces);
    var r := rest[w1..];
    if r != [] && r[0] == 'h' then
      match MatchTail(r[1..])
      case None => None
      case Some(tl) => Some((rest[..w1], tl))
    else None
  }

  lemma MatchUnitSound(rest: string)
    requires MatchUnit(rest).Some?
    ensures AllWhitespace(MatchUnit(rest).value.0) && TailWellFormed(MatchUnit(rest).value.1)
    ensures MatchUnit(rest).value.0 + ("h" + TailText(MatchUnit(rest).value.1)) == rest
  {
    var w1 := Span(rest, Spaces);
    var r := rest[w1..];
    var sp := rest[..w1];
    SpanMaximal(rest, Spaces);
    assert r != [] && r[0] == 'h';
    var tail := r[1..];
    assert MatchTail(tail).Some?;
    MatchTailSound(tail);
    var tl := MatchTail(tail).value;
    assert MatchUnit(rest) == Some((sp, tl));
    HeadRejoin(r, 'h', TailText(tl));
    Rejoin(rest, w1);
  }

  lemma HeadRejoin(r: string, c: char, t: string)
    requires r != [] && r[0] == c && r[1..] == t
    ensures [c] + t == r
  {
    assert ([c] + t)[1..] == t;
  }

  lemma MatchHoursSound(t: string)
    requires MatchHours(t).Some?
    ensures HoursWellFormed(MatchHours(t).value)
    ensures HoursText(MatchHours(t).value) == t
  {
    MatchDecimalSound(t);
    var nr := MatchDecimal(t).value;
    MatchUnitSound(nr.1);
  }

  lemma MatchUnitComplete(space1: string, tl: HourTail)
    requires AllWhitespace(space1) && TailWellFormed(tl)
    ensures MatchUnit(space1 + ("h" + TailText(tl))) == Some((space1, tl))
  {
    var r := "h" + TailText(tl);
    SplitAtSpan(space1, r, Spaces);
    assert r[1..] == TailText(tl);
    MatchTailComplete(tl);
  }

  lemma MatchHoursComplete(f: HoursForm)
    requires HoursWellFormed(f)
    ensures MatchHours(HoursText(f)) == Some(f)
  {
    var after := f.space1 + ("h" + TailText(f.tail));
    assert EndsNumber(after) by {
      if f.space1 != [] { assert after[0] == f.space1[0]; } else { assert after[0] == 'h'; }
    }
    MatchDecimalComplete(f.number, after);
    MatchUnitComplete(f.space1, f.tail);
  }

  // ------------------------------------------------------------ parseEstimation

  /** `Math.round`: halves round up. */
  function MinutesOf(o: Option<string>): nat
    requires o.Some? ==> AllDigits(o.value)
  {
    if o.Some? then DecimalValue(o.value) else 0
  }

  /** `Math.round(hours * 60 + minutes)` for a match of the hours pattern. */
  function HoursValue(f: HoursForm): (m: int)
    requires HoursWellFormed(f)
    ensures m >= 0
  {
    Round(DecimalReal(f.number) * 60.0 + MinutesOf(f.tail.minutes) as real)
  }

  /** `parseEstimation(input)`: `None` stands for a missing input and for the
      `null` result that clears the estimation. The trimmed, lower-cased
      text goes on to the three patterns. */
  function ParseEstimation(input: Option<string>): (r: Option<int>)
    ensures input.None? || AllWhitespace(input.value) ==> r.None?
    ensures r.Some? ==> r.value >= 0
  {
    if input.None? || Trim(input.value) == [] then None
    else ParseCleaned(LowerAll(Trim(input.value)))
  }

  /** The minutes pattern, the hours pattern and plain digits, tried in this
      order on the cleaned text. */
  function ParseCleaned(t: string): (r: Option<int>)
    ensures r.Some? ==> r.value >= 0
  {
    match MatchMinutes(t)
    case Some(f) =>
      MatchMinutesSound(t);
      Some(DecimalValue(f.digits))
    case None =>
      match MatchHours(t)
      case Some(f) =>
        MatchHoursSound(t);
        Some(HoursValue(f))
      case None =>
        if IsDigitRun(t) then Some(DecimalValue(t)) else None
  }

  // ------------------------------------------------------------ properties

  /** Whitespace around the input does not matter. */
  lemma EstimationIgnoresPadding(w1: string, s: string, w2: string)
    requires AllWhitespace(w1) && AllWhitespace(w2)
    ensures ParseEstimation(Some(w1 + s + w2)) == ParseEstimation(Some(s))
  {
    var a, b := TrimSplit(s);
    calc {
      Trim(w1 + s + w2);
    == { assert w1 + s + w2 == (w1 + a) + Trim(s) + (b + w2); }
      Trim((w1 + a) + Trim(s) + (b + w2));
    == { TrimPadded(w1 + a, Trim(s), b + w2); }
      Trim(s);
    }
  }

  /** Neither does the case of the letters. */
  lemma EstimationIgnoresCase(s: string)
    ensures ParseEstimation(Some(LowerAll(s))) == ParseEstimation(Some(s))
  {
    TrimLowerAll(s);
    LowerAllIdempotent(Trim(s));
    assert Trim(LowerAll(s)) == [] <==> Trim(s) == [];
  }

  /** Text that `trim` and `toLowerCase` leave alone goes straight to the
      patterns. */
  lemma CleanInput(t: string)
    requires t != [] && !IsWhitespace(t[0]) && !IsWhitespace(t[|t| - 1]) && NoUpper(t)
    ensures ParseEstimation(Some(t)) == ParseCleaned(t)
  {
    TrimPadded([], t, []);
    assert [] + t + [] == t;
    LowerAllIdentity(t);
  }

  lemma MinutesTextNoH(f: MinutesForm, i: nat)
    requires MinutesWellFormed(f) && i < |MinutesText(f)|
    ensures MinutesText(f)[i] != 'h'
  {
    if i >= |f.digits| + |f.space| {
      assert MinutesText(f)[i] == 'm';
    } else if i >= |f.digits| {
      assert MinutesText(f)[i] == f.space[i - |f.digits|];
    }
  }

  lemma MinutesTextNoUpper(f: MinutesForm)
    requires MinutesWellFormed(f)
    ensures NoUpper(MinutesText(f))
  {
    NoUpperConcat(f.space, "m");
    NoUpperConcat(f.digits, f.space + "m");
  }

  /** "<digits>m", with any spaces before the 'm', is that many minutes. */
  lemma ParseMinutesForm(f: MinutesForm)
    requires MinutesWellFormed(f)
    ensures ParseEstimation(Some(MinutesText(f))) == Some(DecimalValue(f.digits))
  {
    var t := MinutesText(f);
    assert t[0] == f.digits[0] && t[|t| - 1] == 'm';
    MinutesTextNoUpper(f);
    CleanInput(t);
    MatchMinutesComplete(f);
  }

  /** A text the hours pattern matches is not a match of the minutes
      pattern, which has no 'h'. */
  lemma HoursNotMinutes(f: HoursForm)
    requires HoursWellFormed(f)
    ensures MatchMinutes(HoursText(f)).None?
  {
    var t := HoursText(f);
    var p := |DecimalText(f.number)| + |f.space1|;
    assert t[p] == 'h';
    if MatchMinutes(t).Some? {
      MatchMinutesSound(t);
      MinutesTextNoH(MatchMinutes(t).value, p);
    }
  }

  /** The hours layout with the whitespace it ends in, if any, removed. */
  function StripTail(tl: HourTail): HourTail {
    if tl.unit then tl
    else if tl.minutes.None? then HourTail([], None, [], false)
    else HourTail(tl.space2, tl.minutes, [], false)
  }

  function TrailingSpace(tl: HourTail): string {
    if tl.unit then [] else if tl.minutes.None? then tl.space2 else tl.space3
  }

  lemma StripTailText(tl: HourTail)
    requires TailWellFormed(tl)
    ensures TailWellFormed(StripTail(tl)) && AllWhitespace(TrailingSpace(tl))
    ensures TailText(tl) == TailText(StripTail(tl)) + TrailingSpace(tl)
    ensures TailText(StripTail(tl)) != [] ==> !IsWhitespace(TailText(StripTail(tl))[|TailText(StripTail(tl))| - 1])
  {
    var m := OptText(tl.minutes);
    if tl.unit {
      assert TailText(tl) + [] == TailText(tl);
    } else if tl.minutes.None? {
      assert TailText(tl) == tl.space2;
    } else {
      assert TailText(tl) == tl.space2 + m + tl.space3;
      assert TailText(StripTail(tl)) == tl.space2 + m;
    }
  }

  lemma HoursTextNoUpper(f: HoursForm)
    requires HoursWellFormed(f)
    ensures NoUpper(HoursText(f))
  {
    var tl := f.tail;
    NoUpperConcat(tl.space3, UnitText(tl.unit));
    NoUpperConcat(OptText(tl.minutes), tl.space3 + UnitText(tl.unit));
    NoUpperConcat(tl.space2, OptText(tl.minutes) + (tl.space3 + UnitText(tl.unit)));
    NoUpperConcat("h", TailText(tl));
    NoUpperConcat(f.space1, "h" + TailText(tl));
    NoUpperConcat(f.number.whole, FracText(f.number.frac));
    NoUpperConcat(DecimalText(f.number), f.space1 + ("h" + TailText(tl)));
  }

  /** A hours layout without trailing whitespace is read by the hours
      pattern. */
  lemma ParseStrippedHours(f: HoursForm)
    requires HoursWellFormed(f) && f.tail == StripTail(f.tail)
    ensures ParseEstimation(Some(HoursText(f))) == Some(HoursValue(f))
  {
    var t := HoursText(f);
    StripTailText(f.tail);
    assert t[0] == f.number.whole[0];
    assert !IsWhitespace(t[|t| - 1]) by {
      var tt := TailText(f.tail);
      if tt == [] {
        assert t[|t| - 1] == 'h';
      } else {
        assert t[|t| - 1] == tt[|tt| - 1];
      }
    }
    HoursTextNoUpper(f);
    CleanInput(t);
    HoursNotMinutes(f);
    MatchHoursComplete(f);
  }

  /** The hours layout without its trailing whitespace. */
  function StripHours(f: HoursForm): HoursForm {
    HoursForm(f.number, f.space1, StripTail(f.tail))
  }

  lemma PadAtEnd(a: string, b: string, c: string, d: string, pad: string)
    ensures a + (b + (c + (d + pad))) == [] + (a + (b + (c + d))) + pad
  {
  }

  /** Parsing a hours layout ignores the whitespace it ends in. */
  lemma StripHoursText(f: HoursForm)
    requires HoursWellFormed(f)
    ensures HoursWellFormed(StripHours(f)) && StripHours(f).tail == StripTail(StripHours(f).tail)
    ensures ParseEstimation(Some(HoursText(f))) == ParseEstimation(Some(HoursText(StripHours(f))))
  {
    var g := StripHours(f);
    var pad := TrailingSpace(f.tail);
    StripTailText(f.tail);
    var dt, tt := DecimalText(f.number), TailText(g.tail);
    assert HoursText(f) == dt + (f.space1 + ("h" + (tt + pad)));
    PadAtEnd(dt, f.space1, "h", tt, pad);
    assert HoursText(g) == dt + (f.space1 + ("h" + tt));
    EstimationIgnoresPadding([], HoursText(g), pad);
  }

  /** "<H>h", "<H>h<M>m", "<H>h<M>", "<H.F>h" and their spaced variants:
      `Math.round(60 * H + M)` minutes. */
  lemma ParseHoursForm(f: HoursForm)
    requires HoursWellFormed(f)
    ensures ParseEstimation(Some(HoursText(f))) == Some(HoursValue(f))
  {
    var g := StripHours(f);
    StripHoursText(f);
    ParseStrippedHours(g);
    assert HoursValue(g) == HoursValue(f) by {
      assert g.number == f.number && g.tail.minutes == f.tail.minutes;
      assert DecimalReal(g.number) * 60.0 + MinutesOf(g.tail.minutes) as real
          == DecimalReal(f.number) * 60.0 + MinutesOf(f.tail.minutes) as real;
    }
  }

  /** A text of the minutes pattern ends in its unit letter. */
  lemma MinutesEndInUnit(t: string)
    ensures MatchMinutes(t).Some? ==> |t| > 0 && t[|t| - 1] == 'm'
  {
    if MatchMinutes(t).Some? {
      MatchMinutesSound(t);
      var f := MatchMinutes(t).value;
      assert MinutesText(f)[|t| - 1] == 'm';
    }
  }

  /** A text of the hours pattern holds its unit letter. */
  lemma HoursHoldUnit(t: string)
    ensures MatchHours(t).Some? ==> 'h' in t
  {
    if MatchHours(t).Some? {
      MatchHoursSound(t);
      var f := MatchHours(t).value;
      assert HoursText(f)[|DecimalText(f.number)| + |f.space1|] == 'h';
    }
  }

  /** A plain digit string is a number of minutes. */
  lemma ParseDigitsForm(d: string)
    requires IsDigitRun(d)
    ensures ParseEstimation(Some(d)) == Some(DecimalValue(d))
  {
    CleanInput(d);
    MinutesEndInUnit(d);
    HoursHoldUnit(d);
  }

  /** The trimmed, lower-cased text the patterns see. */
  function Cleaned(s: string): string {
    LowerAll(Trim(s))
  }

  /** An estimation is accepted exactly when its cleaned text is printed by
      a minutes layout, by a hours layout, or is a run of digits. */
  lemma ParseEstimationAccepts(s: string)
    ensures ParseEstimation(Some(s)).Some? <==>
      (exists f :: MinutesWellFormed(f) && MinutesText(f) == Cleaned(s)) ||
      (exists f :: HoursWellFormed(f) && HoursText(f) == Cleaned(s)) ||
      (Trim(s) != [] && IsDigitRun(Cleaned(s)))
  {
    var t := Cleaned(s);
    if ParseEstimation(Some(s)).Some? {
      if MatchMinutes(t).Some? {
        MatchMinutesSound(t);
      } else if MatchHours(t).Some? {
        MatchHoursSound(t);
      }
    }
    if f :| MinutesWellFormed(f) && MinutesText(f) == t {
      MatchMinutesComplete(f);
      assert Trim(s) != [];
    }
    if f :| HoursWellFormed(f) && HoursText(f) == t {
      MatchHoursComplete(f);
      assert t != [] by { assert |HoursText(f)| > 0; }
      assert Trim(s) != [];
    }
  }

  /** A value the parser returns is the one its layout denotes. */
  lemma ParseEstimationValue(s: string)
    requires ParseEstimation(Some(s)).Some?
    ensures var v := ParseEstimation(Some(s)).value;
      (exists f :: MinutesWellFormed(f) && MinutesText(f) == Cleaned(s) && v == DecimalValue(f.digits)) ||
      (exists f :: HoursWellFormed(f) && HoursText(f) == Cleaned(s) && v == HoursValue(f)) ||
      (IsDigitRun(Cleaned(s)) && v == DecimalValue(Cleaned(s)))
  {
    var t := Cleaned(s);
    if MatchMinutes(t).Some? {
      MatchMinutesSound(t);
    } else if MatchHours(t).Some? {
      MatchHoursSound(t);
    }
  }

  /** All three patterns start with a digit. */
  lemma AcceptedStartsWithDigit(t: string)
    requires ParseCleaned(t).Some?
    ensures t != [] && IsDigit(t[0])
  {
    if MatchMinutes(t).Some? {
      MatchMinutesSound(t);
      assert t[0] == MatchMinutes(t).value.digits[0];
    } else if MatchHours(t).Some? {
      MatchHoursSound(t);
      assert t[0] == MatchHours(t).value.number.whole[0];
    }
  }

  // -------------------------------------------------------------- examples

  lemma ExampleMinutes()
    ensures ParseEstimation(Some("30m")) == Some(30)
  {
    ParseMinutesForm(MinutesForm("30", []));
    assert MinutesText(MinutesForm("30", [])) == "30m";
    Thirty();
  }

  lemma ExampleSpacedMinutes()
    ensures ParseEstimation(Some("45 m")) == Some(45)
  {
    var f := MinutesForm("45", " ");
    ParseMinutesForm(f);
    assert MinutesText(f) == "45 m";
    FortyFive();
  }

  lemma ExampleHours()
    ensures ParseEstimation(Some("2h")) == Some(120)
  {
    var f := HoursForm(Decimal("2", None), [], HourTail([], None, [], false));
    assert HoursText(f) == "2h";
    Two();
    assert DecimalReal(f.number) == 2.0;
    assert HoursValue(f) == Round(120.0) == 120;
    HoursExample(f, "2h", 120);
  }

  lemma ExampleHoursMinutes()
    ensures ParseEstimation(Some("2h30m")) == Some(150)
  {
    var f := HoursForm(Decimal("2", None), [], HourTail([], Some("30"), [], true));
    assert HoursText(f) == "2h30m";
    Two(); Thirty();
    assert DecimalReal(f.number) == 2.0;
    assert MinutesOf(f.tail.minutes) == 30;
    assert HoursValue(f) == Round(150.0) == 150;
    HoursExample(f, "2h30m", 150);
  }

  lemma ExampleHoursBareMinutes()
    ensures ParseEstimation(Some("2h 30")) == Some(150)
  {
    var f := HoursForm(Decimal("2", None), [], HourTail(" ", Some("30"), [], false));
    assert HoursText(f) == "2h 30";
    Two(); Thirty();
    assert DecimalReal(f.number) == 2.0;
    assert MinutesOf(f.tail.minutes) == 30;
    assert HoursValue(f) == Round(150.0) == 150;
    HoursExample(f, "2h 30", 150);
  }

  lemma ExampleFractionalHours()
    ensures ParseEstimation(Some("1.5h")) == Some(90)
  {
    var f := HoursForm(Decimal("1", Some("5")), [], HourTail([], None, [], false));
    assert HoursText(f) == "1.5h";
    One(); Five();
    assert DecimalReal(f.number) == 1.5;
    assert HoursValue(f) == Round(90.0) == 90;
    HoursExample(f, "1.5h", 90);
  }

  /** An example of the hours layout, once its text and value are known. */
  lemma HoursExample(f: HoursForm, t: string, m: int)
    requires HoursWellFormed(f) && HoursText(f) == t && HoursValue(f) == m
    ensures ParseEstimation(Some(t)) == Some(m)
  {
    ParseHoursForm(f);
  }

  lemma ExampleDigits()
    ensures ParseEstimation(Some("45")) == Some(45)
  {
    ParseDigitsForm("45");
    FortyFive();
  }

  /** The numbers the examples spell. */
  lemma One() ensures DecimalValue("1") == 1 { assert "1"[..0] == []; }
  lemma Two() ensures DecimalValue("2") == 2 { assert "2"[..0] == []; }
  lemma Five() ensures DecimalValue("5") == 5 { assert "5"[..0] == []; }
  lemma Thirty() ensures DecimalValue("30") == 30 { assert "30"[..1] == "3" && "3"[..0] == []; }
  lemma FortyFive() ensures DecimalValue("45") == 45 { assert "45"[..1] == "4" && "4"[..0] == []; }

  lemma ExamplePaddedUpperCase()
    ensures ParseEstimation(Some("  2H ")) == Some(120)
  {
    assert LowerAll("2H") == "2h" by {
      assert "2H"[..1] == "2" && "2"[..0] == [];
    }
    calc {
      ParseEstimation(Some("  2H "));
    == { assert "  " + "2H" + " " == "  2H "; EstimationIgnoresPadding("  ", "2H", " "); }
      ParseEstimation(Some("2H"));
    == { EstimationIgnoresCase("2H"); }
      ParseEstimation(Some("2h"));
    == { ExampleHours(); }
      Some(120);
    }
  }

  lemma ExampleRejectedWord()
    ensures ParseEstimation(Some("abc")) == None
  {
    CleanInput("abc");
    if ParseCleaned("abc").Some? {
      AcceptedStartsWithDigit("abc");
    }
  }

  lemma ExampleRejected()
    ensures ParseEstimation(Some("")) == None
    ensures ParseEstimation(Some("   ")) == None
    ensures ParseEstimation(None) == None
  {
    assert AllWhitespace("   ");
  }
}

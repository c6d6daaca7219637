/** `formatHoursMinutes` of the monthly target line. */
module MonthlyTarget {
  import opened JsString

  /** The whole multiples of `d` in a non-negative `y` leave less than `d`. */
  lemma WholeMultiples(y: real, d: real, f: int)
    requires y >= 0.0 && d > 0.0 && f as real <= y / d < f as real + 1.0
    ensures f as real * d <= y < f as real * d + d
  {
    var q := y / d;
    assert q * d == y;
    var a := q - f as real;
    assert a * d == y - f as real * d;
    ScaledFraction(a, d);
  }

  lemma ScaledFraction(a: real, d: real)
    requires 0.0 <= a < 1.0 && d > 0.0
    ensures 0.0 <= a * d < d
  {
  }

  /** The remainder of a non-negative amount after the whole multiples of
      `d`. */
  function FloorRem(y: real, d: real): (r: real)
    requires y >= 0.0 && d > 0.0
    ensures 0.0 <= r < d
    ensures r == y - (y / d).Floor as real * d
  {
    WholeMultiples(y, d, (y / d).Floor);
    y - (y / d).Floor as real * d
  }

  /** JavaScript's `%`: the dividend minus the whole multiples of `d` toward
      zero, so the remainder takes the sign of the dividend. */
  function JsRem(x: real, d: real): (r: real)
    requires d > 0.0
    ensures x >= 0.0 ==> 0.0 <= r < d
    ensures x < 0.0 ==> -d < r <= 0.0
  {
    if x >= 0.0 then FloorRem(x, d) else -FloorRem(-x, d)
  }

  function Hours(seconds: real): int {
    (seconds / 3600.0).Floor
  }

  function Minutes(seconds: real): (m: int)
    ensures -60 <= m < 60
  {
    (JsRem(seconds, 3600.0) / 60.0).Floor
  }

  /** `formatHoursMinutes(seconds)`. */
  function FormatHoursMinutes(seconds: real): string {
    var h := Hours(seconds);
    var m := Minutes(seconds);
    if h > 0 then IntToString(h) + "h " + IntToString(m) + "m" else IntToString(m) + "m"
  }

  /** For a non-negative amount the whole hours and minutes are the largest
      that fit: `3600h + 60m <= s < 3600h + 60m + 60`, with `0 <= m < 60`. */
  lemma HoursMinutesBounds(seconds: real)
    requires seconds >= 0.0
    ensures 0 <= Minutes(seconds) < 60 && Hours(seconds) >= 0
    ensures 3600.0 * Hours(seconds) as real + 60.0 * Minutes(seconds) as real <= seconds
    ensures seconds < 3600.0 * Hours(seconds) as real + 60.0 * Minutes(seconds) as real + 60.0
  {
  }

  /** Under an hour only minutes are shown; from an hour on both are. */
  lemma FormatShape(seconds: real)
    requires seconds >= 0.0
    ensures seconds < 3600.0 ==> FormatHoursMinutes(seconds) == IntToString(Minutes(seconds)) + "m"
    ensures seconds >= 3600.0 ==>
      FormatHoursMinutes(seconds) == IntToString(Hours(seconds)) + "h " + IntToString(Minutes(seconds)) + "m"
  {
    assert seconds >= 3600.0 ==> seconds / 3600.0 >= 1.0;
  }

  lemma ExampleHourAndHalf()
    ensures FormatHoursMinutes(5400.0) == "1h 30m"
  {
    assert Hours(5400.0) == 1;
    assert JsRem(5400.0, 3600.0) == 1800.0;
    assert Minutes(5400.0) == 30;
    assert NatToString(30) == "30" by {
      assert NatToString(3) == "3";
    }
  }
}

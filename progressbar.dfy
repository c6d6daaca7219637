/** `ProgressBar`: the share of the monthly target worked, drawn as a bar of
    20 cells, and the pace colour. */
module ProgressBar {
  import opened Wrappers
  import opened JsValue

  const BarWidth: int := 20

  /** `targetHours > 0 ? Math.min(1, workedHours / targetHours) : 0`. */
  function Progress(worked: real, target: real): (p: real)
    ensures target > 0.0 && worked >= 0.0 ==> 0.0 <= p <= 1.0
    ensures target > 0.0 ==> (p == 1.0 <==> worked >= target)
    ensures target > 0.0 && worked < target ==> p * target == worked
    ensures target <= 0.0 ==> p == 0.0
  {
    if target > 0.0 then
      var ratio := worked / target;
      assert ratio * target == worked;
      assert ratio >= 1.0 <==> worked >= target by {
        assert ratio >= 1.0 ==> ratio * target >= target;
        assert ratio < 1.0 ==> ratio * target < target;
      }
      if ratio <= 1.0 then ratio else 1.0
    else 0.0
  }

  /** `s.repeat(n)`, which throws a RangeError for a negative count. */
  function Repeat(c: char, n: int): (r: Result<string, string>)
    ensures n < 0 <==> r.Err?
    ensures r.Ok? ==> |r.value| == n && forall i :: 0 <= i < n ==> r.value[i] == c
  {
    if n < 0 then Err("RangeError") else Ok(seq(n, _ => c))
  }

  /** `Math.round(progress * BAR_WIDTH)`. */
  function Filled(progress: real): int {
    Round(progress * BarWidth as real)
  }

  /** The bar: `filled` full cells and the rest empty. */
  function Bar(progress: real): Result<string, string> {
    var filled := Filled(progress);
    match Repeat('█', filled)
    case Err(e) => Err(e)
    case Ok(full) =>
      match Repeat('░', BarWidth - filled)
      case Err(e) => Err(e)
      case Ok(empty) => Ok(full + empty)
  }

  /** `Math.round(progress * 100)`. */
  function Percentage(progress: real): int {
    Round(progress * 100.0)
  }

  /** For non-negative hours the bar is exactly 20 cells, the full ones first,
      as many as the rounded share of 20, and the percentage is between 0 and
      100. */
  lemma BarShape(worked: real, target: real)
    requires worked >= 0.0
    ensures var p := Progress(worked, target);
      var f := Filled(p);
      0 <= f <= BarWidth && Bar(p).Ok? && |Bar(p).value| == BarWidth &&
      (forall i :: 0 <= i < f ==> Bar(p).value[i] == '█') &&
      (forall i :: f <= i < BarWidth ==> Bar(p).value[i] == '░') &&
      0 <= Percentage(p) <= 100
  {
  }

  /** Against a positive target, `repeat` throws exactly when the worked
      hours are below -1/40 of the target, where the cell count rounds to a
      negative number. */
  lemma NegativeWorkThrows(worked: real, target: real)
    requires target > 0.0
    ensures Bar(Progress(worked, target)).Err? <==> worked * 40.0 < -target
  {
    var p := Progress(worked, target);
    if worked >= target {
      return;
    }
    assert p * target == worked;
    var a := p * 40.0 + 1.0;
    assert a * target == worked * 40.0 + target;
    NegativeFactor(a, target);
  }

  lemma NegativeFactor(a: real, t: real)
    requires t > 0.0
    ensures a * t < 0.0 <==> a < 0.0
  {
  }

  /** `getPaceColor(remainingHours, workingDaysLeft)`. */
  function PaceColor(remaining: real, daysLeft: real): string {
    if remaining <= 0.0 then "green"
    else
      var perDay := if daysLeft > 0.0 then remaining / daysLeft else 0.0;
      if perDay > 10.0 then "red"
      else if perDay > 8.0 then "yellow"
      else "green"
  }

  /** With hours left and days left, red means more than 10 hours a day are
      needed and yellow more than 8 but at most 10; with no hours or no
      days left it is green. */
  lemma PaceThresholds(remaining: real, daysLeft: real)
    ensures remaining <= 0.0 || daysLeft <= 0.0 ==> PaceColor(remaining, daysLeft) == "green"
    ensures remaining > 0.0 && daysLeft > 0.0 ==>
      (PaceColor(remaining, daysLeft) == "red" <==> remaining > 10.0 * daysLeft) &&
      (PaceColor(remaining, daysLeft) == "yellow" <==> 8.0 * daysLeft < remaining <= 10.0 * daysLeft) &&
      (PaceColor(remaining, daysLeft) == "green" <==> remaining <= 8.0 * daysLeft)
  {
    if remaining > 0.0 && daysLeft > 0.0 {
      var perDay := remaining / daysLeft;
      assert perDay * daysLeft == remaining;
      assert perDay > 10.0 <==> remaining > 10.0 * daysLeft by {
        assert perDay > 10.0 ==> perDay * daysLeft > 10.0 * daysLeft;
        assert perDay <= 10.0 ==> perDay * daysLeft <= 10.0 * daysLeft;
      }
      assert perDay > 8.0 <==> remaining > 8.0 * daysLeft by {
        assert perDay > 8.0 ==> perDay * daysLeft > 8.0 * daysLeft;
        assert perDay <= 8.0 ==> perDay * daysLeft <= 8.0 * daysLeft;
      }
    }
  }
}

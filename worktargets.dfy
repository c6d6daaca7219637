/** `statusColor` of the work-targets panel: how the worked hours compare
    with a target. */
module WorkTargets {
  /** `target > 0 ? worked / target : 1`, then the 0.9 and 0.6 thresholds. */
  function StatusColor(worked: real, target: real): string {
    var ratio := if target > 0.0 then worked / target else 1.0;
    if ratio >= 0.9 then "green"
    else if ratio >= 0.6 then "yellow"
    else "red"
  }

  /** Without a positive target the status is green; otherwise it is green
      from 90% of the target, yellow from 60% and red below, stated by
      cross-multiplication. */
  lemma StatusThresholds(worked: real, target: real)
    ensures target <= 0.0 ==> StatusColor(worked, target) == "green"
    ensures target > 0.0 ==>
      (StatusColor(worked, target) == "green" <==> 10.0 * worked >= 9.0 * target) &&
      (StatusColor(worked, target) == "yellow" <==> 6.0 * target <= 10.0 * worked < 9.0 * target) &&
      (StatusColor(worked, target) == "red" <==> 10.0 * worked < 6.0 * target)
  {
    if target > 0.0 {
      AtLeast(worked, target, 0.9);
      AtLeast(worked, target, 0.6);
      assert "green" != "yellow" && "green" != "red" && "yellow" != "red";
    }
  }

  /** `w / t >= k` exactly when `w >= k * t`, for a positive `t`. */
  lemma AtLeast(w: real, t: real, k: real)
    requires t > 0.0
    ensures w / t >= k <==> w >= k * t
  {
    var ratio := w / t;
    assert ratio * t == w;
    if ratio >= k {
      assert (ratio - k) * t >= 0.0;
    } else {
      assert (k - ratio) * t > 0.0;
    }
  }
}

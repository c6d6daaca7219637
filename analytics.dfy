/** The analytics service: the median helper, estimation accuracy, the
    session distribution and the budget status of one task's time entries.
    The clock-dependent `timeSinceLastSeconds` is not part of this model. */
module Analytics {
  import opened Wrappers
  import opened JsValue
  import opened Entries
  import opened Sorting

  // ----------------------------------------------------- list statistics

  function MinOf(s: seq<int>): (m: int)
    requires s != []
    ensures m in s && forall x :: x in s ==> m <= x
  {
    if |s| == 1 then s[0]
    else
      var r := MinOf(s[1..]);
      assert forall x :: x in s ==> x == s[0] || x in s[1..];
      if s[0] <= r then s[0] else r
  }

  function MaxOf(s: seq<int>): (m: int)
    requires s != []
    ensures m in s && forall x :: x in s ==> x <= m
  {
    if |s| == 1 then s[0]
    else
      var r := MaxOf(s[1..]);
      assert forall x :: x in s ==> x == s[0] || x in s[1..];
      if s[0] >= r then s[0] else r
  }

  /** `values.reduce((a, b) => a + b, 0)`. */
  function Sum(s: seq<int>): int {
    if s == [] then 0 else Sum(s[..|s| - 1]) + s[|s| - 1]
  }

  /** The sum lies between the count times the least and the count times the
      greatest element. */
  lemma {:induction false} SumBetween(s: seq<int>, lo: int, hi: int)
    requires forall x :: x in s ==> lo <= x <= hi
    ensures |s| * lo <= Sum(s) <= |s| * hi
  {
    if s != [] {
      var p := s[..|s| - 1];
      assert forall x :: x in p ==> x in s;
      SumBetween(p, lo, hi);
      assert s[|s| - 1] in s;
      OneMore(|p|, lo);
      OneMore(|p|, hi);
    }
  }

  lemma OneMore(n: int, x: int)
    ensures (n + 1) * x == n * x + x
  {
  }

  /** `calculateMedian(values)`: `None` for an empty list, else the middle
      of the ascending order, or the mean of the two middle values. */
  function Median(values: seq<int>): (r: Option<real>)
    ensures r.None? <==> values == []
  {
    if values == [] then None else Some(Middle(SortInts(values)))
  }

  /** The middle element of a list, or the mean of the two middle ones. */
  function Middle(s: seq<int>): real
    requires s != []
  {
    var mid := |s| / 2;
    if |s| % 2 == 1 then s[mid] as real else (s[mid - 1] + s[mid]) as real / 2.0
  }

  lemma MiddleBetween(s: seq<int>)
    requires s != [] && IntsSorted(s)
    ensures s[0] as real <= Middle(s) <= s[|s| - 1] as real
  {
    var mid := |s| / 2;
    assert s[0] <= s[mid] <= s[|s| - 1];
    if |s| % 2 == 0 {
      assert s[0] <= s[mid - 1] <= s[|s| - 1];
    }
  }

  /** The ends of an ascending arrangement of some values are the least and
      the greatest of them. */
  lemma SortedEnds(s: seq<int>, values: seq<int>)
    requires s != [] && IntsSorted(s) && multiset(s) == multiset(values)
    ensures s[0] == MinOf(values) && s[|s| - 1] == MaxOf(values)
  {
    var lo, hi := MinOf(values), MaxOf(values);
    assert s[0] in multiset(values) && s[|s| - 1] in multiset(values);
    assert s[0] in values && s[|s| - 1] in values;
    assert lo <= s[0] && s[|s| - 1] <= hi;
    assert lo in multiset(s) && hi in multiset(s);
    SortedBounds(s, lo);
    SortedBounds(s, hi);
  }

  /** The median lies between the least and the greatest value. */
  lemma MedianBetween(values: seq<int>)
    requires values != []
    ensures MinOf(values) as real <= Median(values).value <= MaxOf(values) as real
  {
    SortIntsSpec(values);
    SortedEnds(SortInts(values), values);
    MiddleBetween(SortInts(values));
  }

  /** Ordered input is its own ascending arrangement. */
  lemma MedianOfSorted(s: seq<int>)
    requires s != [] && IntsSorted(s)
    ensures Median(s) == Some(Middle(s))
  {
    SortIntsSpec(s);
  }

  lemma ExampleMedianOdd()
    ensures Median([10, 20, 30]) == Some(20.0)
  {
    var s := [10, 20, 30];
    assert IntsSorted(s) by {
      forall i, j | 0 <= i < j < |s| ensures s[i] <= s[j] {
      }
    }
    MedianOfSorted(s);
    assert Middle(s) == s[1] as real;
  }

  lemma ExampleMedianEven()
    ensures Median([10, 20]) == Some(15.0)
  {
    var s := [10, 20];
    assert IntsSorted(s) by {
      forall i, j | 0 <= i < j < |s| ensures s[i] <= s[j] {
      }
    }
    MedianOfSorted(s);
    assert Middle(s) == (s[0] + s[1]) as real / 2.0;
  }

  // --------------------------------------------------- estimation accuracy

  /** `if (!estimatedMinutes)`: a missing or zero estimate counts as none. */
  predicate HasEstimate(est: Option<int>) {
    est.Some? && est.value != 0
  }

  datatype Accuracy = Accuracy(
    estimatedSeconds: Option<int>,
    actualSeconds: int,
    differenceSeconds: Option<int>,
    differencePercent: Option<real>,
    isOverBudget: bool,
    hasEstimation: bool)

  /** `calculateEstimationAccuracy(estimatedMinutes, entries)`. */
  function EstimationAccuracy(est: Option<int>, entries: seq<Entry>): (r: Accuracy)
    ensures r.actualSeconds == ClosedSeconds(entries)
    ensures r.hasEstimation <==> HasEstimate(est)
    ensures !r.hasEstimation ==>
      r.estimatedSeconds.None? && r.differenceSeconds.None? && r.differencePercent.None? && !r.isOverBudget
    ensures r.hasEstimation ==>
      r.estimatedSeconds == Some(60 * est.value) &&
      r.differenceSeconds == Some(r.actualSeconds - 60 * est.value) &&
      (r.isOverBudget <==> r.actualSeconds > 60 * est.value)
  {
    var actual := ClosedSeconds(entries);
    if !HasEstimate(est) then Accuracy(None, actual, None, None, false, false)
    else
      var estimated := est.value * 60;
      var diff := actual - estimated;
      Accuracy(Some(estimated), actual, Some(diff), Some(diff as real / estimated as real * 100.0), diff > 0, true)
  }

  // ------------------------------------------------------- budget analysis

  datatype BudgetStatus = NoEstimation | OverBudget | Warning | OnTrack

  datatype Budget = Budget(
    percentUsed: Option<real>,
    remainingSeconds: Option<int>,
    overUnderSeconds: Option<int>,
    status: BudgetStatus)

  /** `calculateBudgetAnalysis(estimatedMinutes, entries)`. */
  function BudgetAnalysis(est: Option<int>, entries: seq<Entry>): (r: Budget)
    ensures r.status == NoEstimation <==> !HasEstimate(est)
    ensures !HasEstimate(est) ==> r.percentUsed.None? && r.remainingSeconds.None?
    ensures r.remainingSeconds == r.overUnderSeconds
    ensures HasEstimate(est) ==>
      r.percentUsed.Some? && r.remainingSeconds.Some? &&
      r.percentUsed.value * (est.value * 60) as real == 100.0 * ClosedSeconds(entries) as real &&
      r.remainingSeconds.value + ClosedSeconds(entries) == est.value * 60
  {
    var actual := ClosedSeconds(entries);
    if !HasEstimate(est) then Budget(None, None, None, NoEstimation)
    else
      var estimated := est.value * 60;
      var percent := actual as real / estimated as real * 100.0;
      var remaining := estimated - actual;
      var status := if percent >= 100.0 then OverBudget else if percent >= 80.0 then Warning else OnTrack;
      Budget(Some(percent), Some(remaining), Some(remaining), status)
  }

  /** `a / e * 100 >= p` compares like `100 * a >= p * e` for a positive `e`. */
  lemma PercentAtLeast(a: int, e: int, p: int)
    requires e > 0
    ensures a as real / e as real * 100.0 >= p as real <==> 100 * a >= p * e
  {
    var q := a as real / e as real;
    assert q * e as real == a as real;
    if a as real / e as real * 100.0 >= p as real {
      assert q * 100.0 * e as real >= p as real * e as real;
    }
    if 100 * a >= p * e {
      assert q * 100.0 * e as real >= p as real * e as real;
    }
  }

  /** With a positive estimate, the status thresholds are integer
      comparisons: over budget from 100% used, a warning from 80%. */
  lemma BudgetThresholds(est: Option<int>, entries: seq<Entry>)
    requires est.Some? && est.value > 0
    ensures var r := BudgetAnalysis(est, entries);
      var actual := ClosedSeconds(entries);
      var estimated := 60 * est.value;
      (r.status == OverBudget <==> actual >= estimated) &&
      (r.status == Warning <==> 4 * estimated <= 5 * actual < 5 * estimated) &&
      (r.status == OnTrack <==> 5 * actual < 4 * estimated) &&
      r.remainingSeconds == Some(estimated - actual)
  {
    var actual := ClosedSeconds(entries);
    var estimated := est.value * 60;
    PercentAtLeast(actual, estimated, 100);
    PercentAtLeast(actual, estimated, 80);
  }

  /** The accuracy report and the budget report describe the same numbers:
      the difference is the negated remainder, and the difference percentage
      is the used percentage less 100. */
  lemma AccuracyMatchesBudget(est: Option<int>, entries: seq<Entry>)
    requires HasEstimate(est)
    ensures var a := EstimationAccuracy(est, entries);
      var b := BudgetAnalysis(est, entries);
      a.differenceSeconds.value == -b.remainingSeconds.value &&
      a.differencePercent.value == b.percentUsed.value - 100.0
  {
    var actual := ClosedSeconds(entries);
    var e := est.value * 60;
    DifferencePercent(actual as real, e as real);
    assert (actual - e) as real == actual as real - e as real;
  }

  lemma ZeroFactor(x: real, e: real)
    requires e != 0.0 && x * e == 0.0
    ensures x == 0.0
  {
    assert x == (x * e) / e;
  }

  /** `(a - e) / e * 100` is `a / e * 100` less 100. */
  lemma DifferencePercent(a: real, e: real)
    requires e != 0.0
    ensures (a - e) / e * 100.0 == a / e * 100.0 - 100.0
  {
    var q := a / e;
    var r := (a - e) / e;
    assert q * e == a;
    assert r * e == a - e;
    assert (r - q + 1.0) * e == 0.0;
    ZeroFactor(r - q + 1.0, e);
  }

  /** With a positive estimate, a task over its estimate is over budget;
      over budget but not over the estimate means exactly on it. */
  lemma OverEstimateIsOverBudget(est: Option<int>, entries: seq<Entry>)
    requires est.Some? && est.value > 0
    ensures var a := EstimationAccuracy(est, entries);
      var b := BudgetAnalysis(est, entries);
      (b.status == OverBudget <==> a.isOverBudget || a.actualSeconds == a.estimatedSeconds.value)
  {
    BudgetThresholds(est, entries);
  }

  // ---------------------------------------------------- time distribution

  /** The entries in ascending order of start. */
  function ByStart(es: seq<Entry>): (r: seq<Entry>)
    ensures |r| == |es|
  {
    SortBy(es, (e: Entry) => e.start.seconds)
  }

  /** Sorting keeps the entries, so a list of closed entries stays closed. */
  lemma ByStartClosed(es: seq<Entry>)
    requires AllClosed(es)
    ensures AllClosed(ByStart(es)) && multiset(ByStart(es)) == multiset(es)
  {
    var r := ByStart(es);
    SortByPermutes(es, (e: Entry) => e.start.seconds);
    forall i | 0 <= i < |r| ensures IsClosed(r[i]) {
      assert r[i] in multiset(es);
      var j :| 0 <= j < |es| && es[j] == r[i];
    }
  }

  /** The gaps between consecutive sessions in order of start. */
  function StartGaps(c: seq<Entry>): (r: seq<int>)
    requires AllClosed(c)
    ensures |r| == if |c| < 2 then 0 else |c| - 1
  {
    ByStartClosed(c);
    Gaps(ByStart(c))
  }

  /** The idle time between each session and the next one to start. */
  function Gaps(s: seq<Entry>): (r: seq<int>)
    requires AllClosed(s)
    ensures |r| == if |s| < 2 then 0 else |s| - 1
  {
    if |s| < 2 then []
    else seq(|s| - 1, i requires 0 <= i < |s| - 1 => s[i + 1].start.seconds - s[i].end.value.seconds)
  }

  /** How many entries start in hour `h`. */
  function CountHour(es: seq<Entry>, h: Hour): nat {
    if es == [] then 0
    else CountHour(es[..|es| - 1], h) + if es[|es| - 1].start.hour == h then 1 else 0
  }

  /** The `hourCounts` object the `forEach` fills. */
  function HourCounts(es: seq<Entry>): map<Hour, nat> {
    if es == [] then map[]
    else
      var m := HourCounts(es[..|es| - 1]);
      var h := es[|es| - 1].start.hour;
      m[h := (if h in m then m[h] else 0) + 1]
  }

  /** The object has a key for each hour that occurs, holding its count. */
  lemma {:induction false} HourCountsSpec(es: seq<Entry>, h: Hour)
    ensures h in HourCounts(es) <==> CountHour(es, h) > 0
    ensures h in HourCounts(es) ==> HourCounts(es)[h] == CountHour(es, h)
  {
    if es != [] {
      HourCountsSpec(es[..|es| - 1], h);
    }
  }

  /** The `reduce` over `Object.entries(hourCounts)`, whose integer keys come
      in ascending order, keeping the first strict maximum: the scan of the
      hours below `n`. */
  function PeakScan(counts: map<Hour, nat>, n: nat): (Option<Hour>, nat)
    requires n <= 24
  {
    if n == 0 then (None, 0)
    else
      var (best, count) := PeakScan(counts, n - 1);
      var h: Hour := n - 1;
      if h in counts && counts[h] > count then (Some(h), counts[h]) else (best, count)
  }

  /** The scan finds the lowest hour of greatest count. */
  lemma {:induction false} PeakScanSpec(counts: map<Hour, nat>, n: nat)
    requires n <= 24
    ensures var (best, count) := PeakScan(counts, n);
      (best.None? ==> count == 0 && forall h: Hour :: h < n && h in counts ==> counts[h] == 0) &&
      (best.Some? ==>
        best.value < n && best.value in counts && counts[best.value] == count && count > 0 &&
        (forall h: Hour :: h < n && h in counts ==> counts[h] <= count) &&
        (forall h: Hour :: h < best.value && h in counts ==> counts[h] < count))
  {
    if n > 0 {
      PeakScanSpec(counts, n - 1);
    }
  }

  /** `peakHour`: the most common start hour. */
  function PeakHour(es: seq<Entry>): Option<Hour> {
    PeakScan(HourCounts(es), 24).0
  }

  /** The peak hour is an hour of greatest count, and every lower hour has a
      smaller count: ties go to the lowest hour. There is one exactly when
      there are entries. */
  lemma PeakHourSpec(es: seq<Entry>)
    ensures PeakHour(es).None? <==> es == []
    ensures PeakHour(es).Some? ==> var p := PeakHour(es).value;
      CountHour(es, p) > 0 &&
      (forall h: Hour :: CountHour(es, h) <= CountHour(es, p)) &&
      (forall h: Hour :: h < p ==> CountHour(es, h) < CountHour(es, p))
  {
    var counts := HourCounts(es);
    PeakScanSpec(counts, 24);
    forall h: Hour ensures h in counts <==> CountHour(es, h) > 0
      ensures h in counts ==> counts[h] == CountHour(es, h) {
      HourCountsSpec(es, h);
    }
    if es != [] {
      var h := es[|es| - 1].start.hour;
      assert h in counts;
    }
  }

  /** [9, 9, 14, 14] peaks at 9. */
  lemma ExamplePeakTie(a: Entry, b: Entry, c: Entry, d: Entry)
    requires a.start.hour == 9 && b.start.hour == 9 && c.start.hour == 14 && d.start.hour == 14
    ensures PeakHour([a, b, c, d]) == Some(9)
  {
    var es := [a, b, c, d];
    PeakHourSpec(es);
    assert es[..3] == [a, b, c] && [a, b, c][..2] == [a, b] && [a, b][..1] == [a] && [a][..0] == [];
    var p := PeakHour(es).value;
    assert CountHour([a], 9) == 1 && CountHour([a, b], 9) == 2 && CountHour([a, b, c], 9) == 2;
    assert CountHour([a], 14) == 0 && CountHour([a, b], 14) == 0 && CountHour([a, b, c], 14) == 1;
    assert CountHour(es, 9) == 2 && CountHour(es, 14) == 2;
    assert CountHour([a], p) == (if p == 9 then 1 else 0);
    assert CountHour([a, b], p) == (if p == 9 then 2 else 0);
    assert CountHour([a, b, c], p) == (if p == 9 then 2 else if p == 14 then 1 else 0);
    assert CountHour(es, p) == (if p == 9 || p == 14 then 2 else 0);
  }

  /** `new Set(entries.map(e => day(e.start))).size`. */
  function Days(es: seq<Entry>): set<int> {
    set i | 0 <= i < |es| :: es[i].start.day
  }

  lemma {:induction false} DaysBounds(es: seq<Entry>)
    ensures |Days(es)| <= |es|
    ensures es != [] ==> |Days(es)| >= 1
  {
    if es != [] {
      var p := es[..|es| - 1];
      DaysBounds(p);
      assert Days(es) == Days(p) + {es[|es| - 1].start.day} by {
        forall d | d in Days(es) ensures d in Days(p) + {es[|es| - 1].start.day} {
          var i :| 0 <= i < |es| && es[i].start.day == d;
          if i < |es| - 1 {
            assert p[i] == es[i];
          }
        }
        forall d | d in Days(p) ensures d in Days(es) {
          var i :| 0 <= i < |p| && p[i].start.day == d;
          assert es[i] == p[i];
        }
      }
      assert es[|es| - 1].start.day in Days(es);
    }
  }

  /** `durations.filter(d => d >= 3600).length`. */
  function DeepWorkCount(ds: seq<int>): (r: nat)
    ensures r <= |ds|
    ensures (forall i :: 0 <= i < |ds| ==> ds[i] >= 3600) ==> r == |ds|
    ensures (forall i :: 0 <= i < |ds| ==> ds[i] < 3600) ==> r == 0
  {
    if ds == [] then 0 else DeepWorkCount(ds[1..]) + if ds[0] >= 3600 then 1 else 0
  }

  /** Counting from the front agrees with counting from the back. */
  lemma {:induction false} DeepWorkCountSnoc(ds: seq<int>, d: int)
    ensures DeepWorkCount(ds + [d]) == DeepWorkCount(ds) + if d >= 3600 then 1 else 0
  {
    if ds != [] {
      assert (ds + [d])[1..] == ds[1..] + [d];
      DeepWorkCountSnoc(ds[1..], d);
    }
  }

  /** The deep-work count is the number of sessions of an hour or more. */
  lemma {:induction false} DeepWorkCountSpec(ds: seq<int>)
    ensures DeepWorkCount(ds) == |set i | 0 <= i < |ds| && ds[i] >= 3600|
  {
    if ds != [] {
      var n := |ds| - 1;
      var p := ds[..n];
      assert ds == p + [ds[n]];
      DeepWorkCountSnoc(p, ds[n]);
      DeepWorkCountSpec(p);
      var before := set i | 0 <= i < |p| && p[i] >= 3600;
      var all := set i | 0 <= i < |ds| && ds[i] >= 3600;
      if ds[n] >= 3600 {
        assert all == before + {n};
      } else {
        assert all == before;
      }
    }
  }

  datatype Distribution = Distribution(
    sessionCount: nat,
    avgSessionSeconds: Option<int>,
    medianSessionSeconds: Option<real>,
    longestSessionSeconds: Option<int>,
    shortestSessionSeconds: Option<int>,
    longestGapSeconds: Option<int>,
    lastActivity: Option<Stamp>,
    daysWorked: nat,
    dateRangeDays: int,
    peakHour: Option<Hour>,
    deepWorkCount: nat)

  /** The report of `calculateTimeDistribution`, as a function of its inputs. */
  function DistributionOf(entries: seq<Entry>, dateRangeDays: int): Distribution {
    var c := Closed(entries);
    if c == [] then Distribution(0, None, None, None, None, None, None, 0, dateRangeDays, None, 0)
    else Report(c, dateRangeDays)
  }

  /** The report over a non-empty list of closed entries. */
  function Report(c: seq<Entry>, dateRangeDays: int): Distribution
    requires c != [] && AllClosed(c)
  {
    var ds := Durations(c);
    var sd := SortInts(ds);
    var gaps := StartGaps(c);
    Distribution(
      |c|,
      Some(Round(Sum(ds) as real / |ds| as real)),
      Median(sd),
      Some(sd[|sd| - 1]),
      Some(sd[0]),
      if |gaps| > 0 then Some(MaxOf(gaps)) else None,
      Some(LastStarted(c).end.value),
      |Days(c)|,
      dateRangeDays,
      PeakHour(c),
      DeepWorkCount(ds))
  }

  /** The entry that starts last (the last of them in list order on a tie). */
  function LastStarted(c: seq<Entry>): (e: Entry)
    requires c != [] && AllClosed(c)
    ensures IsClosed(e) && e in c
  {
    ByStartClosed(c);
    var s := ByStart(c);
    assert s[|s| - 1] in multiset(c);
    s[|s| - 1]
  }

  /** The `for` loop that pushes the gap before each session but the first. */
  method CollectGaps(s: seq<Entry>) returns (gaps: seq<int>)
    requires AllClosed(s)
    ensures gaps == Gaps(s)
  {
    gaps := [];
    if |s| < 2 {
      return;
    }
    for i := 1 to |s|
      invariant |gaps| == i - 1
      invariant forall k :: 0 <= k < i - 1 ==> gaps[k] == s[k + 1].start.seconds - s[k].end.value.seconds
    {
      gaps := gaps + [s[i].start.seconds - s[i - 1].end.value.seconds];
    }
    var g := Gaps(s);
    assert |gaps| == |g| && forall k :: 0 <= k < |g| ==> gaps[k] == g[k];
  }

  /** The `forEach` that fills `hourCounts`. */
  method CountHours(c: seq<Entry>) returns (counts: map<Hour, nat>)
    ensures counts == HourCounts(c)
  {
    counts := map[];
    for i := 0 to |c|
      invariant counts == HourCounts(c[..i])
    {
      var h := c[i].start.hour;
      assert c[..i + 1][..i] == c[..i];
      counts := counts[h := (if h in counts then counts[h] else 0) + 1];
    }
    assert c[..|c|] == c;
  }

  /** The `reduce` over the hour counts in ascending key order. */
  method FindPeak(counts: map<Hour, nat>) returns (best: Option<Hour>)
    ensures best == PeakScan(counts, 24).0
  {
    best := None;
    var bestCount: nat := 0;
    for n := 0 to 24
      invariant (best, bestCount) == PeakScan(counts, n)
    {
      var h: Hour := n;
      if h in counts && counts[h] > bestCount {
        best, bestCount := Some(h), counts[h];
      }
    }
  }

  /** `calculateTimeDistribution(entries, dateRangeDays)`. */
  method TimeDistribution(entries: seq<Entry>, dateRangeDays: int) returns (d: Distribution)
    ensures d == DistributionOf(entries, dateRangeDays)
  {
    var c := Closed(entries);
    if c == [] {
      return Distribution(0, None, None, None, None, None, None, 0, dateRangeDays, None, 0);
    }
    var ds := Durations(c);
    var sd := SortInts(ds);
    ByStartClosed(c);
    var byStart := ByStart(c);
    var gaps := CollectGaps(byStart);
    var counts := CountHours(c);
    var peak := FindPeak(counts);
    d := Distribution(
      |c|,
      Some(Round(Sum(ds) as real / |ds| as real)),
      Median(sd),
      Some(sd[|sd| - 1]),
      Some(sd[0]),
      if |gaps| > 0 then Some(MaxOf(gaps)) else None,
      Some(byStart[|byStart| - 1].end.value),
      |Days(c)|,
      dateRangeDays,
      peak,
      DeepWorkCount(ds));
  }

  /** Only closed entries count; with none, every statistic is absent. */
  lemma DistributionCounts(entries: seq<Entry>, dateRangeDays: int)
    ensures var d := DistributionOf(entries, dateRangeDays);
      d.sessionCount == |Closed(entries)| && d.dateRangeDays == dateRangeDays &&
      d.deepWorkCount <= d.sessionCount &&
      (d.sessionCount == 0 <==>
        d.avgSessionSeconds.None? && d.medianSessionSeconds.None? &&
        d.longestSessionSeconds.None? && d.shortestSessionSeconds.None? &&
        d.lastActivity.None? && d.peakHour.None? &&
        d.daysWorked == 0) &&
      (d.sessionCount == 0 ==> d.longestGapSeconds.None? && d.deepWorkCount == 0) &&
      (d.sessionCount > 0 ==> 1 <= d.daysWorked <= d.sessionCount)
  {
    var c := Closed(entries);
    DaysBounds(c);
    if c != [] {
      PeakHourSpec(c);
    }
  }

  /** `deepWorkCount` is the number of closed entries that last an hour or
      more. */
  lemma DistributionDeepWork(entries: seq<Entry>, dateRangeDays: int)
    ensures var c := Closed(entries);
      DistributionOf(entries, dateRangeDays).deepWorkCount ==
        |set i | 0 <= i < |c| && c[i].end.Some? && Duration(c[i]) >= 3600|
  {
    var c := Closed(entries);
    if c != [] {
      var ds := Durations(c);
      DeepWorkCountSpec(ds);
      assert (set i | 0 <= i < |ds| && ds[i] >= 3600) ==
        (set i | 0 <= i < |c| && c[i].end.Some? && Duration(c[i]) >= 3600);
    }
  }

  /** The shortest and longest session are the least and greatest duration,
      and the median and the rounded mean lie between them. */
  lemma ReportSessionBounds(c: seq<Entry>, dateRangeDays: int)
    requires c != [] && AllClosed(c)
    ensures var d := Report(c, dateRangeDays);
      var ds := Durations(c);
      d.shortestSessionSeconds == Some(MinOf(ds)) &&
      d.longestSessionSeconds == Some(MaxOf(ds)) &&
      MinOf(ds) as real <= d.medianSessionSeconds.value <= MaxOf(ds) as real &&
      MinOf(ds) <= d.avgSessionSeconds.value <= MaxOf(ds)
  {
    var ds := Durations(c);
    var sd := SortInts(ds);
    SortIntsSpec(ds);
    SortedEnds(sd, ds);
    var lo, hi := MinOf(ds), MaxOf(ds);
    SortedEnds(sd, sd);
    MedianBetween(sd);
    SumBetween(ds, lo, hi);
    MeanBetween(Sum(ds), |ds|, lo, hi);
  }

  /** A mean of `n` values between `lo` and `hi` rounds into that range. */
  lemma MeanBetween(sum: int, n: nat, lo: int, hi: int)
    requires n > 0 && n * lo <= sum <= n * hi
    ensures lo <= Round(sum as real / n as real) <= hi
  {
    var mean := sum as real / n as real;
    MeanOfScaled(sum as real, n as real, lo as real);
    MeanOfScaled(sum as real, n as real, hi as real);
    assert lo as real <= mean <= hi as real;
  }

  /** Dividing by a positive count keeps the side of a bound. */
  lemma MeanOfScaled(sum: real, n: real, b: real)
    requires n > 0.0
    ensures b * n <= sum ==> b <= sum / n
    ensures sum <= b * n ==> sum / n <= b
  {
    var m := sum / n;
    assert m * n == sum;
    if b * n <= sum {
      assert (m - b) * n >= 0.0;
    }
    if sum <= b * n {
      assert (b - m) * n >= 0.0;
    }
  }

  lemma DistributionSessionBounds(entries: seq<Entry>, dateRangeDays: int)
    requires Closed(entries) != []
    ensures var d := DistributionOf(entries, dateRangeDays);
      var ds := Durations(Closed(entries));
      d.shortestSessionSeconds == Some(MinOf(ds)) &&
      d.longestSessionSeconds == Some(MaxOf(ds)) &&
      MinOf(ds) as real <= d.medianSessionSeconds.value <= MaxOf(ds) as real &&
      MinOf(ds) <= d.avgSessionSeconds.value <= MaxOf(ds)
  {
    ReportSessionBounds(Closed(entries), dateRangeDays);
  }

  /** The longest gap is the greatest idle time between consecutive sessions
      in order of start; there is none with fewer than two sessions. */
  lemma DistributionLongestGap(entries: seq<Entry>, dateRangeDays: int)
    ensures var d := DistributionOf(entries, dateRangeDays);
      var c := Closed(entries);
      var g := StartGaps(c);
      (d.longestGapSeconds.None? <==> |c| < 2) &&
      (d.longestGapSeconds.Some? ==>
        (exists i :: 0 <= i < |g| && d.longestGapSeconds.value == g[i]) &&
        (forall i :: 0 <= i < |g| ==> g[i] <= d.longestGapSeconds.value))
  {
    var c := Closed(entries);
    if |c| >= 2 {
      var g := StartGaps(c);
      var m := MaxOf(g);
      assert DistributionOf(entries, dateRangeDays).longestGapSeconds == Some(m);
      forall i | 0 <= i < |g| ensures g[i] <= m {
        assert g[i] in g;
      }
    }
  }

  /** The peak hour of the report is the lowest most frequent start hour of
      the closed entries. */
  lemma DistributionPeakHour(entries: seq<Entry>, dateRangeDays: int)
    ensures var d := DistributionOf(entries, dateRangeDays);
      d.peakHour == PeakHour(Closed(entries))
  {
    if Closed(entries) == [] {
      PeakHourSpec([]);
    }
  }
}

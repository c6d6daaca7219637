/** The pricing service: the effective-dated rate lookup, the earnings of a
    list of time entries, and their totals per task, project and client.
    Repository results come in as a `Store` snapshot taken for one date
    range; money is an exact rational. */
module Pricing {
  import opened Wrappers
  import opened JsString
  import opened Entries

  /** A row of the client's rate history. */
  datatype Rate = Rate(effectiveFrom: string, hourlyRate: real, currency: string)

  /** `rate.effective_from.split('T')[0]`: the date part of the stored text. */
  function EffectiveDate(r: Rate): string {
    BeforeFirst(r.effectiveFrom, 'T')
  }

  /** `effectiveStr <= dateStr`, comparing strings as JavaScript does. */
  predicate Applies(r: Rate, date: string) {
    LexLe(EffectiveDate(r), date)
  }

  /** How many rates from the front apply before the first that does not:
      the rates the loop visits before its `break`. */
  function ApplicablePrefix(rates: seq<Rate>, date: string): (k: nat)
    ensures k <= |rates|
    ensures forall i :: 0 <= i < k ==> Applies(rates[i], date)
    ensures k < |rates| ==> !Applies(rates[k], date)
  {
    if rates == [] || !Applies(rates[0], date) then 0
    else 1 + ApplicablePrefix(rates[1..], date)
  }

  /** What `findRateForDate` returns: the last rate visited before the
      `break`, or `None` (null). */
  function RateForDate(rates: seq<Rate>, date: string): Option<Rate> {
    var k := ApplicablePrefix(rates, date);
    if k == 0 then None else Some(rates[k - 1])
  }

  /** `findRateForDate(rates, date)` with a string date: a scan that keeps the
      last rate effective on or before `date` and stops at the first later
      one. */
  method FindRateForDate(rates: seq<Rate>, date: string) returns (applicable: Option<Rate>)
    ensures applicable == RateForDate(rates, date)
  {
    applicable := None;
    var i := 0;
    while i < |rates|
      invariant 0 <= i <= |rates|
      invariant forall k :: 0 <= k < i ==> Applies(rates[k], date)
      invariant applicable == if i == 0 then None else Some(rates[i - 1])
    {
      if Applies(rates[i], date) {
        applicable := Some(rates[i]);
      } else {
        break;
      }
      i := i + 1;
    }
    assert i == ApplicablePrefix(rates, date);
  }

  /** The order the repository returns the rates in: ascending dates. */
  predicate SortedByEffective(rates: seq<Rate>) {
    forall i, j :: 0 <= i < j < |rates| ==> LexLe(EffectiveDate(rates[i]), EffectiveDate(rates[j]))
  }

  /** On ascending rates the `break` changes nothing: the result is the last
      rate of the whole list that applies, and `None` exactly when none
      does. */
  lemma RateForDateIsLastApplicable(rates: seq<Rate>, date: string)
    requires SortedByEffective(rates)
    ensures RateForDate(rates, date).None? <==> forall i :: 0 <= i < |rates| ==> !Applies(rates[i], date)
    ensures RateForDate(rates, date).Some? ==>
      exists i :: 0 <= i < |rates| && rates[i] == RateForDate(rates, date).value &&
        Applies(rates[i], date) && forall j :: i < j < |rates| ==> !Applies(rates[j], date)
  {
    var k := ApplicablePrefix(rates, date);
    forall j | k <= j < |rates| ensures !Applies(rates[j], date) {
      if j > k && Applies(rates[j], date) {
        LexLeTransitive(EffectiveDate(rates[k]), EffectiveDate(rates[j]), date);
      }
    }
    if k > 0 {
      assert rates[k - 1] == RateForDate(rates, date).value;
    }
  }

  /** A rate taking effect on an entry's own day applies to it: the date part
      is a prefix of the entry's "YYYY-MM-DD HH:MM:SS" text. */
  lemma SameDayApplies(r: Rate, time: string)
    ensures Applies(r, EffectiveDate(r) + time)
  {
    LexLePrefix(EffectiveDate(r), time);
  }

  // --------------------------------------------------------------- earnings

  /** `rate.currency || 'PLN'`. */
  function CurrencyOr(c: string): string {
    if c == "" then "PLN" else c
  }

  /** What one closed entry earns: its hours times the rate effective at its
      start, or nothing when no rate applies. */
  function EntryEarnings(e: Entry, rates: seq<Rate>): real
    requires IsClosed(e)
  {
    match RateForDate(rates, e.start.text)
    case None => 0.0
    case Some(r) => Duration(e) as real / 3600.0 * r.hourlyRate
  }

  /** The earnings of all closed entries. */
  function EarningsOf(es: seq<Entry>, rates: seq<Rate>): real {
    if es == [] then 0.0
    else
      var e := es[|es| - 1];
      EarningsOf(es[..|es| - 1], rates) + if IsClosed(e) then EntryEarnings(e, rates) else 0.0
  }

  /** The currency of the last closed entry a rate applies to; 'PLN' if none. */
  function CurrencyOf(es: seq<Entry>, rates: seq<Rate>): string {
    if es == [] then "PLN"
    else
      var e := es[|es| - 1];
      var r := RateForDate(rates, e.start.text);
      if IsClosed(e) && r.Some? then CurrencyOr(r.value.currency) else CurrencyOf(es[..|es| - 1], rates)
  }

  datatype Totals = Totals(totalSeconds: int, totalEarnings: real, currency: string)

  /** The result `calculateEntriesEarnings` promises. */
  function EntriesEarnings(es: seq<Entry>, rates: seq<Rate>): Totals {
    Totals(ClosedSeconds(es), EarningsOf(es, rates), CurrencyOf(es, rates))
  }

  lemma ClosedSecondsSnoc(es: seq<Entry>, e: Entry)
    ensures ClosedSeconds(es + [e]) == ClosedSeconds(es) + if IsClosed(e) then Duration(e) else 0
  {
    ClosedAppend(es, [e]);
    SumDurationsAppend(Closed(es), Closed([e]));
    if IsClosed(e) {
      assert SumDurations([e]) == SumDurations([e][..0]) + Duration(e);
    }
  }

  /** One more entry adds its earnings, and sets the currency when a rate
      applies to it. */
  lemma EarningsSnoc(es: seq<Entry>, e: Entry, rates: seq<Rate>)
    ensures EarningsOf(es + [e], rates) == EarningsOf(es, rates) + if IsClosed(e) then EntryEarnings(e, rates) else 0.0
    ensures CurrencyOf(es + [e], rates) ==
      if IsClosed(e) && RateForDate(rates, e.start.text).Some? then CurrencyOr(RateForDate(rates, e.start.text).value.currency)
      else CurrencyOf(es, rates)
  {
    assert (es + [e])[..|es + [e]| - 1] == es;
  }

  /** A closed entry with an applicable rate adds its hours times that rate. */
  lemma EarningsStep(es: seq<Entry>, e: Entry, rates: seq<Rate>, total: real, r: Rate)
    requires total == EarningsOf(es, rates)
    requires IsClosed(e) && RateForDate(rates, e.start.text) == Some(r)
    ensures total + Duration(e) as real / 3600.0 * r.hourlyRate == EarningsOf(es + [e], rates)
  {
    EarningsSnoc(es, e, rates);
  }

  /** `calculateEntriesEarnings(entries, rates)`: open entries are skipped;
      every closed one adds its seconds and, when a rate applies, its
      earnings and that rate's currency. */
  method CalculateEntriesEarnings(entries: seq<Entry>, rates: seq<Rate>) returns (r: Totals)
    ensures r == EntriesEarnings(entries, rates)
  {
    var totalSeconds := 0;
    var totalEarnings := 0.0;
    var currency := "PLN";
    for i := 0 to |entries|
      invariant totalSeconds == ClosedSeconds(entries[..i])
      invariant totalEarnings == EarningsOf(entries[..i], rates)
      invariant currency == CurrencyOf(entries[..i], rates)
    {
      var entry := entries[i];
      assert entries[..i + 1] == entries[..i] + [entry];
      ClosedSecondsSnoc(entries[..i], entry);
      EarningsSnoc(entries[..i], entry, rates);
      if !entry.end.Some? {
        continue;
      }
      var duration := Duration(entry);
      totalSeconds := totalSeconds + duration;
      var rate := FindRateForDate(rates, entry.start.text);
      if rate.Some? {
        var hours := duration as real / 3600.0;
        EarningsStep(entries[..i], entry, rates, totalEarnings, rate.value);
        totalEarnings := totalEarnings + hours * rate.value.hourlyRate;
        currency := CurrencyOr(rate.value.currency);
      }
    }
    assert entries[..|entries|] == entries;
    r := Totals(totalSeconds, totalEarnings, currency);
  }

  /** Totals over joined lists add up, and the later list's currency wins
      unless it has no rated entry. */
  lemma {:induction false} EarningsAppend(a: seq<Entry>, b: seq<Entry>, rates: seq<Rate>)
    ensures EarningsOf(a + b, rates) == EarningsOf(a, rates) + EarningsOf(b, rates)
    ensures ClosedSeconds(a + b) == ClosedSeconds(a) + ClosedSeconds(b)
  {
    ClosedAppend(a, b);
    SumDurationsAppend(Closed(a), Closed(b));
    if b != [] {
      assert (a + b)[..|a + b| - 1] == a + b[..|b| - 1];
      EarningsAppend(a, b[..|b| - 1], rates);
    } else {
      assert a + b == a;
    }
  }

  /** An open entry adds neither seconds nor earnings, nor a currency. */
  lemma OpenEntryAddsNothing(es: seq<Entry>, e: Entry, rates: seq<Rate>)
    requires !IsClosed(e)
    ensures EntriesEarnings(es + [e], rates) == EntriesEarnings(es, rates)
  {
    ClosedSecondsSnoc(es, e);
    assert (es + [e])[..|es|] == es;
  }

  /** When no rate applies to any closed entry, the seconds still count but
      nothing is earned and the currency stays 'PLN'. */
  lemma {:induction false} UnratedEntriesEarnNothing(es: seq<Entry>, rates: seq<Rate>)
    requires forall i :: 0 <= i < |es| && IsClosed(es[i]) ==> RateForDate(rates, es[i].start.text).None?
    ensures EarningsOf(es, rates) == 0.0 && CurrencyOf(es, rates) == "PLN"
  {
    if es != [] {
      UnratedEntriesEarnNothing(es[..|es| - 1], rates);
    }
  }

  /** With non-negative durations and rates, earnings are non-negative. */
  lemma {:induction false} EarningsNonNegative(es: seq<Entry>, rates: seq<Rate>)
    requires forall i :: 0 <= i < |es| && IsClosed(es[i]) ==> Duration(es[i]) >= 0
    requires forall i :: 0 <= i < |rates| ==> rates[i].hourlyRate >= 0.0
    ensures EarningsOf(es, rates) >= 0.0
  {
    if es != [] {
      EarningsNonNegative(es[..|es| - 1], rates);
      var e := es[|es| - 1];
      if IsClosed(e) && RateForDate(rates, e.start.text).Some? {
        var k := ApplicablePrefix(rates, e.start.text);
        assert rates[k - 1].hourlyRate >= 0.0;
        assert Duration(e) as real / 3600.0 >= 0.0;
      }
    }
  }

  // ------------------------------------------------------------ aggregation

  datatype Task = Task(id: nat, projectId: nat)
  datatype Project = Project(id: nat, clientId: nat)

  /** The repository rows the three totals read, for one date range:
      tasks and projects by id, the tasks of a project, the projects of a
      client, the entries of a task in the range, the client's rates
      effective by the end of the range (ascending) and its current rate. */
  datatype Store = Store(
    tasks: map<nat, Task>,
    projects: map<nat, Project>,
    projectTasks: map<nat, seq<Task>>,
    clientProjects: map<nat, seq<Project>>,
    taskEntries: map<nat, seq<Entry>>,
    ratesInRange: map<nat, seq<Rate>>,
    currentRate: map<nat, Rate>)

  function TasksOf(st: Store, projectId: nat): seq<Task> {
    if projectId in st.projectTasks then st.projectTasks[projectId] else []
  }

  function ProjectsOf(st: Store, clientId: nat): seq<Project> {
    if clientId in st.clientProjects then st.clientProjects[clientId] else []
  }

  function EntriesOf(st: Store, taskId: nat): seq<Entry> {
    if taskId in st.taskEntries then st.taskEntries[taskId] else []
  }

  function RatesOf(st: Store, clientId: nat): seq<Rate> {
    if clientId in st.ratesInRange then st.ratesInRange[clientId] else []
  }

  /** A report, or `{hourlyRate: null, earnings: null, currency: 'PLN'}` when
      the client has no current rate. */
  datatype Report =
    | NoRate
    | Earnings(hourlyRate: real, totalSeconds: int, hours: real, earnings: real, currency: string,
               dateRangeDays: int, projectCount: Option<nat>, taskCount: Option<nat>)

  /** The totals of a list of tasks: the sum of their entries' totals, with
      the currency of the last task ('PLN' for none). */
  function TasksTotals(st: Store, tasks: seq<Task>, rates: seq<Rate>): Totals {
    if tasks == [] then Totals(0, 0.0, "PLN")
    else
      var prev := TasksTotals(st, tasks[..|tasks| - 1], rates);
      var t := EntriesEarnings(EntriesOf(st, tasks[|tasks| - 1].id), rates);
      Totals(prev.totalSeconds + t.totalSeconds, prev.totalEarnings + t.totalEarnings, t.currency)
  }

  /** The seconds and earnings over all tasks of a list of projects. */
  function ProjectsTotals(st: Store, projects: seq<Project>, rates: seq<Rate>): (int, real) {
    if projects == [] then (0, 0.0)
    else
      var prev := ProjectsTotals(st, projects[..|projects| - 1], rates);
      var t := TasksTotals(st, TasksOf(st, projects[|projects| - 1].id), rates);
      (prev.0 + t.totalSeconds, prev.1 + t.totalEarnings)
  }

  function TaskCount(st: Store, projects: seq<Project>): nat {
    if projects == [] then 0
    else TaskCount(st, projects[..|projects| - 1]) + |TasksOf(st, projects[|projects| - 1].id)|
  }

  /** `getTaskEarnings(taskId)`: `None` (null) for a missing task or project. */
  method GetTaskEarnings(st: Store, taskId: nat, dateRangeDays: int) returns (r: Option<Report>)
    ensures taskId !in st.tasks || st.tasks[taskId].projectId !in st.projects <==> r.None?
    ensures r.Some? ==>
      var clientId := st.projects[st.tasks[taskId].projectId].clientId;
      (clientId !in st.currentRate <==> r.value.NoRate?) &&
      (r.value.Earnings? ==>
        var t := EntriesEarnings(EntriesOf(st, taskId), RatesOf(st, clientId));
        r.value == Earnings(st.currentRate[clientId].hourlyRate, t.totalSeconds, t.totalSeconds as real / 3600.0,
                            t.totalEarnings, t.currency, dateRangeDays, None, None))
  {
    if taskId !in st.tasks {
      return None;
    }
    var task := st.tasks[taskId];
    if task.projectId !in st.projects {
      return None;
    }
    var project := st.projects[task.projectId];
    var rates := RatesOf(st, project.clientId);
    if project.clientId !in st.currentRate {
      return Some(NoRate);
    }
    var currentRate := st.currentRate[project.clientId];
    var entries := EntriesOf(st, taskId);
    var t := CalculateEntriesEarnings(entries, rates);
    r := Some(Earnings(currentRate.hourlyRate, t.totalSeconds, t.totalSeconds as real / 3600.0,
                       t.totalEarnings, t.currency, dateRangeDays, None, None));
  }

  /** The loop over a project's tasks, adding up the totals of their
      entries and keeping the last task's currency. */
  method SumTasks(st: Store, tasks: seq<Task>, rates: seq<Rate>) returns (r: Totals)
    ensures r == TasksTotals(st, tasks, rates)
  {
    var totalSeconds := 0;
    var totalEarnings := 0.0;
    var currency := "PLN";
    for i := 0 to |tasks|
      invariant Totals(totalSeconds, totalEarnings, currency) == TasksTotals(st, tasks[..i], rates)
    {
      assert tasks[..i + 1][..i] == tasks[..i];
      var result := CalculateEntriesEarnings(EntriesOf(st, tasks[i].id), rates);
      totalSeconds := totalSeconds + result.totalSeconds;
      totalEarnings := totalEarnings + result.totalEarnings;
      currency := result.currency;
    }
    assert tasks[..|tasks|] == tasks;
    r := Totals(totalSeconds, totalEarnings, currency);
  }

  /** `getProjectEarnings(projectId)`: the loop over the project's tasks. */
  method GetProjectEarnings(st: Store, projectId: nat, dateRangeDays: int) returns (r: Option<Report>)
    ensures projectId !in st.projects <==> r.None?
    ensures r.Some? ==>
      var clientId := st.projects[projectId].clientId;
      (clientId !in st.currentRate <==> r.value.NoRate?) &&
      (r.value.Earnings? ==>
        var t := TasksTotals(st, TasksOf(st, projectId), RatesOf(st, clientId));
        r.value == Earnings(st.currentRate[clientId].hourlyRate, t.totalSeconds, t.totalSeconds as real / 3600.0,
                            t.totalEarnings, t.currency, dateRangeDays, None, Some(|TasksOf(st, projectId)|)))
  {
    if projectId !in st.projects {
      return None;
    }
    var project := st.projects[projectId];
    var rates := RatesOf(st, project.clientId);
    if project.clientId !in st.currentRate {
      return Some(NoRate);
    }
    var currentRate := st.currentRate[project.clientId];
    var tasks := TasksOf(st, projectId);
    var t := SumTasks(st, tasks, rates);
    var totalSeconds, totalEarnings, currency := t.totalSeconds, t.totalEarnings, t.currency;
    r := Some(Earnings(currentRate.hourlyRate, totalSeconds, totalSeconds as real / 3600.0,
                       totalEarnings, currency, dateRangeDays, None, Some(|tasks|)));
  }

  /** `getClientEarnings(clientId)`: the nested loops over projects and their
      tasks; the currency is the current rate's. */
  method GetClientEarnings(st: Store, clientId: nat, dateRangeDays: int) returns (r: Report)
    ensures clientId !in st.currentRate <==> r.NoRate?
    ensures r.Earnings? ==>
      var cur := st.currentRate[clientId];
      var projects := ProjectsOf(st, clientId);
      var t := ProjectsTotals(st, projects, RatesOf(st, clientId));
      r == Earnings(cur.hourlyRate, t.0, t.0 as real / 3600.0, t.1, CurrencyOr(cur.currency),
                    dateRangeDays, Some(|projects|), Some(TaskCount(st, projects)))
  {
    var rates := RatesOf(st, clientId);
    if clientId !in st.currentRate {
      return NoRate;
    }
    var currentRate := st.currentRate[clientId];
    var projects := ProjectsOf(st, clientId);
    var totalSeconds, totalEarnings, taskCount := SumProjects(st, projects, rates);
    r := Earnings(currentRate.hourlyRate, totalSeconds, totalSeconds as real / 3600.0,
                  totalEarnings, CurrencyOr(currentRate.currency), dateRangeDays,
                  Some(|projects|), Some(taskCount));
  }

  /** The outer loop of `getClientEarnings`: each project's tasks summed by
      the inner loop, and the tasks counted. */
  method SumProjects(st: Store, projects: seq<Project>, rates: seq<Rate>)
    returns (totalSeconds: int, totalEarnings: real, taskCount: nat)
    ensures (totalSeconds, totalEarnings) == ProjectsTotals(st, projects, rates)
    ensures taskCount == TaskCount(st, projects)
  {
    totalSeconds, totalEarnings, taskCount := 0, 0.0, 0;
    for p := 0 to |projects|
      invariant (totalSeconds, totalEarnings) == ProjectsTotals(st, projects[..p], rates)
      invariant taskCount == TaskCount(st, projects[..p])
    {
      assert projects[..p + 1][..p] == projects[..p];
      ProjectsTotalsStep(st, projects[..p + 1], rates);
      var tasks := TasksOf(st, projects[p].id);
      taskCount := taskCount + |tasks|;
      var project := SumTasks(st, tasks, rates);
      totalSeconds := totalSeconds + project.totalSeconds;
      totalEarnings := totalEarnings + project.totalEarnings;
    }
    assert projects[..|projects|] == projects;
  }

  /** The tasks of a list of projects, one project after the other. */
  function AllTasks(st: Store, projects: seq<Project>): (r: seq<Task>)
    ensures |r| == TaskCount(st, projects)
  {
    if projects == [] then []
    else AllTasks(st, projects[..|projects| - 1]) + TasksOf(st, projects[|projects| - 1].id)
  }

  /** Task totals over joined lists add up; the currency is the later list's
      unless it is empty. */
  lemma {:induction false} TasksTotalsAppend(st: Store, a: seq<Task>, b: seq<Task>, rates: seq<Rate>)
    ensures TasksTotals(st, a + b, rates).totalSeconds == TasksTotals(st, a, rates).totalSeconds + TasksTotals(st, b, rates).totalSeconds
    ensures TasksTotals(st, a + b, rates).totalEarnings == TasksTotals(st, a, rates).totalEarnings + TasksTotals(st, b, rates).totalEarnings
    ensures TasksTotals(st, a + b, rates).currency == if b == [] then TasksTotals(st, a, rates).currency else TasksTotals(st, b, rates).currency
  {
    if b == [] {
      assert a + b == a;
    } else {
      assert (a + b)[..|a + b| - 1] == a + b[..|b| - 1];
      TasksTotalsAppend(st, a, b[..|b| - 1], rates);
    }
  }

  /** The client's seconds and earnings are those of all its projects' tasks
      taken as one list, as if they formed a single project. */
  lemma {:induction false} ClientIsSumOfTasks(st: Store, projects: seq<Project>, rates: seq<Rate>)
    ensures ProjectsTotals(st, projects, rates) ==
      (TasksTotals(st, AllTasks(st, projects), rates).totalSeconds, TasksTotals(st, AllTasks(st, projects), rates).totalEarnings)
  {
    if projects != [] {
      var init := projects[..|projects| - 1];
      var last := TasksOf(st, projects[|projects| - 1].id);
      var all := AllTasks(st, init);
      ClientIsSumOfTasks(st, init, rates);
      TasksTotalsAppend(st, all, last, rates);
      ProjectsTotalsStep(st, projects, rates);
      var t, l, j := TasksTotals(st, all, rates), TasksTotals(st, last, rates), TasksTotals(st, all + last, rates);
      assert AllTasks(st, projects) == all + last;
      assert ProjectsTotals(st, projects, rates).0 == t.totalSeconds + l.totalSeconds == j.totalSeconds;
      assert ProjectsTotals(st, projects, rates).1 == t.totalEarnings + l.totalEarnings == j.totalEarnings;
    }
  }

  /** One more project adds the totals of its tasks. */
  lemma {:induction false} ProjectsTotalsStep(st: Store, projects: seq<Project>, rates: seq<Rate>)
    requires projects != []
    ensures var prev := ProjectsTotals(st, projects[..|projects| - 1], rates);
      var t := TasksTotals(st, TasksOf(st, projects[|projects| - 1].id), rates);
      ProjectsTotals(st, projects, rates) == (prev.0 + t.totalSeconds, prev.1 + t.totalEarnings)
    ensures TaskCount(st, projects) == TaskCount(st, projects[..|projects| - 1]) + |TasksOf(st, projects[|projects| - 1].id)|
  {
  }
}

# task-tracker core, modelled in Dafny

A model of the logic of task-tracker, a terminal time tracker written in JavaScript (Ink/React), together with proofs about that model. The model covers:

- **Analytics**: the median, estimation accuracy, budget status and the session distribution of a task. The distribution is session count, mean, median, extremes, longest gap, distinct days, peak start hour and deep-work count.
- **Pricing**: the effective-dated rate lookup and per-entry earnings, summed per task, project and client.
- **Input parsers**: estimations ("2h30m", "1.5h", "45") and clock times ("9:05:30").
- **Vim-style line editor**: the word motions and the five-mode keystroke state machine.
- **List and display arithmetic**: the scrollable-list index, the scroll window, text truncation, hours/minutes formatting, the progress bar and the work-target colours.
- **Key-case conversion**: snake_case and camelCase conversion and the object key mappings.
- **Focus and selection state machines**: the navigation context (mode, focus cycling, key-map registry, cyclic client/project selection), the metadata form, the generic edit form, and the client-name rules.

One Dafny module per source file:

| module | models |
|---|---|
| `Analytics` | `src/services/analyticsService.js` |
| `Pricing` | `src/services/pricingService.js` |
| `Estimation` | `parseEstimation` in `src/components/tasks/EstimationEditingForm.js` |
| `TimeInput` | `parseTimeInput` in `src/components/TimeEditForm.js` |
| `VimInput` | `src/components/VimTextInput.js` |
| `Utils` | `src/utils.js` |
| `ScrollableList` | `src/hooks/useScrollableList.js` |
| `ScrollBox` | `src/components/ScrollBox.js` |
| `TruncatedText` | `src/components/TruncatedText.js` |
| `MonthlyTarget` | `formatHoursMinutes` in `src/components/MonthlyTarget.js` |
| `ProgressBar` | `src/components/ProgressBar.js` |
| `WorkTargets` | `statusColor` in `src/components/WorkTargets.js` |
| `Navigation` | `src/contexts/NavigationContext.js` |
| `MetadataForm` | `src/components/tasks/MetadataEditingForm.js` |
| `EditForms` | `src/components/EditForm.js` |
| `ClientService` | `src/services/clientService.js` |

Supporting modules model the JavaScript built-ins the code relies on:

| module | provides |
|---|---|
| `JsString` | `trim`, ASCII `toLowerCase`/`toUpperCase`, `slice` with negative indices, `String(n)`, string `<=` as code-unit order, `split(c)[0]` |
| `JsValue` | truthiness, `??`, `String(v)`, `Math.round` |
| `Regex` | greedy character-class runs |
| `Sorting` | a stable sort by key, as `Array.prototype.sort` |
| `Entries` | time entries and `filter(e => e.end)` |
| `Ink` | the key record that Ink hands to `useInput` |
| `Wrappers` | `Option` and `Result` |

## Modelling decisions

- **State holders are classes.** Each React state holder is a Dafny class whose fields are the hook state: `VimTextInput`, `useScrollableList`, `NavigationProvider`, `MetadataEditingForm` and `EditForm`. `State()` packs the fields into a datatype, and a pure transition function says what one keystroke does to it. Every method ensures `State() == F(old(State()), …)`, and the properties are lemmas about `F`. Calls to `onSubmit`, `onCancel`, `submit` and `cancel` are appended to a `signals` log. `setMode` of the navigation context becomes an `insertMode` flag, and the `setInputLocked` the editor calls becomes a `locked` flag. That flag is the intended design: the navigation provider's value has no `setInputLocked` member, and the code as written is modelled beside it (see "## Findings").
- **Loops stay loops.** The source's loops are methods with `for`/`while` loops, proved equal to a recursive specification function:
  - the rate scan with `break`;
  - the earnings accumulator;
  - the project and client loops;
  - the gap loop, the hour-count `forEach` and the peak `reduce`;
  - the word motions;
  - the submit loop of `EditForm`.
- **Numbers.** Time is whole seconds, with `duration = end − start`. Money and ratios are exact `real`s. `Math.round(x)` is `floor(x + 1/2)`. JavaScript's `%` truncates toward zero and is written out where the operand may be negative (`MonthlyTarget.JsRem`).
- **Repository results are values.** The rows the pricing service reads for one date range form a `Store` value: tasks, projects, the tasks of a project, the entries of a task, the client's rates and its current rate.
- **Strings** are sequences of UTF-16 code units. String `<=` is code-unit order, as in JavaScript.

Two behaviours of the code are easy to miss:

- The currency of a project report is the currency of its last task's result: `'PLN'` when that task had no rated entry, whatever the earlier tasks found (`src/services/pricingService.js:135`).
- `toCamelCase` keeps a trailing run of non-alphanumerics only when it is a single character. A run of two or more is replaced by its last character, uppercased, because the `(.)` of the pattern takes that character (`Utils.CamelCaseTrailingRun`).

## Model

| member | source | states |
|---|---|---|
| Analytics.MinOf | src/services/analyticsService.js:115 | the result is an element of the list and no element is smaller |
| Analytics.MaxOf | src/services/analyticsService.js:114 | the result is an element of the list and no element is larger |
| Analytics.SumBetween | src/services/analyticsService.js:110-112 | a sum of n values between lo and hi lies between n·lo and n·hi |
| Analytics.Median | src/services/analyticsService.js:9-14 | the median is absent exactly for an empty list |
| Analytics.MiddleBetween | src/services/analyticsService.js:11-13 | on a sorted list, the middle element (or the mean of the two middle ones) lies between the first and the last element |
| Analytics.SortedEnds | src/services/analyticsService.js:68 | an ascending arrangement of the values starts at their minimum and ends at their maximum |
| Analytics.MedianBetween | src/services/analyticsService.js:9-14 | the median lies between the least and the greatest value |
| Analytics.MedianOfSorted | src/services/analyticsService.js:9-14 | the median of an ascending list is its middle element, or the mean of its two middle elements |
| Analytics.ExampleMedianOdd | src/services/analyticsService.js:13 | the median of [10,20,30] is 20 |
| Analytics.ExampleMedianEven | src/services/analyticsService.js:13 | the median of [10,20] is 15 |
| Analytics.EstimationAccuracy | src/services/analyticsService.js:16-43 | actualSeconds is the sum over closed entries. Without a (non-zero) estimate, every difference field is null and isOverBudget is false. With one, estimatedSeconds is 60·minutes, the difference is actual − estimated, and isOverBudget holds iff actual > estimated |
| Analytics.BudgetAnalysis | src/services/analyticsService.js:126-153 | the status is no_estimation exactly when there is no estimate, in which case the numbers are null; otherwise percentUsed × estimated seconds = 100 × actual seconds and remainingSeconds = estimated − actual; remainingSeconds equals overUnderSeconds |
| Analytics.PercentAtLeast | src/services/analyticsService.js:140-145 | `a / e · 100 ≥ p` iff `100·a ≥ p·e`, for a positive e |
| Analytics.BudgetThresholds | src/services/analyticsService.js:139-152 | with an estimate: over_budget iff actual ≥ estimated; warning iff 4·estimated ≤ 5·actual < 5·estimated; on_track iff 5·actual < 4·estimated; remaining = estimated − actual |
| Analytics.AccuracyMatchesBudget | src/services/analyticsService.js:31-33 | the accuracy difference is minus the budget's remaining seconds, and differencePercent is percentUsed − 100 |
| Analytics.DifferencePercent | src/services/analyticsService.js:33 | (a − e)/e·100 = a/e·100 − 100 |
| Analytics.OverEstimateIsOverBudget | src/services/analyticsService.js:144 | over_budget holds iff isOverBudget holds or actual equals the estimate exactly |
| Analytics.ByStart | src/services/analyticsService.js:70-72 | sorting by start keeps the length |
| Analytics.ByStartClosed | src/services/analyticsService.js:70-72 | sorting by start is a permutation, so closed entries stay closed |
| Analytics.StartGaps | src/services/analyticsService.js:74-79 | the sessions in start order give one gap fewer than there are sessions, and none for fewer than two |
| Analytics.Gaps | src/services/analyticsService.js:74-79 | one gap for each adjacent pair, so one fewer than the entries, and none for fewer than two |
| Analytics.CollectGaps | src/services/analyticsService.js:74-79 | the loop builds exactly the gap list |
| Analytics.HourCountsSpec | src/services/analyticsService.js:94-98 | the hour-count object has a key exactly for each hour that some entry starts in, holding the number of such entries |
| Analytics.CountHours | src/services/analyticsService.js:94-98 | the `forEach` builds exactly that object |
| Analytics.PeakScanSpec | src/services/analyticsService.js:99-103 | scanning hours in ascending key order, the reduce keeps the first strict maximum: a present hour of greatest count, with every lower hour's count strictly smaller, or null when every count is 0 |
| Analytics.FindPeak | src/services/analyticsService.js:99-103 | the reduce loop computes that scan |
| Analytics.PeakHourSpec | src/services/analyticsService.js:93-103 | the peak hour is absent exactly for no entries; otherwise it is an hour of greatest frequency and every lower hour is strictly less frequent (ties go to the lowest hour) |
| Analytics.ExamplePeakTie | src/services/analyticsService.js:99-103 | start hours [9,9,14,14] peak at 9 |
| Analytics.DaysBounds | src/services/analyticsService.js:88-91 | the number of distinct days is at most the number of entries, and at least 1 when there are entries |
| Analytics.DeepWorkCount | src/services/analyticsService.js:106 | the count is at most the number of durations; all ≥ 3600 gives all, none gives 0; `DeepWorkCountSpec` shows it is the number of durations ≥ 3600 |
| Analytics.DeepWorkCountSnoc | src/services/analyticsService.js:106 | counting from the front agrees with counting one more duration at the back |
| Analytics.DeepWorkCountSpec | src/services/analyticsService.js:106 | the count equals the number of indices whose duration is at least 3600 |
| Analytics.DistributionDeepWork | src/services/analyticsService.js:106 | the report's deepWorkCount is the number of closed entries lasting an hour or more |
| Analytics.HourCounts | src/services/analyticsService.js:94-98 | the hour-count map; `HourCountsSpec` states each key's count |
| Analytics.PeakHour | src/services/analyticsService.js:93-103 | the peak hour; `PeakHourSpec` states that it is a most frequent hour, ties to the lowest |
| Analytics.Days | src/services/analyticsService.js:88-91 | the set of local days entries start on; `DaysBounds` bounds its size |
| Analytics.DistributionOf | src/services/analyticsService.js:45-124 | the distribution report; `DistributionCounts`, `DistributionSessionBounds`, `DistributionLongestGap`, `DistributionPeakHour` and `DistributionDeepWork` state its fields |
| Analytics.Report | src/services/analyticsService.js:65-124 | the report over closed entries; `ReportSessionBounds` states its session bounds |
| Analytics.LastStarted | src/services/analyticsService.js:81-82 | the last entry by start is one of the closed entries |
| Analytics.TimeDistribution | src/services/analyticsService.js:45-124 | the method computes exactly the distribution report of its inputs |
| Analytics.DistributionCounts | src/services/analyticsService.js:45-124 | the session count is the number of closed entries. With none, every statistic is null and the counts are 0; otherwise 1 ≤ daysWorked ≤ sessionCount and deepWorkCount ≤ sessionCount |
| Analytics.ReportSessionBounds | src/services/analyticsService.js:110-115 | shortest and longest are the min and max duration, and the median and the rounded mean lie between them |
| Analytics.MeanBetween | src/services/analyticsService.js:110-112 | a rounded mean of values in [lo,hi] lies in [lo,hi] |
| Analytics.DistributionSessionBounds | src/services/analyticsService.js:65-115 | over the closed entries of any list: shortest ≤ median ≤ longest, the mean lies within them, and the extremes are the min and max duration |
| Analytics.DistributionLongestGap | src/services/analyticsService.js:70-79 | longestGap is null iff fewer than two sessions; otherwise it is one of the gaps and no gap is larger |
| Analytics.DistributionPeakHour | src/services/analyticsService.js:93-103 | the report's peak hour is the lowest most frequent start hour of the closed entries |
| Entries.Closed | src/services/analyticsService.js:46 | the filter keeps only closed entries |
| Entries.ClosedMembers | src/services/analyticsService.js:46 | an entry survives the filter iff it is in the list and is closed |
| Entries.ClosedOfClosed | src/services/analyticsService.js:46 | filtering a list of closed entries changes nothing |
| Entries.ClosedAppend | src/services/pricingService.js:40-41 | filtering distributes over concatenation |
| Entries.SumDurationsAppend | src/services/analyticsService.js:18 | the total duration of a concatenation is the sum of the totals |
| Entries.Durations | src/services/analyticsService.js:65-67 | one duration per entry, in order |
| Sorting.InsertByPermutes | src/services/analyticsService.js:68 | insertion adds exactly the one element |
| Sorting.InsertBySorted | src/services/analyticsService.js:68 | insertion into a sorted list keeps it sorted |
| Sorting.SortBySorted | src/services/analyticsService.js:70-72 | the sort result is ascending by key |
| Sorting.SortByPermutes | src/services/analyticsService.js:70-72 | the sort result is a permutation of the input |
| Sorting.SortBySortedInput | src/services/analyticsService.js:70-72 | a list already in order is left as it is |
| Sorting.KeyRun | src/services/analyticsService.js:70-72 | the elements of one key, in order; every one has that key |
| Sorting.InsertByRun | src/services/analyticsService.js:70-72 | insertion puts the new element ahead of the elements of equal key |
| Sorting.SortByStable | src/services/analyticsService.js:70-72 | the sort is stable: for every key, its elements appear in the output in their input order, so entries with the same start keep their order for the gap loop |
| Sorting.SortBy | src/services/analyticsService.js:70-72 | the sort by key keeps the length; `SortBySorted`, `SortByPermutes` and `SortByStable` state the rest |
| Sorting.InsertBy | src/services/analyticsService.js:70-72 | insertion adds one element; `InsertBySorted` and `InsertByPermutes` state the rest |
| Sorting.SortInts | src/services/analyticsService.js:11 | the numeric sort keeps the length; `SortIntsSpec` states the rest |
| Sorting.SortIntsSpec | src/services/analyticsService.js:11 | the numeric sort is ascending, a permutation, and the identity on sorted input |
| Sorting.SortedBounds | src/services/analyticsService.js:114-115 | every element of a sorted list lies between its first and last element |
| Pricing.ApplicablePrefix | src/services/pricingService.js:23-30 | the scan visits a prefix of rates that all apply, and stops at the first rate that does not |
| Pricing.FindRateForDate | src/services/pricingService.js:18-32 | the loop with `break` returns the last rate of that prefix, or null |
| Pricing.RateForDateIsLastApplicable | src/services/pricingService.js:18-32 | on ascending rates the result is null iff no rate applies; otherwise it is an applicable rate after which none applies |
| Pricing.SameDayApplies | src/services/pricingService.js:19-28 | a rate effective on the entry's day applies, since a date is a prefix of a timestamp of that day |
| Pricing.ClosedSecondsSnoc | src/services/pricingService.js:41-44 | one more entry adds its duration if it is closed, nothing otherwise |
| Pricing.CalculateEntriesEarnings | src/services/pricingService.js:35-55 | the accumulator computes the closed seconds, the sum of duration/3600·rate, and the currency of the last rated entry ('PLN' if none) |
| Pricing.EarningsAppend | src/services/pricingService.js:40-51 | seconds and earnings over a concatenation add up |
| Pricing.OpenEntryAddsNothing | src/services/pricingService.js:41 | an entry without an end changes none of the totals |
| Pricing.UnratedEntriesEarnNothing | src/services/pricingService.js:43-51 | with no applicable rate, the earnings are 0 and the currency stays 'PLN', while the seconds still count |
| Pricing.EarningsNonNegative | src/services/pricingService.js:46-50 | non-negative durations and rates give non-negative earnings |
| Pricing.GetTaskEarnings | src/services/pricingService.js:58-100 | null iff no task has the id or its project is missing. The no-rate report iff the client has no current rate. Otherwise the current hourly rate with the entries' totals, and hours = seconds/3600 |
| Pricing.SumTasks | src/services/pricingService.js:126-136 | the loop over tasks sums the per-task totals and keeps the last task's currency |
| Pricing.GetProjectEarnings | src/services/pricingService.js:102-147 | null iff the project is missing, the no-rate report iff no current rate, otherwise the sums over its tasks and their number |
| Pricing.GetClientEarnings | src/services/pricingService.js:149-194 | the no-rate report iff no current rate. Otherwise the sums over all projects, the current rate's currency ('PLN' if empty), and the project and task counts |
| Pricing.SumProjects | src/services/pricingService.js:168-182 | the nested loop computes the project totals and the number of tasks |
| Pricing.AllTasks | src/services/pricingService.js:168-172 | the tasks of all projects, as many as TaskCount says |
| Pricing.TasksTotalsAppend | src/services/pricingService.js:126-136 | task totals over joined lists add up; the currency is the later list's unless it is empty |
| Pricing.ClientIsSumOfTasks | src/services/pricingService.js:168-182 | the client's seconds and earnings equal the project-loop totals over all tasks of all its projects |
| Pricing.RateForDate | src/services/pricingService.js:18-32 | the rate the scan returns; `RateForDateIsLastApplicable` states which one |
| Pricing.EntriesEarnings | src/services/pricingService.js:35-55 | the totals of a task's entries; `EarningsAppend`, `OpenEntryAddsNothing` and `UnratedEntriesEarnNothing` state their properties |
| Pricing.TasksTotals | src/services/pricingService.js:126-136 | the totals over a task list; `TasksTotalsAppend` states how they add up |
| Pricing.ProjectsTotals | src/services/pricingService.js:168-182 | the seconds and earnings over all tasks of the projects; `ClientIsSumOfTasks` relates them to the task totals |
| Estimation.MatchMinutesSound | src/components/tasks/EstimationEditingForm.js:25 | what `^(\d+)\s*m$` accepts is a digits/spaces/"m" layout printing the text |
| Estimation.MatchMinutesComplete | src/components/tasks/EstimationEditingForm.js:25 | every such layout is accepted with its own parts |
| Estimation.MatchDecimalSound | src/components/tasks/EstimationEditingForm.js:29 | `\d+(?:\.\d+)?` splits off a well-formed number that is not followed by a digit or a fraction |
| Estimation.MatchDecimalComplete | src/components/tasks/EstimationEditingForm.js:29 | every number followed by a non-number is matched exactly |
| Estimation.MatchTailSound | src/components/tasks/EstimationEditingForm.js:29 | `\s*(\d+)?\s*m?$` accepts exactly a well-formed tail that prints the text |
| Estimation.MatchTailComplete | src/components/tasks/EstimationEditingForm.js:29 | every well-formed tail is matched with its own parts |
| Estimation.MatchHoursSound | src/components/tasks/EstimationEditingForm.js:29 | what the hours pattern accepts is a well-formed layout printing the text |
| Estimation.MatchFractionSound | src/components/tasks/EstimationEditingForm.js:29 | `(?:\.\d+)?` takes a dot and a digit run not followed by a digit, or nothing when the text does not start with a dot |
| Estimation.MatchFractionComplete | src/components/tasks/EstimationEditingForm.js:29 | a fraction, or no fraction before a non-dot, is matched with its own parts |
| Estimation.MatchUnitEndSound | src/components/tasks/EstimationEditingForm.js:29 | `\s*m?$` splits the text into whitespace and an optional final "m" |
| Estimation.MatchUnitEndComplete | src/components/tasks/EstimationEditingForm.js:29 | whitespace then an optional "m" is matched with its own parts |
| Estimation.MatchMinutesEndSound | src/components/tasks/EstimationEditingForm.js:29 | `(\d+)?\s*m?$` after the hour spaces is a well-formed tail that prints the text |
| Estimation.MatchUnitSound | src/components/tasks/EstimationEditingForm.js:29 | `\s*h` then the tail gives whitespace, "h" and a well-formed tail that print the text |
| Estimation.MatchUnitComplete | src/components/tasks/EstimationEditingForm.js:29 | whitespace, "h" and a well-formed tail are matched with their own parts |
| Estimation.MatchHoursComplete | src/components/tasks/EstimationEditingForm.js:29 | every well-formed hours layout is matched with its own parts |
| Estimation.MatchMinutes | src/components/tasks/EstimationEditingForm.js:25 | the minutes pattern; `MatchMinutesSound` and `MatchMinutesComplete` state what it matches |
| Estimation.MatchDecimal | src/components/tasks/EstimationEditingForm.js:29 | the leading number; `MatchDecimalSound` and `MatchDecimalComplete` state what it matches |
| Estimation.MatchTail | src/components/tasks/EstimationEditingForm.js:29 | the minutes tail; `MatchTailSound` and `MatchTailComplete` state what it matches |
| Estimation.MatchUnit | src/components/tasks/EstimationEditingForm.js:29 | `\s*h` and the tail; `MatchUnitSound` and `MatchUnitComplete` state what it matches |
| Estimation.MatchHours | src/components/tasks/EstimationEditingForm.js:29 | the hours pattern; `MatchHoursSound` and `MatchHoursComplete` state what it matches |
| Estimation.HoursValue | src/components/tasks/EstimationEditingForm.js:31-33 | the rounded minutes of an hours layout are non-negative |
| Estimation.ParseEstimation | src/components/tasks/EstimationEditingForm.js:19-41 | a missing, empty or whitespace-only input gives null (clear), and a value is never negative |
| Estimation.EstimationIgnoresPadding | src/components/tasks/EstimationEditingForm.js:20-22 | surrounding whitespace does not change the result |
| Estimation.ParseCleaned | src/components/tasks/EstimationEditingForm.js:25-40 | the three patterns on a cleaned text never give a negative value |
| Estimation.EstimationIgnoresCase | src/components/tasks/EstimationEditingForm.js:22 | lower-casing the input does not change the result |
| Estimation.CleanInput | src/components/tasks/EstimationEditingForm.js:20-22 | a trimmed lower-case input goes to the patterns unchanged |
| Estimation.ParseMinutesForm | src/components/tasks/EstimationEditingForm.js:25-26 | "<digits>\s*m" parses to exactly that many minutes |
| Estimation.HoursNotMinutes | src/components/tasks/EstimationEditingForm.js:25-29 | no hours layout is taken by the minutes pattern first |
| Estimation.ParseHoursForm | src/components/tasks/EstimationEditingForm.js:29-34 | an hours layout parses to round(60·H + M), with M = 0 when absent |
| Estimation.ParseDigitsForm | src/components/tasks/EstimationEditingForm.js:37-38 | a plain digit string parses as that many minutes |
| Estimation.ParseStrippedHours | src/components/tasks/EstimationEditingForm.js:29-34 | an hours layout without trailing spaces in its tail parses to its value |
| Estimation.ParseEstimationAccepts | src/components/tasks/EstimationEditingForm.js:19-41 | an input is accepted iff its cleaned text is a minutes layout, an hours layout, or a digit run; anything else gives null |
| Estimation.ParseEstimationValue | src/components/tasks/EstimationEditingForm.js:25-38 | an accepted value is the one its layout denotes |
| Estimation.AcceptedStartsWithDigit | src/components/tasks/EstimationEditingForm.js:25-38 | every accepted cleaned text starts with a digit |
| Estimation.ExampleMinutes | src/components/tasks/EstimationEditingForm.js:25-26 | "30m" gives 30 |
| Estimation.ExampleSpacedMinutes | src/components/tasks/EstimationEditingForm.js:25-26 | "45 m" gives 45 |
| Estimation.ExampleHours | src/components/tasks/EstimationEditingForm.js:29-34 | "2h" gives 120 |
| Estimation.ExampleHoursMinutes | src/components/tasks/EstimationEditingForm.js:29-34 | "2h30m" gives 150 |
| Estimation.ExampleHoursBareMinutes | src/components/tasks/EstimationEditingForm.js:29-34 | "2h 30" gives 150 |
| Estimation.ExampleFractionalHours | src/components/tasks/EstimationEditingForm.js:29-34 | "1.5h" gives 90 |
| Estimation.ExampleDigits | src/components/tasks/EstimationEditingForm.js:37-38 | "45" gives 45 |
| Estimation.ExamplePaddedUpperCase | src/components/tasks/EstimationEditingForm.js:20-22 | "  2H " gives 120 |
| Estimation.ExampleRejectedWord | src/components/tasks/EstimationEditingForm.js:40 | "abc" gives null |
| Estimation.ExampleRejected | src/components/tasks/EstimationEditingForm.js:20 | "", "   " and a missing input give null |
| TimeInput.MatchClockSound | src/components/TimeEditForm.js:8 | what `^(\d{1,2}):(\d{2})(?::(\d{2}))?$` accepts is a well-formed clock layout that prints the text |
| TimeInput.MatchClockComplete | src/components/TimeEditForm.js:8 | every well-formed clock layout is accepted with its own parts |
| TimeInput.MatchClock | src/components/TimeEditForm.js:8 | the clock pattern; `MatchClockSound` and `MatchClockComplete` state what it matches |
| TimeInput.ParseTimeInput | src/components/TimeEditForm.js:7-20 | an accepted time has 0 ≤ h ≤ 23 and 0 ≤ m, s ≤ 59 |
| TimeInput.ClockOf | src/components/TimeEditForm.js:11-19 | the range checks let through only a valid clock |
| TimeInput.ParseTimeInputSound | src/components/TimeEditForm.js:8-19 | an accepted input is a clock layout once trimmed, and the result holds the values of its digits |
| TimeInput.ParseTimeInputForm | src/components/TimeEditForm.js:8-19 | a padded layout gives the values of its digits, with seconds 0 when missing, exactly when they are in range |
| TimeInput.TimeInputIgnoresPadding | src/components/TimeEditForm.js:8 | surrounding whitespace does not change the result |
| TimeInput.Pad2Value | src/components/TimeEditForm.js:23 | two-digit zero padding denotes the number |
| TimeInput.Pad2 | src/components/TimeEditForm.js:23 | `padStart(2, '0')` of a number below 100 is two digits |
| TimeInput.FormatClockRoundTrip | src/components/TimeEditForm.js:8-23 | a valid clock printed as HH:mm:ss parses back to itself |
| TimeInput.FormatClock | src/components/TimeEditForm.js:23 | `HH:mm:ss`; `FormatClockRoundTrip` shows the parser reads it back |
| TimeInput.ExampleShortHours | src/components/TimeEditForm.js:8-19 | "9:05" gives 9:05:00 |
| TimeInput.ExampleOutOfRange | src/components/TimeEditForm.js:15 | "24:00" gives null |
| VimInput.WordEnd | src/components/VimTextInput.js:9 | the first loop stops at the end or at the first separator, skipping only non-separators |
| VimInput.SepEnd | src/components/VimTextInput.js:11-12 | the second loop stops at the end or at the first non-separator, skipping only separators |
| VimInput.NextWord | src/components/VimTextInput.js:6-14 | the result lies in [0, max(0, len−1)], and is ≥ cursor when cursor ≤ len−1 |
| VimInput.FindNextWord | src/components/VimTextInput.js:6-14 | the while loops compute that position |
| VimInput.BackOverSeps | src/components/VimTextInput.js:22 | going back over separators stops at 0 or after a non-separator |
| VimInput.BackOverWord | src/components/VimTextInput.js:24 | going back over a word stops at 0 or just after a separator |
| VimInput.PrevWord | src/components/VimTextInput.js:17-26 | the result is ≤ cursor and is 0 or immediately follows ' ' or ':' |
| VimInput.FindPrevWord | src/components/VimTextInput.js:17-26 | the while loops compute that position |
| VimInput.NormalKeyValid | src/components/VimTextInput.js:102-196 | a normal-mode key keeps the cursor and selection within the text |
| VimInput.VisualKeyValid | src/components/VimTextInput.js:255-299 | a visual-mode key keeps the cursor and selection within the text |
| VimInput.InsertKeyValid | src/components/VimTextInput.js:199-231 | an insert-mode key keeps the cursor within the text |
| VimInput.ReplaceKeyValid | src/components/VimTextInput.js:234-252 | a replace-mode key keeps the cursor within the text |
| VimInput.NextPreservesValid | src/components/VimTextInput.js:75-300 | every keystroke in every mode keeps the editor state valid |
| VimInput.NormalMotionsInBounds | src/components/VimTextInput.js:116-131 | h, l, 0, ^ and $ change only the cursor and keep it in [0, max(0, len−1)] |
| VimInput.InsertTyping | src/components/VimTextInput.js:225-229 | typing inserts the input at the cursor, moves the cursor one right, and clears the error |
| VimInput.InsertBackspace | src/components/VimTextInput.js:216-223 | backspace at 0 is a no-op; otherwise it deletes the char before the cursor and moves the cursor left |
| VimInput.NormalDelete | src/components/VimTextInput.js:144-153 | x removes exactly the char at the cursor, leaves the cursor ≤ max(0, newLen−1) and changes nothing else |
| VimInput.VisualDelete | src/components/VimTextInput.js:288-296 | x/d removes the inclusive range [min, max] of selection and cursor, puts the cursor at its start and returns to normal |
| VimInput.CommandOutcome | src/components/VimTextInput.js:62-73 | after trim and lower-case: w and wq submit, q and q! cancel, anything else sets "Unknown command: …". In every case the command is cleared, the mode becomes normal, and the text is unchanged |
| VimInput.TypedCommandSubmits | src/components/VimTextInput.js:62-65 | a command reading " WQ " or similar submits the current value |
| VimInput.AfterSubmit | src/components/VimTextInput.js:52-55 | the intended submit: unlock and report the value; `CommandOutcome` states its effect |
| VimInput.AfterCancel | src/components/VimTextInput.js:57-60 | the intended cancel: unlock and report a cancel; `CommandOutcome` states its effect |
| VimInput.Execute | src/components/VimTextInput.js:62-73 | the command's outcome; `CommandOutcome` states it |
| VimInput.Motion | src/components/VimTextInput.js:116-141 | the shared motions; `NormalMotionsInBounds` states they stay in bounds |
| VimInput.CommandKey | src/components/VimTextInput.js:77-99 | a command-mode key; `CommandOutcome` states Enter |
| VimInput.NormalKey | src/components/VimTextInput.js:102-196 | a normal-mode key; `NormalKeyValid` states the invariant it keeps |
| VimInput.EditKey | src/components/VimTextInput.js:144-193 | the normal-mode edits; `EditKeyValid` and `NormalDelete` state their effect |
| VimInput.InsertKey | src/components/VimTextInput.js:199-231 | an insert-mode key; `InsertKeyValid`, `InsertTyping` and `InsertBackspace` state its effect |
| VimInput.ReplaceKey | src/components/VimTextInput.js:234-252 | a replace-mode key; `ReplaceKeyValid` states the invariant it keeps |
| VimInput.VisualKey | src/components/VimTextInput.js:255-299 | a visual-mode key; `VisualKeyValid` states the invariant it keeps |
| VimInput.SelectionKey | src/components/VimTextInput.js:288-296 | the selection delete; `VisualDelete` states its effect |
| VimInput.Next | src/components/VimTextInput.js:75-300 | one keystroke; `NextPreservesValid` states the invariant it keeps |
| VimInput.CallLock | src/components/VimTextInput.js:36 | calling the destructured `setInputLocked` succeeds exactly when the context has that member, and otherwise throws a TypeError |
| VimInput.MountAsWritten | src/components/VimTextInput.js:44-50 | the mount effect as written: the initial state when the context has the lock, the TypeError otherwise |
| VimInput.SubmitAsWritten | src/components/VimTextInput.js:52-55 | submit as written: the signal only when the context has the lock; otherwise the TypeError comes before `onSubmit` |
| VimInput.CancelAsWritten | src/components/VimTextInput.js:57-60 | cancel as written: the signal only when the context has the lock; otherwise the TypeError comes before `onCancel` |
| VimInput.ExecuteAsWritten | src/components/VimTextInput.js:62-73 | with the lock, the intended outcome; without it, exactly w, wq, q and q! throw |
| VimInput.NextAsWritten | src/components/VimTextInput.js:75-300 | one keystroke as written: the submit and cancel paths go through the lock |
| VimInput.NextAsWrittenSpec | src/components/VimTextInput.js:75-300 | with the lock, the code as written is `Next`; without it, a key throws exactly when `Next` would emit a signal, so no signal is ever emitted |
| VimInput.ProviderLacksLock | src/contexts/NavigationContext.js:275-305 | the provider's value has no `setInputLocked`, so mounting the editor and `:wq` both throw |
| VimInput.VimTextInput.Submit | src/components/VimTextInput.js:52-55 | unlocks the input and reports the current value |
| VimInput.VimTextInput.constructor | src/components/VimTextInput.js:37-50 | the text is the default value, the cursor at 0, normal mode, no command and no error, and the input locked |
| VimInput.VimTextInput.Cancel | src/components/VimTextInput.js:57-60 | unlocks the input and reports a cancel |
| VimInput.VimTextInput.ExecuteCommand | src/components/VimTextInput.js:62-73 | the state becomes the command's outcome |
| VimInput.VimTextInput.MoveCursor | src/components/VimTextInput.js:116-141 | a motion key moves only the cursor; any other key changes nothing |
| VimInput.VimTextInput.CommandInput | src/components/VimTextInput.js:77-99 | the command-mode transition |
| VimInput.VimTextInput.NormalInput | src/components/VimTextInput.js:102-196 | the normal-mode transition |
| VimInput.VimTextInput.EditInput | src/components/VimTextInput.js:144-193 | x, backspace, v, r, i, a, I and A, once no motion applies: the normal-mode transition for those keys |
| VimInput.VimTextInput.InsertInput | src/components/VimTextInput.js:199-231 | the insert-mode transition |
| VimInput.VimTextInput.ReplaceInput | src/components/VimTextInput.js:234-252 | the replace-mode transition |
| VimInput.VimTextInput.VisualInput | src/components/VimTextInput.js:255-299 | the visual-mode transition |
| VimInput.VimTextInput.SelectionInput | src/components/VimTextInput.js:288-296 | x or d deletes the selection, both ends included, and returns to normal mode; other keys change nothing |
| VimInput.VimTextInput.HandleKey | src/components/VimTextInput.js:75-300 | the new state is the keystroke transition of the old one, and validity is kept |
| Utils.CollapseFromNoWhitespace | src/utils.js:3 | after replacing whitespace runs, no whitespace is left |
| Utils.CollapseAppend | src/utils.js:3 | the run replacement of a concatenation is that of its parts, the second part continuing the first part's run |
| Utils.CollapseRunOnly | src/utils.js:3 | a whitespace run alone becomes one '_' (or nothing inside a run) |
| Utils.CollapseWhitespaceRun | src/utils.js:3 | each whitespace run between non-whitespace parts becomes exactly one '_' |
| Utils.SnakeCaseIsLowerWithoutSpaces | src/utils.js:1-6 | toSnakeCase output has no uppercase letter and no whitespace |
| Utils.MarkCapitalsAppend | src/utils.js:4 | marking capitals distributes over concatenation |
| Utils.SnakeCaseCons | src/utils.js:1-6 | each uppercase X becomes '_' + lower(X), and every other non-whitespace char is kept |
| Utils.LeadingRunMaximal | src/utils.js:9 | `[^a-zA-Z0-9]+` takes the longest run of non-alphanumerics |
| Utils.LastMatchableSpec | src/utils.js:9 | `(.)` cannot take a line terminator, so the greedy run gives back the last char that `.` can take |
| Utils.CamelCaseAlnumPrefix | src/utils.js:9 | toCamelCase keeps a prefix of letters and digits |
| Utils.CamelCaseCons | src/utils.js:9 | a leading letter or digit is kept, and the rest is converted on its own |
| Utils.CamelOfMarkedCapital | src/utils.js:4-9 | "_x" made from a capital X converts back to X |
| Utils.CamelCaseInnerRun | src/utils.js:9 | a run of non-alphanumerics followed by a char becomes that char uppercased |
| Utils.CamelCaseTrailingSeparator | src/utils.js:9 | a single trailing separator is kept |
| Utils.CamelCaseTrailingRun | src/utils.js:9 | a trailing run of two or more becomes its last char uppercased |
| Utils.CamelOfSnake | src/utils.js:1-10 | for ASCII letters and digits, toCamelCase(toSnakeCase(s)) == s |
| Utils.Get | src/utils.js:22 | a missing key reads as undefined |
| Utils.GetAt | src/utils.js:15 | with distinct keys, the property at a position reads its value |
| Utils.RenameKeysDomain | src/utils.js:14-17 | the keys of the folded object are exactly the renamed keys |
| Utils.RenameKeysValue | src/utils.js:14-17 | a key holds the value of the last property renamed to it |
| Utils.RenameKeysInjective | src/utils.js:14-17 | under an injective renaming, every value is kept under its new key |
| Utils.ConvToSnakeKeepsValues | src/utils.js:12-18 | convToSnake keeps every value and only renames keys |
| Utils.MapToCamelKeepsValues | src/utils.js:29-34 | mapToCamel keeps every value and only renames keys |
| Utils.MapObjToSnake | src/utils.js:20-27 | the result holds exactly the listed keys whose value is truthy, with their values unchanged |
| Utils.ToSnakeCase | src/utils.js:1-6 | the snake_case conversion; `SnakeCaseIsLowerWithoutSpaces` and `SnakeCaseCons` state its effect |
| Utils.ToCamelCase | src/utils.js:8-10 | the camelCase conversion; `CamelCaseCons`, `CamelCaseInnerRun`, `CamelCaseTrailingRun` and `CamelOfSnake` state its effect |
| Utils.RenameKeys | src/utils.js:14-17 | the key-renaming fold; `RenameKeysDomain`, `RenameKeysValue` and `RenameKeysInjective` state its result |
| Utils.ConvToSnake | src/utils.js:12-18 | `convToSnake`; `ConvToSnakeKeepsValues` states it only renames keys |
| Utils.MapToCamel | src/utils.js:29-34 | `mapToCamel`; `MapToCamelKeepsValues` states it only renames keys |
| ScrollableList.NextIndex | src/hooks/useScrollableList.js:18-21 | from the last index, wrapping goes to 0 and no wrapping stays put; otherwise +1 |
| ScrollableList.PrevIndex | src/hooks/useScrollableList.js:26-29 | from index 0, wrapping goes to the last index and no wrapping stays put; otherwise −1 |
| ScrollableList.NextPrevInverse | src/hooks/useScrollableList.js:16-30 | with wrap on, next and previous undo each other |
| ScrollableList.Clamp | src/hooks/useScrollableList.js:8-14 | an empty list resets the index to 0, and an index past the end becomes length − 1 |
| ScrollableList.ClampIdempotent | src/hooks/useScrollableList.js:8-14 | clamping twice is clamping once, and the result is in range for a non-empty list |
| ScrollableList.SelectedItem | src/hooks/useScrollableList.js:48 | items[index] when in range, null otherwise |
| ScrollableList.ScrollableList.SetItems | src/hooks/useScrollableList.js:7-14 | a new list clamps the index |
| ScrollableList.ScrollableList.constructor | src/hooks/useScrollableList.js:4-5 | the items and the wrap flag as given, the index at 0 |
| ScrollableList.ScrollableList.SelectNext | src/hooks/useScrollableList.js:16-22 | an empty list is unchanged; otherwise the next index, and validity is kept |
| ScrollableList.ScrollableList.SelectPrevious | src/hooks/useScrollableList.js:24-30 | an empty list is unchanged; otherwise the previous index, and validity is kept |
| ScrollableList.ScrollableList.SelectFirst | src/hooks/useScrollableList.js:32-34 | the index becomes 0 |
| ScrollableList.ScrollableList.SelectLast | src/hooks/useScrollableList.js:36-39 | an empty list is unchanged; otherwise the index becomes length − 1 |
| ScrollableList.ScrollableList.Selected | src/hooks/useScrollableList.js:48 | a valid index into a non-empty list selects that item |
| ScrollBox.StartIndex | src/components/ScrollBox.js:6 | never negative; 0 for an index below the height; otherwise the selected row is the last in the window |
| ScrollBox.VisibleIsWindow | src/components/ScrollBox.js:7 | at most `height` children are shown, the contiguous slice from the start index |
| ScrollBox.SelectedIsVisible | src/components/ScrollBox.js:6-7 | a selected child within range is visible, and is the last row once the index reaches height − 1 |
| ScrollBox.SmallIndexShowsTop | src/components/ScrollBox.js:6 | an index below the height, −1 included, shows the list from the top |
| ScrollBox.Visible | src/components/ScrollBox.js:7 | the visible children; `VisibleIsWindow` and `SelectedIsVisible` state which |
| TruncatedText.DisplayTextSpec | src/components/TruncatedText.js:5-8 | missing or empty text renders nothing, short text is unchanged, and longer text becomes exactly maxLength chars: a prefix of the original plus '…' |
| TruncatedText.ZeroLengthKeepsText | src/components/TruncatedText.js:8 | with maxLength 0, `slice(0, -1)` keeps all but the last char |
| TruncatedText.DisplayText | src/components/TruncatedText.js:5-8 | the displayed text; `DisplayTextSpec` states its three cases |
| MonthlyTarget.FloorRem | src/components/MonthlyTarget.js:8 | the remainder of a non-negative amount lies in [0, d) |
| MonthlyTarget.JsRem | src/components/MonthlyTarget.js:8 | JavaScript's `%` takes the sign of the dividend |
| MonthlyTarget.Minutes | src/components/MonthlyTarget.js:8 | the minutes lie in [−60, 60) |
| MonthlyTarget.HoursMinutesBounds | src/components/MonthlyTarget.js:7-8 | for s ≥ 0: 0 ≤ minutes < 60 and 3600h + 60m ≤ s < 3600h + 60m + 60 |
| MonthlyTarget.FormatShape | src/components/MonthlyTarget.js:9-10 | "Ym" alone below an hour, "Xh Ym" from an hour on |
| MonthlyTarget.ExampleHourAndHalf | src/components/MonthlyTarget.js:6-11 | 5400 seconds give "1h 30m" |
| MonthlyTarget.Hours | src/components/MonthlyTarget.js:7 | `Math.floor(seconds / 3600)`; `HoursMinutesBounds` states how it recomposes the seconds |
| MonthlyTarget.FormatHoursMinutes | src/components/MonthlyTarget.js:6-11 | the formatter; `FormatShape` states its two shapes |
| ProgressBar.Progress | src/components/ProgressBar.js:15-17 | with a positive target: min(1, worked/target), 1 exactly when worked ≥ target; without one: 0 |
| ProgressBar.Repeat | src/components/ProgressBar.js:19 | `repeat` throws exactly for a negative count, and otherwise gives n copies |
| ProgressBar.BarShape | src/components/ProgressBar.js:18-20 | for worked ≥ 0 the bar is the filled cells followed by the empty ones, 20 in total, and the percentage is in [0,100] |
| ProgressBar.NegativeWorkThrows | src/components/ProgressBar.js:18-19 | with a positive target, the bar throws exactly when worked < −target/40 |
| ProgressBar.PaceThresholds | src/components/ProgressBar.js:6-12 | green with no hours or no days left; otherwise red iff over 10 h per day, yellow iff over 8 and at most 10, green iff at most 8 |
| ProgressBar.Filled | src/components/ProgressBar.js:18 | the filled cell count; `BarShape` bounds it |
| ProgressBar.Bar | src/components/ProgressBar.js:19 | the bar, or the RangeError of `repeat`; `BarShape` and `NegativeWorkThrows` state both |
| ProgressBar.Percentage | src/components/ProgressBar.js:20 | the rounded percentage; `BarShape` bounds it |
| ProgressBar.PaceColor | src/components/ProgressBar.js:6-12 | the pace colour; `PaceThresholds` states its thresholds |
| WorkTargets.StatusThresholds | src/components/WorkTargets.js:6-11 | green without a positive target; otherwise green iff worked ≥ 0.9·target, yellow iff 0.6·target ≤ worked < 0.9·target, red iff below 0.6·target |
| WorkTargets.AtLeast | src/components/WorkTargets.js:7-9 | the ratio reaches k iff worked ≥ k·target |
| WorkTargets.StatusColor | src/components/WorkTargets.js:6-11 | the status colour; `StatusThresholds` states its thresholds |
| Navigation.IndexOf | src/contexts/NavigationContext.js:136-137 | the index names the section's place in [View, Client, Projects, Tasks] |
| Navigation.TabCycle | src/contexts/NavigationContext.js:135-140 | Tab cycles View→Client→Projects→Tasks→View |
| Navigation.DigitSection | src/contexts/NavigationContext.js:142-156 | a key focusing a section is the digit of its place |
| Navigation.DigitKeys | src/contexts/NavigationContext.js:142-156 | '0' to '3' focus View, Client, Projects and Tasks |
| Navigation.ModeKeys | src/contexts/NavigationContext.js:119-127 | Escape always sets normal mode and 'i' always sets insert mode, changing nothing else |
| Navigation.InsertModeIgnoresKeys | src/contexts/NavigationContext.js:132 | in insert mode, every other key changes nothing |
| Navigation.NormalModeKeys | src/contexts/NavigationContext.js:129-163 | in normal mode, Tab and the digits set the focus, the focused component's handler runs only for a key in its map, and 'q' exits |
| Navigation.UnregisteredNotInvoked | src/contexts/NavigationContext.js:159-163 | with no handler registered for the focused section, none runs |
| Navigation.FindIndex | src/contexts/NavigationContext.js:185-187 | the first row with the id, or −1 when none has it |
| Navigation.Find | src/contexts/NavigationContext.js:180-182 | a row with the id when one exists, otherwise null |
| Navigation.SelectNextSpec | src/contexts/NavigationContext.js:184-192 | an empty list keeps the selection; otherwise index + 1, or the first row from the last one or from a missing id |
| Navigation.SelectPreviousSpec | src/contexts/NavigationContext.js:194-202 | an empty list keeps the selection; otherwise index − 1, or the last row from the first one or from a missing id |
| Navigation.NextThenPrevious | src/contexts/NavigationContext.js:184-202 | with distinct ids, previous undoes next |
| Navigation.NextSection | src/contexts/NavigationContext.js:135-140 | Tab's next section; `TabCycle` states the cycle |
| Navigation.Refocus | src/contexts/NavigationContext.js:135-156 | the focus after Tab and the digits; `TabCycle` and `DigitKeys` state it |
| Navigation.OnKey | src/contexts/NavigationContext.js:117-164 | one keystroke of the global handler; `ModeKeys`, `InsertModeIgnoresKeys` and `NormalModeKeys` state it |
| Navigation.NavigationProvider.constructor | src/contexts/NavigationContext.js:32-45 | focus on Client, normal mode, nothing selected, no handlers |
| Navigation.NavigationProvider.HandleKey | src/contexts/NavigationContext.js:117-164 | the new state is the key handler's transition of the old one |
| Navigation.NavigationProvider.FocusAfter | src/contexts/NavigationContext.js:135-156 | the focus after a key: Tab moves one section on, and a digit 0 to 3 then jumps to its section |
| Navigation.NavigationProvider.RegisterKeyHandler | src/contexts/NavigationContext.js:166-168 | sets the component's key map, nothing else |
| Navigation.NavigationProvider.UnregisterKeyHandler | src/contexts/NavigationContext.js:170-172 | removes the component's key map, nothing else |
| Navigation.NavigationProvider.SelectNextClient | src/contexts/NavigationContext.js:184-192 | only the selected client changes, to the next one |
| Navigation.NavigationProvider.SelectPreviousClient | src/contexts/NavigationContext.js:194-202 | only the selected client changes, to the previous one |
| Navigation.NavigationProvider.SelectNextProject | src/contexts/NavigationContext.js:220-228 | only the selected project changes, to the next one |
| Navigation.NavigationProvider.SelectPreviousProject | src/contexts/NavigationContext.js:230-238 | only the selected project changes, to the previous one |
| Navigation.NavigationProvider.SelectedClient | src/contexts/NavigationContext.js:180-182 | a returned client is in the list and has the selected id |
| Navigation.NavigationProvider.SelectedProject | src/contexts/NavigationContext.js:216-218 | a returned project is in the list and has the selected id |
| MetadataForm.Shortcut | src/components/tasks/MetadataEditingForm.js:110 | the looked-up choice of the lower-cased key, or none when the key is not in the table |
| MetadataForm.ShortcutsNameChoices | src/components/tasks/MetadataEditingForm.js:5-22 | every category shortcut names a category and every scope shortcut a scope |
| MetadataForm.ShortcutIgnoresCase | src/components/tasks/MetadataEditingForm.js:110 | shortcuts ignore case |
| MetadataForm.ChoiceKey | src/components/tasks/MetadataEditingForm.js:110-121 | a shortcut sets its choice, or clears it when it is already set; otherwise backspace/delete clear it, and any other key keeps it |
| MetadataForm.ShortcutTwice | src/components/tasks/MetadataEditingForm.js:112-115 | pressing a shortcut twice ends at '' when its choice was not set before (set, then cleared), and at the choice again when it was (cleared, then set) |
| MetadataForm.ChoiceKeyInRange | src/components/tasks/MetadataEditingForm.js:110-121 | the field stays '' or one of the table's choices |
| MetadataForm.ShortcutAsWritten | src/components/tasks/MetadataEditingForm.js:110 | the lookup as written finds nothing exactly when the key is neither an own key nor an `Object.prototype` key |
| MetadataForm.ChoiceKeyAsWritten | src/components/tasks/MetadataEditingForm.js:110-121 | as written, a key with no lookup result keeps the field unless it is backspace/delete |
| MetadataForm.ConstructorIsSelected | src/components/tasks/MetadataEditingForm.js:110-116 | pasting "constructor" into the category field stores the inherited `constructor` member as the category |
| MetadataForm.AsWrittenAgrees | src/components/tasks/MetadataEditingForm.js:110-121 | away from prototype keys, the code as written and the corrected lookup agree |
| MetadataForm.OrEmpty | src/components/tasks/MetadataEditingForm.js:34-39 | `x \|\| ''` for a present string or a missing value |
| MetadataForm.OrNull | src/components/tasks/MetadataEditingForm.js:48-51 | `x \|\| null`: null exactly for '' |
| MetadataForm.OrNullOrEmpty | src/components/tasks/MetadataEditingForm.js:34-48 | a default survives the round trip through the form unless it is '' |
| MetadataForm.Initial | src/components/tasks/MetadataEditingForm.js:32-44 | the epic field, the defaults with missing values as '', the text buffer holding the epic, insert mode |
| MetadataForm.MetadataOf | src/components/tasks/MetadataEditingForm.js:47-52 | empty epic, category and scope become null; isExploration passes through |
| MetadataForm.ExplorationKey | src/components/tasks/MetadataEditingForm.js:129-134 | y, Y and space toggle; n and N set false; other keys keep the value |
| MetadataForm.InitialValid | src/components/tasks/MetadataEditingForm.js:32-38 | valid defaults give a valid form |
| MetadataForm.StepPreservesValid | src/components/tasks/MetadataEditingForm.js:74-151 | every key keeps the field index in range, the category '' or a category, and the scope '' or a scope |
| MetadataForm.EscapeCancels | src/components/tasks/MetadataEditingForm.js:77-81 | Escape reports a cancel and leaves insert mode, nothing else |
| MetadataForm.ForwardKeys | src/components/tasks/MetadataEditingForm.js:56-65 | Tab or Enter moves forward, loading category or scope into the buffer; on epic it saves the buffer first; on scope it submits |
| MetadataForm.BackKey | src/components/tasks/MetadataEditingForm.js:67-72 | Shift+Tab moves back but never below 0, reloading the epic into the buffer |
| MetadataForm.EpicEditing | src/components/tasks/MetadataEditingForm.js:92-103 | in the epic field, typing appends to the buffer and backspace drops its last char; the epic itself changes only on Enter or Tab |
| MetadataForm.ExplorationOnly | src/components/tasks/MetadataEditingForm.js:124-135 | in the exploration field, other keys change only isExploration |
| MetadataForm.SubmitReports | src/components/tasks/MetadataEditingForm.js:46-54 | submit reports the normalised metadata and leaves insert mode |
| MetadataForm.SaveEpic | src/components/tasks/MetadataEditingForm.js:85 | saves the epic buffer; `ForwardKeys` states where it is called |
| MetadataForm.Step | src/components/tasks/MetadataEditingForm.js:74-151 | one keystroke; `StepPreservesValid` states the invariant it keeps |
| MetadataForm.MetadataEditingForm.constructor | src/components/tasks/MetadataEditingForm.js:32-44 | the initial state |
| MetadataForm.MetadataEditingForm.SubmitAll | src/components/tasks/MetadataEditingForm.js:46-54 | the submit transition |
| MetadataForm.MetadataEditingForm.NextField | src/components/tasks/MetadataEditingForm.js:56-65 | the next-field transition |
| MetadataForm.MetadataEditingForm.PrevField | src/components/tasks/MetadataEditingForm.js:67-72 | the previous-field transition |
| MetadataForm.MetadataEditingForm.HandleKey | src/components/tasks/MetadataEditingForm.js:74-151 | the keystroke transition, keeping validity |
| MetadataForm.MetadataEditingForm.FieldInput | src/components/tasks/MetadataEditingForm.js:91-150 | the per-field keystroke transition |
| EditForms.InitialText | src/components/EditForm.js:12 | `String(defaultValue ?? '')`: '' for null or undefined, the string itself for a string |
| EditForms.InitialTexts | src/components/EditForm.js:10-15 | one buffer per field name, holding the initial text of the last field with that name |
| EditForms.InitialValues | src/components/EditForm.js:7-9 | one value per field name, `defaultValue ?? ''` of the last field with that name |
| EditForms.SubmitResult | src/components/EditForm.js:22-29 | exactly one key per field name, holding that field's text |
| EditForms.Initial | src/components/EditForm.js:6-20 | the first field, the initial buffers and values, insert mode |
| EditForms.InitialValid | src/components/EditForm.js:6-15 | a non-empty field list gives a valid form |
| EditForms.StepPreservesValid | src/components/EditForm.js:45-76 | every key keeps the field index in range and a buffer for every field |
| EditForms.TypingEditsCurrentOnly | src/components/EditForm.js:71-75 | a typed char is appended to the current field's text only |
| EditForms.BackspaceEditsCurrentOnly | src/components/EditForm.js:63-69 | backspace drops the last char of the current field's text only |
| EditForms.ForwardKeys | src/components/EditForm.js:52-61 | Tab or Enter saves the current text into values and advances; on the last field it submits the result instead |
| EditForms.BackKey | src/components/EditForm.js:40-43 | Shift+Tab moves back but never below 0 |
| EditForms.EscapeCancels | src/components/EditForm.js:46-50 | Escape reports a cancel and leaves insert mode, nothing else |
| EditForms.SubmittedResult | src/components/EditForm.js:22-29 | every field's name is in the result with its text, and there are no more keys than fields |
| EditForms.NamesBound | src/components/EditForm.js:24-26 | there are no more distinct names than fields |
| EditForms.SaveCurrent | src/components/EditForm.js:35 | saves the current buffer; `ForwardKeys` states where it is called |
| EditForms.Step | src/components/EditForm.js:45-76 | one keystroke; `StepPreservesValid` states the invariant it keeps |
| EditForms.EditForm.constructor | src/components/EditForm.js:5-20 | the initial state, which is valid |
| EditForms.EditForm.CollectResult | src/components/EditForm.js:23-26 | the for loop builds exactly the submit result |
| EditForms.EditForm.SubmitAll | src/components/EditForm.js:22-29 | the submit transition |
| EditForms.EditForm.NextField | src/components/EditForm.js:33-38 | the next-field transition |
| EditForms.EditForm.PrevField | src/components/EditForm.js:40-43 | the previous-field transition |
| EditForms.EditForm.HandleKey | src/components/EditForm.js:45-76 | the keystroke transition, keeping validity |
| ClientService.ValidateName | src/services/clientService.js:6-13 | a missing, empty or whitespace-only name fails with "cannot be empty"; a longer-than-50 name fails with "cannot exceed 50 characters"; a name is accepted iff neither applies, and is then passed unchanged |
| ClientService.Update | src/services/clientService.js:31-38 | update applies the same rules and passes the id and the unchanged name on |
| ClientService.BlankNameRejected | src/services/clientService.js:7-8 | a name of spaces, tabs and newlines is rejected by both |
| ClientService.PaddingCountsTowardsLimit | src/services/clientService.js:7-10 | trailing whitespace counts towards the length limit but not towards emptiness |
| JsString.Trim | src/components/TimeEditForm.js:8 | the result has no whitespace at either end, and is empty iff the input is all whitespace |
| JsString.TrimSplit | src/components/tasks/EstimationEditingForm.js:20-22 | every string is whitespace + its trim + whitespace |
| JsString.TrimStartSpec | src/components/TimeEditForm.js:8 | leading trim removes exactly a whitespace prefix and stops at a non-whitespace char |
| JsString.TrimEndSpec | src/components/TimeEditForm.js:8 | trailing trim removes exactly a whitespace suffix and stops at a non-whitespace char |
| JsString.TrimStartPadded | src/components/TimeEditForm.js:8 | leading whitespace before a non-whitespace char is removed exactly |
| JsString.TrimEndPadded | src/components/TimeEditForm.js:8 | trailing whitespace after a non-whitespace char is removed exactly |
| JsString.TrimPadded | src/components/tasks/EstimationEditingForm.js:22 | trimming removes exactly the padding of a text with no whitespace at its ends |
| JsString.LowerAll | src/utils.js:5 | ASCII `toLowerCase`, character by character |
| JsString.ToLower | src/utils.js:5 | an ASCII capital moves 32 code units down to its lower-case letter; every other char is kept |
| JsString.ToUpper | src/utils.js:9 | an ASCII lower-case letter moves 32 code units up to its capital; every other char is kept |
| JsString.LowerUpper | src/utils.js:4-9 | lower-casing undoes upper-casing of a lower-case letter |
| JsString.UpperLower | src/utils.js:4-9 | upper-casing undoes lower-casing of a capital |
| JsString.LowerAllIdempotent | src/utils.js:5 | lower-casing twice is lower-casing once |
| JsString.TrimLowerAll | src/components/tasks/EstimationEditingForm.js:22 | trimming and lower-casing commute |
| JsString.NatToStringRoundTrip | src/components/MonthlyTarget.js:9-10 | the decimal digits of n denote n |
| JsString.NatToString | src/components/MonthlyTarget.js:9-10 | `String(n)` of a natural number is a digit run without a leading zero |
| JsString.IntToString | src/components/MonthlyTarget.js:9-10 | `String(i)` is a digit run, preceded by '-' for a negative number |
| JsString.Slice | src/components/VimTextInput.js:146 | `slice` within bounds is the sub-sequence |
| JsString.SliceBound | src/components/TruncatedText.js:8 | a `slice` index is clamped to [0, len], and a negative one counts from the end |
| JsString.SliceDropLast | src/components/tasks/MetadataEditingForm.js:99 | `slice(0, -1)` drops the last element, and leaves '' empty |
| JsString.LexLeTotal | src/services/pricingService.js:28 | any two strings compare one way or the other |
| JsString.LexTotal | src/services/pricingService.js:28 | of two different strings one is less than the other |
| JsString.LexLessTransitive | src/services/pricingService.js:28 | string `<` is transitive |
| JsString.LexLeTransitive | src/services/pricingService.js:20-28 | string `<=` is transitive |
| JsString.LexLePrefix | src/services/pricingService.js:19-28 | a string is `<=` every extension of it |
| JsString.BeforeFirst | src/services/pricingService.js:26 | `split('T')[0]` is the prefix before the first 'T' |
| JsValue.Nullish | src/components/EditForm.js:8-12 | `v ?? d` is d exactly for null and undefined |
| JsValue.Round | src/services/analyticsService.js:110 | `Math.round` gives the integer within one half, halves rounding up |
| JsValue.ToStr | src/components/EditForm.js:12 | `String(v)` of a string is the string itself |
| Regex.SpanMaximal | src/components/tasks/EstimationEditingForm.js:25 | a greedy run takes only class members and stops before a non-member |
| Regex.SplitAtSpan | src/components/tasks/EstimationEditingForm.js:25 | a run followed by a non-member is split off exactly |

## Findings

| source | as written | input that shows it | evidently intended | confidence | as-written member | corrected member |
|---|---|---|---|---|---|---|
| src/components/tasks/MetadataEditingForm.js:110 | `CATEGORY_SHORTCUTS[input?.toLowerCase()]` reads inherited `Object.prototype` members as well as the six own shortcut keys; the same holds for the scope table at line 142 | pasting "constructor" (or "__proto__") as one input into the category field; the key is lower-cased first, so only the all-lower-case prototype keys are reachable: the lookup yields the `Object` constructor, which is truthy, so it is stored as the category | only the own keys of the table are shortcuts, so the category stays '' or one of the six categories | not executed | MetadataForm.ConstructorIsSelected | MetadataForm.ChoiceKey |
| src/components/VimTextInput.js:36 | `setInputLocked` is destructured from the navigation context, whose value (src/contexts/NavigationContext.js:275-305) has no such member; the mount effect, `submit` and `cancel` call it | mounting the editor in any of its four forms; or typing `:wq` and Enter: `submit` throws a TypeError before `onSubmit(value)` runs | the provider exposes an input lock, so mounting locks navigation and submit and cancel unlock it and then report | not executed | VimInput.ProviderLacksLock | VimInput.TypedCommandSubmits |

## Left out

- I/O, the database and the network. The repository rows are inputs (`Pricing.Store`), and no model file is modelled.
- The wall clock. All three read the current time, so the date range and "now" are not modelled:
  - `getDateRange` (src/services/pricingService.js:7-15);
  - `timeSinceLastSeconds` (src/services/analyticsService.js:83-85);
  - `getFormatedDate` (src/utils.js:36-40).
- Timezones and `Date` parsing. An entry carries the stored start text, its time in seconds, and its local day and start hour. `toDateString()` and `getHours()` are taken as given per entry.
- `calculateDuration` and `sumEntryDurations` are not part of this model. A duration is end − start in seconds.
- A `Date`-object `effective_from` or date argument (src/services/pricingService.js:19, 27) is not modelled; rates and dates are strings.
- Rendering: Ink components, colours, the mode indicator of the editor, `getBorderTitle`, and the `×1.33` display tweak.
- Effects and async loaders:
  - `loadClients`, `loadProjects`, `reloadClients`, `reloadProjects`, `handleReload` and `exit()` itself (the key handler only records that it was called);
  - the `setMode('insert')` mount effects, which are folded into the forms' initial state.
- `console.log` in `convToSnake`.
- `Utils.MapObjToSnake`: `obj[cv]` reads own properties only, so inherited `Object.prototype` members under a listed key are not modelled.
- Property order: objects are finite maps, and key enumeration order is modelled only where it decides the result, which is the ascending integer keys of the hour counts.
- `ScrollableList.SelectedItem`: `items[i] || null` also gives null for a falsy item (0, '', false); the model returns the item itself.
- Case mapping is ASCII only: `toLowerCase`/`toUpperCase` of other letters, and characters outside the Basic Multilingual Plane, are not modelled.
- `EditForms.EditForm.constructor` requires a non-empty field list. With none, the source throws on its first render at `fields[currentField].name` (src/components/EditForm.js:31).
- `EditForms.EditForm.HandleKey` requires a buffer for every field. The source keeps that invariant itself, and `EditForms.StepPreservesValid` proves it.
- `ClientService`: the `delete` cascade (src/services/clientService.js:18-29) and `selectAll` are database plumbing and are not modelled.
- `VimInput.VimTextInput.MoveCursor` and the mode methods take the component's state as it was rendered before the key. React's batching of several `setState` calls inside one handler is modelled as their combined effect.
- `VimInput.VimTextInput`: the class models the intended lock, a `setInputLocked` the navigation context does not provide. The code as written throws on mount, submit and cancel. `NextAsWritten` and `ProviderLacksLock` model that, and "## Findings" records it.
- VimInput.VimTextInput.constructor: states the intended mount (locked, default value); as written the mount effect throws (`VimInput.MountAsWritten`).
- VimInput.VimTextInput.Submit: states the intended unlock and report; as written it throws before `onSubmit` (`VimInput.SubmitAsWritten`).
- VimInput.VimTextInput.Cancel: states the intended unlock and report; as written it throws before `onCancel` (`VimInput.CancelAsWritten`).
- VimInput.VimTextInput.ExecuteCommand: states the intended outcome; as written w, wq, q and q! throw (`VimInput.ExecuteAsWritten`).
- CommandOutcome: states the intended outcome of Enter in command mode; as written, the submit and cancel cases throw instead (`VimInput.NextAsWrittenSpec`).
- TypedCommandSubmits: states the intended submit; as written `:wq` throws (`VimInput.ProviderLacksLock`).
- `Navigation.OnKey` looks a key up in a component's own handler map. The source's `handlers[input]` also reaches inherited `Object.prototype` members such as `constructor`. Only a pasted multi-character input can name one. Most of them, `constructor` (that is, `Object()`) among them, return a value and change no state; a few, such as `__defineGetter__`, throw. The model treats all such keys as unmapped.
- The session distribution takes entry durations and gaps in whole seconds directly, instead of `Math.floor` over milliseconds.

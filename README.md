# KPI dashboard core, modelled in Dafny

This project models the state and data logic of a KPI dashboard for
manufacturing plants. The dashboard is a React single-page application.

Plant staff log in with a two-factor step. They enter KPI values per area
(Safety, Quality, Delivery, Production, Cost), production line (L06, L07,
Rapid Rhino, ENT), shift and date. They look at a line chart of the Safety
values and open corrective actions when a value falls below target. The
model covers:

- **Calendar** (`calendar.dfy`): the proleptic Gregorian dates the
  components compute with.
  - A day number, with 1970-01-01 as day 0.
  - The weekday as `getDay` returns it, with Sunday as 0.
  - The next day, the previous day and `n` days earlier, as `setDate`
    normalises them.
- **Configuration** (`config.dfy`): the five areas with two metrics each,
  the production lines, and the record type the store keeps.
- **Store** (`store.dfy`): the global store holding:
  - the recorded KPI entries;
  - the selected area;
  - the authentication flag.
- **Pareto analysis** (`pareto.dfy`):
  - The cause list and its entry form.
  - The stable in-place sort by units, largest first. It is kept as an
    insertion sort over the causes array.
  - The chart rows with the accumulated share of the total.
- **Safety dashboard** (`security.dfy`):
  - The corporate and natural week numbers, and the comparison date.
  - The enumeration of the selected date range and the raw series.
  - The grouping of rows into weeks or months by a running pairwise
    average.
- **KPI entry grid** (`kpitable.dfy`):
  - The seven-day date window and the cell map.
  - The trigger that opens the corrective-action dialog.
  - The per-line total of the three shifts.
- **Metric chart** (`metricchart.dfy`): the value under each line's
  latest date key against the metric's target.
- **Action plan** (`actionplan.dfy`): adding, removing and re-statusing
  actions, and the completion percentage.
- **Notification bell** (`notifications.dfy`): the unread count, mark
  read, mark all read, remove, and the dropdown toggle.
- **Forms**:
  - the manual KPI form (`kpiform.dfy`);
  - the tier form (`tierform.dfy`);
  - the value-stream form (`valuestream.dfy`);
  - the KPI management page: tabs, category filter and tier KPIs
    (`kpimanagement.dfy`).
- **Navigation**:
  - the sidebar: section toggles and active-entry matching
    (`sidebar.dfy`);
  - the input-data route, resolving an area slug (`inputlayout.dfy`).
- **Login** (`login.dfy`): the login page as a state machine over form
  events.

`common.dfy` holds shared helpers:

- `Option`;
- subsequences;
- the first index of an element;
- the distinct elements of a sequence in first-seen order;
- `Filter`, the order-keeping `Array.prototype.filter` that the
  components use to drop entries;
- removal of every occurrence of a value.

Modelling conventions:

- **Components.** A React component whose state hooks are updated by event
  handlers is a class. Each field is one `useState` value, and each handler
  is a method with a `modifies` clause that states the whole new state.
  Derived values (`paretoData`, `unreadCount`, `calculateProgress`,
  `chartData`) are functions of that state.
- **Outside values.** The clock (`Date.now()`, `new Date()`) gives fresh
  ids and "today", and both are parameters. `Number(text)` is a parameter
  of type `string -> Option<real>`, where `None` stands for NaN.
- **Records.** `Record<string, …>` objects are maps. Where the order of
  entries matters they are ordered sequences of pairs.

In these places the model keeps the code's behaviour, which may not be what
a reader expects:

- **Corporate weeks before the first Sunday.** `getCorporateWeek` gives 0 or a
  negative number for dates before the year's first Sunday. `CorporateWeek`
  does the same, and `CorporateWeekBeforeEpoch` states it.
- **Zero total in the Pareto rows.** When the total units are 0, the
  source divides by zero and gets NaN. `Accumulated` gives `None` then.
- **Cleared grid cells.** `Number("")` is 0 in JavaScript, so clearing a
  Safety cell opens the corrective-action dialog. `ClearingSafetyCellTriggers`
  states this.
- **Week keys.** The week grouping key is only `Week n`. Dates of
  different months (natural weeks) or years (corporate weeks) with the same
  week number therefore share one group. The model keeps this.

## Model

| member | source | states |
|---|---|---|
| Common.Filter | src/components/ActionPlanForm.tsx:54 | `filter` keeps every copy of each element the test accepts and nothing else, in the original order, and returns the list itself when every element passes |
| Common.FilterAppend | src/components/kpi/TierForm.tsx:32-33 | filtering a concatenation filters each part and concatenates the results |
| Common.Without | src/components/kpi/TierForm.tsx:32 | removing a value drops every copy of it and keeps every copy of every other value, in order; a list without the value is unchanged |
| Calendar.Weekday | src/components/SecurityDashboard.tsx:28 | the weekday lies in 0..6, as `getDay` returns it |
| Calendar.NextDay | src/components/SecurityDashboard.tsx:101 | the date after a valid date is valid, one day number later |
| Calendar.PrevDay | src/components/KPITable.tsx:13 | the date before a valid date is valid, one day number earlier, and its next day is the original date |
| Calendar.DaysEarlier | src/components/KPITable.tsx:12-13 | going back `n` days gives a valid date exactly `n` day numbers earlier |
| Calendar.DaysEarlierStep | src/components/KPITable.tsx:13 | going back `n + 1` days is going back `n` days and then one more day |
| Calendar.YearLength | src/components/SecurityDashboard.tsx:101 | a year has 366 days when it is a leap year and 365 otherwise, and the next year starts right after its last day |
| Store.KPIStore.constructor | src/store/kpiStore.ts:15-17 | the store starts with no entries, no selected area and not authenticated |
| Store.KPIStore.SetSelectedArea | src/store/kpiStore.ts:18 | only the selected area changes, to the given one (possibly none) |
| Store.KPIStore.AddKPIData | src/store/kpiStore.ts:19-21 | the entry is appended and the earlier entries keep their order; nothing else changes |
| Store.KPIStore.Login | src/store/kpiStore.ts:22 | the store becomes authenticated; the entries and the selected area are kept |
| Store.KPIStore.Logout | src/store/kpiStore.ts:23 | the store becomes unauthenticated; the entries and the selected area are kept |
| Pareto.InsertPermutes | src/components/ParetoAnalysis.tsx:44 | inserting a cause adds exactly that cause to the multiset of causes |
| Pareto.InsertSorted | src/components/ParetoAnalysis.tsx:44 | inserting into a list sorted by units, largest first, keeps it sorted |
| Pareto.SortByUnitsPermutes | src/components/ParetoAnalysis.tsx:44 | the sort is a permutation of the causes |
| Pareto.SortByUnitsSorted | src/components/ParetoAnalysis.tsx:44 | the sort orders causes by units, largest first, as the comparator `b.units - a.units` asks |
| Pareto.SortIsStable | src/components/ParetoAnalysis.tsx:44 | causes with equal units keep their original relative order (the sort is stable) |
| Pareto.InsertWithUnits | src/components/ParetoAnalysis.tsx:44 | an inserted cause goes after every cause with the same units |
| Pareto.InsertAt | src/components/ParetoAnalysis.tsx:44 | a cause lands right after the causes with at least its units and before the smaller ones |
| Pareto.ShiftSmaller | src/components/ParetoAnalysis.tsx:44 | shifting the smaller causes one place right opens a slot between the larger-or-equal prefix and the smaller causes; the rest of the array is untouched |
| Pareto.PlacedIsInsert | src/components/ParetoAnalysis.tsx:44 | the shifted array with the cause put into the slot is the sorted insertion of that cause |
| Pareto.InsertLast | src/components/ParetoAnalysis.tsx:44 | one in-place step: the element after a sorted prefix joins it by sorted insertion, and the rest of the array is unchanged |
| Pareto.SortInPlace | src/components/ParetoAnalysis.tsx:44 | the causes array, sorted in place, equals the stable sort of its old contents |
| Pareto.ParetoRows | src/components/ParetoAnalysis.tsx:45-56 | one row per cause, in order, with its description, its units and the share of the running total in the grand total |
| Pareto.PrefixTotalMonotone | src/components/ParetoAnalysis.tsx:47-49 | with non-negative units, a longer prefix never has a smaller total |
| Pareto.ShareMonotone | src/components/ParetoAnalysis.tsx:54 | a share of a positive total grows with the part and stays within 0..100 |
| Pareto.ParetoSharesMonotone | src/components/ParetoAnalysis.tsx:43-56 | with non-negative units and a positive total, the accumulated percentages are defined, lie in [0, 100], never decrease, and reach 100 at the last row |
| Pareto.ShareInRange | src/components/ParetoAnalysis.tsx:46-54 | each accumulated percentage is defined and within [0, 100] |
| Pareto.ShareOrder | src/components/ParetoAnalysis.tsx:46-54 | a later row never has a smaller accumulated percentage |
| Pareto.LastShare | src/components/ParetoAnalysis.tsx:46-54 | the last row's accumulated percentage is exactly 100 |
| Pareto.AdmittedTotalPositive | src/components/ParetoAnalysis.tsx:32 | a non-empty list of causes with positive units has a positive total, so every share is defined |
| Pareto.ParetoAnalysis.constructor | src/components/ParetoAnalysis.tsx:23-29 | the form starts with the initial causes and a cleared entry |
| Pareto.ParetoAnalysis.EditDraft | src/components/ParetoAnalysis.tsx:75-99 | the entry's description, units and comments take the typed values; the causes are kept |
| Pareto.ParetoAnalysis.AddCause | src/components/ParetoAnalysis.tsx:31-41 | an entry with a description and positive units is appended under the fresh id and the entry is cleared; otherwise nothing changes |
| Pareto.ParetoAnalysis.ParetoData | src/components/ParetoAnalysis.tsx:43-56 | the causes state is sorted in place by the stable sort, and the rows are the Pareto rows of the sorted causes |
| Security.FirstSunday | src/components/SecurityDashboard.tsx:26-30 | the corporate epoch is the first Sunday of January: a valid date among the first seven days, with no Sunday before it |
| Security.SundayOffset | src/components/SecurityDashboard.tsx:28 | within a week of days, exactly one offset lands on a Sunday |
| Security.GetCorporateWeek | src/components/SecurityDashboard.tsx:25-34 | the loop that walks to the first Sunday and divides the day difference by seven computes the corporate week |
| Security.CorporateWeekIs | src/components/SecurityDashboard.tsx:31-33 | week `k` is exactly the seven days starting `7*(k-1)` days after the year's first Sunday |
| Security.CorporateWeekBeforeEpoch | src/components/SecurityDashboard.tsx:31-33 | a date before the year's first Sunday gets week 0 or less (not clamped) |
| Security.CorporateWeekMonotone | src/components/SecurityDashboard.tsx:25-34 | within a year, a later date never has a smaller corporate week |
| Security.NaturalWeek | src/components/SecurityDashboard.tsx:116-117 | the natural week is the ceiling of (day of month + weekday of the first of the month) over seven, and lies in 1..6 |
| Security.ComparisonDate | src/components/SecurityDashboard.tsx:64-72 | no comparison keeps the date; previous week is exactly 7 days earlier; previous year is a valid date in the year before |
| Security.MonthShift | src/components/SecurityDashboard.tsx:69 | the days before a month differ between two years only by the February leap day |
| Security.PreviousYearDistance | src/components/SecurityDashboard.tsx:69 | the previous-year date keeps month and day where they exist and lies 365 or 366 days back; 29 February maps to 1 March, 365 days back |
| Security.SameDayLastYear | src/components/SecurityDashboard.tsx:69 | a month and day that exist a year earlier lie 365 or 366 days back |
| Security.LeapDayLastYear | src/components/SecurityDashboard.tsx:69 | 29 February rolls over to 1 March of the year before, 365 days earlier |
| Security.DaysFrom | src/components/SecurityDashboard.tsx:99-102 | `n` valid dates with consecutive day numbers from the start |
| Security.DateRange | src/components/SecurityDashboard.tsx:94-105 | the range holds only valid dates |
| Security.DaysFromConsecutive | src/components/SecurityDashboard.tsx:101 | each date of the sequence is the next day of the previous one |
| Security.DateRangeSpans | src/components/SecurityDashboard.tsx:94-105 | the range runs from start to end inclusive, one day at a time, with `end - start + 1` dates, or none when start is after end |
| Security.EnumerateDays | src/components/SecurityDashboard.tsx:94-105 | the while loop that pushes days until past the end yields exactly the date range |
| Security.FilteredLines | src/components/SecurityDashboard.tsx:90-91 | "all" selects the four lines, anything else selects that line alone |
| Security.LineValues | src/components/SecurityDashboard.tsx:142-149 | a data point has one field per selected line with its stored value (0 if missing) and, when a comparison is on, one per line with the value on the comparison date |
| Security.RawChartData | src/components/SecurityDashboard.tsx:141-151 | one ungrouped row per date, in date order, carrying the line values of that date |
| Security.FindGroup | src/components/SecurityDashboard.tsx:124 | the index of the first row carrying the key, or none exactly when no row carries it |
| Security.ComputeKey | src/components/SecurityDashboard.tsx:112-122 | the key computed with the loop of `getCorporateWeek` is the row's week or month bucket |
| Security.Find | src/components/SecurityDashboard.tsx:124 | the linear scan finds the first row with the key |
| Security.GroupData | src/components/SecurityDashboard.tsx:108-137 | the reduce loop yields the grouped rows; grouping by day returns the input unchanged |
| Security.StepShape | src/components/SecurityDashboard.tsx:124-133 | a step keeps the group keys when the key exists and appends it otherwise |
| Security.GroupKeysDistinct | src/components/SecurityDashboard.tsx:108-137 | grouping yields exactly one row per distinct key, in the order the keys first appear |
| Security.FirstSeenStep | src/components/SecurityDashboard.tsx:124-133 | a step keeps every group dated by the first row that opened it |
| Security.GroupDatesFirstSeen | src/components/SecurityDashboard.tsx:132 | each group keeps the date of the first input row with its key |
| Security.StepKeepsOthers | src/components/SecurityDashboard.tsx:124-133 | a step leaves the rows of every other group within their bounds |
| Security.StepWithin | src/components/SecurityDashboard.tsx:128 | averaging two values within [lo, hi] stays within [lo, hi] |
| Security.GroupValuesWithin | src/components/SecurityDashboard.tsx:126-130 | every merged value lies between the least and the greatest value that its group's input rows hold for that field |
| Security.ChartData | src/components/SecurityDashboard.tsx:140-154 | the chart rows are the grouping of the raw series over the selected range and lines |
| KPITable.DateWindow | src/components/KPITable.tsx:11-15 | seven valid dates, today first, each one day earlier than the one before |
| KPITable.DateWindowSteps | src/components/KPITable.tsx:11-15 | each date of the window is the previous day of the one before it |
| KPITable.FindMetric | src/components/KPITable.tsx:43 | the first metric with the id, or none exactly when the area has no such metric |
| KPITable.TriggersByArea | src/components/KPITable.tsx:42-45 | with the shipped configuration only the Safety area triggers, exactly on a number below 80 |
| KPITable.ShiftTotal | src/components/KPITable.tsx:158-161 | the total is the sum of the three shift cells, a missing or non-numeric cell counting 0 |
| KPITable.TotalDisplay | src/components/KPITable.tsx:167 | a positive total is shown as the number, anything else as a dash |
| KPITable.EmptyTotalIsDash | src/components/KPITable.tsx:157-167 | a line without entries for a date shows a dash |
| KPITable.CellAfterEdit | src/components/KPITable.tsx:56-62 | writing a cell changes the number of that cell and of no other |
| KPITable.SumShiftsAfterEdit | src/components/KPITable.tsx:158-161 | an edit moves a sum over distinct shifts by the edited cell's change when that cell is among them, and by nothing otherwise |
| KPITable.TotalAfterEdit | src/components/KPITable.tsx:56-62 | an edit moves only its own total row, by the change of the edited cell |
| KPITable.KPITableView.constructor | src/components/KPITable.tsx:21-32 | the grid starts empty with the dialog closed and nothing selected |
| KPITable.KPITableView.HandleCellChange | src/components/KPITable.tsx:35-63 | the typed text is stored under its cell, every other cell is kept, and a number below the near-miss target opens the dialog with that metric, value, line and date; otherwise the dialog state is kept |
| KPITable.KPITableView.CloseCorrectiveAction | src/components/KPITable.tsx:182 | closing the dialog hides it and keeps the grid and the selection |
| KPITable.ClearingSafetyCellTriggers | src/components/KPITable.tsx:42-45 | when the empty text parses to 0, clearing a Safety cell opens the dialog |
| MetricChart.LexReflexive | src/components/KPIMetricChart.tsx:12 | the string order of the default sort is reflexive |
| MetricChart.LexTotal | src/components/KPIMetricChart.tsx:12 | the string order is total |
| MetricChart.LexTransitive | src/components/KPIMetricChart.tsx:12 | the string order is transitive |
| MetricChart.LexAntisymmetric | src/components/KPIMetricChart.tsx:12 | the string order is antisymmetric |
| MetricChart.MaxKey | src/components/KPIMetricChart.tsx:12 | the key that the sort puts last is one of the keys, and every key precedes or equals it |
| MetricChart.MaxKeyUnique | src/components/KPIMetricChart.tsx:12 | exactly one key is greater than or equal to all keys, so sort-and-pop picks it whatever the entry order |
| MetricChart.Keys | src/components/KPIMetricChart.tsx:12 | the date keys of a line, in entry order |
| MetricChart.LatestValue | src/components/KPIMetricChart.tsx:12-15 | the value stored under the greatest date key, or 0 when the line has none |
| MetricChart.ChartData | src/components/KPIMetricChart.tsx:11-18 | one bar per line, in order, with the line's name, its latest value and the metric's target |
| ActionPlan.RemoveById | src/components/ActionPlanForm.tsx:53-55 | every copy of an action with the id is dropped and every copy of every other action is kept, in order; a list without the id is unchanged |
| ActionPlan.CompletedCount | src/components/ActionPlanForm.tsx:59 | the completed count is at most the list length, and equal to it exactly when every action is completed |
| ActionPlan.ProgressBounds | src/components/ActionPlanForm.tsx:57-61 | progress lies in [0, 100] and is 100 exactly when the plan is non-empty and fully completed |
| ActionPlan.FractionBounds | src/components/ActionPlanForm.tsx:60 | a part of a positive whole is within 0..100 percent, and 100 only for the whole |
| ActionPlan.SetStatus | src/components/ActionPlanForm.tsx:195-202 | the action with the id gets the new status; every other field and every other action is unchanged |
| ActionPlan.CompletingNeverLowersCount | src/components/ActionPlanForm.tsx:57-61 | marking an action completed never lowers the completed count |
| ActionPlan.ActionPlanForm.constructor | src/components/ActionPlanForm.tsx:29-36 | no actions, and an empty pending draft |
| ActionPlan.ActionPlanForm.EditDraft | src/components/ActionPlanForm.tsx:30 | the draft takes the typed values; the actions are kept |
| ActionPlan.ActionPlanForm.AddAction | src/components/ActionPlanForm.tsx:38-51 | a complete draft is appended under the fresh id and cleared; an incomplete one changes nothing |
| ActionPlan.ActionPlanForm.RemoveAction | src/components/ActionPlanForm.tsx:53-55 | the actions become the list without that id; the draft is kept |
| ActionPlan.ActionPlanForm.UpdateStatus | src/components/ActionPlanForm.tsx:195-202 | only the status of the action with the id changes |
| Notifications.UnreadCount | src/components/notifications/NotificationBell.tsx:48 | the unread count is at most the list length, and 0 exactly when all are read |
| Notifications.MockUnread | src/components/notifications/NotificationBell.tsx:14-42 | the bell starts with three notifications, two of them unread |
| Notifications.MarkRead | src/components/notifications/NotificationBell.tsx:50-54 | notifications with the id become read; nothing else changes |
| Notifications.MarkReadIdempotent | src/components/notifications/NotificationBell.tsx:50-54 | marking the same id twice equals marking it once |
| Notifications.MarkReadCount | src/components/notifications/NotificationBell.tsx:48-54 | marking an id lowers the unread count by exactly its unread notifications |
| Notifications.MarkAllRead | src/components/notifications/NotificationBell.tsx:56-58 | every notification becomes read, nothing else changes, and the unread count is 0 |
| Notifications.Remove | src/components/notifications/NotificationBell.tsx:60-62 | every copy of a notification with the id is dropped and every copy of every other notification is kept, in order |
| Notifications.NotificationBell.constructor | src/components/notifications/NotificationBell.tsx:45-46 | the bell starts with the mock notifications and the dropdown closed |
| Notifications.NotificationBell.ToggleDropdown | src/components/notifications/NotificationBell.tsx:78 | the dropdown flips; the notifications are kept |
| Notifications.NotificationBell.MarkAsRead | src/components/notifications/NotificationBell.tsx:50-54 | the notifications become their marked-read list; the dropdown is kept |
| Notifications.NotificationBell.MarkAllAsRead | src/components/notifications/NotificationBell.tsx:56-58 | all notifications are read and the badge count is 0; the dropdown is kept |
| Notifications.NotificationBell.RemoveNotification | src/components/notifications/NotificationBell.tsx:60-62 | the notification is removed; the dropdown is kept |
| KPIForm.InitialMetrics | src/components/KPIForm.tsx:15 | one metric per configured metric, with the same id, name, target and unit, and current value 0 |
| KPIForm.SetCurrent | src/components/KPIForm.tsx:76-80 | only the current value of the edited metric changes |
| KPIForm.SetCurrentConforms | src/components/KPIForm.tsx:76-80 | editing a value keeps the metrics matching the area's configuration |
| KPIForm.Record | src/components/KPIForm.tsx:20-24 | the submitted entry carries the fresh id, the area and every form field |
| KPIForm.KPIFormView.constructor | src/components/KPIForm.tsx:11-16 | empty line and shift, today's date, and the initial metrics |
| KPIForm.KPIFormView.SetLine | src/components/KPIForm.tsx:36 | only the line changes |
| KPIForm.KPIFormView.SetShift | src/components/KPIForm.tsx:45 | only the shift changes |
| KPIForm.KPIFormView.SetDate | src/components/KPIForm.tsx:60 | only the date changes |
| KPIForm.KPIFormView.EditMetric | src/components/KPIForm.tsx:76-80 | only the edited metric's value changes, and the metrics keep matching the configuration |
| KPIForm.KPIFormView.Submit | src/components/KPIForm.tsx:18-26 | the store gains exactly the record of the form; the store's other state is kept |
| TierForm.ToggleKpi | src/components/kpi/TierForm.tsx:30-35 | every copy of a selected KPI is removed while every other entry, repeats included, keeps its place; an unselected one is appended; no other id changes membership |
| TierForm.ToggleTwice | src/components/kpi/TierForm.tsx:30-35 | toggling twice restores membership, and restores the list itself when the id was not selected |
| TierForm.WithoutAppend | src/components/kpi/TierForm.tsx:32-33 | removing an id just appended to a list without it gives the list back |
| TierForm.TierFormView.constructor | src/components/kpi/TierForm.tsx:17-23 | the form starts with the given data, or a blank daily tier |
| TierForm.TierFormView.HandleKPIChange | src/components/kpi/TierForm.tsx:30-35 | only the KPI ids change, by the toggle |
| ValueStreamForm.SetArea | src/components/kpi/ValueStreamForm.tsx:80-85 | checking appends the area; unchecking removes every copy of it and keeps every other entry, repeats included, in order; the area ends selected exactly when checked |
| ValueStreamForm.ValueStreamFormView.constructor | src/components/kpi/ValueStreamForm.tsx:15-19 | the form starts with the given data, or a blank value stream |
| ValueStreamForm.ValueStreamFormView.ToggleArea | src/components/kpi/ValueStreamForm.tsx:79-85 | only the areas change, and the box then shows checked as clicked |
| KPIManagement.FilterByCategory | src/components/kpi/KPIManagement.tsx:214 | "all" keeps every KPI; otherwise every copy of every KPI of that category and nothing else, in order |
| KPIManagement.FilterIdempotent | src/components/kpi/KPIManagement.tsx:275 | filtering twice by the same category equals filtering once |
| KPIManagement.FindKpi | src/components/kpi/KPIManagement.tsx:351 | the first KPI with the id, or none exactly when no KPI has it |
| KPIManagement.TierKpis | src/components/kpi/KPIManagement.tsx:350-352 | the KPIs shown for a tier are known KPIs whose ids the tier lists, at most one per id; when every id resolves they are the first match of each id, in id order; when none resolves nothing is shown |
| KPIManagement.TierKpisSingle | src/components/kpi/KPIManagement.tsx:350-352 | one listed id shows the first KPI with that id, or nothing when no KPI has it |
| KPIManagement.TierKpisAppend | src/components/kpi/KPIManagement.tsx:350 | the KPIs shown for a list of ids are those shown for each part of it, concatenated in order; with TierKpisSingle this fixes the listing for every id list |
| KPIManagement.TierKpisSkips | src/components/kpi/KPIManagement.tsx:351-352 | an id no KPI carries is skipped wherever it appears in the tier |
| KPIManagement.MockTierKpis | src/components/kpi/KPIManagement.tsx:53-87 | the first mock tier shows both mock KPIs, the second only the first |
| KPIManagement.InitialTab | src/components/kpi/KPIManagement.tsx:92 | the `tab` query parameter when present and non-empty, otherwise `valueStreams` |
| KPIManagement.KPIManagementView.constructor | src/components/kpi/KPIManagement.tsx:92-100 | tab from the query, category "all", form closed, nothing edited, no message |
| KPIManagement.KPIManagementView.HandleTabChange | src/components/kpi/KPIManagement.tsx:102-105 | the tab and the query change together, so a reload restores the tab |
| KPIManagement.KPIManagementView.SetSelectedCategory | src/components/kpi/KPIManagement.tsx:97 | only the selected category changes |
| KPIManagement.KPIManagementView.HandleAdd | src/components/kpi/KPIManagement.tsx:107-110 | the form opens with no item being edited |
| KPIManagement.KPIManagementView.HandleEdit | src/components/kpi/KPIManagement.tsx:112-115 | the form opens on the given item |
| KPIManagement.KPIManagementView.HandleDelete | src/components/kpi/KPIManagement.tsx:117-120 | only the success message is set |
| Sidebar.InitialSections | src/components/layout/Sidebar.tsx:112-120 | the seven sections start closed |
| Sidebar.ToggleSection | src/components/layout/Sidebar.tsx:124-131 | when expanded, only the given section flips; when collapsed, nothing changes |
| Sidebar.ToggleTwice | src/components/layout/Sidebar.tsx:124-131 | toggling twice restores every section's state |
| Sidebar.CollapsedClicksInert | src/components/layout/Sidebar.tsx:124-125 | any number of header clicks while the sidebar is collapsed leaves the sections unchanged |
| Sidebar.SubMenusAfterCollapse | src/components/layout/Sidebar.tsx:86 | a collapsed sidebar draws no sub-menu; expanded again after any clicks, a section draws its sub-menu exactly when it has items and was open before |
| Sidebar.PrefixesNest | src/components/layout/Sidebar.tsx:208-280 | two prefixes of one path nest |
| Sidebar.PrefixesIndependent | src/components/layout/Sidebar.tsx:208-280 | no entry's prefix starts another's |
| Sidebar.AtMostOneActive | src/components/layout/Sidebar.tsx:200-280 | at most one navigation entry is highlighted for any path |
| Sidebar.SidebarView.constructor | src/components/layout/Sidebar.tsx:108-120 | all sections start closed |
| Sidebar.SidebarView.SetCollapsed | src/components/layout/Sidebar.tsx:108 | a new collapsed flag from the layout leaves the open sections as they were; collapsed, no sub-menu is drawn, and expanded, exactly the sections that were open draw theirs (Sidebar.tsx:86) |
| Sidebar.SidebarView.Toggle | src/components/layout/Sidebar.tsx:124-131 | the sections become the toggled map and the collapsed flag is kept |
| InputLayout.LowerChar | src/components/input/InputDataLayout.tsx:45 | upper-case ASCII letters map to lower case; every other character is kept |
| InputLayout.ToLower | src/components/input/InputDataLayout.tsx:45 | lower-casing maps each character |
| InputLayout.ToLowerIdempotent | src/components/input/InputDataLayout.tsx:45 | lower-casing twice is lower-casing once |
| InputLayout.Slugs | src/components/input/InputDataLayout.tsx:26 | the link slug of each area, in order |
| InputLayout.IndexOf | src/components/input/InputDataLayout.tsx:44-46 | the first index of the key, or none exactly when it is absent |
| InputLayout.IndexOfOwnKey | src/components/input/InputDataLayout.tsx:44-46 | with distinct keys, each key is found at its own index |
| InputLayout.FindArea | src/components/input/InputDataLayout.tsx:44-46 | the first area whose lower-cased name is the key, or none exactly when none matches |
| InputLayout.Resolve | src/components/input/InputDataLayout.tsx:15-48 | a missing or empty area shows the selector; an unknown one shows not found; a known one shows that area's entry |
| InputLayout.ResolveIgnoresCase | src/components/input/InputDataLayout.tsx:45 | the route parameter is compared without regard to letter case |
| InputLayout.SlugsDistinct | src/config/kpiConfig.ts:3-44 | the five area slugs differ |
| InputLayout.LinkRoundTrip | src/components/input/InputDataLayout.tsx:26-46 | following the selector's link for an area opens that area's entry |
| Login.Next | src/components/auth/LoginPage.tsx:15-154 | an event of the step not shown changes nothing; submitting the credentials reaches the code step; submitting the code leaves the form as it is |
| Login.NoWayBack | src/components/auth/LoginPage.tsx:12-17 | once the code step is shown, it stays shown |
| Login.TwoFactorReached | src/components/auth/LoginPage.tsx:15-18 | the code step is shown exactly when it was shown at the start or the credentials were submitted |
| Login.LoginNeedsCode | src/components/auth/LoginPage.tsx:20-26 | a login needs the demo code, already in the form at the start or typed in |
| Login.LoginNeedsTwoSteps | src/components/auth/LoginPage.tsx:62-142 | a login happens only on the code step, so unless that step was already shown the credentials were submitted first |
| Login.DemoCodeLogsIn | src/components/auth/LoginPage.tsx:9-26 | from the initial form, submitting the credentials, typing 123456 and submitting logs in |
| Login.LoginPage.constructor | src/components/auth/LoginPage.tsx:9-13 | the demo credentials are prefilled, the code is empty and the code step is hidden |
| Login.LoginPage.SetEmail | src/components/auth/LoginPage.tsx:9 | on the credentials step, the form follows the e-mail input event |
| Login.LoginPage.SetPassword | src/components/auth/LoginPage.tsx:10 | on the credentials step, the form follows the password input event |
| Login.LoginPage.SetRememberMe | src/components/auth/LoginPage.tsx:11 | on the credentials step, the form follows the remember-me event |
| Login.LoginPage.SetTwoFactorCode | src/components/auth/LoginPage.tsx:13 | on the code step, the form follows the code input event |
| Login.LoginPage.HandleLogin | src/components/auth/LoginPage.tsx:15-18 | from the credentials step, the code step is shown |
| Login.LoginPage.HandleTwoFactorSubmit | src/components/auth/LoginPage.tsx:20-26 | on the code step, the demo code authenticates the store; any other code leaves it as it was; the entries and the selected area are kept |

## Left out

- Time zones, the time of day and `toISOString`. Dates are calendar
  dates, and "today" is a parameter.
- The month label of the month grouping, which comes from the locale
  through `toLocaleString`. The month key is the pair (year, month).
- Floating point. Numbers are reals, so rounding is not modelled.
  `toFixed` and NaN propagation are not modelled, with two exceptions.
  The parser of the KPI grid cells returns `None` for text that is not a
  number. A Pareto share over a zero total is `None`. The form handlers
  receive numbers that are already parsed; the two lines below name them.
- `Number(text)`. It is kept abstract as a parser parameter.
- KPIForm.KPIFormView.EditMetric: takes the already parsed number, so a
  NaN from `Number(e.target.value)` is not represented.
- Pareto.ParetoAnalysis.EditDraft: takes the already parsed units, so a
  NaN from `Number(e.target.value)` is not represented. In the source such
  a NaN passes the `units <= 0` guard, the cause is appended, and every
  accumulated percentage of the chart becomes NaN. The model's causes
  always carry a number.
- The grid cell key. The source joins metric, line, shift and date with
  `-` into one string. The model uses the tuple, which cannot collide.
- The random mock series and `generateDates`. They are random data, so
  the stored series is a parameter.
- Ids from `Date.now()`. Each id is a parameter. Uniqueness of ids is not
  modelled.
- Routing and navigation: `navigate`, the sidebar links, the redirect
  after login, and the URL update beyond the `tab` parameter.
- Rendering, styling, the colour thresholds of the tables, the colour-blind
  mode and the table/chart view switch. They do not affect the data.
- The three-second timer that clears the KPI management success message.
  Timers are not modelled.
- Security.Merge: assumes both rows carry the same fields. Rows of one
  series always do, whereas the source would average with `undefined`.
- MetricChart.LexLe: compares code points. JavaScript's default sort
  compares UTF-16 code units. The two differ only beyond the Basic
  Multilingual Plane.
- The ordering of object keys, and duplicate keys. Records are maps or
  ordered lists of distinct keys.
- The input-method tabs of the input page (`inputMethod`), the
  `startWeek`/`endWeek` fields of the date range, and the dark-mode and
  user-menu toggles of the sidebar. They hold display state only.
- The Microsoft login button, which only shows an alert.
- The category form and the KPI definition form of the management page.
  They only collect fields and pass them to a callback.
- InputLayout.LowerChar: lower-cases ASCII letters only. `toLowerCase`
  also handles other scripts, and the area names are ASCII.
- InputLayout.ToLower: lower-cases ASCII letters only, because it maps
  InputLayout.LowerChar over the string.
- Security.ChartData: requires every selected line to have a series. The
  source would throw on a line without one.

# Dashboard aggregation, modelled in Dafny

This project models the aggregation step of the HR/project dashboard (`src/pages/dashboard/Dashboard.jsx`).
When the employee or project snapshot changes, the dashboard recomputes four things:

- the headline totals: the number of employees and the number of projects;
- the projects whose start date lies in a trailing window, from the day five months back to today. The model's filter includes both ends; as written, the code drops the first day whenever the effect runs after midnight (first row of Findings);
- `countProjectsByMonth`: those projects counted per "MMM YYYY" start month;
- `countEmployeesByTechnical`: the employees' technical entries counted per skill name.

Each count dictionary then becomes a chart: its keys are the `labels` and its values the `data`.
The pie chart of months also has a fixed five-colour palette.

How the model is laid out:

- `wrappers.dfy` holds `Option`.
- `calendar.dfy` holds dates, instants and the month label. It proves that two start dates get the same label exactly when they fall in the same month.
- `records.dfy` holds the project and employee records.
- `counting.dfy` holds the count dictionary. It is an ordered list of `(key, count)` entries, because a JavaScript object iterates its keys in insertion order, except keys that look like array indices (see `Chart.ChartOf` under Left out).
  - `Bump` is the one update step both loops perform.
  - `Tally` is an independent description of the finished dictionary: the distinct keys in order of first occurrence, each with its number of occurrences.
  - `TallySnoc` shows that one more `Bump` is one more key counted.
- `window.dfy` holds the window filter.
- `month_count.dfy` and `skill_count.dfy` hold the two counting loops. Each is a method whose loop is proved to build `Tally` of the keys it visits.
- `chart.dfy` holds the label/data projection and the palette.
- `dashboard.dfy` holds the dashboard state. It is a class whose method is the effect of lines 37-74.
- `object_dictionary.dfy` holds the counting step as it behaves on a plain JavaScript object (see Findings).

How the code treats edge cases, as modelled:

- A missing project array makes the effect skip everything but the employee total. A missing employee array alongside a present project array throws at line 71. `OnRecordsChanged` reports that as `crashed`.
- The skill count increments once per entry of an employee's `technical` list, not once per distinct skill, so an employee listing a skill twice adds two to its count. The model counts entries.
- The code lists five pie colours and no rule for more slices. `SegmentColour` states the modulo reuse that the chart library applies to a shorter colour list.

## Model

| member | source | states |
|---|---|---|
| Counting.Bump | src/pages/dashboard/Dashboard.jsx:81-85 | the step `if (data[key]) data[key]++; else data[key] = 1;` on the count dictionary. Its contract is stated by `BumpKeys`, `BumpLookup` and `BumpSum`, and `StepAgreesWithBump` ties it to lines 98-102 |
| Counting.LookupFinds | src/pages/dashboard/Dashboard.jsx:81 | reading a key yields nothing exactly when the dictionary has no entry for it, and otherwise the count stored in that key's entry |
| Counting.BumpKeys | src/pages/dashboard/Dashboard.jsx:81-85 | one step keeps the existing keys in place and in order. A key not yet present is added at the end. The dictionary keeps one entry per key with counts of at least 1 |
| Counting.BumpLookup | src/pages/dashboard/Dashboard.jsx:81-85 | one step adds one to the key's count, or creates it with 1 at the end. Every other key's count is unchanged. The dictionary keeps one entry per key with counts of at least 1 |
| Counting.BumpSum | src/pages/dashboard/Dashboard.jsx:81-85 | one step raises the sum of all counts by exactly one |
| Counting.TallySnoc | src/pages/dashboard/Dashboard.jsx:79-86 | counting the keys seen so far plus one more key equals one more step applied to the count of the keys seen so far |
| Counting.TallyMeaning | src/pages/dashboard/Dashboard.jsx:79-85 | the finished dictionary has one entry per distinct key, in first-occurrence order. Each key's count is its number of occurrences, which is at least 1. A key that never occurs has no entry |
| Counting.TallySum | src/pages/dashboard/Dashboard.jsx:77-88 | the counts add up to the number of keys counted. The dictionary is empty exactly when there were no keys |
| Counting.TallyOrder | src/pages/dashboard/Dashboard.jsx:79-85 | the keys are ordered by where each first occurs in the input. No other order, chronological or alphabetical, is imposed |
| Calendar.MonthLabel | src/pages/dashboard/Dashboard.jsx:80 | a parsed start date formats as an 8-character "MMM YYYY" label. An unparseable one formats as "Invalid date" |
| Calendar.PaddedDecimalRoundTrip | src/pages/dashboard/Dashboard.jsx:80 | the zero-padded "YYYY" year reads back as the year it was made from |
| Calendar.MonthLabelInjective | src/pages/dashboard/Dashboard.jsx:80 | two start dates get the same label exactly when they fall in the same month of the same year, or are both unparseable |
| ProjectWindow.InWindow | src/pages/dashboard/Dashboard.jsx:59-65 | the inclusive window test on calendar days. Its meaning for the filter is stated by `FilterWindowSingle` and `FilterWindowMembers` |
| ProjectWindow.FilterWindow | src/pages/dashboard/Dashboard.jsx:58-66 | the filtered list is never longer than the input |
| ProjectWindow.FilterWindowMembers | src/pages/dashboard/Dashboard.jsx:58-66 | a project is kept exactly when it is one of the input projects and its start date lies in the window, both ends included |
| ProjectWindow.FilterWindowSingle | src/pages/dashboard/Dashboard.jsx:59-65 | a single project is kept exactly when its start date passes the inclusive window test |
| ProjectWindow.FilterWindowAppend | src/pages/dashboard/Dashboard.jsx:58-66 | filtering a concatenation concatenates the filtered parts. Survivors keep their relative order and nothing else is dropped |
| ProjectWindow.FilterWindowKeepsAll | src/pages/dashboard/Dashboard.jsx:58-66 | when every project lies in the window, the filter returns the input unchanged |
| ProjectWindow.FilterWindowIdempotent | src/pages/dashboard/Dashboard.jsx:58-66 | filtering the filtered projects again changes nothing |
| ProjectWindow.FilterWindowEmptyWindow | src/pages/dashboard/Dashboard.jsx:58-66 | a window whose last day precedes its first day keeps no project |
| ProjectWindow.InWindowAsWritten | src/pages/dashboard/Dashboard.jsx:54-65 | the window test as written: midnight of the start day compared to the millisecond with a lower bound that carries the time of day. `AsWrittenDropsFirstDay` and `AsWrittenAgreesElsewhere` state how it differs from `InWindow` |
| ProjectWindow.AsWrittenDropsFirstDay | src/pages/dashboard/Dashboard.jsx:54-65 | as written, a project starting on the window's first day is rejected when the lower bound carries a time after midnight, although the inclusive window contains that day |
| ProjectWindow.AsWrittenAgreesElsewhere | src/pages/dashboard/Dashboard.jsx:54-65 | as written, the test differs from the inclusive date window only on a project starting on the first day, and agrees everywhere when the lower bound is at midnight |
| MonthCount.LabelCountIsMonthCount | src/pages/dashboard/Dashboard.jsx:79-80 | among the month keys visited by the loop, a month's label occurs once per project starting in that month and year |
| MonthCount.CountProjectsByMonth | src/pages/dashboard/Dashboard.jsx:76-89 | the loop's dictionary is the count of the projects' month labels |
| MonthCount.MonthCountMeaning | src/pages/dashboard/Dashboard.jsx:79-85 | the count under a month's label is the number of projects starting in that month and year. A month with no project has no entry |
| MonthCount.MonthCountSum | src/pages/dashboard/Dashboard.jsx:77-88 | the month counts add up to the number of projects. No projects gives the empty dictionary |
| MonthCount.WindowedMonthsAreDates | src/pages/dashboard/Dashboard.jsx:58-80 | after the window filter, no project is counted under "Invalid date" |
| MonthCount.JanuaryFebruaryWindow | src/pages/dashboard/Dashboard.jsx:58-66 | starts on 2024-01-15, 2024-01-20 and 2024-02-01 all pass the window [2024-01-01, 2024-02-28] |
| MonthCount.JanuaryFebruaryExample | src/pages/dashboard/Dashboard.jsx:76-89 | those three projects count as "Jan 2024": 2, then "Feb 2024": 1 |
| SkillCount.NamesCount | src/pages/dashboard/Dashboard.jsx:96-97 | among the names visited for one employee, a skill name occurs once per `technical` entry naming it |
| SkillCount.SkillNamesCount | src/pages/dashboard/Dashboard.jsx:94-97 | among all names visited by the nested loop, a skill name occurs once per (employee, technical entry) pair naming it |
| SkillCount.CountEmployeesByTechnical | src/pages/dashboard/Dashboard.jsx:91-107 | the nested loop's dictionary is the count of all employees' skill names, employee by employee |
| SkillCount.SkillCountMeaning | src/pages/dashboard/Dashboard.jsx:94-103 | the count under a skill name is the number of (employee, technical entry) pairs naming it, including repeats within one employee. A name no entry carries has no entry |
| SkillCount.SkillCountSum | src/pages/dashboard/Dashboard.jsx:94-106 | the skill counts add up to the total length of all `technical` lists. The dictionary is empty exactly when that total is 0 |
| SkillCount.DuplicateSkillCountedTwice | src/pages/dashboard/Dashboard.jsx:94-103 | one employee listing "Go" twice gives the dictionary "Go": 2 |
| Chart.ChartOf | src/pages/dashboard/Dashboard.jsx:109-114 | `Object.keys` as labels and `Object.values` as data. Its contract is stated by `ChartParallel` and `ChartOfTally` |
| Chart.BarChartData | src/pages/dashboard/Dashboard.jsx:109-115 | the skills chart: the projection of the skill count with the one bar colour. `DashboardState.BarChart` states its contract |
| Chart.PieChartData | src/pages/dashboard/Dashboard.jsx:132-143 | the months chart: the projection of the month count with the five-colour palette. `DashboardState.PieChart`, `PieColoursCycle` and `PieColoursWrap` state its contract |
| Chart.SegmentColour | src/pages/dashboard/Dashboard.jsx:137-143 | a bar or slice always gets a colour from the chart's colour list |
| Chart.ChartParallel | src/pages/dashboard/Dashboard.jsx:132-136 | `labels` and `data` have the dictionary's length. `data[i]` is the count stored under `labels[i]` and is at least 1. The labels are exactly the dictionary's keys, each once |
| Chart.ChartOfTally | src/pages/dashboard/Dashboard.jsx:109-114 | for a counted key sequence, the labels are the keys in first-occurrence order. Each datum is its label's number of occurrences, at least 1 |
| Chart.PieColoursCycle | src/pages/dashboard/Dashboard.jsx:137-143 | slices i and i+1 of the months chart never share a colour, and slices five apart always do |
| Chart.PieColoursWrap | src/pages/dashboard/Dashboard.jsx:137-143 | with six slices, or any count one above a multiple of five, the last slice has the first slice's colour, so the two slices that meet where the pie closes share a colour |
| Dashboard.DashboardState.constructor | src/pages/dashboard/Dashboard.jsx:13-18 | the initial state has zero totals and two empty dictionaries |
| Dashboard.DashboardState.OnRecordsChanged | src/pages/dashboard/Dashboard.jsx:37-74 | the effect sets the employee total when employees are present. When projects are present, it sets the project total and the month count of the windowed projects. It then sets the skill count, or reports the crash when employees are missing. Absent inputs leave their fields unchanged, and both dictionaries stay well formed |
| Dashboard.DashboardState.BarChart | src/pages/dashboard/Dashboard.jsx:109-121 | the skills chart's labels and data are parallel. Each datum is the count stored under its label, and its colour is the one bar colour |
| Dashboard.DashboardState.PieChart | src/pages/dashboard/Dashboard.jsx:132-148 | the months chart's labels and data are parallel. Each datum is the count stored under its label, and its colours are the five-colour palette |
| ObjectDictionary.StepAsWritten | src/pages/dashboard/Dashboard.jsx:98-102 | one step of either loop on an object literal, with inherited reads and the ignored `__proto__` assignment. `StepAgreesWithBump` and `InheritedNamesMiscounted` state its contract |
| ObjectDictionary.CountAsWritten | src/pages/dashboard/Dashboard.jsx:76-107 | either loop as written, starting from `{}`. `CountAsWrittenAgrees`, `MonthCountAsWrittenAgrees` and `InheritedNamesMiscounted` state its contract |
| ObjectDictionary.StepAgreesWithBump | src/pages/dashboard/Dashboard.jsx:98-102 | on an object literal, the step as written equals `Bump` for every key that is not an inherited member name |
| ObjectDictionary.CountAsWrittenAgrees | src/pages/dashboard/Dashboard.jsx:92-104 | when no key is an inherited member name, the loops as written build exactly the count dictionary |
| ObjectDictionary.MonthLabelNotInherited | src/pages/dashboard/Dashboard.jsx:80 | no month label, "Invalid date" included, is the name of an inherited member |
| ObjectDictionary.MonthCountAsWrittenAgrees | src/pages/dashboard/Dashboard.jsx:76-89 | the months loop as written, on an object literal, builds exactly the count of the month labels |
| ObjectDictionary.InheritedNamesMiscounted | src/pages/dashboard/Dashboard.jsx:92-103 | as written, a skill named "toString" is stored as NaN and one named "__proto__" is never stored. The intended count holds 1 for each |

## Left out

- React machinery is not modelled. That covers `useState`/`useEffect` scheduling, the contexts, the initial fetches (lines 32-35), the JSX layout, the style objects and the alert. The effect is one method call per change of the snapshots.
- The wall clock and moment's calendar arithmetic are not modelled (lines 54-56). "Today" and "five months ago" are parameters of `OnRecordsChanged`. The as-written instants carry the time of day as a number, with no time zone.
- Parsing of start dates is not modelled. A start date is either a parsed calendar date or `None`, which covers null and malformed values. A missing `startDate` field is not modelled: moment reads that as "now", not as an invalid date. A calendar date may carry a day past its month's end (2024-02-31), which moment would reject as invalid.
- Calendar.MonthLabel: covers years 0-9999 and English month abbreviations only. Those are the years "YYYY" writes with four digits; other locales are not modelled.
- Chart.ChartOf: takes the labels in insertion order for every key. `Object.keys` lists keys that look like array indices (a skill named "42", say) first, in ascending numeric order, then the rest in insertion order. Month labels never look like that; skill names could. `ChartParallel` does not depend on this order.
- Chart.BarChartData: its label order differs from the code's for index-like skill names, as described under `Chart.ChartOf`.
- Chart.ChartOfTally: `labels == FirstOccurrences(s)` is the code's order only when no key looks like an array index, as described under `Chart.ChartOf`.
- The hard-coded client and team totals (lines 47-52) are constants and are not modelled.
- The chart options, chart titles and rendering are not modelled. The palette reuse in `SegmentColour` is the chart library's rule, stated here because the dashboard relies on it.
- Dashboard.DashboardState.OnRecordsChanged: `crashed` only reports the TypeError thrown at line 71. What React then does with the error is not modelled. The effect filters with the inclusive date test `InWindow`, the corrected window of the first Findings row, not with the as-written `InWindowAsWritten`.
- An employee whose `technical` field is missing (which would also throw) is not modelled: every employee record has a list.
- A `technical` entry whose `technicalId` is null or undefined, such as a reference to a deleted skill, is not modelled. `tech.technicalId.name` at line 97 then throws a TypeError. In the model every entry carries its skill.
- Chart.PieColoursCycle: covers slices i and i+1 only. The last and the first slice also touch on the pie. The window from five months back to today spans six calendar months, so the months chart can have six slices, and then those two share a colour (`PieColoursWrap`). The code sets no rule for this case.
- `src/components/employee/ExportDoc.jsx` is not part of this model. It wraps the document-template libraries and a binary fetch; its only local logic joins error explanations for a console log.
- `src/components/project/employeeInProject.jsx` and `src/pages/project/projectDetails.jsx` are not part of this model. They are table, modal and routing code with no computation.

## Findings

| source | as written | input that shows it | evidently intended | confidence | as-written member | corrected member |
|---|---|---|---|---|---|---|
| src/pages/dashboard/Dashboard.jsx:54-65 | the lower bound `moment().subtract(5, "months")` keeps the current time of day, while a date-only start date parses to midnight | at 10:00 on 2024-06-15, a project starting "2024-01-15" is before 2024-01-15T10:00, so `isBetween(..., "[]")` rejects it | the first day of the window counts, as the inclusive `"[]"` asks | medium (not executed) | ProjectWindow.AsWrittenDropsFirstDay | ProjectWindow.FilterWindowMembers |
| src/pages/dashboard/Dashboard.jsx:98-102 | `if (data[name])` on an object literal sees inherited members, so `++` turns the count into NaN; assigning to `__proto__` is ignored | one employee with one technical entry named "toString" gives `{toString: NaN}`; one named "__proto__" gives `{}` | each such skill is counted 1 | medium (not executed) | ObjectDictionary.InheritedNamesMiscounted | SkillCount.CountEmployeesByTechnical |

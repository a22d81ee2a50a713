# Public hire calendar: the side panels, in Dafny

The public hire calendar page shows a fixed list of hiring events from public
institutions. Each event is a document deadline (`apply`), a written test
(`test`), an interview (`interview`) or a result announcement (`result`). A
month-grid widget colours each event by its category. Whenever the visible
range changes, three side panels are redrawn:

- **Monthly summary.** Counts, per category, the events whose start falls in
  the visible window. It renders them as `서류 n건 · 필기 n건 · 면접 n건 · 발표 n건`,
  or shows `이번 달 일정이 없습니다.` when no event starts in the window.
- **Today's checklist.** Lists the events taking place today. A single-day
  event takes place on its start day; a ranged one from its start up to, but
  not including, its end. Each title gets a dash before its hiring phase
  (`— 면접`). When nothing takes place today it shows `오늘 일정이 없습니다.`.
- **Next event.** Shows the title and start of the earliest event starting
  today or later, or `예정된 일정이 없습니다.` when there is none. Among events
  starting on the same day, the stable sort keeps the one listed first.

Layout of the project:

- `wrappers.dfy`: `Option`, which stands for JavaScript's `undefined`.
- `text.dfy`: decimal digits, zero padding, and JavaScript's string `<`
  (lexicographic by character). It also has `join`.
- `dates.dfy`: calendar days in the proleptic Gregorian calendar, and their
  `YYYY-MM-DD` text.
  - `DayNumber` stands for the time value that JavaScript compares `Date`
    objects by.
  - `ParseIso` stands for `new Date(text)` on a date-only string. An invalid
    date is `None`.
  - The lemmas prove that comparing the texts is the same as comparing the days.
- `lists.dfy`: `Array.prototype.filter` and the facts about it that the panels
  rely on.
- `schedule.dfy`: the categories, their colours, the schedule itself, and the
  coloured copies handed to the widget.
- `monthly_summary.dfy`, `today_checklist.dfy`, `next_event.dfy`: the three panels.
  - Each panel returns the text it would write into the page. The checklist
    returns one text per list item.
  - The `reduce` into a count object becomes a method with a loop over the events that fills a `map`.
  - The `forEach` that appends list items becomes a method with a loop.
- `scenarios.dfy`: the page's own schedule, worked through for a given day and
  month.

Comparisons follow the code:

- The checklist compares `YYYY-MM-DD` **texts**.
- The monthly summary and the next event compare parsed **dates**.
  - A start text that does not parse is an invalid date.
  - Every comparison with an invalid date is false, so such an event is never
    counted and never upcoming.
- An event's `end` counts as absent when it is missing or empty (`!event.end`).
- A category outside the four has no colour. It is counted under its own key,
  so it appears in no displayed count.

The inputs that come from outside the script are parameters:

- today's date;
- the visible window;
- the locale date formatter `formatDate`.

## Model

| member | source | states |
|---|---|---|
| Schedule.CategoryPalette | PublicHireCalendar/src/main/resources/static/app.js:1-6 | exactly `apply`, `test`, `interview` and `result` have a colour, each its own hex colour; any other category has none |
| Schedule.DecorateAll | PublicHireCalendar/src/main/resources/static/app.js:85-89 | one widget event per event, in order; each keeps every field of the original, gets its category's colour (or none) as background, and a transparent border |
| Schedule.ScheduleCategoriesKnown | PublicHireCalendar/src/main/resources/static/app.js:8-52 | every scheduled event has one of the four known categories |
| Dates.DayNumberOrder | PublicHireCalendar/src/main/resources/static/app.js:115-116 | comparing day numbers is comparing (year, month, day) in order, and equal numbers mean the same day |
| Dates.ParseIsoOfToIso | PublicHireCalendar/src/main/resources/static/app.js:185-188 | the `YYYY-MM-DD` text of any day reads back as that day |
| Dates.ToIsoOfParseIso | PublicHireCalendar/src/main/resources/static/app.js:115 | a text that reads as a day is exactly that day's canonical text |
| Dates.ParseIsoIff | PublicHireCalendar/src/main/resources/static/app.js:140 | a text names day d if and only if it equals d's `YYYY-MM-DD` text |
| Dates.IsoOrderIsChronological | PublicHireCalendar/src/main/resources/static/app.js:142 | string `<` on two days' texts holds exactly when the first day is earlier, and the texts are equal exactly when the days are |
| Text.DecimalRoundTrip | PublicHireCalendar/src/main/resources/static/app.js:130-133 | the decimal text of a count reads back as the count (the text's shape, digits without a leading zero, is `Text.Decimal`'s postcondition) |
| Lists.FilterMembers | PublicHireCalendar/src/main/resources/static/app.js:114-117 | a filter keeps exactly the elements that satisfy its predicate |
| Lists.FilterAppend | PublicHireCalendar/src/main/resources/static/app.js:138-143 | filtering a concatenation is the concatenation of the filtered parts |
| Lists.FilterPosition | PublicHireCalendar/src/main/resources/static/app.js:138-143 | the k-th kept element is a selected input element with exactly k selected elements before it, so the filter keeps input order |
| MonthlySummary.MonthEventsAreThoseStartingInWindow | PublicHireCalendar/src/main/resources/static/app.js:114-117 | an event is in the month's events if and only if it is listed and its start parses to a day in `[windowStart, windowEnd)`; changing its end never changes this |
| MonthlySummary.SummaryIgnoresEnds | PublicHireCalendar/src/main/resources/static/app.js:114-117 | replacing every event's end leaves the summary unchanged |
| MonthlySummary.EmptyMonthIff | PublicHireCalendar/src/main/resources/static/app.js:119-122 | the summary is the empty-month one if and only if no listed event starts in the window |
| MonthlySummary.GroupByCategory | PublicHireCalendar/src/main/resources/static/app.js:124-127 | the count object has a key exactly for each category that occurs, and maps it to the number of events of that category |
| MonthlySummary.CategoryCountsSum | PublicHireCalendar/src/main/resources/static/app.js:124-127 | the four displayed counts together never exceed the number of events, and equal it when every category is known |
| MonthlySummary.SummaryCountsAddUp | PublicHireCalendar/src/main/resources/static/app.js:124-134 | when every listed category is one of the four, the counts of a non-empty month add up to the number of events starting in the window |
| MonthlySummary.UpdateMonthlySummary | PublicHireCalendar/src/main/resources/static/app.js:113-135 | the written text is the rendering of the window's summary: the empty-month message, or the four counts in the order apply, test, interview, result, with unseen categories shown as 0 |
| MonthlySummary.ParseCountsOfJoin | PublicHireCalendar/src/main/resources/static/app.js:129-134 | counts rendered as `caption n건` and joined by ` · ` read back as the same counts |
| MonthlySummary.SummaryTextRoundTrip | PublicHireCalendar/src/main/resources/static/app.js:119-134 | reading back any rendered summary line gives the summary it was rendered from |
| MonthlySummary.SummaryTextInjective | PublicHireCalendar/src/main/resources/static/app.js:119-134 | two summaries render the same text if and only if they are equal; the empty-month message is never a count line |
| TodayChecklist.SingleDaySelection | PublicHireCalendar/src/main/resources/static/app.js:139-141 | an event without an end is on today's list if and only if its start names today |
| TodayChecklist.RangedSelection | PublicHireCalendar/src/main/resources/static/app.js:142 | a ranged event with well-formed dates is on today's list if and only if start <= today < end, chronologically |
| TodayChecklist.TodayEventsSelection | PublicHireCalendar/src/main/resources/static/app.js:138-143 | today's events are exactly the listed events taking place today, and the selection of a concatenation is the concatenation of the selections (list order is kept) |
| TodayChecklist.FirstKeywordFrom | PublicHireCalendar/src/main/resources/static/app.js:156 | finds the leftmost position where one of the four phase keywords begins, or reports that none does |
| TodayChecklist.HighlightFirstKeyword | PublicHireCalendar/src/main/resources/static/app.js:156 | the dash and a space are inserted right before the first keyword occurrence, and the rest of the title is unchanged |
| TodayChecklist.HighlightWithoutKeyword | PublicHireCalendar/src/main/resources/static/app.js:156 | a title without a keyword is shown unchanged |
| TodayChecklist.UpdateTodayChecklist | PublicHireCalendar/src/main/resources/static/app.js:137-160 | with nothing today the list is the single placeholder; otherwise it has one item per event of today, in list order, each the highlighted title |
| NextEvent.EarliestUpcoming | PublicHireCalendar/src/main/resources/static/app.js:163-167 | the chosen event starts today or later, no upcoming event starts earlier, and every upcoming event listed before it starts strictly later; none is chosen only when no event is upcoming |
| NextEvent.EarliestUpcomingIsUnique | PublicHireCalendar/src/main/resources/static/app.js:164-167 | any position that meets those three conditions is the one chosen, so the stable earliest event is unique |
| NextEvent.NextEventText | PublicHireCalendar/src/main/resources/static/app.js:162-175 | with no upcoming event the text is the placeholder; otherwise it is the title and the formatted start of an upcoming event that no other upcoming event precedes, and every upcoming event listed before it starts strictly later (the stable sort's tie-break) |
| ScheduleScenarios.ScheduleStartsParse | PublicHireCalendar/src/main/resources/static/app.js:8-52 | every scheduled start is a well-formed date |
| ScheduleScenarios.NextEventOnJanuary18 | PublicHireCalendar/src/main/resources/static/app.js:162-175 | on 2026-01-18 the next event is the interview starting 2026-01-20 |
| ScheduleScenarios.FebruaryMonthEvents | PublicHireCalendar/src/main/resources/static/app.js:114-117 | the February window `[2026-02-01, 2026-03-01)` selects the four February events |
| ScheduleScenarios.FebruarySummary | PublicHireCalendar/src/main/resources/static/app.js:113-135 | in that window the summary counts one event of each category |

## Left out

- Page writes: the panels return their text instead of writing `textContent`,
  `innerHTML` or list items into the page.
- The month-grid widget: its rendering, its toolbar, and the chip builder
  (`eventContent`, app.js:90-103). The chip builder only builds page elements,
  with the same colour lookup as `Schedule.ColorOf`.
- The wiring in `datesSet`. Which window is passed to the summary is the
  widget's business, so the window is a parameter.
- The clock: today (`new Date()` and `getLocalISODate`) is a parameter.
- `formatDate` and the header date use the browser's Korean locale formatting.
  `formatDate` is a parameter; the header date is not modelled.
- Time zones. `new Date("YYYY-MM-DD")` is midnight UTC, while the window edges
  and `startOfToday` are local midnights. The model compares whole days. It
  therefore does not capture the shift this causes west of UTC, where an event
  can move into the previous day's window.
- Date texts other than `YYYY-MM-DD`, and years outside 0-9999, are invalid in
  the model. JavaScript engines accept some such texts in engine-specific ways.
- Impossible days such as `2026-02-30` are invalid in the model. Some engines
  roll them over into the next month instead.
- Strings are sequences of code points. JavaScript compares UTF-16 code units,
  which orders characters outside the Basic Multilingual Plane differently.
  Every date text is ASCII, so the date comparisons are unaffected.
- Category names that are inherited object keys (`toString`, `__proto__`) are
  treated like any other unknown category. In the script they would pick up
  inherited properties.

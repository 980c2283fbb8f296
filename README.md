# EverySecondCounts in Dafny

A Dafny model of the domain logic of EverySecondCounts, a personal goal and
life-countdown tracker. A user gives a birth date, a nationality and a life
expectancy, and sees the time left until an estimated end of life. They keep a
list of goals with deadlines, sub-goals and logged work sessions. The model
covers:

- countdown arithmetic (`Time`, in `time.dfy`);
- the life calculus over civil dates (`Life`, `Civil`);
- the country table (`Countries`);
- the progress engine (`Progress`);
- the time-tracking engine (`TimeTracking`);
- the migration of legacy goal records (`Migration`);
- the persistence envelope kept in local storage (`Storage`);
- the application store and its write-through actions (`Store`);
- the partition and ordering of the goal list (`GoalList`);
- the onboarding step machine (`Onboarding`);
- the small helpers: `Utils`, `Categories`, `Themes` and `Messages`.

Modelling conventions:

- Instants are integer milliseconds since the epoch, in one fixed zone.
- Civil dates and date-times are records (`Civil.Date`, `Civil.DateTime`).
- The clock (`now`), the current day, the start of the week and the id
  generator are parameters.
- Hours and percentages are `real`.
- An `Option` that is `None` stands for every falsy value the source tests
  with `!x` or `x ||`: `undefined`, `null` and the empty string.
- JSON text is opaque. The local-storage slot (`Storage.LocalStore`) holds an
  optional string and carries a partial `parse`, its `serialize` and
  `accepts`, which says whether the browser stores a given text (a full
  storage quota makes `setItem` throw). No round trip is assumed of all
  envelopes: a guarantee that needs one is stated for an envelope `e` under
  `RoundTripsAt(parse, serialize, e)`, i.e. `serialize(e)` is a non-empty text
  that parses back to `e`.

Where the state lives:

- Code that updates state in place is a class with `modifies` clauses:
  - `Storage.LocalStore`, the storage slot;
  - `Store.AppStore`, the store;
  - `Onboarding.OnboardingForm`, the form;
  - `GoalList.GoalListView`, the tab.
- Each action of the store updates memory and then writes the whole state
  through to storage. When the browser accepts the text and it parses back
  (`Writable()`), the next load returns exactly the in-memory state
  (`Persisted()`). When the browser refuses it (`Refused()`), the slot keeps
  its old text while memory has moved on.
- The goal list sorts array copies in place (`GoalList.SortByKey`).

## Model

| member | source | states |
|---|---|---|
| Time.Breakdown | src/lib/time.ts:35-41 | for a non-negative duration: days ≥ 0, hours < 24, minutes and seconds < 60; the fields add up to the duration to within one second |
| Time.DiffNowTo | src/lib/time.ts:16-42 | totalMs is exactly target − now; ahead of now the fields are the normalised breakdown; past it they are the negated breakdown of now − target |
| Time.DiffPastIsNegatedFuture | src/lib/time.ts:24-33 | a passed target gives the field-by-field negation of the countdown the other way round |
| Time.DiffOneDay | src/lib/__tests__/time.test.ts:35-50 | one day ahead gives days = 1; one day behind gives days = −1 |
| Time.IsUrgent | src/lib/time.ts:48-50 | urgent iff 0 ≤ totalMs < 86 400 000, so never both urgent and overdue |
| Time.OverdueIffPassed | src/lib/time.ts:44-50 | a countdown is overdue iff the target has passed; it is urgent iff the target is within the coming day |
| Time.FormatCountdownRoundTrip | src/lib/time.ts:4-14 | reading the text back gives days, hours, minutes and seconds: "D • HH:MM:SS" when days > 0, else "HH:MM:SS", each field two digits |
| Time.ClockFields | src/lib/time.ts:7-13 | the clock part is eight characters and reads back as the hours, minutes and seconds |
| Time.Pad2Digits | src/lib/time.ts:7 | `padStart(2, '0')` of a number below 100 is its two decimal digits |
| Time.FormatCountdownWithDays | src/lib/__tests__/time.test.ts:19-22 | 5 days 10:30:45 reads "5 • 10:30:45" |
| Time.FormatCountdownWithoutDays | src/lib/__tests__/time.test.ts:24-27 | 0 days 2:05:08 reads "02:05:08" |
| Time.FormatTimeLeftExamples | src/lib/__tests__/time.test.ts:83-91 | two days overdue reads "+2 días"; overdue by hours only reads "Vencido" |
| Time.FormatTimeLeftOfDiff | src/lib/time.ts:52-59 | over a day past due: "+N días" with N the whole days passed; within the first day: "Vencido"; otherwise the countdown text |
| Time.FormatCountdownTime | src/lib/time.ts:4-14 | the text ends with the "HH:MM:SS" clock, and is exactly the clock iff no whole day is left |
| Time.FormatTimeLeft | src/lib/time.ts:52-59 | not overdue: the countdown text; overdue: "Vencido" iff the days field is 0, else "+N días" with N its absolute value |
| Civil.AddYears | src/lib/life.ts:7 | the year moves by n and the month and time are kept; the day is kept except on February 29, which becomes February 28 outside leap years; valid stays valid |
| Civil.FormatParsedDate | src/lib/life.ts:27-34 | formatting a parsed 'yyyy-MM-dd' date gives back the same text |
| Civil.ParseFormattedDate | src/lib/life.ts:27-34 | a valid date with a four-digit year parses back from its formatted text |
| Civil.ParseDate | src/lib/life.ts:33 | a parsed date came from a ten-character text and is a real calendar day with a four-digit year |
| Civil.NotAfterTransitive | src/lib/timeTracking.ts:79 | the date-time order used by the `>=` comparison is transitive |
| Civil.BeforeIsStrict | src/lib/timeTracking.ts:79 | before is the strict part of a total order: exactly one of a < b and b ≤ a holds |
| Civil.ToMillisAtTime | src/lib/life.ts:41 | the instant of any hour and minute of a day is midnight plus that many hours and minutes, so an out-of-range value rolls over |
| Civil.ToMillisWithinDay | src/lib/life.ts:36-48 | a valid time of day lies within its day's milliseconds |
| Life.EstimatedEndOfLife | src/lib/life.ts:5-13 | birth year plus the expected years, same month, same day (the February 29 rule aside), at 23:59:59.999 |
| Life.EndOfLifeExample | src/lib/__tests__/life.test.ts:8-23 | born 1990-01-01 with 80 years gives 2070-01-01 23:59:59.999 |
| Life.CalculateLifeTimeLeft | src/lib/life.ts:15-18 | totalMs is the end-of-life instant minus now; overdue iff now is past it; while the end lies ahead, normalised days, hours, minutes and seconds that add up to the time left to within a second; once passed, the negation of that breakdown of the time since |
| Life.AgeReached | src/lib/life.ts:20-25 | the birth date moved forward by the age is not after now |
| Life.AgeIsGreatest | src/lib/life.ts:20-25 | every number of years already reached is at most the age, so the age counts completed years |
| Life.AgeNonNegative | src/lib/life.ts:20-25 | someone already born has age ≥ 0 |
| Life.AgeMonotone | src/lib/life.ts:20-25 | the age never decreases as now moves forward |
| Life.AgeExamples | src/lib/__tests__/life.test.ts:26-47 | born 1990-07-15, age on 2024-06-01 is 33; born 1990-01-01, age on 2024-01-01 is 34 |
| Life.CalculateAge | src/lib/life.ts:20-25 | the difference of the calendar years, or one less when this year's birthday is still ahead |
| Life.FormatDateForInput | src/lib/life.ts:27-30 | the 'yyyy-MM-dd' text of the day, which parses back as that day for any real day of a four-digit year |
| Life.CreateISOFromDate | src/lib/life.ts:32-34 | defined iff the text parses as 'yyyy-MM-dd'; then midnight of that valid day |
| Life.DateInputRoundTrip | src/lib/life.ts:27-34 | a date typed into the form comes back unchanged through createISOFromDate and formatDateForInput |
| Life.DateInputRoundTripBack | src/lib/life.ts:27-34 | a shown date (four-digit year) reads back as midnight of that day |
| Life.CreateDeadlineISO | src/lib/life.ts:36-48 | undefined when the date does not parse or the time reads as NaN; with no time, or an empty one, the day at 23:59:59; otherwise the day at the parsed hour and minute with zero seconds |
| Life.DeadlineAtTime | src/lib/life.ts:39-41 | "HH:mm" (in range) gives the day at exactly that hour and minute, zero seconds |
| Life.ParseTimeOfDayDigits | src/lib/life.ts:40 | splitting "HH:mm" at the colon reads back the two numbers |
| Life.ParseTimeOfDay | src/lib/life.ts:39-41 | a time without a colon is that number of hours on the hour; with a colon, the first two colon-separated parts are the hour and the minute, and the time is present iff both read as numbers (a NaN field gives none) |
| Life.ParseTimeOfDayAtFirstColon | src/lib/life.ts:40 | the hour is the text before the first colon, the minute the text up to the next colon; anything after a second colon is ignored |
| Life.DeadlineAtHour | src/lib/life.ts:39-41 | a bare hour "H" gives the day at H:00:00 |
| Countries.IndexOfCode | src/lib/countries.ts:30 | the first index whose code matches, or none when no entry matches |
| Countries.GetCountryByCode | src/lib/countries.ts:29-32 | always a table entry; the entry with that code when one exists, else the GLOBAL entry |
| Countries.GetLifeExpectancyByCountry | src/lib/countries.ts:34-37 | the expectancy of the looked-up country, always in 40..120 |
| Countries.TableInRange | src/lib/countries.ts:5-27 | every table value lies in 40..120 |
| Countries.CodesUnique | src/lib/countries.ts:5-27 | no two entries share a code |
| Countries.GlobalFallback | src/lib/countries.ts:3-37 | an unknown code, 'GLOBAL' and no code at all each give 82 |
| Progress.CountCompleted | src/lib/progress.ts:32 | at most the number of sub-goals; equal to it iff every sub-goal is completed |
| Progress.RoundRatio | src/lib/progress.ts:34 | the integer nearest num/den, halves rounded up |
| Progress.Percentage | src/lib/progress.ts:34 | round-half-up of 100·completed/total, within 0..100 |
| Progress.CalculateGoalProgress | src/lib/progress.ts:10-42 | completed goal: |subGoals|/|subGoals| at 100%; no sub-goals: 0/1 at 0%; else the completed count, the total and the rounded percentage; always 0..100, complete iff 100 |
| Progress.HundredIffAllDone | src/lib/progress.ts:34-40 | with fewer than 200 sub-goals, 100% iff all are completed |
| Progress.HundredWithOneLeft | src/lib/progress.ts:34 | from 200 sub-goals on, total − 1 done already rounds to 100% |
| Progress.ShouldAutoCompleteGoal | src/lib/progress.ts:44-47 | iff 100%, not completed and at least one sub-goal; never for a completed goal |
| Progress.AutoCompleteIffAllDone | src/lib/progress.ts:44-47 | below 200 sub-goals: the signal fires iff a pending goal has sub-goals and all are done |
| Progress.ProgressColorMonotone | src/lib/progress.ts:49-56 | more progress never shows a lower colour on the gray, red, orange, yellow, blue, green scale |
| Progress.ProgressColorEnds | src/lib/progress.ts:49-56 | gray iff 0; green iff ≥ 100 |
| Progress.ProgressTextWithoutSubGoals | src/lib/progress.ts:12-62 | with no sub-goals: "Pendiente" while pending; "0/0 pasos" once completed (the total becomes 0, not 1) |
| Progress.CountCompletedAppend | src/lib/progress.ts:32 | appending a sub-goal adds one to the completed count iff it is completed |
| Progress.AddDefaultSubGoal | src/lib/progress.ts:65-70 | appending a default sub-goal keeps the completed count, adds one to the total of a pending goal, and (below 200 sub-goals) stops the auto-completion signal |
| Progress.ProgressTextOneSubGoal | src/lib/progress.ts:58-63 | with one sub-goal the text is "Completado" iff the goal or its sub-goal is done, else "Pendiente" |
| Progress.ProgressTextCountsSteps | src/lib/progress.ts:58-63 | with two or more sub-goals on a pending goal the text is "<done>/<total> pasos" |
| TimeTracking.SumHours | src/lib/timeTracking.ts:53 | 0 for no sessions, never negative for non-negative hours |
| TimeTracking.SumHoursAppend | src/lib/timeTracking.ts:53 | the sum of a concatenation is the sum of the sums |
| TimeTracking.FilterSessions | src/lib/timeTracking.ts:67-68 | keeps exactly the sessions the predicate accepts, drawn from the input |
| TimeTracking.FilteredSumMonotone | src/lib/timeTracking.ts:63-82 | a stricter filter never sums to more hours, when no session is negative |
| TimeTracking.FilterAll | src/lib/timeTracking.ts:67-68 | a filter that accepts every session returns the list unchanged |
| TimeTracking.CalculateTotalWorkedHours | src/lib/timeTracking.ts:51-54 | 0 without sessions; non-negative for non-negative hours |
| TimeTracking.DistinctDatesBound | src/lib/timeTracking.ts:59-60 | at most one distinct date per session, and at least one when there are sessions |
| TimeTracking.DistinctDatesSnoc | src/lib/timeTracking.ts:59-60 | one more session adds exactly its date to the set of working days |
| TimeTracking.GetWorkingDaysCount | src/lib/timeTracking.ts:56-61 | the number of distinct session dates: at most the number of sessions, 0 iff there are none, and every session's date is among the counted days |
| TimeTracking.FilterSnoc | src/lib/timeTracking.ts:63-82 | filtering a list that ends in a session filters the rest and then keeps that session or not; its hours count once if kept |
| TimeTracking.FilterNone | src/lib/timeTracking.ts:63-82 | a filter that accepts no session leaves nothing |
| TimeTracking.FilteredHours | src/lib/timeTracking.ts:63-82 | the hours a filter keeps lie between 0 and the whole when no session is negative; all of them when every session is kept, none when none is |
| TimeTracking.GetTodayWorkedHours | src/lib/timeTracking.ts:63-70 | between 0 and the total hours when no session is negative; 0 when no session is of that day |
| TimeTracking.GetWeeklyWorkedHours | src/lib/timeTracking.ts:72-82 | between 0 and the total hours when no session is negative; the whole total when every session's day is in the week, 0 when none is |
| TimeTracking.TodayWithinWeekWithinTotal | src/lib/timeTracking.ts:63-82 | today's hours ≤ this week's hours ≤ all hours, when today falls in the week and no hours are negative |
| TimeTracking.CeilDiv | src/lib/timeTracking.ts:22 | `Math.ceil(a / b)`: the least q with a ≤ b·q |
| TimeTracking.SpanDays | src/lib/timeTracking.ts:29 | the ceiling of the creation-to-deadline span in days is 0 exactly when the deadline is at the creation instant or less than a day before it, and positive exactly when it is after |
| TimeTracking.OnTrack | src/lib/timeTracking.ts:28-32 | without an estimate: on track iff worked ≥ 0; with one and the deadline at the creation instant (a +0 span): iff days are left; with the deadline less than a day before creation (a −0 span): never; with a nonzero span and no days left: iff worked ≥ 80% of the estimate; while the whole span is still ahead: iff worked ≥ 0 |
| TimeTracking.OnTrackClosedForm | src/lib/timeTracking.ts:29-33 | with an estimate and a positive span: on track iff worked·span ≥ 0.8·estimated·(span − days); reversed for a negative span |
| TimeTracking.OnTrackMonotoneInWorked | src/lib/timeTracking.ts:29-33 | more hours worked never takes a goal off track |
| TimeTracking.OnTrackMonotoneInDays | src/lib/timeTracking.ts:29-33 | with the deadline not before creation, more days left never takes a goal off track |
| TimeTracking.RemainingHours | src/lib/timeTracking.ts:18 | never negative; 0 iff the estimate is met; otherwise worked + remaining = estimated |
| TimeTracking.DaysUntilDeadline | src/lib/timeTracking.ts:20-22 | ≥ 0; 0 iff the deadline has passed; else the whole days, rounded up |
| TimeTracking.SuggestedDailyHours | src/lib/timeTracking.ts:24 | remaining spread evenly over the days left, 0 when none are left |
| TimeTracking.ProgressPercentage | src/lib/timeTracking.ts:26-46 | at most 100; 0 without an estimate; 100·worked/estimated below the estimate; 100 at or above it |
| TimeTracking.AverageHoursPerDay | src/lib/timeTracking.ts:36-37 | worked hours shared evenly over the working days, 0 without any |
| TimeTracking.CalculateTimeAnalysis | src/lib/timeTracking.ts:15-49 | the fields are the total hours, the estimate or 0, and RemainingHours, DaysUntilDeadline, SuggestedDailyHours, ProgressPercentage, AverageHoursPerDay over the distinct working days and OnTrack over the deadline minus the creation instant (the deadline itself when there is no creation stamp), so each field has the properties stated for those functions |
| TimeTracking.TimeAnalysisExample | src/lib/timeTracking.ts:15-49 | 10 estimated, 4 worked, deadline 5 days away: 6 remaining, 5 days, 1.2 a day, 40%, 4 per day |
| TimeTracking.TimeAnalysisCreatedAfterDeadline | src/lib/timeTracking.ts:28-32 | created half a day after the deadline, 10 estimated, nothing worked, a day left: off track |
| TimeTracking.Round | src/lib/timeTracking.ts:86-89 | `Math.round`: the integer within half of x, halves up |
| TimeTracking.SplitHours | src/lib/timeTracking.ts:88-89 | the whole hours are the floor of the hours, and the minutes, 0..60 with 60 included, are the rounded total minutes less the whole hours' minutes |
| TimeTracking.FormatHours | src/lib/timeTracking.ts:84-93 | "0h" for zero; rounded minutes with "min" under an hour; otherwise the floor of the hours and the rounded total minutes less the whole hours' minutes, as "<h>h" or "<h>h <m>min" |
| TimeTracking.FormatHoursSixtyMinutes | src/lib/timeTracking.ts:84-93 | the label as written prints "2h 60min" for 2.995 hours |
| TimeTracking.SplitMinutes | src/lib/timeTracking.ts:88-89 | whole hours and minutes below 60 that add up to the total minutes |
| TimeTracking.FormatHoursWholeMinutes | src/lib/timeTracking.ts:84-93 | the corrected label: under an hour of rounded minutes it reads "<m>min" |
| TimeTracking.FormatHoursCorrection | src/lib/timeTracking.ts:84-93 | the corrected label equals the one as written wherever the rounded minutes stay below 60; where they reach 60 it reads the next whole hour ("60min" as written becomes "1h") |
| TimeTracking.FormatHoursExamples | src/lib/timeTracking.ts:84-93 | 0 → "0h", 0.5 → "30min", 3 → "3h", 2.5 → "2h 30min" |
| TimeTracking.AppendSessionTotal | src/lib/timeTracking.ts:50-53 | appending a session adds exactly its hours to the total |
| TimeTracking.AppendSessionToday | src/lib/timeTracking.ts:63-70 | appending a session adds its hours to the day it was logged on and leaves other days alone |
| TimeTracking.AppendSessionWeekly | src/lib/timeTracking.ts:72-82 | appending a session adds its hours to the week's iff its day is in the week |
| TimeTracking.AppendSessionDays | src/lib/timeTracking.ts:56-61 | appending a session makes its date a working day, one more iff it was not one already |
| TimeTracking.LogSessionTotals | src/lib/timeTracking.ts:95-102 | appending a session built by createWorkSession under an id raises the total and today's hours by exactly its hours, leaves every other day's hours alone, makes today a working day (one more working day iff today was not one), and raises the week's hours by its hours iff today is in the week |
| Migration.MigrateGoalToV2 | src/lib/migration.ts:3-24 | keeps id, title, deadline and a truthy completion; defaults category personal, no sub-goals, reminder off, priority medium; the optional fields are dropped |
| Migration.Embed | src/lib/migration.ts:26-34 | a current goal, seen as a stored record, does not need migration |
| Migration.AsGoal | src/lib/migration.ts:42 | reading a current record as a goal loses nothing |
| Migration.MigratedIsCurrent | src/lib/migration.ts:3-34 | a migrated record never needs migrating again |
| Migration.MigrateGoal | src/lib/migration.ts:37-43 | a record that needs migration is migrated; any other is taken as it is |
| Migration.MigrateGoalsArray | src/lib/migration.ts:36-44 | same length and order, each record migrated on its own |
| Migration.EmbedAll | src/lib/migration.ts:36-44 | the goals seen as stored records, in order |
| Migration.CurrentRecordsUnchanged | src/lib/migration.ts:36-44 | a record that needs no migration comes back unchanged at its position |
| Migration.MigrateCurrentGoals | src/lib/migration.ts:36-44 | a list of current goals comes back as it was |
| Migration.MigrateIdempotent | src/lib/migration.ts:36-44 | migrating twice is migrating once |
| Storage.Migrate | src/lib/storage.ts:47-51 | a missing or zero version becomes 1, any other is kept; nothing else changes |
| Storage.MigrateIdempotent | src/lib/storage.ts:47-51 | migrate is idempotent and always leaves a truthy version |
| Storage.Merge | src/lib/storage.ts:37-45 | supplied fields win, omitted ones keep the stored value, the version is 1 |
| Storage.LoadFrom | src/lib/storage.ts:22-35 | nothing stored, empty text or text that does not parse gives the default envelope; otherwise the parsed envelope, migrated |
| Storage.LoadAfterStore | src/lib/storage.ts:22-45 | storing an envelope that round-trips and loading it back gives it with its version fixed; a stored text that does not parse loads as the defaults |
| Storage.ImportOfExport | src/lib/storage.ts:61-76 | when the loaded envelope round-trips, its export parses back to it and storing the import loads it unchanged |
| Storage.LocalStore.constructor | src/lib/storage.ts:3 | the slot starts empty |
| Storage.LocalStore.LoadFromStorage | src/lib/storage.ts:22-35 | what a load returns always carries a truthy version (1 for unversioned data) |
| Storage.LocalStore.SaveToStorage | src/lib/storage.ts:37-45 | an accepted write leaves the slot holding the current envelope merged with the patch, and the next load returns that merge when it round-trips; a refused write leaves the slot as it was |
| Storage.LocalStore.ClearStorage | src/lib/storage.ts:53-59 | the slot is empty and the next load is the default envelope |
| Storage.LocalStore.ExportData | src/lib/storage.ts:61-64 | the serialized load; it parses back to what a load returns whenever that round-trips |
| Storage.LocalStore.ImportData | src/lib/storage.ts:66-76 | true iff the text parses and the browser takes the migrated envelope; on false the slot is unchanged; on true it holds the migrated envelope, which the next load returns when it round-trips |
| Storage.ClearThenLoad | src/lib/storage.ts:53-59 | after a clear, the load is the default envelope |
| Storage.ExportThenImport | src/lib/storage.ts:61-76 | when the current load round-trips and is accepted, importing its export succeeds and leaves the next load as it was; a failed import changes nothing |
| Store.FilterGoals | src/state/store.ts:118-123 | keeps exactly the goals the predicate accepts, drawn from the input |
| Store.FilterGoalsAppend | src/state/store.ts:118-123 | filtering a concatenation is the concatenation of the filtered parts, so kept goals keep their order |
| Store.FilterPartition | src/state/store.ts:118-123 | a filter and its complement together hold every goal exactly once |
| Store.FilterKeepsAll | src/components/GoalList.tsx:29-30 | a filter accepting every goal returns the list unchanged |
| Store.ActiveGoals | src/state/store.ts:118-120 | only goals with no completion instant, and every such goal of the input |
| Store.CompletedGoals | src/state/store.ts:121-123 | only goals with a completion instant, and every such goal of the input |
| Store.SelectorsPartition | src/state/store.ts:118-123 | the two selectors partition the goals |
| Store.ReplaceById | src/state/store.ts:28-35 | same length; each goal with the updated id is replaced, every other goal is kept |
| Store.ReplaceByIdProperties | src/state/store.ts:28-35 | an absent id changes nothing; updating twice is updating once |
| Store.SetCompletedAt | src/state/store.ts:37-58 | same length; the matching goals get the new completion instant and nothing else changes |
| Store.RestoreUndoesComplete | src/state/store.ts:37-58 | restoring after completing a pending goal gives back the goals as they were |
| Store.RemoveById | src/state/store.ts:60-65 | no goal with the id remains, every other goal does, nothing is added |
| Store.RemoveAbsentId | src/state/store.ts:60-65 | deleting an id no goal has changes nothing |
| Store.RemoveAppend | src/state/store.ts:60-65 | deleting works goal by goal, so the kept goals stay in their order |
| Store.DeleteUndoesAdd | src/state/store.ts:21-65 | deleting a goal just added under a fresh id gives back the goal list as it was |
| Store.AppStore.constructor | src/state/store.ts:8-14 | no profile (so onboarding is not done), no goals, the turquoise theme |
| Store.AppStore.SaveToStorage | src/state/store.ts:101-108 | when writable, the next load returns the in-memory profile, goals and settings; when refused, the slot is unchanged |
| Store.AppStore.SetProfile | src/state/store.ts:16-19 | only the profile changes and a profile is then present; persisted when writable, slot unchanged when refused |
| Store.AppStore.AddGoal | src/state/store.ts:21-26 | exactly one goal appended, under the fresh id; the rest untouched; persisted when writable, slot unchanged when refused |
| Store.AppStore.UpdateGoal | src/state/store.ts:28-35 | goals replaced by id, nothing else changes; persisted when writable, slot unchanged when refused |
| Store.AppStore.CompleteGoal | src/state/store.ts:37-47 | the matching goals are stamped with now; nothing else changes; persisted when writable, slot unchanged when refused |
| Store.AppStore.RestoreGoal | src/state/store.ts:49-58 | the matching goals lose their completion instant; nothing else changes; persisted when writable, slot unchanged when refused |
| Store.AppStore.DeleteGoal | src/state/store.ts:60-65 | the goals with that id are removed; nothing else changes; persisted when writable, slot unchanged when refused |
| Store.AppStore.SetTheme | src/state/store.ts:67-74 | only the theme id changes; persisted when writable, slot unchanged when refused |
| Store.AppStore.SetBackgroundImage | src/state/store.ts:76-82 | only the background image changes; persisted when writable, slot unchanged when refused |
| Store.AppStore.LoadFromStorage | src/state/store.ts:84-99 | profile and goals from storage, the stored settings or turquoise when there are none, a profile present iff one is stored; after a save that landed, reloading changes nothing |
| GoalList.InsertDown | src/components/GoalList.tsx:33-44 | one insertion step: the prefix stays sorted and the array is a permutation of what it was |
| GoalList.SortByKey | src/components/GoalList.tsx:33-44 | the array ends sorted by the comparator's key and is a permutation of the input |
| GoalList.PendingOrder | src/components/GoalList.tsx:33-37 | sorted by countdown means earliest deadline first, with every overdue goal ahead of the others |
| GoalList.CompletedOrder | src/components/GoalList.tsx:40-44 | sorted by negated completion instant means most recent first |
| GoalList.SortedCopy | src/components/GoalList.tsx:33-44 | a sorted permutation of the list, which itself is not reordered |
| GoalList.PartitionAndSort | src/components/GoalList.tsx:28-50 | pending holds the goals without a completion and completed those with one; together each goal exactly once; pending earliest deadline first (overdue first), completed most recent first |
| GoalList.GoalListView.constructor | src/components/GoalList.tsx:26 | the pending tab is shown first |
| GoalList.GoalListView.SetActiveTab | src/components/GoalList.tsx:58-77 | the chosen tab becomes active |
| GoalList.GoalListView.VisibleGoals | src/components/GoalList.tsx:28-52 | the pending tab shows exactly the pending goals, earliest deadline first and overdue first; the completed tab exactly the completed goals, most recent first |
| GoalList.TabCounts | src/components/GoalList.tsx:66-76 | the two tab counts add up to the number of goals |
| Onboarding.TypedLifeExpectancy | src/pages/Onboarding.tsx:185-188 | always 40..120: in-range numbers kept, others clamped, non-numbers and 0 give 40 |
| Onboarding.TypedLifeExpectancyExamples | src/pages/Onboarding.tsx:185-188 | "75" → 75, "200" → 120, "" → 40, "abc" → 40 |
| Onboarding.ProfileNationality | src/pages/Onboarding.tsx:50 | no nationality for 'GLOBAL' (or nothing chosen), else the chosen code |
| Onboarding.OnboardingForm.constructor | src/pages/Onboarding.tsx:16-22 | step 1, empty birth date, male, 'GLOBAL', 82 years |
| Onboarding.OnboardingForm.CanProceed | src/pages/Onboarding.tsx:58-69 | step 1 needs a birth date, step 2 a nationality, step 3 40..120 years; any other step never proceeds |
| Onboarding.OnboardingForm.FinishProfile | src/pages/Onboarding.tsx:46-56 | the profile is built from the form fields iff the birth date parses |
| Onboarding.OnboardingForm.HandleNext | src/pages/Onboarding.tsx:26-38 | below step 3: one step forward, and at step 2 the life expectancy of the chosen country; at step 3: finish with the profile; the step stays in 1..3 |
| Onboarding.OnboardingForm.HandleBack | src/pages/Onboarding.tsx:40-44 | one step back above step 1, else nothing; the step stays in 1..3 |
| Onboarding.OnboardingForm.SetBirthDate | src/pages/Onboarding.tsx:111 | only the birth date changes |
| Onboarding.OnboardingForm.SetSex | src/pages/Onboarding.tsx:130 | only the sex changes |
| Onboarding.OnboardingForm.SetNationality | src/pages/Onboarding.tsx:156 | only the nationality changes |
| Onboarding.OnboardingForm.TypeLifeExpectancy | src/pages/Onboarding.tsx:185-188 | the years become the clamped typed value, so step 3 can always proceed |
| Onboarding.OnboardingForm.SlideLifeExpectancy | src/pages/Onboarding.tsx:196-199 | the years become the slider value |
| Onboarding.OnboardWithDefaults | src/pages/Onboarding.tsx:26-56 | birth date and country, then Next three times, yields a profile with that country's life expectancy and nationality (none for 'GLOBAL'), or no profile when the date does not parse |
| Strings.ParseIntOfNat | src/pages/Onboarding.tsx:186 | `parseInt` of a number's decimal text, followed by anything that does not start with a digit, is that number |
| Strings.SplitJoin | src/lib/utils.ts:29 | splitting a join at a separator that no part contains gives back the parts |
| Utils.Clamp | src/lib/utils.ts:6-8 | min below the range, max above it, the value inside it (both ends inclusive); always ≥ min and within the range when min ≤ max |
| Utils.ClampIdempotent | src/lib/utils.ts:6-8 | clamping twice is clamping once |
| Utils.ClampExamples | src/lib/__tests__/utils.test.ts:22-38 | (5,10,20) → 10, (25,10,20) → 20, (15,10,20) → 15, and both endpoints are kept |
| Utils.TruthyParts | src/lib/utils.ts:29 | only non-empty strings, no more than the arguments; empty iff every argument is falsy |
| Utils.TruthyPartsMembers | src/lib/utils.ts:29 | every kept name was an argument, and every truthy argument is kept |
| Utils.TruthyPartsAppend | src/lib/utils.ts:29 | filtering two argument lists one after the other is filtering their concatenation |
| Utils.ClassNames | src/lib/utils.ts:28-30 | all-falsy arguments give "" |
| Utils.ClassNamesSplit | src/lib/utils.ts:28-30 | splitting the result at spaces gives exactly the truthy arguments in order |
| Utils.ClassNamesJoinExample | src/lib/__tests__/utils.test.ts:42-44 | three names are joined by single spaces |
| Utils.ClassNamesFalsyExample | src/lib/__tests__/utils.test.ts:46-48 | falsy arguments between names are dropped |
| Utils.ClassNamesEmptyExamples | src/lib/__tests__/utils.test.ts:50-56 | no arguments, or only falsy ones, give "" |
| Categories.FindCategory | src/lib/categories.ts:50 | the first entry with that id, or −1 when none has it |
| Categories.GetCategoryConfig | src/lib/categories.ts:49-51 | a table entry whose id is the category, for every category |
| Categories.CategoriesUnique | src/lib/categories.ts:11-47 | each of the five categories appears exactly once, and entry 4 is 'other' |
| Categories.ConfigIsEntry | src/lib/categories.ts:49-51 | the lookup returns the table's entry for the category, wherever it sits |
| Categories.GetCategoryColor | src/lib/categories.ts:53-56 | the colour of the table entry whose id is the category; the fallback's gray belongs to 'other' alone |
| Categories.GetCategoryIcon | src/lib/categories.ts:58-61 | the icon of the table entry whose id is the category, and no other entry has that icon |
| Categories.GetCategoryGradient | src/lib/categories.ts:63-66 | the gradient of the table entry whose id is the category |
| Categories.CategoryExamples | src/lib/categories.ts:11-47 | work is blue, personal has 🌱, other's gradient is gray to slate |
| Messages.JsRemainder15 | src/lib/messages.ts:25 | JavaScript's `%` by 15: Euclidean for non-negative indices, sign of the dividend otherwise |
| Messages.GetPositiveMessageByIndex | src/lib/messages.ts:24-26 | message index mod 15 for index ≥ 0; always from the list; undefined iff a negative index is not a multiple of 15 |
| Messages.MessagePeriod | src/lib/messages.ts:24-26 | indices 15 apart, on the same side of zero, give the same message |
| Messages.MessageExamples | src/lib/messages.ts:1-26 | 15 messages; 0 and 15 give 'Haz que hoy cuente'; −1 gives nothing |
| Messages.GetRandomPositiveMessage | src/lib/messages.ts:19-22 | for a draw r in [0, 1), the message at floor(15r), always from the list |
| Themes.FindTheme | src/lib/themes.ts:52 | the first theme with that id, or −1 when none has it |
| Themes.GetThemeById | src/lib/themes.ts:51-53 | a theme of the table: the one with that id, else the first (turquoise) |
| Themes.ThemeIdsUnique | src/lib/themes.ts:3-49 | ids are unique, each theme is found by its own id, and the store's default id finds the first theme |
| Themes.ShadeChannel | src/lib/themes.ts:67-76 | lighter shades min(255, c + 200/150/100/50) stay ≤ 255 and not below c; darker shades max(0, c − 30/60/90/120) stay ≥ 0 and not above c |
| Themes.ShadeColor | src/lib/themes.ts:67-76 | each channel of a shade of an in-range colour is in 0..255 |
| Themes.ShadesOrdered | src/lib/themes.ts:67-76 | per channel, 50 ≥ 100 ≥ 200 ≥ 300 ≥ base ≥ 700 ≥ 800 ≥ 900 ≥ 950 |
| Themes.ThemeProperties | src/lib/themes.ts:55-77 | eleven custom properties: 600 the primary, 500 the secondary, 400 the accent colour, then the eight derived shades of the primary, each under its shade name |
| Themes.ShadeExamples | src/lib/themes.ts:67-76 | turquoise rgb(13 148 136) gives rgb(213 255 255) at 50 and rgb(0 28 16) at 950 |

## Left out

- Browser APIs. `localStorage` is the optional string of `Storage.LocalStore`. `JSON.parse` and `JSON.stringify` are the abstract `parse` and `serialize`. No round trip is assumed of them, because the JSON codec is not part of this code: JSON cannot carry every value the model allows (a non-finite number, for one), so the round-trip guarantees are stated only for envelopes that do round-trip (`RoundTripsAt`). A `setItem` that throws is the `accepts` test failing. A `JSON.parse` that returns `null` and then fails inside `migrate` counts as not parsing.
- Luxon internals: ISO parsing and printing, time zones, days of uneven length and `startOf('week')`. Instants are fixed-zone milliseconds. The day and the week start are parameters (`GetTodayWorkedHours`, `GetWeeklyWorkedHours`). `Civil.ToMillis` stands in for `toMillis()`.
- Civil.AddYears: Luxon's rule for February 29 in a non-leap year is not visible. The model clamps to February 28, and `Life.EstimatedEndOfLife` states that rule.
- Life.CalculateAge: modelled as Luxon's whole-year difference, floored. For a birth date after now, it gives the floored negative difference; the fractional part of the year is not modelled.
- Store.AppStore: a refused write is swallowed by the storage layer, so the store's memory keeps the change while the slot keeps the old text; the actions state this rather than `Persisted()` in that case.
- Life.CreateDeadlineISO: Luxon throws on a NaN hour or minute; the model returns None for that case, as it does for a date that does not parse.
- Clock and randomness. `now`, today and the week start are parameters. `generateId`, `generateSubGoalId` and `generateWorkSessionId` become a supplied fresh id (`AppStore.AddGoal`, `TimeTracking.LogSessionTotals`). `Math.random()` becomes the draw `r` of `Messages.GetRandomPositiveMessage`.
- Floating point. Hours and percentages are exact reals, so a double rounding error is not modelled. `Progress.Percentage` uses exact rational rounding, where the source rounds the double `completed / total * 100`.
- TimeTracking.OnTrack: the ceiling of the span is zero when the deadline is at the creation instant or less than a day before it, and the source then divides by zero. The model gives the IEEE outcome. Equal instants give +0: with days left the expected hours are −Infinity (on track), with none NaN (not on track). A deadline less than a day before creation gives −0: the expected hours are +Infinity or NaN, so the goal is never on track. A creation stamp after the deadline arises only when the clock was set back or a record was imported.
- Storage.LocalStore.ExportData: the source pretty-prints the JSON with two-space indentation, while storage writes it compactly. The model uses one `serialize` for both, so the layout of the exported text is not modelled; both layouts parse to the same envelope.
- TimeTracking.CalculateTimeAnalysis: the deadline minus the creation instant, in milliseconds, is a parameter of `OnTrack`, which takes the ceiling in days as for the days left and keeps the sign of a zero span. Luxon's day difference across uneven days is not modelled.
- Strings.NumberOf covers unsigned digit strings only, with the empty text read as 0 as `Number` does. A sign, surrounding white space, and fractional, exponent or hexadecimal text, all of which `Number` accepts, are read as not a number.
- Strings.ParseInt reads leading spaces, an optional sign and decimal digits. `parseInt` of a fraction keeps its integer prefix, as in the source; other white space before the number is not skipped.
- Onboarding.OnboardingForm.FinishProfile: a birth date that does not parse finishes with no profile. The source would store an empty birth-date string.
- Onboarding.OnboardingForm.SlideLifeExpectancy: the slider's own bounds of 40 and 120 are left to the browser, so any value is taken.
- GoalList.SortByKey: the sort is an insertion sort, not V8's algorithm. GoalList.PartitionAndSort does not state that goals with equal keys keep their input order, although the sort it uses does.
- GoalList: the pending key reads the deadline against the same `now` for every goal. The source reads the clock again for each comparison.
- Storage.LoadFrom: the store's load never calls the goal migration of `src/lib/migration.ts`. The model follows the code here: loaded goals are taken as they are.
- Migration.NeedsMigration: it looks only at category, sub-goals, reminder and priority, as the code does. Missing work sessions or creation times do not trigger a migration.
- Store: sub-goal and work-session store operations are called by the sub-goal and work-session components but defined in no store. They are not part of this model.
- DOM side effects. `applyTheme` becomes the list of custom properties it writes (`Themes.ThemeProperties`). The regex parse of the `rgb(...)` text is replaced by the colour record. `setBackgroundImage`'s style writes are not modelled.
- Timers and presentation: `debounce`, `sleep`, interval refreshes, toasts, confetti, JSX rendering and translations.
- Messages.GetPositiveMessageByIndex: JavaScript yields `undefined` for a negative index that is not a multiple of 15. The model returns `None` for it.

## Findings

| source | as written | input that shows it | evidently intended | confidence | as-written member | corrected member |
|---|---|---|---|---|---|---|
| src/lib/timeTracking.ts:84-93 | the fraction of an hour is rounded to minutes after the whole hours are taken off, so it can round up to 60 and print "60min" | 2.995 hours gives "2h 60min" (any fraction from 59.5/60 on; also 0.995 hours gives "60min") | carry the full hour: "3h" for 2.995 hours, "1h" for 0.995 | high; not executed | TimeTracking.FormatHoursSixtyMinutes | TimeTracking.FormatHoursCorrection |

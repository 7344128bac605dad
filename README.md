# MedWell core, modelled in Dafny

MedWell is a medication tracker. An Express and Mongoose back end stores users, one-time
codes and dose logs. A React front end shows a dashboard, analytics, a history, a schedule
form, the settings page, registration and a top bar. This project models the logic of the
core files in Dafny and proves what they promise.

- **Dose logs** (`DoseLogs`): the schema's validation (required fields and the status
  enum), the creation stamps, and the `Math.round(part / whole * 100)` percentage used by
  both adherence figures, computed exactly on rationals rather than in floating point.
- **Dashboard summary route** (`DashboardSummary`):
  - eligible schedules, and the dose instants built from `time.split(':').map(Number)`;
  - upcoming and missed doses, stably sorted by time, with the padded-time "was logged"
    test;
  - skipped doses and the five most recent logs;
  - the seven-day adherence and the streak loop over up to 30 days;
  - the JSON response.
- **Dashboard page** (`DashboardPage`), a class over the page's state:
  - dose keys, `toHHmm`, the acted-today keys, and the filters for upcoming, missed and
    skipped doses;
  - `handleLogDose`, with its duplicate guard and its optimistic summary update;
  - the auto-log effect, together with the `missedLoggedRef` set it marks.
- **Analytics page** (`Analytics`): the totals, the seven UTC-day buckets, today's missed
  doses, and the weekly average shown in the table.
- **History page** (`History`): grouping logs by date label while keeping first-seen order.
  The grouping loop is a method proved against a function.
- **Schedule form** (`ScheduleForms`): a class with the form's fields. Times are kept sorted
  by an in-place insertion sort on an array.
- **Authentication routes** (`AuthRoutes`): every route, as a function from a database
  value to a reply and a new database value.
- **Authentication context** (`AuthContext`): a class holding `authData` and the
  `localStorage` entry it mirrors.
- **Settings page** (`Settings`): the initials, and the form with its change handler, its
  profile load and its save payload.
- **Registration page** (`Register`): the full name it sends, and the two-step form as a
  class.
- **Top bar** (`Topbar`): the avatar source.
- **Helper modules**, not core files themselves:
  - `Text`: the string built-ins the source relies on (`trim`, `replace(/\s+/g, ' ')`,
    `split`, `padStart`, `parseInt`, `Number`, `localeCompare`, `toUpperCase`);
  - `JsValues`: JavaScript values with truthiness, `||` and object spread;
  - `Seqs`: `filter`, `map` and `slice`;
  - `Wrappers`: `Option` and `Result`.

Time is an integer number of milliseconds. The clock, the local calendar day of an instant
and the local minute of the day are parameters. Hashing, token signing, e-mail and
randomness are also parameters: the model receives their results as inputs.

## Model

| member | source | states |
|---|---|---|
| `DoseLogs.ParseStatus` | Backend/server/models/DoseLog.js:32-36 | a stored status string is accepted exactly when it is one of "Taken", "Skipped", "Missed" |
| `DoseLogs.ParseStatusName` | Backend/server/models/DoseLog.js:32-36 | the enum check accepts a string as a status exactly when it is that status's name |
| `DoseLogs.Failures` | Backend/server/models/DoseLog.js:4-36 | a path fails validation exactly when its required field is missing, the name is empty, or the status is outside the enum; `time` is never required |
| `DoseLogs.Create` | Backend/server/models/DoseLog.js:3-39 | creation fails exactly when some path fails and reports those paths; otherwise the log holds the given fields and both timestamps are the creation instant |
| `DoseLogs.Recorded` | Backend/server/routes/dashboardRoutes.js:71 | `['Taken', 'Skipped', 'Missed'].includes(status)`; AllRecorded shows every stored log passes it |
| `DoseLogs.AllRecorded` | Backend/server/models/DoseLog.js:32-36 | every stored log has one of the three statuses, so the `includes` filters keep every log |
| `DoseLogs.RoundPercent` | Backend/server/routes/dashboardRoutes.js:110 | the percentage is at most 100 and is `100 * part / whole` rounded half up |
| `DoseLogs.RoundedPercentUnique` | Backend/server/routes/dashboardRoutes.js:110 | only one whole number is `100 * part / whole` rounded half up |
| `DoseLogs.RoundPercentExtremes` | Backend/server/routes/dashboardRoutes.js:110 | none taken gives 0 and all taken gives 100 |
| `DashboardSummary.Eligible` | Backend/server/routes/dashboardRoutes.js:18-26 | an active schedule whose start date, at local midnight, is not after today; EligibleSchedules keeps exactly these |
| `DashboardSummary.Label` | Backend/server/routes/dashboardRoutes.js:48 | the medication label `${name} ${dosage}` of both dose lists |
| `DashboardSummary.EligibleSchedules` | Backend/server/routes/dashboardRoutes.js:22-26 | exactly the active schedules whose start day is not after today |
| `DashboardSummary.ScheduleSlots` | Backend/server/routes/dashboardRoutes.js:39-40 | the slots of one schedule are exactly its times |
| `DashboardSummary.Slots` | Backend/server/routes/dashboardRoutes.js:39-40 | the slots of all schedules are exactly the pairs of a schedule and one of its times |
| `DashboardSummary.DoseInstant` | Backend/server/routes/dashboardRoutes.js:41-43 | `time.split(':').map(Number)` fed to `setHours` on today's midnight: an instant exactly when the hour and the minute are numbers, `None` (Invalid Date) otherwise |
| `DashboardSummary.DoseInstantOfClockTime` | Backend/server/routes/dashboardRoutes.js:41-43 | on a zero-padded "HH:mm" time, the instant is today's midnight plus hour * 60 + minute minutes |
| `DashboardSummary.IsUpcoming` | Backend/server/routes/dashboardRoutes.js:46 | kept by the upcoming filter: `doseTime <= now` is false, which an Invalid Date also gives; UpcomingOrPast and UpcomingMembers state its meaning |
| `DashboardSummary.IsPast` | Backend/server/routes/dashboardRoutes.js:65 | kept by the missed filter: `doseTime > now` is false; UpcomingOrPast shows that a valid instant satisfies exactly one of IsUpcoming and IsPast |
| `DashboardSummary.UpcomingOrPast` | Backend/server/routes/dashboardRoutes.js:46-65 | a well-formed dose time is upcoming exactly when it is not past, that is, when it is after now |
| `DashboardSummary.MalformedTimeOnBothSides` | Backend/server/routes/dashboardRoutes.js:46-65 | a time without a minute part yields an invalid date, which passes both the upcoming and the missed filter |
| `DashboardSummary.PadTime` | Backend/server/routes/dashboardRoutes.js:55-59 | a missing or empty time pads to the empty string |
| `DashboardSummary.PadTimeParts` | Backend/server/routes/dashboardRoutes.js:55-59 | the padded time splits at its colon into the padded hour and the padded minute, or "undefined" when the time has no minute |
| `DashboardSummary.DoseInstantPadTime` | Backend/server/routes/dashboardRoutes.js:55-59 | padding a time does not change the instant it denotes |
| `DashboardSummary.InsertByTime` | Backend/server/routes/dashboardRoutes.js:50 | insertion adds the entry once, keeps the others, and keeps a time-sorted list sorted |
| `DashboardSummary.SortByTime` | Backend/server/routes/dashboardRoutes.js:50 | the sort returns a permutation of its input, ordered by time |
| `DashboardSummary.SortedByTimePairwise` | Backend/server/routes/dashboardRoutes.js:50 | in a time-sorted list every earlier time is at most every later one |
| `DashboardSummary.InsertByTimeStable` | Backend/server/routes/dashboardRoutes.js:50 | insertion goes after every entry with the same time |
| `DashboardSummary.SortByTimeStable` | Backend/server/routes/dashboardRoutes.js:50 | the sort is stable: the entries with any one time keep their input order |
| `DashboardSummary.InsertByTimeStep` | Backend/server/routes/dashboardRoutes.js:50 | inserting the last entry into a list whose equal-time entries are in the order of the others gives one whose equal-time entries are in the order of the whole list |
| `DashboardSummary.UpcomingSlots` | Backend/server/routes/dashboardRoutes.js:39-49 | exactly the slots of eligible schedules whose instant is not at or before now |
| `DashboardSummary.MissedSlots` | Backend/server/routes/dashboardRoutes.js:60-83 | exactly the slots of eligible schedules whose instant is not after now and that no log of today matches |
| `DashboardSummary.UpcomingDoses` | Backend/server/routes/dashboardRoutes.js:39-50 | the upcoming doses are the upcoming slots' entries, as a permutation, sorted by time |
| `DashboardSummary.MissedDoses` | Backend/server/routes/dashboardRoutes.js:60-84 | the missed doses are the missed slots' entries with padded times, as a permutation, sorted by time |
| `DashboardSummary.UpcomingMembers` | Backend/server/routes/dashboardRoutes.js:39-50 | an entry is upcoming exactly when it is the entry of an upcoming slot |
| `DashboardSummary.UpcomingAfterNow` | Backend/server/routes/dashboardRoutes.js:39-50 | every upcoming entry comes from an eligible schedule and one of its times, and its instant is after now or invalid |
| `DashboardSummary.WasLogged` | Backend/server/routes/dashboardRoutes.js:68-77 | some recorded log of today has the schedule's id and, after padding, the slot's time; MissedIff reports a past slot exactly when this fails |
| `DashboardSummary.MissedIff` | Backend/server/routes/dashboardRoutes.js:60-84 | a past slot of an eligible schedule is reported missed exactly when no log of today has its schedule and padded time |
| `DashboardSummary.MissedMembers` | Backend/server/routes/dashboardRoutes.js:60-84 | every missed entry is the entry of a missed slot |
| `DashboardSummary.UpcomingMissedDisjoint` | Backend/server/routes/dashboardRoutes.js:46-65 | a slot with a well-formed time is never both upcoming and missed |
| `DashboardSummary.SkippedToday` | Backend/server/routes/dashboardRoutes.js:87-92 | exactly the logs with status Skipped whose action falls on today's local date |
| `DashboardSummary.SkippedDoses` | Backend/server/routes/dashboardRoutes.js:87-97 | one entry per skipped log of today, in log order, holding its schedule, name and time |
| `DashboardSummary.SkippedFromLogs` | Backend/server/routes/dashboardRoutes.js:87-97 | every skipped entry comes from a skipped log of today |
| `DashboardSummary.InsertByAction` | Backend/server/routes/dashboardRoutes.js:102 | insertion adds the log once, keeps the others, and keeps a newest-first list newest first |
| `DashboardSummary.SortByActionDesc` | Backend/server/routes/dashboardRoutes.js:102 | the sort returns a permutation of its input, newest action first |
| `DashboardSummary.InsertByActionStable` | Backend/server/routes/dashboardRoutes.js:102 | insertion goes after every log acted on at the same instant |
| `DashboardSummary.SortByActionDescStable` | Backend/server/routes/dashboardRoutes.js:102 | the sort is stable: the logs of any one action instant keep their input order |
| `DashboardSummary.InsertByActionStep` | Backend/server/routes/dashboardRoutes.js:102 | inserting the last log into a list whose equal-time logs are in the order of the others gives one whose equal-time logs are in the order of the whole list |
| `DashboardSummary.RecentActivity` | Backend/server/routes/dashboardRoutes.js:100-103 | at most five logs, five when there are five, newest first, all drawn from the user's recorded logs, none more often than it occurs there |
| `DashboardSummary.RecordedAll` | Backend/server/routes/dashboardRoutes.js:101 | the status filter keeps every log |
| `DashboardSummary.RecentIsNewest` | Backend/server/routes/dashboardRoutes.js:100-103 | a log left out of a full recent list is no newer than the fifth one shown |
| `DashboardSummary.TakeIsNewest` | Backend/server/routes/dashboardRoutes.js:103 | in a newest-first list, an element not among the first five is no newer than the fifth |
| `DashboardSummary.DescendingPairwise` | Backend/server/routes/dashboardRoutes.js:102 | in a newest-first list every earlier action is at least as recent as every later one |
| `DashboardSummary.WeekLogs` | Backend/server/routes/dashboardRoutes.js:106-108 | exactly the recorded logs acted on after the start of the seven-day window |
| `DashboardSummary.TakenCount` | Backend/server/routes/dashboardRoutes.js:109 | the number of Taken logs: at most the number of logs, zero exactly when no log is Taken, and all of them exactly when every log is Taken |
| `DashboardSummary.WeeklyAdherence` | Backend/server/routes/dashboardRoutes.js:106-110 | at most 100, 0 for a week without logs, otherwise the share of taken logs as a percentage rounded half up |
| `DashboardSummary.WeeklyAdherenceExtremes` | Backend/server/routes/dashboardRoutes.js:106-110 | a week without a taken dose scores 0, and a week of only taken doses scores 100 |
| `DashboardSummary.DayLogs` | Backend/server/routes/dashboardRoutes.js:115-120 | exactly the logs whose action falls on the given local day |
| `DashboardSummary.TakenOn` | Backend/server/routes/dashboardRoutes.js:115-124 | some log of the day has the status Taken; DayLogsTaken equates it with the loop's `logsForDay.some(...)` test |
| `DashboardSummary.DayLogsTaken` | Backend/server/routes/dashboardRoutes.js:124 | a day's logs include a taken one exactly when some log taken that day exists |
| `DashboardSummary.StreakFrom` | Backend/server/routes/dashboardRoutes.js:113-131 | the run of days with a Taken log counted back from a day within a window; StreakFromMeaning and StreakCountsRun state its bounds and that it counts the whole run |
| `DashboardSummary.StreakFromMeaning` | Backend/server/routes/dashboardRoutes.js:113-131 | the streak is at most the window, every day it counts has a taken log, and the day that stops it has none |
| `DashboardSummary.StreakCountsRun` | Backend/server/routes/dashboardRoutes.js:113-131 | a run of days with taken logs ending today is counted in full, up to the window |
| `DashboardSummary.StreakOfRun` | Backend/server/routes/dashboardRoutes.js:113-131 | a run of exactly k days with Taken logs ending today, that fills the window or is followed (backwards) by a day without one, is the streak |
| `DashboardSummary.CountStreak` | Backend/server/routes/dashboardRoutes.js:113-131 | the loop, which stops at the first day without a taken log, returns the streak function's value |
| `DashboardSummary.CurrentStreak` | Backend/server/routes/dashboardRoutes.js:113-131 | the streak counted back from today over a 30-day window |
| `DashboardSummary.SummaryOf` | Backend/server/routes/dashboardRoutes.js:133-139 | the upcoming count is the number of upcoming doses, the adherence is at most 100, and the streak is at most 30 |
| `DashboardSummary.Summarize` | Backend/server/routes/dashboardRoutes.js:8-139 | the route's imperative computation returns the summary function's value |
| `DashboardPage.FromServer` | frontend/src/pages/Dashboard.jsx:31-32 | the page keeps the server's upcoming and recent lists and its numeric upcoming count |
| `DashboardPage.TimeText` | frontend/src/pages/Dashboard.jsx:24 | a time interpolated into the key: the time itself, or "undefined" when absent |
| `DashboardPage.DoseKey` | frontend/src/pages/Dashboard.jsx:24 | the key `${scheduleId}-${time}`, `undefined` for an absent time; its injectivity, its collision and the `undefined` case are the three lemmas below |
| `DashboardPage.EntryKey` | frontend/src/pages/Dashboard.jsx:112 | `doseKey(u)` of a feed entry: its schedule id and time; DoseKeyInjective states when two entries share one |
| `DashboardPage.DoseKeyInjective` | frontend/src/pages/Dashboard.jsx:24 | when schedule ids contain no '-', two doses share a key exactly when they have the same schedule and the same rendered time |
| `DashboardPage.DoseKeyCollision` | frontend/src/pages/Dashboard.jsx:24 | ids that contain '-' can make two different doses share a key |
| `DashboardPage.DoseKeyUndefined` | frontend/src/pages/Dashboard.jsx:24 | a missing time renders as the text "undefined" in the key |
| `DashboardPage.ToHHmm` | frontend/src/pages/Dashboard.jsx:146-152 | a non-empty fallback time is returned as given; otherwise the result is an HH:mm clock time denoting the instant's local minute |
| `DashboardPage.GetMinutes` | frontend/src/pages/Dashboard.jsx:135-138 | `parseInt` of the hour times 60 plus `parseInt` of the minute, NaN when either is not a number; its meaning is stated by GetMinutesClockTime, GetMinutesToHHmm and GetMinutesNoColon |
| `DashboardPage.GetMinutesClockTime` | frontend/src/pages/Dashboard.jsx:135-138 | `getMinutes` of an HH:mm clock time is its minute of the day |
| `DashboardPage.GetMinutesToHHmm` | frontend/src/pages/Dashboard.jsx:135-152 | `getMinutes` inverts `toHHmm` on the local minute of an instant |
| `DashboardPage.GetMinutesNoColon` | frontend/src/pages/Dashboard.jsx:135-138 | a time without a colon gives NaN: the minute part is `undefined` |
| `DashboardPage.Today` | frontend/src/pages/Dashboard.jsx:155 | an instant between today's local start and end, which is the test `actionTime >= startOfToday && actionTime <= endOfToday` |
| `DashboardPage.ActedKey` | frontend/src/pages/Dashboard.jsx:156-158 | a log's acted key is a dose key with the log's "HH:mm"; a log with a non-empty time has the dose key of that time |
| `DashboardPage.ActedTodayKeys` | frontend/src/pages/Dashboard.jsx:153-160 | a key belongs to the set exactly when some recorded log acted on today has that key |
| `DashboardPage.ActedKeyWithoutTime` | frontend/src/pages/Dashboard.jsx:153-160 | a log without a time is keyed by the clock time of its scheduled instant |
| `DashboardPage.ShownUpcoming` | frontend/src/pages/Dashboard.jsx:163-165 | exactly the server's upcoming doses whose key is neither hidden nor acted on today, as a sub-multiset |
| `DashboardPage.ShownUpcomingOrder` | frontend/src/pages/Dashboard.jsx:163-165 | the filter keeps the server's order (it distributes over concatenation) |
| `DashboardPage.ShownMissed` | frontend/src/pages/Dashboard.jsx:168-170 | exactly the missed logs acted on today, as a sub-multiset |
| `DashboardPage.ShownSkipped` | frontend/src/pages/Dashboard.jsx:171-173 | exactly the skipped logs acted on today, as a sub-multiset |
| `DashboardPage.SameDose` | frontend/src/pages/Dashboard.jsx:116 | the `findIndex` test: same schedule, same time, same local day of `actionTime` |
| `DashboardPage.HasEarlier` | frontend/src/pages/Dashboard.jsx:114-117 | some earlier entry is the same dose; KeepFirstIndices keeps exactly the entries without one |
| `DashboardPage.KeepFirst` | frontend/src/pages/Dashboard.jsx:114-117 | the `findIndex` filter returns no more entries than it gets, and only entries it was given; `KeepFirstIndices` states which and in what order |
| `DashboardPage.KeptIndices` | frontend/src/pages/Dashboard.jsx:114-117 | one position per kept entry, each inside the input |
| `DashboardPage.KeepFirstIndices` | frontend/src/pages/Dashboard.jsx:114-117 | the kept entries are, in input order, exactly the entries for which `findIndex` finds no earlier entry of the same dose |
| `DashboardPage.KeepFirstHead` | frontend/src/pages/Dashboard.jsx:114-117 | the first entry is always kept, in first place |
| `DashboardPage.KeepFirstDistinct` | frontend/src/pages/Dashboard.jsx:114-117 | no two kept entries are the same dose on the same day |
| `DashboardPage.KeepFirstCovers` | frontend/src/pages/Dashboard.jsx:114-117 | every dropped entry has a kept entry for the same dose |
| `DashboardPage.DecrementUpcoming` | frontend/src/pages/Dashboard.jsx:119-122 | a numeric upcoming count drops by one but never below zero; a missing one stays missing |
| `DashboardPage.ApplyCreated` | frontend/src/pages/Dashboard.jsx:109-110 | without a summary, there is still no summary after the update |
| `DashboardPage.ApplyCreatedUpcoming` | frontend/src/pages/Dashboard.jsx:109-123 | the update removes exactly the upcoming doses with the logged dose's key, keeping every other entry with its multiplicity, decrements the count, and keeps the other fields |
| `DashboardPage.ApplyCreatedUpcomingOrder` | frontend/src/pages/Dashboard.jsx:112 | the filtered upcoming list of a concatenation is the concatenation of the filtered parts, so the kept doses stay in their order |
| `DashboardPage.ApplyCreatedRecent` | frontend/src/pages/Dashboard.jsx:114-118 | the new feed starts with the created log, has at most five entries, repeats no dose, and adds nothing else; it is the first five first occurrences of their doses in the created log followed by the old feed, in that order |
| `DashboardPage.AsEntry` | frontend/src/pages/Dashboard.jsx:188 | the missed-dose log passed to `handleLogDose` as a dose: its schedule id, name and time |
| `DashboardPage.LogKey` | frontend/src/pages/Dashboard.jsx:180 | the auto-log key `${dose.scheduleId}-${dose.time}`, the same form as a dose key |
| `DashboardPage.InRecent` | frontend/src/pages/Dashboard.jsx:181-183 | the feed holds a recorded log with the same schedule id and time; AutoLogPassMembers logs only doses without one |
| `DashboardPage.AutoLogPass` | frontend/src/pages/Dashboard.jsx:179-190 | one pass submits at most one dose per shown missed dose |
| `DashboardPage.AutoLogPassMembers` | frontend/src/pages/Dashboard.jsx:179-190 | every submitted dose is a shown missed dose that is absent from the feed and whose key was unmarked |
| `DashboardPage.AutoLogPassMarks` | frontend/src/pages/Dashboard.jsx:185-186 | after a pass the marked keys are the earlier ones plus the keys of the submitted doses |
| `DashboardPage.AutoLogPassOnce` | frontend/src/pages/Dashboard.jsx:185-186 | a pass never submits the same key twice |
| `DashboardPage.AlreadyLoggedToday` | frontend/src/pages/Dashboard.jsx:75-82 | the duplicate guard fires only for a dose with a schedule id and a time, on a log of today with the same schedule, time and status |
| `DashboardPage.AutoLogHitsGuard` | frontend/src/pages/Dashboard.jsx:75-85 | a shown missed dose with a time and schedule always trips the duplicate guard when it is logged as Missed |
| `DashboardPage.ScheduledParses` | frontend/src/pages/Dashboard.jsx:92 | whether `new Date(today + ' ' + time)` is a valid date; an absent time never is |
| `DashboardPage.DashboardView.constructor` | frontend/src/pages/Dashboard.jsx:16-21 | no summary, no logs, nothing hidden, nothing marked |
| `DashboardPage.DashboardView.Loaded` | frontend/src/pages/Dashboard.jsx:31-33 | the fetched summary and logs replace the old ones (a missing log list becomes empty), and the hidden and marked keys stay |
| `DashboardPage.DashboardView.HandleLogDose` | frontend/src/pages/Dashboard.jsx:67-129 | the dose's key is hidden; a duplicate sends nothing; past the guard, a time that makes no valid scheduled date (always an absent one) throws before sending; otherwise it sends the log request; a created log updates the summary, and a throw or a failed request leaves it |
| `DashboardPage.DashboardView.AutoLogMissed` | frontend/src/pages/Dashboard.jsx:176-192 | the loop submits, and marks, exactly what one auto-log pass over the shown missed doses and the feed decides |
| `Analytics.UtcDay` | frontend/src/pages/Analytics.jsx:33-34 | the UTC date of an instant: the day whose millisecond span holds it |
| `Analytics.UtcDayBack` | frontend/src/pages/Analytics.jsx:26-30 | going back k days of milliseconds from an instant goes back k UTC dates |
| `Analytics.CountStatus` | frontend/src/pages/Analytics.jsx:18-20 | the number of logs with a status: at most the number of logs, and zero exactly when no log has it |
| `Analytics.StatusCountsSum` | frontend/src/pages/Analytics.jsx:18-21 | the taken, missed and skipped counts add up to the number of logs |
| `Analytics.Adherence` | frontend/src/pages/Analytics.jsx:22 | at most 100, 0 without logs, otherwise the taken share as a percentage rounded half up |
| `Analytics.StatsOf` | frontend/src/pages/Analytics.jsx:18-22 | the totals count each status, add up to all logs, and give the overall adherence |
| `Analytics.LogsOn` | frontend/src/pages/Analytics.jsx:34 | exactly the logs whose action falls on the given UTC date |
| `Analytics.BucketInstant` | frontend/src/pages/Analytics.jsx:26-30 | bucket i lies 6 - i UTC days before today, and the last bucket is now |
| `Analytics.BucketOf` | frontend/src/pages/Analytics.jsx:31-48 | a day's bucket counts each status among that date's logs, and its adherence is at most 100, or 0 without logs |
| `Analytics.WeeklyBuckets` | frontend/src/pages/Analytics.jsx:24-48 | seven buckets, the i-th for the date 6 - i days before today |
| `Analytics.BucketDate` | frontend/src/pages/Analytics.jsx:26-33 | the i-th instant falls on the UTC date 6 - i days before today's |
| `Analytics.WeeklyBucketDates` | frontend/src/pages/Analytics.jsx:24-48 | the bucket dates are the seven consecutive dates ending today, in increasing order |
| `Analytics.LogInOneBucket` | frontend/src/pages/Analytics.jsx:31-48 | a log is counted in at most one bucket |
| `Analytics.MissedToday` | frontend/src/pages/Analytics.jsx:51-52 | exactly the missed logs acted on today's UTC date, as a sub-multiset |
| `Analytics.Compute` | frontend/src/pages/Analytics.jsx:16-58 | no data for an empty log list (the "Not Enough Data" state); otherwise the totals, the seven buckets and today's missed doses |
| `Analytics.AdherenceSum` | frontend/src/pages/Analytics.jsx:180 | the sum of the buckets' adherence values, at most 100 per bucket when each is at most 100 |
| `Analytics.RoundedMean` | frontend/src/pages/Analytics.jsx:180 | the mean rounded half up, at most 100 when every term is |
| `Analytics.WeeklyAverage` | frontend/src/pages/Analytics.jsx:180 | the buckets' mean adherence rounded half up |
| `Analytics.WeeklyAverageBound` | frontend/src/pages/Analytics.jsx:180 | the weekly average shown is at most 100 |
| `History.OnDate` | frontend/src/pages/History.jsx:12-23 | exactly the logs with the given date label, in log order |
| `History.OnDateAppend` | frontend/src/pages/History.jsx:21 | appending logs appends to each date's group |
| `History.DateKeys` | frontend/src/pages/History.jsx:18-20 | no more labels than logs |
| `History.DateKeysMembers` | frontend/src/pages/History.jsx:18-20 | a label is listed exactly when some log carries it |
| `History.DateKeysDistinct` | frontend/src/pages/History.jsx:18-20 | no label is listed twice |
| `History.DateKeysPrefix` | frontend/src/pages/History.jsx:18-20 | the labels of a prefix of the logs come first, in the same order |
| `History.GroupSizesTotal` | frontend/src/pages/History.jsx:12-23 | the group sizes add up to the number of logs |
| `History.Groups` | frontend/src/pages/History.jsx:12-23 | no group is empty |
| `History.GroupsDomain` | frontend/src/pages/History.jsx:34 | the groups are keyed by exactly the listed labels |
| `History.GroupsOnDate` | frontend/src/pages/History.jsx:12-23 | each group holds exactly its date's logs, in log order |
| `History.LogInOneGroup` | frontend/src/pages/History.jsx:12-23 | every log is in the group of its own label and in no other |
| `History.GroupByDate` | frontend/src/pages/History.jsx:12-23 | the reduce loop returns the labels in first-seen order and the groups |
| `ScheduleForms.SwapDown` | frontend/src/pages/Schedules.jsx:36 | one swap of neighbours, with everything else unchanged |
| `ScheduleForms.InsertDown` | frontend/src/pages/Schedules.jsx:36 | one more element joins the sorted prefix, and the array is a permutation of the old one |
| `ScheduleForms.SortTimes` | frontend/src/pages/Schedules.jsx:36 | the times are sorted in place into ascending order, as a permutation |
| `ScheduleForms.RemoveAt` | frontend/src/pages/Schedules.jsx:44 | removes the element at an index in range and keeps the others in order; an index out of range changes nothing |
| `ScheduleForms.RemoveAtAscending` | frontend/src/pages/Schedules.jsx:44 | removing a time from a sorted list keeps it sorted |
| `ScheduleForms.RemoveKeepsOne` | frontend/src/pages/Schedules.jsx:69-71 | the remove button, shown only while there are two or more times, never empties the list |
| `ScheduleForms.ScheduleForm.constructor` | frontend/src/pages/Schedules.jsx:10-15 | an empty name and dosage, one 09:00 time, and today as the start date |
| `ScheduleForms.ScheduleForm.LoadExisting` | frontend/src/pages/Schedules.jsx:17-26 | the form takes the existing schedule's fields |
| `ScheduleForms.ScheduleForm.HandleInputChange` | frontend/src/pages/Schedules.jsx:28-31 | only the named field changes |
| `ScheduleForms.ScheduleForm.HandleTimeChange` | frontend/src/pages/Schedules.jsx:33-37 | the times are the old ones with one replaced, re-sorted; nothing else changes |
| `ScheduleForms.ScheduleForm.AddTime` | frontend/src/pages/Schedules.jsx:39-41 | 17:00 is added, the times are sorted, and nothing else changes |
| `ScheduleForms.ScheduleForm.RemoveTime` | frontend/src/pages/Schedules.jsx:43-46 | the time at the index is removed, and nothing else changes |
| `AuthRoutes.Blank` | Backend/server/routes/authRoutes.js:55 | `!email` or `!token` on a string field: absent or empty |
| `AuthRoutes.IndexWhere` | Backend/server/routes/authRoutes.js:58 | the first index whose user satisfies the predicate, no earlier one does; none exactly when no user does |
| `AuthRoutes.FindByEmail` | Backend/server/routes/authRoutes.js:58 | finds a user with the e-mail address, and finds none exactly when there is none |
| `AuthRoutes.FindById` | Backend/server/routes/authRoutes.js:227 | finds a user with the id, and finds none exactly when there is none |
| `AuthRoutes.HasOtp` | Backend/server/routes/authRoutes.js:93 | `OTP.findOne({ email, otp })` finds a record: the pair is stored |
| `AuthRoutes.DeleteOtps` | Backend/server/routes/authRoutes.js:100 | removes exactly the codes of the e-mail address |
| `AuthRoutes.HeaderText` | Backend/server/routes/authRoutes.js:10 | `req.headers.authorization \|\| ''`: the header or the empty string; BearerToken and Authorize state what is read from it |
| `AuthRoutes.BearerToken` | Backend/server/routes/authRoutes.js:10-12 | a token exactly when the header starts with "Bearer ", and the token is the rest of it |
| `AuthRoutes.Authorize` | Backend/server/routes/authRoutes.js:221-225 | accepts exactly a header "Bearer " followed by a non-empty token; otherwise it answers 401 |
| `AuthRoutes.AuthorizeBearer` | Backend/server/routes/authRoutes.js:221-225 | "Bearer " followed by a non-empty token yields that token |
| `AuthRoutes.AuthorizeRejects` | Backend/server/routes/authRoutes.js:221-225 | a missing header, another scheme or an empty token is refused with 401 |
| `AuthRoutes.RequestEmailOtp` | Backend/server/routes/authRoutes.js:52-82 | a blank address is refused with 400 "Email is required."; a known address gets 400 "User with this email already exists." and nothing changes; a new address stores the code and answers 200 "Verification code sent to your email." when the mail is sent and 500 otherwise |
| `AuthRoutes.ShorterThan` | Backend/server/routes/authRoutes.js:89 | `v.length < n`: a string's or an array's length, an object's numeric `length`; false for a value without a length, since `undefined < n` is false |
| `AuthRoutes.WeakPassword` | Backend/server/routes/authRoutes.js:89-91 | `!password \|\| password.length < 8`: a string is weak exactly when it has fewer than 8 characters; a number, boolean or NaN exactly when it is falsy, since it has no length |
| `AuthRoutes.IntText` | Backend/server/routes/authRoutes.js:99 | `String(n)` on an integer: its decimal digits, with a minus sign when negative |
| `AuthRoutes.StringCast` | Backend/server/routes/authRoutes.js:99 | the schema's cast of the password to a string: a string stays, a number or a boolean becomes its text, an array, `undefined` or `null` fails |
| `AuthRoutes.NonStringPasswordPasses` | Backend/server/routes/authRoutes.js:89-91 | the password rule lets `true` through (it is cast to the 4-character "true") and lets the number 1234 through |
| `AuthRoutes.VerifyEmailOtp` | Backend/server/routes/authRoutes.js:85-114 | a weak password answers 400 with the password rule and an unknown code 400 "Invalid or expired verification code.", both unchanged; 201 "Registration successful! Please log in." exactly when the password passes, the code matches, the insert succeeds and the password casts to a string, adding that user with the cast password and deleting the address's codes; otherwise 500 "Server error during registration." unchanged |
| `AuthRoutes.LoginView` | Backend/server/routes/authRoutes.js:126-131 | the login reply has exactly the keys id, name, e-mail and photo: the user's id and e-mail, the profile's name, and the profile's photo defaulting to empty |
| `AuthRoutes.Login` | Backend/server/routes/authRoutes.js:117-139 | success exactly when a user has the address, the password sent is a string and it matches the hash; an unknown address or a wrong password gets the same 401; a known address with a password that is not a string gets the 500 of the catch |
| `AuthRoutes.RequestPasswordResetOtp` | Backend/server/routes/authRoutes.js:142-167 | an unknown address gets the same 200 answer and nothing is stored; a known one stores a code and answers 200 "A verification code has been sent to your email." when the mail is sent and 500 otherwise |
| `AuthRoutes.VerifyPasswordResetOtp` | Backend/server/routes/authRoutes.js:170-188 | an unknown code answers 400 unchanged; a reset token exactly when the code matches a known user's address, and then that address's codes are deleted; a matching code for an address without a user answers 500 "Server error during OTP verification." unchanged |
| `AuthRoutes.ResetPassword` | Backend/server/routes/authRoutes.js:191-215 | a blank token or a falsy password answers 400 "Missing information."; a password with a length below 8 the password rule; a token that fails verification 400 "Invalid or expired token."; a verified token without a user 404 "User not found."; 200 exactly when the token verifies to a user and the password casts to a string, and then only that user's password changes, to the cast value |
| `AuthRoutes.PhotoString` | Backend/server/routes/authRoutes.js:230-231 | the photo is always a string: the stored string, or empty |
| `AuthRoutes.UserObject` | Backend/server/routes/authRoutes.js:227-230 | `toObject()` of a user selected without its password: the other fields, the id and the e-mail, with a password key only if the other fields hold one |
| `AuthRoutes.WithProfile` | Backend/server/routes/authRoutes.js:249 | `findByIdAndUpdate` changes one user's other fields and nothing else: not its id, e-mail or password, and no other user |
| `AuthRoutes.GetMe` | Backend/server/routes/authRoutes.js:220-236 | 401 for a bad header or token; 404 "User not found" when the token names no user; otherwise the body holds exactly the user's fields plus a string photo, and no password field in a database that keeps passwords apart |
| `AuthRoutes.UpdatesOf` | Backend/server/routes/authRoutes.js:244-248 | the updates taken for a list of keys; UpdatesOfSpec states exactly which keys and values |
| `AuthRoutes.UpdatesOfSpec` | Backend/server/routes/authRoutes.js:244-248 | the update copies exactly the listed keys that the body defines |
| `AuthRoutes.Updates` | Backend/server/routes/authRoutes.js:244-248 | the updates of `PUT /me`; UpdatesWhitelist states that only allowed, defined fields are copied |
| `AuthRoutes.UpdatesWhitelist` | Backend/server/routes/authRoutes.js:244-248 | only allowed keys are copied, so the password, e-mail and photo never are |
| `AuthRoutes.ProfileUpdates` | Backend/server/routes/authRoutes.js:244-248 | the loop over the allowed keys builds the whitelisted update |
| `AuthRoutes.UpdateMe` | Backend/server/routes/authRoutes.js:238-254 | 401 without a token, 400 for a token that does not verify; for the token's user, the whitelisted update merged into that user's fields alone and the updated user object as the reply; JSON `null` and no change when no user has the id; ids, e-mails and passwords never change, and no password field appears |
| `AuthRoutes.UploadPhoto` | Backend/server/routes/authRoutes.js:8-37 | 401 without a token or for one that does not verify, 400 for an upload error (its message or "Upload failed") or a missing file; otherwise the token's user alone gets the stored file's path as photo, and the reply holds the path and the updated user, or `null` when no user has the id |
| `AuthContext.LoggedOut` | frontend/src/context/AuthContext.jsx:17 | no user, not authenticated, no token |
| `AuthContext.SignedIn` | frontend/src/context/AuthContext.jsx:25 | the given user and token, authenticated |
| `AuthContext.InitialState` | frontend/src/context/AuthContext.jsx:8-18 | the stored state when it parses, otherwise logged out |
| `AuthContext.Current` | frontend/src/context/AuthContext.jsx:49 | the stored state when it is truthy, otherwise logged out |
| `AuthContext.MergedUser` | frontend/src/context/AuthContext.jsx:50 | the partial user's fields override the current user's, and all other fields are kept |
| `AuthContext.Updated` | frontend/src/context/AuthContext.jsx:51 | the merged user, with the session flag and the token unchanged |
| `AuthContext.UpdateAfterLogin` | frontend/src/context/AuthContext.jsx:47-57 | an update after a login stays authenticated with the same token |
| `AuthContext.UpdateWhileLoggedOut` | frontend/src/context/AuthContext.jsx:47-57 | an update while logged out stays logged out |
| `AuthContext.AuthProvider.constructor` | frontend/src/context/AuthContext.jsx:20 | the state is read from storage, so the two agree |
| `AuthContext.AuthProvider.Login` | frontend/src/context/AuthContext.jsx:22-31 | succeeds exactly on a truthy `success`, then holds and stores the signed-in state; otherwise nothing changes |
| `AuthContext.AuthProvider.UpdateUser` | frontend/src/context/AuthContext.jsx:47-57 | merges the partial user and stores the result; an entry that does not parse changes nothing; storage stays in step |
| `AuthContext.AuthProvider.Logout` | frontend/src/context/AuthContext.jsx:59-62 | logged out, with the entry removed |
| `Settings.FirstChar` | frontend/src/pages/Settings.jsx:215-216 | the first character of the i-th word, or nothing when there is none |
| `Settings.FirstLetters` | frontend/src/pages/Settings.jsx:215-216 | the first letters of the first two words: with non-empty words, one letter per word up to two |
| `Settings.GetInitials` | frontend/src/pages/Settings.jsx:212-218 | at most two characters |
| `Settings.InitialsOfWords` | frontend/src/pages/Settings.jsx:212-218 | the upper-cased first letters of the name's first two words |
| `Settings.InitialsBlank` | frontend/src/pages/Settings.jsx:212-218 | a blank name has no initials |
| `Settings.InitialsCount` | frontend/src/pages/Settings.jsx:212-218 | one initial per word, up to two |
| `Settings.InitialForm` | frontend/src/pages/Settings.jsx:100-108 | the user's name, e-mail and photo (or empty), empty mobile and place, the browser's time zone, reminders on at 10 minutes |
| `Settings.NotificationKey` | frontend/src/pages/Settings.jsx:153 | the field name after "notifications.", up to the next dot |
| `Settings.NotificationValue` | frontend/src/pages/Settings.jsx:158 | `checked` for a checkbox, otherwise `Number(value)`: the value of a digit string (0 for the empty one) and NaN for anything else |
| `Settings.Changed` | frontend/src/pages/Settings.jsx:150-164 | a notification input changes only that one notification setting; any other input changes only its own field |
| `Settings.OrElse` | frontend/src/pages/Settings.jsx:122-129 | `profile.k \|\| fallback`: the profile's value when truthy, the fallback otherwise |
| `Settings.Loaded` | frontend/src/pages/Settings.jsx:120-129 | the loaded fields are set and the rest of the form is kept |
| `Settings.LoadedFields` | frontend/src/pages/Settings.jsx:120-129 | each loaded field takes the profile's truthy value, or else the earlier value or the empty string |
| `Settings.SavePayload` | frontend/src/pages/Settings.jsx:170-176 | exactly the five editable fields, never the e-mail or the photo |
| `Settings.SavePayloadApplied` | frontend/src/pages/Settings.jsx:170-176 | the profile route applies a saved payload as sent |
| `Settings.InitialFormDefined` | frontend/src/pages/Settings.jsx:100-108 | every saved field starts defined |
| `Settings.ChangedDefined` | frontend/src/pages/Settings.jsx:150-164 | a change keeps every saved field defined |
| `Settings.LoadedDefined` | frontend/src/pages/Settings.jsx:120-129 | a profile load keeps every saved field defined |
| `Settings.ProfileForm.constructor` | frontend/src/pages/Settings.jsx:100-108 | the initial form, with every saved field defined |
| `Settings.ProfileForm.OnChange` | frontend/src/pages/Settings.jsx:150-164 | the form after the change, still with every saved field defined |
| `Settings.ProfileForm.LoadProfile` | frontend/src/pages/Settings.jsx:118-129 | the form after the load, still with every saved field defined |
| `Register.FullName` | frontend/src/pages/Auth/Register.jsx:93 | the three name parts joined by spaces, white space collapsed and trimmed; FullNameClean and FullNameNoMiddle state the result's shape |
| `Register.FullNameClean` | frontend/src/pages/Auth/Register.jsx:93 | the full name has no surrounding space, no white space but plain spaces, and no two spaces in a row |
| `Register.FullNameNoMiddle` | frontend/src/pages/Auth/Register.jsx:93 | without a middle name the full name is "First Last" |
| `Register.CollapseNoMiddle` | frontend/src/pages/Auth/Register.jsx:93 | the double space left by an empty middle name collapses to one |
| `Register.ErrorText` | frontend/src/pages/Auth/Register.jsx:111 | the server's message when there is one, otherwise the fallback |
| `Register.BodyOf` | frontend/src/pages/Auth/Register.jsx:96-103 | the registration body: the full name, then e-mail, password, mobile and place as typed, and the code |
| `Register.RegisterForm.constructor` | frontend/src/pages/Auth/Register.jsx:54-62 | step 1, all fields empty, no code, no messages, not loading |
| `Register.RegisterForm.HandleInputChange` | frontend/src/pages/Auth/Register.jsx:65-68 | only the named field changes |
| `Register.RegisterForm.HandleOtpChange` | frontend/src/pages/Auth/Register.jsx:174 | the code becomes the typed value |
| `Register.RegisterForm.StartRequestOtp` | frontend/src/pages/Auth/Register.jsx:70-76 | loading, messages cleared, the e-mail address sent |
| `Register.RegisterForm.FinishRequestOtp` | frontend/src/pages/Auth/Register.jsx:76-83 | an answer shows its message and moves to step 2; a failure shows the error and keeps the step; loading ends |
| `Register.RegisterForm.StartVerifyAndRegister` | frontend/src/pages/Auth/Register.jsx:86-103 | loading, error cleared, and a body with the cleaned full name and the typed fields |
| `Register.RegisterForm.FinishVerifyAndRegister` | frontend/src/pages/Auth/Register.jsx:105-113 | success shows the message; failure shows the error and stops loading |
| `Register.RegisterForm.Back` | frontend/src/pages/Auth/Register.jsx:186 | back to step 1 |
| `Topbar.PrefixUploads` | frontend/src/Components/layout/Topbar.jsx:25 | the result starts with "/uploads", and a photo already under it is unchanged |
| `Topbar.PrefixUploadsIdempotent` | frontend/src/Components/layout/Topbar.jsx:25 | prefixing twice is prefixing once |
| `Topbar.UploadedPhotoShown` | frontend/src/Components/layout/Topbar.jsx:25 | a photo path stored by the upload route is shown as stored |
| `Topbar.Seed` | frontend/src/Components/layout/Topbar.jsx:25-27 | the user's name when it is a non-empty string, "User" when it is falsy |
| `Topbar.Generated` | frontend/src/Components/layout/Topbar.jsx:27 | the generated-avatar address with the seed appended |
| `Topbar.AvatarSrc` | frontend/src/Components/layout/Topbar.jsx:24-28 | the prefixed photo while it loads, and the generated avatar without a photo or after a load error |
| `Topbar.ShownPhotoUnderUploads` | frontend/src/Components/layout/Topbar.jsx:24-25 | a photo that is shown always comes from the uploads path |
| `Text.Upper` | frontend/src/pages/Settings.jsx:217 | ASCII lower-case letters become upper case, and nothing else changes |
| `Text.ToUpper` | frontend/src/pages/Settings.jsx:217 | upper-cases each character and keeps the length |
| `Text.StartsWith` | Backend/server/routes/authRoutes.js:11 | `s.startsWith(p)`: `p` is a prefix of `s`; BearerToken and PrefixUploads state what follows from it |
| `Text.TrimStart` | frontend/src/pages/Auth/Register.jsx:93 | removes exactly the leading white space |
| `Text.TrimEnd` | frontend/src/pages/Auth/Register.jsx:93 | removes exactly the trailing white space |
| `Text.Trim` | frontend/src/pages/Auth/Register.jsx:93 | a slice of the input with no white space at either end |
| `Text.TrimUntrimmed` | frontend/src/pages/Auth/Register.jsx:93 | trimming a trimmed string changes nothing |
| `Text.Collapse` | frontend/src/pages/Auth/Register.jsx:93 | collapsing never lengthens the string |
| `Text.CollapseStart` | frontend/src/pages/Auth/Register.jsx:93 | collapsing keeps emptiness and whether the string starts with white space |
| `Text.CollapseEnd` | frontend/src/pages/Auth/Register.jsx:93 | collapsing keeps whether the string ends with white space |
| `Text.CollapsePlainSpaces` | frontend/src/pages/Auth/Register.jsx:93 | after collapsing, the only white space is the plain space |
| `Text.CollapseNoDouble` | frontend/src/pages/Auth/Register.jsx:93 | after collapsing, no two white-space characters are adjacent |
| `Text.TrimKeepsSpacing` | frontend/src/pages/Auth/Register.jsx:93 | trimming keeps the single plain spacing |
| `Text.CollapseNoSpace` | frontend/src/pages/Auth/Register.jsx:93 | a string without white space collapses to itself |
| `Text.CollapseWordThen` | frontend/src/pages/Auth/Register.jsx:93 | a leading word passes through collapsing unchanged |
| `Text.SplitOnSpaces` | frontend/src/pages/Settings.jsx:214 | a split always has at least one piece |
| `Text.Words` | frontend/src/pages/Settings.jsx:214 | the maximal runs of non-space characters; WordsAreWords, SplitOnSpacesIsWords and WordsTrim state what they are |
| `Text.WordsAreWords` | frontend/src/pages/Settings.jsx:214 | every word is non-empty and holds no white space |
| `Text.SplitOnSpacesIsWords` | frontend/src/pages/Settings.jsx:214 | splitting a trimmed, non-empty string on white-space runs gives exactly its words |
| `Text.WordsTrim` | frontend/src/pages/Settings.jsx:214 | trimming does not change the words |
| `Text.NumberOf` | frontend/src/pages/Settings.jsx:158 | `Number(s)` on digit strings, with `Number("")` equal to 0; NumberOfPad2 states it on padded text |
| `Text.NatToDecimal` | frontend/src/pages/Dashboard.jsx:149-150 | the digits of a number denote it, one digit below 10 and at most two below 100 |
| `Text.TwoDigits` | frontend/src/pages/Dashboard.jsx:149-150 | `padStart(2, '0')` of a number below 100: two digits denoting it |
| `Text.ClockTimeOf` | frontend/src/pages/Dashboard.jsx:149-151 | an HH:mm clock time denoting the given minute of the day |
| `Text.ParseInt` | frontend/src/pages/Dashboard.jsx:137 | `parseInt(s)` is NaN exactly when the text is empty or does not start with a digit |
| `Text.LeadingDigits` | frontend/src/pages/Dashboard.jsx:137 | the longest prefix made of digits |
| `Text.Pad2` | Backend/server/routes/dashboardRoutes.js:58 | strings of two or more characters are unchanged; shorter ones get leading zeros up to two |
| `Text.NumberOfPad2` | Backend/server/routes/dashboardRoutes.js:58 | zero-padding does not change a number's value or its validity |
| `Text.Split` | Backend/server/routes/dashboardRoutes.js:41 | at least one piece, none containing the separator |
| `Text.JoinSplit` | Backend/server/routes/dashboardRoutes.js:41 | joining the pieces with the separator gives the string back |
| `Text.SplitPiece` | Backend/server/routes/dashboardRoutes.js:57 | the text before the first separator is the first piece |
| `Text.SplitWhole` | Backend/server/routes/dashboardRoutes.js:57 | a string without the separator is a single piece |
| `Text.StrLe` | frontend/src/pages/Schedules.jsx:36 | code-point order; a prefix comes first; StrLeTotal, StrLeTrans and StrLeAntisym make it a total order |
| `Text.StrLeTotal` | frontend/src/pages/Schedules.jsx:36 | the default string order is total |
| `Text.StrLeTrans` | frontend/src/pages/Schedules.jsx:36 | the default string order is transitive |
| `Text.StrLeAntisym` | frontend/src/pages/Schedules.jsx:36 | the default string order is antisymmetric |
| `Text.AscendingPairwise` | frontend/src/pages/Schedules.jsx:36 | in an ascending list every earlier string precedes every later one |
| `JsValues.Truthy` | frontend/src/context/AuthContext.jsx:50 | JavaScript truthiness: `undefined`, `null`, `false`, 0, NaN and the empty string are falsy, everything else truthy; Or and OrElse follow it |
| `JsValues.Or` | frontend/src/context/AuthContext.jsx:50 | `a || b` is a when a is truthy and b otherwise |
| `JsValues.Get` | frontend/src/context/AuthContext.jsx:50 | a property of an object, or undefined |
| `JsValues.Spread` | frontend/src/context/AuthContext.jsx:50 | spreading an object gives its fields; anything else gives no fields |
| `JsValues.NumberValue` | frontend/src/pages/Settings.jsx:158 | `Number(s)`: the value of an ASCII digit string, NaN for any other string |
| `JsValues.NumberValueDigits` | frontend/src/pages/Settings.jsx:158 | `Number("")` is 0, and `Number` reads back the decimal text of every natural number |
| `Seqs.Filter` | Backend/server/routes/dashboardRoutes.js:87-92 | exactly the elements satisfying the predicate, in order, as a sub-multiset |
| `Seqs.FilterAppend` | Backend/server/routes/dashboardRoutes.js:87-92 | filtering distributes over concatenation |
| `Seqs.Map` | Backend/server/routes/dashboardRoutes.js:93-97 | the function applied to each element, in order |
| `Seqs.Take` | Backend/server/routes/dashboardRoutes.js:103 | `slice(0, n)`: the first n elements, or all when there are fewer |

## Left out

- Calendar arithmetic is not modelled. There are no daylight-saving shifts and no `setHours` or `setDate` normalisation. The local day, the local minute of an instant and the start of the seven-day window are inputs. The Analytics page uses UTC dates, computed as the instant divided by one day of milliseconds.
- The History date label (`toLocaleDateString`) is a parameter. The locale's formatting is not modelled.
- `localeCompare` and the default sort order are modelled as code-point order. UTF-16 surrogate pairs and collation rules are not.
- `Number()` covers ASCII digit strings only. Surrounding white space, signs, fractions, exponents and hexadecimal are left out. `parseInt` reads the leading digits only.
- `toUpperCase` is modelled for ASCII letters only. There is no Unicode case mapping or expansion.
- Text.ToUpper: leaves non-ASCII characters unchanged, because their case mapping is not modelled.
- Settings.GetInitials: states only the length bound on its own; what the initials are is stated by InitialsOfWords and InitialsCount.
- Spreading a string or an array into an object (index keys) gives no fields in the model.
- The JSON encoding round trip and key order through `localStorage` and the network are not modelled. Date labels are not integer-like, so insertion order holds for the History keys.
- Mongoose is reduced to its effect on a database value. Queries, the unique index, schema details beyond required fields and the status enum, and the `Schedule` and `User` models are not modelled.
- Hashing, JWT signing and verification, nodemailer and OTP generation are not modelled. Their results are inputs (`matches`, `verify`, `mailSent`, `otp`, `newId`). OTP expiry is a database feature and is left out.
- DoseLogs.RoundPercent: rounds the exact rational `100 * part / whole` half up, where the source rounds the IEEE double `part / whole * 100`. The two can differ by one at an exact half: 23 of 40 gives the double 57.49999999999999, which the source rounds to 57 and the model to 58.
- DashboardSummary.WeeklyAdherence: uses `DoseLogs.RoundPercent`, so it can be one above the source at an exact half, for the floating-point reason given there.
- Analytics.Adherence: uses the same exact rounding, so it can be one above the source at an exact half, for the same floating-point reason.
- Analytics.BucketOf: computes each day's adherence with `Analytics.Adherence`, so it too can be one above the source at an exact half.
- DashboardPage.DashboardView.HandleLogDose: whether the browser parses `<today's date string> <time>` as a date is the parameter `dateParses`; only an absent time is fixed to give an Invalid Date, whose `toISOString()` throws.
- AuthRoutes.Login: an e-mail in the body that is not a string (a query object) is not modelled; the address is a string.
- AuthRoutes.WeakPassword: an object's `length` property is compared only when it is a number; JavaScript would also convert a numeric string or a boolean there before comparing.
- AuthRoutes.StringCast: numbers are integers, so the text of fractional numbers is not modelled; an object casts only through a non-empty string `_id`, and every other object (one with its own `toString`, an ObjectId) is a cast failure.
- AuthRoutes.VerifyEmailOtp: the e-mail and the code are strings, as the OTP query needs; a query object in their place is not modelled.
- AuthRoutes.UploadPhoto: multer's storage is not modelled, and a token that fails verification always answers 401. The branch where a non-JWT error answers 400 is left out, because token verification is an input that either yields a user id or fails.
- Asynchrony is not modelled. Each handler is split at its `await` into a start and a finish step. Polling, the `fetchData` refetch after logging, notifications and the prediction service are not modelled.
- LogRequest carries no `scheduledTime`. Its `toDateString` round trip is locale text.
- The registration page's navigation timer and the AuthContext `register` function are not modelled.
- The Settings page's photo upload is not modelled. Neither are its calls to `updateUser`, including the one inside the profile load.
- Topbar.Seed: a truthy name that is not a string renders as "User" in the model; JavaScript would render its string conversion.
- ScheduleForms.ScheduleForm.HandleTimeChange: requires an index inside the list, because the form only calls it for existing times; JavaScript would extend the array for a larger index.
- DashboardPage.DashboardView.AutoLogMissed: marks keys on a local set and stores it at the end. The effect is the same as marking the ref as it goes, because `forEach` runs synchronously up to each `await`. The `handleLogDose` calls it starts are returned as the doses to log, not run.
- Rendering, styling, routing and the components outside the named pages are not modelled.

# Transplant-care health app: verified model of its page logic

This project models, in Dafny, the logic behind six screens of a React health
app for kidney-transplant patients. The screens are:

- the **medication tracker**: the medication list, the daily dose log, "take all",
  per-medication history and the reminder check;
- the **admin console**: the list of message-centre notifications, and the clean-up of
  generated tips before they are put into the form;
- the **live voice assistant**: the voice-activity gate on microphone frames, the
  scheduling of reply audio and barge-in interruption, `navigate` tool calls, and the
  merging of search sources;
- the **message centre** and the **settings** screen: weekly goal progress, placeholder
  substitution, expand/detail toggles, style fallback and the notification-frequency
  preference;
- the **dashboard** and **analytics**: Monday-start weekly totals, tip rotation, the
  7-day chart and the average session length;
- the **activity log and calendar**: prepending an activity, month arithmetic, and
  grouping a month's activities by day.

Each screen is one module:

- `Medication.dfy`: class `MedicationTracker`.
- `Admin.dfy`: class `AdminPage`.
- `Voice.dfy`: class `VoiceSession`.
- `Settings.dfy`: the message centre, plus class `FrequencyPreference`.
- `Dashboard.dfy`: the dashboard and analytics.
- `ActivityLog.dfy`: the activity log and calendar.

Shared JavaScript behaviour is modelled once, in its own module:

- `JsMath.dfy`: `Math.round` as exact rational rounding, `Math.max` and `Math.min`.
- `JsDate.dfy`: proleptic Gregorian day numbers, with day 0 = 1970-01-01, a Thursday. It
  also models the normalisation `new Date(y, m, d)` performs on out-of-range months and
  days, and its reading of years 0..99 as 1900..1999 (which `setDate` does not do).
- `JsString.dfy`: `toString` and `parseInt` on integers, `indexOf`, `replace` of the
  first occurrence, `trim`, and deletion of code fences.
- `Sequences.dfy`: `Array.prototype.filter`.
- `Wrappers.dfy`: `Option`.

State that a component keeps in React state or `useRef` becomes fields of a class:

- The methods say exactly which fields they change.
- Their postconditions tie the new state to specification functions.
- The properties the app relies on are proved as lemmas about those functions.

Loops in the source are methods with `while`/`for` loops proved against those
functions:

- the activity grouping `reduce`;
- the `forEach` in "take all";
- the reminder check;
- the source-text builder;
- the tool-call dispatch;
- the zeroing of a silent microphone frame;
- the stopping of every playing buffer.

Conventions:

- **Times.** Instants are local minutes since the epoch, with the exception that medication
  `takenAt` is kept in milliseconds. A parsed date is `At(minute)` or `Invalid`.
- **Parsing.** The engine's date-string parser is a function parameter, and so is
  `JSON.parse` of generated text.
- **Storage.** `localStorage` is modelled as `Option` fields, where `None` means no
  value is stored.
- **Missing values.** An absent or empty string field is `""`; both are falsy in
  JavaScript.

## Model

| member | source | states |
|---|---|---|
| ActivityLog.NewActivity | pages/Activity.tsx:17-26 | the new record carries the clock's id, the chosen type and intensity, the date label and timestamp, and a duration whose `parseInt` is the chosen number |
| ActivityLog.SaveActivity | pages/Activity.tsx:28-31 | exactly one entry is prepended and the earlier entries follow in their original order |
| ActivityLog.DaysInViewedMonthIsLength | pages/Activity.tsx:126-128 | day 0 of the next month is the last day of the viewed month: the Gregorian month length, in 28..31, and February has 29 days iff the year is a leap year. The year is the one `new Date` makes of the viewed year, so years 0..99 are read as 1900..1999 |
| ActivityLog.FirstWeekdayOfViewedMonthIsFirst | pages/Activity.tsx:130-132 | the result is in 0..6 with Sunday = 0 and is the weekday of the 1st of the viewed month, in the year `new Date` makes of the viewed year; outside years 0..99 that is the 1st before the viewed day |
| ActivityLog.MonthStepDates | pages/Activity.tsx:134-140 | both steps land on day 1 of the neighbouring month; December rolls forward to January of the next year, and January rolls back to December of the previous year. Years 0..99 are first read as 1900..1999 |
| ActivityLog.PrevAfterNext | pages/Activity.tsx:134-140 | for viewed years outside -1..100, next-then-previous and previous-then-next both return to day 1 of the viewed month |
| ActivityLog.PrevAfterNextTwoDigitYear | pages/Activity.tsx:134-140 | from December of year 99, next gives January 2000 and previous then gives December 1999, not the viewed month |
| ActivityLog.BucketOf | pages/Activity.tsx:153-165 | an activity gets a day exactly when its instant is valid and falls in the viewed year and month. The day is its day of month, within that month's length |
| ActivityLog.BucketMembers | pages/Activity.tsx:152-167 | an activity is in a day's bucket iff it is in the list and is placed on that day |
| ActivityLog.BucketInOrder | pages/Activity.tsx:163-164 | every bucket is a subsequence of the input, so input order is kept |
| ActivityLog.ActivitiesByDay | pages/Activity.tsx:152-167 | the accumulator loop yields exactly the buckets: every key is a day with a non-empty bucket, and each value is that bucket |
| ActivityLog.BucketDays | pages/Activity.tsx:161-163 | every key of the grouping is a day of the viewed month |
| ActivityLog.Grid | pages/Activity.tsx:199-225 | `firstDay` blank cells, then cells 1..`daysInMonth` in order. Each cell's aerobic and resistance markers and its today flag match its bucket and the current date |
| ActivityLog.GridMarkers | pages/Activity.tsx:208-210 | a day's marker for a type shows iff some activity of that type is placed on that day |
| Dashboard.TotalMinutesAppend | pages/Dashboard.tsx:78 | the minutes sum is additive over concatenation |
| Dashboard.TotalMinutesBetween | pages/Dashboard.tsx:78 | if every entry's minutes lie in [lo, hi], the sum lies in [lo·n, hi·n] |
| Dashboard.WeekStartIsMonday | pages/Dashboard.tsx:59-64 | the week starts on a Monday at most 6 days back, and a Sunday maps back 6 days |
| Dashboard.StartOfWeekBeforeNow | pages/Dashboard.tsx:62-64 | the start of the week is at or before now, and less than seven days before it |
| Dashboard.WeekActivities | pages/Dashboard.tsx:66-76 | the week's activities are no more than the stored ones |
| Dashboard.WeekActivitiesMembers | pages/Dashboard.tsx:66-76 | an activity is counted for the week iff it is stored and its instant is at or after Monday 00:00 |
| Dashboard.InCurrentWeekByDay | pages/Dashboard.tsx:66-76 | "at or after the start of the week" is the same as "on or after the Monday's day number" |
| Dashboard.UnparsedDateCountsAsNow | pages/Dashboard.tsx:71-73 | an untimestamped entry whose date does not parse counts as now, so it is in the current week |
| Dashboard.InvalidTimestampExcluded | pages/Dashboard.tsx:69-70 | an entry whose timestamp does not parse is never in the week (an invalid date compares false) |
| Dashboard.ComputeWeeklyStats | pages/Dashboard.tsx:78-83 | sessions is the count of the week's activities, at most the number stored |
| Dashboard.NewActivityCounts | pages/Dashboard.tsx:66-83 | prepending an activity stamped now adds one session and its minutes |
| Dashboard.GoalPercentRange | pages/Dashboard.tsx:92 | the progress percent is at most 100, never negative for non-negative minutes, and reaches 100 iff the 150-minute goal is met |
| Dashboard.NextTip | pages/Dashboard.tsx:45 | the rotated index stays in [0, 4), steps by one and wraps from the last tip to the first |
| Dashboard.TipCycle | pages/Dashboard.tsx:181 | four manual rotations return to the same tip |
| Dashboard.RecentActivities | pages/Dashboard.tsx:56 | the recent list is the first min(3, n) stored entries |
| Dashboard.ChartDays | pages/Dashboard.tsx:255-259 | the chart covers exactly seven days |
| Dashboard.ChartDaysAreLastWeek | pages/Dashboard.tsx:255-259 | entry i is the day 6 − i days before today, ordered from six days ago up to today |
| Dashboard.OnDayByNumber | pages/Dashboard.tsx:271-274 | matching date, month and year is the same as an equal day number for a valid instant |
| Dashboard.DayMinutesIsDayTotal | pages/Dashboard.tsx:261-278 | a day's value is the minutes sum of the activities on that calendar day |
| Dashboard.InvalidDateContributesNothing | pages/Dashboard.tsx:271 | an entry with an invalid date adds nothing to any day |
| Dashboard.MaxValue | pages/Dashboard.tsx:287 | `maxValue` is at least 60 and at least every value, and is either 60 or one of the values |
| Dashboard.ChartValues | pages/Dashboard.tsx:261-285 | there are seven values, one per chart day |
| Dashboard.Chart | pages/Dashboard.tsx:288-291 | the final chart has seven entries |
| Dashboard.ChartEntryShape | pages/Dashboard.tsx:280-291 | each entry has its day's weekday label and its day's minutes; its height is in [0,100], and it is 100 for a value equal to `maxValue` |
| Dashboard.Analytics | pages/Dashboard.tsx:295-301 | sessions is the stored count and the total is the minutes sum of all entries |
| Dashboard.AverageBetween | pages/Dashboard.tsx:300 | the average is 0 with no activities, and otherwise lies between the smallest and largest session length |
| Settings.InitialFrequency | pages/Settings.tsx:11-13 | the stored preference is used when present, else 'daily' |
| Settings.ChangeSurvivesReload | pages/Settings.tsx:11-18 | a stored choice is what the next load shows, and nothing stored loads as 'daily' |
| Settings.Remaining | pages/Settings.tsx:133 | remaining minutes are never negative and cover the gap to the 150-minute goal |
| Settings.GoalProgress | pages/Settings.tsx:132-134 | for non-negative minutes: remaining is in [0,150] and 0 iff the goal is met; below the goal, minutes plus remaining make 150; the percentage is in [0,100] and reaches 100 iff the goal is met |
| Settings.GoalStatus | pages/Settings.tsx:137-138 | the title is the "reached" text iff the goal is met, otherwise the "on your way" text; the subtitle is the praise text, or "`<remaining>` mins remaining this week." |
| Settings.WeeklyMinutesStep | pages/Settings.tsx:162-173 | one more stored entry adds its minutes (its duration's `parseInt`, or 0) exactly when it is in the current week, and nothing otherwise |
| Settings.WeeklyMinutesAppend | pages/Settings.tsx:162-173 | the weekly minutes of two lists together are the sum of their weekly minutes |
| Settings.WeeklyMinutesFallbacks | pages/Settings.tsx:163-173 | an untimestamped entry whose date does not parse counts as now and adds its minutes; an unparseable timestamp adds nothing; a non-numeric duration adds 0 |
| Settings.WeeklyMinutesWindow | pages/Settings.tsx:155-171 | an entry counts iff its instant is valid and on or after the Monday of the current week; that Monday is at most six days back, and six days back on a Sunday |
| Settings.WeeklyMinutesBounds | pages/Settings.tsx:162-173 | with per-entry minutes in [0,d], the weekly sum is in [0, d × the number of the week's entries] |
| Settings.ProcessTextPlain | pages/Settings.tsx:192-199 | text containing none of the five placeholders is returned unchanged |
| Settings.ProcessTitlePlaceholder | pages/Settings.tsx:197 | the title placeholder alone becomes the goal-status title |
| Settings.ProcessSubtitlePlaceholder | pages/Settings.tsx:198 | the subtitle placeholder alone becomes the goal-status subtitle |
| Settings.ProcessTextFirstOnly | pages/Settings.tsx:196 | only the first `{remaining}` is replaced: two copies become the number followed by the untouched second copy |
| Settings.FillInWithoutNumbers | pages/Settings.tsx:193-198 | text without the three number placeholders is affected only by the title and subtitle replacements |
| Settings.FillInFirstOnly | pages/Settings.tsx:196 | the chain of replacements replaces only the first of two `{remaining}` placeholders |
| Settings.TitleKeyNotInSubtitleKey | pages/Settings.tsx:197-198 | the title placeholder does not occur inside the subtitle placeholder, so the two replacements do not interfere |
| Settings.ToggleExpand | pages/Settings.tsx:177-179 | the result is empty iff that id was expanded, and otherwise it is that id |
| Settings.ToggleExpandTwice | pages/Settings.tsx:177-179 | toggling twice leaves that id expanded iff it was expanded before |
| Settings.ToggleDetailFlips | pages/Settings.tsx:181-189 | membership of the given id flips, every other id is unchanged, and toggling twice restores the set |
| Settings.StyleFallback | pages/Settings.tsx:202-230 | any style other than blue, green or red maps to the slate classes, and only those do |
| Settings.VisibleMembers | pages/Settings.tsx:232 | an item is shown iff it is stored and visible, and shown items keep their order across concatenation |
| Settings.DefaultsAllShown | pages/Settings.tsx:80-121 | on first load all four default notifications are shown, in order |
| Settings.CardOf | pages/Settings.tsx:246-300 | a card's texts are the note's texts with placeholders filled. Its content shows iff it is the expanded note, and its detail iff the note is expanded with its detail open. The activity link shows only on note 2's open detail |
| Settings.Cards | pages/Settings.tsx:246-256 | one card per visible notification, in order |
| Settings.AtMostOneExpanded | pages/Settings.tsx:128-247 | with distinct ids, at most one card shows its content |
| Settings.FilterDistinct | pages/Settings.tsx:232 | filtering keeps ids distinct |
| Settings.Open | pages/Settings.tsx:126-175 | opening the page loads the stored notifications (or stores and shows the defaults), computes the weekly minutes, expands note 1, and opens no detail |
| Settings.FirstVisitShowsGoal | pages/Settings.tsx:128-148 | on a first visit the first default note, the goal card, is expanded |
| Admin.DefaultsNumbered | pages/Admin.tsx:24-65 | there are four defaults with ids 1..4, all distinct and all visible |
| Admin.LoadNotifications | pages/Admin.tsx:87-95 | stored items are shown as stored; when storage is empty the defaults are shown and stored |
| Admin.ToggleVisibility | pages/Admin.tsx:102-105 | the list keeps its length and every item keeps its id |
| Admin.ToggleVisibilityFlips | pages/Admin.tsx:102-105 | the matching items flip `isVisible` with nothing else changed, other items are unchanged, and applying it twice restores the list |
| Admin.DeleteByIdRemoves | pages/Admin.tsx:113 | an item survives iff its id differs, and relative order is kept |
| Admin.ConfirmDelete | pages/Admin.tsx:111-117 | the pending id is cleared; with an id every item with it is removed, with none the list is unchanged |
| Admin.Update | pages/Admin.tsx:225 | an update keeps the list length |
| Admin.UpdateOverwrites | pages/Admin.tsx:225 | every id and position is kept; the matching items take all the form's fields, and every other item is unchanged |
| Admin.EditThenSaveUnchanged | pages/Admin.tsx:119-226 | saving an item's own form unchanged leaves the list as it was |
| Admin.MaxId | pages/Admin.tsx:229 | `max(0, ...ids)` is non-negative, at least every id, and is 0 or one of the ids |
| Admin.NextId | pages/Admin.tsx:229 | the new id is at least 1 and strictly greater than every existing id |
| Admin.Create | pages/Admin.tsx:229-234 | the item is appended at the end with the new id and the form's fields, and the earlier items are unchanged |
| Admin.CreateKeepsIdsUnique | pages/Admin.tsx:229-234 | with distinct ids before, ids stay distinct after a create |
| Admin.Submit | pages/Admin.tsx:223-235 | a truthy editing id updates that item; a null or 0 id creates a new one |
| Admin.CleanResponseHasNoFence | pages/Admin.tsx:180 | the cleaned text contains no "```" |
| Admin.CleanResponseOfPlainText | pages/Admin.tsx:180 | text without a backquote is only trimmed |
| Admin.DeleteAllWithoutBackquote | pages/Admin.tsx:180 | the fence deletions leave text without a backquote unchanged |
| Admin.LinkOrderMembers | pages/Admin.tsx:186-192 | a URI is listed iff some chunk with both a uri and a title has it |
| Admin.LinkOrderDistinct | pages/Admin.tsx:187-192 | each URI is listed once, in first-seen order |
| Admin.LinkTitlesLast | pages/Admin.tsx:190 | a URI's title is that of the last valid chunk with that URI |
| Admin.SourcesTextEmpty | pages/Admin.tsx:185-200 | the Sources text is empty iff no chunk has both a uri and a title |
| Admin.BuildSourceText | pages/Admin.tsx:185-200 | the loop builds the header and one "• title: uri" line per distinct URI |
| Admin.FillDraftDefaults | pages/Admin.tsx:202-210 | missing fields default to 'Health Tip', 'Daily health insight', 'info' and 'slate'; content is kept; detail is the generated detail followed by the Sources text; `isVisible` is true |
| Admin.GeneratedDraftShape | pages/Admin.tsx:176-211 | unparseable output leaves the form unchanged; parseable output replaces it with the filled draft |
| Admin.GenerateForm | pages/Admin.tsx:176-210 | the method computes the generated draft |
| Admin.AdminPage.constructor | pages/Admin.tsx:68-95 | the page starts with the loaded list, in sync with storage, with nothing being edited or deleted and the form closed |
| Admin.AdminPage.Save | pages/Admin.tsx:97-100 | the shown list and storage both become the new items |
| Admin.AdminPage.ToggleVisibilityOf | pages/Admin.tsx:102-105 | the list becomes the toggled list and is stored |
| Admin.AdminPage.DeleteClick | pages/Admin.tsx:107-109 | the pending delete id is set and nothing else changes |
| Admin.AdminPage.CancelDelete | pages/Admin.tsx:269 | the pending delete id is cleared and nothing else changes |
| Admin.AdminPage.ConfirmDeletion | pages/Admin.tsx:111-117 | with a pending id the items are removed and stored; with none nothing changes; the pending id ends up null |
| Admin.AdminPage.Edit | pages/Admin.tsx:119-131 | the editing id and the form come from the item and the form opens |
| Admin.AdminPage.StartCreate | pages/Admin.tsx:133-145 | nothing is being edited, the form is blank with icon 'info' and style 'slate', and it opens |
| Admin.AdminPage.Generate | pages/Admin.tsx:176-211 | the form becomes the generated draft |
| Admin.AdminPage.SubmitForm | pages/Admin.tsx:220-237 | the list becomes the submitted list, it is stored, and the form closes |
| Medication.FindEntry | pages/Medication.tsx:230 | `findIndex` finds the first entry for that medication and day, and finds none iff none is logged |
| Medication.ToggleTakenAppends | pages/Medication.tsx:237-245 | with no log for today, exactly one (medId, today) entry is appended at the end |
| Medication.ToggleTakenRemovesFirst | pages/Medication.tsx:233-236 | otherwise only the first matching entry is removed, and the rest keep their order |
| Medication.ToggleTakenTwice | pages/Medication.tsx:230-245 | toggling twice on the same day from "not taken" restores the log list |
| Medication.NewLogs | pages/Medication.tsx:258-270 | at most one new entry per medication |
| Medication.CollectNewLogs | pages/Medication.tsx:258-270 | the `forEach` loop collects exactly the specified new entries |
| Medication.EntriesFor | pages/Medication.tsx:264-268 | one (id, today, now) entry per medication, in order |
| Medication.NewLogsAreUntaken | pages/Medication.tsx:260-270 | the new entries are exactly one per previously-untaken medication, in medication order |
| Medication.NewLogsCover | pages/Medication.tsx:260-273 | after appending them every medication has a log for today |
| Medication.NewLogsNone | pages/Medication.tsx:272-277 | when everything is taken no entry is added |
| Medication.TakeAllEffect | pages/Medication.tsx:253-279 | the old logs are an unchanged prefix, the appended entries are those of the untaken medications, every medication ends up taken, and a second "take all" changes nothing |
| Medication.ProgressFacts | pages/Medication.tsx:284-290 | taken doses are at most the total; the percent is in [0,100], 0 when nothing is taken and 100 when everything is; untaken medications exist iff the list is non-empty and taken < total |
| Medication.TakeAllCompletes | pages/Medication.tsx:253-290 | "take all" adds one entry per untaken dose and leaves nothing untaken |
| Medication.DeleteMedicationEffect | pages/Medication.tsx:179-190 | every medication with that id and every log with that `medId` is removed, all others stay, and relative order is kept |
| Medication.ReminderSetting | pages/Medication.tsx:132-139 | the reminder stays on iff it was requested and permission is granted |
| Medication.SavedMedsEffect | pages/Medication.tsx:141-168 | editing replaces name, dosage, time, reminder and icon of the matching id only, keeping ids and length; creating appends a medication whose id is the clock's text; a denied permission turns every changed or new reminder off |
| Medication.FormOf | pages/Medication.tsx:118-127 | the edit form copies the medication, with the icon defaulting to 'medication' |
| Medication.EditUnchangedKeepsList | pages/Medication.tsx:118-156 | saving a medication's unchanged form with permission granted leaves the list as it was |
| Medication.InsertByNewest | pages/Medication.tsx:474 | insertion keeps the list sorted newest first and adds exactly the one entry |
| Medication.SortByNewest | pages/Medication.tsx:474 | the sorted list is newest first and is a permutation of its input |
| Medication.HistoryShape | pages/Medication.tsx:472-475 | the history has min(10, tracked) entries, all for that medication and sorted newest first, and none left out is newer than one kept |
| Medication.Pad2Injective | pages/Medication.tsx:61-62 | `padStart(2, '0')` gives two characters and distinct values distinct texts |
| Medication.ClockTextInjective | pages/Medication.tsx:61-63 | distinct hour:minute pairs have distinct clock texts |
| Medication.CheckMarksDue | pages/Medication.tsx:66-82 | every due medication's marker becomes today plus the time; markers of other ids are kept; no other marker appears; earlier notifications are kept |
| Medication.CheckTwiceSilent | pages/Medication.tsx:72 | a second check in the same minute sends nothing and changes nothing |
| Medication.CheckAlreadyMarked | pages/Medication.tsx:72 | when every due medication is already marked, the check changes nothing |
| Medication.CheckMarksIgnorePermission | pages/Medication.tsx:73-79 | markers are written whether or not permission is granted, and without permission nothing is sent |
| Medication.CheckSendsDue | pages/Medication.tsx:66-78 | with permission granted, a due medication whose marker does not already hold this minute's stamp, and which no earlier due medication shares an id with, has its reminder shown |
| Medication.CheckSendsOnlyDue | pages/Medication.tsx:67-78 | every notification sent is the reminder text of a due medication |
| Medication.MedicationTracker.constructor | pages/Medication.tsx:33-53 | stored medications and logs are loaded when present, otherwise empty, with the blank form closed |
| Medication.MedicationTracker.OpenAddModal | pages/Medication.tsx:108-116 | nothing is being edited, the form is blank with time '08:00', reminder on and icon 'medication', and the modal opens |
| Medication.MedicationTracker.OpenEditModal | pages/Medication.tsx:118-127 | the editing id and form come from the medication and the modal opens |
| Medication.MedicationTracker.SaveMedication | pages/Medication.tsx:129-177 | with an empty name or time nothing changes; otherwise the list becomes the saved list, it is stored, and the form is reset and closed |
| Medication.MedicationTracker.DeleteMed | pages/Medication.tsx:179-190 | the medications and logs become the filtered ones, and both are stored |
| Medication.MedicationTracker.ToggleTaken | pages/Medication.tsx:225-251 | the logs become the toggled logs, and they are stored |
| Medication.MedicationTracker.TakeAll | pages/Medication.tsx:253-279 | the logs become the "take all" logs; storage is written only when something was added |
| Medication.MedicationTracker.ToggleHistory | pages/Medication.tsx:486 | the history opens for that medication, or closes if it was the open one |
| Medication.MedicationTracker.CheckReminders | pages/Medication.tsx:56-86 | without the Notification API nothing happens; otherwise the loop's notifications and markers are those of the reminder check at the current hh:mm |
| Voice.ThresholdRaisedIff | components/LiveVoiceAssistant.tsx:179-180 | the threshold is 5 × `VAD_THRESHOLD` iff any reply buffer is playing, and `VAD_THRESHOLD` otherwise |
| Voice.ZeroFrame | components/LiveVoiceAssistant.tsx:184 | every sample of the frame becomes 0 |
| Voice.VoiceSession.Gate | components/LiveVoiceAssistant.tsx:174-187 | the volume is the RMS; below the threshold the frame becomes all zeros and talking is false, otherwise the frame is unchanged and talking is true |
| Voice.StartTime | components/LiveVoiceAssistant.tsx:274-281 | the start is at or after both the clock and `nextStart` |
| Voice.Duration | components/LiveVoiceAssistant.tsx:261-267 | a reply's duration is its 16-bit sample count over 24000 Hz, never negative |
| Voice.SchedulesDoNotOverlap | components/LiveVoiceAssistant.tsx:276-283 | a buffer scheduled after another without a reset starts no earlier than the other ends; it starts exactly there while the queue is ahead of the clock, and one lookahead after the clock when the queue has fallen behind |
| Voice.IdleQueueWaitsLookahead | components/LiveVoiceAssistant.tsx:276-278 | after a reset the next buffer starts 0.15 s after the clock |
| Voice.VoiceSession.Schedule | components/LiveVoiceAssistant.tsx:274-285 | the buffer starts at the scheduled start, which is at or after the clock; `nextStart` becomes start + duration; a new buffer joins the playing set |
| Voice.VoiceSession.OnEnded | components/LiveVoiceAssistant.tsx:286-291 | that buffer leaves the set, and `nextStart` is reset to 0 exactly when the set becomes empty |
| Voice.VoiceSession.Interrupt | components/LiveVoiceAssistant.tsx:297-303 | every playing buffer is stopped, the set is emptied and `nextStart` becomes 0 |
| Voice.DispatchCalls | components/LiveVoiceAssistant.tsx:215-234 | the loop's navigations and responses are the specified ones, in call order |
| Voice.DispatchOneEach | components/LiveVoiceAssistant.tsx:216-231 | each `navigate` call with a non-empty page yields exactly one navigation to that page, and one response with its id, its name and "Navigated to `<page>`"; other calls yield nothing |
| Voice.WebSources | components/LiveVoiceAssistant.tsx:239-244 | only chunks with a web entry contribute |
| Voice.MergeSources | components/LiveVoiceAssistant.tsx:246-251 | the previous sources are an unchanged prefix |
| Voice.MergeSourcesEffect | components/LiveVoiceAssistant.tsx:237-253 | an appended entry is exactly a web source whose URI was not already listed |
| Voice.MergeAllNew | components/LiveVoiceAssistant.tsx:248-250 | when no URI is already listed every web source is appended, in order |
| Voice.MergeKeepsBatchRepeats | components/LiveVoiceAssistant.tsx:246-251 | duplicates within one batch are not removed: a source whose URI was not listed is appended as many times as the batch carries it, and one whose URI was listed not at all |
| Voice.MergeKeepsBatchRepeatsPair | components/LiveVoiceAssistant.tsx:248-249 | a batch naming the same new page twice lists it twice |
| Voice.StatusLabel | components/LiveVoiceAssistant.tsx:351 | the caption is 'Calibrating...', 'Error', or 'Listening Carefully' / 'Listening...' by status and talking |
| Voice.VoiceSession.constructor | components/LiveVoiceAssistant.tsx:72-87 | the session starts connecting, silent, with no sources and an empty, reset player |
| Voice.VoiceSession.OnOpen | components/LiveVoiceAssistant.tsx:152-210 | the session becomes connected, or fails with "Could not access microphone." |
| Voice.VoiceSession.OnError | components/LiveVoiceAssistant.tsx:305-309 | the session fails with "Connection lost." |
| Voice.VoiceSession.OnStartFailure | components/LiveVoiceAssistant.tsx:316-320 | the session fails with "Failed to start session." |
| Voice.VoiceSession.OnMessage | components/LiveVoiceAssistant.tsx:211-304 | tool calls, then sources, are handled whatever the output context; audio is scheduled only with an output context and a decodable reply; an interruption applies after the audio, so the buffer just scheduled is stopped as well |
| JsMath.Round | pages/Settings.tsx:134 | `Math.round(n/d)` is the integer whose half-open interval around it contains n/d, rounding halves up |
| JsMath.RoundBetween | pages/Dashboard.tsx:300 | rounding a quotient between lo and hi stays between lo and hi |
| JsMath.PercentOfShare | pages/Medication.tsx:286 | the percent of a share is in [0,100], 0 for none and 100 for all |
| JsDate.DaysInMonthRange | pages/Activity.tsx:127 | month lengths are 28..31, February is 29 iff leap, and other months are at least 30 |
| JsDate.CivilRoundTrip | pages/Activity.tsx:127-131 | a valid civil date round-trips through its day number |
| JsDate.CivilInjective | pages/Activity.tsx:161 | equal calendar dates are equal day numbers |
| JsDate.Weekday | pages/Activity.tsx:131 | `getDay()` is in 0..6 |
| JsDate.DayZeroOfNextMonth | pages/Activity.tsx:127 | `new Date(y, m + 1, 0)` is the last day of month m |
| JsDate.SetDateShifts | pages/Dashboard.tsx:61-63 | `setDate(k)` moves k − (current date) days |
| JsDate.FullYearFixes | pages/Activity.tsx:127 | `new Date` moves only years 0..99, each by 1900 into 1900..1999, and a moved year is not moved again |
| JsString.NatToString | pages/Settings.tsx:194-196 | `toString` of a natural number is non-empty, all digits, with no leading zero |
| JsString.ParseIntOfString | pages/Dashboard.tsx:78 | `parseInt` of an integer's text gives the integer back |
| JsString.TrimIsSlice | pages/Admin.tsx:180 | `trim` yields a contiguous slice of its input |
| JsString.ReplaceFirst | pages/Settings.tsx:194-198 | `replace` with a string pattern rewrites the first occurrence only, and leaves text without one unchanged |
| JsString.NoFenceAfterDelete | pages/Admin.tsx:180 | after deleting every "```" none remains, even where deletion joins backquotes |
| Sequences.FilterMembers | pages/Settings.tsx:232 | `filter` keeps exactly the elements satisfying the predicate |
| Sequences.FilterAppend | pages/Medication.tsx:181 | `filter` distributes over concatenation, so relative order is kept |
| Sequences.FilterCount | components/LiveVoiceAssistant.tsx:248-249 | `filter` keeps every occurrence of an element that satisfies the predicate and none of one that fails it |
| Sequences.FilterPartition | pages/Medication.tsx:285-290 | the elements kept and the elements dropped add up to the whole list |

## Left out

- Rendering: all JSX, CSS except the style classes the message centre picks, the SVG
  progress rings (their geometry uses `Math.PI`), and modals, alerts and `confirm`.
- `localStorage` itself: storage is modelled as in-memory `Option` fields. The per-user
  key names (`activities_<name>`, `medications_<name>`, `med_logs_<name>`) and the
  `userName` fallbacks are not modelled.
- The network and the generative models: `GoogleGenAI` calls, the live session's
  connection, and `JSON.parse` of generated text. The parsed tip is an optional input,
  and its failure is the `None` case.
- Browser media: `getUserMedia`, the AudioContext and ScriptProcessor wiring, session
  teardown, base64 and PCM conversion, and the RMS square root. The RMS, the clock and
  the decoded reply's byte count are inputs.
- Timers: the `setInterval` loops (reminder check every 2 s, tip rotation every 10 s)
  are modelled as one tick of each.
- Asynchrony: the `mounted` guard and the ordering of `sessionPromise.then`. Callbacks
  are sequential method calls, and the tool responses sent are recorded in issue order.
- The Notification API and the permission request. The permission is an input;
  `requestNotificationPermission`'s prompt is not modelled.
- Locale-dependent dates: `toLocaleDateString`, `toLocaleTimeString`, `toDateString`
  and `getFriendlyDate`. A date label or day string is an input, and date-string
  parsing is a parameter.
- Floating point: `Math.round` is exact rational rounding with halves up. Playback
  times are Dafny `real`s.
- Dashboard.Chart: the bar heights round the exact ratio, while the source computes
  `(value / maxValue) * 100` in floating point first, so they can differ by one at an
  exact half (value 29 with `maxValue` 200: the model gives 15, the source 14). The
  medication percent, `(taken / total) * 100`, is computed the same way and can differ
  likewise; the goal percent is never a half and agrees.
- JsString.IsSpace: the whitespace `trim` and `parseInt` skip is ASCII space, tab,
  line feed, vertical tab, form feed, carriage return, no-break space and the byte-order
  mark; the other Unicode space separators and U+2028/U+2029 are not included.
- Time zones and daylight-saving time: every day has 1440 local minutes. On a day when
  the clocks change, the Monday 00:00 start of the week, the chart's day buckets and the
  calendar's day placement can differ from the browser's by the size of the shift.
- The range of `Date`: instants beyond ±8.64e15 ms, which JavaScript turns into the
  invalid date, are not modelled; every day number is a valid date.
- ActivityLog.PrevAfterNext: stated only for viewed years outside -1..100. For those
  years a step can reach a year 0..99, which `new Date` reads as 1900..1999, so the
  round trip does not hold; ActivityLog.PrevAfterNextTwoDigitYear shows one such case.
- `sortedMeds` (Medication.tsx 281): `localeCompare` ordering of time strings is not
  modelled. Lists are shown in stored order.
- `MedLog.takenAt` is the clock in milliseconds, not its ISO text. Sorting by
  `new Date(takenAt)` is therefore a sort by that number.
- Medication.History: the relative order of entries with equal `takenAt` is not stated.
  JavaScript's sort is stable, and the model's insertion sort keeps equal entries in
  their input order, but no lemma says so.
- Voice.VoiceSession.OnMessage: `if (!outputContextRef.current) return` (line 255) is
  modelled by a flag fixed when the session is created. The model never clears it,
  whereas the component's context disappears only at teardown.
- Voice.VoiceSession.OnOpen: the early return when the input context is missing
  (line 165) is not modelled, because it leaves the state as "connected" either way.
- The `onclose` callback, which only logs.
- Pages with nothing to model: Education (static content and `Math.random`), ChatBot
  (a network chat), Onboarding and the routing glue (App.tsx, Layout.tsx).

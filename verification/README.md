# MedTracker in Dafny

A model of the logic of MedTracker, an Android medication log with reminders and home-screen
widgets. The repository holds two generations of the application: a newer package and an older one.
This project models, in Dafny, the parts of both that compute something:

- **The reminder scheduler** (newer package). It computes the next fire time of a reminder for the
  three recurrence rules: daily, every other day, and specific weekdays given as a bit mask.
  It then registers that time with the alarm service, or skips the sentinel `Long.MAX_VALUE`.
  The method `ComputeNextAlarmTime` follows the source's calendar steps. It is proved equal to the
  function `NextAlarmTime`, and lemmas about that function state what the next time is. For
  example, for specific weekdays it is the first slot at hour:minute after now on a selected
  weekday, at most seven days ahead.
- **The reminder dialog** (newer package). Weekday chips toggle mask bits, and the Save button is
  enabled unless "specific days" has no day chosen. The confirmed result is what the dialog hands
  back.
- **The history list** (older package). Its view model pages the logs ten at a time. The relative
  time texts (`formatTimeAgo`, `formatDateTime`, `formatDate`) are modelled by the form they choose.
- **The widgets** (both packages). Each placed widget holds a preference map. Three passes change
  these maps: pushing a dose, pushing a name/dosage edit, and removing the widgets of a deleted
  medication. The refresh before each render, the pin broadcast, what the widget shows and what a
  tap opens are modelled too.

Time is integer epoch milliseconds. The local zone is a fixed offset `zone` with no daylight-saving
changes. Weekdays use the `java.util.Calendar` numbering, SUNDAY = 1 .. SATURDAY = 7. "Now" is a
parameter. Database answers are parameters too: the medications by id, the newest log of each
medication, and the enabled reminders. Kotlin `Long` division truncates toward zero and `toInt()`
wraps modulo 2^32; both are written out in `Jvm`.

Modules:
- one per core source file: `MedicationReminder`, `ReminderScheduler`, `ReminderDialog`, `HistoryViewModel`,
  `TimeUtils`, `MedTrackerWidget` (newer widget) and `LegacyMedTrackerWidget` (older widget);
- `WidgetUpdater`, which covers the `WidgetUpdater.kt` files of both packages: their `pushLastTaken` have the
  same body, and both are modelled by `WidgetUpdater.PushLastTaken`;
- shared modules: `Wrappers` (Option), `Jvm` (integer conversions, decimal text), `LocalCalendar` (the
  calendar fields read), `Entities` (the log and medication rows), and `WidgetState` (the widget keys and the
  widget host).

Two points of the scheduler's behaviour, as the code has it:

- EVERY_OTHER_DAY parity is taken over elapsed milliseconds, divided by a day with truncation and then
  narrowed to `Int` (ReminderScheduler.kt lines 41-42), not over calendar days. The parity property is
  proved for that reading, for every creation time, including one in the future.
- DAILY gives a time strictly after now: the code moves to tomorrow when today's slot is before or equal
  to now (ReminderScheduler.kt line 29).

## Model

| member | source | states |
|---|---|---|
| Jvm.ToIntWraps | app/src/main/java/com/maxvonamos/medtracker/app/notification/ReminderScheduler.kt:41 | `toInt()` gives a value in the 32-bit range that differs from its argument by a multiple of 2^32, and is the identity on that range |
| Jvm.QuotTruncates | app/src/main/java/com/maxvonamos/medtracker/app/notification/ReminderScheduler.kt:41 | `Long` division truncates toward zero: quotient bounds for either sign, a == q*b + r, and the remainder takes the sign of the dividend |
| Jvm.RemTwoIsParity | app/src/main/java/com/maxvonamos/medtracker/app/notification/ReminderScheduler.kt:42 | `x % 2 != 0` holds exactly for odd x, negative ones included |
| Jvm.ToIntKeepsParity | app/src/main/java/com/maxvonamos/medtracker/app/notification/ReminderScheduler.kt:41-42 | narrowing to `Int` keeps a number's parity |
| Jvm.ParseLongOfLongToString | app/src/main/java/com/medtracker/app/widget/MedTrackerWidget.kt:213 | the decimal text a `Long` is interpolated as parses back to the same number |
| LocalCalendar.DayOfWeek | app/src/main/java/com/maxvonamos/medtracker/app/notification/ReminderScheduler.kt:51 | `DAY_OF_WEEK` is always one of SUNDAY..SATURDAY |
| LocalCalendar.SetClockIsOnTheDay | app/src/main/java/com/maxvonamos/medtracker/app/notification/ReminderScheduler.kt:19-24 | setting a valid hour and minute (seconds and millis 0) stays on the same local day, at exactly that clock time |
| LocalCalendar.ShiftDays | app/src/main/java/com/maxvonamos/medtracker/app/notification/ReminderScheduler.kt:30 | `add(DAY_OF_MONTH, k)` moves the local day by k and keeps the clock time |
| LocalCalendar.DayOfWeekAfter | app/src/main/java/com/maxvonamos/medtracker/app/notification/ReminderScheduler.kt:56-63 | k days later the weekday has advanced by k, cyclically |
| LocalCalendar.EveryWeekdayWithinAWeek | app/src/main/java/com/maxvonamos/medtracker/app/notification/ReminderScheduler.kt:59-64 | seven consecutive days meet every weekday, at a known offset |
| LocalCalendar.ClockTimeOnceADay | app/src/main/java/com/maxvonamos/medtracker/app/notification/ReminderScheduler.kt:29 | no instant in the day before t has the clock time of t |
| MedicationReminder.DayBitsArePowersOfTwo | app/src/main/java/com/maxvonamos/medtracker/app/data/entity/MedicationReminder.kt:35-42 | the weekday bits are 2^0..2^6, pairwise disjoint, and together make 127 |
| MedicationReminder.NoBitIsNeverEnabled | app/src/main/java/com/maxvonamos/medtracker/app/data/entity/MedicationReminder.kt:45 | `isDayEnabled(0)` is false for every mask |
| MedicationReminder.EmptyMaskEnablesNothing | app/src/main/java/com/maxvonamos/medtracker/app/data/entity/MedicationReminder.kt:45 | a zero mask enables no bit |
| MedicationReminder.IntervalTypesDistinct | app/src/main/java/com/maxvonamos/medtracker/app/data/entity/MedicationReminder.kt:31-33 | the three interval-type strings are distinct |
| MedicationReminder.Reminder.IsDayEnabled | app/src/main/java/com/maxvonamos/medtracker/app/data/entity/MedicationReminder.kt:45 | an enabled bit is a non-zero bit of a non-zero mask |
| ReminderScheduler.DayBit | app/src/main/java/com/maxvonamos/medtracker/app/notification/ReminderScheduler.kt:78-87 | a weekday maps to one of the seven day bits; any other number maps to 0 |
| ReminderScheduler.IsDaySelected | app/src/main/java/com/maxvonamos/medtracker/app/notification/ReminderScheduler.kt:77-89 | only a weekday 1..7 can be selected, and an empty mask selects none |
| ReminderScheduler.DaySelectedIsMaskBit | app/src/main/java/com/maxvonamos/medtracker/app/notification/ReminderScheduler.kt:77-89 | day d is selected iff d is in 1..7 and bit d-1 of the mask is set |
| ReminderScheduler.SomeWeekdaySelected | app/src/main/java/com/maxvonamos/medtracker/app/notification/ReminderScheduler.kt:77-89 | a mask with a weekday bit set selects some weekday |
| ReminderScheduler.NoWeekdayBitSelectsNothing | app/src/main/java/com/maxvonamos/medtracker/app/notification/ReminderScheduler.kt:77-89 | a mask with none of the seven bits selects no day, whatever higher bits it has |
| ReminderScheduler.DailyAlarm | app/src/main/java/com/maxvonamos/medtracker/app/notification/ReminderScheduler.kt:27-33 | for a valid hour and minute, DAILY fires after now, at most a day ahead, at the reminder's clock time |
| ReminderScheduler.EveryOtherDayAlarm | app/src/main/java/com/maxvonamos/medtracker/app/notification/ReminderScheduler.kt:34-46 | for a valid hour and minute, EVERY_OTHER_DAY fires after now, at most two days ahead, at the reminder's clock time |
| ReminderScheduler.FirstSelectedDay | app/src/main/java/com/maxvonamos/medtracker/app/notification/ReminderScheduler.kt:59-65 | a day the scan finds has a selected weekday, lies within the scanned days, and keeps the clock time the scan started at |
| ReminderScheduler.SpecificDaysAlarm | app/src/main/java/com/maxvonamos/medtracker/app/notification/ReminderScheduler.kt:47-66 | SPECIFIC_DAYS fires only on a selected weekday; for a valid hour and minute, after now at the reminder's clock time |
| ReminderScheduler.NextAlarmTime | app/src/main/java/com/maxvonamos/medtracker/app/notification/ReminderScheduler.kt:26-74 | for a valid hour and minute every type but SPECIFIC_DAYS fires within two days after now; any time found is after now at the clock time; SPECIFIC_DAYS fires only on a selected weekday |
| ReminderScheduler.DailyAlarmIsNextSlot | app/src/main/java/com/maxvonamos/medtracker/app/notification/ReminderScheduler.kt:27-33 | DAILY fires at the first instant strictly after now with the reminder's clock time, at most one day ahead |
| ReminderScheduler.UnrecognisedTypeIsDaily | app/src/main/java/com/maxvonamos/medtracker/app/notification/ReminderScheduler.kt:67-73 | an unknown interval type gives the DAILY result |
| ReminderScheduler.QuotNextDay | app/src/main/java/com/maxvonamos/medtracker/app/notification/ReminderScheduler.kt:41-43 | one day later, a non-zero truncated day count grows by one |
| ReminderScheduler.EveryOtherDayKeepsEvenDistance | app/src/main/java/com/maxvonamos/medtracker/app/notification/ReminderScheduler.kt:34-46 | EVERY_OTHER_DAY gives the daily candidate or the day after, and the truncated whole days since creation are even |
| ReminderScheduler.EveryOtherDayIsASlot | app/src/main/java/com/maxvonamos/medtracker/app/notification/ReminderScheduler.kt:34-46 | EVERY_OTHER_DAY fires after now, at the reminder's clock time, at most two days ahead |
| ReminderScheduler.FirstSelectedDayNone | app/src/main/java/com/maxvonamos/medtracker/app/notification/ReminderScheduler.kt:59-65 | the seven-day scan returns `Long.MAX_VALUE` when no weekday is selected |
| ReminderScheduler.FirstSelectedDayIsEarliest | app/src/main/java/com/maxvonamos/medtracker/app/notification/ReminderScheduler.kt:59-64 | the scan returns a selected day no later than any selected day it covers, and skips no selected slot |
| ReminderScheduler.EmptyMaskNeverFires | app/src/main/java/com/maxvonamos/medtracker/app/notification/ReminderScheduler.kt:48 | SPECIFIC_DAYS with mask 0 gives `Long.MAX_VALUE` |
| ReminderScheduler.NoWeekdayBitNeverFires | app/src/main/java/com/maxvonamos/medtracker/app/notification/ReminderScheduler.kt:47-66 | SPECIFIC_DAYS with no weekday bit but other bits set also gives `Long.MAX_VALUE`, through the scan |
| ReminderScheduler.TodayIsFirstSelectedSlot | app/src/main/java/com/maxvonamos/medtracker/app/notification/ReminderScheduler.kt:50-53 | today's slot, when still ahead and on a selected day, is the first selected slot |
| ReminderScheduler.ScanFromTomorrow | app/src/main/java/com/maxvonamos/medtracker/app/notification/ReminderScheduler.kt:55-64 | the scan from tomorrow finds the first selected slot after today's slot, between one and seven days later |
| ReminderScheduler.ScanFindsFirstSelectedSlot | app/src/main/java/com/maxvonamos/medtracker/app/notification/ReminderScheduler.kt:55-65 | when today's slot is not taken, the scan's result is the first selected slot after now and within seven days |
| ReminderScheduler.SpecificDaysFiresOnFirstSelectedDay | app/src/main/java/com/maxvonamos/medtracker/app/notification/ReminderScheduler.kt:47-66 | SPECIFIC_DAYS with a weekday selected fires at the first slot after now on a selected weekday, at most seven days ahead |
| ReminderScheduler.SearchNextSevenDays | app/src/main/java/com/maxvonamos/medtracker/app/notification/ReminderScheduler.kt:59-65 | the loop with early return computes the scan function |
| ReminderScheduler.ComputeNextAlarmTime | app/src/main/java/com/maxvonamos/medtracker/app/notification/ReminderScheduler.kt:17-75 | the calendar steps compute `NextAlarmTime` for every interval type |
| ReminderScheduler.ScheduleAlarm | app/src/main/java/com/maxvonamos/medtracker/app/notification/ReminderScheduler.kt:94-130 | the alarm goes under the request code `id.toInt()`, replacing any alarm with that code; nothing is registered for the sentinel |
| ReminderScheduler.RescheduleAllAlarms | app/src/main/java/com/maxvonamos/medtracker/app/notification/ReminderScheduler.kt:150-155 | the loop schedules each reminder in order |
| ReminderScheduler.AfterCancelling | app/src/main/java/com/maxvonamos/medtracker/app/notification/ReminderScheduler.kt:135-145 | cancelling removes exactly the request code `reminderId.toInt()` |
| ReminderScheduler.CancelAlarm | app/src/main/java/com/maxvonamos/medtracker/app/notification/ReminderScheduler.kt:135-145 | the pending alarms lose the entry of that request code |
| ReminderScheduler.CancelUndoesSchedule | app/src/main/java/com/maxvonamos/medtracker/app/notification/ReminderScheduler.kt:94-145 | cancelling a reminder scheduled from a table without its code restores the table |
| ReminderScheduler.SentinelRegistersNothing | app/src/main/java/com/maxvonamos/medtracker/app/notification/ReminderScheduler.kt:96 | a sentinel time leaves the pending alarms unchanged |
| ReminderScheduler.RescheduledCodes | app/src/main/java/com/maxvonamos/medtracker/app/notification/ReminderScheduler.kt:150-155 | rescheduling adds exactly the codes of reminders that have a next time |
| ReminderScheduler.RescheduledEntry | app/src/main/java/com/maxvonamos/medtracker/app/notification/ReminderScheduler.kt:150-155 | a reminder whose code no later reminder reuses ends with its own next time registered |
| ReminderScheduler.SelectedWeekdayIsRegistered | app/src/main/java/com/maxvonamos/medtracker/app/notification/ReminderScheduler.kt:94-96 | a SPECIFIC_DAYS reminder with a weekday selected and a valid hour and minute is always registered |
| ReminderDialog.ToggleFlipsItsBit | app/src/main/java/com/maxvonamos/medtracker/app/ui/screens/addmedication/ReminderDialog.kt:126-131 | a chip click is an exclusive or with its bit: the chip's selection flips |
| ReminderDialog.ToggleKeepsOtherBits | app/src/main/java/com/maxvonamos/medtracker/app/ui/screens/addmedication/ReminderDialog.kt:126-131 | a chip click leaves every other bit as it was |
| ReminderDialog.ToggleTwiceRestores | app/src/main/java/com/maxvonamos/medtracker/app/ui/screens/addmedication/ReminderDialog.kt:126-131 | clicking a chip twice restores the mask |
| ReminderDialog.ToggleDay | app/src/main/java/com/maxvonamos/medtracker/app/ui/screens/addmedication/ReminderDialog.kt:126-131 | a click selects the chip exactly when it was not selected (the other bits: `ToggleKeepsOtherBits`) |
| ReminderDialog.WithinWeekIsRange | app/src/main/java/com/maxvonamos/medtracker/app/ui/screens/addmedication/ReminderDialog.kt:63-71 | a mask of weekday bits only is a value in 0..127 |
| ReminderDialog.ToggleStaysWithinWeek | app/src/main/java/com/maxvonamos/medtracker/app/ui/screens/addmedication/ReminderDialog.kt:122-131 | one click keeps a mask within the seven weekday bits |
| ReminderDialog.ClicksStayWithinWeek | app/src/main/java/com/maxvonamos/medtracker/app/ui/screens/addmedication/ReminderDialog.kt:122-131 | any run of chip clicks keeps the mask within the weekday bits |
| ReminderDialog.Confirm | app/src/main/java/com/maxvonamos/medtracker/app/ui/screens/addmedication/ReminderDialog.kt:143-150 | the result carries the time and type; the mask only for SPECIFIC_DAYS, 0 otherwise |
| ReminderDialog.SaveEnabled | app/src/main/java/com/maxvonamos/medtracker/app/ui/screens/addmedication/ReminderDialog.kt:152 | every type but SPECIFIC_DAYS can be saved; SPECIFIC_DAYS only with a day chosen |
| ReminderDialog.SaveDisabledOnlyForNoDays | app/src/main/java/com/maxvonamos/medtracker/app/ui/screens/addmedication/ReminderDialog.kt:152 | Save is disabled iff the type is SPECIFIC_DAYS and the mask is 0 |
| ReminderDialog.ConfirmedSpecificDaysHasDays | app/src/main/java/com/maxvonamos/medtracker/app/ui/screens/addmedication/ReminderDialog.kt:143-152 | a confirmable SPECIFIC_DAYS result never carries an empty mask |
| ReminderDialog.ConfirmedSpecificDaysFires | app/src/main/java/com/maxvonamos/medtracker/app/ui/screens/addmedication/ReminderDialog.kt:143-152 | a confirmed chip choice at a valid time always gets an alarm within a week, on a selected day |
| ReminderDialog.ReminderDialogState.constructor | app/src/main/java/com/maxvonamos/medtracker/app/ui/screens/addmedication/ReminderDialog.kt:45-55 | the dialog opens with the given values, by default 08:00, DAILY, mask 0 |
| ReminderDialog.ReminderDialogState.SelectInterval | app/src/main/java/com/maxvonamos/medtracker/app/ui/screens/addmedication/ReminderDialog.kt:96-106 | a radio click sets the type and keeps the mask and time |
| ReminderDialog.ReminderDialogState.PickTime | app/src/main/java/com/maxvonamos/medtracker/app/ui/screens/addmedication/ReminderDialog.kt:50-53 | the time picker sets hour and minute only |
| ReminderDialog.ReminderDialogState.ClickDayChip | app/src/main/java/com/maxvonamos/medtracker/app/ui/screens/addmedication/ReminderDialog.kt:116-131 | a chip click toggles its bit, keeps the mask within the week, and changes nothing else |
| ReminderDialog.ReminderDialogState.Save | app/src/main/java/com/maxvonamos/medtracker/app/ui/screens/addmedication/ReminderDialog.kt:140-152 | Save, possible only while enabled, returns `Confirm` of the state, never an empty SPECIFIC_DAYS mask |
| HistoryViewModel.TotalPages | app/src/main/java/com/medtracker/app/ui/screens/history/HistoryViewModel.kt:55-57 | at least one page; one for no logs; otherwise the least page count holding all logs |
| HistoryViewModel.PageSlice | app/src/main/java/com/medtracker/app/ui/screens/history/HistoryViewModel.kt:62-67 | a page holds the logs from page*10, at most ten, and is empty exactly past the end |
| HistoryViewModel.PagesArePrefix | app/src/main/java/com/medtracker/app/ui/screens/history/HistoryViewModel.kt:62-67 | the first n pages concatenated are the corresponding prefix of the logs |
| HistoryViewModel.AllPagesAreAllLogs | app/src/main/java/com/medtracker/app/ui/screens/history/HistoryViewModel.kt:55-67 | all pages together are exactly the loaded logs, in order, with nothing lost or repeated |
| HistoryViewModel.PageInRangeIsFull | app/src/main/java/com/medtracker/app/ui/screens/history/HistoryViewModel.kt:55-67 | a page below the page count is empty only when there are no logs |
| HistoryViewModel.HistoryViewModel.constructor | app/src/main/java/com/medtracker/app/ui/screens/history/HistoryViewModel.kt:33-34 | medication 0, page 0, no logs |
| HistoryViewModel.HistoryViewModel.TotalCount | app/src/main/java/com/medtracker/app/ui/screens/history/HistoryViewModel.kt:51-53 | the count is the number of logs the pages hold together |
| HistoryViewModel.HistoryViewModel.Logs | app/src/main/java/com/medtracker/app/ui/screens/history/HistoryViewModel.kt:61-67 | at most ten logs, those from the current page's start in order; on a page in range, empty only when there are no logs |
| HistoryViewModel.HistoryViewModel.Load | app/src/main/java/com/medtracker/app/ui/screens/history/HistoryViewModel.kt:69-72 | load sets the medication and returns to page 0; the loaded logs stay as they were until the logs flow emits for the new id |
| HistoryViewModel.HistoryViewModel.LogsChanged | app/src/main/java/com/medtracker/app/ui/screens/history/HistoryViewModel.kt:44-49 | an emission of the logs flow for the current id (empty for ids of 0 or below) replaces the logs and leaves the page counter alone |
| HistoryViewModel.HistoryViewModel.NextPage | app/src/main/java/com/medtracker/app/ui/screens/history/HistoryViewModel.kt:74-79 | one page on unless on the last page; an in-range counter stays in range |
| HistoryViewModel.HistoryViewModel.PreviousPage | app/src/main/java/com/medtracker/app/ui/screens/history/HistoryViewModel.kt:81-85 | one page back unless on page 0; an in-range counter stays in range |
| TimeUtils.FormatTimeAgo | app/src/main/java/com/medtracker/app/ui/components/TimeUtils.kt:9-34 | the minute and hour counts are the truncated elapsed time, 1..59 and 1..23 |
| TimeUtils.TimeAgoText | app/src/main/java/com/medtracker/app/ui/components/TimeUtils.kt:13-25 | the minute and hour texts start with the count, which reads back as that number, and end in " ago" |
| TimeUtils.FutureIsJustNow | app/src/main/java/com/medtracker/app/ui/components/TimeUtils.kt:13-14 | less than a minute ago, and any future instant, reads "Just now" |
| TimeUtils.TimeAgoBucketIsItsInterval | app/src/main/java/com/medtracker/app/ui/components/TimeUtils.kt:13-33 | each form covers exactly its interval of elapsed time; the forms partition all differences |
| TimeUtils.TimeAgoBucketMonotone | app/src/main/java/com/medtracker/app/ui/components/TimeUtils.kt:13-33 | an older timestamp never gets an earlier form |
| TimeUtils.SingularUnitOnlyForOne | app/src/main/java/com/medtracker/app/ui/components/TimeUtils.kt:15-22 | "min"/"hr" without the plural s exactly for a count of one |
| TimeUtils.FormatDateTime | app/src/main/java/com/medtracker/app/ui/components/TimeUtils.kt:36-58 | every form formats the timestamp itself |
| TimeUtils.DateTimeAgreesWithTimeAgo | app/src/main/java/com/medtracker/app/ui/components/TimeUtils.kt:9-58 | from one day on both functions pick the same form; below a day one says "Today at" where the other counts |
| TimeUtils.FormatDate | app/src/main/java/com/medtracker/app/ui/components/TimeUtils.kt:60-82 | the weekday and full-date forms format the timestamp |
| TimeUtils.TodayIsTheSameCalendarDay | app/src/main/java/com/medtracker/app/ui/components/TimeUtils.kt:64-71 | "Today" is exactly the local day of now, within a day either side |
| TimeUtils.LaterDayIsLabelledYesterday | app/src/main/java/com/medtracker/app/ui/components/TimeUtils.kt:70-72 | a timestamp on a later day than now reads "Yesterday" |
| TimeUtils.DateAgreesWithDateTime | app/src/main/java/com/medtracker/app/ui/components/TimeUtils.kt:36-82 | off today, `formatDate` and `formatDateTime` choose weekday and full-date forms alike |
| WidgetState.LongPref | app/src/main/java/com/maxvonamos/medtracker/app/widget/MedTrackerWidget.kt:46-54 | a long key reads a value exactly when one of that type is stored |
| WidgetState.StringPref | app/src/main/java/com/maxvonamos/medtracker/app/widget/MedTrackerWidget.kt:46-54 | a string key reads a value exactly when one of that type is stored |
| WidgetState.UpdatePlaced | app/src/main/java/com/maxvonamos/medtracker/app/widget/WidgetUpdater.kt:35-43 | a pass writes every listed widget back and adds no other widget |
| WidgetState.UpdatePlacedStep | app/src/main/java/com/maxvonamos/medtracker/app/widget/WidgetUpdater.kt:35-43 | one more loop iteration updates one more widget and reads it as it was before the pass |
| WidgetUpdater.WithLastTaken | app/src/main/java/com/maxvonamos/medtracker/app/widget/WidgetUpdater.kt:36-42 | a widget on the medication gets the dose's time and amount and nothing else changes; other widgets are untouched |
| WidgetUpdater.WithMedicationUpdate | app/src/main/java/com/maxvonamos/medtracker/app/widget/WidgetUpdater.kt:59-65 | a widget on the medication gets the name and dosage; the nickname and every other key stay |
| WidgetUpdater.Cleared | app/src/main/java/com/maxvonamos/medtracker/app/widget/WidgetUpdater.kt:86-96 | a widget on the medication loses id, name, dosage, last time and amount, and keeps nickname and dose count; afterwards it never tracks the medication |
| WidgetUpdater.WithLastTakenIdempotent | app/src/main/java/com/medtracker/app/widget/WidgetUpdater.kt:28-34 | pushing the same dose twice equals pushing it once |
| WidgetUpdater.WithMedicationUpdateIdempotent | app/src/main/java/com/maxvonamos/medtracker/app/widget/WidgetUpdater.kt:58-66 | pushing the same edit twice equals pushing it once |
| WidgetUpdater.ClearedIdempotent | app/src/main/java/com/maxvonamos/medtracker/app/widget/WidgetUpdater.kt:84-97 | clearing twice equals clearing once |
| WidgetUpdater.PushesCommute | app/src/main/java/com/maxvonamos/medtracker/app/widget/WidgetUpdater.kt:31-71 | a dose push and an edit push commute |
| WidgetUpdater.RemovalsClearKeys | app/src/main/java/com/maxvonamos/medtracker/app/widget/WidgetUpdater.kt:90-94 | the five single-key removals together remove the five keys |
| WidgetUpdater.MatchedIds | app/src/main/java/com/maxvonamos/medtracker/app/widget/WidgetUpdater.kt:82-96 | the matched list holds exactly the listed widgets that track the medication |
| WidgetUpdater.MatchedIdsStep | app/src/main/java/com/maxvonamos/medtracker/app/widget/WidgetUpdater.kt:88-89 | an iteration appends the widget exactly when it matches |
| WidgetUpdater.LastTakenPushedEffect | app/src/main/java/com/medtracker/app/widget/WidgetUpdater.kt:27-35 | after the pass, each widget on the medication shows the dose and any other widget is as before |
| WidgetUpdater.NoWidgetTracksRemoved | app/src/main/java/com/maxvonamos/medtracker/app/widget/WidgetUpdater.kt:84-97 | after the deletion pass no widget tracks the medication |
| WidgetUpdater.MatchedAreCleared | app/src/main/java/com/maxvonamos/medtracker/app/widget/WidgetUpdater.kt:82-96 | the widgets reported are exactly the widgets cleared; the rest are unchanged |
| WidgetUpdater.PushLastTaken | app/src/main/java/com/maxvonamos/medtracker/app/widget/WidgetUpdater.kt:31-43 | the loop applies the dose push to every placed widget and adds or removes none |
| WidgetUpdater.PushMedicationUpdate | app/src/main/java/com/maxvonamos/medtracker/app/widget/WidgetUpdater.kt:54-66 | the loop applies the edit push to every placed widget and adds or removes none |
| WidgetUpdater.RemoveWidgetsForMedication | app/src/main/java/com/maxvonamos/medtracker/app/widget/WidgetUpdater.kt:77-97 | the loop clears every widget on the medication and returns them in launcher order |
| MedTrackerWidget.RefreshedPrefs | app/src/main/java/com/maxvonamos/medtracker/app/widget/MedTrackerWidget.kt:78-109 | an unbound widget is untouched; a deleted medication clears six keys and keeps the dose count; otherwise name, nickname and dosage come from the row and the last dose from the newest log or is removed |
| MedTrackerWidget.RefreshIdempotent | app/src/main/java/com/maxvonamos/medtracker/app/widget/MedTrackerWidget.kt:78-109 | refreshing twice against the same database equals refreshing once |
| MedTrackerWidget.PushedDoseAgreesWithRefresh | app/src/main/java/com/maxvonamos/medtracker/app/widget/MedTrackerWidget.kt:94-108 | a pushed dose that is the newest log is what the refresh writes: pushing first changes nothing |
| MedTrackerWidget.PushedEditAgreesWithRefresh | app/src/main/java/com/maxvonamos/medtracker/app/widget/MedTrackerWidget.kt:97-99 | a pushed name and dosage matching the row are what the refresh writes |
| MedTrackerWidget.RefreshOfDeletedMedication | app/src/main/java/com/maxvonamos/medtracker/app/widget/MedTrackerWidget.kt:83-91 | the refresh clears like the deletion pass and also drops the nickname; a cleared widget is left alone |
| MedTrackerWidget.RefreshWidgetData | app/src/main/java/com/maxvonamos/medtracker/app/widget/MedTrackerWidget.kt:69-113 | the block's steps produce `RefreshedPrefs` for that widget only |
| MedTrackerWidget.IsBlank | app/src/main/java/com/maxvonamos/medtracker/app/widget/MedTrackerWidget.kt:128 | the empty string is blank; a string is blank exactly when all its characters are white space |
| MedTrackerWidget.DisplayName | app/src/main/java/com/maxvonamos/medtracker/app/widget/MedTrackerWidget.kt:124-128 | the nickname when present and not blank, else the name, else "No medication" |
| MedTrackerWidget.DisplayNameBlankOnlyIfNameBlank | app/src/main/java/com/maxvonamos/medtracker/app/widget/MedTrackerWidget.kt:124-128 | the shown name is blank only when a blank name is stored and the nickname is missing or blank |
| MedTrackerWidget.ClickAction | app/src/main/java/com/maxvonamos/medtracker/app/widget/MedTrackerWidget.kt:134-145 | a bound widget takes its own medication; an unbound one opens configuration |
| MedTrackerWidget.TakeMedicationLaunch | app/src/main/java/com/maxvonamos/medtracker/app/widget/MedTrackerWidget.kt:235-243 | the take screen starts only when `med_id` is present |
| MedTrackerWidget.TapOpensOwnMedication | app/src/main/java/com/maxvonamos/medtracker/app/widget/MedTrackerWidget.kt:134-140 | a tap on a bound widget opens the take screen of the widget's medication |
| MedTrackerWidget.IsToday | app/src/main/java/com/maxvonamos/medtracker/app/widget/MedTrackerWidget.kt:177 | today is exactly the local day from midnight before now, so less than a day from now |
| MedTrackerWidget.IsYesterday | app/src/main/java/com/maxvonamos/medtracker/app/widget/MedTrackerWidget.kt:221-223 | yesterday is exactly the local day before now's, so between zero and two days ago |
| MedTrackerWidget.LastTakenLabelOf | app/src/main/java/com/maxvonamos/medtracker/app/widget/MedTrackerWidget.kt:172-189 | "Never" exactly when no time is stored; every other form formats the stored time |
| MedTrackerWidget.LastTakenLabelByDay | app/src/main/java/com/maxvonamos/medtracker/app/widget/MedTrackerWidget.kt:176-187 | same day gives the time, the previous day "Yesterday", else the weekday form iff less than a week has passed |
| MedTrackerWidget.PastLabelsByDayCount | app/src/main/java/com/maxvonamos/medtracker/app/widget/MedTrackerWidget.kt:179-186 | for a past dose the weekday form covers 2..7 days back and the date form 7 or more |
| MedTrackerWidget.LaterDayShowsWeekday | app/src/main/java/com/maxvonamos/medtracker/app/widget/MedTrackerWidget.kt:177-183 | a dose on a later day than now is shown in the weekday form |
| MedTrackerWidget.WidgetContent | app/src/main/java/com/maxvonamos/medtracker/app/widget/MedTrackerWidget.kt:122-217 | "Setup" exactly when the tap opens configuration |
| MedTrackerWidget.PushedDoseIsShown | app/src/main/java/com/maxvonamos/medtracker/app/widget/MedTrackerWidget.kt:122-128 | after a dose push the widget shows its own name and the pushed dose |
| MedTrackerWidget.ClearedWidgetShowsSetup | app/src/main/java/com/maxvonamos/medtracker/app/widget/MedTrackerWidget.kt:197-216 | a widget cleared by deletion or by refresh shows "Setup" |
| MedTrackerWidget.PinGuard | app/src/main/java/com/maxvonamos/medtracker/app/widget/MedTrackerWidget.kt:273-277 | the broadcast is accepted iff it is the pin action and both extras are present and not -1 |
| MedTrackerWidget.PinnedPrefs | app/src/main/java/com/maxvonamos/medtracker/app/widget/MedTrackerWidget.kt:289-297 | the widget is bound to the medication; the labels are copied when the row was found; nothing else changes |
| MedTrackerWidget.PinThenRefresh | app/src/main/java/com/maxvonamos/medtracker/app/widget/MedTrackerWidget.kt:289-297 | the labels copied at pin time change nothing once the widget is refreshed |
| MedTrackerWidget.OnReceive | app/src/main/java/com/maxvonamos/medtracker/app/widget/MedTrackerWidget.kt:271-302 | a refused broadcast changes nothing; an accepted one rewrites only that widget's map |
| LegacyMedTrackerWidget.LegacyRefreshedPrefs | app/src/main/java/com/medtracker/app/widget/MedTrackerWidget.kt:73-102 | the older refresh: untouched when unbound, five keys cleared for a deleted row, else name, dosage and last dose rewritten |
| LegacyMedTrackerWidget.LegacyRefreshAgreesExceptNickname | app/src/main/java/com/medtracker/app/widget/MedTrackerWidget.kt:78-98 | the older refresh agrees with the newer one outside the nickname, never touches the nickname, and for a deleted row equals the deletion pass |
| LegacyMedTrackerWidget.LegacyRefreshIdempotent | app/src/main/java/com/medtracker/app/widget/MedTrackerWidget.kt:73-102 | refreshing twice equals refreshing once |
| LegacyMedTrackerWidget.LegacyRefreshWidgetData | app/src/main/java/com/medtracker/app/widget/MedTrackerWidget.kt:64-106 | the block's steps produce `LegacyRefreshedPrefs` for that widget only |
| LegacyMedTrackerWidget.LegacyLastTakenLabel | app/src/main/java/com/medtracker/app/widget/MedTrackerWidget.kt:161-170 | "Never" exactly when no time is stored; the timed forms format the stored time |
| LegacyMedTrackerWidget.LegacyLabelIsDateTimeBucket | app/src/main/java/com/medtracker/app/widget/MedTrackerWidget.kt:161-170 | the label's four intervals are those of `formatDateTime` |
| LegacyMedTrackerWidget.LegacyAndNewerLabels | app/src/main/java/com/medtracker/app/widget/MedTrackerWidget.kt:161-170 | today's dose shows its time in both widgets; the older widget shows a date from six days on, the newer one from seven |
| LegacyMedTrackerWidget.LegacyWidgetContent | app/src/main/java/com/medtracker/app/widget/MedTrackerWidget.kt:115-195 | "Setup" exactly when the tap opens configuration; otherwise the stored name or "No medication" |
| LegacyMedTrackerWidget.LegacyIgnoresNickname | app/src/main/java/com/medtracker/app/widget/MedTrackerWidget.kt:115-118 | the older widget shows the same whatever nickname is stored |
| LegacyMedTrackerWidget.TakeUri | app/src/main/java/com/medtracker/app/widget/MedTrackerWidget.kt:209-214 | a link exists exactly when `med_id` is present, and it starts with `medtracker://take/` |
| LegacyMedTrackerWidget.TakeUriRoundTrip | app/src/main/java/com/medtracker/app/widget/MedTrackerWidget.kt:213 | the medication id is read back from the link's last segment |
| LegacyMedTrackerWidget.LegacyTapLinksOwnMedication | app/src/main/java/com/medtracker/app/widget/MedTrackerWidget.kt:124-135 | a tap on a bound older widget links to the widget's own medication |

## Left out

- The Compose user interface, theme, navigation and activities: layout, text styles and screen
  lifecycle. Only the choices they display are modelled.
- The Room layer. The DAOs and databases are replaced by parameters:
  - the enabled-reminders query;
  - `getMedicationById`;
  - `getLastLogForMedication`;
  - the log list with its 50-row limit;
  - the medication flow of the history view model.
  The WAL checkpoint, and opening and closing the database, are not modelled.
- Broadcast receivers other than the pin broadcast (alarm, boot, notification actions), and coroutines. The history view model's flows (`flatMapLatest`, `stateIn`) become the explicit steps `Load` and `LogsChanged`.
- The alarm service: the exact-versus-inexact choice and the `PendingIntent` objects. The pending
  alarms are a table keyed by request code.
- `SimpleDateFormat` output (`h:mm a`, `EEEE`, `MMM d` and the like) and `formatTime`. The model keeps
  the timestamp each form would format.
- Daylight-saving changes: the zone is a fixed offset.
- `Long` overflow of instants near `Long.MAX_VALUE` (`now + 7 days`, `t + DAY_IN_MILLIS`): instants are
  unbounded integers.
- ReminderScheduler.SelectedWeekdayIsRegistered: stated only for `now` at least a week below
  `Long.MAX_VALUE`, where the fire time cannot equal the sentinel.
- Deleting matched widgets from the launcher (`AppWidgetHost.deleteAppWidgetId`, which may fail
  silently), `updateAll` and rendering. `RemoveWidgetsForMedication` returns the ids it would delete.
- MedTrackerWidget.IsBlank: uses the ASCII white-space characters only; Kotlin's `isBlank` also
  accepts the other Unicode space characters.
- HistoryViewModel.TotalPages: computed with integer arithmetic, not `ceil` on a `Double`. The two
  agree for every list size an `Int` can hold.
- WidgetState.LongPref and WidgetState.StringPref: a value of the other type under a key reads as missing. DataStore would return it and fail where it is used. The app never stores such a value under these keys.
- MedTrackerWidget.OnReceive: an `appWidgetId` that the launcher does not list changes nothing.
  There, `getGlanceIdBy` throws inside the coroutine.
- `deleteLog` and `refreshAllWidgets`: repository and rendering calls with no local logic.

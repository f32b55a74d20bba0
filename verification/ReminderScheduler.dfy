/**
 * The next-fire-time calculator and the decision to register an alarm.
 * `now` and the zone offset `zone` are inputs (the source reads the system clock and
 * the default time zone); the system alarm service is reduced to the table of pending
 * alarms keyed by request code.
 */
module ReminderScheduler {

  import opened Jvm
  import opened LocalCalendar
  import opened MedicationReminder

  // ---------------------------------------------------------------------------
  // Weekday selection

  /** The number of days the weekly scan looks at. */
  const WEEK_DAYS: nat := 7

  /** The mask bit of `Calendar` weekday `calendarDay`; 0 for a number that is no weekday. */
  function DayBit(calendarDay: int): (bit: bv32)
    ensures SUNDAY <= calendarDay <= SATURDAY ==> IsDayBit(bit)
    ensures !(SUNDAY <= calendarDay <= SATURDAY) ==> bit == 0
  {
    if calendarDay == SUNDAY then SUN
    else if calendarDay == MONDAY then MON
    else if calendarDay == TUESDAY then TUE
    else if calendarDay == WEDNESDAY then WED
    else if calendarDay == THURSDAY then THU
    else if calendarDay == FRIDAY then FRI
    else if calendarDay == SATURDAY then SAT
    else 0
  }

  /** `isDaySelected`: weekday `calendarDay` has its bit, 2^(calendarDay - 1), set in the mask. */
  predicate IsDaySelected(reminder: Reminder, calendarDay: int)
    ensures IsDaySelected(reminder, calendarDay) ==> SUNDAY <= calendarDay <= SATURDAY
    ensures SUNDAY <= calendarDay <= SATURDAY && reminder.daysOfWeek == 0 ==> !IsDaySelected(reminder, calendarDay)
  {
    reminder.IsDayEnabled(DayBit(calendarDay))
  }

  /** The bit of weekday d is 1 shifted left by d - 1: Sunday is bit 0, Saturday bit 6. */
  lemma DayBitIsShiftedOne(calendarDay: int)
    requires SUNDAY <= calendarDay <= SATURDAY
    ensures DayBit(calendarDay) == (1 as bv32) << (calendarDay - 1)
  {
  }

  /** Bit k of a mask is set exactly when the mask shares a bit with 1 << k. */
  lemma ShiftedMaskBit(m: bv32, k: nat)
    requires k < 7
    ensures (m >> k) & 1 == 1 <==> m & ((1 as bv32) << k) != 0
  {
  }

  /** Day d in 1..7 is selected exactly when bit d - 1 of the mask is set; no other number is ever selected. */
  lemma DaySelectedIsMaskBit(reminder: Reminder, calendarDay: int)
    ensures IsDaySelected(reminder, calendarDay) <==>
      SUNDAY <= calendarDay <= SATURDAY && (reminder.daysOfWeek >> (calendarDay - 1)) & 1 == 1
  {
    if SUNDAY <= calendarDay <= SATURDAY {
      DayBitIsShiftedOne(calendarDay);
      ShiftedMaskBit(reminder.daysOfWeek, calendarDay - 1);
    }
  }

  /** A mask with one of its seven weekday bits set selects some weekday. */
  lemma SomeWeekdaySelected(reminder: Reminder) returns (d: int)
    requires reminder.daysOfWeek & WEEK != 0
    ensures SUNDAY <= d <= SATURDAY && IsDaySelected(reminder, d)
  {
    var m := reminder.daysOfWeek;
    if m & SUN != 0 { d := SUNDAY; }
    else if m & MON != 0 { d := MONDAY; }
    else if m & TUE != 0 { d := TUESDAY; }
    else if m & WED != 0 { d := WEDNESDAY; }
    else if m & THU != 0 { d := THURSDAY; }
    else if m & FRI != 0 { d := FRIDAY; }
    else { assert m & SAT != 0; d := SATURDAY; }
  }

  /** A mask whose seven weekday bits are all clear selects no day, even when higher bits are set. */
  lemma NoWeekdayBitSelectsNothing(reminder: Reminder, calendarDay: int)
    requires reminder.daysOfWeek & WEEK == 0
    ensures !IsDaySelected(reminder, calendarDay)
  {
    var m, b := reminder.daysOfWeek, DayBit(calendarDay);
    assert b & WEEK == b;
    assert m & b == (m & WEEK) & b;
  }

  // ---------------------------------------------------------------------------
  // The specification of `computeNextAlarmTime`

  /** Today at the reminder's hour:minute:00.000. */
  function TodayAt(reminder: Reminder, now: int, zone: int): int
  {
    SetClock(now, reminder.hour, reminder.minute, zone)
  }

  /** For a valid clock time, today's slot and the one a day later both lie at hour:minute, less than a day from `now`. */
  lemma TodayAtSlot(reminder: Reminder, now: int, zone: int)
    ensures ValidClock(reminder.hour, reminder.minute) ==>
      var today, c := TodayAt(reminder, now, zone), ClockTime(reminder.hour, reminder.minute);
      && now - DAY_MS < today < now + DAY_MS
      && TimeOfDay(today, zone) == c && TimeOfDay(today + DAY_MS, zone) == c
      && SetClock(today + DAY_MS, reminder.hour, reminder.minute, zone) == today + DAY_MS
  {
    if ValidClock(reminder.hour, reminder.minute) {
      var today := TodayAt(reminder, now, zone);
      SetClockIsOnTheDay(now, reminder.hour, reminder.minute, zone);
      ShiftDays(today, 1, zone);
      ShiftDays(DayStart(now, zone), 1, zone);
    }
  }

  /** DAILY: today at hour:minute if that is after `now`, otherwise tomorrow at hour:minute. */
  function DailyAlarm(reminder: Reminder, now: int, zone: int): (t: int)
    ensures ValidClock(reminder.hour, reminder.minute) ==>
      now < t <= now + DAY_MS && TimeOfDay(t, zone) == ClockTime(reminder.hour, reminder.minute)
  {
    TodayAtSlot(reminder, now, zone);
    var today := TodayAt(reminder, now, zone);
    if today <= now then today + DAY_MS else today
  }

  /**
   * EVERY_OTHER_DAY: the daily candidate, moved one more day when the whole days elapsed
   * since the `createdAt` instant (milliseconds divided with truncation, then narrowed to `Int`) are odd.
   */
  function EveryOtherDayAlarm(reminder: Reminder, now: int, zone: int): (t: int)
    ensures ValidClock(reminder.hour, reminder.minute) ==>
      now < t <= now + 2 * DAY_MS && TimeOfDay(t, zone) == ClockTime(reminder.hour, reminder.minute)
  {
    var candidate := DailyAlarm(reminder, now, zone);
    ShiftDays(candidate, 1, zone);
    if Rem(DaysSinceCreation(reminder, candidate), 2) != 0 then candidate + DAY_MS else candidate
  }

  /** `((candidate - createdAt) / DAY_MS).toInt()`: whole days since creation, truncated toward zero, narrowed to `Int`. */
  function DaysSinceCreation(reminder: Reminder, candidate: int): int
  {
    ToInt(Quot(candidate - reminder.createdAt, DAY_MS))
  }

  /** The first of `days` consecutive days, starting at instant `from`, whose weekday is selected. */
  function FirstSelectedDay(reminder: Reminder, from: int, days: nat, zone: int): (r: int)
    ensures r != LONG_MAX ==>
      && IsDaySelected(reminder, DayOfWeek(r, zone))
      && from <= r < from + days * DAY_MS
      && TimeOfDay(r, zone) == TimeOfDay(from, zone)
    decreases days
  {
    if days == 0 then LONG_MAX
    else if IsDaySelected(reminder, DayOfWeek(from, zone)) then from
    else
      ShiftDays(from, 1, zone);
      FirstSelectedDay(reminder, from + DAY_MS, days - 1, zone)
  }

  /**
   * SPECIFIC_DAYS: never for an empty mask; today when its time is still ahead and its
   * weekday is selected; otherwise the first selected day among the next seven.
   */
  function SpecificDaysAlarm(reminder: Reminder, now: int, zone: int): (t: int)
    ensures t != LONG_MAX ==> IsDaySelected(reminder, DayOfWeek(t, zone))
    ensures ValidClock(reminder.hour, reminder.minute) && t != LONG_MAX ==>
      now < t && TimeOfDay(t, zone) == ClockTime(reminder.hour, reminder.minute)
  {
    if reminder.daysOfWeek == 0 then LONG_MAX
    else
      TodayAtSlot(reminder, now, zone);
      var today := TodayAt(reminder, now, zone);
      if today > now && IsDaySelected(reminder, DayOfWeek(today, zone)) then today
      else FirstSelectedDay(reminder, SetClock(today + DAY_MS, reminder.hour, reminder.minute, zone), WEEK_DAYS, zone)
  }

  /** The next alarm instant, or `Long.MAX_VALUE` when there is none; unknown interval types count as DAILY. */
  function NextAlarmTime(reminder: Reminder, now: int, zone: int): (t: int)
    ensures ValidClock(reminder.hour, reminder.minute) && reminder.intervalType != SPECIFIC_DAYS ==>
      now < t <= now + 2 * DAY_MS
    ensures ValidClock(reminder.hour, reminder.minute) && t != LONG_MAX ==>
      now < t && TimeOfDay(t, zone) == ClockTime(reminder.hour, reminder.minute)
    ensures reminder.intervalType == SPECIFIC_DAYS && t != LONG_MAX ==> IsDaySelected(reminder, DayOfWeek(t, zone))
  {
    if reminder.intervalType == DAILY then DailyAlarm(reminder, now, zone)
    else if reminder.intervalType == EVERY_OTHER_DAY then EveryOtherDayAlarm(reminder, now, zone)
    else if reminder.intervalType == SPECIFIC_DAYS then SpecificDaysAlarm(reminder, now, zone)
    else DailyAlarm(reminder, now, zone)
  }

  // ---------------------------------------------------------------------------
  // Properties of the specification

  /**
   * The DAILY result is the first instant after `now` at hour:minute:00.000, so it lies
   * at most one day ahead.
   */
  lemma {:induction false} DailyAlarmIsNextSlot(reminder: Reminder, now: int, zone: int)
    requires ValidClock(reminder.hour, reminder.minute)
    ensures var t := DailyAlarm(reminder, now, zone);
      && now < t <= now + DAY_MS
      && TimeOfDay(t, zone) == ClockTime(reminder.hour, reminder.minute)
      && forall u :: now < u < t ==> TimeOfDay(u, zone) != ClockTime(reminder.hour, reminder.minute)
  {
    var c := ClockTime(reminder.hour, reminder.minute);
    var today := TodayAt(reminder, now, zone);
    var t := DailyAlarm(reminder, now, zone);
    SetClockIsOnTheDay(now, reminder.hour, reminder.minute, zone);
    ShiftDays(today, 1, zone);
    forall u | now < u < t
      ensures TimeOfDay(u, zone) != c
    {
      if TimeOfDay(u, zone) == c {
        SameTimeOfDayIsWholeDays(today, u, zone);
      }
    }
  }

  /** An interval type that is none of the three known ones behaves exactly like DAILY. */
  lemma UnrecognisedTypeIsDaily(reminder: Reminder, now: int, zone: int)
    requires reminder.intervalType !in {DAILY, EVERY_OTHER_DAY, SPECIFIC_DAYS}
    ensures NextAlarmTime(reminder, now, zone) == NextAlarmTime(reminder.(intervalType := DAILY), now, zone)
  {
  }

  /** Adding a day to a non-zero truncated day count moves it one further from zero in the positive direction. */
  lemma {:induction false} QuotNextDay(a: int)
    requires Quot(a, DAY_MS) != 0
    ensures Quot(a + DAY_MS, DAY_MS) == Quot(a, DAY_MS) + 1
  {
    var q := Quot(a, DAY_MS);
    QuotTruncates(a, DAY_MS);
    QuotTruncates(a + DAY_MS, DAY_MS);
    if a >= 0 {
      assert q * DAY_MS + DAY_MS <= a + DAY_MS < (q + 1) * DAY_MS + DAY_MS;
    } else {
      assert q <= -1;
      assert (q + 1) * DAY_MS - DAY_MS < a + DAY_MS <= (q + 1) * DAY_MS;
      if q == -1 {
        assert -DAY_MS < a + DAY_MS <= 0;
      } else {
        assert a + DAY_MS < 0;
      }
    }
  }

  /**
   * The EVERY_OTHER_DAY result is the daily candidate or the day after it, and the whole
   * days elapsed since `createdAt` (truncated) are even. This holds for every `createdAt`,
   * a future one included.
   */
  lemma {:induction false} EveryOtherDayKeepsEvenDistance(reminder: Reminder, now: int, zone: int)
    ensures var c := DailyAlarm(reminder, now, zone);
      var t := EveryOtherDayAlarm(reminder, now, zone);
      && (t == c || t == c + DAY_MS)
      && Rem(Quot(t - reminder.createdAt, DAY_MS), 2) == 0
  {
    var c := DailyAlarm(reminder, now, zone);
    var q := Quot(c - reminder.createdAt, DAY_MS);
    ToIntKeepsParity(q);
    RemTwoIsParity(ToInt(q));
    if q % 2 == 1 {
      QuotNextDay(c - reminder.createdAt);
      assert c + DAY_MS - reminder.createdAt == (c - reminder.createdAt) + DAY_MS;
      RemTwoIsParity(q + 1);
    } else {
      RemTwoIsParity(q);
    }
  }

  /** The EVERY_OTHER_DAY result is after `now`, at hour:minute, and at most two days ahead. */
  lemma {:induction false} EveryOtherDayIsASlot(reminder: Reminder, now: int, zone: int)
    requires ValidClock(reminder.hour, reminder.minute)
    ensures var t := EveryOtherDayAlarm(reminder, now, zone);
      && now < t <= now + 2 * DAY_MS
      && TimeOfDay(t, zone) == ClockTime(reminder.hour, reminder.minute)
  {
    var c := DailyAlarm(reminder, now, zone);
    DailyAlarmIsNextSlot(reminder, now, zone);
    EveryOtherDayKeepsEvenDistance(reminder, now, zone);
    ShiftDays(c, 1, zone);
  }

  /** With no weekday selected at all, the seven-day scan finds nothing. */
  lemma {:induction false} FirstSelectedDayNone(reminder: Reminder, from: int, days: nat, zone: int)
    requires forall d :: !IsDaySelected(reminder, d)
    ensures FirstSelectedDay(reminder, from, days, zone) == LONG_MAX
    decreases days
  {
    if days > 0 {
      FirstSelectedDayNone(reminder, from + DAY_MS, days - 1, zone);
    }
  }

  /**
   * When the day `j` days after `from` is selected, the scan returns a selected day at
   * most `j` days after `from`, at the clock time of `from`, and skips no selected day
   * at that clock time.
   */
  lemma {:induction false} FirstSelectedDayIsEarliest(reminder: Reminder, from: int, days: nat, zone: int, j: nat)
    requires j < days && IsDaySelected(reminder, DayOfWeek(from + j * DAY_MS, zone))
    ensures var r := FirstSelectedDay(reminder, from, days, zone);
      && from <= r <= from + j * DAY_MS
      && TimeOfDay(r, zone) == TimeOfDay(from, zone)
      && IsDaySelected(reminder, DayOfWeek(r, zone))
      && forall u :: from <= u < r ==> !IsSelectedSlotAt(reminder, u, TimeOfDay(from, zone), zone)
    decreases days
  {
    if !IsDaySelected(reminder, DayOfWeek(from, zone)) {
      assert j != 0;
      var next := from + DAY_MS;
      assert next + (j - 1) * DAY_MS == from + j * DAY_MS;
      FirstSelectedDayIsEarliest(reminder, next, days - 1, zone, j - 1);
      ShiftDays(from, 1, zone);
      var r := FirstSelectedDay(reminder, from, days, zone);
      forall u | from <= u < r
        ensures !IsSelectedSlotAt(reminder, u, TimeOfDay(from, zone), zone)
      {
        if u != from && TimeOfDay(u, zone) == TimeOfDay(from, zone) {
          SameTimeOfDayIsWholeDays(from, u, zone);
        }
      }
    }
  }

  /** Instant `u` is at clock time `clock` on a weekday the reminder selects. */
  predicate IsSelectedSlotAt(reminder: Reminder, u: int, clock: int, zone: int)
  {
    TimeOfDay(u, zone) == clock && IsDaySelected(reminder, DayOfWeek(u, zone))
  }

  /** SPECIFIC_DAYS with an empty mask never fires. */
  lemma EmptyMaskNeverFires(reminder: Reminder, now: int, zone: int)
    requires reminder.intervalType == SPECIFIC_DAYS && reminder.daysOfWeek == 0
    ensures NextAlarmTime(reminder, now, zone) == LONG_MAX
  {
  }

  /** SPECIFIC_DAYS with no weekday bit set, even if bits above 64 are, never fires either. */
  lemma {:induction false} NoWeekdayBitNeverFires(reminder: Reminder, now: int, zone: int)
    requires reminder.intervalType == SPECIFIC_DAYS && reminder.daysOfWeek & WEEK == 0
    ensures NextAlarmTime(reminder, now, zone) == LONG_MAX
  {
    forall d ensures !IsDaySelected(reminder, d) {
      NoWeekdayBitSelectsNothing(reminder, d);
    }
    var today := TodayAt(reminder, now, zone);
    FirstSelectedDayNone(reminder, SetClock(today + DAY_MS, reminder.hour, reminder.minute, zone), WEEK_DAYS, zone);
  }

  /** The reminder's slot lies strictly after `now`, at hour:minute, on a selected weekday, with no selected slot in between. */
  ghost predicate IsFirstSelectedSlot(reminder: Reminder, now: int, t: int, zone: int)
  {
    var c := ClockTime(reminder.hour, reminder.minute);
    && now < t
    && IsSelectedSlotAt(reminder, t, c, zone)
    && forall u :: now < u < t ==> !IsSelectedSlotAt(reminder, u, c, zone)
  }

  /** When today's slot is still ahead and today is selected, today's slot is the first selected one. */
  lemma TodayIsFirstSelectedSlot(reminder: Reminder, now: int, zone: int)
    requires ValidClock(reminder.hour, reminder.minute)
    requires TodayAt(reminder, now, zone) > now
    requires IsDaySelected(reminder, DayOfWeek(TodayAt(reminder, now, zone), zone))
    ensures IsFirstSelectedSlot(reminder, now, TodayAt(reminder, now, zone), zone)
  {
    SetClockIsOnTheDay(now, reminder.hour, reminder.minute, zone);
    ClockTimeOnceADay(TodayAt(reminder, now, zone), zone);
  }

  /**
   * The scan over the seven days after the day of `today` (a slot at hour:minute) finds
   * the first selected slot after `today`; it needs all seven only when the weekday of
   * `today` itself is the one selected.
   */
  lemma {:induction false} ScanFromTomorrow(reminder: Reminder, today: int, zone: int)
    requires reminder.daysOfWeek & WEEK != 0
    requires ValidClock(reminder.hour, reminder.minute)
    requires TimeOfDay(today, zone) == ClockTime(reminder.hour, reminder.minute)
    ensures var t := FirstSelectedDay(reminder, SetClock(today + DAY_MS, reminder.hour, reminder.minute, zone), WEEK_DAYS, zone);
      && IsFirstSelectedSlot(reminder, today, t, zone)
      && today + DAY_MS <= t <= today + 7 * DAY_MS
      && (!IsDaySelected(reminder, DayOfWeek(today, zone)) ==> t <= today + 6 * DAY_MS)
  {
    var from := SetClock(today + DAY_MS, reminder.hour, reminder.minute, zone);
    ShiftDays(today, 1, zone);
    assert from == today + DAY_MS;
    var d := SomeWeekdaySelected(reminder);
    EveryWeekdayWithinAWeek(from, d, zone);
    var j := (d - DayOfWeek(from, zone)) % 7;
    DayOfWeekAfter(today, 7, zone);
    assert from + 6 * DAY_MS == today + 7 * DAY_MS;
    assert j == 6 ==> IsDaySelected(reminder, DayOfWeek(today, zone));
    FirstSelectedDayIsEarliest(reminder, from, WEEK_DAYS, zone, j);
    ClockTimeOnceADay(from, zone);
  }

  /**
   * Otherwise the scan from tomorrow's slot finds the first selected slot, at most seven
   * days ahead (it reaches the same weekday as today only when today's slot has passed).
   */
  lemma {:induction false} ScanFindsFirstSelectedSlot(reminder: Reminder, now: int, zone: int)
    requires reminder.daysOfWeek & WEEK != 0
    requires ValidClock(reminder.hour, reminder.minute)
    requires !(TodayAt(reminder, now, zone) > now && IsDaySelected(reminder, DayOfWeek(TodayAt(reminder, now, zone), zone)))
    ensures var t := FirstSelectedDay(reminder, SetClock(TodayAt(reminder, now, zone) + DAY_MS, reminder.hour, reminder.minute, zone), WEEK_DAYS, zone);
      t <= now + 7 * DAY_MS && IsFirstSelectedSlot(reminder, now, t, zone)
  {
    var c := ClockTime(reminder.hour, reminder.minute);
    var today := TodayAt(reminder, now, zone);
    SetClockIsOnTheDay(now, reminder.hour, reminder.minute, zone);
    assert today - c == DayStart(now, zone);
    ScanFromTomorrow(reminder, today, zone);
    var t := FirstSelectedDay(reminder, SetClock(today + DAY_MS, reminder.hour, reminder.minute, zone), WEEK_DAYS, zone);
    if today <= now {
      FirstSelectedSlotFromLater(reminder, today, now, t, zone);
    } else {
      ClockTimeOnceADay(today, zone);
      FirstSelectedSlotFromEarlier(reminder, now, today, t, zone);
    }
  }

  /** The first selected slot after `lo` is also the first after any later instant before it. */
  lemma FirstSelectedSlotFromLater(reminder: Reminder, lo: int, hi: int, t: int, zone: int)
    requires IsFirstSelectedSlot(reminder, lo, t, zone)
    requires lo <= hi < t
    ensures IsFirstSelectedSlot(reminder, hi, t, zone)
  {
  }

  /** The first selected slot after `hi` is the first after `lo` when no selected slot lies in (lo, hi]. */
  lemma FirstSelectedSlotFromEarlier(reminder: Reminder, lo: int, hi: int, t: int, zone: int)
    requires IsFirstSelectedSlot(reminder, hi, t, zone)
    requires lo <= hi
    requires forall u :: lo < u <= hi ==> !IsSelectedSlotAt(reminder, u, ClockTime(reminder.hour, reminder.minute), zone)
    ensures IsFirstSelectedSlot(reminder, lo, t, zone)
  {
  }

  /**
   * SPECIFIC_DAYS with at least one weekday selected: the alarm is the first slot at
   * hour:minute after `now` on a selected weekday, and it is at most seven days away.
   */
  lemma SpecificDaysFiresOnFirstSelectedDay(reminder: Reminder, now: int, zone: int)
    requires reminder.intervalType == SPECIFIC_DAYS && reminder.daysOfWeek & WEEK != 0
    requires ValidClock(reminder.hour, reminder.minute)
    ensures var t := NextAlarmTime(reminder, now, zone);
      t <= now + 7 * DAY_MS && IsFirstSelectedSlot(reminder, now, t, zone)
  {
    var today := TodayAt(reminder, now, zone);
    if today > now && IsDaySelected(reminder, DayOfWeek(today, zone)) {
      TodayIsFirstSelectedSlot(reminder, now, zone);
      SetClockIsOnTheDay(now, reminder.hour, reminder.minute, zone);
    } else {
      ScanFindsFirstSelectedSlot(reminder, now, zone);
    }
  }

  /** The seven-day search of `computeNextAlarmTime`: the first day from `alarm` on whose weekday is selected. */
  method SearchNextSevenDays(reminder: Reminder, alarm: int, zone: int) returns (alarmTime: int)
    ensures alarmTime == FirstSelectedDay(reminder, alarm, WEEK_DAYS, zone)
  {
    var day := alarm;
    for i := 0 to 7
      invariant FirstSelectedDay(reminder, day, WEEK_DAYS - i, zone) == FirstSelectedDay(reminder, alarm, WEEK_DAYS, zone)
    {
      if IsDaySelected(reminder, DayOfWeek(day, zone)) {
        return day;
      }
      day := day + DAY_MS;
    }
    return LONG_MAX;
  }

  method ComputeNextAlarmTime(reminder: Reminder, now: int, zone: int) returns (alarmTime: int)
    ensures alarmTime == NextAlarmTime(reminder, now, zone)
  {
    var alarm := SetClock(now, reminder.hour, reminder.minute, zone);
    if reminder.intervalType == DAILY {
      assert NextAlarmTime(reminder, now, zone) == DailyAlarm(reminder, now, zone);
      if alarm <= now {
        alarm := alarm + DAY_MS;
      }
      return alarm;
    } else if reminder.intervalType == EVERY_OTHER_DAY {
      assert NextAlarmTime(reminder, now, zone) == EveryOtherDayAlarm(reminder, now, zone);
      if alarm <= now {
        alarm := alarm + DAY_MS;
      }
      var daysSinceCreation := DaysSinceCreation(reminder, alarm);
      if Rem(daysSinceCreation, 2) != 0 {
        alarm := alarm + DAY_MS;
      }
      return alarm;
    } else if reminder.intervalType == SPECIFIC_DAYS {
      assert NextAlarmTime(reminder, now, zone) == SpecificDaysAlarm(reminder, now, zone);
      if reminder.daysOfWeek == 0 {
        return LONG_MAX;
      }
      if alarm > now && IsDaySelected(reminder, DayOfWeek(alarm, zone)) {
        return alarm;
      }
      alarm := alarm + DAY_MS;
      alarm := SetClock(alarm, reminder.hour, reminder.minute, zone);
      assert alarm == SetClock(TodayAt(reminder, now, zone) + DAY_MS, reminder.hour, reminder.minute, zone);
      alarmTime := SearchNextSevenDays(reminder, alarm, zone);
      assert alarmTime == SpecificDaysAlarm(reminder, now, zone);
      return alarmTime;
    } else {
      assert NextAlarmTime(reminder, now, zone) == DailyAlarm(reminder, now, zone);
      if alarm <= now {
        alarm := alarm + DAY_MS;
      }
      return alarm;
    }
  }

  // ---------------------------------------------------------------------------
  // Registering alarms

  /** One pending alarm of the alarm service: its trigger time and the extras of its intent. */
  datatype PendingAlarm = PendingAlarm(triggerAtMillis: int, reminderId: int, medicationId: int)

  /** The alarm service's pending alarms, keyed by the request code of their pending intent. */
  class AlarmManager {
    var pending: map<int, PendingAlarm>

    constructor ()
      ensures pending == map[]
    {
      pending := map[];
    }
  }

  /** The request code of a reminder's pending intent: `reminder.id.toInt()`. */
  function RequestCode(reminder: Reminder): int
  {
    ToInt(reminder.id)
  }

  /** The pending alarms after `scheduleAlarm`: unchanged for the sentinel, else the reminder's entry replaced. */
  function AfterScheduling(pending: map<int, PendingAlarm>, reminder: Reminder, now: int, zone: int): map<int, PendingAlarm>
  {
    var t := NextAlarmTime(reminder, now, zone);
    if t == LONG_MAX then pending
    else pending[RequestCode(reminder) := PendingAlarm(t, reminder.id, reminder.medicationId)]
  }

  /** The pending alarms after scheduling each reminder of `reminders` in order. */
  function AfterSchedulingAll(pending: map<int, PendingAlarm>, reminders: seq<Reminder>, now: int, zone: int): map<int, PendingAlarm>
    decreases |reminders|
  {
    if reminders == [] then pending
    else AfterScheduling(AfterSchedulingAll(pending, reminders[..|reminders| - 1], now, zone), reminders[|reminders| - 1], now, zone)
  }

  /** `scheduleAlarm`: registers the next alarm, or nothing when it is `Long.MAX_VALUE`. */
  method ScheduleAlarm(alarms: AlarmManager, reminder: Reminder, now: int, zone: int)
    modifies alarms
    ensures alarms.pending == AfterScheduling(old(alarms.pending), reminder, now, zone)
  {
    var alarmTime := ComputeNextAlarmTime(reminder, now, zone);
    if alarmTime == LONG_MAX {
      return;
    }
    alarms.pending := alarms.pending[RequestCode(reminder) := PendingAlarm(alarmTime, reminder.id, reminder.medicationId)];
  }

  /** `rescheduleAllAlarms`: `scheduleAlarm` once for each reminder the enabled-reminders query returns. */
  method RescheduleAllAlarms(alarms: AlarmManager, reminders: seq<Reminder>, now: int, zone: int)
    modifies alarms
    ensures alarms.pending == AfterSchedulingAll(old(alarms.pending), reminders, now, zone)
  {
    for i := 0 to |reminders|
      invariant alarms.pending == AfterSchedulingAll(old(alarms.pending), reminders[..i], now, zone)
    {
      assert reminders[..i + 1][..i] == reminders[..i];
      ScheduleAlarm(alarms, reminders[i], now, zone);
    }
    assert reminders[..|reminders|] == reminders;
  }

  /** The pending alarms after `cancelAlarm(reminderId)`: the entry under its request code is gone. */
  function AfterCancelling(pending: map<int, PendingAlarm>, reminderId: int): (r: map<int, PendingAlarm>)
    ensures ToInt(reminderId) !in r
    ensures forall code :: code != ToInt(reminderId) ==> (code in r <==> code in pending)
  {
    pending - {ToInt(reminderId)}
  }

  /**
   * `cancelAlarm`: the pending intent is rebuilt with the same request code and target,
   * which is what the alarm service matches on, so the alarm registered under that code goes.
   */
  method CancelAlarm(alarms: AlarmManager, reminderId: int)
    modifies alarms
    ensures alarms.pending == AfterCancelling(old(alarms.pending), reminderId)
  {
    alarms.pending := alarms.pending - {ToInt(reminderId)};
  }

  /** Cancelling a reminder that had no alarm pending undoes scheduling it. */
  lemma CancelUndoesSchedule(pending: map<int, PendingAlarm>, reminder: Reminder, now: int, zone: int)
    requires RequestCode(reminder) !in pending
    ensures AfterCancelling(AfterScheduling(pending, reminder, now, zone), reminder.id) == pending
  {
  }

  /** A reminder whose next time is the sentinel leaves the pending alarms as they were. */
  lemma SentinelRegistersNothing(pending: map<int, PendingAlarm>, reminder: Reminder, now: int, zone: int)
    requires NextAlarmTime(reminder, now, zone) == LONG_MAX
    ensures AfterScheduling(pending, reminder, now, zone) == pending
  {
  }

  /** Rescheduling adds exactly the request codes of the reminders that have a next time. */
  lemma {:induction false} RescheduledCodes(pending: map<int, PendingAlarm>, reminders: seq<Reminder>, now: int, zone: int)
    ensures AfterSchedulingAll(pending, reminders, now, zone).Keys ==
      pending.Keys + set r | r in reminders && NextAlarmTime(r, now, zone) != LONG_MAX :: RequestCode(r)
    decreases |reminders|
  {
    if reminders != [] {
      var init, last := reminders[..|reminders| - 1], reminders[|reminders| - 1];
      RescheduledCodes(pending, init, now, zone);
      assert reminders == init + [last];
      assert forall r :: r in reminders <==> r in init || r == last;
    }
  }

  /**
   * After rescheduling, a reminder with a next time owns its request code's entry unless a
   * later reminder with a next time shares that code.
   */
  lemma {:induction false} RescheduledEntry(pending: map<int, PendingAlarm>, reminders: seq<Reminder>, now: int, zone: int, i: nat)
    requires i < |reminders| && NextAlarmTime(reminders[i], now, zone) != LONG_MAX
    requires forall j :: i < j < |reminders| && NextAlarmTime(reminders[j], now, zone) != LONG_MAX ==>
      RequestCode(reminders[j]) != RequestCode(reminders[i])
    ensures var r := reminders[i];
      var after := AfterSchedulingAll(pending, reminders, now, zone);
      RequestCode(r) in after && after[RequestCode(r)] == PendingAlarm(NextAlarmTime(r, now, zone), r.id, r.medicationId)
    decreases |reminders|
  {
    var n := |reminders|;
    var init, last := reminders[..n - 1], reminders[n - 1];
    var before := AfterSchedulingAll(pending, init, now, zone);
    assert AfterSchedulingAll(pending, reminders, now, zone) == AfterScheduling(before, last, now, zone);
    if i < n - 1 {
      assert init[i] == reminders[i];
      RescheduledEntry(pending, init, now, zone, i);
      ScheduledElsewhereKeeps(before, last, now, zone, RequestCode(reminders[i]));
    }
  }

  /** Scheduling a reminder that registers nothing, or registers under another code, keeps the entry of `code`. */
  lemma ScheduledElsewhereKeeps(pending: map<int, PendingAlarm>, reminder: Reminder, now: int, zone: int, code: int)
    requires code in pending
    requires NextAlarmTime(reminder, now, zone) == LONG_MAX || RequestCode(reminder) != code
    ensures code in AfterScheduling(pending, reminder, now, zone)
    ensures AfterScheduling(pending, reminder, now, zone)[code] == pending[code]
  {
  }

  /**
   * A SPECIFIC_DAYS reminder with a weekday bit set, at a valid time, is always registered
   * once `now` is a week or more below `Long.MAX_VALUE`.
   */
  lemma SelectedWeekdayIsRegistered(pending: map<int, PendingAlarm>, reminder: Reminder, now: int, zone: int)
    requires reminder.intervalType == SPECIFIC_DAYS && reminder.daysOfWeek & WEEK != 0
    requires ValidClock(reminder.hour, reminder.minute) && now + 7 * DAY_MS < LONG_MAX
    ensures RequestCode(reminder) in AfterScheduling(pending, reminder, now, zone)
  {
    SpecificDaysFiresOnFirstSelectedDay(reminder, now, zone);
  }
}

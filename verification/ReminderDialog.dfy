/**
 * The reminder dialog: a time picker, three interval-type radio buttons and, for the
 * "specific days" type, seven weekday chips that flip bits of a mask. Confirming builds
 * a `ReminderDialogResult`; the Save button is enabled only when the choice can fire.
 */
module ReminderDialog {

  import opened Jvm
  import opened LocalCalendar
  import opened MedicationReminder
  import opened ReminderScheduler

  /** What the dialog hands back on Save. */
  datatype ReminderDialogResult = ReminderDialogResult(hour: int, minute: int, intervalType: string, daysOfWeek: bv32)

  /** The values the dialog opens with when its caller passes none. */
  const DEFAULT_HOUR: int := 8
  const DEFAULT_MINUTE: int := 0
  const DEFAULT_INTERVAL_TYPE: string := DAILY
  const DEFAULT_DAYS_OF_WEEK: bv32 := 0

  // ---------------------------------------------------------------------------
  // The chip toggle

  /** A chip click: a selected day's bit is cleared (`and bit.inv()`), an unselected one's is set (`or bit`). */
  function ToggleDay(mask: bv32, bit: bv32): (r: bv32)
    ensures bit != 0 ==> (r & bit == 0 <==> mask & bit != 0)
  {
    if mask & bit != 0 then
      ClearingEmptiesBit(mask, bit);
      mask & !bit
    else
      SettingFillsBit(mask, bit);
      mask | bit
  }

  lemma ClearingEmptiesBit(mask: bv32, bit: bv32)
    ensures (mask & !bit) & bit == 0
  {
  }

  lemma SettingFillsBit(mask: bv32, bit: bv32)
    ensures (mask | bit) & bit == bit
  {
  }

  /** For a day bit, the toggle is an exclusive or: the chip's bit is flipped and nothing else. */
  lemma ToggleFlipsItsBit(mask: bv32, bit: bv32)
    requires IsDayBit(bit)
    ensures ToggleDay(mask, bit) == mask ^ bit
    ensures (ToggleDay(mask, bit) & bit != 0) <==> (mask & bit == 0)
  {
  }

  /** Bits outside the chip's bit are the same before and after the click. */
  lemma ToggleKeepsOtherBits(mask: bv32, bit: bv32, others: bv32)
    requires IsDayBit(bit) && others & bit == 0
    ensures ToggleDay(mask, bit) & others == mask & others
  {
    ToggleFlipsItsBit(mask, bit);
    XorOutsideOthers(mask, bit, others);
  }

  lemma XorOutsideOthers(mask: bv32, bit: bv32, others: bv32)
    requires others & bit == 0
    ensures (mask ^ bit) & others == mask & others
  {
  }

  /** Clicking the same chip twice restores the mask. */
  lemma ToggleTwiceRestores(mask: bv32, bit: bv32)
    requires IsDayBit(bit)
    ensures ToggleDay(ToggleDay(mask, bit), bit) == mask
  {
    ToggleFlipsItsBit(mask, bit);
    ToggleFlipsItsBit(mask ^ bit, bit);
  }

  /** A mask with no bit above the seven weekday bits, that is a value in 0..127. */
  predicate WithinWeek(mask: bv32)
  {
    mask & !WEEK == 0
  }

  lemma WithinWeekIsRange(mask: bv32)
    ensures WithinWeek(mask) <==> mask <= WEEK
  {
  }

  /** One click keeps a mask in 0..127. */
  lemma ToggleStaysWithinWeek(mask: bv32, bit: bv32)
    requires IsDayBit(bit) && WithinWeek(mask)
    ensures WithinWeek(ToggleDay(mask, bit))
  {
  }

  /** The mask after clicking the chips `bits` in order. */
  function ToggleAll(mask: bv32, bits: seq<bv32>): bv32
    decreases |bits|
  {
    if bits == [] then mask else ToggleAll(ToggleDay(mask, bits[0]), bits[1..])
  }

  /** Any run of chip clicks started in 0..127 stays in 0..127. */
  lemma {:induction false} ClicksStayWithinWeek(mask: bv32, bits: seq<bv32>)
    requires WithinWeek(mask)
    requires forall i :: 0 <= i < |bits| ==> IsDayBit(bits[i])
    ensures WithinWeek(ToggleAll(mask, bits))
    decreases |bits|
  {
    if bits != [] {
      ToggleStaysWithinWeek(mask, bits[0]);
      ClicksStayWithinWeek(ToggleDay(mask, bits[0]), bits[1..]);
    }
  }

  // ---------------------------------------------------------------------------
  // Save and the result

  /** The Save button is enabled unless the type is SPECIFIC_DAYS with no day chosen. */
  predicate SaveEnabled(intervalType: string, daysOfWeek: bv32)
    ensures intervalType != SPECIFIC_DAYS ==> SaveEnabled(intervalType, daysOfWeek)
    ensures SaveEnabled(intervalType, daysOfWeek) && intervalType == SPECIFIC_DAYS ==> daysOfWeek != 0
  {
    intervalType != SPECIFIC_DAYS || daysOfWeek != 0
  }

  /** The result built on Save: the mask travels only with SPECIFIC_DAYS, every other type gets 0. */
  function Confirm(hour: int, minute: int, intervalType: string, daysOfWeek: bv32): (r: ReminderDialogResult)
    ensures r.hour == hour && r.minute == minute && r.intervalType == intervalType
    ensures intervalType == SPECIFIC_DAYS ==> r.daysOfWeek == daysOfWeek
    ensures intervalType != SPECIFIC_DAYS ==> r.daysOfWeek == 0
  {
    ReminderDialogResult(hour, minute, intervalType, if intervalType == SPECIFIC_DAYS then daysOfWeek else 0)
  }

  /** Save is disabled exactly for SPECIFIC_DAYS with an empty mask. */
  lemma SaveDisabledOnlyForNoDays(intervalType: string, daysOfWeek: bv32)
    ensures !SaveEnabled(intervalType, daysOfWeek) <==> intervalType == SPECIFIC_DAYS && daysOfWeek == 0
  {
  }

  /** A result that can be confirmed never carries SPECIFIC_DAYS with an empty mask. */
  lemma ConfirmedSpecificDaysHasDays(hour: int, minute: int, intervalType: string, daysOfWeek: bv32)
    requires SaveEnabled(intervalType, daysOfWeek)
    ensures var r := Confirm(hour, minute, intervalType, daysOfWeek);
      r.intervalType == SPECIFIC_DAYS ==> r.daysOfWeek != 0
  {
  }

  /**
   * A confirmed SPECIFIC_DAYS choice made with the chips at a valid time always fires
   * within a week: the scheduler never returns the sentinel for it.
   */
  lemma ConfirmedSpecificDaysFires(result: ReminderDialogResult, reminder: Reminder, now: int, zone: int)
    requires SaveEnabled(result.intervalType, result.daysOfWeek) && WithinWeek(result.daysOfWeek)
    requires result.intervalType == SPECIFIC_DAYS && ValidClock(result.hour, result.minute)
    requires reminder.hour == result.hour && reminder.minute == result.minute
    requires reminder.intervalType == result.intervalType && reminder.daysOfWeek == result.daysOfWeek
    ensures now < NextAlarmTime(reminder, now, zone) <= now + 7 * DAY_MS
    ensures IsDaySelected(reminder, DayOfWeek(NextAlarmTime(reminder, now, zone), zone))
  {
    assert reminder.daysOfWeek & WEEK != 0;
    SpecificDaysFiresOnFirstSelectedDay(reminder, now, zone);
  }

  // ---------------------------------------------------------------------------
  // The dialog's state

  /** The dialog's mutable state: the time picker's hour and minute, the radio choice and the chip mask. */
  class ReminderDialogState {
    var hour: int
    var minute: int
    var intervalType: string
    var daysOfWeek: bv32

    constructor (initialHour: int := DEFAULT_HOUR, initialMinute: int := DEFAULT_MINUTE,
                 initialIntervalType: string := DEFAULT_INTERVAL_TYPE, initialDaysOfWeek: bv32 := DEFAULT_DAYS_OF_WEEK)
      ensures hour == initialHour && minute == initialMinute
      ensures intervalType == initialIntervalType && daysOfWeek == initialDaysOfWeek
    {
      hour := initialHour;
      minute := initialMinute;
      intervalType := initialIntervalType;
      daysOfWeek := initialDaysOfWeek;
    }

    /** A radio button click: the interval type changes, the mask is kept even when chips hide. */
    method SelectInterval(intervalType': string)
      modifies this
      ensures intervalType == intervalType'
      ensures hour == old(hour) && minute == old(minute) && daysOfWeek == old(daysOfWeek)
    {
      intervalType := intervalType';
    }

    /** The time picker reporting a new hour and minute. */
    method PickTime(hour': int, minute': int)
      modifies this
      ensures hour == hour' && minute == minute'
      ensures intervalType == old(intervalType) && daysOfWeek == old(daysOfWeek)
    {
      hour, minute := hour', minute';
    }

    /** A click on the chip of `bit`; chips are shown only while SPECIFIC_DAYS is chosen. */
    method ClickDayChip(bit: bv32)
      requires IsDayBit(bit) && intervalType == SPECIFIC_DAYS
      modifies this
      ensures daysOfWeek == ToggleDay(old(daysOfWeek), bit)
      ensures WithinWeek(old(daysOfWeek)) ==> WithinWeek(daysOfWeek)
      ensures hour == old(hour) && minute == old(minute) && intervalType == old(intervalType)
    {
      ghost var before := daysOfWeek;
      var selected := daysOfWeek & bit != 0;
      if selected {
        daysOfWeek := daysOfWeek & !bit;
      } else {
        daysOfWeek := daysOfWeek | bit;
      }
      assert daysOfWeek == ToggleDay(before, bit);
      if WithinWeek(before) {
        ToggleStaysWithinWeek(before, bit);
      }
    }

    predicate CanSave()
      reads this
    {
      SaveEnabled(intervalType, daysOfWeek)
    }

    /** The Save click, possible only while the button is enabled. */
    method Save() returns (result: ReminderDialogResult)
      requires CanSave()
      ensures result == Confirm(hour, minute, intervalType, daysOfWeek)
      ensures result.intervalType == SPECIFIC_DAYS ==> result.daysOfWeek != 0
    {
      result := ReminderDialogResult(hour, minute, intervalType, if intervalType == SPECIFIC_DAYS then daysOfWeek else 0);
    }
  }
}

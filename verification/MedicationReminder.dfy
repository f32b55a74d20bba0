/**
 * The stored reminder: the time of day, the recurrence rule (its interval type) and,
 * for the "specific days" rule, a weekday bit mask with Sunday in bit 0.
 */
module MedicationReminder {

  /** The interval types, stored as text. Other text may be stored; the scheduler treats it as daily. */
  const DAILY: string := "DAILY"
  const EVERY_OTHER_DAY: string := "EVERY_OTHER_DAY"
  const SPECIFIC_DAYS: string := "SPECIFIC_DAYS"

  /** Weekday bits, one per `Calendar` weekday SUNDAY = 1 .. SATURDAY = 7. */
  const SUN: bv32 := 1
  const MON: bv32 := 2
  const TUE: bv32 := 4
  const WED: bv32 := 8
  const THU: bv32 := 16
  const FRI: bv32 := 32
  const SAT: bv32 := 64

  /** All seven weekday bits. */
  const WEEK: bv32 := 127

  predicate IsDayBit(bit: bv32)
  {
    bit == SUN || bit == MON || bit == TUE || bit == WED || bit == THU || bit == FRI || bit == SAT
  }

  /**
   * A reminder row. `hour` and `minute` are documented as 0-23 and 0-59 but nothing
   * enforces it; `daysOfWeek` is a Kotlin `Int`, so any 32-bit pattern can be stored.
   */
  datatype Reminder = Reminder(
    id: int := 0,
    medicationId: int,
    hour: int,
    minute: int,
    intervalType: string,
    daysOfWeek: bv32 := 0,
    isEnabled: bool := true,
    createdAt: int)
  {
    /** `isDayEnabled`: whether the mask shares a bit with `dayBit`. */
    predicate IsDayEnabled(dayBit: bv32)
      ensures IsDayEnabled(dayBit) ==> dayBit != 0 && daysOfWeek != 0
      ensures IsDayEnabled(dayBit) ==> daysOfWeek & dayBit == dayBit & daysOfWeek
    {
      daysOfWeek & dayBit != 0
    }
  }

  /** The day constants are the seven distinct powers of two 2^0 .. 2^6, and together they make 127. */
  lemma DayBitsArePowersOfTwo()
    ensures SUN == 1 << 0 && MON == 1 << 1 && TUE == 1 << 2 && WED == 1 << 3
    ensures THU == 1 << 4 && FRI == 1 << 5 && SAT == 1 << 6
    ensures SUN | MON | TUE | WED | THU | FRI | SAT == WEEK
    ensures forall b, c :: IsDayBit(b) && IsDayBit(c) && b != c ==> b & c == 0
  {
  }

  /** `isDayEnabled(0)` is false whatever the mask. */
  lemma NoBitIsNeverEnabled(r: Reminder)
    ensures !r.IsDayEnabled(0)
  {
  }

  /** With an empty mask no day bit, or any other bit, is enabled. */
  lemma EmptyMaskEnablesNothing(r: Reminder, bit: bv32)
    requires r.daysOfWeek == 0
    ensures !r.IsDayEnabled(bit)
  {
  }

  /** The three interval types are told apart. */
  lemma IntervalTypesDistinct()
    ensures DAILY != EVERY_OTHER_DAY && DAILY != SPECIFIC_DAYS && EVERY_OTHER_DAY != SPECIFIC_DAYS
  {
  }
}

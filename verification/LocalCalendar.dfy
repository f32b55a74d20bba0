/**
 * The device's local calendar, reduced to what the application reads from
 * `java.util.Calendar`: instants are epoch milliseconds, the zone is a fixed offset
 * `zone` (milliseconds east of UTC) with no daylight-saving changes, and the weekday
 * uses the `Calendar` numbering SUNDAY = 1 .. SATURDAY = 7.
 */
module LocalCalendar {

  const SECOND_MS: int := 1000
  const MINUTE_MS: int := 60_000
  const HOUR_MS: int := 3_600_000
  const DAY_MS: int := 86_400_000

  const SUNDAY: int := 1
  const MONDAY: int := 2
  const TUESDAY: int := 3
  const WEDNESDAY: int := 4
  const THURSDAY: int := 5
  const FRIDAY: int := 6
  const SATURDAY: int := 7

  /** The local day number of instant `t`; day 0 is 1970-01-01 in the zone. */
  function EpochDay(t: int, zone: int): int
  {
    (t + zone) / DAY_MS
  }

  /** Milliseconds since local midnight. */
  function TimeOfDay(t: int, zone: int): (r: int)
    ensures 0 <= r < DAY_MS
    ensures t + zone == EpochDay(t, zone) * DAY_MS + r
  {
    (t + zone) % DAY_MS
  }

  /** Local midnight of the day holding `t`. */
  function DayStart(t: int, zone: int): (r: int)
    ensures r <= t < r + DAY_MS
    ensures TimeOfDay(r, zone) == 0 && EpochDay(r, zone) == EpochDay(t, zone)
  {
    t - TimeOfDay(t, zone)
  }

  /** `Calendar.DAY_OF_WEEK`: 1970-01-01 was a Thursday. */
  function DayOfWeek(t: int, zone: int): (d: int)
    ensures SUNDAY <= d <= SATURDAY
  {
    (EpochDay(t, zone) + (THURSDAY - 1)) % 7 + 1
  }

  /** Milliseconds from midnight to hour:minute:00.000. */
  function ClockTime(hour: int, minute: int): int
  {
    hour * HOUR_MS + minute * MINUTE_MS
  }

  /** The documented ranges of a reminder's time: hour 0-23, minute 0-59. */
  predicate ValidClock(hour: int, minute: int)
  {
    0 <= hour <= 23 && 0 <= minute <= 59
  }

  /**
   * `set(HOUR_OF_DAY, hour); set(MINUTE, minute); set(SECOND, 0); set(MILLISECOND, 0)`
   * on a lenient calendar holding `t`: the day of `t` at the given clock time, where
   * out-of-range fields roll over into neighbouring days.
   */
  function SetClock(t: int, hour: int, minute: int, zone: int): int
  {
    DayStart(t, zone) + ClockTime(hour, minute)
  }

  lemma ValidClockWithinDay(hour: int, minute: int)
    requires ValidClock(hour, minute)
    ensures 0 <= ClockTime(hour, minute) < DAY_MS
  {
  }

  /** For a valid clock time, `SetClock` lands on that day at exactly that clock time. */
  lemma {:induction false} SetClockIsOnTheDay(t: int, hour: int, minute: int, zone: int)
    requires ValidClock(hour, minute)
    ensures var s := SetClock(t, hour, minute, zone);
      EpochDay(s, zone) == EpochDay(t, zone) && TimeOfDay(s, zone) == ClockTime(hour, minute)
  {
    var c := ClockTime(hour, minute);
    var s := SetClock(t, hour, minute, zone);
    var e := EpochDay(t, zone);
    assert s + zone == e * DAY_MS + c;
    assert (s + zone) / DAY_MS == e && (s + zone) % DAY_MS == c;
  }

  /** Moving `k` whole days keeps the clock time and moves the day number by `k`. */
  lemma {:induction false} ShiftDays(t: int, k: int, zone: int)
    ensures EpochDay(t + k * DAY_MS, zone) == EpochDay(t, zone) + k
    ensures TimeOfDay(t + k * DAY_MS, zone) == TimeOfDay(t, zone)
    ensures DayStart(t + k * DAY_MS, zone) == DayStart(t, zone) + k * DAY_MS
  {
    var e, r := EpochDay(t, zone), TimeOfDay(t, zone);
    assert t + k * DAY_MS + zone == (e + k) * DAY_MS + r;
    assert (t + k * DAY_MS + zone) / DAY_MS == e + k;
    assert (t + k * DAY_MS + zone) % DAY_MS == r;
  }

  /** `add(DAY_OF_MONTH, k)` advances the weekday cyclically: the next day of SATURDAY is SUNDAY. */
  lemma {:induction false} DayOfWeekAfter(t: int, k: int, zone: int)
    ensures DayOfWeek(t + k * DAY_MS, zone) == (DayOfWeek(t, zone) - 1 + k) % 7 + 1
  {
    ShiftDays(t, k, zone);
    var e := EpochDay(t, zone);
    assert (e + k + 3) % 7 == ((e + 3) % 7 + k) % 7;
  }

  lemma NextDayOfWeek(t: int, zone: int)
    ensures DayOfWeek(t + DAY_MS, zone) == DayOfWeek(t, zone) % 7 + 1
  {
    DayOfWeekAfter(t, 1, zone);
  }

  /** Seven consecutive days starting at `t` meet every weekday, `d` at offset `(d - DayOfWeek(t)) % 7`. */
  lemma {:induction false} EveryWeekdayWithinAWeek(t: int, d: int, zone: int)
    requires SUNDAY <= d <= SATURDAY
    ensures var j := (d - DayOfWeek(t, zone)) % 7;
      0 <= j < 7 && DayOfWeek(t + j * DAY_MS, zone) == d
  {
    var j := (d - DayOfWeek(t, zone)) % 7;
    DayOfWeekAfter(t, j, zone);
  }

  /** Two instants at the same clock time lie a whole number of days apart. */
  lemma {:induction false} SameTimeOfDayIsWholeDays(t: int, u: int, zone: int)
    requires TimeOfDay(t, zone) == TimeOfDay(u, zone)
    ensures u == t + (EpochDay(u, zone) - EpochDay(t, zone)) * DAY_MS
  {
  }

  /** Within the day before `t`, no instant has the clock time of `t`. */
  lemma {:induction false} ClockTimeOnceADay(t: int, zone: int)
    ensures forall u :: t - DAY_MS < u < t ==> TimeOfDay(u, zone) != TimeOfDay(t, zone)
  {
    forall u | t - DAY_MS < u < t
      ensures TimeOfDay(u, zone) != TimeOfDay(t, zone)
    {
      var e, r := EpochDay(t, zone), TimeOfDay(t, zone);
      if u + zone >= e * DAY_MS {
        assert (u + zone) / DAY_MS == e;
        assert TimeOfDay(u, zone) == r - (t - u);
      } else {
        assert (u + zone) / DAY_MS == e - 1;
        assert TimeOfDay(u, zone) == r + DAY_MS - (t - u);
      }
    }
  }
}

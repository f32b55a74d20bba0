/**
 * The relative-time texts of the history list: which form a timestamp is shown in, as a
 * function of how long ago it was. The calendar texts `SimpleDateFormat` produces
 * (weekday names, month names, clock times) stay abstract: a form that needs one carries
 * the timestamp it formats.
 */
module TimeUtils {

  import opened Wrappers
  import opened Jvm
  import opened LocalCalendar

  // ---------------------------------------------------------------------------
  // formatTimeAgo

  /** The forms `formatTimeAgo` chooses between. */
  datatype TimeAgo =
    | JustNow
    | MinutesAgo(mins: int)
    | HoursAgo(hours: int)
    | Yesterday
    | WeekdayAt(timestamp: int)
    | FullDateAt(timestamp: int)
  {
    /** The position of the form in the order the `when` tests them. */
    function Bucket(): nat
    {
      match this
      case JustNow => 0
      case MinutesAgo(_) => 1
      case HoursAgo(_) => 2
      case Yesterday => 3
      case WeekdayAt(_) => 4
      case FullDateAt(_) => 5
    }
  }

  /** The lower bounds of buckets 1..5: one minute, one hour, one day, two days, six days. */
  const TIME_AGO_LIMITS: seq<int> := [MINUTE_MS, HOUR_MS, DAY_MS, 2 * DAY_MS, 6 * DAY_MS]

  /** `formatTimeAgo(timestamp)` at instant `now`; a timestamp in the future counts as just now. */
  function FormatTimeAgo(timestamp: int, now: int): (r: TimeAgo)
    ensures r.MinutesAgo? ==> 1 <= r.mins <= 59 && r.mins * MINUTE_MS <= now - timestamp < (r.mins + 1) * MINUTE_MS
    ensures r.HoursAgo? ==> 1 <= r.hours <= 23 && r.hours * HOUR_MS <= now - timestamp < (r.hours + 1) * HOUR_MS
    ensures r.WeekdayAt? || r.FullDateAt? ==> r.timestamp == timestamp
  {
    var diff := now - timestamp;
    if diff < MINUTE_MS then JustNow
    else if diff < HOUR_MS then MinutesAgo(diff / MINUTE_MS)
    else if diff < DAY_MS then HoursAgo(diff / HOUR_MS)
    else if diff < 2 * DAY_MS then Yesterday
    else if diff < 6 * DAY_MS then WeekdayAt(timestamp)
    else FullDateAt(timestamp)
  }

  /** The text of the relative forms; the two calendar forms are produced by the date formatter. */
  function TimeAgoText(r: TimeAgo): (text: string)
    requires !r.WeekdayAt? && !r.FullDateAt?
    ensures r.MinutesAgo? ==> |LongToString(r.mins)| <= |text| && ParseLong(text[..|LongToString(r.mins)|]) == Some(r.mins)
    ensures r.HoursAgo? ==> |LongToString(r.hours)| <= |text| && ParseLong(text[..|LongToString(r.hours)|]) == Some(r.hours)
    ensures r.MinutesAgo? || r.HoursAgo? ==> |text| > 4 && text[|text| - 4..] == " ago"
  {
    match r
    case JustNow => "Just now"
    case MinutesAgo(mins) => CountAgo(mins, " min" + (if mins > 1 then "s" else ""))
    case HoursAgo(hours) => CountAgo(hours, " hr" + (if hours > 1 then "s" else ""))
    case Yesterday => "Yesterday"
  }

  /** A counted form: the count, its unit, then " ago". */
  function CountAgo(count: int, unit: string): (text: string)
    ensures |LongToString(count)| <= |text| && ParseLong(text[..|LongToString(count)|]) == Some(count)
    ensures |text| > 4 && text[|text| - 4..] == " ago"
  {
    var digits := LongToString(count);
    ParseLongOfLongToString(count);
    assert (digits + unit + " ago")[..|digits|] == digits;
    digits + unit + " ago"
  }

  /** Anything less than a minute old, and anything in the future, is "Just now". */
  lemma FutureIsJustNow(timestamp: int, now: int)
    requires now - timestamp < MINUTE_MS
    ensures TimeAgoText(FormatTimeAgo(timestamp, now)) == "Just now"
  {
  }

  /** Each form covers exactly the differences from its limit up to the next one, so the forms are disjoint and cover every difference. */
  lemma TimeAgoBucketIsItsInterval(timestamp: int, now: int)
    ensures var k := FormatTimeAgo(timestamp, now).Bucket();
      && k <= 5
      && (k == 0 || TIME_AGO_LIMITS[k - 1] <= now - timestamp)
      && (k == 5 || now - timestamp < TIME_AGO_LIMITS[k])
  {
  }

  /** An older timestamp never gets an earlier form. */
  lemma TimeAgoBucketMonotone(newer: int, older: int, now: int)
    requires older <= newer
    ensures FormatTimeAgo(newer, now).Bucket() <= FormatTimeAgo(older, now).Bucket()
  {
  }

  /** The unit is singular exactly for one minute or one hour. */
  lemma SingularUnitOnlyForOne(timestamp: int, now: int)
    ensures var r := FormatTimeAgo(timestamp, now);
      && (r.MinutesAgo? ==> (TimeAgoText(r) == LongToString(r.mins) + " min ago" <==> r.mins == 1))
      && (r.HoursAgo? ==> (TimeAgoText(r) == LongToString(r.hours) + " hr ago" <==> r.hours == 1))
  {
    var r := FormatTimeAgo(timestamp, now);
    if r.MinutesAgo? {
      var d := LongToString(r.mins);
      assert r.mins > 1 ==> |TimeAgoText(r)| == |d| + 9;
    } else if r.HoursAgo? {
      var d := LongToString(r.hours);
      assert r.hours > 1 ==> |TimeAgoText(r)| == |d| + 8;
    }
  }

  // ---------------------------------------------------------------------------
  // formatDateTime

  /** The forms `formatDateTime` chooses between, each formatting the timestamp. */
  datatype DateTimeLabel =
    | TodayAtTime(timestamp: int)
    | YesterdayAtTime(timestamp: int)
    | WeekdayAtTime(timestamp: int)
    | FullDateAtTime(timestamp: int)

  /** `formatDateTime(timestamp)` at instant `now`: by the difference alone, not by calendar day. */
  function FormatDateTime(timestamp: int, now: int): (r: DateTimeLabel)
    ensures r.timestamp == timestamp
  {
    var diff := now - timestamp;
    if diff < DAY_MS then TodayAtTime(timestamp)
    else if diff < 2 * DAY_MS then YesterdayAtTime(timestamp)
    else if diff < 6 * DAY_MS then WeekdayAtTime(timestamp)
    else FullDateAtTime(timestamp)
  }

  /**
   * From one day on, `formatDateTime` and `formatTimeAgo` choose the same form: both say
   * yesterday, weekday or full date for the same differences; below one day the first
   * says "Today at" where the second counts minutes or hours.
   */
  lemma DateTimeAgreesWithTimeAgo(timestamp: int, now: int)
    ensures var a, d := FormatTimeAgo(timestamp, now), FormatDateTime(timestamp, now);
      && (d.TodayAtTime? <==> a.Bucket() <= 2)
      && (d.YesterdayAtTime? <==> a.Yesterday?)
      && (d.WeekdayAtTime? <==> a.WeekdayAt?)
      && (d.FullDateAtTime? <==> a.FullDateAt?)
  {
  }

  // ---------------------------------------------------------------------------
  // formatDate

  /** The forms `formatDate` chooses between. */
  datatype DateLabel =
    | TodayLabel
    | YesterdayLabel
    | WeekdayLabel(timestamp: int)
    | FullDateLabel(timestamp: int)

  /** Same YEAR and DAY_OF_YEAR in the zone, which is the same local day number. */
  predicate SameDay(timestamp: int, now: int, zone: int)
  {
    EpochDay(timestamp, zone) == EpochDay(now, zone)
  }

  /** `formatDate(timestamp)` at instant `now`: "Today" by calendar day, the rest by difference. */
  function FormatDate(timestamp: int, now: int, zone: int): (r: DateLabel)
    ensures r.WeekdayLabel? || r.FullDateLabel? ==> r.timestamp == timestamp
  {
    var diff := now - timestamp;
    if SameDay(timestamp, now, zone) then TodayLabel
    else if diff < 2 * DAY_MS then YesterdayLabel
    else if diff < 6 * DAY_MS then WeekdayLabel(timestamp)
    else FullDateLabel(timestamp)
  }

  /** "Today" is exactly the calendar day of `now`, which lies less than a day either side of it. */
  lemma TodayIsTheSameCalendarDay(timestamp: int, now: int, zone: int)
    ensures FormatDate(timestamp, now, zone) == TodayLabel <==> SameDay(timestamp, now, zone)
    ensures FormatDate(timestamp, now, zone) == TodayLabel ==> -DAY_MS < now - timestamp < DAY_MS
  {
  }

  /** A timestamp on a later calendar day than `now` is labelled "Yesterday", the difference being negative. */
  lemma LaterDayIsLabelledYesterday(timestamp: int, now: int, zone: int)
    requires EpochDay(timestamp, zone) > EpochDay(now, zone)
    ensures FormatDate(timestamp, now, zone) == YesterdayLabel
  {
  }

  /** Apart from today, `formatDate` picks the weekday and full-date forms where `formatDateTime` does. */
  lemma DateAgreesWithDateTime(timestamp: int, now: int, zone: int)
    requires !SameDay(timestamp, now, zone)
    ensures var d, t := FormatDate(timestamp, now, zone), FormatDateTime(timestamp, now);
      && (d.WeekdayLabel? <==> t.WeekdayAtTime?)
      && (d.FullDateLabel? <==> t.FullDateAtTime?)
      && (d.YesterdayLabel? <==> t.TodayAtTime? || t.YesterdayAtTime?)
  {
  }
}

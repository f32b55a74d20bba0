/**
 * The home-screen widget of the older package: it has no nickname, labels the last dose
 * by the elapsed time alone, and opens the take screen through a deep link.
 */
module LegacyMedTrackerWidget {

  import opened Wrappers
  import opened Jvm
  import opened LocalCalendar
  import opened Entities
  import opened WidgetState
  import opened WidgetUpdater
  import TimeUtils
  import MedTrackerWidget

  // ---------------------------------------------------------------------------
  // refreshWidgetData

  /** The keys the refresh rewrites for a widget whose medication exists. */
  const LEGACY_REFRESHED_KEYS: set<WidgetKey> := {MedicationName, MedicationDosage, LastTakenAt, LastAmount}

  /**
   * The update block of the older `refreshWidgetData`. A deleted medication loses the same
   * five keys as in the deletion pass of the newer package (`CLEARED_KEYS`).
   */
  function LegacyRefreshedPrefs(prefs: Prefs, medications: map<int, Medication>, lastLogs: map<int, MedicationLog>): (r: Prefs)
    ensures MedicationIdOf(prefs).None? ==> r == prefs
    ensures MedicationIdOf(prefs).Some? && MedicationIdOf(prefs).value !in medications ==>
      && (forall k :: k in CLEARED_KEYS ==> k !in r)
      && SameOutside(r, prefs, CLEARED_KEYS)
    ensures MedicationIdOf(prefs).Some? && MedicationIdOf(prefs).value in medications ==>
      var medId := MedicationIdOf(prefs).value;
      var med := medications[medId];
      && MedicationIdOf(r) == Some(medId)
      && StringPref(r, MedicationName) == Some(med.name)
      && StringPref(r, MedicationDosage) == Some(med.dosage)
      && (medId in lastLogs ==>
            LongPref(r, LastTakenAt) == Some(lastLogs[medId].takenAt)
            && StringPref(r, LastAmount) == Some(lastLogs[medId].amount))
      && (medId !in lastLogs ==> LastTakenAt !in r && LastAmount !in r)
      && SameOutside(r, prefs, LEGACY_REFRESHED_KEYS)
  {
    match MedicationIdOf(prefs)
    case None => prefs
    case Some(medId) =>
      if medId !in medications then prefs - CLEARED_KEYS
      else
        var med := medications[medId];
        var named := prefs[MedicationName := StringValue(med.name)][MedicationDosage := StringValue(med.dosage)];
        if medId in lastLogs then
          named[LastTakenAt := LongValue(lastLogs[medId].takenAt)][LastAmount := StringValue(lastLogs[medId].amount)]
        else named - {LastTakenAt, LastAmount}
  }

  /**
   * The two refreshes agree on every key but the nickname, which the older one never
   * touches: for a deleted medication the older refresh is exactly the deletion pass.
   */
  lemma LegacyRefreshAgreesExceptNickname(prefs: Prefs, medications: map<int, Medication>, lastLogs: map<int, MedicationLog>)
    ensures SameOutside(LegacyRefreshedPrefs(prefs, medications, lastLogs),
                        MedTrackerWidget.RefreshedPrefs(prefs, medications, lastLogs), {MedicationNickname})
    ensures var r := LegacyRefreshedPrefs(prefs, medications, lastLogs);
      (MedicationNickname in r <==> MedicationNickname in prefs)
      && (MedicationNickname in r ==> r[MedicationNickname] == prefs[MedicationNickname])
    ensures MedicationIdOf(prefs).Some? && MedicationIdOf(prefs).value !in medications ==>
      LegacyRefreshedPrefs(prefs, medications, lastLogs) == Cleared(prefs, MedicationIdOf(prefs).value)
  {
  }

  /** The older refresh is idempotent against a fixed database. */
  lemma LegacyRefreshIdempotent(prefs: Prefs, medications: map<int, Medication>, lastLogs: map<int, MedicationLog>)
    ensures var once := LegacyRefreshedPrefs(prefs, medications, lastLogs);
      LegacyRefreshedPrefs(once, medications, lastLogs) == once
  {
    var once := LegacyRefreshedPrefs(prefs, medications, lastLogs);
    var twice := LegacyRefreshedPrefs(once, medications, lastLogs);
    if MedicationIdOf(prefs).Some? && MedicationIdOf(prefs).value in medications {
      assert forall k :: k in twice <==> k in once;
    }
  }

  /** The older `refreshWidgetData` on one placed widget, as the block runs it. */
  method LegacyRefreshWidgetData(host: WidgetHost, glanceId: int, medications: map<int, Medication>, lastLogs: map<int, MedicationLog>)
    requires host.Valid() && glanceId in host.glanceIds
    modifies host
    ensures host.Valid() && host.states.Keys == old(host.states.Keys)
    ensures host.states == old(host.states)[glanceId := LegacyRefreshedPrefs(old(host.PrefsOf(glanceId)), medications, lastLogs)]
  {
    var prefs := host.PrefsOf(glanceId);
    ghost var read := prefs;
    match MedicationIdOf(prefs) {
      case None =>
      case Some(medId) =>
        if medId !in medications {
          prefs := prefs - {MedicationId};
          prefs := prefs - {MedicationName};
          prefs := prefs - {MedicationDosage};
          prefs := prefs - {LastTakenAt};
          prefs := prefs - {LastAmount};
          RemovalsClearKeys(read);
        } else {
          var med := medications[medId];
          prefs := prefs[MedicationName := StringValue(med.name)];
          prefs := prefs[MedicationDosage := StringValue(med.dosage)];
          if medId in lastLogs {
            var lastLog := lastLogs[medId];
            prefs := prefs[LastTakenAt := LongValue(lastLog.takenAt)];
            prefs := prefs[LastAmount := StringValue(lastLog.amount)];
          } else {
            ghost var named := prefs;
            prefs := prefs - {LastTakenAt};
            prefs := prefs - {LastAmount};
            assert prefs == named - {LastTakenAt, LastAmount};
          }
        }
    }
    assert prefs == LegacyRefreshedPrefs(read, medications, lastLogs);
    host.states := host.states[glanceId := prefs];
  }

  // ---------------------------------------------------------------------------
  // What the widget shows

  /** The forms of the older "last taken" line. */
  datatype LegacyLabel =
    | LegacyNever
    | LegacyTime(timestamp: int)
    | LegacyYesterday
    | LegacyWeekdayTime(timestamp: int)
    | LegacyMonthDay(timestamp: int)

  /** The older "last taken" line, by the difference `now - lastTakenAt` only. */
  function LegacyLastTakenLabel(lastTakenAt: Option<int>, now: int): (r: LegacyLabel)
    ensures r.LegacyNever? <==> lastTakenAt.None?
    ensures r.LegacyTime? || r.LegacyWeekdayTime? || r.LegacyMonthDay? ==> r.timestamp == lastTakenAt.value
  {
    match lastTakenAt
    case None => LegacyNever
    case Some(t) =>
      var diff := now - t;
      if diff < DAY_MS then LegacyTime(t)
      else if diff < 2 * DAY_MS then LegacyYesterday
      else if diff < 6 * DAY_MS then LegacyWeekdayTime(t)
      else LegacyMonthDay(t)
  }

  /** The older widget label uses the same four intervals as the history list's `formatDateTime`. */
  lemma LegacyLabelIsDateTimeBucket(t: int, now: int)
    ensures var l, d := LegacyLastTakenLabel(Some(t), now), TimeUtils.FormatDateTime(t, now);
      && (l.LegacyTime? <==> d.TodayAtTime?)
      && (l.LegacyYesterday? <==> d.YesterdayAtTime?)
      && (l.LegacyWeekdayTime? <==> d.WeekdayAtTime?)
      && (l.LegacyMonthDay? <==> d.FullDateAtTime?)
  {
  }

  /**
   * Against the newer widget, for a dose in the past: a dose of today shows its time in
   * both, and a dose the newer widget shows as a date the older one does too; the older
   * widget switches to the date form a day earlier.
   */
  lemma {:induction false} LegacyAndNewerLabels(t: int, now: int, zone: int)
    requires t <= now
    ensures var l, n := LegacyLastTakenLabel(Some(t), now), MedTrackerWidget.LastTakenLabelOf(Some(t), now, zone);
      && (n.TakenToday? ==> l.LegacyTime?)
      && (n.TakenOn? ==> l.LegacyMonthDay?)
      && (6 * DAY_MS <= now - t < MedTrackerWidget.WEEK_MS ==> l.LegacyMonthDay? && !n.TakenOn?)
  {
    MedTrackerWidget.LastTakenLabelByDay(t, now, zone);
    var e, f := EpochDay(t, zone), EpochDay(now, zone);
    if e == f {
      assert e * DAY_MS <= t + zone && now + zone < (f + 1) * DAY_MS;
    }
  }

  /** The two faces of the older widget. */
  datatype LegacyView =
    | LegacySetupView
    | LegacyTrackingView(name: string, lastTaken: LegacyLabel)

  /** The older `WidgetContentInner`: the stored name, or "No medication", and the last-dose line. */
  function LegacyWidgetContent(prefs: Prefs, now: int): (r: LegacyView)
    ensures r.LegacySetupView? <==> MedTrackerWidget.ClickAction(prefs) == MedTrackerWidget.OpenConfig
    ensures r.LegacyTrackingView? ==> r.name == StringPref(prefs, MedicationName).GetOr(MedTrackerWidget.NO_MEDICATION)
  {
    if MedicationIdOf(prefs).Some? then
      LegacyTrackingView(StringPref(prefs, MedicationName).GetOr(MedTrackerWidget.NO_MEDICATION),
                         LegacyLastTakenLabel(LongPref(prefs, LastTakenAt), now))
    else LegacySetupView
  }

  /** The older widget shows the same whatever nickname is stored. */
  lemma LegacyIgnoresNickname(prefs: Prefs, nickname: PrefValue, now: int)
    ensures LegacyWidgetContent(prefs[MedicationNickname := nickname], now) == LegacyWidgetContent(prefs, now)
  {
    var p := prefs[MedicationNickname := nickname];
    assert MedicationIdOf(p) == MedicationIdOf(prefs);
    assert StringPref(p, MedicationName) == StringPref(prefs, MedicationName);
    assert LongPref(p, LastTakenAt) == LongPref(prefs, LastTakenAt);
  }

  // ---------------------------------------------------------------------------
  // TakeMedicationAction

  const TAKE_URI_PREFIX: string := "medtracker://take/"

  /** The deep link the older `TakeMedicationAction` opens, or nothing when `med_id` is missing. */
  function TakeUri(medIdParameter: Option<int>): (uri: Option<string>)
    ensures uri.Some? <==> medIdParameter.Some?
    ensures uri.Some? ==> |uri.value| > |TAKE_URI_PREFIX| && uri.value[..|TAKE_URI_PREFIX|] == TAKE_URI_PREFIX
  {
    match medIdParameter
    case None => None
    case Some(medId) => Some(TAKE_URI_PREFIX + LongToString(medId))
  }

  /** The medication id can be read back from the last path segment of the deep link. */
  lemma TakeUriRoundTrip(medId: int)
    ensures var uri := TakeUri(Some(medId)).value;
      ParseLong(uri[|TAKE_URI_PREFIX|..]) == Some(medId)
  {
    var uri := TakeUri(Some(medId)).value;
    assert uri[|TAKE_URI_PREFIX|..] == LongToString(medId);
    ParseLongOfLongToString(medId);
  }

  /** Tapping a bound older widget links to exactly the widget's own medication. */
  lemma LegacyTapLinksOwnMedication(prefs: Prefs, medId: int)
    requires Tracks(prefs, medId)
    ensures MedTrackerWidget.ClickAction(prefs) == MedTrackerWidget.TakeMedication(medId)
    ensures ParseLong(TakeUri(Some(MedTrackerWidget.ClickAction(prefs).medId)).value[|TAKE_URI_PREFIX|..]) == Some(medId)
  {
    TakeUriRoundTrip(medId);
  }
}

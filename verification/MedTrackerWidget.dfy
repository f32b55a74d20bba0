/**
 * The home-screen widget of the newer package: the refresh that re-reads a widget's
 * medication from the database before each render, what the widget shows and what a tap
 * does, and the broadcast that binds a freshly pinned widget to a medication.
 * Database answers are parameters: `medications` is `getMedicationById`,
 * `lastLogs` is `getLastLogForMedication`.
 */
module MedTrackerWidget {

  import opened Wrappers
  import opened LocalCalendar
  import opened Entities
  import opened WidgetState
  import opened WidgetUpdater

  // ---------------------------------------------------------------------------
  // refreshWidgetData

  /** The keys the refresh removes from a widget whose medication was deleted; the dose count stays. */
  const REFRESH_CLEARED_KEYS: set<WidgetKey> :=
    {MedicationId, MedicationName, MedicationNickname, MedicationDosage, LastTakenAt, LastAmount}

  /** The keys the refresh rewrites for a widget whose medication exists. */
  const REFRESHED_KEYS: set<WidgetKey> :=
    {MedicationName, MedicationNickname, MedicationDosage, LastTakenAt, LastAmount}

  /** The update block of `refreshWidgetData`. */
  function RefreshedPrefs(prefs: Prefs, medications: map<int, Medication>, lastLogs: map<int, MedicationLog>): (r: Prefs)
    ensures MedicationIdOf(prefs).None? ==> r == prefs
    ensures MedicationIdOf(prefs).Some? && MedicationIdOf(prefs).value !in medications ==>
      && (forall k :: k in REFRESH_CLEARED_KEYS ==> k !in r)
      && SameOutside(r, prefs, REFRESH_CLEARED_KEYS)
    ensures MedicationIdOf(prefs).Some? && MedicationIdOf(prefs).value in medications ==>
      var medId := MedicationIdOf(prefs).value;
      var med := medications[medId];
      && MedicationIdOf(r) == Some(medId)
      && StringPref(r, MedicationName) == Some(med.name)
      && StringPref(r, MedicationNickname) == Some(med.nickname)
      && StringPref(r, MedicationDosage) == Some(med.dosage)
      && (medId in lastLogs ==>
            LongPref(r, LastTakenAt) == Some(lastLogs[medId].takenAt)
            && StringPref(r, LastAmount) == Some(lastLogs[medId].amount))
      && (medId !in lastLogs ==> LastTakenAt !in r && LastAmount !in r)
      && SameOutside(r, prefs, REFRESHED_KEYS)
  {
    match MedicationIdOf(prefs)
    case None => prefs
    case Some(medId) =>
      if medId !in medications then prefs - REFRESH_CLEARED_KEYS
      else
        var med := medications[medId];
        var named := prefs[MedicationName := StringValue(med.name)]
                          [MedicationNickname := StringValue(med.nickname)]
                          [MedicationDosage := StringValue(med.dosage)];
        if medId in lastLogs then
          named[LastTakenAt := LongValue(lastLogs[medId].takenAt)][LastAmount := StringValue(lastLogs[medId].amount)]
        else named - {LastTakenAt, LastAmount}
  }

  /** Refreshing twice against the same database gives what refreshing once gives. */
  lemma RefreshIdempotent(prefs: Prefs, medications: map<int, Medication>, lastLogs: map<int, MedicationLog>)
    ensures var once := RefreshedPrefs(prefs, medications, lastLogs);
      RefreshedPrefs(once, medications, lastLogs) == once
  {
    var once := RefreshedPrefs(prefs, medications, lastLogs);
    var twice := RefreshedPrefs(once, medications, lastLogs);
    if MedicationIdOf(prefs).Some? && MedicationIdOf(prefs).value in medications {
      assert forall k :: k in twice <==> k in once;
    }
  }

  /**
   * A dose pushed into a widget is what the next refresh reads back when that dose is the
   * newest log: pushing before the refresh changes nothing, and a refreshed widget already
   * holds the pushed values.
   */
  lemma PushedDoseAgreesWithRefresh(prefs: Prefs, medications: map<int, Medication>, lastLogs: map<int, MedicationLog>,
                                    medId: int, takenAt: int, amount: string)
    requires medId in medications && medId in lastLogs
    requires lastLogs[medId].takenAt == takenAt && lastLogs[medId].amount == amount
    ensures RefreshedPrefs(WithLastTaken(prefs, medId, takenAt, amount), medications, lastLogs)
         == RefreshedPrefs(prefs, medications, lastLogs)
    ensures var refreshed := RefreshedPrefs(prefs, medications, lastLogs);
      WithLastTaken(refreshed, medId, takenAt, amount) == refreshed
  {
    var pushed := WithLastTaken(prefs, medId, takenAt, amount);
    var refreshed := RefreshedPrefs(prefs, medications, lastLogs);
    if Tracks(prefs, medId) {
      var a := RefreshedPrefs(pushed, medications, lastLogs);
      assert Tracks(pushed, medId);
      assert forall k :: k in a <==> k in refreshed;
      assert Tracks(refreshed, medId);
      var b := WithLastTaken(refreshed, medId, takenAt, amount);
      assert forall k :: k in b <==> k in refreshed;
    }
  }

  /** Likewise, a name and dosage pushed after an edit are what the next refresh reads back. */
  lemma PushedEditAgreesWithRefresh(prefs: Prefs, medications: map<int, Medication>, lastLogs: map<int, MedicationLog>,
                                    medId: int, name: string, dosage: string)
    requires medId in medications
    requires medications[medId].name == name && medications[medId].dosage == dosage
    ensures RefreshedPrefs(WithMedicationUpdate(prefs, medId, name, dosage), medications, lastLogs)
         == RefreshedPrefs(prefs, medications, lastLogs)
    ensures var refreshed := RefreshedPrefs(prefs, medications, lastLogs);
      WithMedicationUpdate(refreshed, medId, name, dosage) == refreshed
  {
    var pushed := WithMedicationUpdate(prefs, medId, name, dosage);
    var refreshed := RefreshedPrefs(prefs, medications, lastLogs);
    if Tracks(prefs, medId) {
      var a := RefreshedPrefs(pushed, medications, lastLogs);
      assert Tracks(pushed, medId);
      assert forall k :: k in a <==> k in refreshed;
      assert Tracks(refreshed, medId);
      var b := WithMedicationUpdate(refreshed, medId, name, dosage);
      assert forall k :: k in b <==> k in refreshed;
    }
  }

  /**
   * A widget whose medication is gone: the refresh clears it like the deletion pass does,
   * except that the refresh also drops the nickname; after the deletion pass the refresh
   * leaves the widget alone.
   */
  lemma RefreshOfDeletedMedication(prefs: Prefs, medications: map<int, Medication>, lastLogs: map<int, MedicationLog>, medId: int)
    requires Tracks(prefs, medId) && medId !in medications
    ensures RefreshedPrefs(prefs, medications, lastLogs) == Cleared(prefs, medId) - {MedicationNickname}
    ensures RefreshedPrefs(Cleared(prefs, medId), medications, lastLogs) == Cleared(prefs, medId)
  {
    assert REFRESH_CLEARED_KEYS == CLEARED_KEYS + {MedicationNickname};
    assert MedicationIdOf(Cleared(prefs, medId)).None?;
  }

  /** `refreshWidgetData` on one placed widget, as the block runs it. */
  method RefreshWidgetData(host: WidgetHost, glanceId: int, medications: map<int, Medication>, lastLogs: map<int, MedicationLog>)
    requires host.Valid() && glanceId in host.glanceIds
    modifies host
    ensures host.Valid() && host.states.Keys == old(host.states.Keys)
    ensures host.states == old(host.states)[glanceId := RefreshedPrefs(old(host.PrefsOf(glanceId)), medications, lastLogs)]
  {
    var prefs := host.PrefsOf(glanceId);
    ghost var read := prefs;
    match MedicationIdOf(prefs) {
      case None =>
      case Some(medId) =>
        if medId !in medications {
          prefs := prefs - {MedicationId};
          prefs := prefs - {MedicationName};
          prefs := prefs - {MedicationNickname};
          prefs := prefs - {MedicationDosage};
          prefs := prefs - {LastTakenAt};
          prefs := prefs - {LastAmount};
          assert prefs == read - REFRESH_CLEARED_KEYS;
        } else {
          var med := medications[medId];
          prefs := prefs[MedicationName := StringValue(med.name)];
          prefs := prefs[MedicationNickname := StringValue(med.nickname)];
          prefs := prefs[MedicationDosage := StringValue(med.dosage)];
          if medId in lastLogs {
            var lastLog := lastLogs[medId];
            prefs := prefs[LastTakenAt := LongValue(lastLog.takenAt)];
            prefs := prefs[LastAmount := StringValue(lastLog.amount)];
          } else {
            ghost var named := prefs;
            prefs := prefs - {LastTakenAt};
            prefs := prefs - {LastAmount};
            assert prefs == named - {LastTakenAt, LastAmount};
          }
        }
    }
    assert prefs == RefreshedPrefs(read, medications, lastLogs);
    host.states := host.states[glanceId := prefs];
  }

  // ---------------------------------------------------------------------------
  // What the widget shows

  /** The name shown while no name is stored. */
  const NO_MEDICATION: string := "No medication"

  /** The characters `isBlank` treats as white space, restricted to ASCII. */
  const WHITESPACE: set<char> := {' ', '\t', '\n', '\U{000B}', '\U{000C}', '\r', '\U{001C}', '\U{001D}', '\U{001E}', '\U{001F}'}

  /** `isBlank`: empty, or white space only. */
  predicate IsBlank(s: string)
    ensures |s| == 0 ==> IsBlank(s)
    ensures IsBlank(s) <==> (set i | 0 <= i < |s| :: s[i]) <= WHITESPACE
  {
    forall i :: 0 <= i < |s| ==> s[i] in WHITESPACE
  }

  /** The nickname when it is set and not blank, the name otherwise. */
  function DisplayName(prefs: Prefs): (r: string)
    ensures StringPref(prefs, MedicationNickname).Some? && !IsBlank(StringPref(prefs, MedicationNickname).value) ==>
      r == StringPref(prefs, MedicationNickname).value
    ensures StringPref(prefs, MedicationNickname).None? || IsBlank(StringPref(prefs, MedicationNickname).value) ==>
      r == StringPref(prefs, MedicationName).GetOr(NO_MEDICATION)
  {
    var medName := StringPref(prefs, MedicationName).GetOr(NO_MEDICATION);
    match StringPref(prefs, MedicationNickname)
    case Some(nickname) => if !IsBlank(nickname) then nickname else medName
    case None => medName
  }

  /** The shown name is blank only when the stored name is blank and the nickname is missing or blank. */
  lemma DisplayNameBlankOnlyIfNameBlank(prefs: Prefs)
    ensures IsBlank(DisplayName(prefs)) ==>
      && StringPref(prefs, MedicationName).Some? && IsBlank(StringPref(prefs, MedicationName).value)
      && (StringPref(prefs, MedicationNickname).None? || IsBlank(StringPref(prefs, MedicationNickname).value))
  {
    if StringPref(prefs, MedicationName).None? {
      assert NO_MEDICATION[0] !in WHITESPACE;
    }
  }

  /** What a tap starts: the take-medication screen for the bound medication, or the configuration screen. */
  datatype WidgetAction = TakeMedication(medId: int) | OpenConfig

  /** The click action of both packages' widgets. */
  function ClickAction(prefs: Prefs): (r: WidgetAction)
    ensures r.OpenConfig? <==> MedicationIdOf(prefs).None?
    ensures r.TakeMedication? ==> Tracks(prefs, r.medId)
  {
    match MedicationIdOf(prefs)
    case Some(medId) => TakeMedication(medId)
    case None => OpenConfig
  }

  /** `TakeMedicationAction.onAction`: the `med_id` extra of the screen it starts, or nothing when the parameter is missing. */
  function TakeMedicationLaunch(medIdParameter: Option<int>): (launched: Option<int>)
    ensures launched.Some? <==> medIdParameter.Some?
  {
    match medIdParameter
    case None => None
    case Some(medId) => Some(medId)
  }

  /** Tapping a bound widget opens the take screen of exactly the widget's own medication. */
  lemma TapOpensOwnMedication(prefs: Prefs, medId: int)
    requires Tracks(prefs, medId)
    ensures ClickAction(prefs) == TakeMedication(medId)
    ensures TakeMedicationLaunch(Some(ClickAction(prefs).medId)) == Some(medId)
  {
  }

  /** The forms of the "last taken" line. */
  datatype LastTakenLabel =
    | NeverTaken
    | TakenToday(timestamp: int)
    | TakenYesterday(timestamp: int)
    | TakenThisWeek(timestamp: int)
    | TakenOn(timestamp: int)

  /** `DateUtils.isToday`: the same local day as `now`. */
  predicate IsToday(t: int, now: int, zone: int)
    ensures IsToday(t, now, zone) <==> DayStart(now, zone) <= t < DayStart(now, zone) + DAY_MS
    ensures IsToday(t, now, zone) ==> -DAY_MS < now - t < DAY_MS
  {
    EpochDay(t, zone) == EpochDay(now, zone)
  }

  /** `isYesterday`: one day later is today. */
  predicate IsYesterday(t: int, now: int, zone: int)
    ensures IsYesterday(t, now, zone) <==> DayStart(now, zone) - DAY_MS <= t < DayStart(now, zone)
    ensures IsYesterday(t, now, zone) ==> 0 < now - t < 2 * DAY_MS
  {
    IsToday(t + DAY_MS, now, zone)
  }

  /** The week `weekMs` of the label, in milliseconds. */
  const WEEK_MS: int := 604_800_000

  /** The "last taken" line: by calendar day for today and yesterday, then by the difference against a week. */
  function LastTakenLabelOf(lastTakenAt: Option<int>, now: int, zone: int): (r: LastTakenLabel)
    ensures r.NeverTaken? <==> lastTakenAt.None?
    ensures !r.NeverTaken? ==> r.timestamp == lastTakenAt.value
  {
    match lastTakenAt
    case None => NeverTaken
    case Some(t) =>
      if IsToday(t, now, zone) then TakenToday(t)
      else if IsYesterday(t, now, zone) then TakenYesterday(t)
      else if now - t < WEEK_MS then TakenThisWeek(t)
      else TakenOn(t)
  }

  /**
   * The form chosen, by the number of local days between the dose and `now`: none is
   * today, one is yesterday, and any other count gives the weekday form exactly when
   * less than a week of time has passed.
   */
  lemma {:induction false} LastTakenLabelByDay(t: int, now: int, zone: int)
    ensures var r, days := LastTakenLabelOf(Some(t), now, zone), EpochDay(now, zone) - EpochDay(t, zone);
      && (r.TakenToday? <==> days == 0)
      && (r.TakenYesterday? <==> days == 1)
      && (r.TakenThisWeek? <==> days != 0 && days != 1 && now - t < WEEK_MS)
      && (r.TakenOn? <==> days != 0 && days != 1 && now - t >= WEEK_MS)
  {
    ShiftDays(t, 1, zone);
  }

  /** For a dose in the past, the weekday form covers two to seven local days back, the date form seven or more. */
  lemma {:induction false} PastLabelsByDayCount(t: int, now: int, zone: int)
    requires t <= now
    ensures var r, days := LastTakenLabelOf(Some(t), now, zone), EpochDay(now, zone) - EpochDay(t, zone);
      && (r.TakenThisWeek? ==> 2 <= days <= 7)
      && (r.TakenOn? ==> days >= 7)
  {
    LastTakenLabelByDay(t, now, zone);
    var e, f := EpochDay(t, zone), EpochDay(now, zone);
    assert e * DAY_MS <= t + zone && now + zone < (f + 1) * DAY_MS;
    assert e <= f;
    if now - t < WEEK_MS {
      assert (f - e - 1) * DAY_MS < WEEK_MS;
    } else {
      assert (f - e + 1) * DAY_MS > WEEK_MS;
    }
  }

  /** A dose recorded on a later local day than `now` is shown in the weekday form, the difference being negative. */
  lemma {:induction false} LaterDayShowsWeekday(t: int, now: int, zone: int)
    requires EpochDay(t, zone) > EpochDay(now, zone)
    ensures LastTakenLabelOf(Some(t), now, zone) == TakenThisWeek(t)
  {
    ShiftDays(t, 1, zone);
    assert t > now;
  }

  /** The two faces of the widget: unbound, or bound to a medication. */
  datatype WidgetView =
    | SetupView
    | TrackingView(displayName: string, lastTaken: LastTakenLabel)

  /** `WidgetContentInner`: "Setup" / "Tap here" without a medication id, the name and last dose with one. */
  function WidgetContent(prefs: Prefs, now: int, zone: int): (r: WidgetView)
    ensures r.SetupView? <==> ClickAction(prefs) == OpenConfig
  {
    if MedicationIdOf(prefs).Some? then
      TrackingView(DisplayName(prefs), LastTakenLabelOf(LongPref(prefs, LastTakenAt), now, zone))
    else SetupView
  }

  /** After a dose push, a widget on that medication shows the pushed dose and still its own name. */
  lemma PushedDoseIsShown(prefs: Prefs, medId: int, takenAt: int, amount: string, now: int, zone: int)
    requires Tracks(prefs, medId)
    ensures WidgetContent(WithLastTaken(prefs, medId, takenAt, amount), now, zone)
         == TrackingView(DisplayName(prefs), LastTakenLabelOf(Some(takenAt), now, zone))
  {
    var pushed := WithLastTaken(prefs, medId, takenAt, amount);
    assert Tracks(pushed, medId);
    assert StringPref(pushed, MedicationNickname) == StringPref(prefs, MedicationNickname);
    assert StringPref(pushed, MedicationName) == StringPref(prefs, MedicationName);
  }

  /** A widget cleared by the deletion pass, or by a refresh that found no medication, shows "Setup". */
  lemma ClearedWidgetShowsSetup(prefs: Prefs, medications: map<int, Medication>, lastLogs: map<int, MedicationLog>,
                                medId: int, now: int, zone: int)
    requires Tracks(prefs, medId)
    ensures WidgetContent(Cleared(prefs, medId), now, zone) == SetupView
    ensures medId !in medications ==> WidgetContent(RefreshedPrefs(prefs, medications, lastLogs), now, zone) == SetupView
  {
  }

  // ---------------------------------------------------------------------------
  // MedTrackerWidgetReceiver.onReceive

  const ACTION_WIDGET_PINNED: string := "com.maxvonamos.medtracker.app.ACTION_WIDGET_PINNED"

  /** The default `getIntExtra` and `getLongExtra` return for a missing extra. */
  const MISSING_EXTRA: int := -1

  /** The broadcast binds a widget only for the pin action with both extras present and not -1. */
  predicate PinAccepted(action: string, appWidgetIdExtra: Option<int>, medIdExtra: Option<int>)
  {
    && action == ACTION_WIDGET_PINNED
    && appWidgetIdExtra.GetOr(MISSING_EXTRA) != MISSING_EXTRA
    && medIdExtra.GetOr(MISSING_EXTRA) != MISSING_EXTRA
  }

  /** An extra that is missing and one that is -1 are refused alike; any other pair of ids is accepted. */
  lemma PinGuard(action: string, appWidgetIdExtra: Option<int>, medIdExtra: Option<int>)
    ensures PinAccepted(action, appWidgetIdExtra, medIdExtra) <==>
      && action == ACTION_WIDGET_PINNED
      && appWidgetIdExtra.Some? && appWidgetIdExtra.value != -1
      && medIdExtra.Some? && medIdExtra.value != -1
  {
  }

  /** The block of the pin broadcast: bind the widget and, when the medication was found, copy its labels. */
  function PinnedPrefs(prefs: Prefs, medId: int, med: Option<Medication>): (r: Prefs)
    ensures Tracks(r, medId)
    ensures med.Some? ==>
      && StringPref(r, MedicationName) == Some(med.value.name)
      && StringPref(r, MedicationNickname) == Some(med.value.nickname)
      && StringPref(r, MedicationDosage) == Some(med.value.dosage)
      && SameOutside(r, prefs, {MedicationId, MedicationName, MedicationNickname, MedicationDosage})
    ensures med.None? ==> SameOutside(r, prefs, {MedicationId})
  {
    var bound := prefs[MedicationId := LongValue(medId)];
    match med
    case None => bound
    case Some(m) =>
      bound[MedicationName := StringValue(m.name)][MedicationNickname := StringValue(m.nickname)][MedicationDosage := StringValue(m.dosage)]
  }

  /**
   * The labels copied at pin time are the ones the first refresh writes anyway: pinning and
   * then refreshing gives what binding the id alone and refreshing gives.
   */
  lemma PinThenRefresh(prefs: Prefs, medId: int, medications: map<int, Medication>, lastLogs: map<int, MedicationLog>)
    ensures var med := if medId in medications then Some(medications[medId]) else None;
      RefreshedPrefs(PinnedPrefs(prefs, medId, med), medications, lastLogs)
      == RefreshedPrefs(prefs[MedicationId := LongValue(medId)], medications, lastLogs)
  {
    var med := if medId in medications then Some(medications[medId]) else None;
    var bound := prefs[MedicationId := LongValue(medId)];
    var a, b := RefreshedPrefs(PinnedPrefs(prefs, medId, med), medications, lastLogs), RefreshedPrefs(bound, medications, lastLogs);
    assert Tracks(PinnedPrefs(prefs, medId, med), medId) && Tracks(bound, medId);
    assert forall k :: k in a <==> k in b;
  }

  /** `onReceive` for a placed widget's pin broadcast; `medications` is the lookup made before binding. */
  method OnReceive(host: WidgetHost, action: string, appWidgetIdExtra: Option<int>, medIdExtra: Option<int>,
                   medications: map<int, Medication>)
    requires host.Valid()
    modifies host
    ensures host.Valid() && host.states.Keys == old(host.states.Keys)
    ensures !PinAccepted(action, appWidgetIdExtra, medIdExtra) || appWidgetIdExtra.value !in host.glanceIds ==>
      host.states == old(host.states)
    ensures PinAccepted(action, appWidgetIdExtra, medIdExtra) && appWidgetIdExtra.value in host.glanceIds ==>
      var glanceId, medId := appWidgetIdExtra.value, medIdExtra.value;
      var med := if medId in medications then Some(medications[medId]) else None;
      host.states == old(host.states)[glanceId := PinnedPrefs(old(host.PrefsOf(glanceId)), medId, med)]
  {
    if action == ACTION_WIDGET_PINNED {
      var appWidgetId := appWidgetIdExtra.GetOr(MISSING_EXTRA);
      var medId := medIdExtra.GetOr(MISSING_EXTRA);
      if appWidgetId != MISSING_EXTRA && medId != MISSING_EXTRA && appWidgetId in host.glanceIds {
        var med: Option<Medication> := if medId in medications then Some(medications[medId]) else None;
        var glanceId := appWidgetId;
        var prefs := host.PrefsOf(glanceId);
        ghost var read := prefs;
        prefs := prefs[MedicationId := LongValue(medId)];
        if med.Some? {
          prefs := prefs[MedicationName := StringValue(med.value.name)];
          prefs := prefs[MedicationNickname := StringValue(med.value.nickname)];
          prefs := prefs[MedicationDosage := StringValue(med.value.dosage)];
        }
        assert prefs == PinnedPrefs(read, medId, med);
        host.states := host.states[glanceId := prefs];
      }
    }
  }
}

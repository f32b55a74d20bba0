/**
 * The passes the application runs over every placed widget after a dose is logged, a
 * medication is edited or a medication is deleted. Each pass hands every widget's map to
 * an update block that first reads the widget's medication id and changes the map only
 * when it names the medication concerned.
 */
module WidgetUpdater {

  import opened Wrappers
  import opened WidgetState

  // ---------------------------------------------------------------------------
  // The update blocks, one widget at a time

  /** The block of `pushLastTaken`: a widget on `medicationId` gets the new dose, any other is left alone. */
  function WithLastTaken(prefs: Prefs, medicationId: int, takenAt: int, amount: string): (r: Prefs)
    ensures Tracks(prefs, medicationId) ==>
      && LongPref(r, LastTakenAt) == Some(takenAt)
      && StringPref(r, LastAmount) == Some(amount)
      && SameOutside(r, prefs, {LastTakenAt, LastAmount})
    ensures !Tracks(prefs, medicationId) ==> r == prefs
  {
    match MedicationIdOf(prefs)
    case None => prefs
    case Some(widgetMedId) =>
      if widgetMedId == medicationId then
        prefs[LastTakenAt := LongValue(takenAt)][LastAmount := StringValue(amount)]
      else prefs
  }

  /** The block of `pushMedicationUpdate`: name and dosage change, the nickname is never touched. */
  function WithMedicationUpdate(prefs: Prefs, medicationId: int, name: string, dosage: string): (r: Prefs)
    ensures Tracks(prefs, medicationId) ==>
      && StringPref(r, MedicationName) == Some(name)
      && StringPref(r, MedicationDosage) == Some(dosage)
      && SameOutside(r, prefs, {MedicationName, MedicationDosage})
    ensures !Tracks(prefs, medicationId) ==> r == prefs
  {
    match MedicationIdOf(prefs)
    case None => prefs
    case Some(widgetMedId) =>
      if widgetMedId == medicationId then
        prefs[MedicationName := StringValue(name)][MedicationDosage := StringValue(dosage)]
      else prefs
  }

  /** The keys `removeWidgetsForMedication` removes; the nickname and the dose count stay. */
  const CLEARED_KEYS: set<WidgetKey> := {MedicationId, MedicationName, MedicationDosage, LastTakenAt, LastAmount}

  /** The block of `removeWidgetsForMedication`: a widget on `medicationId` loses its binding and its last dose. */
  function Cleared(prefs: Prefs, medicationId: int): (r: Prefs)
    ensures Tracks(prefs, medicationId) ==>
      && (forall k :: k in CLEARED_KEYS ==> k !in r)
      && SameOutside(r, prefs, CLEARED_KEYS)
    ensures !Tracks(prefs, medicationId) ==> r == prefs
    ensures MedicationIdOf(r) != Some(medicationId)
  {
    match MedicationIdOf(prefs)
    case None => prefs
    case Some(widgetMedId) =>
      if widgetMedId == medicationId then prefs - CLEARED_KEYS else prefs
  }

  /** Pushing the same dose twice leaves the widget as pushing it once. */
  lemma WithLastTakenIdempotent(prefs: Prefs, medicationId: int, takenAt: int, amount: string)
    ensures var once := WithLastTaken(prefs, medicationId, takenAt, amount);
      WithLastTaken(once, medicationId, takenAt, amount) == once
  {
    var once := WithLastTaken(prefs, medicationId, takenAt, amount);
    if Tracks(prefs, medicationId) {
      assert Tracks(once, medicationId);
      assert once[LastTakenAt := LongValue(takenAt)][LastAmount := StringValue(amount)] == once;
    }
  }

  /** Pushing the same edit twice leaves the widget as pushing it once. */
  lemma WithMedicationUpdateIdempotent(prefs: Prefs, medicationId: int, name: string, dosage: string)
    ensures var once := WithMedicationUpdate(prefs, medicationId, name, dosage);
      WithMedicationUpdate(once, medicationId, name, dosage) == once
  {
    var once := WithMedicationUpdate(prefs, medicationId, name, dosage);
    if Tracks(prefs, medicationId) {
      assert Tracks(once, medicationId);
      assert once[MedicationName := StringValue(name)][MedicationDosage := StringValue(dosage)] == once;
    }
  }

  /** Clearing is idempotent: the second pass finds no widget on the medication. */
  lemma ClearedIdempotent(prefs: Prefs, medicationId: int)
    ensures Cleared(Cleared(prefs, medicationId), medicationId) == Cleared(prefs, medicationId)
  {
  }

  /** A dose push and a name/dosage push touch disjoint keys, so their order does not matter. */
  lemma PushesCommute(prefs: Prefs, medicationId: int, takenAt: int, amount: string, name: string, dosage: string)
    ensures WithMedicationUpdate(WithLastTaken(prefs, medicationId, takenAt, amount), medicationId, name, dosage)
         == WithLastTaken(WithMedicationUpdate(prefs, medicationId, name, dosage), medicationId, takenAt, amount)
  {
    if Tracks(prefs, medicationId) {
      var a := WithLastTaken(prefs, medicationId, takenAt, amount);
      var b := WithMedicationUpdate(prefs, medicationId, name, dosage);
      assert Tracks(a, medicationId) && Tracks(b, medicationId);
    }
  }

  // ---------------------------------------------------------------------------
  // The passes over all placed widgets

  function LastTakenPushed(states: map<int, Prefs>, ids: seq<int>, medicationId: int, takenAt: int, amount: string): map<int, Prefs>
  {
    UpdatePlaced(states, ids, p => WithLastTaken(p, medicationId, takenAt, amount))
  }

  function MedicationUpdatePushed(states: map<int, Prefs>, ids: seq<int>, medicationId: int, name: string, dosage: string): map<int, Prefs>
  {
    UpdatePlaced(states, ids, p => WithMedicationUpdate(p, medicationId, name, dosage))
  }

  function AllCleared(states: map<int, Prefs>, ids: seq<int>, medicationId: int): map<int, Prefs>
  {
    UpdatePlaced(states, ids, p => Cleared(p, medicationId))
  }

  /** The widgets of `ids` bound to `medicationId`, in the order of `ids`. */
  function MatchedIds(states: map<int, Prefs>, ids: seq<int>, medicationId: int): (r: seq<int>)
    ensures |r| <= |ids|
    ensures forall id :: id in r <==> id in ids && Tracks(PrefsIn(states, id), medicationId)
    decreases |ids|
  {
    if ids == [] then []
    else
      var last := ids[|ids| - 1];
      MatchedIds(states, ids[..|ids| - 1], medicationId)
        + (if Tracks(PrefsIn(states, last), medicationId) then [last] else [])
  }

  /**
   * After a dose push, every placed widget on the medication shows that dose, and every
   * other widget (and every other key) is as before.
   */
  lemma {:induction false} LastTakenPushedEffect(states: map<int, Prefs>, ids: seq<int>, medicationId: int, takenAt: int, amount: string, id: int)
    requires id in ids
    ensures var before, after := PrefsIn(states, id), LastTakenPushed(states, ids, medicationId, takenAt, amount)[id];
      && (Tracks(before, medicationId) ==>
            LongPref(after, LastTakenAt) == Some(takenAt) && StringPref(after, LastAmount) == Some(amount)
            && SameOutside(after, before, {LastTakenAt, LastAmount}))
      && (!Tracks(before, medicationId) ==> after == before)
  {
    var before := PrefsIn(states, id);
    var update := p => WithLastTaken(p, medicationId, takenAt, amount);
    assert LastTakenPushed(states, ids, medicationId, takenAt, amount)[id] == update(before);
  }

  /** After a deletion pass no placed widget is bound to the deleted medication any more. */
  lemma {:induction false} NoWidgetTracksRemoved(states: map<int, Prefs>, ids: seq<int>, medicationId: int)
    requires forall id :: id in states <==> id in ids
    ensures var after := AllCleared(states, ids, medicationId);
      forall id :: id in after ==> !Tracks(after[id], medicationId)
  {
    var after := AllCleared(states, ids, medicationId);
    forall id | id in after
      ensures !Tracks(after[id], medicationId)
    {
      assert id in ids;
      assert after[id] == Cleared(PrefsIn(states, id), medicationId);
    }
  }

  /** The widgets the deletion pass reports are exactly the ones it cleared. */
  lemma {:induction false} MatchedAreCleared(states: map<int, Prefs>, ids: seq<int>, medicationId: int, id: int)
    requires id in ids
    ensures var after := AllCleared(states, ids, medicationId)[id];
      && (id in MatchedIds(states, ids, medicationId) ==>
            (forall k :: k in CLEARED_KEYS ==> k !in after) && SameOutside(after, PrefsIn(states, id), CLEARED_KEYS))
      && (id !in MatchedIds(states, ids, medicationId) ==> after == PrefsIn(states, id))
  {
    assert AllCleared(states, ids, medicationId)[id] == Cleared(PrefsIn(states, id), medicationId);
  }

  /** The five single-key removals of the deletion block together remove `CLEARED_KEYS`. */
  lemma RemovalsClearKeys(prefs: Prefs)
    ensures prefs - {MedicationId} - {MedicationName} - {MedicationDosage} - {LastTakenAt} - {LastAmount}
         == prefs - CLEARED_KEYS
  {
  }

  /** Looking at one more widget appends it to the matches exactly when it is on the medication. */
  lemma MatchedIdsStep(states: map<int, Prefs>, ids: seq<int>, i: int, medicationId: int)
    requires 0 <= i < |ids|
    ensures MatchedIds(states, ids[..i + 1], medicationId)
         == MatchedIds(states, ids[..i], medicationId) + (if Tracks(PrefsIn(states, ids[i]), medicationId) then [ids[i]] else [])
  {
    assert ids[..i + 1][..i] == ids[..i];
  }

  // ---------------------------------------------------------------------------
  // The passes as the application runs them

  /** `pushLastTaken`: the new dose goes into every widget showing the medication. */
  method PushLastTaken(host: WidgetHost, medicationId: int, takenAt: int, amount: string)
    requires host.Valid()
    modifies host
    ensures host.Valid() && host.states.Keys == old(host.states.Keys)
    ensures host.states == LastTakenPushed(old(host.states), host.glanceIds, medicationId, takenAt, amount)
  {
    ghost var start := host.states;
    ghost var update := p => WithLastTaken(p, medicationId, takenAt, amount);
    for i := 0 to |host.glanceIds|
      invariant host.states == UpdatePlaced(start, host.glanceIds[..i], update)
    {
      var glanceId := host.glanceIds[i];
      var prefs := host.PrefsOf(glanceId);
      ghost var read := prefs;
      match MedicationIdOf(prefs) {
        case None =>
        case Some(widgetMedId) =>
          if widgetMedId == medicationId {
            prefs := prefs[LastTakenAt := LongValue(takenAt)];
            prefs := prefs[LastAmount := StringValue(amount)];
          }
      }
      assert prefs == update(read);
      UpdatePlacedStep(start, host.glanceIds, i, update);
      host.states := host.states[glanceId := prefs];
    }
    assert host.glanceIds[..|host.glanceIds|] == host.glanceIds;
  }

  /** `pushMedicationUpdate`: the new name and dosage go into every widget showing the medication. */
  method PushMedicationUpdate(host: WidgetHost, medicationId: int, name: string, dosage: string)
    requires host.Valid()
    modifies host
    ensures host.Valid() && host.states.Keys == old(host.states.Keys)
    ensures host.states == MedicationUpdatePushed(old(host.states), host.glanceIds, medicationId, name, dosage)
  {
    ghost var start := host.states;
    ghost var update := p => WithMedicationUpdate(p, medicationId, name, dosage);
    for i := 0 to |host.glanceIds|
      invariant host.states == UpdatePlaced(start, host.glanceIds[..i], update)
    {
      var glanceId := host.glanceIds[i];
      var prefs := host.PrefsOf(glanceId);
      ghost var read := prefs;
      match MedicationIdOf(prefs) {
        case None =>
        case Some(widgetMedId) =>
          if widgetMedId == medicationId {
            prefs := prefs[MedicationName := StringValue(name)];
            prefs := prefs[MedicationDosage := StringValue(dosage)];
          }
      }
      assert prefs == update(read);
      UpdatePlacedStep(start, host.glanceIds, i, update);
      host.states := host.states[glanceId := prefs];
    }
    assert host.glanceIds[..|host.glanceIds|] == host.glanceIds;
  }

  /**
   * `removeWidgetsForMedication`, clearing pass: every widget on the deleted medication loses
   * its binding; the widgets cleared are returned in launcher order for deletion.
   */
  method RemoveWidgetsForMedication(host: WidgetHost, medicationId: int) returns (matchedIds: seq<int>)
    requires host.Valid()
    modifies host
    ensures host.Valid() && host.states.Keys == old(host.states.Keys)
    ensures host.states == AllCleared(old(host.states), host.glanceIds, medicationId)
    ensures matchedIds == MatchedIds(old(host.states), host.glanceIds, medicationId)
  {
    ghost var start := host.states;
    ghost var update := p => Cleared(p, medicationId);
    matchedIds := [];
    for i := 0 to |host.glanceIds|
      invariant host.states == UpdatePlaced(start, host.glanceIds[..i], update)
      invariant matchedIds == MatchedIds(start, host.glanceIds[..i], medicationId)
    {
      var glanceId := host.glanceIds[i];
      var prefs := host.PrefsOf(glanceId);
      ghost var read := prefs;
      UpdatePlacedStep(start, host.glanceIds, i, update);
      MatchedIdsStep(start, host.glanceIds, i, medicationId);
      var matched := false;
      match MedicationIdOf(prefs) {
        case None =>
        case Some(widgetMedId) =>
          if widgetMedId == medicationId {
            matched := true;
            prefs := prefs - {MedicationId};
            prefs := prefs - {MedicationName};
            prefs := prefs - {MedicationDosage};
            prefs := prefs - {LastTakenAt};
            prefs := prefs - {LastAmount};
          }
      }
      assert matched == Tracks(read, medicationId);
      if matched {
        RemovalsClearKeys(read);
      }
      assert prefs == update(read);
      if matched {
        matchedIds := matchedIds + [glanceId];
      }
      host.states := host.states[glanceId := prefs];
    }
    assert host.glanceIds[..|host.glanceIds|] == host.glanceIds;
  }
}

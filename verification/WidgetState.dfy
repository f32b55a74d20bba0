/**
 * The state Glance keeps for each placed home-screen widget: a preferences map from the
 * `WidgetKeys` to long or string values. The launcher's list of placed widgets is fixed
 * while the modelled passes run; each placed widget's map can be rewritten in place.
 */
module WidgetState {

  import opened Wrappers

  /** The `WidgetKeys` of both packages; the older one never reads or writes the nickname. */
  datatype WidgetKey =
    | MedicationId
    | MedicationName
    | MedicationNickname
    | MedicationDosage
    | LastTakenAt
    | LastAmount
    | TotalDoses

  /** A stored preference: `longPreferencesKey` or `stringPreferencesKey` values. */
  datatype PrefValue = LongValue(n: int) | StringValue(s: string)

  type Prefs = map<WidgetKey, PrefValue>

  /** `prefs[key]` for a long key: absent (or stored with the other type) reads as null. */
  function LongPref(prefs: Prefs, key: WidgetKey): (r: Option<int>)
    ensures r.Some? <==> key in prefs && prefs[key].LongValue?
    ensures r.Some? ==> prefs[key] == LongValue(r.value)
  {
    if key in prefs && prefs[key].LongValue? then Some(prefs[key].n) else None
  }

  /** `prefs[key]` for a string key. */
  function StringPref(prefs: Prefs, key: WidgetKey): (r: Option<string>)
    ensures r.Some? <==> key in prefs && prefs[key].StringValue?
    ensures r.Some? ==> prefs[key] == StringValue(r.value)
  {
    if key in prefs && prefs[key].StringValue? then Some(prefs[key].s) else None
  }

  /** The medication a widget is bound to, if any. */
  function MedicationIdOf(prefs: Prefs): Option<int>
  {
    LongPref(prefs, MedicationId)
  }

  /** The widget is bound to medication `medicationId`. */
  predicate Tracks(prefs: Prefs, medicationId: int)
  {
    MedicationIdOf(prefs) == Some(medicationId)
  }

  /** The map widget `id` holds; a widget never written holds the empty map. */
  function PrefsIn(states: map<int, Prefs>, id: int): Prefs
  {
    if id in states then states[id] else map[]
  }

  /**
   * The widget maps after `updateAppWidgetState` has run `update` on each widget listed in
   * `ids`: each listed widget is written back, even when `update` left its map as it was;
   * widgets not listed keep their maps.
   */
  function UpdatePlaced(states: map<int, Prefs>, ids: seq<int>, update: Prefs -> Prefs): (r: map<int, Prefs>)
    ensures r.Keys == states.Keys + (set id | id in ids)
  {
    map id | id in states.Keys + (set x | x in ids) :: if id in ids then update(PrefsIn(states, id)) else states[id]
  }

  /** Running `update` on one more widget, not listed before, extends the pass by that widget. */
  lemma UpdatePlacedStep(states: map<int, Prefs>, ids: seq<int>, i: int, update: Prefs -> Prefs)
    requires 0 <= i < |ids| && ids[i] !in ids[..i]
    ensures PrefsIn(UpdatePlaced(states, ids[..i], update), ids[i]) == PrefsIn(states, ids[i])
    ensures UpdatePlaced(states, ids[..i + 1], update)
         == UpdatePlaced(states, ids[..i], update)[ids[i] := update(PrefsIn(states, ids[i]))]
  {
    var before, after := UpdatePlaced(states, ids[..i], update), UpdatePlaced(states, ids[..i + 1], update);
    assert ids[..i + 1] == ids[..i] + [ids[i]];
    assert forall id :: id in ids[..i + 1] <==> id in ids[..i] || id == ids[i];
  }

  /** The two maps agree on every key outside `keys`. */
  predicate SameOutside(a: Prefs, b: Prefs, keys: set<WidgetKey>)
  {
    forall k :: k !in keys ==> (k in a <==> k in b) && (k in a ==> a[k] == b[k])
  }

  /**
   * The placed widgets and their preference maps; a widget that was never written holds
   * the empty map.
   */
  class WidgetHost {
    const glanceIds: seq<int>
    var states: map<int, Prefs>

    constructor (glanceIds: seq<int>, states: map<int, Prefs>)
      ensures this.glanceIds == glanceIds && this.states == states
    {
      this.glanceIds := glanceIds;
      this.states := states;
    }

    /** `getGlanceIds` lists each placed widget once, and exactly the placed widgets hold a map. */
    predicate Valid()
      reads this
    {
      && (forall i, j :: 0 <= i < j < |glanceIds| ==> glanceIds[i] != glanceIds[j])
      && states.Keys == (set id | id in glanceIds)
    }

    /** The map `updateAppWidgetState` hands to its block for widget `id`. */
    function PrefsOf(id: int): Prefs
      reads this
    {
      PrefsIn(states, id)
    }
  }
}

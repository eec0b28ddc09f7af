/** The saved-scenario list (src/lib/persist.ts): one storage slot holding a
    JSON list of scenarios, read back leniently and rewritten whole on every
    save or delete. */
module Persist {
  import opened Geo
  import opened Domain
  import Sorting

  datatype Scenario = Scenario(
    id: string,
    name: string,
    incident: Incident,
    stagingAreas: seq<StagingArea>,
    savedAt: string)

  /** The slot's content as `JSON.parse` sees it: no item, an empty string,
      text that does not parse, a parsed value that is not an array, or a
      list of scenarios. */
  datatype Stored = Missing | Blank | Malformed | NotAList | List(items: seq<Scenario>)

  /** Anything but a parsed array reads as the empty list. */
  function SafeParse(value: Stored): (r: seq<Scenario>)
    ensures value.List? ==> r == value.items
    ensures !value.List? ==> r == []
  {
    match value
    case List(items) => items
    case _ => []
  }

  /** The `filter` that drops the scenarios with an id. */
  function WithoutId(scenarios: seq<Scenario>, id: string): (r: seq<Scenario>)
    ensures |r| <= |scenarios|
    ensures forall s :: s in r <==> s in scenarios && s.id != id
  {
    Sorting.FilterMembers(scenarios, (s: Scenario) => s.id != id);
    Sorting.Filter(scenarios, (s: Scenario) => s.id != id)
  }

  /** The list a save writes: the others, then the saved scenario. */
  function AfterSave(scenarios: seq<Scenario>, scenario: Scenario): seq<Scenario> {
    WithoutId(scenarios, scenario.id) + [scenario]
  }

  lemma WithoutIdAppend(a: seq<Scenario>, b: seq<Scenario>, id: string)
    ensures WithoutId(a + b, id) == WithoutId(a, id) + WithoutId(b, id)
  {
    Sorting.FilterAppend(a, b, (s: Scenario) => s.id != id);
  }

  /** A list without the id is left as it is. */
  lemma WithoutAbsentId(scenarios: seq<Scenario>, id: string)
    requires forall s :: s in scenarios ==> s.id != id
    ensures WithoutId(scenarios, id) == scenarios
  {
    Sorting.FilterAll(scenarios, (s: Scenario) => s.id != id);
  }

  /** After a save exactly one scenario has the saved id, and it is the last;
      the scenarios with other ids are those from before, in their order. */
  lemma SaveKeepsOthers(scenarios: seq<Scenario>, scenario: Scenario)
    ensures var r := AfterSave(scenarios, scenario);
      && |r| > 0 && r[|r| - 1] == scenario
      && (forall i :: 0 <= i < |r| - 1 ==> r[i].id != scenario.id)
      && WithoutId(r, scenario.id) == WithoutId(scenarios, scenario.id)
  {
    var others := WithoutId(scenarios, scenario.id);
    var r := AfterSave(scenarios, scenario);
    forall i | 0 <= i < |r| - 1
      ensures r[i].id != scenario.id
    {
      assert r[i] in others;
    }
    WithoutIdAppend(others, [scenario], scenario.id);
    WithoutAbsentId(others, scenario.id);
    assert WithoutId([scenario], scenario.id) == [];
  }

  /** Saving the same scenario twice writes what saving it once does. */
  lemma SaveIdempotent(scenarios: seq<Scenario>, scenario: Scenario)
    ensures AfterSave(AfterSave(scenarios, scenario), scenario) == AfterSave(scenarios, scenario)
  {
    SaveKeepsOthers(scenarios, scenario);
  }

  /** After a delete no scenario has the id; deleting an absent id changes
      nothing. */
  lemma DeleteRemoves(scenarios: seq<Scenario>, id: string)
    ensures forall s :: s in WithoutId(scenarios, id) ==> s.id != id
    ensures (forall s :: s in scenarios ==> s.id != id) ==> WithoutId(scenarios, id) == scenarios
  {
    if forall s :: s in scenarios ==> s.id != id {
      WithoutAbsentId(scenarios, id);
    }
  }

  /** The browser's storage slot. Without storage (`localStorage` undefined)
      loading gives nothing and saving or deleting does nothing. */
  class ScenarioStorage {
    const available: bool
    var slot: Stored

    constructor (available: bool, slot: Stored)
      ensures this.available == available && this.slot == slot
    {
      this.available := available;
      this.slot := slot;
    }

    function Load(): (r: seq<Scenario>)
      reads this
      ensures !available || !slot.List? ==> r == []
      ensures available && slot.List? ==> r == slot.items
    {
      if !available then [] else SafeParse(slot)
    }

    method SaveScenario(scenario: Scenario)
      modifies this
      ensures !available ==> slot == old(slot)
      ensures available ==> slot == List(AfterSave(old(Load()), scenario))
      ensures available ==> Load() == AfterSave(old(Load()), scenario)
    {
      if !available {
        return;
      }
      var scenarios := WithoutId(Load(), scenario.id);
      scenarios := scenarios + [scenario];
      slot := List(scenarios);
    }

    method DeleteScenario(id: string)
      modifies this
      ensures !available ==> slot == old(slot)
      ensures available ==> slot == List(WithoutId(old(Load()), id))
      ensures available ==> Load() == WithoutId(old(Load()), id)
    {
      if !available {
        return;
      }
      var scenarios := WithoutId(Load(), id);
      slot := List(scenarios);
    }
  }
}

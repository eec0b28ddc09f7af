/** The store of the arctic-sim variant (arctic-sim/src/app/store.ts): an
    incident with a risk preset coupled to its demand, and a planner that
    always uses great-circle distance and reports no critical-window
    figures. */
module ArcticStore {
  import opened Common
  import opened Geo
  import opened Domain
  import Sorting
  import Allocation
  import Store

  /** The demand each risk preset stands for. */
  function PresetDemand(r: RiskLevel): int {
    match r
    case Low => 60
    case Medium => 140
    case High => 260
  }

  /** The preset whose demand is nearest: thresholds halfway between the
      preset demands, a demand on a threshold going to the lower preset. */
  function InferRisk(demand: int): (r: RiskLevel)
    ensures r == Low <==> demand <= 100
    ensures r == Medium <==> 100 < demand <= 200
    ensures r == High <==> 200 < demand
  {
    if 2 * demand <= PresetDemand(Low) + PresetDemand(Medium) then Low
    else if 2 * demand <= PresetDemand(Medium) + PresetDemand(High) then Medium
    else High
  }

  /** Choosing a preset with demand syncing and then inferring the preset
      from the demand gives the preset back. */
  lemma InferPresetDemand(r: RiskLevel)
    ensures InferRisk(PresetDemand(r)) == r
  {
  }

  /** A larger demand never infers a lower preset. */
  lemma InferRiskMonotone(a: int, b: int)
    requires a <= b
    ensures InferRisk(a) == High ==> InferRisk(b) == High
    ensures InferRisk(b) == Low ==> InferRisk(a) == Low
  {
  }

  datatype ArcticIncident = ArcticIncident(location: Option<Coordinate>, demand: int, riskPreset: RiskLevel)

  /** An incident as saved in a scenario, which may lack a preset. */
  datatype SavedIncident = SavedIncident(location: Option<Coordinate>, demand: int, riskPreset: Option<RiskLevel>)

  datatype Scenario = Scenario(
    id: string,
    name: string,
    incident: SavedIncident,
    stagingAreas: seq<StagingArea>,
    savedAt: string)

  datatype ArcticResult = ArcticResult(
    demand: int,
    totalSent: int,
    unmet: int,
    averageEtaMinutes: Option<real>,
    totalDistanceKm: real,
    riskLevel: RiskLevel,
    decisions: seq<AllocationDecision>)

  /** The first scenario with the id (`find`). */
  function FindScenario(scenarios: seq<Scenario>, id: string): (r: Option<Scenario>)
    ensures r.None? <==> forall s :: s in scenarios ==> s.id != id
    ensures r.Some? ==> r.value in scenarios && r.value.id == id
  {
    if scenarios == [] then None
    else if scenarios[0].id == id then Some(scenarios[0])
    else FindScenario(scenarios[1..], id)
  }

  /** The scenario found is the first one with the id. */
  lemma {:induction false} FindScenarioFirst(scenarios: seq<Scenario>, id: string, i: int)
    requires 0 <= i < |scenarios| && scenarios[i].id == id
    requires forall j :: 0 <= j < i ==> scenarios[j].id != id
    ensures FindScenario(scenarios, id) == Some(scenarios[i])
  {
    if i > 0 {
      FindScenarioFirst(scenarios[1..], id, i - 1);
    }
  }

  /** Every candidate of this planner is at great-circle distance, with the
      ETA of that distance at the travel speed. */
  function GreatCircleCandidates(areas: seq<StagingArea>, origin: Coordinate, speedKph: real, dist: DistanceFn)
    : seq<Allocation.Candidate>
    requires speedKph > 0.0
  {
    Allocation.SortedCandidates(areas, map[], origin, speedKph, dist)
  }

  /** The result for the decisions of the walk. */
  function Summarize(demand: int, decisions: seq<AllocationDecision>): ArcticResult {
    var totalSent := Allocation.TotalQuantity(decisions);
    var unmet := Max(0, demand - totalSent);
    ArcticResult(
      demand, totalSent, unmet,
      if |decisions| > 0 then Some(Allocation.TotalEta(decisions) / |decisions| as real) else None,
      Allocation.TotalDistance(decisions),
      Allocation.AllocationRisk(demand, unmet),
      decisions)
  }

  function Plan(areas: seq<StagingArea>, origin: Coordinate, demand: int, speedKph: real, dist: DistanceFn)
    : ArcticResult
    requires speedKph > 0.0
  {
    Summarize(demand, Allocation.Greedy(GreatCircleCandidates(areas, origin, speedKph, dist), demand))
  }

  /** The plan conserves quantity, and its risk is Low exactly when nothing
      is unmet and Medium exactly when at most 30 % is unmet. */
  lemma PlanConserves(areas: seq<StagingArea>, origin: Coordinate, demand: int, speedKph: real, dist: DistanceFn)
    requires speedKph > 0.0 && demand > 0
    ensures var r := Plan(areas, origin, demand, speedKph, dist);
      && r.totalSent == Allocation.TotalQuantity(r.decisions)
      && r.totalSent == Min(demand, Allocation.PositiveSupply(areas))
      && r.unmet == demand - r.totalSent
      && (r.riskLevel == Low <==> r.unmet == 0)
      && (r.riskLevel == Medium <==> r.unmet != 0 && 10 * r.unmet <= 3 * demand)
  {
    Allocation.PlanConserves(areas, map[], origin, demand, speedKph, dist);
  }

  /** Decisions are nearest first; each is at the great-circle distance of
      its area, with the ETA of that distance at the travel speed. */
  lemma PlanUsesGreatCircle(areas: seq<StagingArea>, origin: Coordinate, demand: int, speedKph: real,
                            dist: DistanceFn)
    requires speedKph > 0.0
    ensures var sorted := GreatCircleCandidates(areas, origin, speedKph, dist);
      var ds := Plan(areas, origin, demand, speedKph, dist).decisions;
      && |ds| <= |sorted|
      && (forall k :: 0 <= k < |ds| ==>
            && ds[k].stagingId == sorted[k].area.id
            && sorted[k].area in areas
            && ds[k].distanceKm == dist(sorted[k].area.location, origin)
            && ds[k].etaMinutes == ds[k].distanceKm / speedKph * 60.0
            && 0 < ds[k].quantity <= sorted[k].area.available)
      && (forall i, j :: 0 <= i < j < |ds| ==> ds[i].distanceKm <= ds[j].distanceKm)
  {
    var sorted := GreatCircleCandidates(areas, origin, speedKph, dist);
    var cs := Allocation.Candidates(areas, map[], origin, speedKph, dist);
    Allocation.PlanDecisions(areas, map[], origin, demand, speedKph, dist);
    Allocation.PlanNearestFirst(areas, map[], origin, demand, speedKph, dist);
    forall c | c in sorted
      ensures c == Allocation.Resolve(c.area, map[], origin, speedKph, dist)
    {
      assert c in multiset(cs);
    }
  }

  /** The loop of arctic-sim/src/app/store.ts:203-221: the nearest-first walk with the four
      running totals of this variant. */
  method WalkNearestFirst(sorted: seq<Allocation.Candidate>, demand: int)
    returns (decisions: seq<AllocationDecision>, totalDistanceKm: real, totalEta: real, totalSent: int)
    ensures decisions == Allocation.Greedy(sorted, demand)
    ensures totalSent == Allocation.TotalQuantity(decisions)
    ensures totalDistanceKm == Allocation.TotalDistance(decisions)
    ensures totalEta == Allocation.TotalEta(decisions)
  {
    var remaining := demand;
    totalDistanceKm, totalEta, totalSent := 0.0, 0.0, 0;
    decisions := [];
    for i := 0 to |sorted|
      invariant Allocation.Greedy(sorted, demand) == decisions + Allocation.Greedy(sorted[i..], remaining)
      invariant totalSent == Allocation.TotalQuantity(decisions) && remaining == demand - totalSent
      invariant totalDistanceKm == Allocation.TotalDistance(decisions)
      invariant totalEta == Allocation.TotalEta(decisions)
    {
      if remaining <= 0 {
        break;
      }
      var entry := sorted[i];
      var quantity := Min(entry.area.available, remaining);
      Allocation.GreedyStep(sorted, i, remaining);
      if quantity <= 0 {
        continue;
      }
      var decision := Allocation.Decide(entry, quantity);
      Allocation.TotalsStep(decisions, decision);
      remaining := remaining - quantity;
      totalSent := totalSent + quantity;
      totalDistanceKm := totalDistanceKm + entry.distanceKm;
      totalEta := totalEta + entry.etaMinutes;
      ghost var rest := Allocation.Greedy(sorted[i + 1..], remaining);
      Sorting.AppendAssociative(decisions, [decision], rest);
      decisions := decisions + [decision];
    }
    assert sorted[|sorted|..] == [];
  }

  class ArcticSession {
    var incident: ArcticIncident
    var stagingAreas: seq<StagingArea>
    var travelSpeedKph: real
    var scenarios: seq<Scenario>

    ghost predicate Valid()
      reads this
    {
      travelSpeedKph >= Store.MinTravelSpeedKph
    }

    /** A fresh session over the scenarios loaded from storage. */
    constructor (saved: seq<Scenario>)
      ensures Valid()
      ensures incident == ArcticIncident(None, 0, Low) && stagingAreas == []
      ensures travelSpeedKph == Store.DefaultTravelSpeedKph && scenarios == saved
    {
      incident := ArcticIncident(None, 0, Low);
      stagingAreas := [];
      travelSpeedKph := Store.DefaultTravelSpeedKph;
      scenarios := saved;
    }

    /** Stores the clamped demand and the preset inferred from it. */
    method SetDemand(demand: int)
      requires Valid()
      modifies this
      ensures Valid()
      ensures incident == old(incident).(demand := Max(0, demand), riskPreset := InferRisk(Max(0, demand)))
      ensures stagingAreas == old(stagingAreas) && travelSpeedKph == old(travelSpeedKph)
      ensures scenarios == old(scenarios)
    {
      incident := incident.(demand := Max(0, demand), riskPreset := InferRisk(Max(0, demand)));
    }

    /** Stores the preset, and its demand unless syncing is turned off
        explicitly: only `syncDemand === false` keeps the demand. */
    method SetRiskPreset(risk: RiskLevel, syncDemand: Option<bool>)
      requires Valid()
      modifies this
      ensures Valid()
      ensures incident.riskPreset == risk && incident.location == old(incident).location
      ensures syncDemand == Some(false) ==> incident.demand == old(incident).demand
      ensures syncDemand != Some(false) ==> incident.demand == PresetDemand(risk)
      ensures stagingAreas == old(stagingAreas) && travelSpeedKph == old(travelSpeedKph)
      ensures scenarios == old(scenarios)
    {
      var demand := if syncDemand == Some(false) then incident.demand else PresetDemand(risk);
      incident := incident.(riskPreset := risk, demand := demand);
    }

    /** The area patch alone: this variant keeps no travel metrics. */
    method UpdateStaging(id: string, patch: Store.StagingPatch)
      requires Valid()
      modifies this
      ensures Valid()
      ensures stagingAreas == Store.PatchAreas(old(stagingAreas), id, patch)
      ensures incident == old(incident) && travelSpeedKph == old(travelSpeedKph)
      ensures scenarios == old(scenarios)
    {
      stagingAreas := Store.PatchAreas(stagingAreas, id, patch);
    }

    /** An unknown id changes nothing; otherwise the scenario's incident and
        areas are loaded, a missing preset inferred from the clamped demand. */
    method LoadScenario(id: string)
      requires Valid()
      modifies this
      ensures Valid()
      ensures FindScenario(old(scenarios), id).None? ==>
        incident == old(incident) && stagingAreas == old(stagingAreas)
      ensures FindScenario(old(scenarios), id).Some? ==>
        var saved := FindScenario(old(scenarios), id).value;
        && incident.location == saved.incident.location
        && incident.demand == saved.incident.demand
        && incident.riskPreset == saved.incident.riskPreset.GetOr(InferRisk(Max(0, saved.incident.demand)))
        && stagingAreas == saved.stagingAreas
      ensures travelSpeedKph == old(travelSpeedKph) && scenarios == old(scenarios)
    {
      var found := FindScenario(scenarios, id);
      if found.None? {
        return;
      }
      var saved := found.value;
      incident := ArcticIncident(
        saved.incident.location,
        saved.incident.demand,
        saved.incident.riskPreset.GetOr(InferRisk(Max(0, saved.incident.demand))));
      stagingAreas := saved.stagingAreas;
    }

    /** The great-circle plan, or nothing under the same three conditions as
        the main planner. */
    method ComputeAllocation(dist: DistanceFn) returns (r: Option<ArcticResult>)
      requires Valid()
      ensures r.None? <==> incident.location.None? || incident.demand <= 0 || |stagingAreas| == 0
      ensures r.Some? ==> r.value == Plan(stagingAreas, incident.location.value, incident.demand, travelSpeedKph, dist)
    {
      if incident.location.None? || incident.demand <= 0 || |stagingAreas| == 0 {
        return None;
      }
      var origin := incident.location.value;
      var demand := incident.demand;
      var sorted := GreatCircleCandidates(stagingAreas, origin, travelSpeedKph, dist);
      var decisions, totalDistanceKm, totalEta, totalSent := WalkNearestFirst(sorted, demand);
      var unmet := Max(0, demand - totalSent);
      var averageEtaMinutes := if |decisions| > 0 then Some(totalEta / |decisions| as real) else None;
      r := Some(ArcticResult(
        demand, totalSent, unmet, averageEtaMinutes, totalDistanceKm,
        Allocation.AllocationRisk(demand, unmet), decisions));
    }
  }
}

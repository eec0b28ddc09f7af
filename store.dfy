/** The planning-session store of src/app/store.ts: the incident, the staging
    areas, the travel speed, the per-area travel metrics and the routing
    guidance, and the actions that replace them. */
module Store {
  import opened Common
  import opened Geo
  import opened Domain
  import Sorting
  import Allocation

  const DefaultTravelSpeedKph: real := 200.0
  /** `setTravelSpeed` never stores a slower speed than this. */
  const MinTravelSpeedKph: real := 10.0

  datatype RouteSummary = RouteSummary(distanceKm: real, etaMinutes: real)

  /** Turn-by-turn guidance to one destination; the steps are left out. */
  datatype RouteGuidance = RouteGuidance(
    status: MetricStatus,
    summary: Option<RouteSummary>,
    errorMessage: Option<string>,
    destinationName: Option<string>)

  const IdleGuidance := RouteGuidance(Idle, None, None, None)

  datatype RoutingGuidance = RoutingGuidance(staging: map<string, RouteGuidance>, hospital: Option<RouteGuidance>)

  /** `{ staging: {}, hospital: null }`. */
  const NoGuidance := RoutingGuidance(map[], None)

  datatype GuidanceTarget = StagingTarget | HospitalTarget

  /** The fields an `updateStaging` patch may carry (never the id). */
  datatype StagingPatch = StagingPatch(name: Option<string>, location: Option<Coordinate>, available: Option<int>)

  /** `{ ...area, ...patch }` with the patched availability clamped to zero. */
  function ApplyPatch(area: StagingArea, patch: StagingPatch): StagingArea {
    StagingArea(
      area.id,
      patch.name.GetOr(area.name),
      patch.location.GetOr(area.location),
      if patch.available.Some? then Max(0, patch.available.value) else area.available)
  }

  /** The `map` over the areas that patches those with the given id. */
  function PatchAreas(areas: seq<StagingArea>, id: string, patch: StagingPatch): seq<StagingArea> {
    if areas == [] then []
    else [if areas[0].id == id then ApplyPatch(areas[0], patch) else areas[0]] + PatchAreas(areas[1..], id, patch)
  }

  /** The patch keeps the list's length and every id, leaves the areas with
      other ids as they were, and patches the matching ones with a clamped
      availability. */
  lemma {:induction false} PatchAreasEffect(areas: seq<StagingArea>, id: string, patch: StagingPatch)
    ensures var r := PatchAreas(areas, id, patch);
      && |r| == |areas|
      && (forall i :: 0 <= i < |areas| ==> r[i].id == areas[i].id)
      && (forall i :: 0 <= i < |areas| && areas[i].id != id ==> r[i] == areas[i])
      && (forall i :: 0 <= i < |areas| && areas[i].id == id ==>
            && r[i].name == patch.name.GetOr(areas[i].name)
            && r[i].location == patch.location.GetOr(areas[i].location)
            && (patch.available.Some? ==> r[i].available == Max(0, patch.available.value))
            && (patch.available.None? ==> r[i].available == areas[i].available))
  {
    if areas != [] {
      PatchAreasEffect(areas[1..], id, patch);
      var r := PatchAreas(areas, id, patch);
      forall i | 0 < i < |areas|
        ensures r[i] == PatchAreas(areas[1..], id, patch)[i - 1] && areas[i] == areas[1..][i - 1]
      {
      }
    }
  }

  /** The `filter` that drops the areas with the given id. */
  function WithoutArea(areas: seq<StagingArea>, id: string): (r: seq<StagingArea>)
    ensures forall a :: a in r <==> a in areas && a.id != id
  {
    Sorting.FilterMembers(areas, (a: StagingArea) => a.id != id);
    Sorting.Filter(areas, (a: StagingArea) => a.id != id)
  }

  /** `{ ...(current[id] ?? { status: 'idle' }), ...patch }`: the patch's status
      and every field the patch carries, the other fields from before. */
  function MergeMetrics(base: TravelMetrics, patch: TravelMetrics): TravelMetrics {
    TravelMetrics(
      patch.status,
      OrElse(patch.distanceKm, base.distanceKm),
      OrElse(patch.etaMinutes, base.etaMinutes),
      OrElse(patch.fallbackDistanceKm, base.fallbackDistanceKm),
      OrElse(patch.errorMessage, base.errorMessage))
  }

  function MetricOrIdle(metrics: map<string, TravelMetrics>, id: string): TravelMetrics {
    if id in metrics then metrics[id] else IdleMetrics
  }

  /** The metrics after merging every update of a batch. */
  function MergeAll(current: map<string, TravelMetrics>, updates: map<string, TravelMetrics>): map<string, TravelMetrics> {
    map id | id in current.Keys + updates.Keys ::
      if id in updates then MergeMetrics(MetricOrIdle(current, id), updates[id]) else current[id]
  }

  /** The metrics after merging the updates of the ids in `done` only. */
  function MergedOver(current: map<string, TravelMetrics>, updates: map<string, TravelMetrics>,
                      done: set<string>): map<string, TravelMetrics>
    requires done <= updates.Keys
  {
    map id | id in current.Keys + done ::
      if id in done then MergeMetrics(MetricOrIdle(current, id), updates[id]) else current[id]
  }

  /** Merging one more id's update onto the partial merge. */
  lemma MergedOverStep(current: map<string, TravelMetrics>, updates: map<string, TravelMetrics>,
                       done: set<string>, id: string)
    requires done <= updates.Keys && id in updates && id !in done
    ensures var partial := MergedOver(current, updates, done);
      MergedOver(current, updates, done + {id}) == partial[id := MergeMetrics(MetricOrIdle(partial, id), updates[id])]
  {
  }

  /** Merging the same batch twice has the effect of merging it once. */
  lemma MergeAllIdempotent(current: map<string, TravelMetrics>, updates: map<string, TravelMetrics>)
    ensures MergeAll(MergeAll(current, updates), updates) == MergeAll(current, updates)
  {
  }

  /** A patch that carries no distance or ETA (a `loading` mark or an error
      with a fallback) keeps the distance and ETA of an earlier ready metric,
      and the planner then resolves the area to that older distance, not to
      the fallback: the resolution goes by field presence, not by status. */
  lemma StaleDistanceSurvives(current: map<string, TravelMetrics>, updates: map<string, TravelMetrics>,
                              area: StagingArea, origin: Coordinate, speedKph: real, dist: DistanceFn)
    requires speedKph > 0.0
    requires area.id in current && current[area.id].distanceKm.Some? && current[area.id].etaMinutes.Some?
    requires area.id in updates && updates[area.id].distanceKm.None? && updates[area.id].etaMinutes.None?
    ensures var merged := MergeAll(current, updates);
      && merged[area.id].status == updates[area.id].status
      && Allocation.Resolve(area, merged, origin, speedKph, dist).distanceKm == current[area.id].distanceKm.value
      && Allocation.Resolve(area, merged, origin, speedKph, dist).etaMinutes == current[area.id].etaMinutes.value
  {
  }

  /** The loop of src/app/store.ts:200-227: walks the sorted candidates, each giving
      `min(available, remaining)`, skipping those that give nothing and
      stopping once nothing remains; it returns the decisions in order and
      the running totals. */
  method WalkNearestFirst(sorted: seq<Allocation.Candidate>, demand: int)
    returns (decisions: seq<AllocationDecision>, totalDistanceKm: real, totalEta: real,
             totalSent: int, criticalServed: int, surgePenalty: int)
    ensures decisions == Allocation.Greedy(sorted, demand)
    ensures totalSent == Allocation.TotalQuantity(decisions)
    ensures totalDistanceKm == Allocation.TotalDistance(decisions)
    ensures totalEta == Allocation.TotalEta(decisions)
    ensures criticalServed == Allocation.CriticalServed(decisions)
    ensures surgePenalty == Allocation.SurgePenalty(decisions)
  {
    var remaining := demand;
    totalDistanceKm, totalEta := 0.0, 0.0;
    totalSent, criticalServed, surgePenalty := 0, 0, 0;
    decisions := [];
    for i := 0 to |sorted|
      invariant Allocation.Greedy(sorted, demand) == decisions + Allocation.Greedy(sorted[i..], remaining)
      invariant totalSent == Allocation.TotalQuantity(decisions) && remaining == demand - totalSent
      invariant totalDistanceKm == Allocation.TotalDistance(decisions)
      invariant totalEta == Allocation.TotalEta(decisions)
      invariant criticalServed == Allocation.CriticalServed(decisions)
      invariant surgePenalty == Allocation.SurgePenalty(decisions)
    {
      if remaining <= 0 {
        break;
      }
      var entry := sorted[i];
      var quantity := Min(entry.area.available, remaining);
      Allocation.GreedyStep(sorted, i, remaining);
      if quantity <= 0 {
        continue;
      }
      var decision := Allocation.Decide(entry, quantity);
      Allocation.TotalsStep(decisions, decision);
      remaining := remaining - quantity;
      totalSent := totalSent + quantity;
      totalDistanceKm := totalDistanceKm + entry.distanceKm;
      totalEta := totalEta + entry.etaMinutes;
      if entry.etaMinutes <= Allocation.CriticalWindowMinutes {
        criticalServed := criticalServed + quantity;
      } else {
        surgePenalty := surgePenalty + Allocation.LatePenalty(decision);
      }
      ghost var rest := Allocation.Greedy(sorted[i + 1..], remaining);
      Sorting.AppendAssociative(decisions, [decision], rest);
      decisions := decisions + [decision];
    }
    assert sorted[|sorted|..] == [];
  }

  class PlanningSession {
    var incident: Incident
    var stagingAreas: seq<StagingArea>
    var travelSpeedKph: real
    var travelMetrics: map<string, TravelMetrics>
    var routingGuidance: RoutingGuidance

    /** What the actions keep: a travel speed of at least 10 km/h, a demand
        that is not negative and no negative availability. */
    ghost predicate Valid()
      reads this
    {
      && travelSpeedKph >= MinTravelSpeedKph
      && incident.demand >= 0
      && (forall a :: a in stagingAreas ==> a.available >= 0)
    }

    constructor ()
      ensures Valid()
      ensures incident == Incident(None, 0) && stagingAreas == []
      ensures travelSpeedKph == DefaultTravelSpeedKph
      ensures travelMetrics == map[] && routingGuidance == NoGuidance
    {
      incident := Incident(None, 0);
      stagingAreas := [];
      travelSpeedKph := DefaultTravelSpeedKph;
      travelMetrics := map[];
      routingGuidance := NoGuidance;
    }

    /** Moving the incident keeps the metrics and guidance; clearing its
        location clears both. */
    method SetIncidentLocation(location: Option<Coordinate>)
      requires Valid()
      modifies this
      ensures Valid()
      ensures incident == old(incident).(location := location)
      ensures stagingAreas == old(stagingAreas) && travelSpeedKph == old(travelSpeedKph)
      ensures location.Some? ==> travelMetrics == old(travelMetrics) && routingGuidance == old(routingGuidance)
      ensures location.None? ==> travelMetrics == map[] && routingGuidance == NoGuidance
    {
      incident := incident.(location := location);
      if location.None? {
        travelMetrics := map[];
        routingGuidance := NoGuidance;
      }
    }

    method SetDemand(demand: int)
      requires Valid()
      modifies this
      ensures Valid()
      ensures incident == old(incident).(demand := Max(0, demand))
      ensures demand >= 0 ==> incident.demand == demand
      ensures stagingAreas == old(stagingAreas) && travelSpeedKph == old(travelSpeedKph)
      ensures travelMetrics == old(travelMetrics) && routingGuidance == old(routingGuidance)
    {
      incident := incident.(demand := Max(0, demand));
    }

    method SetTravelSpeed(speedKph: real)
      requires Valid()
      modifies this
      ensures Valid()
      ensures travelSpeedKph == MaxReal(MinTravelSpeedKph, speedKph)
      ensures speedKph >= MinTravelSpeedKph ==> travelSpeedKph == speedKph
      ensures incident == old(incident) && stagingAreas == old(stagingAreas)
      ensures travelMetrics == old(travelMetrics) && routingGuidance == old(routingGuidance)
    {
      travelSpeedKph := MaxReal(MinTravelSpeedKph, speedKph);
    }

    /** Appends a new area with idle metric and guidance. The id and the
        resolved name are parameters: the source draws a random id and
        numbers the default name. */
    method AddStaging(id: string, name: string, location: Coordinate, available: int) returns (area: StagingArea)
      requires Valid()
      modifies this
      ensures Valid()
      ensures area == StagingArea(id, name, location, Max(0, available))
      ensures stagingAreas == old(stagingAreas) + [area]
      ensures travelMetrics == old(travelMetrics)[id := IdleMetrics]
      ensures routingGuidance == old(routingGuidance).(staging := old(routingGuidance).staging[id := IdleGuidance])
      ensures incident == old(incident) && travelSpeedKph == old(travelSpeedKph)
    {
      area := StagingArea(id, name, location, Max(0, available));
      stagingAreas := stagingAreas + [area];
      travelMetrics := travelMetrics[id := IdleMetrics];
      routingGuidance := routingGuidance.(staging := routingGuidance.staging[id := IdleGuidance]);
    }

    /** Patches the areas with this id; a new location resets the id's metric
        and staging guidance to idle, and a patched availability of zero or
        less resets its metric, whether or not an area has the id. */
    method UpdateStaging(id: string, patch: StagingPatch)
      requires Valid()
      modifies this
      ensures Valid()
      ensures stagingAreas == PatchAreas(old(stagingAreas), id, patch)
      ensures travelMetrics ==
        if patch.location.Some? || (patch.available.Some? && patch.available.value <= 0)
        then old(travelMetrics)[id := IdleMetrics]
        else old(travelMetrics)
      ensures routingGuidance ==
        if patch.location.Some?
        then old(routingGuidance).(staging := old(routingGuidance).staging[id := IdleGuidance])
        else old(routingGuidance)
      ensures incident == old(incident) && travelSpeedKph == old(travelSpeedKph)
    {
      var nextAreas := PatchAreas(stagingAreas, id, patch);
      PatchAreasEffect(stagingAreas, id, patch);
      forall a | a in nextAreas
        ensures a.available >= 0
      {
        var i :| 0 <= i < |nextAreas| && nextAreas[i] == a;
        assert stagingAreas[i] in stagingAreas;
      }
      var metrics := travelMetrics;
      var guidance := routingGuidance;
      if patch.location.Some? {
        metrics := metrics[id := IdleMetrics];
        guidance := guidance.(staging := guidance.staging[id := IdleGuidance]);
      }
      if patch.available.Some? && patch.available.value <= 0 {
        metrics := metrics[id := IdleMetrics];
      }
      stagingAreas, travelMetrics, routingGuidance := nextAreas, metrics, guidance;
    }

    /** Drops the areas with this id and the id's metric and staging guidance. */
    method RemoveStaging(id: string)
      requires Valid()
      modifies this
      ensures Valid()
      ensures stagingAreas == WithoutArea(old(stagingAreas), id)
      ensures travelMetrics == old(travelMetrics) - {id}
      ensures routingGuidance == old(routingGuidance).(staging := old(routingGuidance).staging - {id})
      ensures incident == old(incident) && travelSpeedKph == old(travelSpeedKph)
    {
      stagingAreas := WithoutArea(stagingAreas, id);
      travelMetrics := travelMetrics - {id};
      routingGuidance := routingGuidance.(staging := routingGuidance.staging - {id});
    }

    /** Merges a batch of metric updates, one id at a time. */
    method SetTravelMetrics(updates: map<string, TravelMetrics>)
      requires Valid()
      modifies this
      ensures Valid()
      ensures travelMetrics == MergeAll(old(travelMetrics), updates)
      ensures incident == old(incident) && stagingAreas == old(stagingAreas)
      ensures travelSpeedKph == old(travelSpeedKph) && routingGuidance == old(routingGuidance)
    {
      var current := travelMetrics;
      var next := current;
      var pending := updates.Keys;
      while pending != {}
        invariant pending <= updates.Keys
        invariant next == MergedOver(current, updates, updates.Keys - pending)
        modifies {}
        decreases pending
      {
        var id :| id in pending;
        MergedOverStep(current, updates, updates.Keys - pending, id);
        assert (updates.Keys - pending) + {id} == updates.Keys - (pending - {id});
        next := next[id := MergeMetrics(MetricOrIdle(next, id), updates[id])];
        pending := pending - {id};
      }
      assert updates.Keys - pending == updates.Keys;
      assert MergedOver(current, updates, updates.Keys) == MergeAll(current, updates);
      travelMetrics := next;
    }

    /** Without ids every metric goes; otherwise each listed id's metric. */
    method ClearTravelMetrics(ids: Option<seq<string>>)
      requires Valid()
      modifies this
      ensures Valid()
      ensures ids.None? ==> travelMetrics == map[]
      ensures ids.Some? ==> travelMetrics == old(travelMetrics) - (set id | id in ids.value)
      ensures incident == old(incident) && stagingAreas == old(stagingAreas)
      ensures travelSpeedKph == old(travelSpeedKph) && routingGuidance == old(routingGuidance)
    {
      if ids.None? {
        travelMetrics := map[];
        return;
      }
      var next := travelMetrics;
      for k := 0 to |ids.value|
        invariant next == travelMetrics - (set j | 0 <= j < k :: ids.value[j])
      {
        next := next - {ids.value[k]};
      }
      assert (set j | 0 <= j < |ids.value| :: ids.value[j]) == (set id | id in ids.value);
      travelMetrics := next;
    }

    /** No target clears all guidance; the hospital target clears the
        hospital route; the staging target clears the listed ids, or every
        staging route when no ids are given. */
    method ClearRoutingGuidance(target: Option<GuidanceTarget>, ids: Option<seq<string>>)
      requires Valid()
      modifies this
      ensures Valid()
      ensures target.None? ==> routingGuidance == NoGuidance
      ensures target == Some(HospitalTarget) ==> routingGuidance == old(routingGuidance).(hospital := None)
      ensures target == Some(StagingTarget) && ids.None? ==>
        routingGuidance == old(routingGuidance).(staging := map[])
      ensures target == Some(StagingTarget) && ids.Some? ==>
        routingGuidance == old(routingGuidance).(staging := old(routingGuidance).staging - (set id | id in ids.value))
      ensures incident == old(incident) && stagingAreas == old(stagingAreas)
      ensures travelSpeedKph == old(travelSpeedKph) && travelMetrics == old(travelMetrics)
    {
      if target.None? {
        routingGuidance := NoGuidance;
      } else if target.value == HospitalTarget {
        routingGuidance := routingGuidance.(hospital := None);
      } else if ids.None? {
        routingGuidance := routingGuidance.(staging := map[]);
      } else {
        var next := routingGuidance.staging;
        for k := 0 to |ids.value|
          invariant next == routingGuidance.staging - (set j | 0 <= j < k :: ids.value[j])
        {
          next := next - {ids.value[k]};
        }
        assert (set j | 0 <= j < |ids.value| :: ids.value[j]) == (set id | id in ids.value);
        routingGuidance := routingGuidance.(staging := next);
      }
    }

    /** The greedy plan, or nothing without a location, without positive
        demand or without staging areas. The walk over the sorted candidates
        is the specification `Allocation.Greedy`, and the result is
        `Allocation.Plan`, whose properties are proved in that module. */
    method ComputeAllocation(dist: DistanceFn) returns (r: Option<AllocationResult>)
      requires Valid()
      ensures r.None? <==> incident.location.None? || incident.demand <= 0 || |stagingAreas| == 0
      ensures r.Some? ==> r.value == Allocation.Plan(stagingAreas, travelMetrics, incident.location.value,
                                                     incident.demand, travelSpeedKph, dist)
      ensures r.Some? ==> r.value.totalSent == Min(incident.demand, Allocation.PositiveSupply(stagingAreas))
      ensures r.Some? ==> r.value.unmet == incident.demand - r.value.totalSent
    {
      if incident.location.None? || incident.demand <= 0 || |stagingAreas| == 0 {
        return None;
      }
      var origin := incident.location.value;
      var demand := incident.demand;
      var sorted := Allocation.SortedCandidates(stagingAreas, travelMetrics, origin, travelSpeedKph, dist);
      var decisions, totalDistanceKm, totalEta, totalSent, criticalServed, surgePenalty := WalkNearestFirst(sorted, demand);
      Allocation.PlanOfWalk(stagingAreas, travelMetrics, origin, demand, travelSpeedKph, dist, decisions);
      r := Some(Allocation.Finish(demand, decisions, totalDistanceKm, totalEta, totalSent, criticalServed, surgePenalty));
    }
  }
}

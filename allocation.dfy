/** The greedy nearest-first allocation planner and its risk scoring
    (the body of `computeAllocation` in src/app/store.ts:178-262), as
    specification functions. The loop itself is `Store.PlanningSession.
    ComputeAllocation`, proved equal to `Plan` below. */
module Allocation {
  import opened Common
  import opened Geo
  import opened Domain
  import Sorting
  import Risk

  /** Deliveries with an ETA up to this many minutes count as critical. */
  const CriticalWindowMinutes: real := 45.0
  /** Share of demand assumed to need a response inside the window. */
  const ImmediateFraction: real := 0.4
  /** Average travel distance at which the distance penalty saturates. */
  const DistanceNormalizerKm: real := 400.0
  const UnmetWeight: real := 0.55
  const EtaWeight: real := 0.3
  const DistanceWeight: real := 0.15

  /** A staging area with a resolved distance and ETA (the mapped entries). */
  datatype Candidate = Candidate(area: StagingArea, distanceKm: real, etaMinutes: real)

  function MetricOf(metrics: map<string, TravelMetrics>, id: string): Option<TravelMetrics> {
    if id in metrics then Some(metrics[id]) else None
  }

  /** Distance: the metric's `distanceKm` if the record carries one, else its
      `fallbackDistanceKm`, else the great-circle distance. ETA: the metric's
      `etaMinutes` if carried, else the distance at the travel speed. The
      choice is by field presence, whatever the metric's status. */
  function Resolve(area: StagingArea, metrics: map<string, TravelMetrics>, origin: Coordinate,
                   speedKph: real, dist: DistanceFn): Candidate
    requires speedKph > 0.0
  {
    var m := MetricOf(metrics, area.id);
    var distanceKm :=
      if m.Some? && m.value.distanceKm.Some? then m.value.distanceKm.value
      else if m.Some? && m.value.fallbackDistanceKm.Some? then m.value.fallbackDistanceKm.value
      else dist(area.location, origin);
    var etaMinutes :=
      if m.Some? && m.value.etaMinutes.Some? then m.value.etaMinutes.value
      else distanceKm / speedKph * 60.0;
    Candidate(area, distanceKm, etaMinutes)
  }

  /** The areas with something available, resolved, in input order. */
  function Candidates(areas: seq<StagingArea>, metrics: map<string, TravelMetrics>, origin: Coordinate,
                      speedKph: real, dist: DistanceFn): (cs: seq<Candidate>)
    requires speedKph > 0.0
    ensures |cs| <= |areas|
    ensures forall c :: c in cs ==>
      && c.area in areas
      && c.area.available > 0
      && c == Resolve(c.area, metrics, origin, speedKph, dist)
  {
    if areas == [] then []
    else
      (if areas[0].available > 0 then [Resolve(areas[0], metrics, origin, speedKph, dist)] else [])
      + Candidates(areas[1..], metrics, origin, speedKph, dist)
  }

  /** The comparator `a.distanceKm - b.distanceKm`. */
  function ByDistance(a: Candidate, b: Candidate): bool {
    a.distanceKm <= b.distanceKm
  }

  lemma ByDistanceOrders()
    ensures Sorting.TotalPreorder(ByDistance)
  {
  }

  /** The candidates, stably sorted nearest first. */
  function SortedCandidates(areas: seq<StagingArea>, metrics: map<string, TravelMetrics>, origin: Coordinate,
                            speedKph: real, dist: DistanceFn): seq<Candidate>
    requires speedKph > 0.0
  {
    Sorting.SortBy(Candidates(areas, metrics, origin, speedKph, dist), ByDistance)
  }

  function Decide(c: Candidate, quantity: int): AllocationDecision {
    AllocationDecision(c.area.id, c.area.name, c.distanceKm, c.etaMinutes, quantity)
  }

  /** The greedy walk: each entry gives `min(available, remaining)`, entries
      giving nothing are skipped, and the walk stops once nothing remains. */
  function Greedy(sorted: seq<Candidate>, remaining: int): seq<AllocationDecision> {
    if sorted == [] || remaining <= 0 then []
    else
      var quantity := Min(sorted[0].area.available, remaining);
      if quantity <= 0 then Greedy(sorted[1..], remaining)
      else [Decide(sorted[0], quantity)] + Greedy(sorted[1..], remaining - quantity)
  }

  /** Total of `available` over the areas that have any. */
  function PositiveSupply(areas: seq<StagingArea>): (n: int)
    ensures n >= 0
  {
    if areas == [] then 0
    else Max(0, areas[0].available) + PositiveSupply(areas[1..])
  }

  /** Total of the non-negative availabilities of some candidates. */
  function Supply(cs: seq<Candidate>): (n: int)
    ensures n >= 0
  {
    if cs == [] then 0
    else Max(0, cs[0].area.available) + Supply(cs[1..])
  }

  // Running totals of the loop, summed over the decisions made so far.

  function TotalQuantity(ds: seq<AllocationDecision>): int {
    if ds == [] then 0 else TotalQuantity(ds[..|ds| - 1]) + ds[|ds| - 1].quantity
  }

  function TotalDistance(ds: seq<AllocationDecision>): real {
    if ds == [] then 0.0 else TotalDistance(ds[..|ds| - 1]) + ds[|ds| - 1].distanceKm
  }

  function TotalEta(ds: seq<AllocationDecision>): real {
    if ds == [] then 0.0 else TotalEta(ds[..|ds| - 1]) + ds[|ds| - 1].etaMinutes
  }

  /** Quantity delivered inside the critical window. */
  function CriticalServed(ds: seq<AllocationDecision>): int {
    if ds == [] then 0
    else
      var d := ds[|ds| - 1];
      CriticalServed(ds[..|ds| - 1]) + (if d.etaMinutes <= CriticalWindowMinutes then d.quantity else 0)
  }

  /** One late decision's penalty: its quantity scaled by the window overrun. */
  function LatePenalty(d: AllocationDecision): int {
    Round((d.etaMinutes - CriticalWindowMinutes) / CriticalWindowMinutes * (d.quantity as real))
  }

  function SurgePenalty(ds: seq<AllocationDecision>): int {
    if ds == [] then 0
    else
      var d := ds[|ds| - 1];
      SurgePenalty(ds[..|ds| - 1]) + (if d.etaMinutes <= CriticalWindowMinutes then 0 else LatePenalty(d))
  }

  lemma {:induction false} RatioAtMost(unmet: int, demand: int)
    requires demand > 0
    ensures (unmet as real) / (demand as real) <= 0.3 <==> 10 * unmet <= 3 * demand
  {
    var q := (unmet as real) / (demand as real);
    assert q * (demand as real) == unmet as real;
    if q <= 0.3 {
      assert q * (demand as real) <= 0.3 * (demand as real);
    } else {
      assert q * (demand as real) > 0.3 * (demand as real);
    }
  }

  /** The outcome risk: Low when all demand is met, Medium when at most 30 %
      of it is unmet, High otherwise. */
  function AllocationRisk(demand: int, unmet: int): (r: RiskLevel)
    ensures r == Low <==> unmet == 0
    ensures r == Medium <==> unmet != 0 && demand > 0 && 10 * unmet <= 3 * demand
    ensures r == High <==> unmet != 0 && (demand <= 0 || 3 * demand < 10 * unmet)
  {
    if unmet == 0 then Low
    else if demand > 0 && (RatioAtMost(unmet, demand); (unmet as real) / (demand as real) <= 0.3) then Medium
    else High
  }

  lemma DivNonNegative(a: real, b: real)
    requires a >= 0.0 && b > 0.0
    ensures a / b >= 0.0
  {
  }

  function ImmediateDemand(demand: int): (n: int)
    ensures demand >= 0 ==> n >= 0
  {
    Ceil(demand as real * ImmediateFraction)
  }

  /** Share of the immediate demand served inside the window, in percent,
      capped at 100; 100 when nothing is needed immediately. */
  function CriticalCoverage(immediateDemand: int, criticalServed: int): (p: int)
    ensures p <= 100
    ensures immediateDemand >= 0 && criticalServed >= 0 ==> 0 <= p
    ensures immediateDemand >= 0 && criticalServed >= immediateDemand ==> p == 100
  {
    if immediateDemand == 0 then 100
    else
      var ratio := criticalServed as real / immediateDemand as real;
      assert immediateDemand > 0 && criticalServed >= 0 ==> ratio >= 0.0 by {
        if immediateDemand > 0 && criticalServed >= 0 {
          DivNonNegative(criticalServed as real, immediateDemand as real);
        }
      }
      assert immediateDemand > 0 && criticalServed >= immediateDemand ==> ratio >= 1.0 by {
        if immediateDemand > 0 && criticalServed >= immediateDemand {
          assert ratio * immediateDemand as real == criticalServed as real;
        }
      }
      Min(100, Round(ratio * 100.0))
  }

  /** The weighted pressure score in percent, capped at 100. The ETA term
      counts only when an average exists and is non-zero. */
  function PressureIndex(demand: int, unmet: int, averageEtaMinutes: Option<real>, travelBurden: real): (p: int)
    ensures p <= 100
    ensures unmet >= 0 && travelBurden >= 0.0 ==> 0 <= p
  {
    var unmetRatio := if demand > 0 then unmet as real / demand as real else 0.0;
    var etaPenalty :=
      if averageEtaMinutes.Some? && averageEtaMinutes.value != 0.0
      then MaxReal(0.0, averageEtaMinutes.value - CriticalWindowMinutes) / CriticalWindowMinutes
      else 0.0;
    var distancePenalty := MinReal(1.0, travelBurden / DistanceNormalizerKm);
    assert demand > 0 && unmet >= 0 ==> unmetRatio >= 0.0 by {
      if demand > 0 && unmet >= 0 { DivNonNegative(unmet as real, demand as real); }
    }
    Min(100, Round((unmetRatio * UnmetWeight + etaPenalty * EtaWeight + distancePenalty * DistanceWeight) * 100.0))
  }

  /** The derived figures of src/app/store.ts:229-244, from the loop's totals. */
  function Finish(demand: int, decisions: seq<AllocationDecision>, totalDistanceKm: real, totalEta: real,
                  totalSent: int, criticalServed: int, surgePenalty: int): (r: AllocationResult)
    ensures r.demand == demand && r.totalSent == totalSent && r.decisions == decisions
    ensures r.totalDistanceKm == totalDistanceKm
    ensures r.unmet >= 0 && r.unmet >= demand - totalSent
    ensures totalSent <= demand ==> r.unmet == demand - totalSent
    ensures r.riskLevel == Low <==> r.unmet == 0
    ensures r.riskLevel == Medium <==> r.unmet != 0 && demand > 0 && 10 * r.unmet <= 3 * demand
    ensures r.averageEtaMinutes.Some? <==> |decisions| > 0
    ensures r.criticalCoveragePercent <= 100
    ensures demand >= 0 && criticalServed >= 0 ==> 0 <= r.criticalCoveragePercent
    ensures demand >= 0 && criticalServed >= ImmediateDemand(demand) ==> r.criticalCoveragePercent == 100
    ensures r.criticalGap >= 0
    ensures r.criticalGap == 0 <==> criticalServed >= ImmediateDemand(demand)
    ensures r.surgeDemand >= demand
    ensures surgePenalty >= 0 ==> r.surgeDemand == demand + surgePenalty
    ensures r.pressureIndex <= 100
    ensures totalDistanceKm >= 0.0 ==> 0 <= r.pressureIndex
    ensures r.demandRiskLevel == Risk.DemandRiskLevel(demand)
  {
    var count := |decisions|;
    var unmet := Max(0, demand - totalSent);
    var averageEtaMinutes: Option<real> := if count > 0 then Some(totalEta / count as real) else None;
    var travelBurden := if count > 0 then totalDistanceKm / count as real else 0.0;
    assert totalDistanceKm >= 0.0 ==> travelBurden >= 0.0 by {
      if totalDistanceKm >= 0.0 && count > 0 { DivNonNegative(totalDistanceKm, count as real); }
    }
    var immediateDemand := ImmediateDemand(demand);
    AllocationResult(
      demand, totalSent, unmet, averageEtaMinutes, totalDistanceKm,
      Max(demand, demand + surgePenalty),
      CriticalCoverage(immediateDemand, criticalServed),
      Max(0, immediateDemand - criticalServed),
      PressureIndex(demand, unmet, averageEtaMinutes, travelBurden),
      AllocationRisk(demand, unmet), Risk.DemandRiskLevel(demand), decisions)
  }

  /** The result for a list of decisions, with the loop's totals. */
  function Summarize(demand: int, decisions: seq<AllocationDecision>): AllocationResult {
    Finish(demand, decisions, TotalDistance(decisions), TotalEta(decisions), TotalQuantity(decisions),
           CriticalServed(decisions), SurgePenalty(decisions))
  }

  /** The whole plan for an incident with a location and positive demand. */
  function Plan(areas: seq<StagingArea>, metrics: map<string, TravelMetrics>, origin: Coordinate,
                demand: int, speedKph: real, dist: DistanceFn): AllocationResult
    requires speedKph > 0.0
  {
    Summarize(demand, Greedy(SortedCandidates(areas, metrics, origin, speedKph, dist), demand))
  }

  /** One step of the walk from position `i`: what `Greedy` does with the
      entry there. */
  lemma GreedyStep(sorted: seq<Candidate>, i: int, remaining: int)
    requires 0 <= i < |sorted| && remaining > 0
    ensures var quantity := Min(sorted[i].area.available, remaining);
      Greedy(sorted[i..], remaining) ==
        if quantity <= 0 then Greedy(sorted[i + 1..], remaining)
        else [Decide(sorted[i], quantity)] + Greedy(sorted[i + 1..], remaining - quantity)
  {
    assert sorted[i..][1..] == sorted[i + 1..];
  }

  /** The running totals after one more decision. */
  lemma TotalsStep(ds: seq<AllocationDecision>, d: AllocationDecision)
    ensures var e := ds + [d];
      && TotalQuantity(e) == TotalQuantity(ds) + d.quantity
      && TotalDistance(e) == TotalDistance(ds) + d.distanceKm
      && TotalEta(e) == TotalEta(ds) + d.etaMinutes
      && CriticalServed(e) == CriticalServed(ds) + (if d.etaMinutes <= CriticalWindowMinutes then d.quantity else 0)
      && SurgePenalty(e) == SurgePenalty(ds) + (if d.etaMinutes <= CriticalWindowMinutes then 0 else LatePenalty(d))
  {
    assert (ds + [d])[..|ds|] == ds;
  }

  // ---------------------------------------------------------------------
  // Quantity conservation

  lemma {:induction false} TotalQuantityCons(d: AllocationDecision, ds: seq<AllocationDecision>)
    ensures TotalQuantity([d] + ds) == d.quantity + TotalQuantity(ds)
  {
    if ds != [] {
      var n := |ds|;
      assert ([d] + ds)[..n] == [d] + ds[..n - 1];
      TotalQuantityCons(d, ds[..n - 1]);
    } else {
      assert [d] + ds == [d];
      assert [d][..0] == [];
    }
  }

  /** The walk sends `min(remaining, supply)`. */
  lemma {:induction false} GreedySends(sorted: seq<Candidate>, remaining: int)
    requires remaining >= 0
    ensures TotalQuantity(Greedy(sorted, remaining)) == Min(remaining, Supply(sorted))
  {
    if sorted != [] && remaining > 0 {
      var quantity := Min(sorted[0].area.available, remaining);
      if quantity <= 0 {
        GreedySends(sorted[1..], remaining);
      } else {
        GreedySends(sorted[1..], remaining - quantity);
        TotalQuantityCons(Decide(sorted[0], quantity), Greedy(sorted[1..], remaining - quantity));
      }
    }
  }

  /** With positive availabilities the walk uses a prefix of the sorted list,
      position by position, and stops early only once demand is met. */
  lemma {:induction false} GreedyPrefix(sorted: seq<Candidate>, remaining: int)
    requires forall c :: c in sorted ==> c.area.available > 0
    ensures var ds := Greedy(sorted, remaining);
      && |ds| <= |sorted|
      && (forall k :: 0 <= k < |ds| ==>
            && ds[k] == Decide(sorted[k], ds[k].quantity)
            && 0 < ds[k].quantity <= sorted[k].area.available)
      && (remaining >= 0 && |ds| < |sorted| ==> TotalQuantity(ds) == remaining)
  {
    var ds := Greedy(sorted, remaining);
    if sorted != [] && remaining > 0 {
      var quantity := Min(sorted[0].area.available, remaining);
      assert sorted[0] in sorted;
      var rest := Greedy(sorted[1..], remaining - quantity);
      assert forall c :: c in sorted[1..] ==> c in sorted;
      GreedyPrefix(sorted[1..], remaining - quantity);
      assert ds == [Decide(sorted[0], quantity)] + rest;
      forall k | 0 <= k < |ds|
        ensures ds[k] == Decide(sorted[k], ds[k].quantity) && 0 < ds[k].quantity <= sorted[k].area.available
      {
        if k > 0 {
          assert ds[k] == rest[k - 1];
          assert sorted[1..][k - 1] == sorted[k];
        }
      }
      TotalQuantityCons(Decide(sorted[0], quantity), rest);
    }
  }

  lemma {:induction false} SupplyAppend(a: seq<Candidate>, b: seq<Candidate>)
    ensures Supply(a + b) == Supply(a) + Supply(b)
  {
    if a != [] {
      assert (a + b)[1..] == a[1..] + b;
      SupplyAppend(a[1..], b);
    } else {
      assert a + b == b;
    }
  }

  lemma {:induction false} SupplyInsert(x: Candidate, s: seq<Candidate>)
    ensures Supply(Sorting.Insert(x, s, ByDistance)) == Supply(s) + Max(0, x.area.available)
  {
    if s != [] && ByDistance(s[0], x) {
      SupplyInsert(x, s[1..]);
      assert ([s[0]] + Sorting.Insert(x, s[1..], ByDistance))[1..] == Sorting.Insert(x, s[1..], ByDistance);
    } else if s != [] {
      assert ([x] + s)[1..] == s;
    }
  }

  /** Sorting does not change the supply. */
  lemma {:induction false} SupplySorted(s: seq<Candidate>)
    ensures Supply(Sorting.SortBy(s, ByDistance)) == Supply(s)
  {
    if s != [] {
      var init, last := s[..|s| - 1], s[|s| - 1];
      SupplySorted(init);
      SupplyInsert(last, Sorting.SortBy(init, ByDistance));
      Sorting.SplitLast(s);
      SupplyAppend(init, [last]);
      assert [last][1..] == [];
    }
  }

  lemma {:induction false} CandidatesSupply(areas: seq<StagingArea>, metrics: map<string, TravelMetrics>,
                                            origin: Coordinate, speedKph: real, dist: DistanceFn)
    requires speedKph > 0.0
    ensures Supply(Candidates(areas, metrics, origin, speedKph, dist)) == PositiveSupply(areas)
  {
    if areas != [] {
      CandidatesSupply(areas[1..], metrics, origin, speedKph, dist);
      var head := if areas[0].available > 0 then [Resolve(areas[0], metrics, origin, speedKph, dist)] else [];
      SupplyAppend(head, Candidates(areas[1..], metrics, origin, speedKph, dist));
    }
  }

  /** Conservation: the plan sends `min(demand, total positive supply)`, the
      decisions add up to it, and `unmet` is what is left of the demand. */
  lemma PlanConserves(areas: seq<StagingArea>, metrics: map<string, TravelMetrics>, origin: Coordinate,
                      demand: int, speedKph: real, dist: DistanceFn)
    requires speedKph > 0.0 && demand > 0
    ensures var r := Plan(areas, metrics, origin, demand, speedKph, dist);
      && r.totalSent == TotalQuantity(r.decisions)
      && r.totalSent == Min(demand, PositiveSupply(areas))
      && r.unmet == demand - r.totalSent
      && (r.riskLevel == Low <==> demand <= PositiveSupply(areas))
  {
    var cs := Candidates(areas, metrics, origin, speedKph, dist);
    var sorted := SortedCandidates(areas, metrics, origin, speedKph, dist);
    GreedySends(sorted, demand);
    SupplySorted(cs);
    CandidatesSupply(areas, metrics, origin, speedKph, dist);
  }

  /** Every sorted candidate comes from an area with positive availability,
      at that area's resolved distance and ETA. */
  lemma SortedCandidatesFromAreas(areas: seq<StagingArea>, metrics: map<string, TravelMetrics>, origin: Coordinate,
                                  speedKph: real, dist: DistanceFn)
    requires speedKph > 0.0
    ensures forall c :: c in SortedCandidates(areas, metrics, origin, speedKph, dist) ==>
      && c.area in areas && c.area.available > 0
      && c == Resolve(c.area, metrics, origin, speedKph, dist)
  {
    var cs := Candidates(areas, metrics, origin, speedKph, dist);
    forall c | c in Sorting.SortBy(cs, ByDistance)
      ensures c.area in areas && c.area.available > 0 && c == Resolve(c.area, metrics, origin, speedKph, dist)
    {
      assert c in multiset(cs);
    }
  }

  /** The plan is the summary of the walk over the sorted candidates, and it
      conserves quantity. */
  lemma PlanOfWalk(areas: seq<StagingArea>, metrics: map<string, TravelMetrics>, origin: Coordinate,
                   demand: int, speedKph: real, dist: DistanceFn, decisions: seq<AllocationDecision>)
    requires speedKph > 0.0 && demand > 0
    requires decisions == Greedy(SortedCandidates(areas, metrics, origin, speedKph, dist), demand)
    ensures Plan(areas, metrics, origin, demand, speedKph, dist) == Summarize(demand, decisions)
    ensures TotalQuantity(decisions) == Min(demand, PositiveSupply(areas))
  {
    PlanConserves(areas, metrics, origin, demand, speedKph, dist);
  }

  /** Each decision is the sorted candidate at the same position: it comes
      from an area with positive availability, carries that area's resolved
      distance and ETA, and gives between 1 and that availability. */
  lemma PlanDecisions(areas: seq<StagingArea>, metrics: map<string, TravelMetrics>, origin: Coordinate,
                      demand: int, speedKph: real, dist: DistanceFn)
    requires speedKph > 0.0
    ensures var sorted := SortedCandidates(areas, metrics, origin, speedKph, dist);
      var ds := Plan(areas, metrics, origin, demand, speedKph, dist).decisions;
      && |ds| <= |sorted|
      && (forall k :: 0 <= k < |ds| ==>
            && ds[k] == Decide(sorted[k], ds[k].quantity)
            && sorted[k].area in areas
            && sorted[k] == Resolve(sorted[k].area, metrics, origin, speedKph, dist)
            && 0 < ds[k].quantity <= sorted[k].area.available)
  {
    var sorted := SortedCandidates(areas, metrics, origin, speedKph, dist);
    var ds := Greedy(sorted, demand);
    SortedCandidatesFromAreas(areas, metrics, origin, speedKph, dist);
    GreedyPrefix(sorted, demand);
    forall k | 0 <= k < |ds|
      ensures sorted[k].area in areas && sorted[k] == Resolve(sorted[k].area, metrics, origin, speedKph, dist)
    {
      assert sorted[k] in sorted;
    }
  }

  /** The decisions are made nearest first. */
  lemma PlanNearestFirst(areas: seq<StagingArea>, metrics: map<string, TravelMetrics>, origin: Coordinate,
                         demand: int, speedKph: real, dist: DistanceFn)
    requires speedKph > 0.0
    ensures var ds := Plan(areas, metrics, origin, demand, speedKph, dist).decisions;
      forall i, j :: 0 <= i < j < |ds| ==> ds[i].distanceKm <= ds[j].distanceKm
  {
    var cs := Candidates(areas, metrics, origin, speedKph, dist);
    var sorted := SortedCandidates(areas, metrics, origin, speedKph, dist);
    var ds := Greedy(sorted, demand);
    SortedCandidatesFromAreas(areas, metrics, origin, speedKph, dist);
    GreedyPrefix(sorted, demand);
    ByDistanceOrders();
    Sorting.SortSorted(cs, ByDistance);
    forall i, j | 0 <= i < j < |ds|
      ensures ds[i].distanceKm <= ds[j].distanceKm
    {
      assert ByDistance(sorted[i], sorted[j]);
    }
  }

  /** Every distance a metric record carries is non-negative, as a routing
      answer (metres / 1000) and a great-circle fallback are. */
  predicate MetricDistancesNonNegative(metrics: map<string, TravelMetrics>) {
    forall id :: id in metrics ==>
      && (metrics[id].distanceKm.Some? ==> metrics[id].distanceKm.value >= 0.0)
      && (metrics[id].fallbackDistanceKm.Some? ==> metrics[id].fallbackDistanceKm.value >= 0.0)
  }

  /** Decisions with non-negative distances and quantities have non-negative
      distance and critical-window totals. */
  lemma {:induction false} TotalsNonNegative(ds: seq<AllocationDecision>)
    requires forall d :: d in ds ==> d.distanceKm >= 0.0 && d.quantity >= 0
    ensures TotalDistance(ds) >= 0.0 && CriticalServed(ds) >= 0
  {
    if ds != [] {
      var init := ds[..|ds| - 1];
      assert ds[|ds| - 1] in ds;
      assert forall d :: d in init ==> d in ds;
      TotalsNonNegative(init);
    }
  }

  /** Bounded scores: with non-negative metric distances, the plan's total
      distance is non-negative and its critical coverage and pressure index
      lie between 0 and 100. */
  lemma PlanScoresBounded(areas: seq<StagingArea>, metrics: map<string, TravelMetrics>, origin: Coordinate,
                          demand: int, speedKph: real, dist: DistanceFn)
    requires speedKph > 0.0 && demand > 0
    requires MetricDistancesNonNegative(metrics)
    ensures var r := Plan(areas, metrics, origin, demand, speedKph, dist);
      && r.totalDistanceKm >= 0.0
      && 0 <= r.criticalCoveragePercent <= 100
      && 0 <= r.pressureIndex <= 100
  {
    var ds := Greedy(SortedCandidates(areas, metrics, origin, speedKph, dist), demand);
    DecisionsNonNegative(areas, metrics, origin, demand, speedKph, dist);
    TotalsNonNegative(ds);
    SummaryBounded(demand, ds);
  }

  lemma SummaryBounded(demand: int, ds: seq<AllocationDecision>)
    requires demand >= 0 && TotalDistance(ds) >= 0.0 && CriticalServed(ds) >= 0
    ensures var r := Summarize(demand, ds);
      && r.totalDistanceKm >= 0.0
      && 0 <= r.criticalCoveragePercent <= 100
      && 0 <= r.pressureIndex <= 100
  {
  }

  /** Under the same condition every decision of the plan has a
      non-negative distance and a positive quantity. */
  lemma DecisionsNonNegative(areas: seq<StagingArea>, metrics: map<string, TravelMetrics>, origin: Coordinate,
                             demand: int, speedKph: real, dist: DistanceFn)
    requires speedKph > 0.0
    requires MetricDistancesNonNegative(metrics)
    ensures forall d :: d in Greedy(SortedCandidates(areas, metrics, origin, speedKph, dist), demand) ==>
      d.distanceKm >= 0.0 && d.quantity > 0
  {
    var sorted := SortedCandidates(areas, metrics, origin, speedKph, dist);
    SortedCandidatesFromAreas(areas, metrics, origin, speedKph, dist);
    forall c | c in sorted
      ensures c.distanceKm >= 0.0
    {
      ResolveNonNegative(c.area, metrics, origin, speedKph, dist);
    }
    GreedyNonNegative(sorted, demand);
  }

  lemma ResolveNonNegative(area: StagingArea, metrics: map<string, TravelMetrics>, origin: Coordinate,
                           speedKph: real, dist: DistanceFn)
    requires speedKph > 0.0
    requires MetricDistancesNonNegative(metrics)
    ensures Resolve(area, metrics, origin, speedKph, dist).distanceKm >= 0.0
  {
  }

  /** The walk over candidates at non-negative distances makes decisions at
      non-negative distances, each with a positive quantity. */
  lemma {:induction false} GreedyNonNegative(sorted: seq<Candidate>, remaining: int)
    requires forall c :: c in sorted ==> c.distanceKm >= 0.0
    ensures forall d :: d in Greedy(sorted, remaining) ==> d.distanceKm >= 0.0 && d.quantity > 0
  {
    if sorted != [] && remaining > 0 {
      assert sorted[0] in sorted;
      assert forall c :: c in sorted[1..] ==> c in sorted;
      var quantity := Min(sorted[0].area.available, remaining);
      if quantity <= 0 {
        GreedyNonNegative(sorted[1..], remaining);
      } else {
        GreedyNonNegative(sorted[1..], remaining - quantity);
      }
    }
  }

  /** Stable order: the candidates at any one distance are walked in the
      order their areas have in the input list. */
  lemma PlanTiesKeepInputOrder(areas: seq<StagingArea>, metrics: map<string, TravelMetrics>, origin: Coordinate,
                               speedKph: real, dist: DistanceFn, y: Candidate)
    requires speedKph > 0.0
    ensures Sorting.Ties(SortedCandidates(areas, metrics, origin, speedKph, dist), ByDistance, y)
         == Sorting.Ties(Candidates(areas, metrics, origin, speedKph, dist), ByDistance, y)
  {
    ByDistanceOrders();
    Sorting.SortStable(Candidates(areas, metrics, origin, speedKph, dist), ByDistance, y);
  }
}

# Alaska resource allocation: the planning engine, in Dafny

This project models the planning engine behind the Alaska resource-allocation
dashboard and proves its properties. An incident has a location and a demand
(casualties), and staging areas have units available. The engine covers:

- **The nearest-first greedy planner** (`Allocation`, `Store`). It sends units
  from the staging areas to the incident, nearest area first. It resolves each
  area's distance from the live travel metrics, else their fallback, else the
  great-circle distance. It then scores the outcome: unmet demand, critical
  coverage, pressure index and a risk level.
- **The planning-session store** (`Store.PlanningSession`). Its actions set the
  incident, edit the staging list, and merge or clear per-area travel metrics
  and routing guidance.
- **The arctic-sim variant of the store** (`ArcticStore`). It always plans by
  great-circle distance, and it couples the demand to a risk preset.
- **The travel-metrics effect of the map view** (`TravelMetricsEffect`). It
  marks every area as loading and asks a routing service for a distance
  matrix. It then merges the answer, a per-area fallback, or nothing once the
  effect has been cancelled.
- **The severity router and the demand-risk badge** (`Severity`, `Risk`).
- **Hospital scoping around an incident** (`HospitalScope`, `ArcticHospitals`).
- **The saved-scenario list in browser storage** (`Persist`).
- **The generator that turns hospital CSV exports into rosters**
  (`HospitalParser`).

Great-circle distance is a parameter `dist: Geo.DistanceFn`: any total
function with non-negative values. Hospital rosters, the routing service's
answers and Python's float parser are parameters too. `Array.prototype.sort`
is `Sorting.SortBy`, a stable insertion sort. `filter` is `Sorting.Filter`.

Files: `common.dfy`, `geo.dfy`, `domain.dfy`, `sorting.dfy`, `risk.dfy`,
`allocation.dfy`, `store.dfy`, `arctic_store.dfy`, `travel_metrics.dfy`,
`severity.dfy`, `hospitals.dfy`, `persist.dfy` and `hospital_parser.dfy`.
Each file is one module, except that `hospitals.dfy` holds two.

## Model

| member | source | states |
|---|---|---|
| Common.OrElse | src/app/store.ts:190 | `a ?? b` on optional fields: present iff either is present, and the first present value wins |
| Common.Round | src/app/store.ts:218 | `Math.round`: the result is within one half of the input, halves rounding up |
| Common.Ceil | src/app/store.ts:232 | `Math.ceil`: the least integer not below the input |
| Common.RoundBounds | src/app/store.ts:233 | rounding keeps a non-negative value non-negative and never passes an integer bound |
| Sorting.Insert | src/app/store.ts:198 | one insertion step of the sort adds exactly that element: the length grows by one and the multiset gains it |
| Sorting.SortBy | src/app/store.ts:198 | the sort returns a permutation of its input |
| Sorting.SortSorted | src/app/store.ts:198 | under a total preorder, the sort's result is ordered by the comparator |
| Sorting.SortStable | src/app/store.ts:198 | stability: every class of tied elements keeps its input order |
| Sorting.FilterCount | src/lib/hospitals.ts:162 | `filter` keeps each occurrence that satisfies the predicate and drops every other one |
| Sorting.FilterSorted | src/lib/hospitals.ts:162 | filtering a sorted sequence leaves it sorted |
| Sorting.FilterMembers | src/lib/hospitals.ts:162 | an element is in the filtered sequence iff it is in the input and satisfies the predicate |
| Sorting.FilterAppend | src/lib/persist.ts:25 | `filter` distributes over concatenation |
| Sorting.FilterAll | src/lib/persist.ts:25 | a sequence whose every element satisfies the predicate is its own filter |
| Sorting.FilterTies | src/lib/hospitals.ts:162 | `filter` keeps the input order inside every tie class: the tie class of the result is the filtered tie class of the input |
| Risk.DemandRiskLevel | src/lib/risk.ts:15-26 | Low iff demand < 75 (including demand <= 0), Medium iff 75 <= demand < 175, High iff demand >= 175 |
| Risk.DemandRiskMonotone | src/lib/risk.ts:15-26 | a larger demand never gives a lower level |
| Risk.RiskCopy | src/lib/risk.ts:28-39 | every level has a non-empty advisory message |
| Allocation.Candidates | src/app/store.ts:185-197 | only areas with available > 0 become candidates, each resolved by `Resolve`: the metric's distance, else its fallback, else `dist`; the ETA is the metric's, else distance / speed * 60 |
| Allocation.ByDistanceOrders | src/app/store.ts:198 | `a.distanceKm - b.distanceKm` is a total preorder |
| Allocation.AllocationRisk | src/app/store.ts:240-244 | Low iff unmet = 0; Medium iff unmet != 0, demand > 0 and 10 * unmet <= 3 * demand; High otherwise |
| Allocation.RatioAtMost | src/app/store.ts:242 | `unmet / demand <= 0.3` is exactly `10 * unmet <= 3 * demand` |
| Allocation.ImmediateDemand | src/app/store.ts:232 | `ceil(0.4 * demand)` is non-negative for a non-negative demand |
| Allocation.CriticalCoverage | src/app/store.ts:233 | coverage is at most 100, non-negative for non-negative inputs, and 100 once the immediate demand is served |
| Allocation.PressureIndex | src/app/store.ts:236-239 | the pressure index is at most 100, and at least 0 when unmet and the travel burden are non-negative |
| Allocation.Finish | src/app/store.ts:229-261 | the derived figures: unmet = max(0, demand - sent); the risk level as above; an average ETA iff there are decisions; coverage <= 100, and >= 0 for a non-negative demand and critical quantity; critical gap >= 0 and 0 iff the critical window served the immediate demand; surge demand >= demand; pressure <= 100, and >= 0 for a non-negative total distance; the demand risk badge |
| Allocation.GreedyStep | src/app/store.ts:207-227 | one loop step: a candidate giving nothing is skipped; otherwise the walk gives `min(available, remaining)` and continues on the rest |
| Allocation.TotalsStep | src/app/store.ts:211-219 | each running total after one more decision: sent, distance, ETA, critical-window quantity and surge penalty |
| Allocation.GreedySends | src/app/store.ts:207-227 | the walk sends exactly `min(remaining, supply)` |
| Allocation.GreedyPrefix | src/app/store.ts:207-226 | with positive availabilities, decision k is the k-th sorted candidate with 0 < quantity <= available, and the walk stops early only once demand is met |
| Allocation.SupplySorted | src/app/store.ts:198 | sorting does not change the total supply |
| Allocation.CandidatesSupply | src/app/store.ts:186 | the candidates' supply is the positive supply of the areas |
| Allocation.PlanConserves | src/app/store.ts:185-229 | conservation: totalSent is the sum of the decision quantities and equals min(demand, positive supply); unmet = demand - totalSent; Low iff demand <= supply |
| Allocation.SortedCandidatesFromAreas | src/app/store.ts:185-198 | every sorted candidate comes from an input area with available > 0, at that area's resolved distance and ETA |
| Allocation.PlanOfWalk | src/app/store.ts:178-262 | the plan is the summary of the greedy walk over the sorted candidates, and that walk sends min(demand, supply) |
| Allocation.PlanDecisions | src/app/store.ts:207-226 | decisions are at most as many as the candidates and use the sorted candidates positionally; each comes from an input area, carries its resolved distance and ETA (metric, fallback, or great circle) and has 0 < quantity <= available |
| Allocation.PlanNearestFirst | src/app/store.ts:198-207 | the decisions are non-decreasing in resolved distance |
| Allocation.TotalsNonNegative | src/app/store.ts:212-218 | decisions with non-negative distances and quantities give non-negative distance and critical-window totals |
| Allocation.GreedyNonNegative | src/app/store.ts:207-226 | the walk over candidates at non-negative distances decides only non-negative distances and positive quantities |
| Allocation.DecisionsNonNegative | src/app/store.ts:185-226 | with non-negative metric distances every plan decision has a non-negative distance and a positive quantity |
| Allocation.SummaryBounded | src/app/store.ts:229-239 | for a non-negative demand, distance total and critical quantity, coverage and pressure lie in [0,100] |
| Allocation.PlanScoresBounded | src/app/store.ts:185-239 | bounded scores: with non-negative metric distances the plan's total distance is >= 0, and its critical coverage and pressure index lie in [0,100] |
| Allocation.PlanTiesKeepInputOrder | src/app/store.ts:198 | candidates at equal distance are walked in input order |
| Store.PatchAreasEffect | src/app/store.ts:138-146 | the patch keeps the length and every id, leaves other ids untouched, and applies name, location and clamped availability to the matching id |
| Store.WithoutArea | src/app/store.ts:171 | `filter(area => area.id !== id)`: an area survives removal iff it was there with another id |
| Store.MergedOverStep | src/app/store.ts:348-353 | one loop step of `setTravelMetrics` extends the partial merge by one id |
| Store.MergeAllIdempotent | src/app/store.ts:345-355 | merging a batch twice has the same effect as merging it once |
| Store.StaleDistanceSurvives | src/app/store.ts:188-191 | a patch without distance or ETA (loading, error) keeps an older ready distance and ETA, and the planner resolves to them whatever the new status |
| Store.WalkNearestFirst | src/app/store.ts:200-227 | the loop computes exactly the greedy decisions and their running totals |
| Store.PlanningSession.constructor | src/app/store.ts:93-99 | the initial state: no location, zero demand, no areas, the default speed, empty metrics and guidance |
| Store.PlanningSession.SetIncidentLocation | src/app/store.ts:100-105 | sets the location; clearing it clears metrics and guidance; everything else is unchanged |
| Store.PlanningSession.SetDemand | src/app/store.ts:106-107 | demand becomes max(0, demand); nothing else changes |
| Store.PlanningSession.SetTravelSpeed | src/app/store.ts:177 | the speed becomes max(10, speed), so it is never below 10 |
| Store.PlanningSession.AddStaging | src/app/store.ts:116-135 | appends the area with clamped availability, and gives its id an idle metric and idle guidance |
| Store.PlanningSession.UpdateStaging | src/app/store.ts:136-160 | patches the area; resets the id's metric on a location patch or availability <= 0; resets its guidance on a location patch |
| Store.PlanningSession.RemoveStaging | src/app/store.ts:161-176 | drops the area, its metric and its staging guidance |
| Store.PlanningSession.SetTravelMetrics | src/app/store.ts:345-355 | the new metrics are the field-wise merge of every update over the old entry (or idle) |
| Store.PlanningSession.ClearTravelMetrics | src/app/store.ts:356-366 | without ids every metric goes; otherwise exactly the listed ids' metrics |
| Store.PlanningSession.ClearRoutingGuidance | src/app/store.ts:382-398 | each target case: everything, only the hospital route, all staging routes, or the listed staging ids |
| Store.PlanningSession.ComputeAllocation | src/app/store.ts:178-262 | null iff no location, demand <= 0 or no areas; otherwise the plan, whose totalSent = min(demand, positive supply) and unmet = demand - totalSent |
| ArcticStore.InferRisk | arctic-sim/src/app/store.ts:28-32 | Low iff demand <= 100, Medium iff 100 < demand <= 200, High iff demand > 200 |
| ArcticStore.InferPresetDemand | arctic-sim/src/app/store.ts:22-32 | round trip: inferring the preset from a preset's own demand gives that preset back |
| ArcticStore.InferRiskMonotone | arctic-sim/src/app/store.ts:28-32 | a larger demand never infers a lower preset |
| ArcticStore.FindScenario | arctic-sim/src/app/store.ts:273 | `find`: none iff no scenario has the id, else one of the list with that id |
| ArcticStore.FindScenarioFirst | arctic-sim/src/app/store.ts:273 | the scenario found is the first with the id |
| ArcticStore.PlanConserves | arctic-sim/src/app/store.ts:203-231 | conservation: totalSent = sum of quantities = min(demand, positive supply); unmet = demand - totalSent; Low iff unmet = 0; Medium iff 10 * unmet <= 3 * demand |
| ArcticStore.PlanUsesGreatCircle | arctic-sim/src/app/store.ts:190-222 | each decision is the sorted candidate at its position, at the great-circle distance of its area with ETA distance / speed * 60, with 0 < quantity <= available; distances are non-decreasing |
| ArcticStore.WalkNearestFirst | arctic-sim/src/app/store.ts:203-223 | the loop computes exactly the greedy decisions and their totals |
| ArcticStore.ArcticSession.constructor | arctic-sim/src/app/store.ts:94-98 | the initial state over the stored scenarios |
| ArcticStore.ArcticSession.SetDemand | arctic-sim/src/app/store.ts:127-134 | stores max(0, demand) and the preset inferred from it |
| ArcticStore.ArcticSession.SetRiskPreset | arctic-sim/src/app/store.ts:135-143 | sets the preset; the demand becomes the preset's demand unless syncDemand is exactly false |
| ArcticStore.ArcticSession.UpdateStaging | arctic-sim/src/app/store.ts:163-174 | patches the matching area with clamped availability; nothing else changes |
| ArcticStore.ArcticSession.LoadScenario | arctic-sim/src/app/store.ts:272-284 | an unknown id changes nothing; otherwise it loads the incident and areas, a missing preset inferred from max(0, demand) |
| ArcticStore.ArcticSession.ComputeAllocation | arctic-sim/src/app/store.ts:183-242 | null iff no location, demand <= 0 or no areas; otherwise the great-circle plan |
| TravelMetricsEffect.BuildLoading | src/components/MapView.tsx:251-254 | the reduce builds a `loading` entry for exactly the areas' ids |
| TravelMetricsEffect.FallbackState | src/components/MapView.tsx:257-265 | every fallback entry is an error carrying the given message |
| TravelMetricsEffect.FallbackKeys | src/components/MapView.tsx:257-265 | the fallback batch has an entry for every area's id and no other |
| TravelMetricsEffect.FallbackValues | src/components/MapView.tsx:259-263 | an id's entry is the error with `dist(area, incident)` as fallback distance for the last area with that id |
| TravelMetricsEffect.BuildFallback | src/components/MapView.tsx:257-265 | the reduce builds the fallback batch |
| TravelMetricsEffect.ElementMetrics | src/components/MapView.tsx:302-314 | ready iff status OK with distance and duration, then km = m / 1000 and minutes = s / 60; otherwise the error with fallback and the element's status |
| TravelMetricsEffect.RowUpdatesKeys | src/components/MapView.tsx:297-301 | an id gets an update iff some row i has an area i and a first element, and that area has the id |
| TravelMetricsEffect.RowUpdatesValues | src/components/MapView.tsx:297-315 | the update of row i's area is row i's element metric when no later row updates the same id |
| TravelMetricsEffect.BuildRowUpdates | src/components/MapView.tsx:296-315 | the forEach builds the row batch, skipping rows past the list, null rows and rows without an element |
| TravelMetricsEffect.ReadyRowFeedsPlanner | src/components/MapView.tsx:302-307 | after a ready row is merged, the planner resolves that area to metres / 1000 km and seconds / 60 minutes |
| TravelMetricsEffect.FallbackFeedsPlanner | src/components/MapView.tsx:257-265 | after a fallback batch is merged, an area with no earlier distance resolves to its great-circle distance and the speed-based ETA |
| TravelMetricsEffect.MetricsRequest.constructor | src/components/MapView.tsx:249 | a request starts not cancelled, over the captured areas and location |
| TravelMetricsEffect.MetricsRequest.Cancel | src/components/MapView.tsx:328-330 | the cleanup sets the cancelled flag |
| TravelMetricsEffect.MetricsRequest.Deliver | src/components/MapView.tsx:286-317 | once cancelled the session is unchanged; otherwise a non-OK status or missing rows merge the fallback with the status, else the row batch is merged |
| TravelMetricsEffect.MetricsRequest.Fail | src/components/MapView.tsx:320-326 | once cancelled the session is unchanged; otherwise every area gets the fallback with the error's message or REQUEST_FAILED |
| TravelMetricsEffect.StartMetricsEffect | src/components/MapView.tsx:244-255 | no request iff no location or no areas, and then all metrics are cleared; otherwise the loading batch is merged and a fresh uncancelled request is returned |
| TravelMetricsEffect.LoadingMarksEveryArea | src/components/MapView.tsx:251-255 | after the loading merge every area is `loading` and keeps any earlier distance and ETA |
| Severity.ProfileShape | src/lib/severity.ts:11-16 | four bands at levels 4, 3, 2, 1 whose percentages sum to 100 |
| Severity.SeverityProfile | src/lib/severity.ts:25-29 | one counted band per profile band, in profile order |
| Severity.CountBounds | src/lib/severity.ts:28 | each band's count is between 0 and the demand for a non-negative demand |
| Severity.HundredCasualties | src/lib/severity.ts:25-29 | demand 100 gives 18, 32, 28 and 22 |
| Severity.ComparatorsOrder | src/lib/severity.ts:39-52 | both comparators are total preorders |
| Severity.TopThree | src/lib/severity.ts:40 | `slice(0, 3)` is the prefix of length min(3, n) |
| Severity.WithDistances | src/lib/severity.ts:48-51 | each hospital paired with `dist(incident, hospital)` |
| Severity.WithoutDistances | src/lib/severity.ts:41 | each hospital with no distance field |
| Severity.RecommendForSeverity | src/lib/severity.ts:31-60 | one band per profile band; every count is 0 without a location, else round(demand * share); each band's recommendations are those of its level, nearest first with a location and by trauma level without |
| Severity.QualifyingLevel | src/lib/severity.ts:38 | a qualifying hospital is in the roster with trauma level >= the band's level |
| Severity.RecommendationsQualify | src/lib/severity.ts:37-53 | at most three recommendations, each from the roster with trauma level >= the band's level |
| Severity.SeverityRecommendationsQualify | src/lib/severity.ts:31-60 | every band of the router's answer has at most three recommendations, each from the roster and able to take the band's level |
| Severity.NearestRecommended | src/lib/severity.ts:46-53 | the ranking is a permutation of the qualifying hospitals, sorted by distance then descending trauma; the recommendations are its head, so no hospital left out is nearer |
| Severity.RankedCarriesDistance | src/lib/severity.ts:48-51 | every ranked entry carries its distance from the incident |
| Severity.HighestTraumaRecommended | src/lib/severity.ts:37-41 | without a location: a permutation sorted by descending trauma, ties in roster order, the first three without a distance |
| HospitalScope.WithDistances | src/lib/hospitals.ts:145-148 | each roster hospital with `dist(origin, hospital)`, or null without an origin |
| HospitalScope.LexTotal | src/lib/hospitals.ts:151 | the name order relates any two names |
| HospitalScope.LexTransitive | src/lib/hospitals.ts:151 | the name order is transitive |
| HospitalScope.ComparatorsOrder | src/lib/hospitals.ts:151-154 | both scope comparators are total preorders |
| HospitalScope.InScopeIsPermutation | src/lib/hospitals.ts:144-155 | every roster hospital appears once per roster occurrence |
| HospitalScope.InScopeWithoutOrigin | src/lib/hospitals.ts:150-152 | without an origin no distances, order by descending trauma then ascending name |
| HospitalScope.InScopeWithOrigin | src/lib/hospitals.ts:147-154 | with an origin each distance is `dist(origin, h)` and distances are non-decreasing |
| HospitalScope.NothingWithoutOrigin | src/lib/hospitals.ts:161 | no origin, no hospitals within the radius |
| HospitalScope.WithinRadiusExact | src/lib/hospitals.ts:157-163 | exactly the in-scope entries with a distance <= radius, as often as in scope, sorted by distance; hospitals at equal distance keep their roster order |
| ArcticHospitals.WithDistances | arctic-sim/src/lib/hospitals.ts:76-80 | each roster hospital with `dist(origin, hospital)` |
| ArcticHospitals.WithinRadiusExact | arctic-sim/src/lib/hospitals.ts:72-82 | every result at its great-circle distance and inside the radius; each roster hospital inside appears as often as in the roster; nearest first, and at equal distance in roster order |
| ArcticHospitals.ResultFromRoster | arctic-sim/src/lib/hospitals.ts:76-81 | a filtered entry is at its distance from the origin and inside the radius |
| Persist.SafeParse | src/lib/persist.ts:5-16 | a parsed list is returned as is; a missing, empty, unparsable or non-list value gives [] |
| Persist.WithoutId | src/lib/persist.ts:25 | `filter(s => s.id !== id)`: a scenario stays iff it was there with another id |
| Persist.WithoutIdAppend | src/lib/persist.ts:25 | filtering distributes over concatenation, so relative order is kept |
| Persist.WithoutAbsentId | src/lib/persist.ts:32 | filtering an absent id leaves the list unchanged |
| Persist.SaveKeepsOthers | src/lib/persist.ts:23-28 | after a save exactly one scenario has the id and it is last; the others are the earlier ones in order |
| Persist.SaveIdempotent | src/lib/persist.ts:23-28 | saving the same scenario twice stores what saving it once does |
| Persist.DeleteRemoves | src/lib/persist.ts:30-34 | no scenario with the id remains; deleting an absent id changes nothing |
| Persist.ScenarioStorage.constructor | src/lib/persist.ts:18-21 | a slot with or without storage |
| Persist.ScenarioStorage.Load | src/lib/persist.ts:18-21 | no storage or no stored list gives []; otherwise the stored list |
| Persist.ScenarioStorage.SaveScenario | src/lib/persist.ts:23-28 | without storage nothing changes; otherwise the slot holds the list with the scenario upserted last |
| Persist.ScenarioStorage.DeleteScenario | src/lib/persist.ts:30-34 | without storage nothing changes; otherwise the slot holds the list without the id |
| HospitalParser.TrimStart | parse-hospitals.py:47 | leading whitespace removed and nothing else: a suffix starting with a non-space |
| HospitalParser.TrimEnd | parse-hospitals.py:47 | trailing whitespace removed and nothing else: a prefix ending with a non-space |
| HospitalParser.Upper | parse-hospitals.py:43 | `upper()` character by character |
| HospitalParser.Lower | parse-hospitals.py:46 | `lower()` character by character |
| HospitalParser.ReplaceRemoves | parse-hospitals.py:46 | replacing a character by text without it removes every occurrence |
| HospitalParser.FirstToken | parse-hospitals.py:40 | `split(' ')[0]`: the prefix before the first space |
| HospitalParser.PyInt | parse-hospitals.py:84 | `int()` succeeds exactly on stripped text of digits with an optional sign, giving the digits' value; a negative result has a minus sign |
| HospitalParser.Clamp | parse-hospitals.py:54 | `min(max(n, 1), 5)`: n inside [1,5], else the nearer bound |
| HospitalParser.SupplementaryTrauma | parse-hospitals.py:72-78 | the supplementary level is always 2, 3 or 4 |
| HospitalParser.ProcessedCapacity | parse-hospitals.py:55 | the digits' value when `isdigit()`, else 50; never negative |
| HospitalParser.SupplementaryCapacity | parse-hospitals.py:83-88 | `int()` when it parses and is non-negative, else 50; never negative |
| HospitalParser.ConvertRow | parse-hospitals.py:39-57 | a row converts iff it has the required columns and the coordinates parse; capacity >= 0; metadata iff supplementary |
| HospitalParser.SlugClean | parse-hospitals.py:46 | an id contains no space and no dot |
| HospitalParser.HelipadIff | parse-hospitals.py:43 | the helipad flag is set iff the stripped text is "Y" or "y" |
| HospitalParser.ProcessedTraumaDigit | parse-hospitals.py:40-41 | "Level d", alone or before more words, gives the clamped digit d |
| HospitalParser.ProcessedTraumaRoman | parse-hospitals.py:40-41 | "Level II" and "Level I" are not digits and give 3 |
| HospitalParser.SupplementaryTraumaLevels | parse-hospitals.py:72-78 | LEVEL II gives 2, LEVEL IV 4, LEVEL III and LEVEL I 3 |
| HospitalParser.KeptAppend | parse-hospitals.py:38-60 | parsing two blocks of rows concatenates their records |
| HospitalParser.SkipsBadRow | parse-hospitals.py:58-60 | a row that fails is skipped, and the rows after it are still parsed |
| HospitalParser.KeptExactly | parse-hospitals.py:38-60 | every record comes from a row, and every converting row's record is kept |
| HospitalParser.ParseCsv | parse-hospitals.py:64-114 | the loop returns exactly the records of the converting rows, in row order |
| HospitalParser.FirstIndices | parse-hospitals.py:194 | the first-occurrence positions are in range and increasing |
| HospitalParser.FirstIndicesExact | parse-hospitals.py:194 | a position is listed iff no earlier entry has its id |
| HospitalParser.FirstById | parse-hospitals.py:193-196 | the deduplicated roster is the entries at the first-occurrence positions, in order |
| HospitalParser.FirstByIdDistinct | parse-hospitals.py:193-196 | no id appears twice in the base roster |
| HospitalParser.FirstByIdFirsts | parse-hospitals.py:193-196 | each base entry is the first with its id, and every first entry is kept |
| HospitalParser.FirstByIdCovers | parse-hospitals.py:193-196 | every input id appears in the base roster |
| HospitalParser.GenerateStandard | parse-hospitals.py:116-130 | one base record per input record, with exactly the seven base fields |
| HospitalParser.NonEmpty | parse-hospitals.py:201 | a field is copied iff it is non-empty, with its text |
| HospitalParser.Extend | parse-hospitals.py:199-202 | an extended entry keeps the base fields; a record without metadata adds no field |
| HospitalParser.Bases | parse-hospitals.py:183-191 | the base fields of each record, in order |
| HospitalParser.ExtendedStep | parse-hospitals.py:193-196 | one loop step: the base roster grows by the entry iff its id was not seen, and the seen set gains it |
| HospitalParser.GenerateExtended | parse-hospitals.py:173-204 | the base roster is the first record of each id in input order; one extended entry per input record |
| HospitalParser.ExtendedDefaults | parse-hospitals.py:101-107 | a supplementary row without STATE, STATUS or TELEPHONE columns gets state AK, status OPEN and no phone |
| HospitalParser.ProcessedNoMetadata | parse-hospitals.py:45-56 | a processed record's extended entry has no optional field |

## Left out

- Great-circle arithmetic (src/lib/geo.ts) is not modelled. Distance is the
  parameter `dist`, and only its non-negativity is used.
- Floating point is modelled as exact rationals, so the model has no rounding
  artefacts. The severity shares are the exact percentages 18, 32, 28 and 22.
  `Math.round` rounds halves up, as it does on the exact value.
- `localeCompare` is `HospitalScope.LexLe`, a plain order on character codes,
  not the locale's collation.
- Python's `strip`, `upper`, `lower` and `isdigit` are modelled on ASCII
  characters only.
- `HospitalParser.PyInt` does not accept the underscores and non-ASCII digits
  that `int()` accepts.
- `float()` coordinate parsing is a parameter.
- A short CSV row whose missing cells `csv.DictReader` fills with `None` is not
  modelled: every cell present in a row is text.
- Reading and writing files, argparse and the TypeScript template text of the
  generator are left out. Only the lists the templates embed are modelled.
- `localStorage` and the JSON text are left out. The slot holds the parsed
  value, and `JSON.stringify` then `JSON.parse` is taken to give the list
  back.
- Random ids (`generateId`), dates, toasts and all UI state are left out.
- Allocation.PlanScoresBounded: the lower bounds hold for metric records
  whose distances are non-negative. `setTravelMetrics` stores any number it
  is given. The map view only passes it metres / 1000 or the non-negative
  great-circle fallback.
- Store.PlanningSession.AddStaging: takes the new area's id, name, location
  and availability as resolved arguments. It does not model the defaults the
  action applies before that: the generated id, the name `Staging n`, the
  location `location ?? DEFAULT_ANCHORAGE` and the availability
  `initial?.available ?? 0` before the clamp to 0.
- These actions of src/app/store.ts are not modelled, because they only
  replace state with constants or UI data, or call the persistence functions
  modelled in `Persist`: `reset`, `refreshScenarios`, `saveScenario`,
  `deleteScenario`, `loadScenario`, `createDemoScenario`, `setToast`,
  `setTravelMetric` and `setRoutingGuidance`.
- In the arctic store, `addStaging`, `removeStaging`, `setIncidentLocation`
  (selected-feature UI state) and the map-layer actions are not modelled.
- The routing services (the Google Maps loader and the Distance Matrix
  service) are abstract. Their answers are the parameters of
  `MetricsRequest.Deliver` and `MetricsRequest.Fail`, and a rejection's
  message is an `Option<string>`.
- The `cancelled` check inside `.then` (src/components/MapView.tsx:269-271) is
  folded into the check in the callback. Once cancelled, the flag never goes
  back, so the outcome is the same.
- src/lib/hospitalext.ts:500-519 is the same code as src/lib/hospitals.ts over
  a longer roster, so `HospitalScope` models both. The roster is a parameter.
- HospitalParser.ProcessedTraumaRoman: the processed layout reads Roman
  levels such as "Level II" as 3, because `isdigit` fails on them. The model
  keeps this behaviour.
- ArcticStore.ArcticSession.LoadScenario: a saved incident always has a
  demand, so the `?? 0` default for a missing demand is not modelled.

/** The travel-metrics effect of the map view (src/components/MapView.tsx:243-331):
    whenever the incident location or the staging areas change, every area
    is marked loading, a road-distance matrix is requested, and its answer
    (or the failure to load the maps service) is merged into the planning
    session's metrics, unless the effect was cleaned up in between. The
    routing service is abstract: its answers are parameters. */
module TravelMetricsEffect {
  import opened Common
  import opened Geo
  import opened Domain
  import Store
  import Allocation

  /** One element of a matrix row: its status text and, when present, the
      road distance in metres and the duration in seconds. */
  datatype Element = Element(status: string, distanceMeters: Option<real>, durationSeconds: Option<real>)

  /** A matrix row; its `elements` list may be missing. */
  datatype MatrixRow = MatrixRow(elements: Option<seq<Element>>)

  /** The service's answer: a status and, when present, the rows, one per
      origin; a row may be null. */
  datatype MatrixResponse = MatrixResponse(status: string, rows: Option<seq<Option<MatrixRow>>>)

  const LoadingMetrics := TravelMetrics(Loading, None, None, None, None)

  /** The ids of the staging areas. */
  function AreaIds(areas: seq<StagingArea>): set<string> {
    set a | a in areas :: a.id
  }

  /** No later area has the id of area i: its entry is the one a map built
      by assignment in list order keeps. */
  predicate LastWithId(areas: seq<StagingArea>, i: int)
    requires 0 <= i < |areas|
  {
    forall j :: i < j < |areas| ==> areas[j].id != areas[i].id
  }

  // ---------------------------------------------------------------------
  // The loading and fallback batches

  /** Every area marked `{ status: 'loading' }`. */
  function LoadingState(areas: seq<StagingArea>): map<string, TravelMetrics> {
    map id | id in AreaIds(areas) :: LoadingMetrics
  }

  /** The `reduce` that builds the loading batch by assignment. */
  method BuildLoading(areas: seq<StagingArea>) returns (batch: map<string, TravelMetrics>)
    ensures batch == LoadingState(areas)
  {
    batch := map[];
    for i := 0 to |areas|
      invariant batch == LoadingState(areas[..i])
    {
      assert AreaIds(areas[..i + 1]) == AreaIds(areas[..i]) + {areas[i].id} by {
        assert areas[..i + 1] == areas[..i] + [areas[i]];
      }
      batch := batch[areas[i].id := LoadingMetrics];
    }
    assert areas[..|areas|] == areas;
  }

  /** The error record of one area: its great-circle distance from the
      incident as the fallback, and the status text as the message. */
  function FallbackMetrics(area: StagingArea, origin: Coordinate, message: string, dist: DistanceFn): TravelMetrics {
    TravelMetrics(Failed, None, None, Some(dist(area.location, origin)), Some(message))
  }

  /** `fallbackFor(status)`: every area as an error with its fallback; of
      two areas with one id the later one's entry stays. */
  function FallbackState(areas: seq<StagingArea>, origin: Coordinate, message: string, dist: DistanceFn)
    : (r: map<string, TravelMetrics>)
    ensures forall id :: id in r ==> r[id].status == Failed && r[id].errorMessage == Some(message)
  {
    if areas == [] then map[]
    else
      var n := |areas| - 1;
      FallbackState(areas[..n], origin, message, dist)[areas[n].id := FallbackMetrics(areas[n], origin, message, dist)]
  }

  /** The fallback batch has an entry for every area and no other. */
  lemma {:induction false} FallbackKeys(areas: seq<StagingArea>, origin: Coordinate, message: string, dist: DistanceFn)
    ensures FallbackState(areas, origin, message, dist).Keys == AreaIds(areas)
  {
    if areas != [] {
      var n := |areas| - 1;
      FallbackKeys(areas[..n], origin, message, dist);
      assert areas == areas[..n] + [areas[n]];
      assert AreaIds(areas) == AreaIds(areas[..n]) + {areas[n].id};
    }
  }

  /** The entry of an id is the fallback of the last area with it. */
  lemma {:induction false} FallbackValues(areas: seq<StagingArea>, origin: Coordinate, message: string, dist: DistanceFn,
                                         i: int)
    requires 0 <= i < |areas| && LastWithId(areas, i)
    ensures var r := FallbackState(areas, origin, message, dist);
      areas[i].id in r && r[areas[i].id] == FallbackMetrics(areas[i], origin, message, dist)
  {
    var n := |areas| - 1;
    if i < n {
      var front := areas[..n];
      assert front[i] == areas[i];
      forall j | i < j < n
        ensures front[j].id != front[i].id
      {
        assert front[j] == areas[j];
      }
      FallbackValues(front, origin, message, dist, i);
    }
  }

  /** The `reduce` that builds the fallback batch by assignment. */
  method BuildFallback(areas: seq<StagingArea>, origin: Coordinate, message: string, dist: DistanceFn)
    returns (batch: map<string, TravelMetrics>)
    ensures batch == FallbackState(areas, origin, message, dist)
  {
    batch := map[];
    for i := 0 to |areas|
      invariant batch == FallbackState(areas[..i], origin, message, dist)
    {
      assert areas[..i + 1][..i] == areas[..i];
      batch := batch[areas[i].id := FallbackMetrics(areas[i], origin, message, dist)];
    }
    assert areas[..|areas|] == areas;
  }

  // ---------------------------------------------------------------------
  // The row batch

  /** `row.elements?.[0]` of a row that is not null. */
  function FirstElement(row: Option<MatrixRow>): Option<Element> {
    if row.Some? && row.value.elements.Some? && |row.value.elements.value| > 0
    then Some(row.value.elements.value[0])
    else None
  }

  /** An element with status OK and both a distance and a duration is ready,
      in kilometres and minutes; any other element is an error with the
      area's fallback and the element's status as the message. */
  function ElementMetrics(area: StagingArea, e: Element, origin: Coordinate, dist: DistanceFn): (r: TravelMetrics)
    ensures r.status == Ready <==> e.status == "OK" && e.distanceMeters.Some? && e.durationSeconds.Some?
    ensures r.status == Ready ==>
      r == TravelMetrics(Ready, Some(e.distanceMeters.value / 1000.0), Some(e.durationSeconds.value / 60.0), None, None)
    ensures r.status != Ready ==> r == FallbackMetrics(area, origin, e.status, dist)
  {
    if e.status == "OK" && e.distanceMeters.Some? && e.durationSeconds.Some? then
      TravelMetrics(Ready, Some(e.distanceMeters.value / 1000.0), Some(e.durationSeconds.value / 60.0), None, None)
    else
      FallbackMetrics(area, origin, e.status, dist)
  }

  /** Row i has an area to update and an element to update it with. */
  predicate Updates(areas: seq<StagingArea>, rows: seq<Option<MatrixRow>>, i: int) {
    0 <= i < |rows| && i < |areas| && FirstElement(rows[i]).Some?
  }

  /** The `forEach` over the rows: row i sets the entry of `stagingAreas[i]`. */
  function RowUpdates(areas: seq<StagingArea>, rows: seq<Option<MatrixRow>>, origin: Coordinate, dist: DistanceFn)
    : map<string, TravelMetrics>
  {
    if rows == [] then map[]
    else
      var n := |rows| - 1;
      var front := RowUpdates(areas, rows[..n], origin, dist);
      if Updates(areas, rows, n) then front[areas[n].id := ElementMetrics(areas[n], FirstElement(rows[n]).value, origin, dist)]
      else front
  }

  /** Row i updates its area and no later row updates an area with the
      same id: its entry is the one the row batch keeps. */
  ghost predicate LastUpdate(areas: seq<StagingArea>, rows: seq<Option<MatrixRow>>, i: int) {
    Updates(areas, rows, i) && forall k :: i < k < |rows| && Updates(areas, rows, k) ==> areas[k].id != areas[i].id
  }

  lemma UpdatesPrefix(areas: seq<StagingArea>, rows: seq<Option<MatrixRow>>, n: int, i: int)
    requires 0 <= i < n <= |rows|
    ensures Updates(areas, rows[..n], i) <==> Updates(areas, rows, i)
  {
    assert rows[..n][i] == rows[i];
  }

  /** The row batch holds an entry for the area of each row that has an
      element and no other: rows beyond the areas, null rows and rows
      without an element leave their area out. */
  lemma {:induction false} RowUpdatesKeys(areas: seq<StagingArea>, rows: seq<Option<MatrixRow>>, origin: Coordinate,
                                         dist: DistanceFn, id: string)
    ensures id in RowUpdates(areas, rows, origin, dist) <==> exists i :: Updates(areas, rows, i) && areas[i].id == id
  {
    if rows != [] {
      var n := |rows| - 1;
      var front := rows[..n];
      RowUpdatesKeys(areas, front, origin, dist, id);
      if id in RowUpdates(areas, rows, origin, dist) {
        if !(Updates(areas, rows, n) && areas[n].id == id) {
          var i :| Updates(areas, front, i) && areas[i].id == id;
          UpdatesPrefix(areas, rows, n, i);
        }
      }
      if exists i :: Updates(areas, rows, i) && areas[i].id == id {
        var i :| Updates(areas, rows, i) && areas[i].id == id;
        if i < n {
          UpdatesPrefix(areas, rows, n, i);
        }
      }
    }
  }

  /** The entry of a row's area is that row's metric when no later row
      updates an area with the same id. */
  lemma {:induction false} RowUpdatesValues(areas: seq<StagingArea>, rows: seq<Option<MatrixRow>>, origin: Coordinate,
                                           dist: DistanceFn, i: int)
    requires LastUpdate(areas, rows, i)
    ensures var r := RowUpdates(areas, rows, origin, dist);
      areas[i].id in r && r[areas[i].id] == ElementMetrics(areas[i], FirstElement(rows[i]).value, origin, dist)
  {
    var n := |rows| - 1;
    var front := rows[..n];
    if i < n {
      UpdatesPrefix(areas, rows, n, i);
      forall k | i < k && Updates(areas, front, k)
        ensures areas[k].id != areas[i].id
      {
        UpdatesPrefix(areas, rows, n, k);
      }
      RowUpdatesValues(areas, front, origin, dist, i);
    }
  }

  /** The row loop: each row with an index inside the areas and an element
      sets that area's entry; the rest are skipped. */
  method BuildRowUpdates(areas: seq<StagingArea>, rows: seq<Option<MatrixRow>>, origin: Coordinate, dist: DistanceFn)
    returns (updates: map<string, TravelMetrics>)
    ensures updates == RowUpdates(areas, rows, origin, dist)
  {
    updates := map[];
    for index := 0 to |rows|
      invariant updates == RowUpdates(areas, rows[..index], origin, dist)
    {
      ghost var seen := rows[..index + 1];
      assert seen[..index] == rows[..index];
      assert seen[index] == rows[index];
      assert Updates(areas, seen, index) == Updates(areas, rows, index);
      if index >= |areas| || rows[index].None? {
        continue;
      }
      var element := FirstElement(rows[index]);
      if element.None? {
        continue;
      }
      updates := updates[areas[index].id := ElementMetrics(areas[index], element.value, origin, dist)];
    }
    assert rows[..|rows|] == rows;
  }

  /** The batch a response leads to: the fallback batch with the status as
      message when the status is not OK or the rows are missing, else the
      row batch. */
  function ResponseBatch(areas: seq<StagingArea>, response: MatrixResponse, origin: Coordinate, dist: DistanceFn)
    : map<string, TravelMetrics>
  {
    if response.status != "OK" || response.rows.None? then FallbackState(areas, origin, response.status, dist)
    else RowUpdates(areas, response.rows.value, origin, dist)
  }

  /** The message of a failed load: the error's own message, or
      "REQUEST_FAILED" for a rejection that is not an Error. */
  function FailureMessage(errorMessage: Option<string>): string {
    errorMessage.GetOr("REQUEST_FAILED")
  }

  // ---------------------------------------------------------------------
  // Consequences for the planner

  /** After a ready row is merged, the planner resolves its area to the
      road distance in kilometres and the duration in minutes. */
  lemma ReadyRowFeedsPlanner(current: map<string, TravelMetrics>, areas: seq<StagingArea>,
                             rows: seq<Option<MatrixRow>>, i: int, origin: Coordinate, speedKph: real, dist: DistanceFn)
    requires speedKph > 0.0
    requires LastUpdate(areas, rows, i)
    requires var e := FirstElement(rows[i]).value;
      e.status == "OK" && e.distanceMeters.Some? && e.durationSeconds.Some?
    ensures var e := FirstElement(rows[i]).value;
      var c := Allocation.Resolve(areas[i], Store.MergeAll(current, RowUpdates(areas, rows, origin, dist)), origin, speedKph, dist);
      c.distanceKm == e.distanceMeters.value / 1000.0 && c.etaMinutes == e.durationSeconds.value / 60.0
  {
    RowUpdatesValues(areas, rows, origin, dist, i);
  }

  /** After the fallback batch is merged, an area that had no road distance
      is resolved to its great-circle distance, with the ETA at the given
      speed. */
  lemma FallbackFeedsPlanner(current: map<string, TravelMetrics>, areas: seq<StagingArea>, i: int, origin: Coordinate,
                             message: string, speedKph: real, dist: DistanceFn)
    requires speedKph > 0.0
    requires 0 <= i < |areas| && LastWithId(areas, i)
    requires areas[i].id !in current || current[areas[i].id].distanceKm.None?
    requires areas[i].id !in current || current[areas[i].id].etaMinutes.None?
    ensures var c := Allocation.Resolve(areas[i], Store.MergeAll(current, FallbackState(areas, origin, message, dist)),
                                        origin, speedKph, dist);
      c.distanceKm == dist(areas[i].location, origin) && c.etaMinutes == c.distanceKm / speedKph * 60.0
  {
    FallbackValues(areas, origin, message, dist, i);
  }

  // ---------------------------------------------------------------------
  // The effect as a state machine

  /** One run of the effect: the areas and location it captured, the session
      it writes to, and the flag its cleanup sets. */
  class MetricsRequest {
    const session: Store.PlanningSession
    const areas: seq<StagingArea>
    const origin: Coordinate
    var cancelled: bool

    constructor (session: Store.PlanningSession, areas: seq<StagingArea>, origin: Coordinate)
      ensures this.session == session && this.areas == areas && this.origin == origin
      ensures !cancelled
    {
      this.session := session;
      this.areas := areas;
      this.origin := origin;
      cancelled := false;
    }

    /** The cleanup. */
    method Cancel()
      modifies this
      ensures cancelled
    {
      cancelled := true;
    }

    /** The matrix callback: nothing once cancelled; otherwise the batch the
        response leads to is merged into the session's metrics. */
    method Deliver(response: MatrixResponse, dist: DistanceFn)
      requires session.Valid()
      modifies session
      ensures session.Valid()
      ensures cancelled ==> unchanged(session)
      ensures !cancelled ==>
        session.travelMetrics == Store.MergeAll(old(session.travelMetrics), ResponseBatch(areas, response, origin, dist))
      ensures session.incident == old(session.incident) && session.stagingAreas == old(session.stagingAreas)
      ensures session.travelSpeedKph == old(session.travelSpeedKph)
      ensures session.routingGuidance == old(session.routingGuidance)
    {
      if cancelled {
        return;
      }
      if response.status != "OK" || response.rows.None? {
        var batch := BuildFallback(areas, origin, response.status, dist);
        session.SetTravelMetrics(batch);
        return;
      }
      var updates := BuildRowUpdates(areas, response.rows.value, origin, dist);
      session.SetTravelMetrics(updates);
    }

    /** The rejection handler of the maps loader: nothing once cancelled;
        otherwise every area gets its fallback, with the failure's message. */
    method Fail(errorMessage: Option<string>, dist: DistanceFn)
      requires session.Valid()
      modifies session
      ensures session.Valid()
      ensures cancelled ==> unchanged(session)
      ensures !cancelled ==>
        session.travelMetrics ==
          Store.MergeAll(old(session.travelMetrics), FallbackState(areas, origin, FailureMessage(errorMessage), dist))
      ensures session.incident == old(session.incident) && session.stagingAreas == old(session.stagingAreas)
      ensures session.travelSpeedKph == old(session.travelSpeedKph)
      ensures session.routingGuidance == old(session.routingGuidance)
    {
      if cancelled {
        return;
      }
      var batch := BuildFallback(areas, origin, FailureMessage(errorMessage), dist);
      session.SetTravelMetrics(batch);
    }
  }

  /** The effect body: without a location or without areas it clears every
      metric and starts nothing; otherwise it marks every area loading and
      starts a request over the current areas and location. */
  method StartMetricsEffect(session: Store.PlanningSession) returns (request: Option<MetricsRequest>)
    requires session.Valid()
    modifies session
    ensures session.Valid()
    ensures request.None? <==> old(session.incident.location).None? || |old(session.stagingAreas)| == 0
    ensures request.None? ==> session.travelMetrics == map[]
    ensures request.Some? ==>
      && fresh(request.value) && !request.value.cancelled && request.value.session == session
      && request.value.areas == session.stagingAreas && Some(request.value.origin) == session.incident.location
      && session.travelMetrics == Store.MergeAll(old(session.travelMetrics), LoadingState(session.stagingAreas))
    ensures session.incident == old(session.incident) && session.stagingAreas == old(session.stagingAreas)
    ensures session.travelSpeedKph == old(session.travelSpeedKph)
    ensures session.routingGuidance == old(session.routingGuidance)
  {
    if session.incident.location.None? || |session.stagingAreas| == 0 {
      session.ClearTravelMetrics(None);
      return None;
    }
    var loading := BuildLoading(session.stagingAreas);
    session.SetTravelMetrics(loading);
    var r := new MetricsRequest(session, session.stagingAreas, session.incident.location.value);
    request := Some(r);
  }

  /** Once the loading batch is merged every area's metric is `loading`,
      and a distance and ETA it had before are kept. */
  lemma LoadingMarksEveryArea(current: map<string, TravelMetrics>, areas: seq<StagingArea>)
    ensures var merged := Store.MergeAll(current, LoadingState(areas));
      forall a :: a in areas ==>
        && a.id in merged && merged[a.id].status == Loading
        && merged[a.id].distanceKm == Store.MetricOrIdle(current, a.id).distanceKm
        && merged[a.id].etaMinutes == Store.MetricOrIdle(current, a.id).etaMinutes
  {
  }
}

/** The planning entities shared by the store, the planner and the hospital
    router (src/types/domain.ts and the metric record of src/app/store.ts). */
module Domain {
  import opened Common
  import opened Geo

  datatype RiskLevel = Low | Medium | High

  /** The demand side: where help is needed and how much. */
  datatype Incident = Incident(location: Option<Coordinate>, demand: int)

  /** A supply point; `id` is opaque. */
  datatype StagingArea = StagingArea(id: string, name: string, location: Coordinate, available: int)

  /** The literal union `1 | 2 | 3 | 4 | 5` of the hospital record. */
  type TraumaLevel = n: int | 1 <= n <= 5 witness 1

  datatype Hospital = Hospital(
    id: string,
    name: string,
    city: string,
    location: Coordinate,
    airborneCapable: bool,
    traumaLevel: TraumaLevel,
    capacity: int)

  datatype MetricStatus = Idle | Loading | Ready | Failed

  /** The travel estimate of one staging area. Every field but `status` is
      optional: `None` is a field that the record does not carry. */
  datatype TravelMetrics = TravelMetrics(
    status: MetricStatus,
    distanceKm: Option<real>,
    etaMinutes: Option<real>,
    fallbackDistanceKm: Option<real>,
    errorMessage: Option<string>)

  /** `{ status: 'idle' }`. */
  const IdleMetrics := TravelMetrics(Idle, None, None, None, None)

  /** What one staging area sends. */
  datatype AllocationDecision = AllocationDecision(
    stagingId: string,
    stagingName: string,
    distanceKm: real,
    etaMinutes: real,
    quantity: int)

  datatype AllocationResult = AllocationResult(
    demand: int,
    totalSent: int,
    unmet: int,
    averageEtaMinutes: Option<real>,
    totalDistanceKm: real,
    surgeDemand: int,
    criticalCoveragePercent: int,
    criticalGap: int,
    pressureIndex: int,
    riskLevel: RiskLevel,
    demandRiskLevel: RiskLevel,
    decisions: seq<AllocationDecision>)
}

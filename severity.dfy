/** The casualty-severity profile and the hospital recommendations per
    severity band (src/lib/severity.ts). The hospital roster is a parameter. */
module Severity {
  import opened Common
  import opened Geo
  import opened Domain
  import Sorting

  /** One severity band: the least trauma level that can take it and its
      share of the demand, in percent (exact, where the source has 0.18). */
  datatype SeverityBucket = SeverityBucket(level: int, caption: string, percent: int)

  const DefaultProfile: seq<SeverityBucket> := [
    SeverityBucket(4, "Critical trauma", 18),
    SeverityBucket(3, "Severe injuries", 32),
    SeverityBucket(2, "Moderate injuries", 28),
    SeverityBucket(1, "Minor injuries", 22)
  ]

  /** A band with its expected number of casualties. */
  datatype CountedBucket = CountedBucket(bucket: SeverityBucket, count: int)

  /** A recommended hospital, with its distance when an incident location
      is known. */
  datatype Recommendation = Recommendation(hospital: Hospital, distanceKm: Option<real>)

  datatype SeverityRecommendation = SeverityRecommendation(
    bucket: SeverityBucket,
    count: int,
    recommendations: seq<Recommendation>)

  function PercentSum(profile: seq<SeverityBucket>): int {
    if profile == [] then 0 else profile[0].percent + PercentSum(profile[1..])
  }

  /** The profile has four bands, most severe first, whose shares add up to
      the whole demand. */
  lemma ProfileShape()
    ensures |DefaultProfile| == 4
    ensures forall i :: 0 <= i < 4 ==> DefaultProfile[i].level == 4 - i
    ensures PercentSum(DefaultProfile) == 100
  {
  }

  /** `Math.round(totalDemand * proportion)`. */
  function BucketCount(demand: int, bucket: SeverityBucket): int {
    Round((demand * bucket.percent) as real / 100.0)
  }

  function SeverityProfile(demand: int): (r: seq<CountedBucket>)
    ensures |r| == |DefaultProfile|
    ensures forall i :: 0 <= i < |r| ==> r[i].bucket == DefaultProfile[i]
  {
    seq(|DefaultProfile|, i requires 0 <= i < |DefaultProfile| =>
      CountedBucket(DefaultProfile[i], BucketCount(demand, DefaultProfile[i])))
  }

  /** A band's count never exceeds the demand, and is never negative for a
      non-negative demand. */
  lemma CountBounds(demand: int, i: int)
    requires 0 <= i < |DefaultProfile|
    ensures var c := SeverityProfile(demand)[i].count;
      && (demand >= 0 ==> 0 <= c <= demand)
      && (demand <= 0 ==> c <= 0)
  {
    var p := DefaultProfile[i].percent;
    var x := (demand * p) as real / 100.0;
    assert 0 < p < 100;
    if demand >= 0 {
      assert demand * p <= demand * 100;
      RoundBounds(x, demand);
    } else {
      assert demand * p <= 0;
      RoundBounds(x, 0);
    }
  }

  /** For a demand of 100 the bands expect 18, 32, 28 and 22 casualties. */
  lemma HundredCasualties()
    ensures var r := SeverityProfile(100);
      r[0].count == 18 && r[1].count == 32 && r[2].count == 28 && r[3].count == 22
  {
    var r := SeverityProfile(100);
    assert r[0].count == Round(18.0);
    assert r[1].count == Round(32.0);
    assert r[2].count == Round(28.0);
    assert r[3].count == Round(22.0);
  }

  /** The hospitals whose trauma level can take the band. */
  function Qualifying(roster: seq<Hospital>, level: int): seq<Hospital> {
    Sorting.Filter(roster, (h: Hospital) => h.traumaLevel >= level)
  }

  /** The comparator `b.traumaLevel - a.traumaLevel`. */
  function ByTraumaDesc(a: Hospital, b: Hospital): bool {
    a.traumaLevel >= b.traumaLevel
  }

  /** The comparator `a.distanceKm - b.distanceKm || b.traumaLevel - a.traumaLevel`
      on entries that all carry a distance. */
  function ByDistanceThenTrauma(a: Recommendation, b: Recommendation): bool {
    var da, db := a.distanceKm.GetOr(0.0), b.distanceKm.GetOr(0.0);
    da < db || (da == db && a.hospital.traumaLevel >= b.hospital.traumaLevel)
  }

  lemma ComparatorsOrder()
    ensures Sorting.TotalPreorder(ByTraumaDesc)
    ensures Sorting.TotalPreorder(ByDistanceThenTrauma)
  {
  }

  /** `.slice(0, 3)`. */
  function TopThree<T>(s: seq<T>): (r: seq<T>)
    ensures |r| == Min(3, |s|) && r == s[..|r|]
  {
    if |s| <= 3 then s else s[..3]
  }

  function WithDistances(hospitals: seq<Hospital>, origin: Coordinate, dist: DistanceFn): (r: seq<Recommendation>)
    ensures |r| == |hospitals|
    ensures forall i :: 0 <= i < |r| ==>
      r[i].hospital == hospitals[i] && r[i].distanceKm == Some(dist(origin, hospitals[i].location))
  {
    if hospitals == [] then []
    else [Recommendation(hospitals[0], Some(dist(origin, hospitals[0].location)))]
         + WithDistances(hospitals[1..], origin, dist)
  }

  function WithoutDistances(hospitals: seq<Hospital>): (r: seq<Recommendation>)
    ensures |r| == |hospitals|
    ensures forall i :: 0 <= i < |r| ==> r[i] == Recommendation(hospitals[i], None)
  {
    if hospitals == [] then [] else [Recommendation(hospitals[0], None)] + WithoutDistances(hospitals[1..])
  }

  /** The qualifying hospitals by distance, nearer first, then by trauma level. */
  function RankedNearby(roster: seq<Hospital>, level: int, origin: Coordinate, dist: DistanceFn): seq<Recommendation> {
    Sorting.SortBy(WithDistances(Qualifying(roster, level), origin, dist), ByDistanceThenTrauma)
  }

  /** The qualifying hospitals by trauma level, highest first. */
  function RankedByTrauma(roster: seq<Hospital>, level: int): seq<Hospital> {
    Sorting.SortBy(Qualifying(roster, level), ByTraumaDesc)
  }

  /** The three recommendations of one band, with or without a location. */
  function Recommend(roster: seq<Hospital>, level: int, origin: Option<Coordinate>, dist: DistanceFn)
    : seq<Recommendation>
  {
    if origin.None? then WithoutDistances(TopThree(RankedByTrauma(roster, level)))
    else TopThree(RankedNearby(roster, level, origin.value, dist))
  }

  /** Without an incident location every band expects no casualties; with
      one, the bands carry the profile's counts for the demand. */
  function RecommendForSeverity(roster: seq<Hospital>, incident: Option<Incident>, dist: DistanceFn)
    : (r: seq<SeverityRecommendation>)
    ensures |r| == |DefaultProfile|
    ensures forall i :: 0 <= i < |r| ==> r[i].bucket == DefaultProfile[i]
    ensures incident.None? || incident.value.location.None? ==> forall i :: 0 <= i < |r| ==> r[i].count == 0
    ensures incident.Some? && incident.value.location.Some? ==>
      forall i :: 0 <= i < |r| ==> r[i].count == SeverityProfile(incident.value.demand)[i].count
    ensures forall i :: 0 <= i < |r| ==>
      r[i].recommendations == Recommend(roster, DefaultProfile[i].level,
                                        if incident.Some? then incident.value.location else None, dist)
  {
    var origin := if incident.Some? then incident.value.location else None;
    var counted :=
      if origin.None? then seq(|DefaultProfile|, i requires 0 <= i < |DefaultProfile| => CountedBucket(DefaultProfile[i], 0))
      else SeverityProfile(incident.value.demand);
    seq(|counted|, i requires 0 <= i < |counted| =>
      SeverityRecommendation(counted[i].bucket, counted[i].count,
                             Recommend(roster, counted[i].bucket.level, origin, dist)))
  }

  // ---------------------------------------------------------------------
  // Properties of one band's recommendations

  lemma QualifyingLevel(roster: seq<Hospital>, level: int, h: Hospital)
    requires h in Qualifying(roster, level)
    ensures h.traumaLevel >= level && h in roster
  {
    Sorting.FilterCount(roster, (h: Hospital) => h.traumaLevel >= level, h);
  }

  /** A band recommends at most three hospitals, each of them in the roster
      and able to take the band. */
  lemma RecommendationsQualify(roster: seq<Hospital>, level: int, origin: Option<Coordinate>, dist: DistanceFn)
    ensures var recs := Recommend(roster, level, origin, dist);
      && |recs| <= 3
      && forall r :: r in recs ==> r.hospital.traumaLevel >= level && r.hospital in roster
  {
    var q := Qualifying(roster, level);
    var recs := Recommend(roster, level, origin, dist);
    if origin.None? {
      var top := TopThree(RankedByTrauma(roster, level));
      forall r | r in recs
        ensures r.hospital.traumaLevel >= level && r.hospital in roster
      {
        var i :| 0 <= i < |recs| && recs[i] == r;
        assert top[i] in RankedByTrauma(roster, level);
        assert top[i] in multiset(q);
        QualifyingLevel(roster, level, top[i]);
      }
    } else {
      var nearby := WithDistances(q, origin.value, dist);
      forall r | r in recs
        ensures r.hospital.traumaLevel >= level && r.hospital in roster
      {
        assert r in RankedNearby(roster, level, origin.value, dist);
        assert r in multiset(nearby);
        var i :| 0 <= i < |nearby| && nearby[i] == r;
        QualifyingLevel(roster, level, q[i]);
      }
    }
  }

  /** Every band of the router's answer recommends at most three hospitals,
      each from the roster and able to take the band's level. */
  lemma SeverityRecommendationsQualify(roster: seq<Hospital>, incident: Option<Incident>, dist: DistanceFn)
    ensures var r := RecommendForSeverity(roster, incident, dist);
      forall i :: 0 <= i < |r| ==>
        && |r[i].recommendations| <= 3
        && forall x :: x in r[i].recommendations ==>
             x.hospital in roster && x.hospital.traumaLevel >= r[i].bucket.level
  {
    var r := RecommendForSeverity(roster, incident, dist);
    var origin := if incident.Some? then incident.value.location else None;
    forall i | 0 <= i < |r|
      ensures |r[i].recommendations| <= 3
      ensures forall x :: x in r[i].recommendations ==>
        x.hospital in roster && x.hospital.traumaLevel >= r[i].bucket.level
    {
      RecommendationsQualify(roster, DefaultProfile[i].level, origin, dist);
    }
  }

  /** With a location: the recommendations are the head of the ranking of
      all qualifying hospitals, which is a permutation of them ordered by
      distance and then by descending trauma level, so no hospital left out
      is nearer than one recommended. */
  lemma NearestRecommended(roster: seq<Hospital>, level: int, origin: Coordinate, dist: DistanceFn)
    ensures var ranked := RankedNearby(roster, level, origin, dist);
      var recs := Recommend(roster, level, Some(origin), dist);
      && multiset(ranked) == multiset(WithDistances(Qualifying(roster, level), origin, dist))
      && Sorting.Sorted(ranked, ByDistanceThenTrauma)
      && (forall x :: x in ranked ==> x.distanceKm == Some(dist(origin, x.hospital.location)))
      && recs == ranked[..|recs|]
      && forall i, j :: 0 <= i < |recs| <= j < |ranked| ==>
           recs[i].distanceKm.GetOr(0.0) <= ranked[j].distanceKm.GetOr(0.0)
  {
    ComparatorsOrder();
    Sorting.SortSorted(WithDistances(Qualifying(roster, level), origin, dist), ByDistanceThenTrauma);
    forall x | x in RankedNearby(roster, level, origin, dist)
      ensures x.distanceKm == Some(dist(origin, x.hospital.location))
    {
      RankedCarriesDistance(roster, level, origin, dist, x);
    }
  }

  lemma RankedCarriesDistance(roster: seq<Hospital>, level: int, origin: Coordinate, dist: DistanceFn, x: Recommendation)
    requires x in RankedNearby(roster, level, origin, dist)
    ensures x.distanceKm == Some(dist(origin, x.hospital.location))
  {
    assert x in multiset(WithDistances(Qualifying(roster, level), origin, dist));
  }

  /** Without a location: the recommendations are the head of the qualifying
      hospitals ordered by descending trauma level, hospitals of one level
      keeping their roster order, and they carry no distance. */
  lemma HighestTraumaRecommended(roster: seq<Hospital>, level: int, dist: DistanceFn, y: Hospital)
    ensures var ranked := RankedByTrauma(roster, level);
      var recs := Recommend(roster, level, None, dist);
      && multiset(ranked) == multiset(Qualifying(roster, level))
      && Sorting.Sorted(ranked, ByTraumaDesc)
      && Sorting.Ties(ranked, ByTraumaDesc, y) == Sorting.Ties(Qualifying(roster, level), ByTraumaDesc, y)
      && |recs| == Min(3, |ranked|)
      && forall i :: 0 <= i < |recs| ==> recs[i] == Recommendation(ranked[i], None)
  {
    ComparatorsOrder();
    Sorting.SortSorted(Qualifying(roster, level), ByTraumaDesc);
    Sorting.SortStable(Qualifying(roster, level), ByTraumaDesc, y);
  }
}

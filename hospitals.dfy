/** Hospital scoping around an incident (src/lib/hospitals.ts; the code of
    src/lib/hospitalext.ts:500-519 is the same over a longer roster). The
    roster is a parameter. */
module HospitalScope {
  import opened Common
  import opened Geo
  import opened Domain
  import Sorting

  const SearchRadiusKm: real := 350.0

  /** A roster hospital with its distance from the origin, if one is given. */
  datatype HospitalWithDistance = HospitalWithDistance(hospital: Hospital, distanceKm: Option<real>)

  function WithDistances(roster: seq<Hospital>, origin: Option<Coordinate>, dist: DistanceFn)
    : (r: seq<HospitalWithDistance>)
    ensures |r| == |roster|
    ensures forall i :: 0 <= i < |r| ==> r[i].hospital == roster[i]
    ensures forall i :: 0 <= i < |r| ==>
      r[i].distanceKm == if origin.Some? then Some(dist(origin.value, roster[i].location)) else None
  {
    if roster == [] then []
    else
      var d := if origin.Some? then Some(dist(origin.value, roster[0].location)) else None;
      [HospitalWithDistance(roster[0], d)] + WithDistances(roster[1..], origin, dist)
  }

  /** Lexicographic order on character codes: the stand-in for
      `localeCompare(...) <= 0`. */
  function LexLe(a: string, b: string): bool {
    if a == [] then true
    else if b == [] then false
    else if a[0] != b[0] then a[0] < b[0]
    else LexLe(a[1..], b[1..])
  }

  lemma {:induction false} LexTotal(a: string, b: string)
    ensures LexLe(a, b) || LexLe(b, a)
  {
    if a != [] && b != [] && a[0] == b[0] {
      LexTotal(a[1..], b[1..]);
    }
  }

  lemma {:induction false} LexTransitive(a: string, b: string, c: string)
    requires LexLe(a, b) && LexLe(b, c)
    ensures LexLe(a, c)
  {
    if a != [] && b != [] && c != [] && a[0] == b[0] && b[0] == c[0] {
      LexTransitive(a[1..], b[1..], c[1..]);
    }
  }

  /** The comparator `b.traumaLevel - a.traumaLevel || a.name.localeCompare(b.name)`. */
  function ByTraumaThenName(a: HospitalWithDistance, b: HospitalWithDistance): bool {
    a.hospital.traumaLevel > b.hospital.traumaLevel
    || (a.hospital.traumaLevel == b.hospital.traumaLevel && LexLe(a.hospital.name, b.hospital.name))
  }

  /** The comparator `(a.distanceKm ?? Infinity) - (b.distanceKm ?? Infinity)`.
      Two missing distances give `Infinity - Infinity`, which the sort reads
      as equal. */
  function NearerOrEqual(a: HospitalWithDistance, b: HospitalWithDistance): bool {
    b.distanceKm.None? || (a.distanceKm.Some? && a.distanceKm.value <= b.distanceKm.value)
  }

  lemma ComparatorsOrder()
    ensures Sorting.TotalPreorder(ByTraumaThenName)
    ensures Sorting.TotalPreorder(NearerOrEqual)
  {
    forall a, b
      ensures ByTraumaThenName(a, b) || ByTraumaThenName(b, a)
    {
      LexTotal(a.hospital.name, b.hospital.name);
    }
    forall a, b, c | ByTraumaThenName(a, b) && ByTraumaThenName(b, c)
      ensures ByTraumaThenName(a, c)
    {
      if a.hospital.traumaLevel == b.hospital.traumaLevel == c.hospital.traumaLevel {
        LexTransitive(a.hospital.name, b.hospital.name, c.hospital.name);
      }
    }
  }

  /** Every roster hospital once: by trauma level, highest first, then by
      name without an origin; nearest first with one. */
  function InScope(roster: seq<Hospital>, origin: Option<Coordinate>, dist: DistanceFn): seq<HospitalWithDistance> {
    var withDistance := WithDistances(roster, origin, dist);
    if origin.None? then Sorting.SortBy(withDistance, ByTraumaThenName)
    else Sorting.SortBy(withDistance, NearerOrEqual)
  }

  /** Within the radius: a known distance no greater than it (`?? Infinity`
      keeps a missing distance out). */
  function Within(h: HospitalWithDistance, radiusKm: real): bool {
    h.distanceKm.Some? && h.distanceKm.value <= radiusKm
  }

  function WithinRadius(roster: seq<Hospital>, origin: Option<Coordinate>, dist: DistanceFn,
                        radiusKm: real := SearchRadiusKm): seq<HospitalWithDistance>
  {
    if origin.None? then []
    else Sorting.Filter(InScope(roster, origin, dist), (h: HospitalWithDistance) => Within(h, radiusKm))
  }

  /** The scope holds the roster entries, each as often as in the roster. */
  lemma InScopeIsPermutation(roster: seq<Hospital>, origin: Option<Coordinate>, dist: DistanceFn)
    ensures multiset(InScope(roster, origin, dist)) == multiset(WithDistances(roster, origin, dist))
  {
  }

  /** Without an origin no entry has a distance and the order is descending
      trauma level, then ascending name. */
  lemma InScopeWithoutOrigin(roster: seq<Hospital>, dist: DistanceFn)
    ensures var scope := InScope(roster, None, dist);
      && (forall h :: h in scope ==> h.distanceKm.None?)
      && (forall i, j :: 0 <= i < j < |scope| ==>
            || scope[i].hospital.traumaLevel > scope[j].hospital.traumaLevel
            || (scope[i].hospital.traumaLevel == scope[j].hospital.traumaLevel
                && LexLe(scope[i].hospital.name, scope[j].hospital.name)))
  {
    var withDistance := WithDistances(roster, None, dist);
    ComparatorsOrder();
    Sorting.SortSorted(withDistance, ByTraumaThenName);
    forall h | h in InScope(roster, None, dist)
      ensures h.distanceKm.None?
    {
      assert h in multiset(withDistance);
    }
  }

  /** With an origin every entry carries its distance from the origin, and
      the order is non-decreasing distance. */
  lemma InScopeWithOrigin(roster: seq<Hospital>, origin: Coordinate, dist: DistanceFn)
    ensures var scope := InScope(roster, Some(origin), dist);
      && (forall h :: h in scope ==> h.distanceKm == Some(dist(origin, h.hospital.location)))
      && (forall i, j :: 0 <= i < j < |scope| ==> scope[i].distanceKm.value <= scope[j].distanceKm.value)
  {
    var withDistance := WithDistances(roster, Some(origin), dist);
    var scope := InScope(roster, Some(origin), dist);
    ComparatorsOrder();
    Sorting.SortSorted(withDistance, NearerOrEqual);
    forall h | h in scope
      ensures h.distanceKm == Some(dist(origin, h.hospital.location))
    {
      assert h in multiset(withDistance);
    }
    forall i, j | 0 <= i < j < |scope|
      ensures scope[i].distanceKm.value <= scope[j].distanceKm.value
    {
      assert scope[i] in scope && scope[j] in scope;
      assert NearerOrEqual(scope[i], scope[j]);
    }
  }

  /** Without an origin nothing is within the radius. */
  lemma NothingWithoutOrigin(roster: seq<Hospital>, dist: DistanceFn, radiusKm: real)
    ensures WithinRadius(roster, None, dist, radiusKm) == []
  {
  }

  /** With an origin the result holds exactly the in-scope entries within
      the radius, each as often as in the scope, nearest first; hospitals at
      the same distance keep their roster order. */
  lemma WithinRadiusExact(roster: seq<Hospital>, origin: Coordinate, dist: DistanceFn, radiusKm: real,
                          h: HospitalWithDistance, y: HospitalWithDistance)
    ensures var scope := InScope(roster, Some(origin), dist);
      var near := WithinRadius(roster, Some(origin), dist, radiusKm);
      && multiset(near)[h] == (if Within(h, radiusKm) then multiset(scope)[h] else 0)
      && Sorting.Sorted(near, NearerOrEqual)
      && Sorting.Ties(near, NearerOrEqual, y)
         == Sorting.Filter(Sorting.Ties(WithDistances(roster, Some(origin), dist), NearerOrEqual, y),
                           (x: HospitalWithDistance) => Within(x, radiusKm))
  {
    var withDistance := WithDistances(roster, Some(origin), dist);
    var scope := InScope(roster, Some(origin), dist);
    var p := (x: HospitalWithDistance) => Within(x, radiusKm);
    Sorting.FilterCount(scope, p, h);
    ComparatorsOrder();
    Sorting.SortSorted(withDistance, NearerOrEqual);
    Sorting.FilterSorted(scope, p, NearerOrEqual);
    Sorting.SortStable(withDistance, NearerOrEqual, y);
    Sorting.FilterTies(scope, p, NearerOrEqual, y);
  }
}

/** The arctic-sim roster search (arctic-sim/src/lib/hospitals.ts), over
    hospitals without trauma level or capacity; the origin is always given. */
module ArcticHospitals {
  import opened Geo
  import Sorting

  const SearchRadiusKm: real := 350.0

  datatype Hospital = Hospital(id: string, name: string, city: string, location: Coordinate, airborneCapable: bool)

  datatype NearbyHospital = NearbyHospital(hospital: Hospital, distanceKm: real)

  function WithDistances(roster: seq<Hospital>, origin: Coordinate, dist: DistanceFn): (r: seq<NearbyHospital>)
    ensures |r| == |roster|
    ensures forall i :: 0 <= i < |r| ==> r[i] == NearbyHospital(roster[i], dist(origin, roster[i].location))
  {
    if roster == [] then []
    else [NearbyHospital(roster[0], dist(origin, roster[0].location))] + WithDistances(roster[1..], origin, dist)
  }

  /** The comparator `a.distanceKm - b.distanceKm`. */
  function ByDistance(a: NearbyHospital, b: NearbyHospital): bool {
    a.distanceKm <= b.distanceKm
  }

  function WithinRadius(roster: seq<Hospital>, origin: Coordinate, dist: DistanceFn,
                        radiusKm: real := SearchRadiusKm): seq<NearbyHospital>
  {
    Sorting.SortBy(
      Sorting.Filter(WithDistances(roster, origin, dist), (h: NearbyHospital) => h.distanceKm <= radiusKm),
      ByDistance)
  }

  /** Each result is at its great-circle distance from the origin, inside
      the radius; every roster hospital inside the radius appears as often
      as in the roster; the results are nearest first, and hospitals at the
      same distance keep their roster order. */
  lemma WithinRadiusExact(roster: seq<Hospital>, origin: Coordinate, dist: DistanceFn, radiusKm: real,
                          h: NearbyHospital, y: NearbyHospital)
    ensures var near := WithinRadius(roster, origin, dist, radiusKm);
      && (forall x :: x in near ==> x.distanceKm == dist(origin, x.hospital.location) && x.distanceKm <= radiusKm)
      && multiset(near)[h] ==
           (if h.distanceKm <= radiusKm then multiset(WithDistances(roster, origin, dist))[h] else 0)
      && Sorting.Sorted(near, ByDistance)
      && Sorting.Ties(near, ByDistance, y)
         == Sorting.Filter(Sorting.Ties(WithDistances(roster, origin, dist), ByDistance, y),
                           (x: NearbyHospital) => x.distanceKm <= radiusKm)
  {
    var all := WithDistances(roster, origin, dist);
    var p := (h: NearbyHospital) => h.distanceKm <= radiusKm;
    var inside := Sorting.Filter(all, p);
    Sorting.FilterCount(all, p, h);
    assert Sorting.TotalPreorder(ByDistance);
    Sorting.SortSorted(inside, ByDistance);
    Sorting.SortStable(inside, ByDistance, y);
    Sorting.FilterTies(all, p, ByDistance, y);
    forall x | x in WithinRadius(roster, origin, dist, radiusKm)
      ensures x.distanceKm == dist(origin, x.hospital.location) && x.distanceKm <= radiusKm
    {
      assert x in multiset(inside);
      ResultFromRoster(roster, origin, dist, radiusKm, x);
    }
  }

  lemma ResultFromRoster(roster: seq<Hospital>, origin: Coordinate, dist: DistanceFn, radiusKm: real, x: NearbyHospital)
    requires x in Sorting.Filter(WithDistances(roster, origin, dist), (h: NearbyHospital) => h.distanceKm <= radiusKm)
    ensures x.distanceKm == dist(origin, x.hospital.location) && x.distanceKm <= radiusKm
  {
    var all := WithDistances(roster, origin, dist);
    Sorting.FilterCount(all, (h: NearbyHospital) => h.distanceKm <= radiusKm, x);
    assert x in multiset(all);
  }
}

/** Coordinates and great-circle distance.

    The haversine formula of src/lib/geo.ts is trigonometric floating point;
    it is not modelled. Every operation that needs a distance takes it as a
    parameter of type `DistanceFn`: any total function into the non-negative
    reals, which is all that the rest of the model relies on. */
module Geo {

  /** `{lat, lng}` in degrees; no validation, as in the source. */
  datatype Coordinate = Coordinate(lat: real, lng: real)

  /** A great-circle distance in kilometres: never negative. */
  type DistanceFn = f: (Coordinate, Coordinate) -> real
    | forall a, b :: f(a, b) >= 0.0
    witness (a: Coordinate, b: Coordinate) => 0.0
}

/** Locations, routes and the length of the open path a route describes. */
module Routes {
  import Rand

  /** A named point of the plane. Equality is structural: name and both coordinates. */
  datatype Location = Location(name: string, x: real, y: real)

  /** The distance between two locations. The source computes the Euclidean distance in
      floating point; the model keeps only that it is a non-negative function. */
  type Metric = d: (Location, Location) -> real | forall a: Location, b: Location :: d(a, b) >= 0.0
    witness (a: Location, b: Location) => 0.0

  /** A candidate tour: the order in which the locations are visited and its cached length. */
  datatype Route = Route(locations: seq<Location>, distance: real)

  /** Each location occurs at most once. */
  ghost predicate Distinct(s: seq<Location>)
  {
    forall e :: multiset(s)[e] <= 1
  }

  /** The length of the open path through `locations`: the sum of the distances between
      consecutive locations, with no edge back from the last to the first. */
  ghost function PathLength(dist: Metric, locations: seq<Location>): real
    decreases |locations|
  {
    if |locations| < 2 then 0.0
    else dist(locations[0], locations[1]) + PathLength(dist, locations[1..])
  }

  /** A route whose cached distance agrees with its order of locations. */
  ghost predicate WellFormed(dist: Metric, r: Route)
  {
    r.distance == PathLength(dist, r.locations)
  }

  lemma {:induction false} PathLengthNonNegative(dist: Metric, locations: seq<Location>)
    ensures PathLength(dist, locations) >= 0.0
    decreases |locations|
  {
    if |locations| >= 2 {
      PathLengthNonNegative(dist, locations[1..]);
    }
  }

  /** The left fold over the windows of two consecutive locations, starting at window `i`
      with accumulator `acc`. */
  function FoldWindows(dist: Metric, locations: seq<Location>, i: nat, acc: real): (r: real)
    requires i <= |locations|
    ensures r == acc + PathLength(dist, locations[i..])
    decreases |locations| - i
  {
    if i + 1 >= |locations| then acc
    else
      assert locations[i..][1..] == locations[i + 1..];
      FoldWindows(dist, locations, i + 1, acc + dist(locations[i], locations[i + 1]))
  }

  /** `locations_distance`: the length of the open path, as the fold computes it. */
  function LocationsDistance(dist: Metric, locations: seq<Location>): (r: real)
    ensures r == PathLength(dist, locations)
    ensures r >= 0.0
    ensures |locations| < 2 ==> r == 0.0
  {
    assert locations[0..] == locations;
    PathLengthNonNegative(dist, locations);
    FoldWindows(dist, locations, 0, 0.0)
  }

  /** `Route::new`: the route keeps the given order and caches the length of its path. */
  function NewRoute(dist: Metric, locations: seq<Location>): (r: Route)
    ensures r.locations == locations
    ensures r.distance == PathLength(dist, locations) && WellFormed(dist, r)
  {
    Route(locations, LocationsDistance(dist, locations))
  }

  /** `Route::randomized`: a random reordering of the given locations. */
  method Randomized(dist: Metric, locations: seq<Location>, rng: Rand.Rng) returns (r: Route)
    modifies rng
    ensures WellFormed(dist, r)
    ensures multiset(r.locations) == multiset(locations)
  {
    var a := new Location[|locations|](i requires 0 <= i < |locations| => locations[i]);
    assert a[..] == locations;
    rng.Shuffle(a);
    r := NewRoute(dist, a[..]);
  }
}

/** Mating-pool selection (`Simulation::allocate_mating_pool` and
    `Simulation::select_mating_pool`): five slots, of which slots 0 to 3 hold the elite found by
    a scan of the population and slot 4 a randomly drawn population route. */
module Selection {
  import opened Routes
  import Rand

  /** `Simulation::MATING_POOL_SIZE`. */
  const MatingPoolSize: nat := 5

  /** How many random draws the diversity step tries at most. */
  const RandomAttempts: nat := 10

  /** One step of the elite scan: a route shorter than the elite slot k (the first such k)
      moves slots k..2 one to the right, dropping the old slot 3, and takes slot k. Slot 4 is
      never touched. A route no shorter than slot 3 leaves the pool as it is. */
  function InsertElite(pool: seq<Route>, r: Route): (p: seq<Route>)
    requires |pool| == MatingPoolSize
    ensures |p| == MatingPoolSize && p[4] == pool[4]
  {
    if r.distance < pool[0].distance then [r, pool[0], pool[1], pool[2], pool[4]]
    else if r.distance < pool[1].distance then [pool[0], r, pool[1], pool[2], pool[4]]
    else if r.distance < pool[2].distance then [pool[0], pool[1], r, pool[2], pool[4]]
    else if r.distance < pool[3].distance then [pool[0], pool[1], pool[2], r, pool[4]]
    else pool
  }

  /** The pool after the scan has visited every route of `population`, in order. */
  function ScanElite(pool: seq<Route>, population: seq<Route>): (p: seq<Route>)
    requires |pool| == MatingPoolSize
    ensures |p| == MatingPoolSize && p[4] == pool[4]
    decreases |population|
  {
    if population == [] then pool
    else InsertElite(ScanElite(pool, population[..|population| - 1]), population[|population| - 1])
  }

  /** Slots 0 to 3 in ascending order of distance. */
  ghost predicate EliteAscending(pool: seq<Route>)
    requires |pool| == MatingPoolSize
  {
    pool[0].distance <= pool[1].distance <= pool[2].distance <= pool[3].distance
  }

  /** `after` is what `select_mating_pool` leaves of the pool `before` for `population`:
      slots 0 to 3 as the elite scan leaves them, and slot 4 either kept or replaced by a
      population route that the scanned pool does not hold. */
  ghost predicate Selected(before: seq<Route>, population: seq<Route>, after: seq<Route>)
  {
    && |before| == MatingPoolSize && |after| == MatingPoolSize
    && after[..4] == ScanElite(before, population)[..4]
    && (after[4] == before[4] || (after[4] in population && after[4] !in ScanElite(before, population)))
  }

  /** `allocate_mating_pool`: the first five routes of the population, in population order. */
  method AllocateMatingPool(population: seq<Route>) returns (pool: array<Route>)
    requires |population| >= MatingPoolSize
    ensures fresh(pool) && pool.Length == MatingPoolSize
    ensures pool[..] == population[..MatingPoolSize]
  {
    pool := new Route[MatingPoolSize](i requires 0 <= i < MatingPoolSize => population[i]);
  }

  /** `select_mating_pool`: the elite scan over the whole population, by swaps in place,
      then at most ten draws for a population route not yet in the pool, which replaces
      slot 4. A population with no route leaves the generator an empty range, so the
      caller must provide at least one. */
  method SelectMatingPool(population: seq<Route>, pool: array<Route>, rng: Rand.Rng)
    requires pool.Length == MatingPoolSize && |population| > 0
    modifies pool, rng
    ensures Selected(old(pool[..]), population, pool[..])
    ensures 1 <= rng.drawn - old(rng.drawn) <= RandomAttempts
  {
    for k := 0 to |population|
      invariant pool[..] == ScanElite(old(pool[..]), population[..k])
      invariant rng.drawn == old(rng.drawn)
    {
      var route := population[k];
      ghost var before := pool[..];
      assert population[..k + 1][..k] == population[..k];
      if route.distance < pool[0].distance {
        pool[3], pool[2] := pool[2], pool[3];
        pool[2], pool[1] := pool[1], pool[2];
        pool[1], pool[0] := pool[0], pool[1];
        pool[0] := route;
      } else if route.distance < pool[1].distance {
        pool[3], pool[2] := pool[2], pool[3];
        pool[2], pool[1] := pool[1], pool[2];
        pool[1] := route;
      } else if route.distance < pool[2].distance {
        pool[3], pool[2] := pool[2], pool[3];
        pool[2] := route;
      } else if route.distance < pool[3].distance {
        pool[3] := route;
      }
      assert pool[..] == InsertElite(before, route);
    }
    assert population[..|population|] == population;
    ghost var scanned := pool[..];
    ScanEliteDrawsFrom(old(pool[..]), population);
    for attempt := 0 to RandomAttempts
      invariant pool[..] == scanned
      invariant rng.drawn == old(rng.drawn) + attempt
    {
      var i := rng.GenRange(0, |population|);
      if population[i] !in pool[..] {
        pool[4] := population[i];
        return;
      }
    }
  }

  // ---------------------------------------------------------------------------------------
  // What the elite scan guarantees

  /** Slot 0 ends no longer than it started and no longer than any scanned route. */
  lemma {:induction false} ScanEliteKeepsBest(pool: seq<Route>, population: seq<Route>)
    requires |pool| == MatingPoolSize
    ensures ScanElite(pool, population)[0].distance <= pool[0].distance
    ensures forall r :: r in population ==> ScanElite(pool, population)[0].distance <= r.distance
    decreases |population|
  {
    if population != [] {
      var front := population[..|population| - 1];
      ScanEliteKeepsBest(pool, front);
      assert population == front + [population[|population| - 1]];
    }
  }

  /** If slots 0 to 3 were ascending before the scan they are ascending after it. */
  lemma {:induction false} ScanEliteKeepsAscending(pool: seq<Route>, population: seq<Route>)
    requires |pool| == MatingPoolSize && EliteAscending(pool)
    ensures EliteAscending(ScanElite(pool, population))
    decreases |population|
  {
    if population != [] {
      ScanEliteKeepsAscending(pool, population[..|population| - 1]);
    }
  }

  /** Every elite slot afterwards holds a route of the old elite or of the population. */
  lemma {:induction false} ScanEliteDrawsFrom(pool: seq<Route>, population: seq<Route>)
    requires |pool| == MatingPoolSize
    ensures forall k :: 0 <= k < 4 ==> ScanElite(pool, population)[k] in pool[..4] + population
    decreases |population|
  {
    if population != [] {
      var front := population[..|population| - 1];
      ScanEliteDrawsFrom(pool, front);
      assert population == front + [population[|population| - 1]];
    }
  }

  /** Seeded with the population's first five routes, as `allocate_mating_pool` seeds it,
      the scan need not leave the elite ascending, and may hold one route twice: routes
      of lengths 3, 1, 9, 9, 9, 9 end with elite lengths 1, 3, 1, 3. */
  lemma UnorderedSeedExample(a: Route, b: Route, c: Route)
    requires a.distance == 3.0 && b.distance == 1.0 && c.distance == 9.0
    ensures ScanElite([a, b, c, c, c], [a, b, c, c, c, c])[..4] == [b, a, b, a]
    ensures !EliteAscending(ScanElite([a, b, c, c, c], [a, b, c, c, c, c]))
  {
    var seed := [a, b, c, c, c];
    var population := [a, b, c, c, c, c];
    assert population[..1] == [a] && population[..2] == [a, b];
    assert population[..3] == [a, b, c] && population[..4] == [a, b, c, c];
    assert population[..5] == [a, b, c, c, c];
    assert [a][..0] == [];
    assert ScanElite(seed, []) == seed;
    assert InsertElite(seed, a) == [a, b, a, c, c];
    var s1 := ScanElite(seed, [a]);
    assert s1 == [a, b, a, c, c];
    assert [a, b][..1] == [a];
    assert InsertElite(s1, b) == [b, a, b, a, c];
    var s2 := ScanElite(seed, [a, b]);
    assert s2 == [b, a, b, a, c];
    assert InsertElite(s2, c) == s2;
    assert [a, b, c][..2] == [a, b];
    assert ScanElite(seed, [a, b, c]) == s2;
    assert [a, b, c, c][..3] == [a, b, c];
    assert ScanElite(seed, [a, b, c, c]) == s2;
    assert [a, b, c, c, c][..4] == [a, b, c, c];
    assert ScanElite(seed, [a, b, c, c, c]) == s2;
    assert population[..5] == [a, b, c, c, c];
    assert ScanElite(seed, population) == s2;
  }
}

/** The genetic search of one worker (`Simulation` and its `run` loop). */
module Agent {
  import opened Routes
  import opened Mating
  import opened Selection
  import Rand

  /** The events `run` hands to its callback. */
  datatype Event = Started | NewChampion(route: Route) | Finished

  /** How a run ends: one of the two configuration asserts fails before anything happens,
      an index or range panic aborts the search, or the champion is returned. */
  datatype RunResult = ConfigAssertFailed | Panicked | Returned(champion: Route)

  /** Every route orders exactly the given locations. */
  ghost predicate AllPermutations(routes: seq<Route>, locations: seq<Location>)
  {
    forall r :: r in routes ==> multiset(r.locations) == multiset(locations)
  }

  /** Every route caches the length of its own path. */
  ghost predicate AllWellFormed(dist: Metric, routes: seq<Route>)
  {
    forall r :: r in routes ==> WellFormed(dist, r)
  }

  /** `child` is what `mate` produces from the couple (parentX, parentY) for some in-range
      DNA slice. */
  ghost predicate IsOffspring(dist: Metric, child: Route, parentX: Route, parentY: Route)
  {
    exists start: nat, end: nat ::
      SliceInRange(|parentX.locations|, start, end) &&
      child == NewRoute(dist, Recombine(parentY.locations, parentX.locations[start..end], false))
  }

  /** `child` is an offspring of two routes of the mating pool. */
  ghost predicate IsChildOf(dist: Metric, child: Route, pool: seq<Route>)
  {
    exists parentX, parentY :: parentX in pool && parentY in pool && IsOffspring(dist, child, parentX, parentY)
  }

  /** Every route of `children` is well formed and an offspring of two routes of `pool`. */
  ghost predicate ChildrenOf(dist: Metric, children: seq<Route>, pool: seq<Route>)
  {
    forall c :: c in children ==> WellFormed(dist, c) && IsChildOf(dist, c, pool)
  }

  /** A child `mate` made from two routes of the pool may join the children. */
  lemma ChildrenGrow(dist: Metric, children: seq<Route>, pool: seq<Route>, parentX: Route, parentY: Route,
                     child: Route, start: nat, end: nat)
    requires ChildrenOf(dist, children, pool) && parentX in pool && parentY in pool
    requires SliceInRange(|parentX.locations|, start, end)
    requires child == NewRoute(dist, Recombine(parentY.locations, parentX.locations[start..end], false))
    ensures ChildrenOf(dist, children + [child], pool)
  {
    assert IsOffspring(dist, child, parentX, parentY);
  }

  /** `locations` with the entries at i and j exchanged (`slice::swap`). */
  function Swap(locations: seq<Location>, i: nat, j: nat): (r: seq<Location>)
    requires i < |locations| && j < |locations|
    ensures |r| == |locations| && r[i] == locations[j] && r[j] == locations[i]
    ensures forall k :: 0 <= k < |r| && k != i && k != j ==> r[k] == locations[k]
    ensures multiset(r) == multiset(locations)
  {
    locations[i := locations[j]][j := locations[i]]
  }

  /** `route` is an offspring of two routes of `pool`, after the mutation step that compares
      it with the pool's slot 3. */
  ghost predicate MutatedChild(dist: Metric, pool: seq<Route>, route: Route)
    requires |pool| == MatingPoolSize
  {
    exists child :: IsChildOf(dist, child, pool) && MutationOf(dist, child, route, pool[3].distance)
  }

  /** What `mutate` does to one route: a route longer than the threshold has two of its
      positions exchanged and its length recomputed; any other route is left as it is. */
  ghost predicate MutationOf(dist: Metric, before: Route, after: Route, threshold: real)
  {
    if before.distance > threshold then
      (exists i: nat, j: nat :: i < |before.locations| && j < |before.locations| &&
                                after.locations == Swap(before.locations, i, j)) &&
      WellFormed(dist, after)
    else after == before
  }

  /** The events of a run whose current champion is `champion`: `Started`, then champions
      each strictly shorter than the one before, the last of them `champion`. */
  ghost predicate ChampionTrace(events: seq<Event>, champion: Route)
  {
    && |events| >= 2
    && events[0] == Started
    && events[|events| - 1] == NewChampion(champion)
    && (forall i :: 1 <= i < |events| ==> events[i].NewChampion?)
    && (forall i :: 1 <= i < |events| ==> champion.distance <= events[i].route.distance)
    && (forall i, j :: 1 <= i < j < |events| ==> events[j].route.distance < events[i].route.distance)
  }

  /** A strictly shorter route extends the trace of champions. */
  lemma ChampionTraceExtends(events: seq<Event>, champion: Route, better: Route)
    requires ChampionTrace(events, champion) && better.distance < champion.distance
    ensures ChampionTrace(events + [NewChampion(better)], better)
  {
  }

  /** A limit the loop meets after at least one generation: the loop body always runs once. */
  function AtLeastOne(n: nat): nat
  {
    if n == 0 then 1 else n
  }

  /** Every route of the pool after `select_mating_pool` was in the pool before or is a
      route of the population. */
  lemma SelectionDrawsFrom(before: seq<Route>, population: seq<Route>, after: seq<Route>)
    requires Selected(before, population, after)
    ensures forall r :: r in after ==> r in before || r in population
  {
    ScanEliteDrawsFrom(before, population);
    forall r | r in after ensures r in before || r in population {
      var k :| 0 <= k < MatingPoolSize && after[k] == r;
      if k < 4 {
        assert r == ScanElite(before, population)[k];
        assert r in before[..4] + population;
      }
    }
  }

  /** Selection keeps every pool route well formed, and an ordering of the locations,
      when the old pool's and the population's routes are. */
  lemma SelectionKeepsRoutes(dist: Metric, locations: seq<Location>,
                             before: seq<Route>, population: seq<Route>, after: seq<Route>)
    requires Selected(before, population, after)
    ensures AllWellFormed(dist, before) && AllWellFormed(dist, population) ==> AllWellFormed(dist, after)
    ensures AllPermutations(before, locations) && AllPermutations(population, locations) ==>
              AllPermutations(after, locations)
  {
    SelectionDrawsFrom(before, population, after);
  }

  // ---------------------------------------------------------------------------------------
  // The history of a run: the pool selected at each generation, generation 0 being the
  // selection over the initial population

  /** Every pool of the history has the five slots of the mating pool. */
  ghost predicate PoolsShaped(pools: seq<seq<Route>>)
  {
    forall g :: 0 <= g < |pools| ==> |pools[g]| == MatingPoolSize
  }

  /** The champion after generation `g`: slot 0 of the first pool, replaced by a later
      pool's slot 0 only when that one is strictly shorter. */
  ghost function ChampionAt(pools: seq<seq<Route>>, g: nat): (champion: Route)
    requires g < |pools| && PoolsShaped(pools)
    ensures champion.distance <= pools[g][0].distance
    decreases g
  {
    if g == 0 then pools[0][0]
    else if pools[g][0].distance < ChampionAt(pools, g - 1).distance then pools[g][0]
    else ChampionAt(pools, g - 1)
  }

  /** Generation `g` found a strictly shorter champion. */
  ghost predicate Improved(pools: seq<seq<Route>>, g: nat)
    requires g < |pools| && PoolsShaped(pools)
  {
    g > 0 && pools[g][0].distance < ChampionAt(pools, g - 1).distance
  }

  /** The last generation, up to `g`, that found a strictly shorter champion (0 if none
      did): the champion has not changed since. */
  ghost function LastImprovementAt(pools: seq<seq<Route>>, g: nat): (last: nat)
    requires g < |pools| && PoolsShaped(pools)
    ensures last <= g
    ensures ChampionAt(pools, g) == ChampionAt(pools, last)
    ensures forall h :: last < h <= g ==> !Improved(pools, h)
    decreases g
  {
    if g == 0 then 0
    else if Improved(pools, g) then g
    else LastImprovementAt(pools, g - 1)
  }

  /** The `NewChampion` events up to generation `g`: one for the first champion, then one
      for each generation that improved on it. */
  ghost function ChampionEvents(pools: seq<seq<Route>>, g: nat): seq<Event>
    requires g < |pools| && PoolsShaped(pools)
    decreases g
  {
    if g == 0 then [NewChampion(pools[0][0])]
    else if Improved(pools, g) then ChampionEvents(pools, g - 1) + [NewChampion(pools[g][0])]
    else ChampionEvents(pools, g - 1)
  }

  /** The champion events of a history form a trace of strictly shorter champions that ends
      with the current one. */
  lemma {:induction false} ChampionEventsTrace(pools: seq<seq<Route>>, g: nat)
    requires g < |pools| && PoolsShaped(pools)
    ensures ChampionTrace([Started] + ChampionEvents(pools, g), ChampionAt(pools, g))
    decreases g
  {
    if g > 0 {
      ChampionEventsTrace(pools, g - 1);
      if Improved(pools, g) {
        ChampionTraceExtends([Started] + ChampionEvents(pools, g - 1), ChampionAt(pools, g - 1), pools[g][0]);
        assert [Started] + ChampionEvents(pools, g) == [Started] + ChampionEvents(pools, g - 1) + [NewChampion(pools[g][0])];
      }
    }
  }

  /** A pool of five slots extends a history of pools of five slots. */
  lemma PoolsShapedExtends(pools: seq<seq<Route>>, after: seq<Route>)
    requires PoolsShaped(pools) && |after| == MatingPoolSize
    ensures PoolsShaped(pools + [after])
  {
    forall g | 0 <= g < |pools| + 1 ensures |(pools + [after])[g]| == MatingPoolSize {
      if g < |pools| {
        assert (pools + [after])[g] == pools[g];
      }
    }
  }

  /** A longer history agrees with a shorter one on the generations both hold. */
  lemma {:induction false} HistoryPrefix(pools: seq<seq<Route>>, longer: seq<seq<Route>>, g: nat)
    requires g < |pools| <= |longer| && PoolsShaped(pools) && PoolsShaped(longer)
    requires pools == longer[..|pools|]
    ensures ChampionAt(longer, g) == ChampionAt(pools, g)
    ensures LastImprovementAt(longer, g) == LastImprovementAt(pools, g)
    ensures ChampionEvents(longer, g) == ChampionEvents(pools, g)
    decreases g
  {
    assert longer[g] == pools[g];
    if g > 0 {
      HistoryPrefix(pools, longer, g - 1);
    }
  }

  datatype Simulation = Simulation(
    locations: seq<Location>,
    populationSize: nat,
    maxIterations: Option<nat>,
    assumeConvergence: Option<nat>)
  {
    /** The two asserts at the top of `run`. */
    predicate ConfigValid()
    {
      && populationSize > MatingPoolSize
      && (maxIterations.None? || assumeConvergence.None? || maxIterations.value > assumeConvergence.value)
    }

    /** The check at the end of each generation: the stop flag is seen set (`stopAt` is the
        first generation at whose end the flag is seen set), the iteration limit is reached,
        or the champion has not improved for `assumeConvergence` generations. */
    predicate StopCondition(iteration: nat, championIterations: nat, stopAt: nat)
    {
      || iteration >= stopAt
      || (maxIterations.Some? && iteration >= maxIterations.value)
      || (assumeConvergence.Some? && championIterations >= assumeConvergence.value)
    }

    /** Once the check holds it holds for every later generation that has gone at least as
        long without improvement: each of its three limits is a lower bound. */
    lemma StopConditionMonotone(iteration: nat, championIterations: nat, later: nat, laterChampionIterations: nat,
                                stopAt: nat)
      requires StopCondition(iteration, championIterations, stopAt)
      requires iteration <= later && championIterations <= laterChampionIterations
      ensures StopCondition(later, laterChampionIterations, stopAt)
    {
    }

    /** `initial_random_population`: `populationSize` random orderings of the locations. */
    method InitialRandomPopulation(dist: Metric, rng: Rand.Rng) returns (population: seq<Route>)
      modifies rng
      ensures |population| == populationSize
      ensures AllWellFormed(dist, population) && AllPermutations(population, locations)
    {
      population := [];
      while |population| < populationSize
        invariant |population| <= populationSize
        invariant AllWellFormed(dist, population) && AllPermutations(population, locations)
      {
        var route := Randomized(dist, locations, rng);
        population := population + [route];
      }
    }

    /** `crossover`: children of consecutive couples of a copy of the pool, reshuffled
        whenever its couples are used up, until there are `populationSize - pool.Length`. */
    method Crossover(dist: Metric, pool: array<Route>, rng: Rand.Rng) returns (children: seq<Route>, ok: bool)
      requires pool.Length == MatingPoolSize && populationSize > MatingPoolSize
      modifies rng
      ensures ok ==> |children| == populationSize - MatingPoolSize
      ensures forall c :: c in children ==> WellFormed(dist, c) && IsChildOf(dist, c, pool[..])
      ensures Distinct(locations) && |locations| >= 2 && AllPermutations(pool[..], locations) ==>
                ok && AllPermutations(children, locations)
    {
      var childrenCount := populationSize - pool.Length;
      var parents := pool[..];
      var shuffling := new Route[pool.Length](i requires 0 <= i < |parents| => parents[i]);
      assert shuffling[..] == parents;
      children, ok := [], true;
      label mating: while true
        invariant multiset(shuffling[..]) == multiset(parents) && shuffling.Length == MatingPoolSize
        invariant |children| < childrenCount
        invariant ChildrenOf(dist, children, parents)
        invariant Distinct(locations) && |locations| >= 2 && AllPermutations(parents, locations) ==>
                    AllPermutations(children, locations)
        decreases childrenCount - |children|
      {
        ghost var pushed := |children|;
        for j := 0 to shuffling.Length - 1
          invariant |children| == pushed + j
          invariant multiset(shuffling[..]) == multiset(parents)
          invariant |children| < childrenCount
          invariant ChildrenOf(dist, children, parents)
          invariant Distinct(locations) && |locations| >= 2 && AllPermutations(parents, locations) ==>
                      AllPermutations(children, locations)
        {
          var parentX, parentY := shuffling[j], shuffling[j + 1];
          assert parentX in parents && parentY in parents by {
            assert shuffling[..][j] == parentX && shuffling[..][j + 1] == parentY;
            assert parentX in multiset(shuffling[..]) && parentY in multiset(shuffling[..]);
          }
          var child, start, end := Mate(dist, parentX, parentY, rng);
          if child.None? {
            return children, false;
          }
          if Distinct(locations) && |locations| >= 2 && AllPermutations(parents, locations) {
            MateIsPermutation(locations, parentX.locations, parentY.locations, start, end);
          }
          ChildrenGrow(dist, children, parents, parentX, parentY, child.value, start, end);
          children := children + [child.value];
          if |children| >= childrenCount {
            break mating;
          }
        }
        rng.Shuffle(shuffling);
      }
    }

    /** `mutate`: each route longer than the pool's slot 3 has two positions, drawn among
        `|locations|`, exchanged and its length recomputed. A drawn position past the end
        of a shorter route is an index panic. */
    method Mutate(dist: Metric, population: seq<Route>, pool: array<Route>, rng: Rand.Rng)
      returns (mutated: seq<Route>, ok: bool)
      requires pool.Length == MatingPoolSize
      modifies rng
      ensures ok ==> |mutated| == |population|
      ensures ok ==> forall k :: 0 <= k < |population| ==>
                       MutationOf(dist, population[k], mutated[k], pool[MatingPoolSize - 2].distance)
      ensures |locations| > 0 && (forall r :: r in population ==> |r.locations| == |locations|) ==> ok
    {
      var threshold := pool[pool.Length - 2].distance;
      var routeLength := |locations|;
      mutated, ok := [], true;
      for k := 0 to |population|
        invariant |mutated| == k
        invariant forall m :: 0 <= m < k ==> MutationOf(dist, population[m], mutated[m], threshold)
      {
        var route := population[k];
        if route.distance > threshold {
          if routeLength == 0 {
            return mutated, false;
          }
          var i1 := rng.GenRange(0, routeLength);
          var i2 := rng.GenRange(0, routeLength);
          if i1 >= |route.locations| || i2 >= |route.locations| {
            return mutated, false;
          }
          var swapped := Swap(route.locations, i1, i2);
          route := NewRoute(dist, swapped);
        }
        mutated := mutated + [route];
      }
    }

    /** `next_generation`: the population is replaced by the mutated crossover children,
        followed by the routes of the mating pool, unchanged and in pool order. */
    method NextGeneration(dist: Metric, pool: array<Route>, rng: Rand.Rng)
      returns (population: seq<Route>, ok: bool, ghost children: seq<Route>)
      requires pool.Length == MatingPoolSize && populationSize > MatingPoolSize
      modifies rng
      ensures ok ==> |population| == populationSize && |children| == populationSize - MatingPoolSize
      ensures ok ==> population[populationSize - MatingPoolSize..] == pool[..]
      ensures ok ==> forall k :: 0 <= k < |children| ==>
                       IsChildOf(dist, children[k], pool[..]) &&
                       MutationOf(dist, children[k], population[k], pool[MatingPoolSize - 2].distance)
      ensures ok && AllWellFormed(dist, pool[..]) ==> AllWellFormed(dist, population)
      ensures Distinct(locations) && |locations| >= 2 && AllPermutations(pool[..], locations) ==>
                ok && AllPermutations(population, locations)
    {
      population := [];
      var offspring, crossoverOk := Crossover(dist, pool, rng);
      children := offspring;
      if !crossoverOk {
        return population, false, children;
      }
      population, ok := Mutate(dist, offspring, pool, rng);
      if !ok {
        return population, false, children;
      }
      ghost var kids := population;
      forall k | 0 <= k < |children|
        ensures WellFormed(dist, population[k])
        ensures Distinct(locations) && |locations| >= 2 && AllPermutations(pool[..], locations) ==>
                  multiset(population[k].locations) == multiset(locations)
      {
        assert children[k] in children;
      }
      for k := 0 to pool.Length
        invariant population == kids + pool[..k]
      {
        population := population + [pool[k]];
      }
      assert pool[..pool.Length] == pool[..];
      assert population[populationSize - MatingPoolSize..] == pool[..];
      forall r | r in population
        ensures (AllWellFormed(dist, pool[..]) ==> WellFormed(dist, r))
        ensures Distinct(locations) && |locations| >= 2 && AllPermutations(pool[..], locations) ==>
                  multiset(r.locations) == multiset(locations)
      {
        var k :| 0 <= k < |population| && population[k] == r;
        if k >= |kids| {
          assert r == pool[..][k - |kids|];
        }
      }
    }

    /** `population` is what `next_generation` breeds from `pool`: `populationSize` routes,
        first the mutated children of couples of pool routes, then the pool unchanged. */
    ghost predicate Bred(dist: Metric, pool: seq<Route>, population: seq<Route>)
    {
      && |pool| == MatingPoolSize && populationSize >= MatingPoolSize
      && |population| == populationSize
      && population[populationSize - MatingPoolSize..] == pool
      && forall k :: 0 <= k < populationSize - MatingPoolSize ==> MutatedChild(dist, pool, population[k])
    }

    /** A history of a run: `populations[0]` is the initial population of random orderings
        and `pools[0]` its selection over a pool seeded with its first five routes; every
        later generation breeds a population from the previous pool and selects the next
        pool over it. */
    ghost predicate History(dist: Metric, pools: seq<seq<Route>>, populations: seq<seq<Route>>)
    {
      && 1 <= |pools| == |populations|
      && PoolsShaped(pools)
      && |populations[0]| == populationSize >= MatingPoolSize
      && AllWellFormed(dist, populations[0]) && AllPermutations(populations[0], locations)
      && Selected(populations[0][..MatingPoolSize], populations[0], pools[0])
      && forall g {:trigger populations[g]} :: 1 <= g < |pools| ==>
           Bred(dist, pools[g - 1], populations[g]) && Selected(pools[g - 1], populations[g], pools[g])
    }

    /** One more generation extends a history. */
    lemma HistoryExtends(dist: Metric, pools: seq<seq<Route>>, populations: seq<seq<Route>>,
                         population: seq<Route>, after: seq<Route>)
      requires History(dist, pools, populations)
      requires Bred(dist, pools[|pools| - 1], population) && Selected(pools[|pools| - 1], population, after)
      ensures History(dist, pools + [after], populations + [population])
    {
      PoolsShapedExtends(pools, after);
      var longer, more := pools + [after], populations + [population];
      assert longer[0] == pools[0] && more[0] == populations[0];
      forall g | 1 <= g < |longer|
        ensures Bred(dist, longer[g - 1], more[g]) && Selected(longer[g - 1], more[g], longer[g])
      {
        if g < |pools| {
          assert longer[g - 1] == pools[g - 1] && longer[g] == pools[g] && more[g] == populations[g];
        }
      }
    }

    /** Slot 0 of each pool of a history is no longer than any route of the population it
        was selected over. */
    lemma SlotZeroIsBest(dist: Metric, pools: seq<seq<Route>>, populations: seq<seq<Route>>, g: nat)
      requires History(dist, pools, populations) && g < |pools|
      ensures forall r :: r in populations[g] ==> pools[g][0].distance <= r.distance
    {
      var seed := if g == 0 then populations[0][..MatingPoolSize] else pools[g - 1];
      assert Selected(seed, populations[g], pools[g]);
      ScanEliteKeepsBest(seed, populations[g]);
      assert pools[g][0] == pools[g][..4][0];
    }

    /** The champion after generation `g` is exactly as long as slot 0 of the pool then: the
        scan never lets slot 0 grow longer, so a champion not replaced ties with it. */
    lemma {:induction false} ChampionIsSlotZero(dist: Metric, pools: seq<seq<Route>>, populations: seq<seq<Route>>,
                                                g: nat)
      requires History(dist, pools, populations) && g < |pools|
      ensures ChampionAt(pools, g).distance == pools[g][0].distance
      decreases g
    {
      if g > 0 {
        ChampionIsSlotZero(dist, pools, populations, g - 1);
        assert Selected(pools[g - 1], populations[g], pools[g]);
        ScanEliteKeepsBest(pools[g - 1], populations[g]);
        assert pools[g][0] == pools[g][..4][0];
      }
    }

    /** The champion after generation `g` is no longer than any route of any population bred
        up to then: it is the best route the search has met. */
    lemma ChampionIsBest(dist: Metric, pools: seq<seq<Route>>, populations: seq<seq<Route>>, g: nat)
      requires History(dist, pools, populations) && g < |pools|
      ensures forall h, r :: 0 <= h <= g && r in populations[h] ==> ChampionAt(pools, g).distance <= r.distance
    {
      forall h | 0 <= h < |pools| ensures forall r :: r in populations[h] ==> pools[h][0].distance <= r.distance {
        SlotZeroIsBest(dist, pools, populations, h);
      }
      ChampionBeatsPopulations(pools, populations, g);
    }

    /** `run`: the whole search. `stopAt` is the first generation at whose end the stop flag
        is seen set. Alongside the result come the events handed to the callback, how many
        generations ran, and the history of pools and populations. */
    method Run(dist: Metric, stopAt: nat, rng: Rand.Rng)
      returns (result: RunResult, ghost events: seq<Event>, ghost iterations: nat,
               ghost pools: seq<seq<Route>>, ghost populations: seq<seq<Route>>)
      modifies rng
      ensures result.ConfigAssertFailed? <==> !ConfigValid()
      ensures result.ConfigAssertFailed? ==> events == []
      ensures ConfigValid() && |locations| <= 2 ==>
                result == Returned(NewRoute(dist, locations)) &&
                events == [Started, NewChampion(NewRoute(dist, locations))]
      ensures ConfigValid() && Distinct(locations) ==> result.Returned?
      ensures result.Returned? ==> WellFormed(dist, result.champion)
      ensures result.Returned? && Distinct(locations) ==>
                multiset(result.champion.locations) == multiset(locations)
      ensures ConfigValid() && |locations| > 2 ==>
                && History(dist, pools, populations) && 1 <= iterations <= |pools|
                && (forall g :: 1 <= g < iterations ==> !StopCondition(g, g - LastImprovementAt(pools, g), stopAt))
      ensures result.Returned? && |locations| > 2 ==>
                && |pools| == iterations + 1
                && result.champion == ChampionAt(pools, iterations)
                && StopsWhenDue(iterations, LastImprovementAt(pools, iterations), stopAt)
                && events == [Started] + ChampionEvents(pools, iterations) + [Finished]
                && ChampionTrace(events[..|events| - 1], result.champion)
                && (forall g, r :: 0 <= g < |populations| && r in populations[g] ==>
                      result.champion.distance <= r.distance)
                && result.champion.distance == pools[iterations][0].distance
      ensures result.Panicked? ==>
                && |locations| > 2 && |pools| == iterations
                && events == [Started] + ChampionEvents(pools, iterations - 1)
                && ChampionTrace(events, ChampionAt(pools, iterations - 1))
    {
      events, iterations, pools, populations := [], 0, [], [];
      if !ConfigValid() {
        return ConfigAssertFailed, events, iterations, pools, populations;
      }

      events := events + [Started];

      if |locations| <= 2 {
        var only := NewRoute(dist, locations);
        events := events + [NewChampion(only)];
        return Returned(only), events, iterations, pools, populations;
      }

      result, events, iterations, pools, populations := Evolve(dist, stopAt, rng, events);
      Conclude(dist, stopAt, result, events, iterations, pools, populations);
    }

    /** What the genetic part's outcome means for the caller of `run`: a returned champion
        is the best route of every generation, was announced last before `Finished`, and
        came when the check first held; a panic leaves the events of the last champion. */
    lemma Conclude(dist: Metric, stopAt: nat, result: RunResult, events: seq<Event>, iterations: nat,
                   pools: seq<seq<Route>>, populations: seq<seq<Route>>)
      requires Outcome(dist, stopAt, result, events, iterations, pools, populations)
      ensures result.Returned? ==>
                && StopsWhenDue(iterations, LastImprovementAt(pools, iterations), stopAt)
                && ChampionTrace(events[..|events| - 1], result.champion)
                && (forall g, r :: 0 <= g < |populations| && r in populations[g] ==>
                      result.champion.distance <= r.distance)
                && result.champion.distance == pools[iterations][0].distance
      ensures result.Panicked? ==> ChampionTrace(events, ChampionAt(pools, iterations - 1))
    {
      if result.Returned? {
        ConcludeReturned(dist, stopAt, result.champion, events, iterations, pools, populations);
      } else if result.Panicked? {
        ChampionEventsTrace(pools, iterations - 1);
      }
    }

    /** The returned case of `Conclude`. */
    lemma ConcludeReturned(dist: Metric, stopAt: nat, champion: Route, events: seq<Event>, iterations: nat,
                           pools: seq<seq<Route>>, populations: seq<seq<Route>>)
      requires History(dist, pools, populations) && 1 <= iterations && |pools| == iterations + 1
      requires forall g :: 1 <= g < iterations ==> !StopCondition(g, g - LastImprovementAt(pools, g), stopAt)
      requires StopCondition(iterations, iterations - LastImprovementAt(pools, iterations), stopAt)
      requires champion == ChampionAt(pools, iterations)
      requires events == [Started] + ChampionEvents(pools, iterations) + [Finished]
      ensures StopsWhenDue(iterations, LastImprovementAt(pools, iterations), stopAt)
      ensures ChampionTrace(events[..|events| - 1], champion)
      ensures forall g, r :: 0 <= g < |populations| && r in populations[g] ==> champion.distance <= r.distance
      ensures champion.distance == pools[iterations][0].distance
    {
      ChampionIsSlotZero(dist, pools, populations, iterations);
      ChampionEventsTrace(pools, iterations);
      assert events[..|events| - 1] == [Started] + ChampionEvents(pools, iterations);
      ChampionIsBest(dist, pools, populations, iterations);
      StopIsPrompt(pools, iterations, stopAt);
    }

    /** The loop ran for `iterations` generations and ended at one whose end-of-generation
        check held: the check holds then, and none of the three limits was passed by more
        than the one generation the loop always runs. */
    ghost predicate StopsWhenDue(iterations: nat, lastImprovement: nat, stopAt: nat)
    {
      && 1 <= iterations && lastImprovement <= iterations
      && StopCondition(iterations, iterations - lastImprovement, stopAt)
      && iterations <= AtLeastOne(stopAt)
      && (maxIterations.Some? ==> iterations <= AtLeastOne(maxIterations.value))
      && (assumeConvergence.Some? ==> iterations - lastImprovement <= AtLeastOne(assumeConvergence.value))
    }

    /** A loop that stops at the first generation whose check holds passes no limit by more
        than the one generation it always runs. */
    lemma StopIsPrompt(pools: seq<seq<Route>>, iterations: nat, stopAt: nat)
      requires PoolsShaped(pools) && 1 <= iterations < |pools|
      requires forall g :: 1 <= g < iterations ==> !StopCondition(g, g - LastImprovementAt(pools, g), stopAt)
      requires StopCondition(iterations, iterations - LastImprovementAt(pools, iterations), stopAt)
      ensures StopsWhenDue(iterations, LastImprovementAt(pools, iterations), stopAt)
    {
      if iterations > 1 {
        var previous := iterations - 1;
        assert !StopCondition(previous, previous - LastImprovementAt(pools, previous), stopAt);
      }
    }

    /** The first three steps of `run` for three locations or more: a random population,
        a pool seeded with its first five routes, and the first selection. */
    method InitialMatingPool(dist: Metric, rng: Rand.Rng) returns (population: seq<Route>, pool: array<Route>)
      requires populationSize > MatingPoolSize
      modifies rng
      ensures fresh(pool) && pool.Length == MatingPoolSize && |population| == populationSize
      ensures AllWellFormed(dist, population) && AllPermutations(population, locations)
      ensures Selected(population[..MatingPoolSize], population, pool[..])
      ensures AllWellFormed(dist, pool[..]) && AllPermutations(pool[..], locations)
    {
      population := InitialRandomPopulation(dist, rng);
      pool := AllocateMatingPool(population);
      ghost var seeded := pool[..];
      assert forall r :: r in seeded ==> r in population;
      SelectMatingPool(population, pool, rng);
      SelectionKeepsRoutes(dist, locations, seeded, population, pool[..]);
    }

    /** The two steps at the start of each pass of the `run` loop: the next generation is
        bred from the pool, and the pool is selected anew from it. */
    method Generation(dist: Metric, pool: array<Route>, rng: Rand.Rng) returns (population: seq<Route>, ok: bool)
      requires pool.Length == MatingPoolSize && populationSize > MatingPoolSize
      modifies pool, rng
      ensures ok ==> Bred(dist, old(pool[..]), population) && Selected(old(pool[..]), population, pool[..])
      ensures ok && AllWellFormed(dist, old(pool[..])) ==> AllWellFormed(dist, pool[..])
      ensures Distinct(locations) && |locations| >= 2 && AllPermutations(old(pool[..]), locations) ==>
                ok && AllPermutations(pool[..], locations)
    {
      ghost var children;
      population, ok, children := NextGeneration(dist, pool, rng);
      if !ok {
        return;
      }
      ghost var parents := pool[..];
      forall k | 0 <= k < populationSize - MatingPoolSize ensures MutatedChild(dist, parents, population[k]) {
        assert IsChildOf(dist, children[k], parents) && MutationOf(dist, children[k], population[k], parents[3].distance);
      }
      SelectMatingPool(population, pool, rng);
      SelectionKeepsRoutes(dist, locations, parents, population, pool[..]);
    }

    /** The end-of-generation check failed at every generation before `iteration`. */
    ghost predicate NotStopped(stopAt: nat, pools: seq<seq<Route>>, iteration: nat)
    {
      && PoolsShaped(pools) && iteration < |pools|
      && forall g :: 1 <= g < iteration ==> !StopCondition(g, g - LastImprovementAt(pools, g), stopAt)
    }

    /** A generation whose check failed extends the generations before it whose checks failed. */
    lemma KeepsRunning(stopAt: nat, pools: seq<seq<Route>>, longer: seq<seq<Route>>,
                       championIterations: nat, iteration: nat)
      requires NotStopped(stopAt, pools, iteration)
      requires championIterations == iteration - LastImprovementAt(pools, iteration)
      requires iteration > 0 ==> !StopCondition(iteration, championIterations, stopAt)
      requires PoolsShaped(longer) && |longer| == |pools| + 1 && pools == longer[..|pools|]
      ensures NotStopped(stopAt, longer, iteration + 1)
    {
      forall g | 1 <= g < iteration + 1 ensures !StopCondition(g, g - LastImprovementAt(longer, g), stopAt) {
        HistoryPrefix(pools, longer, g);
      }
    }

    /** The state of the `run` loop after `iteration` generations agrees with the history
        `pools`, `populations`: the pool is its last pool, the champion, the generations since
        its last improvement and the events are those the history determines, and the
        end-of-generation check failed at every earlier generation. */
    ghost predicate Tracking(dist: Metric, stopAt: nat, pools: seq<seq<Route>>, populations: seq<seq<Route>>,
                             pool: seq<Route>, champion: Route, championIterations: nat,
                             events: seq<Event>, iteration: nat)
    {
      && |pool| == MatingPoolSize
      && AllWellFormed(dist, pool) && WellFormed(dist, champion)
      && (Distinct(locations) ==> AllPermutations(pool, locations) &&
                                  multiset(champion.locations) == multiset(locations))
      && History(dist, pools, populations) && pools[|pools| - 1] == pool
      && ChampionTracked(pools, champion, championIterations, events, iteration)
      && NotStopped(stopAt, pools, iteration)
    }

    /** One pass of the `run` loop up to its end-of-generation check: the counters advance,
        a generation is bred and the pool selected anew, and the champion is replaced when
        the pool's slot 0 is strictly shorter. */
    method Pass(dist: Metric, stopAt: nat, pool: array<Route>, rng: Rand.Rng,
                champion: Route, championIterations: nat, iteration: nat,
                ghost pools: seq<seq<Route>>, ghost populations: seq<seq<Route>>, ghost events: seq<Event>)
      returns (ok: bool, nextChampion: Route, nextChampionIterations: nat, ghost nextPools: seq<seq<Route>>,
               ghost nextPopulations: seq<seq<Route>>, ghost nextEvents: seq<Event>)
      requires ConfigValid() && |locations| > 2
      requires Tracking(dist, stopAt, pools, populations, pool[..], champion, championIterations, events, iteration)
      requires iteration > 0 ==> !StopCondition(iteration, championIterations, stopAt)
      modifies pool, rng
      ensures Distinct(locations) ==> ok
      ensures ok ==> Tracking(dist, stopAt, nextPools, nextPopulations, pool[..], nextChampion,
                              nextChampionIterations, nextEvents, iteration + 1)
    {
      nextChampion, nextChampionIterations := champion, championIterations + 1;
      nextPools, nextPopulations, nextEvents := pools, populations, events;
      var population;
      population, ok := Generation(dist, pool, rng);
      if !ok {
        return;
      }
      HistoryExtends(dist, pools, populations, population, pool[..]);
      nextPools, nextPopulations := pools + [pool[..]], populations + [population];
      ChampionAdvances(pools, nextPools, champion, championIterations, events, iteration);
      KeepsRunning(stopAt, pools, nextPools, championIterations, iteration);
      if champion.distance > pool[0].distance {
        nextChampion := pool[0];
        nextChampionIterations := 0;
        nextEvents := events + [NewChampion(nextChampion)];
      }
    }

    /** How the genetic part of `run` ends, given the history `pools`, `populations` of the
        generations it completed: it never panics for distinct locations; every earlier
        generation's check failed; a returned champion is the history's champion, returned
        at the first generation whose check holds, after the champion events and `Finished`;
        a panic comes after the champion events of the completed generations. */
    ghost predicate Outcome(dist: Metric, stopAt: nat, result: RunResult, events: seq<Event>, iterations: nat,
                            pools: seq<seq<Route>>, populations: seq<seq<Route>>)
    {
      && !result.ConfigAssertFailed?
      && (Distinct(locations) ==> result.Returned?)
      && (result.Returned? ==> WellFormed(dist, result.champion))
      && (result.Returned? && Distinct(locations) ==>
            multiset(result.champion.locations) == multiset(locations))
      && History(dist, pools, populations) && 1 <= iterations <= |pools|
      && (forall g :: 1 <= g < iterations ==> !StopCondition(g, g - LastImprovementAt(pools, g), stopAt))
      && (result.Returned? ==>
            && |pools| == iterations + 1
            && result.champion == ChampionAt(pools, iterations)
            && StopCondition(iterations, iterations - LastImprovementAt(pools, iterations), stopAt)
            && events == [Started] + ChampionEvents(pools, iterations) + [Finished])
      && (result.Panicked? ==>
            |pools| == iterations && events == [Started] + ChampionEvents(pools, iterations - 1))
    }

    /** A loop whose check holds after generation `iteration` returns its champion. */
    lemma Finish(dist: Metric, stopAt: nat, pools: seq<seq<Route>>, populations: seq<seq<Route>>,
                 pool: seq<Route>, champion: Route, championIterations: nat, events: seq<Event>, iteration: nat)
      requires Tracking(dist, stopAt, pools, populations, pool, champion, championIterations, events, iteration)
      requires 1 <= iteration && StopCondition(iteration, championIterations, stopAt)
      ensures Outcome(dist, stopAt, Returned(champion), events + [Finished], iteration, pools, populations)
    {
    }

    /** A pass that panics in generation `iteration + 1` ends the run with the events so far. */
    lemma Abort(dist: Metric, stopAt: nat, pools: seq<seq<Route>>, populations: seq<seq<Route>>,
                pool: seq<Route>, champion: Route, championIterations: nat, events: seq<Event>, iteration: nat)
      requires Tracking(dist, stopAt, pools, populations, pool, champion, championIterations, events, iteration)
      requires iteration > 0 ==> !StopCondition(iteration, championIterations, stopAt)
      requires !Distinct(locations)
      ensures Outcome(dist, stopAt, Panicked, events, iteration + 1, pools, populations)
    {
      forall g | 1 <= g < iteration + 1 ensures !StopCondition(g, g - LastImprovementAt(pools, g), stopAt) {
      }
    }

    /** The genetic part of `run`, for three locations or more: the initial population and
        pool, then generations until the end-of-generation check holds. */
    method Evolve(dist: Metric, stopAt: nat, rng: Rand.Rng, ghost started: seq<Event>)
      returns (result: RunResult, ghost events: seq<Event>, ghost iterations: nat,
               ghost pools: seq<seq<Route>>, ghost populations: seq<seq<Route>>)
      requires ConfigValid() && |locations| > 2 && started == [Started]
      modifies rng
      ensures Outcome(dist, stopAt, result, events, iterations, pools, populations)
    {
      events, iterations := started, 0;
      var population, pool := InitialMatingPool(dist, rng);
      pools, populations := [pool[..]], [population];

      var champion := pool[0];
      var championIterations: nat := 0;
      events := events + [NewChampion(champion)];

      var iteration: nat := 0;
      while true
        invariant pool.Length == MatingPoolSize
        invariant Tracking(dist, stopAt, pools, populations, pool[..], champion, championIterations, events, iteration)
        invariant iteration > 0 ==> !StopCondition(iteration, championIterations, stopAt)
        decreases stopAt - iteration
      {
        var ok, nextChampion, nextChampionIterations;
        ghost var nextPools, nextPopulations, nextEvents;
        ghost var before := pool[..];
        ok, nextChampion, nextChampionIterations, nextPools, nextPopulations, nextEvents :=
          Pass(dist, stopAt, pool, rng, champion, championIterations, iteration, pools, populations, events);
        if !ok {
          Abort(dist, stopAt, pools, populations, before, champion, championIterations, events, iteration);
          return Panicked, events, iteration + 1, pools, populations;
        }
        iteration := iteration + 1;
        champion, championIterations := nextChampion, nextChampionIterations;
        pools, populations, events := nextPools, nextPopulations, nextEvents;
        if StopCondition(iteration, championIterations, stopAt) {
          Finish(dist, stopAt, pools, populations, pool[..], champion, championIterations, events, iteration);
          return Returned(champion), events + [Finished], iteration, pools, populations;
        }
      }
    }
  }

  /** When every pool's slot 0 is no longer than the routes of its population, the
      champion after generation `g` is no longer than the routes of every population up to
      `g`. */
  lemma {:induction false} ChampionBeatsPopulations(pools: seq<seq<Route>>, populations: seq<seq<Route>>, g: nat)
    requires PoolsShaped(pools) && |populations| == |pools| && g < |pools|
    requires forall h, r :: 0 <= h < |pools| && r in populations[h] ==> pools[h][0].distance <= r.distance
    ensures forall h, r :: 0 <= h <= g && r in populations[h] ==> ChampionAt(pools, g).distance <= r.distance
    decreases g
  {
    if g > 0 {
      ChampionBeatsPopulations(pools, populations, g - 1);
      var champion, previous := ChampionAt(pools, g), ChampionAt(pools, g - 1);
      assert champion.distance <= previous.distance;
      forall h, r | 0 <= h <= g && r in populations[h] ensures champion.distance <= r.distance {
        if h < g {
          assert previous.distance <= r.distance;
        }
      }
    }
  }

  /** The champion, the generations since its last improvement and the events after
      generation `iteration` are those the history of pools determines. */
  ghost predicate ChampionTracked(pools: seq<seq<Route>>, champion: Route, championIterations: nat,
                                  events: seq<Event>, iteration: nat)
  {
    && PoolsShaped(pools) && |pools| == iteration + 1
    && champion == ChampionAt(pools, iteration)
    && championIterations == iteration - LastImprovementAt(pools, iteration)
    && events == [Started] + ChampionEvents(pools, iteration)
  }

  /** The loop's update of the champion after a generation is the history's: a strictly
      shorter slot 0 of the new pool becomes the champion, resets the count of generations
      without improvement and is announced; otherwise the count grows by one. */
  lemma ChampionAdvances(pools: seq<seq<Route>>, longer: seq<seq<Route>>, champion: Route,
                         championIterations: nat, events: seq<Event>, iteration: nat)
    requires ChampionTracked(pools, champion, championIterations, events, iteration)
    requires PoolsShaped(longer) && |longer| == |pools| + 1 && pools == longer[..|pools|]
    ensures var best := longer[iteration + 1][0];
            if champion.distance > best.distance then
              ChampionTracked(longer, best, 0, events + [NewChampion(best)], iteration + 1)
            else
              ChampionTracked(longer, champion, championIterations + 1, events, iteration + 1)
  {
    Advance(pools, longer, iteration + 1);
  }

  /** A generation appended to a history: the earlier generations keep their champions,
      improvements and events, and the new one replaces the champion exactly when its pool's
      slot 0 is strictly shorter. */
  lemma Advance(pools: seq<seq<Route>>, longer: seq<seq<Route>>, g: nat)
    requires 1 <= g == |pools| && |longer| == g + 1 && pools == longer[..g]
    requires PoolsShaped(pools) && PoolsShaped(longer)
    ensures Improved(longer, g) <==> longer[g][0].distance < ChampionAt(pools, g - 1).distance
    ensures Improved(longer, g) ==>
              && ChampionAt(longer, g) == longer[g][0] && LastImprovementAt(longer, g) == g
              && ChampionEvents(longer, g) == ChampionEvents(pools, g - 1) + [NewChampion(longer[g][0])]
    ensures !Improved(longer, g) ==>
              && ChampionAt(longer, g) == ChampionAt(pools, g - 1)
              && LastImprovementAt(longer, g) == LastImprovementAt(pools, g - 1)
              && ChampionEvents(longer, g) == ChampionEvents(pools, g - 1)
    ensures forall h :: 0 <= h < g ==> LastImprovementAt(longer, h) == LastImprovementAt(pools, h)
  {
    HistoryPrefix(pools, longer, g - 1);
    forall h | 0 <= h < g ensures LastImprovementAt(longer, h) == LastImprovementAt(pools, h) {
      HistoryPrefix(pools, longer, h);
    }
  }

  /** `Simulation::new`: a population of 100, at most 100000 generations, and convergence
      assumed after 25000 generations without a shorter champion. The defaults pass both
      configuration asserts of `run`. */
  function NewSimulation(locations: seq<Location>): (s: Simulation)
    ensures s.locations == locations && s.ConfigValid()
    ensures s.maxIterations.Some? && s.assumeConvergence.Some?
  {
    Simulation(locations, 100, Some(100_000), Some(25_000))
  }

  /** The scenario of two locations: whatever the random draws and the stop flag, the
      default simulation returns the route through both in the given order, whose length is
      the one distance between them, after the events `Started` and `NewChampion`. */
  method SimulateTwoLocations(dist: Metric, a: Location, b: Location, tape: nat -> nat, stopAt: nat)
    returns (solution: RunResult, ghost events: seq<Event>)
    ensures solution == Returned(Route([a, b], dist(a, b)))
    ensures events == [Started, NewChampion(Route([a, b], dist(a, b)))]
  {
    var simulation := NewSimulation([a, b]);
    var rng := new Rand.Rng(tape);
    ghost var iterations, pools, populations;
    solution, events, iterations, pools, populations := simulation.Run(dist, stopAt, rng);
    assert PathLength(dist, [a, b]) == dist(a, b) by {
      assert [a, b][1..] == [b];
    }
  }
}

# tsp-sim agent: a Dafny model of the genetic search

This project models the genetic-algorithm engine of the `tsp-sim-agent` crate. The engine
searches for a short open path through a set of named locations. A `Simulation` keeps a
population of routes, each one an ordering of the locations with its cached path length.
Each generation it:

- breeds children from a five-slot mating pool by an order-preserving crossover;
- swaps two positions in every child that is worse than the pool's fourth slot;
- selects a new pool: an elite of four, then one random population route.

The best `pool[0]` seen so far is the champion. The loop stops when a stop flag is seen,
when the iteration limit is reached, or when the champion has not improved for a given
number of generations.

The modules follow the source:

- `Rand` is the random generator: `gen_range` and the Fisher–Yates `shuffle`. Every draw
  is read from a tape the caller chooses, so each model run is one possible draw sequence.
- `Routes` holds `Location`, `Route`, `locations_distance` and `Route::new`.
- `Mating` holds `mate`.
- `Selection` holds `allocate_mating_pool` and `select_mating_pool`.
- `Agent` holds `Simulation` and its `run` loop, with `crossover`, `mutate` and
  `next_generation`.

The mating pool is an `array` updated in place. The population is a sequence of route values.

What is proved about the engine:

- **Path lengths.**
  - A route always caches the length of its own path.
  - That length is a sum over consecutive locations, with no closing edge.
  - It is 0 for fewer than two locations.
- **Crossover.**
  - The DNA slice stays inside the first parent, has at least `adj >= 1` locations and
    fewer than `length / 2 + adj`.
  - When both parents order the same distinct locations, the child orders exactly those
    locations.
  - The slice appears in the child as one block, where its first location stands in the
    second parent.
  - Every other location keeps the second parent's order.
- **Selection.**
  - Slot 0 ends no longer than any population route and no longer than it was.
  - Slots 0 to 3 stay ascending if they were ascending before.
  - Slot 4 is either left alone or replaced by a population route not already in the pool,
    after at most ten draws.
- **Reproduction.**
  - The next population has exactly `population_size` routes: the mutated children, then
    the pool unchanged.
  - Mutation swaps two positions only in routes longer than the threshold, and recomputes
    their length.
- **History of a run.** `run` hands back, as ghost values, the pool selected at every
  generation and the population it was selected over. Generation 0 is the first selection
  over the random initial population. Every later population is bred from the previous
  pool: its first `population_size - 5` routes are mutated offspring of pool routes, and
  the pool follows unchanged.
- **`run`.**
  - The configuration asserts fail exactly when the configuration is invalid.
  - Two locations or fewer give back the locations in input order.
  - The champion returned is the history's champion: slot 0 of the first pool, replaced
    by each later slot 0 that is strictly shorter. It is no longer than any route of any
    population bred during the run, and exactly as long as slot 0 of the last pool.
  - The events are `Started`, one `NewChampion` for the first champion and for each
    improvement, in strictly decreasing distance, then `Finished`.
  - The end-of-generation check failed at every generation before the last and holds at
    the last, where the generations since the last improvement are counted from the
    history. So no limit is passed by more than the one generation the loop always runs.
  - For distinct locations, the run never panics and returns an ordering of exactly those
    locations.

Where the code and the crate's description disagree, the model follows the code:

- **The elite is not always sorted.** The pool is seeded with the population's first five
  routes in population order. An unsorted seed can leave slots 0 to 3 out of order, and
  can leave one route in two slots. `Selection.UnorderedSeedExample` shows this.
- **Two locations or fewer end without `Finished`.** `run` returns straight after
  `Started` and `NewChampion`.
- **There is no per-generation `Iteration` event.** `NewChampion` carries only the route.
- **Nothing stops a route from filling two pool slots.** The random slot-4 draw skips
  routes already in the pool, but the elite scan does not.
- **Repeated input locations can make a run panic.** Nothing checks the input for
  repeats. With a repeat, a crossover child can be shorter than the location list, and
  `mutate` can then index past its end. The model returns `Panicked` for this. The
  no-panic guarantee of `Agent.Simulation.Run` is therefore stated for distinct locations.

## Model

| member | source | states |
|---|---|---|
| `Rand.Rng.GenRange` | tsp-sim-agent/src/lib.rs:196-198 | a draw for a non-empty half-open range lies in that range and consumes one draw; the range must not be empty because the generator panics on one |
| `Rand.Rng.Shuffle` | tsp-sim-agent/src/lib.rs:43 | the shuffled array is a permutation of the array before |
| `Routes.PathLengthNonNegative` | tsp-sim-agent/src/lib.rs:48-55 | the length of an open path is never negative |
| `Routes.FoldWindows` | tsp-sim-agent/src/lib.rs:49-54 | the fold over windows of two, from window `i` with accumulator `acc`, is `acc` plus the length of the path from location `i` on |
| `Routes.LocationsDistance` | tsp-sim-agent/src/lib.rs:48-55 | `locations_distance` is the sum of the distances between consecutive locations, with no closing edge; it is non-negative, and 0 for fewer than two locations |
| `Routes.NewRoute` | tsp-sim-agent/src/lib.rs:31-37 | the route keeps the given order and caches exactly the length of its path |
| `Routes.Randomized` | tsp-sim-agent/src/lib.rs:39-45 | a randomized route is well formed and is a permutation of the given locations |
| `Mating.SliceSizeAdjustment` | tsp-sim-agent/src/lib.rs:191-195 | the minimum slice size is 1 for routes of up to 4 locations, 3 for 11 or more, and always between 1 and 3 |
| `Mating.DnaSliceEnd` | tsp-sim-agent/src/lib.rs:196-200 | for draws in their ranges, the slice starts before `length - adj`, ends at or before `length`, holds at least `adj >= 1` locations and fewer than `length / 2 + adj` |
| `Mating.Recombine` | tsp-sim-agent/src/lib.rs:202-212 | the child of the walk over the second parent is no longer than the second parent plus, while the slice is still to be emitted, the slice |
| `Mating.RecombineDrawsFrom` | tsp-sim-agent/src/lib.rs:202-212 | every second-parent location outside the slice is kept, and every location of the child comes from the second parent or the slice |
| `Mating.Splice` | tsp-sim-agent/src/lib.rs:202-212 | the push loop with the `recombined` flag builds exactly the recombination of the second parent with the slice |
| `Mating.Mate` | tsp-sim-agent/src/lib.rs:185-214 | mate panics exactly when the first parent has at most one location; otherwise the slice is in range (start, at least `adj` and fewer than `length / 2 + adj` locations) and the child is the new route of the recombination |
| `Mating.RecombineKeepsOrderOfOthers` | tsp-sim-agent/src/lib.rs:202-212 | the locations outside the slice keep the second parent's relative order in the child |
| `Mating.RecombineAtFirstElement` | tsp-sim-agent/src/lib.rs:202-212 | when the slice's first location first occurs at `p`, the child is the other locations before `p`, the whole slice, then the other locations after `p` |
| `Mating.MateSplicesSlice` | tsp-sim-agent/src/lib.rs:202-213 | for parents ordering the same distinct locations, the slice appears as one block where its first location stands in the second parent |
| `Mating.MateIsPermutation` | tsp-sim-agent/src/lib.rs:202-213 | for parents ordering the same distinct locations, the child has the same length and holds each location exactly once |
| `Selection.InsertElite` | tsp-sim-agent/src/lib.rs:251-265 | one elite insertion keeps five slots and never touches slot 4 |
| `Selection.ScanElite` | tsp-sim-agent/src/lib.rs:250-266 | the scan over the whole population keeps five slots and never touches slot 4 |
| `Selection.AllocateMatingPool` | tsp-sim-agent/src/lib.rs:235-245 | the new pool is the population's first five routes, in order |
| `Selection.SelectMatingPool` | tsp-sim-agent/src/lib.rs:247-277 | slots 0 to 3 end as the in-place swap scan leaves them; slot 4 is either unchanged or a population route that was not in the pool after the scan; the random step takes between one and ten draws |
| `Selection.ScanEliteKeepsBest` | tsp-sim-agent/src/lib.rs:250-266 | after the scan, slot 0 is no longer than on entry and no longer than any population route |
| `Selection.ScanEliteKeepsAscending` | tsp-sim-agent/src/lib.rs:250-266 | an ascending elite stays ascending, because an insertion at k shifts k..3 right and drops the old slot 3 |
| `Selection.ScanEliteDrawsFrom` | tsp-sim-agent/src/lib.rs:250-266 | the scan fills slots 0 to 3 only with old elite routes or population routes |
| `Selection.UnorderedSeedExample` | tsp-sim-agent/src/lib.rs:107-109 | seeded with the first five population routes, the scan can leave the elite unsorted and holding one route twice |
| `Agent.ChildrenGrow` | tsp-sim-agent/src/lib.rs:170-175 | a child that `mate` made from two pool routes is an offspring of the pool |
| `Agent.Swap` | tsp-sim-agent/src/lib.rs:229 | exchanging two positions keeps the length and the other positions, and is a permutation |
| `Agent.ChampionTraceExtends` | tsp-sim-agent/src/lib.rs:123-127 | recording a strictly shorter champion extends a trace of strictly decreasing champions |
| `Agent.SelectionDrawsFrom` | tsp-sim-agent/src/lib.rs:247-277 | every route in the pool after selection was in the old pool or is a population route |
| `Agent.SelectionKeepsRoutes` | tsp-sim-agent/src/lib.rs:247-277 | selection keeps the pool well formed and made of orderings of the locations, when the old pool and the population are |
| `Agent.ChampionAt` | tsp-sim-agent/src/lib.rs:111-127 | the champion after a generation is never longer than that generation's slot 0 |
| `Agent.LastImprovementAt` | tsp-sim-agent/src/lib.rs:112-125 | the last generation that improved the champion: the champion has not changed since, and no later generation improved it |
| `Agent.ChampionEventsTrace` | tsp-sim-agent/src/lib.rs:113-127 | the champion events of a history are a trace of strictly shorter champions that ends with the current champion |
| `Agent.PoolsShapedExtends` | tsp-sim-agent/src/lib.rs:122 | a five-slot pool extends a history of five-slot pools |
| `Agent.HistoryPrefix` | tsp-sim-agent/src/lib.rs:118-127 | later generations do not change the champion, last improvement or events of earlier ones |
| `Agent.ChampionBeatsPopulations` | tsp-sim-agent/src/lib.rs:123-127 | when every slot 0 beats its population, the champion beats every population up to then |
| `Agent.ChampionAdvances` | tsp-sim-agent/src/lib.rs:119-127 | the loop's champion update (replace on strictly shorter slot 0, reset or bump the count, announce) is the history's champion, last improvement and events one generation on |
| `Agent.Advance` | tsp-sim-agent/src/lib.rs:123-127 | a generation improves exactly when its slot 0 is strictly shorter than the champion; then it becomes champion and the last improvement, otherwise both stay |
| `Agent.Simulation.StopConditionMonotone` | tsp-sim-agent/src/lib.rs:128-130 | once the end-of-generation check holds it holds for every later generation with at least as many generations without improvement |
| `Agent.Simulation.InitialRandomPopulation` | tsp-sim-agent/src/lib.rs:140-146 | `population_size` well-formed random orderings of the locations |
| `Agent.Simulation.Crossover` | tsp-sim-agent/src/lib.rs:165-183 | unless a mate panics, exactly `population_size - 5` children are bred, each a well-formed offspring of two pool routes; for distinct locations no mate panics and every child orders exactly the locations |
| `Agent.Simulation.Mutate` | tsp-sim-agent/src/lib.rs:216-233 | a route longer than pool slot 3 gets two positions swapped and its length recomputed; every other route is untouched; the step cannot panic when every route is as long as the non-empty location list |
| `Agent.Simulation.NextGeneration` | tsp-sim-agent/src/lib.rs:148-163 | the new population has `population_size` routes: the mutated children of the pool, then the pool unchanged and in order; it stays well formed, and for distinct locations it holds only orderings of them |
| `Agent.Simulation.HistoryExtends` | tsp-sim-agent/src/lib.rs:121-122 | a population bred from the last pool and the pool selected over it extend a history |
| `Agent.Simulation.SlotZeroIsBest` | tsp-sim-agent/src/lib.rs:122 | slot 0 of every pool of a history is no longer than any route of the population it was selected over |
| `Agent.Simulation.ChampionIsSlotZero` | tsp-sim-agent/src/lib.rs:121-127 | the champion is exactly as long as the current slot 0, because selection never lets slot 0 grow |
| `Agent.Simulation.ChampionIsBest` | tsp-sim-agent/src/lib.rs:107-127 | the champion after a generation is no longer than any route of any population bred up to then |
| `Agent.Simulation.InitialMatingPool` | tsp-sim-agent/src/lib.rs:107-109 | the first population is `population_size` well-formed orderings of the locations, and the first pool is the selection over it of a pool seeded with its first five routes |
| `Agent.Simulation.Generation` | tsp-sim-agent/src/lib.rs:121-122 | the new population is bred from the old pool (mutated offspring of pool routes, then the pool) and the new pool is selected over it; it stays well formed, and for distinct locations no panic occurs and it stays made of orderings of them |
| `Agent.Simulation.KeepsRunning` | tsp-sim-agent/src/lib.rs:128-133 | a generation whose check failed extends the run of generations whose checks failed |
| `Agent.Simulation.Pass` | tsp-sim-agent/src/lib.rs:118-127 | one pass of the loop extends the history by one generation and keeps the loop's pool, champion, count and events equal to the history's; for distinct locations it cannot panic |
| `Agent.Simulation.Finish` | tsp-sim-agent/src/lib.rs:128-137 | a loop whose check holds returns the history's champion after its events and `Finished` |
| `Agent.Simulation.Abort` | tsp-sim-agent/src/lib.rs:119-122 | a pass that panics ends the run with the events of the generations completed |
| `Agent.Simulation.Evolve` | tsp-sim-agent/src/lib.rs:105-137 | the genetic part of `run`: the returned champion is the history's champion at the first generation whose check holds, after its champion events and `Finished`; every earlier check failed; for distinct locations it orders exactly the locations and nothing panics |
| `Agent.Simulation.Conclude` | tsp-sim-agent/src/lib.rs:111-137 | a returned champion stopped promptly, is the last of a trace of strictly shorter champions, beats every population and ties with the last slot 0; a panic leaves a trace ending with the history's champion |
| `Agent.Simulation.ConcludeReturned` | tsp-sim-agent/src/lib.rs:111-137 | the returned case of `Conclude` |
| `Agent.Simulation.StopIsPrompt` | tsp-sim-agent/src/lib.rs:128-133 | a loop that stops at the first generation whose check holds passes no limit by more than the one generation it always runs |
| `Agent.Simulation.Run` | tsp-sim-agent/src/lib.rs:86-138 | the asserts fail exactly for an invalid configuration, with no event; two locations or fewer return the input order after `Started` and `NewChampion`; otherwise the run follows a history of pools and populations, stops at the first generation whose check holds, returns that history's champion, which is no longer than any route of any population, after the champion events and `Finished`; for distinct locations the run returns a well-formed ordering of exactly the locations |
| `Agent.NewSimulation` | tsp-sim-agent/src/lib.rs:77-84 | the default configuration passes both configuration asserts of `run` |
| `Agent.SimulateTwoLocations` | tsp-sim-agent/src/lib.rs:287-304 | with two locations, the default simulation returns them in input order with their one distance as length, whatever the draws and the stop flag |

## Left out

- The Euclidean formula of `Location::distance` (lib.rs:17-21). Distances are an arbitrary
  non-negative function on locations, passed in as a parameter.
- Floating-point arithmetic is not modelled. Lengths are exact reals, so rounding in the
  fold and NaN comparisons are not represented.
- The internals of `thread_rng`, and the distribution of its draws. Draws come from an
  arbitrary tape of naturals, reduced into the requested range.
- The `Arc<AtomicBool>` stop flag is not modelled as shared state. It becomes `stopAt`, the
  first generation at whose end the flag is seen set. So a run with no iteration limit,
  no convergence limit and a flag that is never set does not occur in the model: it would
  run forever in the source.
- The event callback is not modelled as a call. Its events are a ghost sequence returned
  by `run`.
- `Agent.Simulation.Run` splits the body of `run` into `InitialMatingPool`, `Evolve`,
  and, inside the loop, `Pass` and `Generation`. The steps are the same and in the same
  order.
- `Agent.Simulation.Mutate` builds a new sequence of routes instead of swapping inside the
  routes of the vector in place. Likewise, `crossover` and `next_generation` return the
  population instead of clearing and refilling a vector. Aliasing of the vector is not
  modelled.
- `Agent.Simulation.Crossover`: for repeated locations, the model does not say exactly
  which draws make `mate` panic. It states only that children are offspring of pool routes
  and when no panic can happen.
- `Agent.Simulation.Mutate`: states a sufficient condition for not panicking, not an exact
  one.
- `usize` width is not modelled. Iteration counters are unbounded. In `mate`,
  `length - slice_size_adjustment` underflows for an empty parent. A debug build panics on
  the subtraction; a release build panics on the slice or the empty range after it. Both
  are the model's `None`.
- `Selection.SelectMatingPool`: when slot 4 stays unchanged, the model does not state
  that all ten draws hit pool routes.
- The `debug_assert_eq!` on the pool length is not modelled separately. The pool is always
  a five-slot array.
- The `Serialize`, `Deserialize` and `Debug` derives are not modelled.
- tsp-sim-gui/src/main.rs (user interface, channels, threads, file parsing) and
  tsp-sim-agent-parallel/src/lib.rs (a wrapper around an API not shown) are not part of
  this model.

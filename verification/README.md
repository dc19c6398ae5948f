# Aeon World simulation core in Dafny

This project models the simulation core of the Aeon World website and proves properties about it. Aeon World is a browser toy in which herbivores, predators and tribal villagers live on a procedurally generated valley. The model covers the following parts:

- **Random numbers** (`rng.dfy`): the seeded Park–Miller generator that every random choice goes through. It is passed explicitly instead of living in a module-level singleton.
- **Entity-component store** (`components.dfy`, `world.dfy`): the component records and species templates, and the `ECSWorld` class. The class holds an ordered entity list and one table per component type. Its operations are create, remove, add/remove/get component, query, snapshot iteration, statistics, serialize/deserialize and initial population.
- **Tick systems** (`hunger.dfy`, `wander.dfy`, `aging.dfy`, with the shared sweep bookkeeping in `sweep.dfy` and births/deaths in `newborns.dfy`): the per-entity state machines a tick runs in order. Two behaviours are kept as the source has them:
  - the feeding step reads a component the iteration does not hand it, so the tick is aborted;
  - the reproduction step can never find a mate.
- **Terrain** (`heightmap.dfy`, `biomes.dfy`): hash noise, smoothed and fractal noise, the terrain features, the normalised heightmap, the biome classification, the biome tables and the position-to-biome sampler.
- **Utilities** (`guards.dfy`, `time.dfy`, `js.dfy`, `js_map.dfy`): the type guards, clamp and lerp, the UUID template, the pausable simulation clock and its formatters, and the pieces of the JavaScript runtime the code relies on. Those pieces are `%`, `slice`, `toString`, `padStart`, `toLowerCase`, division that may hit zero, and the insertion-ordered `Map`.
- **State** (`sim_store.dfy`, `mock_adapter.dfy`, `api_types.dfy`):
  - the simulation store, with its bounded event log, its entity map and its reducers;
  - the in-memory mock API back end, with sessions, profiles, worlds, entity and event queries, snapshots and adoptions.
- **Simulation hook** (`simulation.dfy`): one tick of the three systems, followed by the projection of the world into the store and the metrics update.

Random draws are inputs in [0, 1): either calls on the explicit generator or parameters. Clock readings (`Date.now()`, ISO timestamps) are parameters. `Math.sin`, `Math.cos`, `Math.sqrt` and `Math.pow` form an uninterpreted oracle (`Js.MathLib`); only the facts the code needs are assumed of it, namely the range of sine and cosine and the square root of a square. Numbers are mathematical reals and integers.

## Model

| member | source | states |
|---|---|---|
| Rng.JsRem | src/utils/rng.ts:6 | JavaScript's `%` on the seed: the remainder lies strictly between -(2^31-1) and 2^31-1 and takes the dividend's sign |
| Rng.Normalize | src/utils/rng.ts:5-8 | the state a seed is normalised to always lies in [0, 2^31-1) |
| Rng.Step | src/utils/rng.ts:12 | one step of the Lehmer recurrence keeps a non-negative state in [0, 2^31-1) |
| Rng.NormalizeRange | src/utils/rng.ts:5-8 | a seed normalises into the working range 1..2^31-2 exactly when its remainder is not -(2^31-2); those seeds give the stuck state 0; every non-negative seed is in range |
| Rng.MultiplierInvertible | src/utils/rng.ts:12 | 16807·s is a multiple of 2^31-1 only when s is: the multiplier is invertible modulo the prime |
| Rng.MultipleHasNoRemainder | src/utils/rng.ts:12 | a multiple of the modulus leaves remainder 0 |
| Rng.StepKeepsRange | src/utils/rng.ts:11-14 | from a state in range, `next()` never reaches 0 and stays in range |
| Rng.ZeroIsFixed | src/utils/rng.ts:11-14 | the state 0 is a fixed point, and from it `next()` returns a negative value |
| Rng.OutputInUnit | src/utils/rng.ts:13 | from a state in range, `next()` returns a value in [0, 1) |
| Rng.StreamInRange | src/utils/rng.ts:11-14 | every state and every output along a stream of `next()` calls started in range stays in range and in [0, 1) |
| Rng.StreamDeterminedByState | src/utils/rng.ts:11-14 | the k-th output of a stream is the output of the k-th state: the stream depends on the state alone |
| Rng.ScaleUnit | src/utils/rng.ts:18 | a unit-interval draw scaled by w lies in [0, w], strictly below w when w is positive |
| Rng.SeededRng.constructor | src/utils/rng.ts:5-8 | the state is the normalised seed; a non-negative seed starts in range |
| Rng.SeededRng.Next | src/utils/rng.ts:11-14 | the state takes one step and the result is its output; state 0 stays 0; from a state in range the output is in [0, 1) |
| Rng.SeededRng.NextInt | src/utils/rng.ts:17-19 | one step; the result is floor(next·(max-min))+min, which lies in [min, max) when min < max |
| Rng.SeededRng.NextFloat | src/utils/rng.ts:22-24 | one step; the result is next·(max-min)+min, in [min, max] and below max when min < max |
| Rng.SeededRng.NextBool | src/utils/rng.ts:27-29 | one step; true exactly when the output is below the probability: never for probability 0, always for probability 1 |
| Rng.SeededRng.NextElement | src/utils/rng.ts:32-34 | one step; nothing (`undefined`) for an empty array; otherwise, from a state in range, an element of the array |
| Rng.SeededRng.Reset | src/utils/rng.ts:37-42 | a given seed is normalised; without one a state in range is kept and the state 0 is lifted to 2^31-2 |
| Rng.RngFacade.constructor | src/utils/rng.ts:45-46 | the global generator is a fresh one seeded with the clock reading |
| Rng.RngFacade.SetSeed | src/utils/rng.ts:49-51 | `setSeed` replaces the global generator by a fresh one built from the seed |
| Guards.ValidPositions | src/utils/guards.ts:6-15 | every object with finite numeric `x` and `y` passes `isValidPosition`, also with extra properties; null, undefined and primitives fail; whatever passes has finite numbers at `x` and `y` |
| Guards.ValidEntityHasValidPosition | src/utils/guards.ts:17-32 | a value that passes `isValidEntity` has a valid position, and its `id` and `species` are strings, not numbers |
| Guards.Clamp | src/utils/guards.ts:34-36 | `clamp` lies in [min, max] when min ≤ max, is the identity inside the range, min below it, max above it, and max when the bounds are crossed |
| Guards.ClampIdempotent | src/utils/guards.ts:34-36 | clamping twice gives the same as clamping once |
| Guards.Lerp | src/utils/guards.ts:38-40 | the weight is clamped: t ≤ 0 gives a, t ≥ 1 gives b |
| Guards.LerpBetween | src/utils/guards.ts:38-40 | `lerp` never leaves the interval between its end points |
| Guards.ClampIntoBounds | src/utils/guards.ts:70-80 | clamping both coordinates puts a point in the box; a point is in the box exactly when clamping leaves it alone; both corners are in the box |
| Guards.HexDigit | src/utils/guards.ts:87 | `v.toString(16)` for a nibble is one lower-case hex digit |
| Guards.SlotDigit | src/utils/guards.ts:84-88 | an `x` slot becomes a hex digit; a `y` slot becomes one of 8, 9, a, b, the low two bits of the nibble with the high bit set |
| Guards.Replace | src/utils/guards.ts:84-88 | the template keeps its length and every non-slot character; `x` slots become hex digits and `y` slots one of 8, 9, a, b |
| Guards.UuidLayout | src/utils/guards.ts:83-89 | a generated id has 36 characters, dashes at 8, 13, 18 and 23, the version digit 4 at 14, a variant digit in 8..b at 19, and lower-case hex everywhere else |
| Guards.SafeArrayAccess | src/utils/guards.ts:92-94 | an element exactly when the index is a whole number in [0, length), and then the element at that index |
| Guards.SafeArrayAccessAtIndex | src/utils/guards.ts:92-94 | for an integer index the access succeeds exactly in range, returning the element there |
| Time.SimulationTime.constructor | src/utils/time.ts:2-13 | the day length is the argument; the clock starts now, unpaused, with no paused time |
| Time.SimulationTime.Pause | src/utils/time.ts:15-20 | afterwards paused; a first pause records the current time, a repeated pause keeps the earlier start; nothing else changes |
| Time.SimulationTime.Resume | src/utils/time.ts:22-28 | afterwards running; resuming a paused clock adds the pause's length to the paused total and clears the pause start; resuming a running clock changes nothing |
| Time.SimulationTime.Reset | src/utils/time.ts:30-35 | the clock restarts now, unpaused, with no paused time, keeps its day length, and reports 0 ms elapsed |
| Time.SimulationTime.SetDayLength | src/utils/time.ts:74-76 | only the day length changes |
| Time.SimulationTime.ElapsedMs | src/utils/time.ts:38-44 | while paused the elapsed time is frozen at the pause start; while running it is now minus start minus paused time |
| Time.SimulationTime.CurrentDay | src/utils/time.ts:47-49 | with a non-zero day length, the day is the elapsed time divided by the day length |
| Time.SimulationTime.TimeOfDay | src/utils/time.ts:52-55 | with a non-zero day length, the time of day is a finite number in [0, 1) |
| Time.SimulationTime.DisplayTime | src/utils/time.ts:58-66 | with a non-zero day length, the text is the display of the day clock for the current day |
| Time.PausedElapsedFrozen | src/utils/time.ts:38-44 | a paused clock reports the same elapsed time at any two moments |
| Time.SimulationTime.IsSimulationPaused | src/utils/time.ts:69-71 | the clock reports itself paused exactly when its elapsed time is the same at every clock reading |
| Time.SimulationTime.DayLength | src/utils/time.ts:79-81 | the day length is the number of elapsed milliseconds per simulated day: a non-zero length makes the current day elapsed time over it, and a zero length makes it non-finite |
| Time.RunningElapsedAdvances | src/utils/time.ts:38-44 | a running clock's elapsed time advances exactly as fast as the wall clock |
| Time.DayClock | src/utils/time.ts:59-63 | the day is the floor of the day count; hours ≤ 23, minutes ≤ 59, and hours·60+minutes is the number of whole minutes elapsed in the day |
| Time.RealRem | src/utils/time.ts:63 | JavaScript's `%` on non-negative reals: in [0, m), equal to x - floor(x/m)·m |
| Time.ScaleBelow | src/utils/time.ts:62-63 | multiplying by a positive factor keeps (strict) order |
| Time.MinuteOfHour | src/utils/time.ts:63 | `(timeOfDay·24·60) % 60` is the fraction of the current hour in minutes |
| Time.TwoDigits | src/utils/time.ts:65 | `toString().padStart(2, '0')` of a number below 100 is two digits that read back as the number |
| Time.DisplayLayout | src/utils/time.ts:65 | the display reads `Day `, a number, a space, two hour digits, a colon and two minute digits |
| Time.LargestUnit | src/utils/time.ts:85-95 | the unit is chosen by the thresholds of one day, one hour and one minute; the larger part is the whole seconds divided by that unit and the smaller part is the remainder in the next unit (hours < 24, minutes < 60, seconds < 60) |
| Time.LargestUnitRecombines | src/utils/time.ts:85-95 | the two reported parts recombine to the whole duration truncated to the smaller unit |
| Time.FormatDuration | src/utils/time.ts:85-95 | the text is exactly `<days>d <hours>h`, `<hours>h <minutes>m`, `<minutes>m <seconds>s` or `<seconds>s`, as the largest unit says, and ends in `h`, `m` or `s` accordingly |
| Time.AgoOf | src/utils/time.ts:97-107 | the age class is chosen by the thresholds 1 minute, 1 hour, 1 day and 1 week (both directions); an unparsable timestamp falls to the locale date; the count is the elapsed milliseconds divided by 60000, 3600000 or 86400000, so 1-59 minutes, 1-23 hours or 1-6 days |
| Time.FormatTimestamp | src/utils/time.ts:97-107 | the text is `just now`, the age count followed by `m ago`, `h ago` or `d ago`, or the locale date, as the age class says |
| Components.SquaredNorm | src/sim/ecs/systems/hunger.ts:115 | the squared distance from the origin is never negative |
| Components.AllTypesRegistered | src/sim/ecs/components.ts:60-74 | the registry lists all eleven component types, each once |
| Components.TypeNamed | src/sim/ecs/components.ts:60-74 | a property name is recognised only as the name of the type it returns |
| Components.TypeNameRoundTrip | src/sim/ecs/components.ts:60-74 | every component type's property name is recognised as that type: names identify types |
| Components.DefaultComponents | src/sim/ecs/components.ts:77-108 | the default arguments of the `create*` helpers: origin position, herbivore, hunger 0 at rate 0.01, age 0 of 1000 maturing at 100, full health, `Wandering` with no target or cooldown, no village, fertility 0.1, full energy using 0.005 |
| Components.TemplateFacts | src/sim/ecs/components.ts:111-152 | the template `Components.TemplateFor` picks for each species is well typed, within the value ranges, supplies the nine template components and no selection, has a village exactly for tribals, and starts a newborn at (x, y), age 0, hunger 0, full energy and health, no reproduction cooldown, maturity below lifespan, fertility in (0, 1] |
| Components.TemplateShape | src/sim/ecs/components.ts:111-152 | a template with in-range hunger, age and energy is well typed, in range, and supplies the template types without selection or village |
| Components.HerbivoreShape | src/sim/ecs/components.ts:111-123 | `Components.CreateHerbivore`, the herbivore template, has the newborn shape and no village |
| Components.PredatorShape | src/sim/ecs/components.ts:125-137 | `Components.CreatePredator`, the predator template, has the newborn shape and no village |
| Components.TribalShape | src/sim/ecs/components.ts:139-152 | `Components.CreateTribal`, the tribal template, has the newborn shape and a village |
| Components.VillageAdded | src/sim/ecs/components.ts:150 | adding the empty village keeps the shape and supplies a village |
| Components.HerbivoreValues | src/sim/ecs/components.ts:111-123 | `Components.CreateHerbivore`, the herbivore template, starts a newborn at (x, y) as a herbivore: at the origin altitude, age 0 with maturity below lifespan, hunger 0 with a positive rate, full energy and health, no reproduction cooldown, fertility in (0, 1], no village |
| Components.PredatorValues | src/sim/ecs/components.ts:125-137 | `Components.CreatePredator`, the predator template, starts a newborn at (x, y) as a predator: at the origin altitude, age 0 with maturity below lifespan, hunger 0 with a positive rate, full energy and health, no reproduction cooldown, fertility in (0, 1], no village |
| Components.TribalValues | src/sim/ecs/components.ts:139-152 | `Components.CreateTribal`, the tribal template, starts a newborn at (x, y) as a tribal: at the origin altitude, age 0 with maturity below lifespan, hunger 0 with a positive rate, full energy and health, no reproduction cooldown, fertility in (0, 1], the empty village |
| Ecs.EmptyTables | src/sim/ecs/world.ts:28-37 | storage starts with a table for every one of the eleven component types, each empty |
| Ecs.AddRowFacts | src/sim/ecs/world.ts:60-70 | giving `id` the components of a record sets exactly those entries of `id`; every other entity's entries and every unsupplied table stay as they were |
| Ecs.NewbornRowFacts | src/sim/ecs/world.ts:44-56 | an entity created from a species template holds every component the tick systems query, and in-range tables stay in range |
| Ecs.PositionAdded | src/sim/ecs/world.ts:44-56 | the entity stands at the position its template was given, inside the world box when that position is |
| Ecs.Without | src/sim/ecs/world.ts:80 | deleting from the entity set removes exactly that id, keeps the rest, and leaves a set without it unchanged |
| Ecs.WithoutDistinct | src/sim/ecs/world.ts:80 | deletion keeps ids distinct and shrinks the set by one when the id was present |
| Ecs.Holding | src/sim/ecs/world.ts:128-132 | an entity is kept by the query exactly when it holds every required type; the empty requirement keeps all |
| Ecs.HoldingDistinct | src/sim/ecs/world.ts:128-132 | a query over distinct entities returns distinct entities |
| Ecs.Dedup | src/sim/ecs/world.ts:248-252 | adding ids to a Set keeps exactly the ids given, each once |
| Ecs.DedupDistinct | src/sim/ecs/world.ts:248-252 | adding ids that are already distinct keeps them all, in order |
| Ecs.CountKindsSum | src/sim/ecs/world.ts:190-203 | every entity with a species is counted under exactly one of the three kinds |
| Ecs.MeanWithin | src/sim/ecs/world.ts:212-213 | the average of values in a range lies in that range |
| Ecs.AverageNonNegative | src/sim/ecs/world.ts:212-213 | the average of non-negative values, 0 for none, is non-negative |
| Ecs.TypedPart | src/sim/ecs/world.ts:255-263 | only entries of the table's own type are restored into it |
| Ecs.RestoredTables | src/sim/ecs/world.ts:241-265 | restored storage has a table for every type and each entry sits in the table of its own type |
| Ecs.NamesInjective | src/sim/ecs/world.ts:234-236 | distinct component types are written under distinct names |
| Ecs.SerializedFacts | src/sim/ecs/world.ts:228-239 | the serialized components object has each type's table under that type's name and no other key |
| Ecs.RoundTrip | src/sim/ecs/world.ts:228-265 | deserializing a serialized world gives back the same entity list and the same value for every (type, entity) |
| Ecs.TablesRoundTrip | src/sim/ecs/world.ts:234-263 | restoring the serialized components gives back every table |
| Ecs.World.constructor | src/sim/ecs/world.ts:22-26 | a new world holds 500 entities, each with every queried component, all values in range, all inside the world box when the generator draws in range |
| Ecs.World.EntityCount | src/sim/ecs/world.ts:87-89 | the entity count is the length of the unfiltered query |
| Ecs.World.AllEntities | src/sim/ecs/world.ts:91-93 | one entry per live entity, as many as the entity count, each once in a valid world |
| Ecs.LiveEntity | src/sim/ecs/world.ts:83-85 | an entity is live exactly when `getAllEntities` lists it, and exactly when the unfiltered query returns it |
| Ecs.HeldComponent | src/sim/ecs/world.ts:122-125 | an entity holds a type exactly when `getComponent` finds a record of it, and a live entity holds it exactly when the query for that type returns it |
| Ecs.World.GetComponent | src/sim/ecs/world.ts:114-120 | a component is returned exactly when the entity holds one of that type, and it is the stored one, of that type |
| Ecs.World.QueryEntities | src/sim/ecs/world.ts:128-132 | the query returns exactly the live entities holding every requested type, without repeats; with no types it returns all entities |
| Ecs.World.Materialize | src/sim/ecs/world.ts:153-171 | the record handed to the callback has exactly the requested types the entity holds, each the stored value |
| Ecs.World.GetEntityData | src/sim/ecs/world.ts:174-187 | an unknown id gives an empty record; a live one gives exactly the components it holds, each the stored value |
| Ecs.World.AddComponent | src/sim/ecs/world.ts:96-105 | for a live entity the (type, id) entry is set and nothing else changes; for an unknown id nothing changes |
| Ecs.World.Overwrite | src/sim/ecs/systems/hunger.ts:92-98 | a system writing back one component record changes only that entry and keeps values in range |
| Ecs.World.RemoveComponent | src/sim/ecs/world.ts:107-112 | exactly the (type, id) entry is deleted, whether or not the entity is live |
| Ecs.World.CreateEntity | src/sim/ecs/world.ts:60-70 | the new id is distinct from every id in the world, is appended to the entity set, and holds exactly the supplied components |
| Ecs.World.AddEntries | src/sim/ecs/world.ts:65-67 | the component loop of `createEntity` sets exactly the supplied entries |
| Ecs.World.RemoveEntity | src/sim/ecs/world.ts:72-81 | a live id leaves the entity set and every table and nothing else changes; an unknown id changes nothing |
| Ecs.World.PopulationBySpecies | src/sim/ecs/world.ts:190-203 | each of the three counts is the number of queried entities of that kind, and together they count every entity with a species |
| Ecs.World.AverageAge | src/sim/ecs/world.ts:205-214 | the result is the mean of the ages of the entities holding an age, 0 when there are none, and non-negative |
| Ecs.World.AverageHunger | src/sim/ecs/world.ts:216-225 | the result is the mean hunger of the entities holding a hunger, 0 when there are none, within [0, 1] |
| Ecs.World.Serialize | src/sim/ecs/world.ts:228-239 | the snapshot lists the entities in order and holds each type's table under its name |
| Ecs.World.Deserialize | src/sim/ecs/world.ts:241-265 | the world afterwards holds the snapshot's ids once each, in first-seen order, and the restored tables |
| Ecs.World.PopulateInitialEntities | src/sim/ecs/world.ts:39-57 | 500 fresh entities, each with every queried component and in-range values, inside the world box when the generator draws in range |
| Ecs.World.PlaceOne | src/sim/ecs/world.ts:44-56 | one iteration adds one fresh entity of the rolled species and leaves every other entity's components unchanged |
| Ecs.World.Reset | src/sim/ecs/world.ts:268-273 | after a reset the world holds 500 entities, all with ids never used before |
| Ecs.AddAll | src/sim/ecs/world.ts:248-252 | the Set-building loop produces the deduplicated id list |
| Ecs.RestoreTables | src/sim/ecs/world.ts:254-264 | the table-restoring loop builds exactly the restored tables |
| Ecs.FreshBound | src/sim/ecs/world.ts:241-265 | after a restore the id counter lies above every restored id, so later ids stay fresh |
| Ecs.World.Spawn | src/sim/ecs/world.ts:60-70 | creating an entity from a species template gives it a fresh id, adds exactly the template's row and supplies every type the three systems query |
| Sweeps.UndisturbedStep | src/sim/ecs/world.ts:153-171 | a callback that changed only its own entity and added only fresh entities leaves the entities the sweep has not reached, and those outside the snapshot, with the rows they had |
| Sweeps.EarlierIds | src/sim/ecs/world.ts:157-170 | the entities visited before the current one in the snapshot are distinct from it and older than any newborn |
| Newborns.SpawnNear | src/sim/ecs/systems/hunger.ts:55-76 | two draws give offsets within the radius; the newborn is a fresh entity of the dead one's species, from its template, at the offset position, holding every queried component |
| Newborns.Bury | src/sim/ecs/systems/hunger.ts:47-52 | the dead entity's last components are read back exactly and the entity leaves the entity set and every table |
| Newborns.HandleDeath | src/sim/ecs/systems/hunger.ts:45-78 | the entity is removed; a newborn appears exactly when the chance draw succeeds and the dead entity had both a position and a species, and it is then of that species within the radius of where the dead one stood; otherwise only the removal happens |
| Newborns.Perish | src/sim/ecs/systems/hunger.ts:45-78 | a death leaves every other existing entity's components and membership unchanged, and any entity it adds is fresh and holds every queried component |
| HungerSystem.GrowHunger | src/sim/ecs/systems/hunger.ts:12-13 | hunger grows by rate times elapsed time, capped at 1, never falls for a non-negative rate, and keeps its rate |
| HungerSystem.Metabolize | src/sim/ecs/systems/hunger.ts:11-32 | after a step hunger is at most 1, health and energy are clamped at 0 from below, and the rate, health maximum and energy consumption are kept |
| HungerSystem.MetabolismTiers | src/sim/ecs/systems/hunger.ts:16-28 | above 0.8 hunger health drops by 0.01 per unit time, above 0.5 by 0.002 (both strictly while positive), energy falls with it; between 0.3 and 0.5 nothing changes; below 0.3 health and energy recover |
| HungerSystem.MetabolizeBounded | src/sim/ecs/systems/hunger.ts:11-32 | a step keeps hunger in [0, 1], health in [0, maximum] and energy in [0, 1] |
| HungerSystem.OnlyHungryStarve | src/sim/ecs/systems/hunger.ts:16-38 | an entity alive before the step can starve in it only when its hunger ends above 0.5 |
| HungerSystem.WithVitalsBounded | src/sim/ecs/systems/hunger.ts:11-32 | writing back in-range vitals keeps every table in range |
| HungerSystem.BaseFeedingChance | src/sim/ecs/systems/hunger.ts:105-111 | each species' base chance lies between 0.05 and 0.15 |
| HungerSystem.ChanceAt | src/sim/ecs/systems/hunger.ts:111-125 | the chance is 1.5 times the base within 200 units of the origin, the base from 200 to 400, half the base beyond 400, and always in (0, 0.3] |
| HungerSystem.CalculateFeedingChance | src/sim/ecs/systems/hunger.ts:103-126 | the feeding chance is always in (0, 0.3] |
| HungerSystem.FeedingChanceByDistance | src/sim/ecs/systems/hunger.ts:115-123 | with an exact square root the distance bands are the squared bands 40000 and 160000 |
| HungerSystem.AttemptFeeding | src/sim/ecs/systems/hunger.ts:80-101 | below 0.3 hunger nothing happens; a hungry entity whose record lacks species or position throws; otherwise one draw decides, feeding exactly when it falls below the chance, and only then do the tables change |
| HungerSystem.Feed | src/sim/ecs/systems/hunger.ts:92-99 | a successful feeding lowers hunger by 0.3, not below 0, and turns a present behavior to Feeding with cooldown 30 |
| HungerSystem.VisitedStable | src/sim/ecs/systems/hunger.ts:6-42 | what a callback did to an entity survives later callbacks that leave its row alone |
| HungerSystem.VisitedRebase | src/sim/ecs/systems/hunger.ts:6-42 | a callback working on tables that agree on the entity's row has the same effect as on the tables before the tick |
| HungerSystem.ApplyMetabolism | src/sim/ecs/systems/hunger.ts:7-32 | the callback writes back exactly the metabolised hunger, health and energy of the entity |
| HungerSystem.FeedFromCallback | src/sim/ecs/systems/hunger.ts:41 | on the callback's record, which holds only the three queried components, feeding throws exactly when the entity is hungry enough to try, and changes nothing |
| HungerSystem.ProcessEntity | src/sim/ecs/systems/hunger.ts:6-42 | one callback: the entity survives exactly when its metabolised health stays positive, a casualty leaves no components, the tick aborts exactly when a survivor's hunger is at least 0.3, and every other entity keeps its row |
| HungerSystem.SweepStep | src/sim/ecs/systems/hunger.ts:6-42 | one more callback extends the swept prefix by one entity |
| HungerSystem.CalmStep | src/sim/ecs/systems/hunger.ts:40-41 | a survivor that did not throw keeps the record of calm survivors |
| HungerSystem.QueriedVitals | src/sim/ecs/systems/hunger.ts:6-9 | every queried entity holds a hunger, a health and an energy record |
| HungerSystem.SweepOne | src/sim/ecs/systems/hunger.ts:6-42 | one loop iteration advances the sweep, and aborts only on a surviving entity that was hungry enough to try feeding |
| HungerSystem.Run | src/sim/ecs/systems/hunger.ts:4-43 | a tick visits the queried entities in order until the first one that throws: each visited one is metabolised and dies exactly when its health reaches 0, the rest are untouched, newcomers are fresh, and an abort names a surviving entity whose hunger reached 0.3 |
| WanderSystem.Clamp | src/sim/ecs/systems/wander.ts:139-141 | the clamp lands in the world box, leaves values inside it alone and pins values outside it to the nearer edge |
| WanderSystem.ClampNoFarther | src/sim/ecs/systems/wander.ts:139-141 | clamping never carries a coordinate past the unclamped value, seen from a point in the box |
| WanderSystem.BaseSpeed | src/sim/ecs/systems/wander.ts:150-161 | the base speed lies between 0.8 and 1.2 |
| WanderSystem.MaxWanderDistance | src/sim/ecs/systems/wander.ts:180-191 | the wander radius lies between 100 and 200 |
| WanderSystem.BehaviorOptions | src/sim/ecs/systems/wander.ts:72-83 | each species has at least four options, all known behaviours, and Resting is an option exactly for herbivores and predators |
| WanderSystem.HungryBehavior | src/sim/ecs/systems/wander.ts:49-62 | a very hungry herbivore forages, a predator hunts, and a tribal hunts exactly when hunger exceeds 0.8 |
| WanderSystem.BehaviorPace | src/sim/ecs/systems/wander.ts:89-105 | the behaviour's speed factor is in [0, 1.5] and is 0 exactly for Resting |
| WanderSystem.MoveDistance | src/sim/ecs/systems/wander.ts:86-105 | a resting entity does not move; any other moves a positive distance for a positive tick |
| WanderSystem.Spend | src/sim/ecs/systems/wander.ts:31-32 | paying for movement keeps the consumption, floors energy at 0 and never raises it |
| WanderSystem.UpdateBehavior | src/sim/ecs/systems/wander.ts:36-70 | without a species nothing changes; a tired entity rests for 60; a very hungry one takes its hungry behaviour; otherwise one draw gives a 10% chance of switching to one of the species' options; cooldown, target and heading are kept outside the resting case |
| WanderSystem.ClampedStep | src/sim/ecs/systems/wander.ts:119-141 | a step of at most d along a unit component, clamped, moves a coordinate at most d |
| WanderSystem.Advance | src/sim/ecs/systems/wander.ts:119-141 | the moved position is inside the world box |
| WanderSystem.AdvanceWithin | src/sim/ecs/systems/wander.ts:119-141 | the move from a point in the box stays within the move distance on each axis |
| WanderSystem.UnitDirection | src/sim/ecs/systems/wander.ts:114-120 | the normalised direction toward the target has components in [-1, 1] |
| WanderSystem.Heading | src/sim/ecs/systems/wander.ts:134-141 | a random-heading move ends inside the world box |
| WanderSystem.HeadingWithin | src/sim/ecs/systems/wander.ts:134-141 | a random-heading move goes at most the move distance on each axis |
| WanderSystem.Toward | src/sim/ecs/systems/wander.ts:118-141 | a move toward the target ends inside the world box |
| WanderSystem.TowardWithin | src/sim/ecs/systems/wander.ts:118-141 | a move toward the target goes at most the move distance on each axis |
| WanderSystem.SetNewTarget | src/sim/ecs/systems/wander.ts:163-178 | two draws give a new target inside the world box, within the species' wander radius of the current position, and nothing else of the behaviour changes |
| WanderSystem.ExecuteMovement | src/sim/ecs/systems/wander.ts:85-148 | the behaviour's name and cooldown are kept; with no distance to move nothing changes and nothing is drawn; otherwise a target farther than 1 moves the entity the move distance toward it (clamped) and leaves the behaviour and the generator alone; a target within 1 leaves the entity at its clamped position, keeps the heading and is dropped unless the 5% draw picks a new one; with no target the entity steps along the kept or newly drawn heading, the heading being kept exactly when there was one and the 0.8 draw says so; the step is at most the move distance per axis, stays in the box, and any new target lies in the box |
| WanderSystem.Roam | src/sim/ecs/systems/wander.ts:125-141 | draws an angle, keeps a remembered non-zero heading exactly when the 0.8 draw succeeds and otherwise takes the angle, then steps the move distance along the heading, clamped, at most that distance per axis; only the heading of the behaviour changes |
| WanderSystem.MovedEnergy | src/sim/ecs/systems/wander.ts:30-32 | a callback keeps energy in [0, 1], never raises it and keeps the consumption |
| WanderSystem.MaybeRetarget | src/sim/ecs/systems/wander.ts:143-146 | on a behaviour without a target, a new target (inside the box) is set exactly when the 0.05 draw succeeds, and nothing else of the behaviour changes |
| WanderSystem.Decide | src/sim/ecs/systems/wander.ts:6-33 | an exhausted entity (energy at most 0.1) only starts resting, one in cooldown only counts it down, any other chooses a behaviour, pays energy and moves by the chosen behaviour exactly as `executeMovement` steers it: toward a far target, onto its clamped position at a near one, or along its heading without one |
| WanderSystem.Visit | src/sim/ecs/systems/wander.ts:6-33 | the callback writes back exactly the decided position, behaviour and energy of the entity, which obey the same case split as `WanderSystem.Decide` |
| WanderSystem.WriteBack | src/sim/ecs/systems/wander.ts:7-9 | writing back the three records changes only that entity's position, behaviour and energy |
| WanderSystem.WanderStep | src/sim/ecs/systems/wander.ts:6-33 | one more callback extends the moved prefix of the snapshot by one entity |
| WanderSystem.Run | src/sim/ecs/systems/wander.ts:4-34 | after a tick every queried entity has been moved by exactly one callback (with the case split of `WanderSystem.Decide`), every other entity's row is untouched, no entity appears or disappears, and values stay in range |
| WanderSystem.QueriedMovers | src/sim/ecs/systems/wander.ts:6-9 | every queried entity holds a position, a behaviour and an energy record |
| AgingSystem.RatioBands | src/sim/ecs/systems/aging.ts:28-33 | with a positive lifespan, the age ratio exceeds (falls below) a fraction exactly when the age exceeds (falls below) that fraction of the lifespan |
| AgingSystem.AgeRatio | src/sim/ecs/systems/aging.ts:28 | the ratio is a number exactly for a non-zero lifespan, NaN for 0 over 0, and lies in [0, 1] for an age within a positive lifespan |
| AgingSystem.Older | src/sim/ecs/systems/aging.ts:11 | a tick adds exactly the elapsed time to the age and keeps lifespan and maturity age |
| AgingSystem.AgeEffects | src/sim/ecs/systems/aging.ts:27-43 | the age effects keep the health maximum and never leave health negative |
| AgingSystem.AgeEffectsBands | src/sim/ecs/systems/aging.ts:30-42 | above 0.8 of the lifespan health drops by 0.005, above 0.6 it declines (strictly while positive), below 0.2 it never falls, in between it is unchanged; health stays in [0, maximum] and never drops by more than 0.005 |
| AgingSystem.DeathChance | src/sim/ecs/systems/aging.ts:55 | the death chance is positive above ratio 0.7 and at most 3% up to the full lifespan |
| AgingSystem.FrailChance | src/sim/ecs/systems/aging.ts:49-56 | a frail entity still within its lifespan has a finite age ratio and a death chance in (0, 3%) |
| AgingSystem.ShouldDieFromAge | src/sim/ecs/systems/aging.ts:45-60 | an entity at or past its lifespan dies without a draw; a frail one (ratio above 0.7, health below 0.3) dies exactly when one draw falls below its death chance; any other lives without a draw |
| AgingSystem.ReproductionAt | src/sim/ecs/systems/aging.ts:103 | the reproduction record is found exactly when the entity holds one |
| AgingSystem.HungerAt | src/sim/ecs/systems/aging.ts:105 | the hunger record is found exactly when the entity holds one |
| AgingSystem.EnergyAt | src/sim/ecs/systems/aging.ts:106 | the energy record is found exactly when the entity holds one |
| AgingSystem.MateWithinDisc | src/sim/ecs/systems/aging.ts:168-173 | with an exact square root, a candidate is within the search radius exactly when its squared distance is at most 2500 |
| AgingSystem.FindNearbyMate | src/sim/ecs/systems/aging.ts:147-179 | the search succeeds exactly when some other entity holding position, species and age is of the same kind, mature and within 50 units |
| AgingSystem.OffspringFacts | src/sim/ecs/systems/aging.ts:205-214 | the offspring template is the species template at the offset position with age 0, health at its maximum and hunger 0.2, everything else as the template has it |
| AgingSystem.CreateOffspring | src/sim/ecs/systems/aging.ts:181-217 | two draws give offsets within 20 units of the parent; the offspring is a fresh entity of the parent's species from the offspring template, holding every queried component |
| AgingSystem.CoolDown | src/sim/ecs/systems/aging.ts:121-124 | a cooling-down entity's cooldown drops by one and nothing else changes |
| AgingSystem.Mate | src/sim/ecs/systems/aging.ts:131-143 | one draw against the fertility decides; on success an offspring of the kind is created near the parent, the parent's cooldown becomes 200 and its energy, if any, drops by 0.3 floored at 0; on failure nothing changes |
| AgingSystem.ChargeParent | src/sim/ecs/systems/aging.ts:135-142 | the parent's cooldown is set to 200 and its energy, if any, lowered by 0.3 and floored at 0, nothing else changes |
| AgingSystem.AttemptReproduction | src/sim/ecs/systems/aging.ts:101-145 | an ineligible entity (no reproduction record, immature, health below 0.7, hunger above 0.4 or energy below 0.5) changes nothing; an eligible one in cooldown only counts it down; otherwise it breeds only when its record holds position and species and a mate exists, and it reports no mate exactly when none exists |
| AgingSystem.SeekMate | src/sim/ecs/systems/aging.ts:126-144 | without position or species in the record, or without a mate, nothing changes and nothing is drawn; with a mate the fertility draw follows |
| AgingSystem.AgedStable | src/sim/ecs/systems/aging.ts:6-24 | what a callback did to an entity survives later callbacks that leave its row alone |
| AgingSystem.MaturedRow | src/sim/ecs/systems/aging.ts:6-24 | the matured row depends only on the entity's own row |
| AgingSystem.AgedRebase | src/sim/ecs/systems/aging.ts:6-24 | a callback working on tables that agree on the entity's row has the same effect as on the tables before the tick |
| AgingSystem.ApplyAging | src/sim/ecs/systems/aging.ts:7-14 | the callback writes back exactly the older age and its health effects, and nothing of any other entity |
| AgingSystem.ReproduceFromCallback | src/sim/ecs/systems/aging.ts:23 | on the callback's record, which holds only age and health, reproduction never finds a mate: it draws nothing and at most counts the cooldown down |
| AgingSystem.LifeWriteKeeps | src/sim/ecs/systems/aging.ts:7-14 | writing age and health back leaves the reproduction, hunger and energy records as they were |
| AgingSystem.ProcessEntity | src/sim/ecs/systems/aging.ts:6-24 | one callback: an entity past its lifespan dies, one neither past it nor frail survives with its matured row, a casualty leaves no components, and every other entity keeps its row |
| AgingSystem.SweepStep | src/sim/ecs/systems/aging.ts:6-24 | one more callback extends the swept prefix by one entity |
| AgingSystem.QueriedLives | src/sim/ecs/systems/aging.ts:6-8 | every queried entity holds an age and a health record |
| AgingSystem.SweepOne | src/sim/ecs/systems/aging.ts:6-24 | one loop iteration advances the sweep by one entity |
| AgingSystem.Run | src/sim/ecs/systems/aging.ts:4-25 | after a tick every queried entity has been aged by exactly one callback, everything else is undisturbed, and newcomers are fresh |
| Biomes.Code | src/sim/terrain/biomes.ts:3-9 | every biome's numeric code lies in 0..4 |
| Biomes.FromCode | src/sim/terrain/biomes.ts:3-9 | a number names a biome exactly when it is in 0..4, and then the biome with that code |
| Biomes.CodeRoundTrip | src/sim/terrain/biomes.ts:3-9 | reading back a biome's code gives the biome |
| Biomes.Entry | src/sim/terrain/biomes.ts:21-67 | each table entry carries its own biome, a colour in [0, 1], at least two resources, fertility in (0, 1], water in [0, 1] and movement speed in [0, 2] |
| Biomes.ByteColor | src/sim/terrain/biomes.ts:70-76 | each transition colour channel is a byte |
| Biomes.GetBiomeColor | src/sim/terrain/biomes.ts:78-81 | each channel is the transition colour's byte divided by 255, so in [0, 1] |
| Biomes.GetBiomeData | src/sim/terrain/biomes.ts:83-85 | a code in 0..4 gets its own entry; any other code gets grassland |
| Biomes.GetBiomeName | src/sim/terrain/biomes.ts:141-143 | the name is the name of the entry the lookup returns |
| Biomes.CalculateBiomeModifiers | src/sim/terrain/biomes.ts:88-102 | hunger rate is the inverse of fertility (so at least 1), energy consumption and movement speed add up to 2, the reproduction rate is at most both fertility and water, and the movement speed is the biome's |
| Biomes.IsSuitableBiome | src/sim/terrain/biomes.ts:105-138 | suitability lies in [0.1, 1], and is 0.5 for an unknown species or an unknown code |
| Biomes.PreferredBiomes | src/sim/terrain/biomes.ts:108-134 | herbivores rate grassland highest and every other biome strictly lower; predators and tribals rate forest so |
| Biomes.Join | src/sim/terrain/biomes.ts:148 | joining no parts gives "", one part gives itself, more parts put the separator between consecutive ones |
| Biomes.FertilityPhrase | src/sim/terrain/biomes.ts:150-151 | "very fertile" exactly above 0.7, "moderately fertile" above 0.4 up to 0.7, "sparse" otherwise |
| Biomes.WaterPhrase | src/sim/terrain/biomes.ts:153-154 | "abundant water" exactly above 0.7, "some water" above 0.4 up to 0.7, "little water" otherwise |
| Biomes.GetBiomeDescription | src/sim/terrain/biomes.ts:146-157 | the description starts with the biome's name and a colon |
| Biomes.DescriptionPhrases | src/sim/terrain/biomes.ts:146-157 | grassland and forest are described as very fertile, the rest as sparse; water and forest have abundant water, grassland some, the rest little |
| Biomes.UnknownDescribedAsGrass | src/sim/terrain/biomes.ts:83-85 | an unknown code is described as grassland |
| Biomes.Axis | src/sim/terrain/biomes.ts:167-172 | with a non-zero world size each coordinate is a number, clamped into the grid |
| Biomes.WorldToBiomeCoordinates | src/sim/terrain/biomes.ts:160-174 | with a non-zero world size both coordinates are numbers in [0, biomeSize) |
| Biomes.CellIndex | src/sim/terrain/biomes.ts:185 | the row-major index exists exactly when both coordinates are numbers |
| Biomes.CellIndexInGrid | src/sim/terrain/biomes.ts:185 | a cell of a w by h grid has a row-major index in [0, w * h) |
| Biomes.SampleBiomeAtPosition | src/sim/terrain/biomes.ts:177-187 | as written, the sampler never reports water |
| Biomes.WaterSampledAsGrass | src/sim/terrain/biomes.ts:186 | a one-cell grid of water is sampled as grassland |
| Biomes.SampleBiome | src/sim/terrain/biomes.ts:177-187 | the corrected sampler returns the stored code of the cell under the position whenever that cell exists |
| Biomes.SampleBiomeReadsCell | src/sim/terrain/biomes.ts:177-187 | on a full grid with a non-zero world size the cell always exists, so the corrected sampler returns it, water included |
| Terrain.CreateTerrainConfig | src/sim/terrain/generateHeightmap.ts:211-222 | with no overrides the configuration is the defaults (256 by 256, scale 100, 6 octaves, persistence 0.5, lacunarity 2, seed 12345); each given key replaces its default and each missing key keeps it |
| Terrain.FullOverride | src/sim/terrain/generateHeightmap.ts:211-222 | overriding every key yields exactly the overrides |
| Terrain.DefaultGenerable | src/sim/terrain/generateHeightmap.ts:211-222 | the default configuration yields a number for every cell (non-zero scale, an octave, positive persistence) |
| Terrain.Noise2D | src/sim/terrain/generateHeightmap.ts:22-26 | hash noise lies in [-1, 1) |
| Terrain.Lerp | src/sim/terrain/generateHeightmap.ts:29-31 | interpolation gives the first end at 0 and the second at 1 |
| Terrain.LerpBetween | src/sim/terrain/generateHeightmap.ts:29-31 | for a weight in [0, 1] the result lies between the two ends |
| Terrain.Smoothstep | src/sim/terrain/generateHeightmap.ts:33-35 | smoothstep fixes 0 and 1 |
| Terrain.SmoothstepRange | src/sim/terrain/generateHeightmap.ts:33-35 | smoothstep maps [0, 1] into [0, 1] |
| Terrain.SmoothNoise2D | src/sim/terrain/generateHeightmap.ts:38-58 | smoothed lattice noise lies in [-1, 1), like the corner values it blends |
| Terrain.AddOctave | src/sim/terrain/generateHeightmap.ts:68-71 | one octave adds its amplitude to the normaliser and moves the sum by at most that amplitude; amplitudes stay positive |
| Terrain.OctaveBounds | src/sim/terrain/generateHeightmap.ts:68-70 | noise in [-1, 1] scaled by an amplitude stays within that amplitude |
| Terrain.AccumulateWithin | src/sim/terrain/generateHeightmap.ts:62-72 | after any number of octaves the sum lies within plus or minus the normaliser, which is at least 1 after one octave |
| Terrain.FractalValue | src/sim/terrain/generateHeightmap.ts:61-75 | zero octaves divide 0 by 0 (NaN); a generable configuration gives a number in [-1, 1] |
| Terrain.FractalNoise | src/sim/terrain/generateHeightmap.ts:61-75 | the octave loop computes the fractal value |
| Terrain.OctaveStep | src/sim/terrain/generateHeightmap.ts:67-72 | one pass of the octave loop is one octave added |
| Terrain.Ridges | src/sim/terrain/generateHeightmap.ts:140-141 | the ridge term lies in [0, 0.3] |
| Terrain.Rivers | src/sim/terrain/generateHeightmap.ts:144-145 | the river term lies in [-0.2, 0] |
| Terrain.ApplyTerrainFeatures | src/sim/terrain/generateHeightmap.ts:118-155 | the featured height is the valley-scaled base plus ridges plus rivers, clamped into [-1, 1] |
| Terrain.RowMajor | src/sim/terrain/generateHeightmap.ts:87 | a row-major index gives back its column and row |
| Terrain.Cell | src/sim/terrain/generateHeightmap.ts:90-93 | each cell's raw height lies in [-1, 1] |
| Terrain.RawHeights | src/sim/terrain/generateHeightmap.ts:85-99 | the raw grid has width times height heights |
| Terrain.RawHeightsCells | src/sim/terrain/generateHeightmap.ts:85-99 | cell (x, y) of the grid sits at index y * width + x |
| Terrain.MinOf | src/sim/terrain/generateHeightmap.ts:81-96 | the running minimum exists exactly for a non-empty sequence |
| Terrain.MaxOf | src/sim/terrain/generateHeightmap.ts:82-97 | the running maximum exists exactly for a non-empty sequence |
| Terrain.BoundsOf | src/sim/terrain/generateHeightmap.ts:81-97 | the running minimum and maximum are elements, below and above every element |
| Terrain.BoundsStep | src/sim/terrain/generateHeightmap.ts:96-97 | one more value updates the minimum and maximum by `Math.min` and `Math.max` |
| Terrain.Normalized | src/sim/terrain/generateHeightmap.ts:101-107 | normalising keeps the length and leaves flat heights untouched |
| Terrain.Rescaled | src/sim/terrain/generateHeightmap.ts:104-106 | each height becomes (height - min) / range |
| Terrain.NormalizedRange | src/sim/terrain/generateHeightmap.ts:101-107 | spread heights normalise into [0, 1], reaching both 0 and 1, in the same order as before |
| Terrain.GenerateHeightmap | src/sim/terrain/generateHeightmap.ts:77-116 | the heightmap has the configured size, reports bounds 0 and 1, and holds the normalised raw heights |
| Terrain.FillRows | src/sim/terrain/generateHeightmap.ts:85-99 | the buffer holds the grid in row-major order and the tracked bounds are its minimum and maximum |
| Terrain.NextRow | src/sim/terrain/generateHeightmap.ts:85-99 | one pass of the outer loop fills one more row |
| Terrain.FillRow | src/sim/terrain/generateHeightmap.ts:86-98 | the inner loop appends exactly the row's heights and updates the bounds |
| Terrain.FillCell | src/sim/terrain/generateHeightmap.ts:87-97 | one pass of the inner loop stores one cell and updates the bounds |
| Terrain.HeightAt | src/sim/terrain/generateHeightmap.ts:90-93 | the computed height is the grid's cell |
| Terrain.Normalize | src/sim/terrain/generateHeightmap.ts:101-107 | the rescaling loop leaves the normalised heights in the buffer |
| Terrain.Temperature | src/sim/terrain/generateHeightmap.ts:175 | temperature lies in [0, 1) |
| Terrain.Moisture | src/sim/terrain/generateHeightmap.ts:176 | moisture lies in [0, 1) |
| Terrain.Classify | src/sim/terrain/generateHeightmap.ts:178-190 | water exactly below altitude 0.2, mountain exactly above 0.7, forest exactly for cold and wet land between, desert exactly for hot and dry land between, grassland otherwise |
| Terrain.BiomeAt | src/sim/terrain/generateHeightmap.ts:169-192 | each cell's code is a biome code 0..4 |
| Terrain.GenerateBiomes | src/sim/terrain/generateHeightmap.ts:158-196 | the new buffer has one code per height and each is its cell's classification |
| Terrain.GeneratedHasWaterAndMountain | src/sim/terrain/generateHeightmap.ts:101-107 | a generated heightmap whose raw heights spread holds at least one water and one mountain cell |
| Terrain.SampleHeight | src/sim/terrain/generateHeightmap.ts:199-208 | the height is the buffer's value at the clamped, floored position, 0 where there is no such cell |
| Terrain.SampleIndexInGrid | src/sim/terrain/generateHeightmap.ts:202-206 | on a full non-empty buffer every position, inside the map or not, samples a cell of the buffer |
| Terrain.SampleGridPoint | src/sim/terrain/generateHeightmap.ts:199-208 | a grid point of the map samples its own cell |
| Js.Min | src/sim/ecs/systems/hunger.ts:13 | `Math.min` of two numbers is one of them and at most both |
| Js.Max | src/sim/ecs/systems/hunger.ts:31 | `Math.max` of two numbers is one of them and at least both |
| Js.MinInt | src/sim/terrain/biomes.ts:171-172 | `Math.min` on whole numbers is one of them and at most both |
| Js.MaxInt | src/sim/terrain/biomes.ts:171-172 | `Math.max` on whole numbers is one of them and at least both |
| Js.Floor | src/sim/terrain/generateHeightmap.ts:39-40 | `Math.floor` gives the greatest whole number not above its argument |
| Js.Frac | src/sim/terrain/generateHeightmap.ts:25 | `hash - Math.floor(hash)` lies in [0, 1) |
| Js.Divide | src/sim/ecs/systems/aging.ts:28 | JavaScript division is a number exactly for a non-zero divisor, and then multiplies back to the dividend; 0 / 0 is NaN |
| Js.SqrtAtMost | src/sim/ecs/systems/aging.ts:171-173 | with an exact square root, comparing the distance with a bound is comparing the squared distance with the bound's square |
| Js.SliceIndex | src/api/adapters/mockAdapter.ts:285 | a non-negative slice bound is cut to the length |
| Js.Slice | src/api/adapters/mockAdapter.ts:285 | `slice` with non-negative bounds is the subsequence between the bounds cut to the length, never longer than the array |
| Js.NatToString | src/api/adapters/mockAdapter.ts:79 | a number's decimal text is a non-empty run of digits, a single digit exactly below 10 |
| Js.NatToStringInjective | src/api/adapters/mockAdapter.ts:79 | distinct numbers have distinct decimal texts, so the generated entity ids are distinct |
| Js.Scaled | src/api/adapters/mockAdapter.ts:307 | `Math.floor(Math.random() * n)` is an index in [0, n) for a positive n |
| Js.PadStart2 | src/utils/time.ts:65 | `padStart(2, '0')` leaves texts of length 2 or more alone and left-pads shorter ones with zeros to length 2 |
| Js.ToLower | src/api/adapters/mockAdapter.ts:310-312 | `toLowerCase` lowercases each character in place and keeps the length |
| JsMap.OrderedMap.Get | src/api/adapters/mockAdapter.ts:173 | `get` finds a value exactly for a present key, and it is the stored one |
| JsMap.OrderedMap.Set | src/api/adapters/mockAdapter.ts:188 | `set` stores the value under the key, keeps the insertion order of an existing key and appends a new key at the end |
| JsMap.OrderedMap.Values | src/api/adapters/mockAdapter.ts:267 | `values()` lists one value per key, in insertion order |
| JsMap.EmptyMap | src/api/adapters/mockAdapter.ts:76 | `new Map()` is empty |
| JsMap.Singleton | src/api/adapters/mockAdapter.ts:54 | a map with one entry lists that key and that value |
| JsMap.SetThenGet | src/api/adapters/mockAdapter.ts:182-188 | after `set` the key reads back the new value, other keys are unaffected, and the size grows only for a new key |
| JsMap.SetValues | src/api/adapters/mockAdapter.ts:94 | setting a new key appends its value to `values()`; overwriting keeps the other values in place |
| JsMap.SizeIsKeyCount | src/api/adapters/mockAdapter.ts:249 | `size` is the number of distinct keys |
| ApiTypes.SpeciesName | src/api/types.ts:4 | each species is spelled as a capitalised upper-case name |
| ApiTypes.KindName | src/api/types.ts:7 | each event kind is spelled in capitals |
| ApiTypes.NamesDistinct | src/api/types.ts:4-7 | distinct species, and distinct event kinds, have distinct spellings |
| ApiTypes.ActionName | src/api/types.ts:118 | each nudge action is spelled in capitals |
| ApiTypes.Filter | src/api/adapters/mockAdapter.ts:331 | `filter` keeps exactly the elements satisfying the predicate and never lengthens the array |
| ApiTypes.FilterAppend | src/api/adapters/mockAdapter.ts:331 | filtering keeps relative order: a filtered concatenation is the concatenation of the filtered parts |
| ApiTypes.FilterAll | src/api/adapters/mockAdapter.ts:197 | filtering with a predicate true everywhere changes nothing |
| SimStore.KeyedById | src/state/useSimStore.ts:98-103 | the entity map has a key exactly for each id in the list, and each key holds an entity of the list with that id |
| SimStore.KeyedByIdLastWins | src/state/useSimStore.ts:100-102 | when ids repeat, the map holds the last entity with that id |
| SimStore.KeyedByIdDistinct | src/state/useSimStore.ts:98-103 | with distinct ids the map has one entry per entity, each under its own id |
| SimStore.Prepended | src/state/useSimStore.ts:119-124 | the new list is the new events followed by the old ones, cut to the first 100 |
| SimStore.AddEventNewestFirst | src/state/useSimStore.ts:117-120 | a new event comes first; below the cap nothing is lost, at the cap the oldest event is dropped |
| SimStore.AddEventsKeepsBatchOrder | src/state/useSimStore.ts:122-125 | a batch keeps its own order at the front, followed by as many old events as fit; a batch of 100 or more keeps only its first 100 |
| SimStore.AddEventTwice | src/state/useSimStore.ts:117-125 | adding a then b one by one is adding the batch [b, a] |
| SimStore.FilteredEvents | src/state/useSimStore.ts:154-164 | the filter 'All' shows every event; any other filter shows exactly the events whose kind matches it case-insensitively |
| SimStore.FilteredEventsKeepOrder | src/state/useSimStore.ts:161-163 | filtering keeps the events' order |
| SimStore.LowerKindNamesDistinct | src/state/useSimStore.ts:162 | lowercased, distinct event kinds still differ |
| SimStore.FilterByKind | src/state/useSimStore.ts:161-163 | a filter naming a kind in any letter case shows exactly the events of that kind |
| SimStore.FilterByUnknownKind | src/state/useSimStore.ts:161-163 | a filter naming no kind shows nothing |
| SimStore.Store.constructor | src/state/useSimStore.ts:68-86 | the store starts in the initial state: 'default-world', tick, day and population 0, no entities, selection, events or metrics, filter 'All', not loading, no error |
| SimStore.Store.SetWorldId | src/state/useSimStore.ts:89 | only the world id changes |
| SimStore.Store.IncrementTick | src/state/useSimStore.ts:91 | only the tick changes, by one |
| SimStore.Store.SetDayCount | src/state/useSimStore.ts:93 | only the day count changes |
| SimStore.Store.SetPopulation | src/state/useSimStore.ts:95 | only the population changes |
| SimStore.Store.UpdateEntities | src/state/useSimStore.ts:98-104 | the entity map becomes the list keyed by id and the population the list's length; nothing else changes |
| SimStore.Store.EntityInView | src/state/useSimStore.ts:171-173 | an entity is found exactly for an id in the map, and it is the stored one |
| SimStore.Store.SelectEntity | src/state/useSimStore.ts:106-110 | the selection becomes the entity stored under the id, or none when there is none; nothing else changes |
| SimStore.Store.ClearSelection | src/state/useSimStore.ts:112 | only the selection changes, to none |
| SimStore.Store.UpdateSelectedEntity | src/state/useSimStore.ts:114 | only the selection changes, to the given entity |
| SimStore.Store.AddEvent | src/state/useSimStore.ts:117-120 | only the recent events change, to the event prepended and cut to 100, so the cap of 100 is kept |
| SimStore.Store.AddEvents | src/state/useSimStore.ts:122-125 | only the recent events change, to the batch prepended and cut to 100 |
| SimStore.Store.SetEventFilter | src/state/useSimStore.ts:127 | only the filter changes |
| SimStore.Store.ClearEvents | src/state/useSimStore.ts:129 | only the recent events change, to none |
| SimStore.Store.Filtered | src/state/useSimStore.ts:154-164 | the shown events are exactly what `SimStore.FilteredEvents` gives for the recent events and the current filter: all of them under `All`, otherwise exactly the recent events whose kind matches the filter ignoring case, in order |
| SimStore.Store.UpdateMetrics | src/state/useSimStore.ts:132-137 | the metrics are stored with the update time, the population becomes their total, nothing else changes |
| SimStore.Store.PopulationBySpecies | src/state/useSimStore.ts:166-169 | the counts are the latest metrics' counts per species, or empty before any metrics |
| SimStore.Store.UpdateFps | src/state/useSimStore.ts:140 | only the frame rate changes |
| SimStore.Store.UpdateRenderTime | src/state/useSimStore.ts:142 | only the render time changes |
| SimStore.Store.SetLoading | src/state/useSimStore.ts:145 | only the loading flag changes |
| SimStore.Store.SetError | src/state/useSimStore.ts:147 | only the error changes |
| SimStore.Store.Reset | src/state/useSimStore.ts:150 | the store returns to the initial state |
| MockAdapter.OrDefault | src/api/adapters/mockAdapter.ts:283-284 | a numeric parameter that is missing or 0 falls back to its default, as JS `||` does, and any other value is kept |
| MockAdapter.FindByEmail | src/api/adapters/mockAdapter.ts:141 | finds a user with this email exactly when one exists, and it is the first such user in insertion order |
| MockAdapter.Pick | src/api/adapters/mockAdapter.ts:187 | a field present in the update wins over the stored one; an absent field keeps it |
| MockAdapter.Overlay | src/api/adapters/mockAdapter.ts:187 | every field of the result is the update's field when given and the stored profile's otherwise |
| MockAdapter.OverlayLaws | src/api/adapters/mockAdapter.ts:187 | an empty update leaves the profile unchanged, and applying the same update twice equals applying it once |
| MockAdapter.WithStatus | src/api/adapters/mockAdapter.ts:197 | without a status every world is kept; with one, exactly the worlds in that status are kept |
| MockAdapter.Matching | src/api/adapters/mockAdapter.ts:270-280 | an entity is kept exactly when it is stored, has the requested species (if one is given) and lies inside the inclusive box (if one is given) |
| MockAdapter.Page | src/api/adapters/mockAdapter.ts:282-291 | the total is the number of matches, `hasMore` holds exactly when offset + limit (defaults 0 and 100) is below it, every returned entity is a match, and for an in-range offset the page is the matches from offset up to offset + limit |
| MockAdapter.PagingCoversMatches | src/api/adapters/mockAdapter.ts:285-290 | with a positive limit, a page that says there is more is full, and a page that says there is no more reaches the last match |
| MockAdapter.LookupEntity | src/api/adapters/mockAdapter.ts:296-301 | succeeds exactly when the world has an entity map holding that id, with the stored entity; otherwise `Entity not found` |
| MockAdapter.CountSpecies | src/api/adapters/mockAdapter.ts:240-244 | the counting loop builds the per-species counts of the entities visited in order |
| MockAdapter.CountOf | src/api/adapters/mockAdapter.ts:243 | a missing count reads as 0 and a present count as itself |
| MockAdapter.Occurrences | src/api/adapters/mockAdapter.ts:242-244 | the number of entities of one species is at most the number of entities |
| MockAdapter.SpeciesCountsCorrect | src/api/adapters/mockAdapter.ts:240-244 | the counts name only species that occur, and each species' count is its number of entities |
| MockAdapter.OccurrencesSum | src/api/adapters/mockAdapter.ts:242-244 | every entity belongs to exactly one of the three species, so the occurrences add up to the number of entities |
| MockAdapter.SpeciesCountsSum | src/api/adapters/mockAdapter.ts:246-251 | the `bySpecies` counts add up to `total`, and their only keys are the three species names |
| MockAdapter.OfKind | src/api/adapters/mockAdapter.ts:330-332 | without a kind every event is kept; with one, exactly the events of that kind are kept |
| MockAdapter.EventsPage | src/api/adapters/mockAdapter.ts:324-340 | every returned event is stored and of the requested kind; for a non-negative limit (default 50) the page is the first min(limit, matches) matching events in stored order; a cursor `cursor-<now>` is returned exactly when more events matched than the limit |
| MockAdapter.FirstNamed | src/api/adapters/mockAdapter.ts:387 | finds a snapshot exactly when one has that name, and what it finds is the first snapshot with that name in creation order |
| MockAdapter.FirstNamedAppend | src/api/adapters/mockAdapter.ts:372-374 | after a snapshot is appended, earlier names still find what they found before, and its own name finds it when no earlier snapshot has that name |
| MockAdapter.SignedInId | src/api/adapters/mockAdapter.ts:403 | there is a signed-in id exactly when a user with a non-empty id is signed in, and it is that user's id |
| MockAdapter.AdoptionsOf | src/api/adapters/mockAdapter.ts:417-424 | signed out gives no adoptions; signed in gives exactly the adoptions whose user is the signed-in user |
| MockAdapter.AdoptionsOfAppend | src/api/adapters/mockAdapter.ts:409 | an adoption by the signed-in user becomes the last of their adoptions, and one by anyone else leaves their list unchanged |
| MockAdapter.NudgeEntity | src/api/adapters/mockAdapter.ts:304-320 | the draw picks success below 1/3, failure in [1/3, 2/3) and ignored from 2/3; each message names the action in lower case; only a success reports `<ACTION> effect applied` |
| MockAdapter.Indexed | src/api/adapters/mockAdapter.ts:76-95 | the map the entities are set into is well formed |
| MockAdapter.IndexEntities | src/api/adapters/mockAdapter.ts:77-95 | the constructor's loop builds the map of setting each entity under its id in turn |
| MockAdapter.IndexedValues | src/api/adapters/mockAdapter.ts:94 | with distinct ids, the map's values are the entities in the order they were set |
| MockAdapter.IndexedGet | src/api/adapters/mockAdapter.ts:94 | with distinct ids, every entity is found under its own id |
| MockAdapter.IndexedKeys | src/api/adapters/mockAdapter.ts:94 | every stored entity sits under its own id |
| MockAdapter.MockStore.constructor | src/api/adapters/mockAdapter.ts:40-114 | the store starts with the one mock user, the one 'default-world' world, the 100 generated entities keyed by id and the 50 events under that world (ids `event-0` to `event-49` once each, references to mock entities only, newest first), no snapshots, no adoptions and nobody signed in |
| MockAdapter.MockStore.Login | src/api/adapters/mockAdapter.ts:138-153 | succeeds exactly when a user has this email and the password is 'password'; it then signs that user in with the mock token; a failure reports `Invalid credentials` and changes nothing; nothing else changes |
| MockAdapter.MockStore.Logout | src/api/adapters/mockAdapter.ts:155-159 | nobody is signed in and there is no token; nothing else changes |
| MockAdapter.MockStore.GetCurrentUser | src/api/adapters/mockAdapter.ts:161-167 | succeeds exactly when someone is signed in, with that user; otherwise `Not authenticated` |
| MockAdapter.MockStore.GetProfile | src/api/adapters/mockAdapter.ts:171-178 | succeeds exactly when the id is stored, with its profile, and fails with `Profile not found` otherwise |
| MockAdapter.MockStore.UpdateProfile | src/api/adapters/mockAdapter.ts:180-190 | succeeds exactly for a stored id: the overlaid profile is stored back under that id and returned; an unknown id reports `Profile not found` and changes nothing; nothing else changes |
| MockAdapter.MockStore.GetWorlds | src/api/adapters/mockAdapter.ts:194-199 | returns only stored worlds with the requested status; for a non-negative limit (default 20) they are the first min(limit, matches) of them in stored order |
| MockAdapter.MockStore.CreateWorld | src/api/adapters/mockAdapter.ts:201-221 | stores and returns an active world `world-<now>` with no population, the given name and description, the default settings, and the given seed unless it is missing or 0, when the seed is drawn from [0, 1000000); the world can then be fetched; nothing else changes |
| MockAdapter.MockStore.GetWorld | src/api/adapters/mockAdapter.ts:223-230 | succeeds exactly when the id is stored, with that world; otherwise `World not found` |
| MockAdapter.MockStore.GetWorldMetrics | src/api/adapters/mockAdapter.ts:232-256 | fails with `World not found` exactly for an unknown world; otherwise the total is the number of the world's entities, the per-species counts add up to it, and births, deaths and discoveries lie in [0, 10), [0, 5) and [0, 3) |
| MockAdapter.MockStore.GetEntities | src/api/adapters/mockAdapter.ts:260-292 | an unknown world gives an empty response; otherwise every returned entity is one of the world's entities with the requested species and inside the requested box, paged as `Page` states |
| MockAdapter.MockStore.GetEntity | src/api/adapters/mockAdapter.ts:294-302 | succeeds exactly when the world holds an entity with that id, with that entity; otherwise `Entity not found` |
| MockAdapter.MockStore.GetEvents | src/api/adapters/mockAdapter.ts:324-341 | a world without stored events gives no events; otherwise the page `EventsPage` states |
| MockAdapter.MockStore.GetSnapshots | src/api/adapters/mockAdapter.ts:345-354 | one summary per stored snapshot of the world, in creation order, carrying its name, timestamp, population and size |
| MockAdapter.MockStore.CreateSnapshot | src/api/adapters/mockAdapter.ts:356-382 | succeeds exactly for a stored world: a snapshot with the given name and description, the world's population and a size in [100000, 1100000) is appended to the world's list and summarised; an unknown world reports `World not found` and changes nothing; nothing else changes |
| MockAdapter.MockStore.GetSnapshot | src/api/adapters/mockAdapter.ts:384-392 | fails with `Snapshot not found` exactly when no snapshot of the world has that name; otherwise the result is the first of the world's snapshots with that name |
| MockAdapter.MockStore.AdoptEntity | src/api/adapters/mockAdapter.ts:396-415 | appends exactly one active adoption `adoption-<now>` of the entity with the given nickname, owned by the signed-in user or 'anonymous'; earlier adoptions and everything else stay unchanged |
| MockAdapter.MockStore.GetMyAdoptions | src/api/adapters/mockAdapter.ts:417-424 | signed out gives none; otherwise exactly the signed-in user's adoptions, every one of them, in adoption order |
| Simulation.TraitPool | src/hooks/useSimulation.tsx:217-223 | each species name has a pool of five traits; any other name gets the lone 'Mysterious' |
| Simulation.KindsHavePools | src/hooks/useSimulation.tsx:217-223 | every species kind's name selects a five-trait pool, never the 'Mysterious' fallback |
| Simulation.GenerateTraits | src/hooks/useSimulation.tsx:216-235 | returns one to three distinct traits, all from the species' pool, and keeps the generator in range |
| Simulation.ProjectedRow | src/hooks/useSimulation.tsx:120 | the row of a projected entity holds exactly position, species, hunger and age |
| Simulation.MaterializedRow | src/hooks/useSimulation.tsx:120 | an entity the query returns holds the four queried components, and the components handed to the callback are exactly those four |
| Simulation.RowOfHolder | src/sim/ecs/world.ts:153-171 | for an entity holding the four queried types, the materialised row is exactly their four components |
| Simulation.Detail | src/hooks/useSimulation.tsx:121-133 | the record has altitude, behavior and health exactly when the row holds those components, no village, and the drawn traits |
| Simulation.DetailIsProjection | src/hooks/useSimulation.tsx:121-133 | the record made of a queried row carries the entity's id, species, position, age and hunger, experience floor(age / 10), the drawn traits and no altitude, behavior or health |
| Simulation.ProjectOne | src/hooks/useSimulation.tsx:120-135 | the callback's record is the projection of that entity |
| Simulation.ProjectEntities | src/hooks/useSimulation.tsx:115-135 | one record per queried entity, in query order, each the projection of its entity |
| Simulation.ProjectedStep | src/hooks/useSimulation.tsx:134 | appending the next entity's projection extends the projected prefix |
| Simulation.ProjectedIdsDistinct | src/hooks/useSimulation.tsx:122 | projected records carry distinct ids, so keying them by id loses none |
| Simulation.BySpecies | src/sim/ecs/world.ts:190-203 | the record names all three species and its counts add up to the population total |
| Simulation.HoldingEveryone | src/sim/ecs/world.ts:128-132 | when every id holds the requested types, the query returns the ids themselves, in order |
| Simulation.MetricsFromWorld | src/hooks/useSimulation.tsx:140-155 | the total is the entity count; each species count is the number of entities of that species; the counts add up to the entities holding a species, and to the total when all do; births, deaths and discoveries lie in [0, 10), [0, 5) and [0, 3) |
| Simulation.RunSystems | src/hooks/useSimulation.tsx:68-74 | runs hunger, then wander, then aging with dt = 1, each as its own system's contract states; a throw in the hunger system stops the tick with the world as that system left it |
| Simulation.Publish | src/hooks/useSimulation.tsx:77-79 | the tick count goes up by one, the store holds exactly the projected records keyed by id, the population is the entity count and the metrics are stored; nothing else in the store changes |
| Simulation.Tick | src/hooks/useSimulation.tsx:65-83 | the world goes through the hunger sweep (stopping there, world as hunger left it, when it throws), then the wander pass over the survivors holding a position, behaviour and energy, then the aging sweep, as `Simulation.RunSystems` states; a caught throw leaves the store unchanged; otherwise the store changes exactly as `Publish` states |

## Left out

- Rendering, UI routes and components, the UI store, the HTTP adapter, the service-worker mocks and IndexedDB are not part of this model.
- Timers are not modelled: the `setInterval` effects, the interval lengths derived from the simulation speed, and the network `delay()` of the mock API. A tick is one call of `Simulation.Tick`.
- The initialisation effect of the simulation hook (seed the generator, build a world, reset the clock) is not a member of its own. Its three steps are `Rng.RngFacade.SetSeed`, `Ecs.World.constructor` and `Time.SimulationTime.Reset`.
- The random events of the simulation hook are not modelled: `generateRandomEvent`, `generateEventDescription` and `getRandomEntityId` only draw text and ids from `Math.random` and the generator.
- Math.random seeding: the random parts of the mock data (entity positions, ages and traits, event kinds, descriptions and timestamps) are constructor parameters. The sort of the mock events is not performed: the constructor requires its events already newest first, comparing the ISO timestamp texts character by character rather than parsing them to times.
- Js.ToLower: lowercases the ASCII letters A-Z only, where `toLowerCase` follows full Unicode case mapping. It is applied to the nudge action names and the event kind names, which are ASCII, and to the event filter text, where a non-ASCII capital would not match its lower-case form as it does in the source.
- `throttle`, `debounce` and `deepClone` are not modelled: they are timing and reflective object-walking helpers outside the simulation logic.
- Floating point: no IEEE rounding, overflow to infinity or `-0`. Float32Array and Uint8Array cells are reals and integers. `Math.sin`, `Math.cos`, `Math.sqrt` and `Math.pow` are uninterpreted beyond the facts named above.
- NaN and infinities appear only where the code can produce them from finite inputs: guard checks, the age ratio with a zero lifespan, and the biome sampler's division. Elsewhere, arguments are finite reals.
- Entity ids are natural numbers from a counter, not random UUIDs. The world keeps every id it holds below the counter, which gives the freshness the UUIDs provide. The UUID text layout is modelled on its own, with the random nibbles as a parameter.
- `Ecs.World.Deserialize`: a table entry whose component does not have the table's own type is dropped. This differs from the source only for a malformed snapshot, which the source would store as is.
- `Ecs.World.PopulateInitialEntities` requires freshly cleared storage: the source calls it only from the constructor and `reset`.
- `WanderSystem.UpdateBehavior`, `WanderSystem.Decide`, `WanderSystem.Visit` and `WanderSystem.Run` require the generator to be in its working range. From the stuck state 0, `nextElement` returns `undefined` and the behaviour becomes undefined, which the model does not represent.
- `Simulation.GenerateTraits`, `Simulation.ProjectOne`, `Simulation.ProjectEntities`, `Simulation.MetricsFromWorld`, `Simulation.RunSystems`, `Simulation.Publish` and `Simulation.Tick` require the generator to be in its working range for the same reason. From state 0 the trait count would be 0.
- Terrain.FractalNoise, Terrain.FractalValue, Terrain.ApplyTerrainFeatures, Terrain.Ridges, Terrain.Rivers, Terrain.Cell, Terrain.GenerateHeightmap and their helpers require a non-zero `scale`. The members that sum octaves also require at least one octave and a positive persistence (`Terrain.Generable`). The default configuration meets all three. Otherwise the source divides by zero and produces NaN or infinite heights, which the model does not represent.
- The `|| 0.01` fallback of the feeding chance and the `|| ['Mysterious']` fallback of the trait pool cannot be reached from typed species kinds. The trait pool still models the fallback for an unknown name.
- The `bbox` query parameter is taken as four parsed numbers; the parsing of the comma-separated string is not modelled.
- In `updateProfile`, a field present with the value `undefined` is treated as absent.
- The free-form `metadata` of events, the `worldState` payload of snapshots and the nesting of world settings are not modelled; the settings are flattened into the world record.
- `toLocaleDateString` depends on the host, so `Time.FormatTimestamp` takes its text as a parameter.
- The lazy `require(...)` of the species templates inside the systems is a direct call of the template functions.

## Findings

| source | as written | input that shows it | evidently intended | confidence | as-written member | corrected member |
|---|---|---|---|---|---|---|
| src/sim/terrain/biomes.ts:186 | the grassland fallback for a falsy cell value also replaces the water code 0 by grassland, so the sampler never reports water | a one-cell grid holding water (code 0), sampled at (0, 0) with world size 1000, gives grassland | fall back to grassland only for a missing cell | not executed | Biomes.WaterSampledAsGrass | Biomes.SampleBiomeReadsCell |

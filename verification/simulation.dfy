/**
 * The simulation hook of `src/hooks/useSimulation.tsx`: one tick of the
 * three systems, then the projection of the world into the store's entity
 * records and the world's metrics. The timers that schedule ticks, and
 * the random events, are not part of this module; the current time is a
 * parameter (`now` for `Date.now()`, `timestamp` for the ISO string).
 */
module Simulation {
  import opened Wrappers
  import opened Components
  import opened Ecs
  import opened ApiTypes
  import Js
  import Rng
  import HungerSystem
  import WanderSystem
  import AgingSystem
  import SimStore

  /** The fixed timestep of a tick. */
  const DeltaTime: real := 1.0

  /** The components `updateEntitiesFromWorld` asks `forEachEntityWith` for. */
  const ProjectedTypes: seq<ComponentType> := [PositionType, SpeciesType, HungerType, AgeType]

  // -------------------------------------------------------------- traits

  /** The trait pool for a species name; an unknown name gets the lone 'Mysterious'. */
  function TraitPool(species: string): (pool: seq<string>)
    ensures |pool| == 5 || pool == ["Mysterious"]
  {
    if species == "HERBIVORE" then ["Gentle", "Alert", "Social", "Cautious", "Nurturing"]
    else if species == "PREDATOR" then ["Fierce", "Cunning", "Solitary", "Patient", "Territorial"]
    else if species == "TRIBAL" then ["Wise", "Cooperative", "Inventive", "Spiritual", "Protective"]
    else ["Mysterious"]
  }

  /** What `generateTraits` promises: one to three distinct traits, all from the pool. */
  predicate TraitsFrom(traits: seq<string>, pool: seq<string>) {
    && 1 <= |traits| <= 3
    && (forall i, j :: 0 <= i < j < |traits| ==> traits[i] != traits[j])
    && (forall i :: 0 <= i < |traits| ==> traits[i] in pool)
  }

  /** Every species kind has a pool of its own. */
  lemma KindsHavePools(kind: SpeciesKind)
    ensures |TraitPool(SpeciesName(kind))| == 5
    ensures "Mysterious" !in TraitPool(SpeciesName(kind))
  {
  }

  /**
   * `generateTraits(species)`: draws a count in [1, 4), then that many
   * elements of the pool, keeping each new one.
   */
  method GenerateTraits(rng: Rng.SeededRng, species: string) returns (traits: seq<string>)
    requires rng.Valid() && rng.InRangeState()
    modifies rng
    ensures rng.Valid() && rng.InRangeState()
    ensures TraitsFrom(traits, TraitPool(species))
  {
    var pool := TraitPool(species);
    var count := rng.NextInt(1, 4);
    traits := [];
    var i := 0;
    while i < count
      invariant 0 <= i <= count <= 3
      invariant rng.Valid() && rng.InRangeState()
      invariant |traits| <= i && (i > 0 ==> |traits| > 0)
      invariant forall a, b :: 0 <= a < b < |traits| ==> traits[a] != traits[b]
      invariant forall k :: 0 <= k < |traits| ==> traits[k] in pool
    {
      var drawn := rng.NextElement(pool);
      if drawn.Some? && drawn.value !in traits {
        traits := traits + [drawn.value];
      }
      i := i + 1;
    }
  }

  // ---------------------------------------------------------- projection

  /** The four projected components are present with their own tags. */
  predicate Projectable(tables: Tables, id: EntityId) {
    && PositionType in tables && id in tables[PositionType] && tables[PositionType][id].PositionOf?
    && SpeciesType in tables && id in tables[SpeciesType] && tables[SpeciesType][id].SpeciesOf?
    && HungerType in tables && id in tables[HungerType] && tables[HungerType][id].HungerOf?
    && AgeType in tables && id in tables[AgeType] && tables[AgeType][id].AgeOf?
  }

  /**
   * The record `updateEntitiesFromWorld` makes of `id`: its position,
   * species, age and hunger; experience `floor(age / 10)`; traits drawn for
   * its species; and no altitude, behavior or health, since those were not
   * among the queried components.
   */
  predicate ProjectionOf(tables: Tables, id: EntityId, timestamp: string, d: EntityDetail) {
    && Projectable(tables, id)
    && var p := tables[PositionType][id].position;
    && var age := tables[AgeType][id].age.value;
    && d.id == Js.NatToString(id)
    && d.species == tables[SpeciesType][id].species.kind
    && d.position == ApiPosition(p.x, p.y)
    && d.age == age
    && d.hunger == tables[HungerType][id].hunger.value
    && d.createdAt == timestamp
    && d.experience == Some(Js.Floor(age / 10.0))
    && d.altitude == None && d.behavior == None && d.health == None && d.villageId == None
    && d.traits.Some? && TraitsFrom(d.traits.value, TraitPool(SpeciesName(d.species)))
  }

  /** The row of the four projected components of `id`. */
  function ProjectedRow(tables: Tables, id: EntityId): (row: Partial)
    requires Projectable(tables, id)
    ensures row.Keys == {PositionType, SpeciesType, HungerType, AgeType}
  {
    map[PositionType := tables[PositionType][id], SpeciesType := tables[SpeciesType][id],
        HungerType := tables[HungerType][id], AgeType := tables[AgeType][id]]
  }

  /**
   * An entity the query returns holds the four projected components, and
   * `getComponents` hands back exactly those four.
   */
  lemma MaterializedRow(world: World, id: EntityId)
    requires world.Valid() && id in world.QueryEntities(ProjectedTypes)
    ensures Projectable(world.tables, id)
    ensures world.Materialize(id, ProjectedTypes) == ProjectedRow(world.tables, id)
  {
    RowOfHolder(world.tables, id);
  }

  lemma RowOfHolder(tables: Tables, id: EntityId)
    requires TablesTyped(tables) && HoldsAll(tables, id, ProjectedTypes)
    ensures Projectable(tables, id)
    ensures (map t | t in ProjectedTypes && t in tables && id in tables[t] :: tables[t][id]) == ProjectedRow(tables, id)
  {
    assert PositionType in ProjectedTypes && SpeciesType in ProjectedTypes;
    assert HungerType in ProjectedTypes && AgeType in ProjectedTypes;
    assert TypeOf(tables[PositionType][id]) == PositionType && TypeOf(tables[SpeciesType][id]) == SpeciesType;
    assert TypeOf(tables[HungerType][id]) == HungerType && TypeOf(tables[AgeType][id]) == AgeType;
  }

  /**
   * The record made of the components `getComponents` handed back. The
   * optional altitude, behavior and health are read from the row when it
   * holds them.
   */
  function Detail(row: Partial, id: EntityId, timestamp: string, traits: seq<string>): (d: EntityDetail)
    requires PositionType in row && row[PositionType].PositionOf? && SpeciesType in row && row[SpeciesType].SpeciesOf?
    requires HungerType in row && row[HungerType].HungerOf? && AgeType in row && row[AgeType].AgeOf?
    requires AltitudeType in row ==> row[AltitudeType].AltitudeOf?
    requires BehaviorType in row ==> row[BehaviorType].BehaviorOf?
    requires HealthType in row ==> row[HealthType].HealthOf?
    ensures d.altitude.Some? <==> AltitudeType in row
    ensures d.behavior.Some? <==> BehaviorType in row
    ensures d.health.Some? <==> HealthType in row
    ensures d.villageId == None && d.traits == Some(traits)
  {
    var position := row[PositionType].position;
    var age := row[AgeType].age.value;
    EntityDetail(
      Js.NatToString(id), row[SpeciesType].species.kind, ApiPosition(position.x, position.y),
      if AltitudeType in row then Some(row[AltitudeType].altitude.value) else None,
      age, row[HungerType].hunger.value, None, timestamp,
      if BehaviorType in row then Some(row[BehaviorType].behavior.current) else None,
      if HealthType in row then Some(row[HealthType].health.current) else None,
      Some(Js.Floor(age / 10.0)), Some(traits))
  }

  /** The record of a queried entity's row is its projection. */
  lemma DetailIsProjection(tables: Tables, id: EntityId, timestamp: string, traits: seq<string>)
    requires Projectable(tables, id)
    requires TraitsFrom(traits, TraitPool(SpeciesName(tables[SpeciesType][id].species.kind)))
    ensures ProjectionOf(tables, id, timestamp, Detail(ProjectedRow(tables, id), id, timestamp, traits))
  {
  }

  /** The callback of `forEachEntityWith` for one entity. */
  method ProjectOne(world: World, rng: Rng.SeededRng, id: EntityId, timestamp: string) returns (d: EntityDetail)
    requires world.Valid() && rng.Valid() && rng.InRangeState()
    requires id in world.QueryEntities(ProjectedTypes)
    modifies rng
    ensures rng.Valid() && rng.InRangeState()
    ensures ProjectionOf(world.tables, id, timestamp, d)
  {
    var components := world.Materialize(id, ProjectedTypes);
    MaterializedRow(world, id);
    var traits := GenerateTraits(rng, SpeciesName(components[SpeciesType].species.kind));
    DetailIsProjection(world.tables, id, timestamp, traits);
    d := Detail(components, id, timestamp, traits);
  }

  /**
   * `updateEntitiesFromWorld` up to the store update: one record per
   * entity holding position, species, hunger and age, in entity order.
   */
  method ProjectEntities(world: World, rng: Rng.SeededRng, timestamp: string) returns (list: seq<EntityDetail>)
    requires world.Valid() && rng.Valid() && rng.InRangeState()
    modifies rng
    ensures rng.Valid() && rng.InRangeState()
    ensures var q := world.QueryEntities(ProjectedTypes);
      && |list| == |q|
      && forall k :: 0 <= k < |q| ==> ProjectionOf(world.tables, q[k], timestamp, list[k])
  {
    var q := world.QueryEntities(ProjectedTypes);
    list := [];
    while |list| < |q|
      invariant rng.Valid() && rng.InRangeState()
      invariant ProjectedPrefix(world.tables, q, timestamp, list)
      decreases |q| - |list|
    {
      var d := ProjectOne(world, rng, q[|list|], timestamp);
      ProjectedStep(world.tables, q, timestamp, list, d);
      list := list + [d];
    }
  }

  /** The records of `list` project the first `|list|` entities of `q`, in order. */
  predicate ProjectedPrefix(tables: Tables, q: seq<EntityId>, timestamp: string, list: seq<EntityDetail>) {
    |list| <= |q| && forall k :: 0 <= k < |list| ==> ProjectionOf(tables, q[k], timestamp, list[k])
  }

  lemma ProjectedStep(tables: Tables, q: seq<EntityId>, timestamp: string, list: seq<EntityDetail>, d: EntityDetail)
    requires ProjectedPrefix(tables, q, timestamp, list) && |list| < |q|
    requires ProjectionOf(tables, q[|list|], timestamp, d)
    ensures ProjectedPrefix(tables, q, timestamp, list + [d])
  {
  }

  /** Projected records carry distinct ids, so the store keeps every one of them. */
  lemma ProjectedIdsDistinct(tables: Tables, q: seq<EntityId>, timestamp: string, list: seq<EntityDetail>)
    requires Distinct(q) && |list| == |q|
    requires forall k :: 0 <= k < |q| ==> ProjectionOf(tables, q[k], timestamp, list[k])
    ensures forall i, j :: 0 <= i < j < |list| ==> list[i].id != list[j].id
    ensures |SimStore.KeyedById(list)| == |list|
  {
    forall i, j | 0 <= i < j < |list| ensures list[i].id != list[j].id {
      Js.NatToStringInjective(q[i], q[j]);
    }
    SimStore.KeyedByIdDistinct(list);
  }

  // ------------------------------------------------------------- metrics

  /** The record `getPopulationBySpecies` returns: all three names, always. */
  function BySpecies(pop: Population): (m: map<string, int>)
    ensures m.Keys == {"HERBIVORE", "PREDATOR", "TRIBAL"}
    ensures m["HERBIVORE"] + m["PREDATOR"] + m["TRIBAL"] == pop.Total()
  {
    map["HERBIVORE" := pop.herbivores, "PREDATOR" := pop.predators, "TRIBAL" := pop.tribals]
  }

  /** When every id holds the requested types, the query returns the ids themselves. */
  lemma {:induction false} HoldingEveryone(ids: seq<EntityId>, tables: Tables, types: seq<ComponentType>)
    requires forall id :: id in ids ==> HoldsAll(tables, id, types)
    ensures Holding(ids, tables, types) == ids
    decreases |ids|
  {
    if ids != [] {
      HoldingEveryone(ids[1..], tables, types);
    }
  }

  /**
   * `updateMetricsFromWorld` up to the store update: the total is the
   * entity count, the per-species counts come from `getPopulationBySpecies`
   * and add up to the number of entities holding a species (the total
   * itself when every entity has one), and births, deaths and discoveries
   * are three draws of the generator, in that order.
   */
  method MetricsFromWorld(world: World, rng: Rng.SeededRng, timestamp: string) returns (metrics: WorldMetrics)
    requires world.Valid() && rng.Valid() && rng.InRangeState()
    modifies rng
    ensures rng.Valid() && rng.InRangeState()
    ensures metrics.timestamp == timestamp && metrics.total == world.EntityCount()
    ensures metrics.bySpecies.Keys == {"HERBIVORE", "PREDATOR", "TRIBAL"}
    ensures var q := world.QueryEntities([SpeciesType]);
      && metrics.bySpecies["HERBIVORE"] == CountKind(q, world.tables[SpeciesType], Herbivore)
      && metrics.bySpecies["PREDATOR"] == CountKind(q, world.tables[SpeciesType], Predator)
      && metrics.bySpecies["TRIBAL"] == CountKind(q, world.tables[SpeciesType], Tribal)
      && metrics.bySpecies["HERBIVORE"] + metrics.bySpecies["PREDATOR"] + metrics.bySpecies["TRIBAL"] == |q|
    ensures (forall id :: id in world.entities ==> world.HasComponent(id, SpeciesType)) ==>
      metrics.bySpecies["HERBIVORE"] + metrics.bySpecies["PREDATOR"] + metrics.bySpecies["TRIBAL"] == metrics.total
    ensures 0 <= metrics.births < 10 && 0 <= metrics.deaths < 5 && 0 <= metrics.discoveries < 3
  {
    var pop := world.PopulationBySpecies();
    if forall id :: id in world.entities ==> world.HasComponent(id, SpeciesType) {
      HoldingEveryone(world.entities, world.tables, [SpeciesType]);
    }
    var b := rng.Next();
    var d := rng.Next();
    var s := rng.Next();
    metrics := WorldMetrics(timestamp, world.EntityCount(), BySpecies(pop),
      Js.Scaled(b, 10), Js.Scaled(d, 5), Js.Scaled(s, 3));
  }

  // ---------------------------------------------------------------- tick

  /**
   * The systems of one tick, in order, each with `dt = 1`: hunger, then
   * wander, then aging. When the hunger system throws, the tick stops
   * there and the world is as the hunger system left it. The ghost results
   * are the tables and entities between the systems.
   */
  method RunSystems(world: World, rng: Rng.SeededRng, m: Js.MathLib)
    returns (outcome: HungerSystem.TickOutcome, ghost afterHunger: Tables, ghost survivors: seq<EntityId>,
             ghost firstNew: nat, ghost afterWander: Tables)
    requires world.Valid() && rng.Valid() && rng.InRangeState()
    modifies world, rng
    ensures world.Valid() && rng.Valid() && rng.InRangeState()
    ensures var q := old(world.QueryEntities(HungerSystem.VitalTypes));
      && HungerSystem.Reached(outcome, |q|) <= |q|
      && HungerSystem.Swept(old(world.tables), old(world.entities), old(world.nextEntityId), q,
                            HungerSystem.Reached(outcome, |q|), afterHunger, survivors, DeltaTime)
    ensures outcome.Aborted? ==> world.tables == afterHunger && world.entities == survivors
    ensures outcome.Completed? ==>
      var movers := Holding(survivors, afterHunger, WanderSystem.MoverTypes);
      WanderSystem.Wandered(afterHunger, afterWander, movers, |movers|, DeltaTime, m)
    ensures outcome.Completed? ==>
      var lives := Holding(survivors, afterWander, AgingSystem.LifeTypes);
      AgingSystem.Swept(afterWander, survivors, firstNew, lives, |lives|, world.tables, world.entities, DeltaTime)
  {
    outcome := HungerSystem.Run(world, rng, m, DeltaTime);
    afterHunger, survivors, firstNew, afterWander := world.tables, world.entities, world.nextEntityId, world.tables;
    if outcome.Aborted? {
      return;
    }
    WanderSystem.Run(world, rng, m, DeltaTime);
    afterWander := world.tables;
    AgingSystem.Run(world, rng, m, DeltaTime);
  }

  /**
   * The part of the interval callback after the systems: `incrementTick`,
   * then the entity projection, then the metrics.
   */
  method Publish(world: World, rng: Rng.SeededRng, store: SimStore.Store, now: int, timestamp: string)
    returns (projected: seq<EntityDetail>, metrics: WorldMetrics)
    requires world.Valid() && rng.Valid() && rng.InRangeState() && store.Valid()
    modifies rng, store
    ensures rng.Valid() && rng.InRangeState() && store.Valid()
    ensures store.state == old(store.state).(
      currentTick := old(store.state.currentTick) + 1,
      entities := SimStore.KeyedById(projected),
      population := world.EntityCount(),
      metrics := Some(metrics),
      lastMetricsUpdate := now)
    ensures |store.state.entities| == |projected| == |world.QueryEntities(ProjectedTypes)|
    ensures forall k :: 0 <= k < |projected| ==>
      ProjectionOf(world.tables, world.QueryEntities(ProjectedTypes)[k], timestamp, projected[k])
    ensures metrics.total == world.EntityCount() && metrics.timestamp == timestamp
  {
    store.IncrementTick();
    projected := ProjectEntities(world, rng, timestamp);
    ProjectedIdsDistinct(world.tables, world.QueryEntities(ProjectedTypes), timestamp, projected);
    store.UpdateEntities(projected);
    metrics := MetricsFromWorld(world, rng, timestamp);
    store.UpdateMetrics(metrics, now);
  }

  /**
   * The interval callback: the systems, then the store updates of
   * `Publish`. An exception thrown by a system is caught, and then the
   * store is left exactly as it was. Otherwise the tick count advances by
   * one, the store holds one record per projected entity, and the
   * population is the entity count (the metrics update comes last);
   * nothing else in the store changes. The world is advanced as
   * `RunSystems` states, with its ghost results passed on.
   */
  method Tick(world: World, rng: Rng.SeededRng, m: Js.MathLib, store: SimStore.Store, now: int, timestamp: string)
    returns (outcome: HungerSystem.TickOutcome, projected: seq<EntityDetail>, metrics: WorldMetrics,
             ghost afterHunger: Tables, ghost survivors: seq<EntityId>, ghost firstNew: nat, ghost afterWander: Tables)
    requires world.Valid() && rng.Valid() && rng.InRangeState() && store.Valid()
    modifies world, rng, store
    ensures world.Valid() && rng.Valid() && rng.InRangeState() && store.Valid()
    ensures var q := old(world.QueryEntities(HungerSystem.VitalTypes));
      && HungerSystem.Reached(outcome, |q|) <= |q|
      && HungerSystem.Swept(old(world.tables), old(world.entities), old(world.nextEntityId), q,
                            HungerSystem.Reached(outcome, |q|), afterHunger, survivors, DeltaTime)
    ensures outcome.Aborted? ==> world.tables == afterHunger && world.entities == survivors
    ensures outcome.Completed? ==>
      var movers := Holding(survivors, afterHunger, WanderSystem.MoverTypes);
      WanderSystem.Wandered(afterHunger, afterWander, movers, |movers|, DeltaTime, m)
    ensures outcome.Completed? ==>
      var lives := Holding(survivors, afterWander, AgingSystem.LifeTypes);
      AgingSystem.Swept(afterWander, survivors, firstNew, lives, |lives|, world.tables, world.entities, DeltaTime)
    ensures outcome.Aborted? ==> unchanged(store)
    ensures outcome.Completed? ==>
      store.state == old(store.state).(
        currentTick := old(store.state.currentTick) + 1,
        entities := SimStore.KeyedById(projected),
        population := world.EntityCount(),
        metrics := Some(metrics),
        lastMetricsUpdate := now)
    ensures outcome.Completed? ==>
      && |store.state.entities| == |projected| == |world.QueryEntities(ProjectedTypes)|
      && (forall k :: 0 <= k < |projected| ==>
            ProjectionOf(world.tables, world.QueryEntities(ProjectedTypes)[k], timestamp, projected[k]))
      && metrics.total == world.EntityCount() && metrics.timestamp == timestamp
  {
    outcome, afterHunger, survivors, firstNew, afterWander := RunSystems(world, rng, m);
    projected := [];
    metrics := WorldMetrics(timestamp, 0, map[], 0, 0, 0);
    if outcome.Completed? {
      projected, metrics := Publish(world, rng, store, now, timestamp);
    }
  }
}

/**
 * The hunger system of src/sim/ecs/systems/hunger.ts: every tick each entity
 * holding hunger, health and energy gets hungrier, its health and energy
 * follow its hunger, a starved entity dies (and is sometimes replaced nearby),
 * and a survivor may feed.
 *
 * The callback of `forEachEntityWith` receives a record holding only the
 * three queried components, so `attemptFeeding` reads `species.kind` of a
 * missing species whenever the entity is hungry enough to feed: that throws,
 * and the exception ends the whole tick. `Run` reports that as `Aborted`.
 */
module HungerSystem {
  import opened Wrappers
  import opened Components
  import opened Ecs
  import opened Newborns
  import opened Sweeps
  import Rng
  import Js

  /** The three records the system reads and writes for one entity. */
  datatype Vitals = Vitals(hunger: Hunger, health: Health, energy: Energy)

  /** `handleStarvationDeath` is `Newborns.HandleDeath` with a 5% chance of a newborn within 50 units. */
  const StarvationRespawnChance: real := 0.05
  const StarvationRespawnRadius: real := 50.0

  /** The queried component types, in the order the system names them. */
  const VitalTypes: seq<ComponentType> := [HungerType, HealthType, EnergyType]

  predicate HasVitals(tables: Tables, id: EntityId) {
    && HungerType in tables && id in tables[HungerType] && tables[HungerType][id].HungerOf?
    && HealthType in tables && id in tables[HealthType] && tables[HealthType][id].HealthOf?
    && EnergyType in tables && id in tables[EnergyType] && tables[EnergyType][id].EnergyOf?
  }

  function VitalsAt(tables: Tables, id: EntityId): Vitals
    requires HasVitals(tables, id)
  {
    Vitals(tables[HungerType][id].hunger, tables[HealthType][id].health, tables[EnergyType][id].energy)
  }

  /** The tables after writing `v` back into `id`'s three records. */
  function WithVitals(tables: Tables, id: EntityId, v: Vitals): Tables
    requires Registered(tables)
  {
    PutAt(PutAt(PutAt(tables, HungerType, id, HungerOf(v.hunger)), HealthType, id, HealthOf(v.health)),
          EnergyType, id, EnergyOf(v.energy))
  }

  lemma SameRowAfterVitals(tables: Tables, id: EntityId, v: Vitals)
    requires Registered(tables)
    ensures forall x: EntityId :: x != id ==> SameRow(WithVitals(tables, id, v), tables, x)
  {
    forall x: EntityId | x != id
      ensures SameRow(WithVitals(tables, id, v), tables, x)
    {
      forall t: ComponentType
        ensures x in WithVitals(tables, id, v)[t] <==> x in tables[t]
        ensures x in tables[t] ==> WithVitals(tables, id, v)[t][x] == tables[t][x]
      {
      }
    }
  }

  predicate VitalsBounded(v: Vitals) {
    && ComponentBounded(HungerOf(v.hunger))
    && ComponentBounded(HealthOf(v.health))
    && ComponentBounded(EnergyOf(v.energy))
  }

  /** Hunger after `dt`: it rises by `rate * dt` and stops at 1. */
  function GrowHunger(h: Hunger, dt: real): (g: Hunger)
    ensures g.rate == h.rate && g.value <= 1.0
    ensures h.value + h.rate * dt <= 1.0 ==> g.value == h.value + h.rate * dt
    ensures 0.0 <= h.rate && 0.0 <= dt && h.value <= 1.0 ==> h.value <= g.value
  {
    if 0.0 <= h.rate && 0.0 <= dt then
      Js.ProductNonNegative(h.rate, dt);
      h.(value := Js.Min(h.value + h.rate * dt, 1.0))
    else
      h.(value := Js.Min(h.value + h.rate * dt, 1.0))
  }

  /** Health and energy after a tick at hunger level `h`, before clamping at zero. */
  function Drain(v: Vitals, h: real, dt: real): (r: Vitals)
  {
    if h > 0.8 then v.(health := v.health.(current := v.health.current - 0.01 * dt),
                       energy := v.energy.(current := v.energy.current - 0.02 * dt))
    else if h > 0.5 then v.(health := v.health.(current := v.health.current - 0.002 * dt),
                            energy := v.energy.(current := v.energy.current - 0.005 * dt))
    else if h < 0.3 then v.(health := v.health.(current := Js.Min(v.health.current + 0.001 * dt, v.health.maximum)),
                            energy := v.energy.(current := Js.Min(v.energy.current + 0.003 * dt, 1.0)))
    else v
  }

  /** One tick of metabolism: hunger grows (capped at 1), health and energy follow it, both clamped at 0. */
  function Metabolize(v: Vitals, dt: real): (r: Vitals)
    ensures r.hunger.rate == v.hunger.rate && r.hunger.value <= 1.0
    ensures r.health.maximum == v.health.maximum && r.energy.consumption == v.energy.consumption
    ensures 0.0 <= r.health.current && 0.0 <= r.energy.current
  {
    var hunger := GrowHunger(v.hunger, dt);
    var drained := Drain(v, hunger.value, dt);
    Vitals(hunger, drained.health.(current := Js.Max(drained.health.current, 0.0)),
           drained.energy.(current := Js.Max(drained.energy.current, 0.0)))
  }

  /** The four hunger bands: starving and hungry entities lose health and energy, fed ones recover. */
  lemma MetabolismTiers(v: Vitals, dt: real)
    requires VitalsBounded(v) && dt >= 0.0
    ensures var r := Metabolize(v, dt);
      && v.hunger.value <= r.hunger.value
      && (v.hunger.value + v.hunger.rate * dt <= 1.0 ==> r.hunger.value == v.hunger.value + v.hunger.rate * dt)
      && (r.hunger.value > 0.5 ==> r.health.current <= v.health.current && r.energy.current <= v.energy.current)
      && (r.hunger.value > 0.5 && dt > 0.0 && v.health.current > 0.0 ==> r.health.current < v.health.current)
      && (r.hunger.value > 0.8 ==> r.health.current == Js.Max(v.health.current - 0.01 * dt, 0.0))
      && (0.5 < r.hunger.value <= 0.8 ==> r.health.current == Js.Max(v.health.current - 0.002 * dt, 0.0))
      && (0.3 <= r.hunger.value <= 0.5 ==> r.health == v.health && r.energy == v.energy)
      && (r.hunger.value < 0.3 ==> v.health.current <= r.health.current && v.energy.current <= r.energy.current)
  {
    assert 0.0 <= v.hunger.rate;
  }

  lemma MetabolizeBounded(v: Vitals, dt: real)
    requires VitalsBounded(v) && dt >= 0.0
    ensures VitalsBounded(Metabolize(v, dt))
  {
    assert 0.0 <= v.hunger.value && 0.0 <= v.hunger.rate;
  }

  /** Only an entity past the "hungry" line can starve in one tick. */
  lemma OnlyHungryStarve(v: Vitals, dt: real)
    requires VitalsBounded(v) && dt >= 0.0 && v.health.current > 0.0
    ensures Metabolize(v, dt).health.current <= 0.0 ==> Metabolize(v, dt).hunger.value > 0.5
  {
    MetabolismTiers(v, dt);
  }

  lemma WithVitalsBounded(tables: Tables, id: EntityId, v: Vitals)
    requires Registered(tables) && TablesBounded(tables) && VitalsBounded(v)
    ensures TablesBounded(WithVitals(tables, id, v))
  {
  }

  /** The species' base chance of feeding in one tick. */
  function BaseFeedingChance(kind: SpeciesKind): (r: real)
    ensures 0.05 <= r <= 0.15
  {
    match kind
    case Herbivore => 0.15
    case Predator => 0.05
    case Tribal => 0.10
  }

  /** The feeding chance at `distance` from the origin: richer within 200, sparser beyond 400, never above 30%. */
  function ChanceAt(kind: SpeciesKind, distance: real): (chance: real)
    ensures 0.0 < chance <= 0.3
    ensures distance < 200.0 ==> chance == BaseFeedingChance(kind) * 1.5
    ensures 200.0 <= distance <= 400.0 ==> chance == BaseFeedingChance(kind)
    ensures 400.0 < distance ==> chance == BaseFeedingChance(kind) * 0.5
  {
    var base := BaseFeedingChance(kind);
    var scaled := if distance < 200.0 then base * 1.5 else if distance > 400.0 then base * 0.5 else base;
    Js.Min(scaled, 0.3)
  }

  /** `Math.sqrt(x * x + y * y)`. */
  function OriginDistance(position: Position, m: Js.MathLib): real {
    m.Sqrt(SquaredNorm(position))
  }

  /** `calculateFeedingChance`. */
  function CalculateFeedingChance(kind: SpeciesKind, position: Position, m: Js.MathLib): (chance: real)
    ensures 0.0 < chance <= 0.3
  {
    ChanceAt(kind, OriginDistance(position, m))
  }

  /** With a true square root the bands are the discs of radius 200 and 400 around the origin. */
  lemma FeedingChanceByDistance(kind: SpeciesKind, position: Position, m: Js.MathLib)
    requires Js.ExactSqrt(m)
    ensures var d2 := SquaredNorm(position);
      var chance := CalculateFeedingChance(kind, position, m);
      && (d2 < 40000.0 ==> chance == BaseFeedingChance(kind) * 1.5)
      && (40000.0 <= d2 <= 160000.0 ==> chance == BaseFeedingChance(kind))
      && (160000.0 < d2 ==> chance == BaseFeedingChance(kind) * 0.5)
  {
    var d2 := SquaredNorm(position);
    Js.SqrtAtMost(m, d2, 200.0);
    Js.SqrtAtMost(m, d2, 400.0);
  }

  datatype FeedOutcome = NotHungry | Threw | Fed | Missed

  /** The tables after a successful feeding: hunger drops by 0.3 and a present behavior turns to "Feeding". */
  function FedTables(tables: Tables, id: EntityId, record: Partial): Tables
    requires Registered(tables) && HungerType in record && record[HungerType].HungerOf?
  {
    var h := record[HungerType].hunger;
    var fed := PutAt(tables, HungerType, id, HungerOf(h.(value := Js.Max(h.value - 0.3, 0.0))));
    if BehaviorType in record && record[BehaviorType].BehaviorOf? then
      PutAt(fed, BehaviorType, id, BehaviorOf(record[BehaviorType].behavior.(current := "Feeding", cooldown := 30.0)))
    else
      fed
  }

  /** `attemptFeeding`: a hungry entity with species and position rolls its feeding chance. */
  method AttemptFeeding(world: World, rng: Rng.SeededRng, m: Js.MathLib, id: EntityId, record: Partial)
    returns (outcome: FeedOutcome)
    requires world.Valid() && rng.Valid() && HungerType in record && RecordOf(world, id, record)
    modifies world, rng
    ensures world.Valid() && rng.Valid()
    ensures world.entities == old(world.entities) && world.nextEntityId == old(world.nextEntityId)
    ensures old(rng.InRangeState()) ==> rng.InRangeState()
    ensures outcome == NotHungry <==> record[HungerType].hunger.value < 0.3
    ensures outcome == Threw <==>
      record[HungerType].hunger.value >= 0.3 && (SpeciesType !in record || PositionType !in record)
    ensures outcome.NotHungry? || outcome.Threw? ==> world.tables == old(world.tables) && rng.seed == old(rng.seed)
    ensures outcome.Fed? || outcome.Missed? ==>
      && SpeciesType in record && PositionType in record
      && rng.seed == Rng.Step(old(rng.seed))
      && (outcome.Fed? <==> Rng.Output(rng.seed) < CalculateFeedingChance(record[SpeciesType].species.kind, record[PositionType].position, m))
    ensures outcome.Missed? ==> world.tables == old(world.tables)
    ensures outcome.Fed? ==> world.tables == FedTables(old(world.tables), id, record)
  {
    var hunger := record[HungerType].hunger;
    if hunger.value < 0.3 {
      return NotHungry;
    }
    if SpeciesType !in record || PositionType !in record {
      return Threw;
    }
    var chance := CalculateFeedingChance(record[SpeciesType].species.kind, record[PositionType].position, m);
    var success := rng.NextBool(chance);
    if !success {
      return Missed;
    }
    Feed(world, id, record);
    return Fed;
  }

  /** A successful feeding: hunger down by 0.3 (not below 0), and the behaviour, if any, set to feeding. */
  method Feed(world: World, id: EntityId, record: Partial)
    requires world.Valid() && HungerType in record && RecordOf(world, id, record)
    modifies world
    ensures world.Valid()
    ensures world.entities == old(world.entities) && world.nextEntityId == old(world.nextEntityId)
    ensures world.tables == FedTables(old(world.tables), id, record)
  {
    var hunger := record[HungerType].hunger;
    world.Overwrite(id, HungerOf(hunger.(value := Js.Max(hunger.value - 0.3, 0.0))));
    if BehaviorType in record {
      world.Overwrite(id, BehaviorOf(record[BehaviorType].behavior.(current := "Feeding", cooldown := 30.0)));
    }
  }

  /**
   * What a tick did to `id`, seen from the tables `before` it: the entity
   * survives exactly when its metabolised health is positive; a survivor's
   * row is the metabolised one, a casualty has no components left.
   */
  ghost predicate Visited(before: Tables, tables: Tables, entities: seq<EntityId>, id: EntityId, dt: real) {
    && Registered(before)
    && HasVitals(before, id)
    && var v := Metabolize(VitalsAt(before, id), dt);
    && (id in entities <==> v.health.current > 0.0)
    && (id in entities ==> SameRow(tables, WithVitals(before, id, v), id))
    && (id !in entities ==> forall t :: t in tables ==> id !in tables[t])
  }

  /** A later step that leaves `id`'s row and membership alone keeps what an earlier step did to it. */
  lemma VisitedStable(before: Tables, t1: Tables, e1: seq<EntityId>, t2: Tables, e2: seq<EntityId>, id: EntityId, dt: real)
    requires Visited(before, t1, e1, id, dt) && SameRow(t2, t1, id) && (id in e2 <==> id in e1)
    ensures Visited(before, t2, e2, id, dt)
  {
    var v := Metabolize(VitalsAt(before, id), dt);
    if id in e1 {
      SameRowTrans(t2, t1, WithVitals(before, id, v), id);
    }
  }

  /** A step taken from tables that agree with `before` on `id`'s row counts as a step from `before`. */
  lemma VisitedRebase(before: Tables, mid: Tables, tables: Tables, entities: seq<EntityId>, id: EntityId, dt: real)
    requires Registered(before) && HasVitals(before, id) && SameRow(mid, before, id)
    requires Visited(mid, tables, entities, id, dt)
    ensures Visited(before, tables, entities, id, dt)
  {
    assert VitalsAt(mid, id) == VitalsAt(before, id);
    var v := Metabolize(VitalsAt(before, id), dt);
    if id in entities {
      assert SameRow(WithVitals(mid, id, v), WithVitals(before, id, v), id) by {
        forall t: ComponentType
          ensures id in WithVitals(mid, id, v)[t] <==> id in WithVitals(before, id, v)[t]
          ensures id in WithVitals(mid, id, v)[t] ==> WithVitals(mid, id, v)[t][id] == WithVitals(before, id, v)[t][id]
        {
        }
      }
      SameRowTrans(tables, WithVitals(mid, id, v), WithVitals(before, id, v), id);
    }
  }

  /** The metabolism step of the callback, written back into the entity's three records. */
  method ApplyMetabolism(world: World, id: EntityId, dt: real) returns (v: Vitals)
    requires world.Valid() && HasVitals(world.tables, id)
    modifies world
    ensures world.Valid() && world.entities == old(world.entities) && world.nextEntityId == old(world.nextEntityId)
    ensures v == Metabolize(VitalsAt(old(world.tables), id), dt)
    ensures world.tables == WithVitals(old(world.tables), id, v)
    ensures dt >= 0.0 && old(world.Bounded()) ==> world.Bounded()
  {
    ghost var before := world.tables;
    v := Metabolize(VitalsAt(world.tables, id), dt);
    if dt >= 0.0 && world.Bounded() {
      assert VitalsBounded(VitalsAt(before, id));
      MetabolizeBounded(VitalsAt(before, id), dt);
      WithVitalsBounded(before, id, v);
    }
    world.Overwrite(id, HungerOf(v.hunger));
    world.Overwrite(id, HealthOf(v.health));
    world.Overwrite(id, EnergyOf(v.energy));
  }

  /**
   * `attemptFeeding` as the callback calls it, on the record of the three
   * queried components: it finds no species, so it throws exactly when the
   * entity is hungry enough to feed, and changes nothing either way.
   */
  method FeedFromCallback(world: World, rng: Rng.SeededRng, m: Js.MathLib, id: EntityId) returns (threw: bool)
    requires world.Valid() && rng.Valid() && HasVitals(world.tables, id)
    modifies world, rng
    ensures world.Valid() && rng.Valid()
    ensures world.tables == old(world.tables) && world.entities == old(world.entities)
    ensures world.nextEntityId == old(world.nextEntityId) && rng.seed == old(rng.seed)
    ensures threw <==> world.tables[HungerType][id].hunger.value >= 0.3
  {
    var record := world.Materialize(id, VitalTypes);
    var outcome := AttemptFeeding(world, rng, m, id, record);
    threw := outcome.Threw?;
  }

  /** The callback body for one entity: metabolism, then death or a feeding attempt. */
  method ProcessEntity(world: World, rng: Rng.SeededRng, m: Js.MathLib, id: EntityId, dt: real)
    returns (survived: bool, aborted: bool)
    requires world.Valid() && rng.Valid() && world.HasEntity(id) && HasVitals(world.tables, id)
    modifies world, rng
    ensures world.Valid() && rng.Valid()
    ensures old(rng.InRangeState()) ==> rng.InRangeState()
    ensures dt >= 0.0 && old(world.Bounded()) ==> world.Bounded()
    ensures old(world.nextEntityId) <= world.nextEntityId
    ensures Visited(old(world.tables), world.tables, world.entities, id, dt)
    ensures survived <==> world.HasEntity(id)
    ensures aborted <==> survived && Metabolize(VitalsAt(old(world.tables), id), dt).hunger.value >= 0.3
    ensures forall x: EntityId :: x != id && x < old(world.nextEntityId) ==>
      SameRow(world.tables, old(world.tables), x) && (x in world.entities <==> x in old(world.entities))
    ensures forall x: EntityId :: x in world.entities && x !in old(world.entities) ==>
      old(world.nextEntityId) <= x && HasSystemTypes(world.tables, x)
  {
    ghost var before := world.tables;
    var v := ApplyMetabolism(world, id, dt);
    SameRowAfterVitals(before, id, v);
    ghost var written := world.tables;
    if v.health.current <= 0.0 {
      Perish(world, rng, id, StarvationRespawnChance, StarvationRespawnRadius);
      forall x: EntityId | x != id && x < old(world.nextEntityId)
        ensures SameRow(world.tables, before, x)
      {
        SameRowTrans(world.tables, written, before, x);
      }
      survived, aborted := false, false;
    } else {
      aborted := FeedFromCallback(world, rng, m, id);
      survived := true;
    }
  }

  /** How a tick of the system ended. */
  datatype TickOutcome = Completed | Aborted(index: nat)

  /** How many queried entities the tick reached: all of them, or up to and including the one that threw. */
  function Reached(outcome: TickOutcome, size: nat): nat {
    if outcome.Completed? then size else outcome.index + 1
  }

  /**
   * The state of a tick over the snapshot `q` of the vital holders after its
   * first `n` callbacks, compared with the tables `before` it: the first `n`
   * are visited and everything else is undisturbed.
   */
  ghost predicate Swept(before: Tables, start: seq<EntityId>, firstNew: nat, q: seq<EntityId>, n: nat,
                        tables: Tables, entities: seq<EntityId>, dt: real) {
    && Undisturbed(before, start, firstNew, q, n, tables, entities)
    && (forall k :: 0 <= k < n ==> Visited(before, tables, entities, q[k], dt))
  }

  /** Every visited survivor among the first `n` ended the callback below the feeding threshold. */
  ghost predicate Calm(before: Tables, q: seq<EntityId>, n: nat, entities: seq<EntityId>, dt: real)
    requires n <= |q|
  {
    forall k :: 0 <= k < n && q[k] in entities && HasVitals(before, q[k]) ==>
      Metabolize(VitalsAt(before, q[k]), dt).hunger.value < 0.3
  }

  /** One more callback, which touched no earlier id other than its own, extends the sweep by one. */
  lemma SweepStep(before: Tables, start: seq<EntityId>, firstNew: nat, q: seq<EntityId>, i: nat,
                  t1: Tables, e1: seq<EntityId>, bound: nat, t2: Tables, e2: seq<EntityId>, dt: real)
    requires Swept(before, start, firstNew, q, i, t1, e1, dt) && i < |q|
    requires Distinct(q) && (forall k :: 0 <= k < |q| ==> q[k] in start)
    requires (forall x :: x in start ==> x < firstNew) && firstNew <= bound && (forall x :: x in e1 ==> x < bound)
    requires Visited(before, t2, e2, q[i], dt)
    requires forall x: EntityId :: x != q[i] && x < bound ==> SameRow(t2, t1, x) && (x in e2 <==> x in e1)
    requires forall x: EntityId :: x in e2 && x !in e1 ==> bound <= x && HasSystemTypes(t2, x)
    ensures Swept(before, start, firstNew, q, i + 1, t2, e2, dt)
  {
    UndisturbedStep(before, start, firstNew, q, i, t1, e1, bound, t2, e2);
    forall k | 0 <= k < i
      ensures Visited(before, t2, e2, q[k], dt)
    {
      assert q[k] != q[i] && q[k] < bound;
      VisitedStable(before, t1, e1, t2, e2, q[k], dt);
    }
  }

  /** The callback just made kept every earlier survivor calm, and adds its own entity if it survived calm. */
  lemma CalmStep(before: Tables, q: seq<EntityId>, i: nat, e1: seq<EntityId>, e2: seq<EntityId>, dt: real)
    requires i < |q| && Calm(before, q, i, e1, dt)
    requires forall k :: 0 <= k < i ==> (q[k] in e2 <==> q[k] in e1)
    requires q[i] in e2 && HasVitals(before, q[i]) ==> Metabolize(VitalsAt(before, q[i]), dt).hunger.value < 0.3
    ensures Calm(before, q, i + 1, e2, dt)
  {
  }

  /** Every entity the query returns for the three vital types holds the three vital records. */
  lemma QueriedVitals(tables: Tables, q: seq<EntityId>)
    requires TablesTyped(tables)
    requires forall x :: x in q ==> forall t :: t in VitalTypes ==> t in tables && x in tables[t]
    ensures forall x :: x in q ==> HasVitals(tables, x)
  {
    forall x | x in q
      ensures HasVitals(tables, x)
    {
      assert HungerType in VitalTypes && HealthType in VitalTypes && EnergyType in VitalTypes;
      assert TypeOf(tables[HungerType][x]) == HungerType;
      assert TypeOf(tables[HealthType][x]) == HealthType;
      assert TypeOf(tables[EnergyType][x]) == EnergyType;
    }
  }

  /** One callback of the tick, on the `i`-th entity of the snapshot `q`, seen as a step of the sweep. */
  method SweepOne(world: World, rng: Rng.SeededRng, m: Js.MathLib, q: seq<EntityId>, i: nat, dt: real,
                  ghost before: Tables, ghost start: seq<EntityId>, ghost firstNew: nat)
    returns (aborted: bool)
    requires world.Valid() && rng.Valid() && i < |q|
    requires Distinct(q) && (forall k :: 0 <= k < |q| ==> q[k] in start && HasVitals(before, q[k]))
    requires (forall x :: x in start ==> x < firstNew) && firstNew <= world.nextEntityId
    requires Registered(before) && Swept(before, start, firstNew, q, i, world.tables, world.entities, dt)
    requires Calm(before, q, i, world.entities, dt)
    modifies world, rng
    ensures world.Valid() && rng.Valid() && firstNew <= world.nextEntityId
    ensures old(rng.InRangeState()) ==> rng.InRangeState()
    ensures dt >= 0.0 && old(world.Bounded()) ==> world.Bounded()
    ensures Swept(before, start, firstNew, q, i + 1, world.tables, world.entities, dt)
    ensures aborted ==> q[i] in world.entities && Metabolize(VitalsAt(before, q[i]), dt).hunger.value >= 0.3
    ensures !aborted ==> Calm(before, q, i + 1, world.entities, dt)
  {
    var id := q[i];
    ghost var mid := world.tables;
    ghost var midEntities := world.entities;
    ghost var bound := world.nextEntityId;
    assert SameRow(mid, before, id);
    assert HasVitals(mid, id);
    assert VitalsAt(mid, id) == VitalsAt(before, id);
    var survived;
    survived, aborted := ProcessEntity(world, rng, m, id, dt);
    VisitedRebase(before, mid, world.tables, world.entities, id, dt);
    SweepStep(before, start, firstNew, q, i, mid, midEntities, bound, world.tables, world.entities, dt);
    if !aborted {
      forall k | 0 <= k < i
        ensures q[k] in world.entities <==> q[k] in midEntities
      {
        assert q[k] != id && q[k] < bound;
      }
      CalmStep(before, q, i, midEntities, world.entities, dt);
    }
  }

  /** `hungerSystem`: the callback over every entity holding hunger, health and energy, in entity order. */
  method Run(world: World, rng: Rng.SeededRng, m: Js.MathLib, dt: real) returns (outcome: TickOutcome)
    requires world.Valid() && rng.Valid()
    modifies world, rng
    ensures world.Valid() && rng.Valid()
    ensures old(rng.InRangeState()) ==> rng.InRangeState()
    ensures dt >= 0.0 && old(world.Bounded()) ==> world.Bounded()
    ensures var q := old(world.QueryEntities(VitalTypes));
      && Reached(outcome, |q|) <= |q|
      && Swept(old(world.tables), old(world.entities), old(world.nextEntityId), q, Reached(outcome, |q|),
               world.tables, world.entities, dt)
      && Calm(old(world.tables), q, if outcome.Completed? then |q| else outcome.index, world.entities, dt)
      && (outcome.Aborted? ==>
            && q[outcome.index] in world.entities
            && Metabolize(VitalsAt(old(world.tables), q[outcome.index]), dt).hunger.value >= 0.3)
  {
    ghost var before := world.tables;
    ghost var start := world.entities;
    ghost var firstNew := world.nextEntityId;
    ghost var inRange := rng.InRangeState();
    ghost var bounded := dt >= 0.0 && world.Bounded();
    var q := world.QueryEntities(VitalTypes);
    QueriedVitals(before, q);
    var i := 0;
    while i < |q|
      invariant 0 <= i <= |q|
      invariant world.Valid() && rng.Valid() && firstNew <= world.nextEntityId
      invariant inRange ==> rng.InRangeState()
      invariant bounded ==> world.Bounded()
      invariant Swept(before, start, firstNew, q, i, world.tables, world.entities, dt)
      invariant Calm(before, q, i, world.entities, dt)
    {
      var aborted := SweepOne(world, rng, m, q, i, dt, before, start, firstNew);
      if aborted {
        outcome := Aborted(i);
        return;
      }
      i := i + 1;
    }
    outcome := Completed;
  }
}

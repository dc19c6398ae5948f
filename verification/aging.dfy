/**
 * The aging system of src/sim/ecs/systems/aging.ts: every tick each entity
 * holding age and health grows older, its health follows its age, an entity
 * past its lifespan (or, when old and frail, one that loses a death roll)
 * dies and is sometimes replaced nearby, and a survivor may reproduce.
 *
 * The callback of `forEachEntityWith` receives a record holding only age and
 * health, while `attemptReproduction` looks for position and species in that
 * record: it never finds them, so no entity ever finds a mate through the
 * system, and an eligible entity only counts its cooldown down.
 */
module AgingSystem {
  import opened Wrappers
  import opened Components
  import opened Ecs
  import opened Newborns
  import opened Sweeps
  import Rng
  import Js

  /** The queried component types, in the order the system names them. */
  const LifeTypes: seq<ComponentType> := [AgeType, HealthType]

  /** The components `findNearbyMate` queries. */
  const MateTypes: seq<ComponentType> := [PositionType, SpeciesType, AgeType]

  /** `handleNaturalDeath` is `Newborns.HandleDeath` with a 10% chance of a newborn within 30 units. */
  const NaturalRespawnChance: real := 0.1
  const NaturalRespawnRadius: real := 30.0

  const MateSearchRadius: real := 50.0
  const OffspringRadius: real := 20.0
  const ReproductionCooldown: real := 200.0

  // ---------------------------------------------------------------------------
  // Age and health
  // ---------------------------------------------------------------------------

  /** `age.value / age.maxAge`, as JavaScript divides (the maximum age may be 0). */
  function AgeRatio(age: Age): (r: Js.Quotient)
    ensures r.Finite? <==> age.maxAge != 0.0
    ensures age.maxAge == 0.0 ==> (r.NaN? <==> age.value == 0.0)
    ensures age.maxAge > 0.0 && 0.0 <= age.value <= age.maxAge ==> 0.0 <= r.value <= 1.0
  {
    if age.maxAge > 0.0 && 0.0 <= age.value <= age.maxAge then
      FractionOfWhole(age.value, age.maxAge);
      Js.Divide(age.value, age.maxAge)
    else
      Js.Divide(age.value, age.maxAge)
  }

  /** A part of a positive whole, divided by the whole, lies in [0, 1]. */
  lemma FractionOfWhole(part: real, whole: real)
    requires whole > 0.0 && 0.0 <= part <= whole
    ensures 0.0 <= part / whole <= 1.0
  {
    var v := part / whole;
    assert v * whole == part;
    assert (1.0 - v) * whole == whole - part;
  }

  /** With a positive lifespan, the ratio bands are the fractions of the lifespan. */
  lemma RatioBands(age: Age, t: real)
    requires age.maxAge > 0.0
    ensures Js.Exceeds(AgeRatio(age), t) <==> age.value > t * age.maxAge
    ensures Js.Below(AgeRatio(age), t) <==> age.value < t * age.maxAge
  {
    var r := age.value / age.maxAge;
    assert (r - t) * age.maxAge == age.value - t * age.maxAge;
    Js.ScaleSign(r - t, age.maxAge);
  }

  /** The age after a tick of `dt`. */
  function Older(age: Age, dt: real): (r: Age)
    ensures r.maxAge == age.maxAge && r.maturityAge == age.maturityAge
    ensures r.value - age.value == dt
  {
    age.(value := age.value + dt)
  }

  /** `applyAgeEffects`: the entity's health after the age-based decline or recovery, never below 0. */
  function AgeEffects(age: Age, health: Health): (r: Health)
    ensures r.maximum == health.maximum && 0.0 <= r.current
  {
    var ratio := AgeRatio(age);
    var current :=
      if Js.Exceeds(ratio, 0.8) then health.current - 0.005
      else if Js.Exceeds(ratio, 0.6) then health.current - 0.001
      else if Js.Below(ratio, 0.2) then Js.Min(health.current + 0.0005, health.maximum)
      else health.current;
    health.(current := Js.Max(current, 0.0))
  }

  /**
   * The age bands: past 60% of the lifespan health only declines (strictly,
   * while above 0), by at most 0.005 a tick; under 20% it only recovers, up
   * to the maximum; in between it is unchanged; the bounds 0..maximum hold.
   */
  lemma AgeEffectsBands(age: Age, health: Health)
    requires 0.0 <= health.current <= health.maximum
    ensures var r := AgeEffects(age, health);
      && 0.0 <= r.current <= health.maximum
      && health.current - 0.005 <= r.current
      && (Js.Exceeds(AgeRatio(age), 0.6) ==> r.current <= health.current)
      && (Js.Exceeds(AgeRatio(age), 0.6) && health.current > 0.0 ==> r.current < health.current)
      && (Js.Exceeds(AgeRatio(age), 0.8) && health.current >= 0.005 ==> r.current == health.current - 0.005)
      && (Js.Below(AgeRatio(age), 0.2) ==> health.current <= r.current)
      && (!Js.Exceeds(AgeRatio(age), 0.6) && !Js.Below(AgeRatio(age), 0.2) ==> r == health)
  {
  }

  /** The death roll's chance at age ratio `ratio`: it rises from 0 at 70% of the lifespan and stays under 3%. */
  function DeathChance(ratio: real): (c: real)
    ensures ratio > 0.7 ==> 0.0 < c
    ensures ratio < 1.0 ==> c < 0.03
    ensures ratio <= 1.0 ==> c <= 0.03
  {
    (ratio - 0.7) * 0.1
  }

  /** The entity has outlived its lifespan: it dies without a roll. */
  predicate Expired(age: Age) {
    age.value >= age.maxAge
  }

  /** The entity rolls for death: old (past 70% of its lifespan) and frail (health under 0.3). */
  predicate Frail(age: Age, health: Health) {
    Js.Exceeds(AgeRatio(age), 0.7) && health.current < 0.3
  }

  /** Below its lifespan, an entity that rolls has a finite ratio, and with a positive lifespan a chance under 3%. */
  lemma FrailChance(age: Age, health: Health)
    requires !Expired(age) && Frail(age, health)
    ensures AgeRatio(age).Finite?
    ensures 0.0 < DeathChance(AgeRatio(age).value)
    ensures age.maxAge > 0.0 ==> DeathChance(AgeRatio(age).value) < 0.03
  {
    if age.maxAge > 0.0 {
      RatioBands(age, 1.0);
    }
  }

  /** `shouldDieFromAge`: certain past the lifespan, a roll when old and frail, otherwise no death. */
  method ShouldDieFromAge(rng: Rng.SeededRng, age: Age, health: Health) returns (die: bool)
    requires rng.Valid()
    modifies rng
    ensures rng.Valid() && (old(rng.InRangeState()) ==> rng.InRangeState())
    ensures Expired(age) ==> die && rng.seed == old(rng.seed)
    ensures !Expired(age) && !Frail(age, health) ==> !die && rng.seed == old(rng.seed)
    ensures !Expired(age) && Frail(age, health) ==>
      && AgeRatio(age).Finite?
      && rng.seed == Rng.Step(old(rng.seed))
      && (die <==> Rng.Output(rng.seed) < DeathChance(AgeRatio(age).value))
  {
    var ratio := AgeRatio(age);
    if age.value >= age.maxAge {
      return true;
    }
    if Js.Exceeds(ratio, 0.7) && health.current < 0.3 {
      FrailChance(age, health);
      die := rng.NextBool(DeathChance(ratio.value));
      return;
    }
    return false;
  }

  // ---------------------------------------------------------------------------
  // Reproduction
  // ---------------------------------------------------------------------------

  function ReproductionAt(tables: Tables, id: EntityId): (r: Option<Reproduction>)
    ensures r.Some? <==> ReproductionType in tables && id in tables[ReproductionType] && tables[ReproductionType][id].ReproductionOf?
  {
    if ReproductionType in tables && id in tables[ReproductionType] && tables[ReproductionType][id].ReproductionOf?
    then Some(tables[ReproductionType][id].reproduction) else None
  }

  function HungerAt(tables: Tables, id: EntityId): (r: Option<Hunger>)
    ensures r.Some? <==> HungerType in tables && id in tables[HungerType] && tables[HungerType][id].HungerOf?
  {
    if HungerType in tables && id in tables[HungerType] && tables[HungerType][id].HungerOf?
    then Some(tables[HungerType][id].hunger) else None
  }

  function EnergyAt(tables: Tables, id: EntityId): (r: Option<Energy>)
    ensures r.Some? <==> EnergyType in tables && id in tables[EnergyType] && tables[EnergyType][id].EnergyOf?
  {
    if EnergyType in tables && id in tables[EnergyType] && tables[EnergyType][id].EnergyOf?
    then Some(tables[EnergyType][id].energy) else None
  }

  /**
   * The gates of `attemptReproduction` before the cooldown: the entity holds a
   * reproduction record, is mature, has health at least 0.7, hunger (if any)
   * at most 0.4 and energy (if any) at least 0.5.
   */
  predicate Eligible(age: Age, health: Health, reproduction: Option<Reproduction>,
                     hunger: Option<Hunger>, energy: Option<Energy>) {
    && reproduction.Some?
    && age.value >= age.maturityAge
    && health.current >= 0.7
    && !(hunger.Some? && hunger.value.value > 0.4)
    && !(energy.Some? && energy.value.current < 0.5)
  }

  /** `Math.sqrt(dx * dx + dy * dy)` between `p` and `q`. */
  function Distance(p: Position, q: Position, m: Js.MathLib): real {
    m.Sqrt(SquaredNorm(Position(q.x - p.x, q.y - p.y)))
  }

  /**
   * `x` is a mate for `id` standing at `position`: another entity holding
   * position, species and age, of the same kind, mature, and at a distance of
   * at most 50.
   */
  ghost predicate IsMate(tables: Tables, id: EntityId, x: EntityId, position: Position, kind: SpeciesKind, m: Js.MathLib) {
    && x != id
    && PositionType in tables && x in tables[PositionType] && tables[PositionType][x].PositionOf?
    && SpeciesType in tables && x in tables[SpeciesType] && tables[SpeciesType][x].SpeciesOf?
    && AgeType in tables && x in tables[AgeType] && tables[AgeType][x].AgeOf?
    && tables[SpeciesType][x].species.kind == kind
    && tables[AgeType][x].age.value >= tables[AgeType][x].age.maturityAge
    && Distance(position, tables[PositionType][x].position, m) <= MateSearchRadius
  }

  /** With a true square root, the search radius is the disc of squared radius 2500. */
  lemma MateWithinDisc(tables: Tables, id: EntityId, x: EntityId, position: Position, kind: SpeciesKind, m: Js.MathLib)
    requires Js.ExactSqrt(m)
    requires PositionType in tables && x in tables[PositionType] && tables[PositionType][x].PositionOf?
    ensures var q := tables[PositionType][x].position;
      Distance(position, q, m) <= MateSearchRadius <==>
        SquaredNorm(Position(q.x - position.x, q.y - position.y)) <= 2500.0
  {
    var q := tables[PositionType][x].position;
    Js.SqrtAtMost(m, SquaredNorm(Position(q.x - position.x, q.y - position.y)), MateSearchRadius);
  }

  /** `findNearbyMate`: scans the holders of position, species and age for a mate, stopping at the first. */
  method FindNearbyMate(world: World, m: Js.MathLib, id: EntityId, position: Position, kind: SpeciesKind)
    returns (found: bool)
    requires world.Valid()
    ensures found <==> exists x :: x in world.entities && IsMate(world.tables, id, x, position, kind, m)
  {
    var q := world.QueryEntities(MateTypes);
    var i := 0;
    while i < |q|
      invariant 0 <= i <= |q|
      invariant forall k :: 0 <= k < i ==> !IsMate(world.tables, id, q[k], position, kind, m)
    {
      var x := q[i];
      assert x in world.entities && world.HasComponent(x, PositionType)
        && world.HasComponent(x, SpeciesType) && world.HasComponent(x, AgeType) by {
        assert PositionType in MateTypes && SpeciesType in MateTypes && AgeType in MateTypes;
      }
      if x != id {
        var nearbyPosition := world.tables[PositionType][x].position;
        var nearbySpecies := world.tables[SpeciesType][x].species;
        var nearbyAge := world.tables[AgeType][x].age;
        if nearbySpecies.kind == kind && nearbyAge.value >= nearbyAge.maturityAge
          && Distance(position, nearbyPosition, m) <= MateSearchRadius
        {
          assert IsMate(world.tables, id, x, position, kind, m);
          return true;
        }
      }
      i := i + 1;
    }
    assert PositionType in MateTypes && SpeciesType in MateTypes && AgeType in MateTypes;
    found := false;
  }

  /**
   * The template `createOffspring` builds from a species template: age 0,
   * health at its maximum, hunger 0.2.
   */
  function Offspring(t: Partial): Partial {
    var young := if AgeType in t && t[AgeType].AgeOf? then t[AgeType := AgeOf(t[AgeType].age.(value := 0.0))] else t;
    var healed :=
      if HealthType in young && young[HealthType].HealthOf?
      then young[HealthType := HealthOf(young[HealthType].health.(current := young[HealthType].health.maximum))]
      else young;
    if HungerType in healed && healed[HungerType].HungerOf?
    then healed[HungerType := HungerOf(healed[HungerType].hunger.(value := 0.2))]
    else healed
  }

  /** The offspring of a species template is a newborn of that species at age 0, full health and hunger 0.2. */
  lemma OffspringFacts(t: Partial, kind: SpeciesKind, x: real, y: real)
    requires NewbornShape(t, kind) && NewbornValues(t, kind, x, y)
    ensures var p := Offspring(t);
      && NewbornShape(p, kind)
      && p[SpeciesType] == SpeciesOf(Species(kind)) && p[PositionType] == PositionOf(Position(x, y))
      && p[AgeType].AgeOf? && p[AgeType].age.value == 0.0
      && p[HealthType].HealthOf? && p[HealthType].health.current == p[HealthType].health.maximum
      && p[HungerType].HungerOf? && p[HungerType].hunger.value == 0.2
      && forall c :: c in p && c != HungerType ==> p[c] == t[c]
  {
    var p := Offspring(t);
    assert p == t[HungerType := HungerOf(t[HungerType].hunger.(value := 0.2))];
    assert WellTyped(p) by {
      forall c | c in p ensures TypeOf(p[c]) == c {
        if c != HungerType {
          assert p[c] == t[c];
        }
      }
    }
    assert PartialBounded(p) by {
      forall c | c in p ensures ComponentBounded(p[c]) {
        if c != HungerType {
          assert p[c] == t[c];
        }
      }
    }
  }

  /** `createOffspring`: two draws in [-20, 20) for the offsets, then the offspring template there. */
  method CreateOffspring(world: World, rng: Rng.SeededRng, parent: Position, kind: SpeciesKind) returns (birth: Birth)
    requires world.Valid() && rng.Valid()
    modifies world, rng
    ensures world.Valid() && rng.Valid() && rng.seed == Rng.Step(Rng.Step(old(rng.seed)))
    ensures old(rng.InRangeState()) ==> rng.InRangeState() && Near(birth.at, parent, OffspringRadius)
    ensures old(world.Bounded()) ==> world.Bounded()
    ensures birth.kind == kind && birth.id == old(world.nextEntityId) < world.nextEntityId
    ensures world.entities == old(world.entities) + [birth.id]
    ensures world.tables == AddRow(old(world.tables), birth.id, Offspring(TemplateFor(kind, birth.at.x, birth.at.y)))
    ensures HasSystemTypes(world.tables, birth.id)
  {
    var dx := rng.NextFloat(-OffspringRadius, OffspringRadius);
    var dy := rng.NextFloat(-OffspringRadius, OffspringRadius);
    var x := parent.x + dx;
    var y := parent.y + dy;
    TemplateFacts(kind, x, y);
    OffspringFacts(TemplateFor(kind, x, y), kind, x, y);
    var id := world.Spawn(Offspring(TemplateFor(kind, x, y)));
    birth := Birth(id, kind, Position(x, y));
  }

  /** The parent after a successful reproduction: cooldown 200, and energy (if any) down by 0.3, not below 0. */
  function Spent(tables: Tables, id: EntityId, reproduction: Reproduction, energy: Option<Energy>): Tables
    requires Registered(tables)
  {
    var cooled := PutAt(tables, ReproductionType, id, ReproductionOf(reproduction.(cooldown := ReproductionCooldown)));
    if energy.Some? then PutAt(cooled, EnergyType, id, EnergyOf(energy.value.(current := Js.Max(energy.value.current - 0.3, 0.0))))
    else cooled
  }

  /** The parent's tables after a tick in cooldown: the cooldown drops by one, whatever `dt` is. */
  function CooledDown(tables: Tables, id: EntityId, reproduction: Reproduction): Tables
    requires Registered(tables)
  {
    PutAt(tables, ReproductionType, id, ReproductionOf(reproduction.(cooldown := reproduction.cooldown - 1.0)))
  }

  /** The cooldown branch of `attemptReproduction`: one tick less to wait, nothing else changes. */
  method CoolDown(world: World, id: EntityId, reproduction: Reproduction)
    requires world.Valid() && ReproductionAt(world.tables, id) == Some(reproduction)
    modifies world
    ensures world.Valid()
    ensures world.entities == old(world.entities) && world.nextEntityId == old(world.nextEntityId)
    ensures world.tables == CooledDown(old(world.tables), id, reproduction)
    ensures old(world.Bounded()) ==> world.Bounded()
  {
    world.Overwrite(id, ReproductionOf(reproduction.(cooldown := reproduction.cooldown - 1.0)));
  }

  /** How a reproduction attempt ended. */
  datatype Courtship = Ineligible | CoolingDown | NoMate | Infertile | Bred(birth: Birth)

  /**
   * The end of `attemptReproduction` once a mate is found: the fertility roll,
   * then the offspring, the parent's cooldown of 200 and its energy cost.
   */
  method Mate(world: World, rng: Rng.SeededRng, id: EntityId, reproduction: Reproduction,
              energy: Option<Energy>, position: Position, kind: SpeciesKind)
    returns (outcome: Courtship)
    requires world.Valid() && rng.Valid()
    requires world.HasComponent(id, ReproductionType) && world.tables[ReproductionType][id] == ReproductionOf(reproduction)
    requires energy.Some? ==> world.HasComponent(id, EnergyType) && world.tables[EnergyType][id] == EnergyOf(energy.value)
    modifies world, rng
    ensures world.Valid() && rng.Valid()
    ensures old(rng.InRangeState()) ==> rng.InRangeState()
    ensures old(world.Bounded()) ==> world.Bounded()
    ensures outcome.Infertile? || outcome.Bred?
    ensures outcome.Bred? <==> Rng.Output(Rng.Step(old(rng.seed))) < reproduction.fertility
    ensures outcome.Infertile? ==>
      && rng.seed == Rng.Step(old(rng.seed))
      && world.entities == old(world.entities) && world.nextEntityId == old(world.nextEntityId)
      && world.tables == old(world.tables)
    ensures outcome.Bred? ==>
      && rng.seed == Rng.Step(Rng.Step(Rng.Step(old(rng.seed))))
      && outcome.birth.kind == kind
      && (old(rng.InRangeState()) ==> Near(outcome.birth.at, position, OffspringRadius))
      && outcome.birth.id == old(world.nextEntityId) < world.nextEntityId
      && world.entities == old(world.entities) + [outcome.birth.id]
      && world.tables == Spent(AddRow(old(world.tables), outcome.birth.id,
                                      Offspring(TemplateFor(kind, outcome.birth.at.x, outcome.birth.at.y))),
                               id, reproduction, energy)
  {
    var fertile := rng.NextBool(reproduction.fertility);
    if !fertile {
      return Infertile;
    }
    ghost var before := world.tables;
    assert id < world.nextEntityId by {
      assert TablesBelow(before, world.nextEntityId);
    }
    var birth := CreateOffspring(world, rng, position, kind);
    AddRowFacts(before, birth.id, Offspring(TemplateFor(kind, birth.at.x, birth.at.y)));
    ChargeParent(world, id, reproduction, energy);
    return Bred(birth);
  }

  /** The parent's write-back after a birth: `Spent`, in place. */
  method ChargeParent(world: World, id: EntityId, reproduction: Reproduction, energy: Option<Energy>)
    requires world.Valid()
    requires world.HasComponent(id, ReproductionType) && world.tables[ReproductionType][id] == ReproductionOf(reproduction)
    requires energy.Some? ==> world.HasComponent(id, EnergyType) && world.tables[EnergyType][id] == EnergyOf(energy.value)
    modifies world
    ensures world.Valid() && world.entities == old(world.entities) && world.nextEntityId == old(world.nextEntityId)
    ensures world.tables == Spent(old(world.tables), id, reproduction, energy)
    ensures old(world.Bounded()) ==> world.Bounded()
  {
    world.Overwrite(id, ReproductionOf(reproduction.(cooldown := ReproductionCooldown)));
    if energy.Some? {
      var e := energy.value;
      assert old(world.Bounded()) ==> ComponentBounded(old(world.tables)[EnergyType][id]);
      world.Overwrite(id, EnergyOf(e.(current := Js.Max(e.current - 0.3, 0.0))));
    }
  }

  /**
   * `attemptReproduction` with the callback's record `record` (holding at least
   * age and health): the gates, the cooldown, then a mate search and `Mate`.
   */
  method AttemptReproduction(world: World, rng: Rng.SeededRng, m: Js.MathLib, id: EntityId, record: Partial)
    returns (outcome: Courtship)
    requires world.Valid() && rng.Valid()
    requires AgeType in record && HealthType in record && RecordOf(world, id, record)
    modifies world, rng
    ensures world.Valid() && rng.Valid()
    ensures old(rng.InRangeState()) ==> rng.InRangeState()
    ensures old(world.Bounded()) ==> world.Bounded()
    ensures var reproduction := ReproductionAt(old(world.tables), id);
      var eligible := Eligible(record[AgeType].age, record[HealthType].health, reproduction,
                               HungerAt(old(world.tables), id), EnergyAt(old(world.tables), id));
      && (outcome.Ineligible? <==> !eligible)
      && (outcome.CoolingDown? <==> eligible && reproduction.value.cooldown > 0.0)
      && (outcome.CoolingDown? ==> world.tables == CooledDown(old(world.tables), id, reproduction.value))
      && (outcome.NoMate? || outcome.Infertile? || outcome.Bred? ==> eligible && reproduction.value.cooldown <= 0.0)
    ensures outcome.Ineligible? || outcome.CoolingDown? || outcome.NoMate? ==>
      && rng.seed == old(rng.seed)
      && world.entities == old(world.entities) && world.nextEntityId == old(world.nextEntityId)
    ensures outcome.Ineligible? || outcome.NoMate? ==> world.tables == old(world.tables)
    ensures outcome.Infertile? || outcome.Bred? ==>
      && PositionType in record && SpeciesType in record
      && exists x :: x in old(world.entities) &&
           IsMate(old(world.tables), id, x, record[PositionType].position, record[SpeciesType].species.kind, m)
    ensures outcome.NoMate? ==>
      PositionType in record && SpeciesType in record ==>
        !exists x :: x in old(world.entities) &&
           IsMate(old(world.tables), id, x, record[PositionType].position, record[SpeciesType].species.kind, m)
  {
    var age := record[AgeType].age;
    var health := record[HealthType].health;
    var reproduction := ReproductionAt(world.tables, id);
    var hunger := HungerAt(world.tables, id);
    var energy := EnergyAt(world.tables, id);
    if !Eligible(age, health, reproduction, hunger, energy) {
      return Ineligible;
    }
    var r := reproduction.value;
    if r.cooldown > 0.0 {
      CoolDown(world, id, r);
      return CoolingDown;
    }
    outcome := SeekMate(world, rng, m, id, r, energy, record);
  }

  /**
   * The end of `attemptReproduction` once the entity is eligible and its
   * cooldown is over: without a position and a species, or without a mate
   * nearby, nothing happens; otherwise the fertility roll decides.
   */
  method SeekMate(world: World, rng: Rng.SeededRng, m: Js.MathLib, id: EntityId, reproduction: Reproduction,
                  energy: Option<Energy>, record: Partial)
    returns (outcome: Courtship)
    requires world.Valid() && rng.Valid() && RecordOf(world, id, record)
    requires ReproductionAt(world.tables, id) == Some(reproduction) && EnergyAt(world.tables, id) == energy
    modifies world, rng
    ensures world.Valid() && rng.Valid()
    ensures old(rng.InRangeState()) ==> rng.InRangeState()
    ensures old(world.Bounded()) ==> world.Bounded()
    ensures outcome.NoMate? || outcome.Infertile? || outcome.Bred?
    ensures outcome.NoMate? ==>
      && rng.seed == old(rng.seed) && world.tables == old(world.tables)
      && world.entities == old(world.entities) && world.nextEntityId == old(world.nextEntityId)
    ensures outcome.Infertile? || outcome.Bred? ==>
      && PositionType in record && SpeciesType in record
      && exists x :: x in old(world.entities) &&
           IsMate(old(world.tables), id, x, record[PositionType].position, record[SpeciesType].species.kind, m)
    ensures outcome.NoMate? ==>
      PositionType in record && SpeciesType in record ==>
        !exists x :: x in old(world.entities) &&
           IsMate(old(world.tables), id, x, record[PositionType].position, record[SpeciesType].species.kind, m)
  {
    if PositionType !in record || SpeciesType !in record {
      return NoMate;
    }
    var position := record[PositionType].position;
    var kind := record[SpeciesType].species.kind;
    var found := FindNearbyMate(world, m, id, position, kind);
    if !found {
      return NoMate;
    }
    outcome := Mate(world, rng, id, reproduction, energy, position, kind);
  }

  // ---------------------------------------------------------------------------
  // The tick
  // ---------------------------------------------------------------------------

  predicate HasLife(tables: Tables, id: EntityId) {
    && AgeType in tables && id in tables[AgeType] && tables[AgeType][id].AgeOf?
    && HealthType in tables && id in tables[HealthType] && tables[HealthType][id].HealthOf?
  }

  function AgeAt(tables: Tables, id: EntityId): Age
    requires HasLife(tables, id)
  {
    tables[AgeType][id].age
  }

  function HealthAt(tables: Tables, id: EntityId): Health
    requires HasLife(tables, id)
  {
    tables[HealthType][id].health
  }

  /** The tables after writing `age` and `health` back into `id`'s records. */
  function WithLife(tables: Tables, id: EntityId, age: Age, health: Health): Tables
    requires Registered(tables)
  {
    PutAt(PutAt(tables, AgeType, id, AgeOf(age)), HealthType, id, HealthOf(health))
  }

  /**
   * The row of an entity that survives the callback: older, with the age
   * effects on its health, and its reproduction cooldown counted down by one
   * when it is eligible and cooling down. Nothing else changes: the record
   * the callback hands on holds no position, so no mate is ever looked for.
   */
  function Matured(tables: Tables, id: EntityId, dt: real): Tables
    requires Registered(tables) && HasLife(tables, id)
  {
    var age := Older(AgeAt(tables, id), dt);
    var health := AgeEffects(age, HealthAt(tables, id));
    var written := WithLife(tables, id, age, health);
    var r := ReproductionAt(tables, id);
    if Eligible(age, health, r, HungerAt(tables, id), EnergyAt(tables, id)) && r.value.cooldown > 0.0
    then CooledDown(written, id, r.value)
    else written
  }

  /**
   * What a tick did to `id`, seen from the tables `before` it: an entity past
   * its lifespan is gone, one neither past it nor old and frail survives, a
   * survivor's row is its matured row, and a casualty has no components left.
   */
  ghost predicate Aged(before: Tables, tables: Tables, entities: seq<EntityId>, id: EntityId, dt: real) {
    && Registered(before)
    && HasLife(before, id)
    && var age := Older(AgeAt(before, id), dt);
    && var health := AgeEffects(age, HealthAt(before, id));
    && (Expired(age) ==> id !in entities)
    && (!Expired(age) && !Frail(age, health) ==> id in entities)
    && (id in entities ==> SameRow(tables, Matured(before, id, dt), id))
    && (id !in entities ==> forall t :: t in tables ==> id !in tables[t])
  }

  /** A later step that leaves `id`'s row and membership alone keeps what an earlier step did to it. */
  lemma AgedStable(before: Tables, t1: Tables, e1: seq<EntityId>, t2: Tables, e2: seq<EntityId>, id: EntityId, dt: real)
    requires Aged(before, t1, e1, id, dt) && SameRow(t2, t1, id) && (id in e2 <==> id in e1)
    ensures Aged(before, t2, e2, id, dt)
  {
    if id in e1 {
      SameRowTrans(t2, t1, Matured(before, id, dt), id);
    }
  }

  /** The matured row depends only on the entity's own row. */
  lemma MaturedRow(a: Tables, b: Tables, id: EntityId, dt: real)
    requires Registered(a) && Registered(b) && HasLife(b, id) && SameRow(a, b, id)
    ensures HasLife(a, id) && SameRow(Matured(a, id, dt), Matured(b, id, dt), id)
  {
    assert AgeAt(a, id) == AgeAt(b, id) && HealthAt(a, id) == HealthAt(b, id);
    assert ReproductionAt(a, id) == ReproductionAt(b, id);
    assert HungerAt(a, id) == HungerAt(b, id) && EnergyAt(a, id) == EnergyAt(b, id);
    forall t: ComponentType
      ensures id in Matured(a, id, dt)[t] <==> id in Matured(b, id, dt)[t]
      ensures id in Matured(a, id, dt)[t] ==> Matured(a, id, dt)[t][id] == Matured(b, id, dt)[t][id]
    {
    }
  }

  /** A step taken from tables that agree with `before` on `id`'s row counts as a step from `before`. */
  lemma AgedRebase(before: Tables, mid: Tables, tables: Tables, entities: seq<EntityId>, id: EntityId, dt: real)
    requires Registered(before) && HasLife(before, id) && SameRow(mid, before, id)
    requires Aged(mid, tables, entities, id, dt)
    ensures Aged(before, tables, entities, id, dt)
  {
    MaturedRow(mid, before, id, dt);
    if id in entities {
      SameRowTrans(tables, Matured(mid, id, dt), Matured(before, id, dt), id);
    }
  }

  lemma SameRowAfterLife(tables: Tables, id: EntityId, age: Age, health: Health)
    requires Registered(tables)
    ensures forall x: EntityId :: x != id ==> SameRow(WithLife(tables, id, age, health), tables, x)
  {
    forall x: EntityId | x != id
      ensures SameRow(WithLife(tables, id, age, health), tables, x)
    {
      forall t: ComponentType
        ensures x in WithLife(tables, id, age, health)[t] <==> x in tables[t]
        ensures x in tables[t] ==> WithLife(tables, id, age, health)[t][x] == tables[t][x]
      {
      }
    }
  }

  /** The first part of the callback: `age.value += dt` and `applyAgeEffects`, written into the records. */
  method ApplyAging(world: World, id: EntityId, dt: real) returns (age: Age, health: Health)
    requires world.Valid() && HasLife(world.tables, id)
    modifies world
    ensures world.Valid() && world.entities == old(world.entities) && world.nextEntityId == old(world.nextEntityId)
    ensures age == Older(AgeAt(old(world.tables), id), dt)
    ensures health == AgeEffects(age, HealthAt(old(world.tables), id))
    ensures world.tables == WithLife(old(world.tables), id, age, health)
    ensures forall x: EntityId :: x != id ==> SameRow(world.tables, old(world.tables), x)
    ensures dt >= 0.0 && old(world.Bounded()) ==> world.Bounded()
  {
    ghost var before := world.tables;
    age := Older(AgeAt(world.tables, id), dt);
    health := AgeEffects(age, HealthAt(world.tables, id));
    if world.Bounded() {
      assert ComponentBounded(before[AgeType][id]) && ComponentBounded(before[HealthType][id]);
      AgeEffectsBands(age, HealthAt(before, id));
    }
    world.Overwrite(id, AgeOf(age));
    world.Overwrite(id, HealthOf(health));
    SameRowAfterLife(before, id, age, health);
  }

  /**
   * `attemptReproduction` as the callback calls it, on the record of age and
   * health: at most the cooldown counts down, and the rows become `Matured`.
   */
  method ReproduceFromCallback(world: World, rng: Rng.SeededRng, m: Js.MathLib, id: EntityId,
                               ghost before: Tables, dt: real)
    requires world.Valid() && rng.Valid() && Registered(before) && HasLife(before, id)
    requires world.tables == WithLife(before, id, Older(AgeAt(before, id), dt),
                                      AgeEffects(Older(AgeAt(before, id), dt), HealthAt(before, id)))
    modifies world, rng
    ensures world.Valid() && rng.Valid()
    ensures world.entities == old(world.entities) && world.nextEntityId == old(world.nextEntityId)
    ensures rng.seed == old(rng.seed)
    ensures world.tables == Matured(before, id, dt)
    ensures forall x: EntityId :: x != id ==> SameRow(world.tables, old(world.tables), x)
    ensures old(world.Bounded()) ==> world.Bounded()
  {
    ghost var age := Older(AgeAt(before, id), dt);
    ghost var health := AgeEffects(age, HealthAt(before, id));
    ghost var written := world.tables;
    LifeWriteKeeps(before, id, age, health);
    var record := world.Materialize(id, LifeTypes);
    assert PositionType !in record;
    assert AgeType in LifeTypes && HealthType in LifeTypes;
    assert record[AgeType].age == age && record[HealthType].health == health;
    var outcome := AttemptReproduction(world, rng, m, id, record);
    assert !outcome.Infertile? && !outcome.Bred?;
    if outcome.CoolingDown? {
      SameRowAfterPut(written, ReproductionType, id, world.tables[ReproductionType][id]);
    }
  }

  /** Writing an entity's age and health leaves its reproduction, hunger and energy alone. */
  lemma LifeWriteKeeps(tables: Tables, id: EntityId, age: Age, health: Health)
    requires Registered(tables)
    ensures var w := WithLife(tables, id, age, health);
      && Registered(w)
      && w[AgeType][id] == AgeOf(age) && w[HealthType][id] == HealthOf(health)
      && ReproductionAt(w, id) == ReproductionAt(tables, id)
      && HungerAt(w, id) == HungerAt(tables, id) && EnergyAt(w, id) == EnergyAt(tables, id)
  {
  }

  /** The callback body for one entity: aging, then death or a reproduction attempt. */
  method ProcessEntity(world: World, rng: Rng.SeededRng, m: Js.MathLib, id: EntityId, dt: real)
    requires world.Valid() && rng.Valid() && world.HasEntity(id) && HasLife(world.tables, id)
    modifies world, rng
    ensures world.Valid() && rng.Valid()
    ensures old(rng.InRangeState()) ==> rng.InRangeState()
    ensures dt >= 0.0 && old(world.Bounded()) ==> world.Bounded()
    ensures old(world.nextEntityId) <= world.nextEntityId
    ensures Aged(old(world.tables), world.tables, world.entities, id, dt)
    ensures forall x: EntityId :: x != id && x < old(world.nextEntityId) ==>
      SameRow(world.tables, old(world.tables), x) && (x in world.entities <==> x in old(world.entities))
    ensures forall x: EntityId :: x in world.entities && x !in old(world.entities) ==>
      old(world.nextEntityId) <= x && HasSystemTypes(world.tables, x)
  {
    ghost var before := world.tables;
    var age, health := ApplyAging(world, id, dt);
    ghost var written := world.tables;
    var die := ShouldDieFromAge(rng, age, health);
    if die {
      Perish(world, rng, id, NaturalRespawnChance, NaturalRespawnRadius);
      forall x: EntityId | x != id && x < old(world.nextEntityId)
        ensures SameRow(world.tables, before, x)
      {
        SameRowTrans(world.tables, written, before, x);
      }
    } else {
      ReproduceFromCallback(world, rng, m, id, before, dt);
      forall x: EntityId | x != id
        ensures SameRow(world.tables, before, x)
      {
        SameRowTrans(world.tables, written, before, x);
      }
    }
  }

  /**
   * The state of a tick over the snapshot `q` of the age and health holders
   * after its first `n` callbacks: the first `n` have aged and everything else
   * is undisturbed.
   */
  ghost predicate Swept(before: Tables, start: seq<EntityId>, firstNew: nat, q: seq<EntityId>, n: nat,
                        tables: Tables, entities: seq<EntityId>, dt: real) {
    && Undisturbed(before, start, firstNew, q, n, tables, entities)
    && (forall k :: 0 <= k < n ==> Aged(before, tables, entities, q[k], dt))
  }

  /** One more callback, which touched no earlier id other than its own, extends the sweep by one. */
  lemma SweepStep(before: Tables, start: seq<EntityId>, firstNew: nat, q: seq<EntityId>, i: nat,
                  t1: Tables, e1: seq<EntityId>, bound: nat, t2: Tables, e2: seq<EntityId>, dt: real)
    requires Swept(before, start, firstNew, q, i, t1, e1, dt) && i < |q|
    requires Distinct(q) && (forall k :: 0 <= k < |q| ==> q[k] in start)
    requires (forall x :: x in start ==> x < firstNew) && firstNew <= bound && (forall x :: x in e1 ==> x < bound)
    requires Aged(before, t2, e2, q[i], dt)
    requires forall x: EntityId :: x != q[i] && x < bound ==> SameRow(t2, t1, x) && (x in e2 <==> x in e1)
    requires forall x: EntityId :: x in e2 && x !in e1 ==> bound <= x && HasSystemTypes(t2, x)
    ensures Swept(before, start, firstNew, q, i + 1, t2, e2, dt)
  {
    UndisturbedStep(before, start, firstNew, q, i, t1, e1, bound, t2, e2);
    forall k | 0 <= k < i
      ensures Aged(before, t2, e2, q[k], dt)
    {
      assert q[k] != q[i] && q[k] < bound;
      AgedStable(before, t1, e1, t2, e2, q[k], dt);
    }
  }

  /** Every entity the query returns for age and health holds both records. */
  lemma QueriedLives(tables: Tables, q: seq<EntityId>)
    requires TablesTyped(tables)
    requires forall x :: x in q ==> forall t :: t in LifeTypes ==> t in tables && x in tables[t]
    ensures forall x :: x in q ==> HasLife(tables, x)
  {
    forall x | x in q
      ensures HasLife(tables, x)
    {
      assert AgeType in LifeTypes && HealthType in LifeTypes;
      assert TypeOf(tables[AgeType][x]) == AgeType;
      assert TypeOf(tables[HealthType][x]) == HealthType;
    }
  }

  /** One callback of the tick, on the `i`-th entity of the snapshot `q`, seen as a step of the sweep. */
  method SweepOne(world: World, rng: Rng.SeededRng, m: Js.MathLib, q: seq<EntityId>, i: nat, dt: real,
                  ghost before: Tables, ghost start: seq<EntityId>, ghost firstNew: nat)
    requires world.Valid() && rng.Valid() && i < |q|
    requires Distinct(q) && (forall k :: 0 <= k < |q| ==> q[k] in start && HasLife(before, q[k]))
    requires (forall x :: x in start ==> x < firstNew) && firstNew <= world.nextEntityId
    requires Registered(before) && Swept(before, start, firstNew, q, i, world.tables, world.entities, dt)
    modifies world, rng
    ensures world.Valid() && rng.Valid() && firstNew <= world.nextEntityId
    ensures old(rng.InRangeState()) ==> rng.InRangeState()
    ensures dt >= 0.0 && old(world.Bounded()) ==> world.Bounded()
    ensures Swept(before, start, firstNew, q, i + 1, world.tables, world.entities, dt)
  {
    var id := q[i];
    ghost var mid := world.tables;
    ghost var midEntities := world.entities;
    ghost var bound := world.nextEntityId;
    assert SameRow(mid, before, id);
    MaturedRow(mid, before, id, dt);
    ProcessEntity(world, rng, m, id, dt);
    AgedRebase(before, mid, world.tables, world.entities, id, dt);
    SweepStep(before, start, firstNew, q, i, mid, midEntities, bound, world.tables, world.entities, dt);
  }

  /** `agingSystem`: the callback over every entity holding age and health, in entity order. */
  method Run(world: World, rng: Rng.SeededRng, m: Js.MathLib, dt: real)
    requires world.Valid() && rng.Valid()
    modifies world, rng
    ensures world.Valid() && rng.Valid()
    ensures old(rng.InRangeState()) ==> rng.InRangeState()
    ensures dt >= 0.0 && old(world.Bounded()) ==> world.Bounded()
    ensures var q := old(world.QueryEntities(LifeTypes));
      Swept(old(world.tables), old(world.entities), old(world.nextEntityId), q, |q|, world.tables, world.entities, dt)
  {
    ghost var before := world.tables;
    ghost var start := world.entities;
    ghost var firstNew := world.nextEntityId;
    ghost var inRange := rng.InRangeState();
    ghost var bounded := dt >= 0.0 && world.Bounded();
    var q := world.QueryEntities(LifeTypes);
    QueriedLives(before, q);
    var i := 0;
    while i < |q|
      invariant 0 <= i <= |q|
      invariant world.Valid() && rng.Valid() && firstNew <= world.nextEntityId
      invariant inRange ==> rng.InRangeState()
      invariant bounded ==> world.Bounded()
      invariant Swept(before, start, firstNew, q, i, world.tables, world.entities, dt)
    {
      SweepOne(world, rng, m, q, i, dt, before, start, firstNew);
      i := i + 1;
    }
  }
}

/**
 * Component records and entity templates of src/sim/ecs/components.ts.
 * Each component interface is a record; `Component` is the tagged union the
 * per-type tables of the world store, tagged by its `ComponentType`.
 */
module Components {
  import opened Wrappers
  import Js

  datatype SpeciesKind = Herbivore | Predator | Tribal

  datatype Position = Position(x: real, y: real)

  /** `x * x + y * y`: the squared distance of `position` from the origin. */
  function SquaredNorm(position: Position): (d2: real)
    ensures d2 >= 0.0
  {
    Js.SquareNonNegative(position.x);
    Js.SquareNonNegative(position.y);
    position.x * position.x + position.y * position.y
  }

  datatype Altitude = Altitude(value: real)
  datatype Species = Species(kind: SpeciesKind)
  /** value: 0 = full, 1 = starving; rate: growth per tick. */
  datatype Hunger = Hunger(value: real, rate: real)
  datatype Age = Age(value: real, maxAge: real, maturityAge: real)
  datatype Health = Health(current: real, maximum: real)
  /** `lastDirection` is the untyped extra field the wander system attaches to the record. */
  datatype Behavior = Behavior(current: string, target: Option<Position>, cooldown: real, lastDirection: Option<real>)
  datatype VillageId = VillageId(id: Option<string>)
  datatype Selected = Selected(timestamp: real)
  datatype Reproduction = Reproduction(cooldown: real, fertility: real)
  datatype Energy = Energy(current: real, consumption: real)

  /** The keys of `ComponentData`. */
  datatype ComponentType =
    | PositionType | AltitudeType | SpeciesType | HungerType | AgeType | HealthType
    | BehaviorType | VillageIdType | SelectedType | ReproductionType | EnergyType

  datatype Component =
    | PositionOf(position: Position)
    | AltitudeOf(altitude: Altitude)
    | SpeciesOf(species: Species)
    | HungerOf(hunger: Hunger)
    | AgeOf(age: Age)
    | HealthOf(health: Health)
    | BehaviorOf(behavior: Behavior)
    | VillageIdOf(villageId: VillageId)
    | SelectedOf(selected: Selected)
    | ReproductionOf(reproduction: Reproduction)
    | EnergyOf(energy: Energy)

  /** The table a component value belongs in. */
  function TypeOf(c: Component): ComponentType {
    match c
    case PositionOf(_) => PositionType
    case AltitudeOf(_) => AltitudeType
    case SpeciesOf(_) => SpeciesType
    case HungerOf(_) => HungerType
    case AgeOf(_) => AgeType
    case HealthOf(_) => HealthType
    case BehaviorOf(_) => BehaviorType
    case VillageIdOf(_) => VillageIdType
    case SelectedOf(_) => SelectedType
    case ReproductionOf(_) => ReproductionType
    case EnergyOf(_) => EnergyType
  }

  /** The component types in the order the world registers their tables. */
  const AllTypes: seq<ComponentType> := [
    PositionType, AltitudeType, SpeciesType, HungerType, AgeType, HealthType,
    BehaviorType, VillageIdType, SelectedType, ReproductionType, EnergyType
  ]

  lemma AllTypesRegistered()
    ensures |AllTypes| == 11
    ensures forall t: ComponentType :: t in AllTypes
    ensures forall i, j :: 0 <= i < j < |AllTypes| ==> AllTypes[i] != AllTypes[j]
  {
    forall t: ComponentType ensures t in AllTypes {
      match t
      case PositionType => assert AllTypes[0] == t;
      case AltitudeType => assert AllTypes[1] == t;
      case SpeciesType => assert AllTypes[2] == t;
      case HungerType => assert AllTypes[3] == t;
      case AgeType => assert AllTypes[4] == t;
      case HealthType => assert AllTypes[5] == t;
      case BehaviorType => assert AllTypes[6] == t;
      case VillageIdType => assert AllTypes[7] == t;
      case SelectedType => assert AllTypes[8] == t;
      case ReproductionType => assert AllTypes[9] == t;
      case EnergyType => assert AllTypes[10] == t;
    }
  }

  /** The property name of a component type, as used in serialized snapshots. */
  function TypeName(t: ComponentType): string {
    match t
    case PositionType => "position"
    case AltitudeType => "altitude"
    case SpeciesType => "species"
    case HungerType => "hunger"
    case AgeType => "age"
    case HealthType => "health"
    case BehaviorType => "behavior"
    case VillageIdType => "villageId"
    case SelectedType => "selected"
    case ReproductionType => "reproduction"
    case EnergyType => "energy"
  }

  /** The registered type of a property name, if any. */
  function TypeNamed(name: string): (r: Option<ComponentType>)
    ensures r.Some? ==> TypeName(r.value) == name
  {
    if name == "position" then Some(PositionType)
    else if name == "altitude" then Some(AltitudeType)
    else if name == "species" then Some(SpeciesType)
    else if name == "hunger" then Some(HungerType)
    else if name == "age" then Some(AgeType)
    else if name == "health" then Some(HealthType)
    else if name == "behavior" then Some(BehaviorType)
    else if name == "villageId" then Some(VillageIdType)
    else if name == "selected" then Some(SelectedType)
    else if name == "reproduction" then Some(ReproductionType)
    else if name == "energy" then Some(EnergyType)
    else None
  }

  /** Every registered name is recognised, and names of distinct types differ. */
  lemma TypeNameRoundTrip(t: ComponentType)
    ensures TypeNamed(TypeName(t)) == Some(t)
  {
  }

  /** `Partial<ComponentData>`: at most one component per type. */
  type Partial = map<ComponentType, Component>

  /** Each entry sits under its own type, as the TypeScript signature demands. */
  predicate WellTyped(p: Partial) {
    forall t :: t in p ==> TypeOf(p[t]) == t
  }

  // The `create*` constructors, with the source's default arguments.

  function CreatePosition(x: real := 0.0, y: real := 0.0): Position { Position(x, y) }
  function CreateAltitude(value: real := 0.0): Altitude { Altitude(value) }
  function CreateSpecies(kind: SpeciesKind := Herbivore): Species { Species(kind) }
  function CreateHunger(value: real := 0.0, rate: real := 0.01): Hunger { Hunger(value, rate) }
  function CreateAge(value: real := 0.0, maxAge: real := 1000.0, maturityAge: real := 100.0): Age {
    Age(value, maxAge, maturityAge)
  }
  function CreateHealth(current: real := 1.0, maximum: real := 1.0): Health { Health(current, maximum) }
  function CreateBehavior(current: string := "Wandering"): Behavior { Behavior(current, None, 0.0, None) }
  function CreateVillageId(id: Option<string> := None): VillageId { VillageId(id) }
  function CreateReproduction(cooldown: real := 0.0, fertility: real := 0.1): Reproduction {
    Reproduction(cooldown, fertility)
  }
  function CreateEnergy(current: real := 1.0, consumption: real := 0.005): Energy { Energy(current, consumption) }

  /** The defaults a caller gets by omitting every argument. */
  lemma DefaultComponents()
    ensures CreatePosition() == Position(0.0, 0.0)
    ensures CreateSpecies().kind == Herbivore
    ensures CreateHunger() == Hunger(0.0, 0.01)
    ensures CreateAge() == Age(0.0, 1000.0, 100.0)
    ensures CreateHealth() == Health(1.0, 1.0)
    ensures CreateBehavior().cooldown == 0.0 && CreateBehavior().target == None && CreateBehavior().current == "Wandering"
    ensures CreateVillageId().id == None
    ensures CreateReproduction() == Reproduction(0.0, 0.1)
    ensures CreateEnergy() == Energy(1.0, 0.005)
  {
  }

  // Entity templates.

  /**
   * The nine components the three species templates share, with the numbers
   * in which they differ as parameters.
   */
  function Template(kind: SpeciesKind, x: real, y: real, hunger: Hunger, age: Age, behavior: string,
                    energy: Energy, reproduction: Reproduction): Partial {
    map[
      PositionType := PositionOf(CreatePosition(x, y)),
      AltitudeType := AltitudeOf(CreateAltitude(0.0)),
      SpeciesType := SpeciesOf(CreateSpecies(kind)),
      HungerType := HungerOf(hunger),
      AgeType := AgeOf(age),
      HealthType := HealthOf(CreateHealth()),
      BehaviorType := BehaviorOf(CreateBehavior(behavior)),
      EnergyType := EnergyOf(energy),
      ReproductionType := ReproductionOf(reproduction)
    ]
  }

  function CreateHerbivore(x: real, y: real): Partial {
    Template(Herbivore, x, y, CreateHunger(0.0, 0.008), CreateAge(0.0, 800.0, 80.0), "Foraging",
             CreateEnergy(1.0, 0.004), CreateReproduction(0.0, 0.12))
  }

  function CreatePredator(x: real, y: real): Partial {
    Template(Predator, x, y, CreateHunger(0.0, 0.015), CreateAge(0.0, 600.0, 60.0), "Hunting",
             CreateEnergy(1.0, 0.008), CreateReproduction(0.0, 0.08))
  }

  function CreateTribal(x: real, y: real): Partial {
    Template(Tribal, x, y, CreateHunger(0.0, 0.01), CreateAge(0.0, 1200.0, 120.0), "Building",
             CreateEnergy(1.0, 0.003), CreateReproduction(0.0, 0.06))[VillageIdType := VillageIdOf(CreateVillageId())]
  }

  /** The template matching a species, as the respawn and offspring code selects it. */
  function TemplateFor(kind: SpeciesKind, x: real, y: real): Partial {
    match kind
    case Herbivore => CreateHerbivore(x, y)
    case Predator => CreatePredator(x, y)
    case Tribal => CreateTribal(x, y)
  }

  /** The value ranges the simulation keeps for the components that carry them. */
  predicate ComponentBounded(c: Component) {
    match c
    case HungerOf(h) => 0.0 <= h.value <= 1.0 && 0.0 <= h.rate
    case HealthOf(h) => 0.0 <= h.current <= h.maximum
    case EnergyOf(e) => 0.0 <= e.current <= 1.0 && 0.0 <= e.consumption
    case AgeOf(a) => 0.0 <= a.value
    case _ => true
  }

  predicate PartialBounded(p: Partial) {
    forall t :: t in p ==> ComponentBounded(p[t])
  }

  /**
   * `p` has a component of every type a template supplies: the seven that the
   * hunger, wander and aging systems query (position, species, behavior,
   * energy, hunger, health, age), plus altitude and reproduction.
   */
  predicate SuppliesTemplateTypes(p: Partial) {
    && PositionType in p && SpeciesType in p && BehaviorType in p && EnergyType in p
    && HungerType in p && HealthType in p && AgeType in p
    && AltitudeType in p && ReproductionType in p
  }

  /** The components a template supplies, and their types and ranges. */
  predicate NewbornShape(p: Partial, kind: SpeciesKind) {
    && WellTyped(p)
    && PartialBounded(p)
    && SuppliesTemplateTypes(p)
    && SelectedType !in p
    && (VillageIdType in p <==> kind == Tribal)
  }

  /** The starting values a template gives a newborn entity at (x, y). */
  predicate NewbornValues(p: Partial, kind: SpeciesKind, x: real, y: real)
    requires SuppliesTemplateTypes(p)
  {
    && (VillageIdType in p ==> p[VillageIdType] == VillageIdOf(VillageId(None)))
    && p[SpeciesType] == SpeciesOf(Species(kind))
    && p[PositionType] == PositionOf(Position(x, y))
    && p[AltitudeType] == AltitudeOf(Altitude(0.0))
    && p[HealthType] == HealthOf(Health(1.0, 1.0))
    && p[AgeType].AgeOf? && p[AgeType].age.value == 0.0
    && 0.0 < p[AgeType].age.maturityAge < p[AgeType].age.maxAge
    && p[HungerType].HungerOf? && p[HungerType].hunger.value == 0.0 && 0.0 < p[HungerType].hunger.rate
    && p[EnergyType].EnergyOf? && p[EnergyType].energy.current == 1.0 && 0.0 < p[EnergyType].energy.consumption
    && p[ReproductionType].ReproductionOf? && p[ReproductionType].reproduction.cooldown == 0.0
    && 0.0 < p[ReproductionType].reproduction.fertility <= 1.0
    && p[BehaviorType].BehaviorOf? && p[BehaviorType].behavior.cooldown == 0.0
    && p[BehaviorType].behavior.target == None
  }

  /** What every template promises about a newborn entity of its species. */
  lemma TemplateFacts(kind: SpeciesKind, x: real, y: real)
    ensures NewbornShape(TemplateFor(kind, x, y), kind)
    ensures NewbornValues(TemplateFor(kind, x, y), kind, x, y)
  {
    match kind
    case Herbivore => HerbivoreShape(x, y); HerbivoreValues(x, y);
    case Predator => PredatorShape(x, y); PredatorValues(x, y);
    case Tribal => TribalShape(x, y); TribalValues(x, y);
  }

  /** The nine component types every template supplies. */
  const TemplateTypes: set<ComponentType> := {
    PositionType, AltitudeType, SpeciesType, HungerType, AgeType, HealthType,
    BehaviorType, EnergyType, ReproductionType
  }

  lemma TemplateKeys(kind: SpeciesKind, x: real, y: real, hunger: Hunger, age: Age, behavior: string,
                     energy: Energy, reproduction: Reproduction)
    ensures Template(kind, x, y, hunger, age, behavior, energy, reproduction).Keys == TemplateTypes
  {
  }

  lemma TemplateTyped(kind: SpeciesKind, x: real, y: real, hunger: Hunger, age: Age, behavior: string,
                      energy: Energy, reproduction: Reproduction)
    ensures WellTyped(Template(kind, x, y, hunger, age, behavior, energy, reproduction))
  {
  }

  lemma TemplateBounded(kind: SpeciesKind, x: real, y: real, hunger: Hunger, age: Age, behavior: string,
                        energy: Energy, reproduction: Reproduction)
    requires ComponentBounded(HungerOf(hunger)) && ComponentBounded(AgeOf(age)) && ComponentBounded(EnergyOf(energy))
    ensures PartialBounded(Template(kind, x, y, hunger, age, behavior, energy, reproduction))
  {
  }

  /** A partial record with exactly the template's keys supplies them all, and neither selection nor village. */
  lemma TemplateKeysSupply(p: Partial)
    requires p.Keys == TemplateTypes
    ensures SuppliesTemplateTypes(p) && SelectedType !in p && VillageIdType !in p
  {
  }

  /** The shared template is the shape of a newborn of any species but the tribal one. */
  lemma TemplateShape(kind: SpeciesKind, x: real, y: real, hunger: Hunger, age: Age, behavior: string,
                      energy: Energy, reproduction: Reproduction)
    requires ComponentBounded(HungerOf(hunger)) && ComponentBounded(AgeOf(age)) && ComponentBounded(EnergyOf(energy))
    ensures var p := Template(kind, x, y, hunger, age, behavior, energy, reproduction);
      WellTyped(p) && PartialBounded(p) && SuppliesTemplateTypes(p) && SelectedType !in p && VillageIdType !in p
  {
    TemplateKeys(kind, x, y, hunger, age, behavior, energy, reproduction);
    TemplateTyped(kind, x, y, hunger, age, behavior, energy, reproduction);
    TemplateBounded(kind, x, y, hunger, age, behavior, energy, reproduction);
    TemplateKeysSupply(Template(kind, x, y, hunger, age, behavior, energy, reproduction));
  }

  lemma HerbivoreShape(x: real, y: real)
    ensures NewbornShape(CreateHerbivore(x, y), Herbivore)
  {
    TemplateShape(Herbivore, x, y, CreateHunger(0.0, 0.008), CreateAge(0.0, 800.0, 80.0), "Foraging",
                  CreateEnergy(1.0, 0.004), CreateReproduction(0.0, 0.12));
  }

  lemma PredatorShape(x: real, y: real)
    ensures NewbornShape(CreatePredator(x, y), Predator)
  {
    TemplateShape(Predator, x, y, CreateHunger(0.0, 0.015), CreateAge(0.0, 600.0, 60.0), "Hunting",
                  CreateEnergy(1.0, 0.008), CreateReproduction(0.0, 0.08));
  }

  lemma TribalShape(x: real, y: real)
    ensures NewbornShape(CreateTribal(x, y), Tribal)
  {
    var base := Template(Tribal, x, y, CreateHunger(0.0, 0.01), CreateAge(0.0, 1200.0, 120.0), "Building",
                         CreateEnergy(1.0, 0.003), CreateReproduction(0.0, 0.06));
    TemplateShape(Tribal, x, y, CreateHunger(0.0, 0.01), CreateAge(0.0, 1200.0, 120.0), "Building",
                  CreateEnergy(1.0, 0.003), CreateReproduction(0.0, 0.06));
    VillageAdded(base, CreateVillageId());
  }

  /** Adding a village to a well-typed, bounded record that supplies the template types keeps all three. */
  lemma VillageAdded(base: Partial, village: VillageId)
    requires WellTyped(base) && PartialBounded(base) && SuppliesTemplateTypes(base) && SelectedType !in base
    ensures var p := base[VillageIdType := VillageIdOf(village)];
      WellTyped(p) && PartialBounded(p) && SuppliesTemplateTypes(p) && SelectedType !in p && VillageIdType in p
  {
  }

  lemma HerbivoreValues(x: real, y: real)
    ensures SuppliesTemplateTypes(CreateHerbivore(x, y))
    ensures NewbornValues(CreateHerbivore(x, y), Herbivore, x, y)
  {}
  lemma PredatorValues(x: real, y: real)
    ensures SuppliesTemplateTypes(CreatePredator(x, y))
    ensures NewbornValues(CreatePredator(x, y), Predator, x, y)
  {}
  lemma TribalValues(x: real, y: real)
    ensures SuppliesTemplateTypes(CreateTribal(x, y))
    ensures NewbornValues(CreateTribal(x, y), Tribal, x, y)
  {}
}

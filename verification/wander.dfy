/**
 * The wander system of src/sim/ecs/systems/wander.ts: once per tick, every
 * entity holding a position, a behaviour and energy either rests (too
 * tired), counts its behaviour cooldown down, or chooses a behaviour, moves
 * and pays energy for it.
 *
 * The position, behaviour and energy records the callback mutates in place
 * are modelled as values that the callback writes back into the world's
 * tables once it is done with them.
 */
module WanderSystem {
  import opened Wrappers
  import opened Components
  import opened Ecs
  import opened Newborns
  import Rng
  import Js

  const Resting: string := "Resting"
  const Hunting: string := "Hunting"
  const Foraging: string := "Foraging"

  /** Half the side of the square world (`worldSize / 2` with `worldSize = 1000`). */
  const HalfWorld: real := 500.0

  /** The behaviour names the system ever assigns. */
  const KnownBehaviors: set<string> := {
    "Wandering", "Foraging", "Socializing", "Resting", "Patrolling",
    "Hunting", "Stalking", "Building", "Crafting", "Exploring"}

  predicate InWorld(p: Position) {
    -HalfWorld <= p.x <= HalfWorld && -HalfWorld <= p.y <= HalfWorld
  }

  /** `Math.max(-worldSize / 2, Math.min(worldSize / 2, v))`. */
  function Clamp(v: real): (r: real)
    ensures -HalfWorld <= r <= HalfWorld
    ensures -HalfWorld <= v <= HalfWorld ==> r == v
    ensures v < -HalfWorld ==> r == -HalfWorld
    ensures v > HalfWorld ==> r == HalfWorld
  {
    Js.Max(-HalfWorld, Js.Min(HalfWorld, v))
  }

  /** Clamping into the world never takes a coordinate farther from a point inside it. */
  lemma ClampNoFarther(v: real, c: real)
    requires -HalfWorld <= c <= HalfWorld
    ensures v >= c ==> c <= Clamp(v) <= v
    ensures v <= c ==> v <= Clamp(v) <= c
  {
  }

  /** `species?.kind || 'HERBIVORE'`. */
  function KindOr(species: Option<Species>): SpeciesKind {
    if species.Some? then species.value.kind else Herbivore
  }

  /** `getBaseSpeed`. */
  function BaseSpeed(kind: SpeciesKind): (speed: real)
    ensures 0.8 <= speed <= 1.2
  {
    match kind
    case Herbivore => 0.8
    case Predator => 1.2
    case Tribal => 1.0
  }

  /** `getMaxWanderDistance`. */
  function MaxWanderDistance(kind: SpeciesKind): (d: real)
    ensures 100.0 <= d <= 200.0
  {
    match kind
    case Herbivore => 100.0
    case Predator => 200.0
    case Tribal => 150.0
  }

  /** `getBehaviorOptions`. */
  function BehaviorOptions(kind: SpeciesKind): (options: seq<string>)
    ensures |options| >= 4
    ensures forall o :: o in options ==> o in KnownBehaviors
    ensures Resting in options <==> kind != Tribal
  {
    match kind
    case Herbivore => ["Wandering", "Foraging", "Socializing", "Resting"]
    case Predator => ["Patrolling", "Hunting", "Stalking", "Resting"]
    case Tribal => ["Wandering", "Building", "Crafting", "Socializing", "Exploring"]
  }

  /** The behaviour a very hungry entity switches to. */
  function HungryBehavior(kind: SpeciesKind, hungerLevel: real): (b: string)
    ensures b == Hunting || b == Foraging
    ensures kind == Herbivore ==> b == Foraging
    ensures kind == Predator ==> b == Hunting
    ensures kind == Tribal ==> (b == Hunting <==> hungerLevel > 0.8)
  {
    match kind
    case Herbivore => Foraging
    case Predator => Hunting
    case Tribal => if hungerLevel > 0.8 then Hunting else Foraging
  }

  /** `energy?.current || 1`: an energy of exactly zero reads as full. */
  function EnergyLevel(energy: Energy): real {
    if energy.current == 0.0 then 1.0 else energy.current
  }

  /** `hunger?.value || 0`. */
  function HungerLevel(hunger: Option<Hunger>): real {
    if hunger.Some? then hunger.value.value else 0.0
  }

  /** The factor `executeMovement` applies to the base step for each behaviour. */
  function BehaviorPace(current: string): (factor: real)
    ensures 0.0 <= factor <= 1.5
    ensures factor == 0.0 <==> current == Resting
  {
    if current == Hunting || current == "Stalking" then 1.5
    else if current == Foraging then 0.7
    else if current == Resting then 0.0
    else if current == "Building" || current == "Crafting" then 0.3
    else 1.0
  }

  /** `moveDistance`: base speed times the tick length, scaled by the behaviour. */
  function MoveDistance(species: Option<Species>, current: string, dt: real): (d: real)
    ensures current == Resting ==> d == 0.0
    ensures dt >= 0.0 ==> d >= 0.0
    ensures dt > 0.0 && current != Resting ==> d > 0.0
    ensures dt <= 0.0 ==> d <= 0.0
  {
    var speed := BaseSpeed(KindOr(species));
    var pace := BehaviorPace(current);
    Js.ProductNonNegative(speed, pace);
    var rate := speed * pace;
    assert pace > 0.0 ==> rate > 0.0;
    if dt >= 0.0 then
      Js.ProductNonNegative(rate, dt);
      rate * dt
    else
      Js.ProductNonNegative(rate, -dt);
      assert rate * dt == -(rate * -dt);
      rate * dt
  }

  /** The energy record after paying `consumption * dt`, floored at zero. */
  function Spend(energy: Energy, dt: real): (r: Energy)
    ensures r.consumption == energy.consumption
    ensures r.current >= 0.0
    ensures energy.consumption >= 0.0 && dt >= 0.0 && energy.current >= 0.0 ==> r.current <= energy.current
  {
    if energy.consumption >= 0.0 && dt >= 0.0 then
      Js.ProductNonNegative(energy.consumption, dt);
      Energy(Js.Max(energy.current - energy.consumption * dt, 0.0), energy.consumption)
    else
      Energy(Js.Max(energy.current - energy.consumption * dt, 0.0), energy.consumption)
  }

  /** `!behavior.lastDirection`: no direction yet, or the direction 0, reads as absent. */
  predicate HasDirection(lastDirection: Option<real>) {
    lastDirection.Some? && lastDirection.value != 0.0
  }

  /**
   * `updateBehavior` on the behaviour record. Needs the generator in range,
   * where `randomElement` always yields an element.
   */
  method UpdateBehavior(rng: Rng.SeededRng, b: Behavior, species: Option<Species>, hunger: Option<Hunger>, energy: Energy)
    returns (r: Behavior)
    requires rng.Valid() && rng.InRangeState()
    modifies rng
    ensures rng.Valid() && rng.InRangeState()
    ensures r.target == b.target && r.lastDirection == b.lastDirection
    ensures species.None? ==> r == b && rng.seed == old(rng.seed)
    ensures species.Some? && EnergyLevel(energy) < 0.2 ==>
      r == b.(current := Resting, cooldown := 60.0) && rng.seed == old(rng.seed)
    ensures species.Some? && EnergyLevel(energy) >= 0.2 && HungerLevel(hunger) > 0.7 ==>
      r == b.(current := HungryBehavior(species.value.kind, HungerLevel(hunger))) && rng.seed == old(rng.seed)
    ensures species.Some? && EnergyLevel(energy) >= 0.2 && HungerLevel(hunger) <= 0.7 ==>
      var change := Rng.Output(Rng.Step(old(rng.seed))) < 0.1;
      && rng.seed == (if change then Rng.Step(Rng.Step(old(rng.seed))) else Rng.Step(old(rng.seed)))
      && r.cooldown == b.cooldown
      && (change ==> r.current in BehaviorOptions(species.value.kind))
      && (!change ==> r == b)
  {
    r := b;
    if species.None? {
      return;
    }
    var energyLevel := EnergyLevel(energy);
    var hungerLevel := HungerLevel(hunger);
    if energyLevel < 0.2 {
      r := r.(current := Resting, cooldown := 60.0);
      return;
    }
    if hungerLevel > 0.7 {
      r := r.(current := HungryBehavior(species.value.kind, hungerLevel));
      return;
    }
    var change := rng.NextBool(0.1);
    if change {
      var choice := rng.NextElement(BehaviorOptions(species.value.kind));
      r := r.(current := choice.value);
    }
  }

  /** Every coordinate moved by at most `d`. */
  predicate Within(p: Position, q: Position, d: real) {
    Near(q, p, d)
  }

  /**
   * What a call of `executeMovement` guarantees about the position: no step
   * when the distance is not positive, a position inside the world otherwise,
   * and, with exact square roots and sines and cosines in [-1, 1], a step of
   * at most `moveDistance` along each axis from a position inside the world.
   */
  ghost predicate Stepped(p: Position, q: Position, moveDistance: real, m: Js.MathLib) {
    && (moveDistance <= 0.0 ==> q == p)
    && (moveDistance > 0.0 ==> InWorld(q))
    && (moveDistance > 0.0 && InWorld(p) && Js.ExactSqrt(m) && Js.BoundedTrig(m) ==> Within(p, q, moveDistance))
  }

  /** A step of `u * d` along an axis, clamped, stays within `d` of a start inside the world. */
  lemma ClampedStep(c: real, u: real, d: real)
    requires -HalfWorld <= c <= HalfWorld && -1.0 <= u <= 1.0 && d >= 0.0
    ensures -d <= Clamp(c + u * d) - c <= d
  {
    Js.ScaledWithin(u, d);
    ClampedShift(c, u * d, d);
  }

  /** A shift of at most `d`, clamped, stays within `d` of a start inside the world. */
  lemma ClampedShift(c: real, s: real, d: real)
    requires -HalfWorld <= c <= HalfWorld && -d <= s <= d
    ensures -d <= Clamp(c + s) - c <= d
  {
    ClampNoFarther(c + s, c);
  }

  /** The point `(ux * d, uy * d)` away from `p`, clamped into the world. */
  function Advance(p: Position, ux: real, uy: real, d: real): (q: Position)
    ensures InWorld(q)
  {
    Position(Clamp(p.x + ux * d), Clamp(p.y + uy * d))
  }

  /** With factors in [-1, 1], an advance from inside the world moves each coordinate by at most `d`. */
  lemma AdvanceWithin(p: Position, ux: real, uy: real, d: real)
    requires InWorld(p) && -1.0 <= ux <= 1.0 && -1.0 <= uy <= 1.0 && d >= 0.0
    ensures Within(p, Advance(p, ux, uy, d), d)
  {
    ClampedStep(p.x, ux, d);
    ClampedStep(p.y, uy, d);
  }

  /** With an exact square root, each coordinate of a direction divided by its length lies in [-1, 1]. */
  lemma UnitDirection(dx: real, dy: real, distance: real, m: Js.MathLib)
    requires distance > 0.0 && Js.ExactSqrt(m)
    requires distance == m.Sqrt(SquaredNorm(Position(dx, dy)))
    ensures -1.0 <= dx / distance <= 1.0 && -1.0 <= dy / distance <= 1.0
  {
    assert Js.Consulted(m, SquaredNorm(Position(dx, dy)));
    assert Js.IsRoot(distance, dx * dx + dy * dy);
    Js.CoordinateWithinNorm(dx, dy, distance);
    Js.CoordinateWithinNorm(dy, dx, distance);
    Js.RatioWithin(dx, distance);
    Js.RatioWithin(dy, distance);
  }

  /** With sines and cosines in [-1, 1], both factors of a heading lie in [-1, 1]. */
  lemma UnitHeading(direction: real, m: Js.MathLib)
    requires Js.BoundedTrig(m)
    ensures -1.0 <= m.Cos(direction) <= 1.0 && -1.0 <= m.Sin(direction) <= 1.0
  {
    assert Js.Consulted(m, direction);
  }

  /** The clamped point `d` along the heading `direction` from `p`. */
  function Heading(p: Position, direction: real, d: real, m: Js.MathLib): (q: Position)
    ensures InWorld(q)
  {
    Advance(p, m.Cos(direction), m.Sin(direction), d)
  }

  /** With sines and cosines in [-1, 1], a heading step from inside the world moves each coordinate by at most `d`. */
  lemma HeadingWithin(p: Position, direction: real, d: real, m: Js.MathLib)
    requires InWorld(p) && d >= 0.0 && Js.BoundedTrig(m)
    ensures Within(p, Heading(p, direction, d, m), d)
  {
    UnitHeading(direction, m);
    AdvanceWithin(p, m.Cos(direction), m.Sin(direction), d);
  }

  /** The clamped point `d` from `p` toward `t`, which lies `distance` away. */
  function Toward(p: Position, t: Position, distance: real, d: real): (q: Position)
    requires distance > 0.0
    ensures InWorld(q)
  {
    Advance(p, (t.x - p.x) / distance, (t.y - p.y) / distance, d)
  }

  /** With an exact square root, a step toward a target from inside the world moves each coordinate by at most `d`. */
  lemma TowardWithin(p: Position, t: Position, distance: real, d: real, m: Js.MathLib)
    requires InWorld(p) && d >= 0.0 && distance > 0.0 && Js.ExactSqrt(m)
    requires distance == m.Sqrt(SquaredNorm(Position(t.x - p.x, t.y - p.y)))
    ensures Within(p, Toward(p, t, distance, d), d)
  {
    UnitDirection(t.x - p.x, t.y - p.y, distance, m);
    AdvanceWithin(p, (t.x - p.x) / distance, (t.y - p.y) / distance, d);
  }

  /**
   * Where `executeMovement` puts the entity and what it does to the
   * behaviour, for a positive distance `d`: toward a target farther than 1,
   * leaving the behaviour alone; onto the clamped current position when the
   * target is within 1, keeping the heading; along the (possibly new)
   * heading when there is no target.
   */
  ghost predicate Steered(p: Position, q: Position, b: Behavior, r: Behavior, d: real, m: Js.MathLib) {
    d > 0.0 ==>
      if b.target.Some? then
        var dist := m.Sqrt(SquaredNorm(Position(b.target.value.x - p.x, b.target.value.y - p.y)));
        && (dist > 1.0 ==> q == Toward(p, b.target.value, dist, d) && r == b)
        && (dist <= 1.0 ==> q == Position(Clamp(p.x), Clamp(p.y)) && r.lastDirection == b.lastDirection)
      else
        r.lastDirection.Some? && q == Heading(p, r.lastDirection.value, d, m)
  }

  lemma WithinWider(p: Position, q: Position, d: real, e: real)
    requires Within(p, q, d) && d <= e
    ensures Within(p, q, e)
  {
  }

  /**
   * `setNewTarget`: a target at a random angle and a random distance in
   * [10, getMaxWanderDistance] from `p`, clamped into the world.
   */
  method SetNewTarget(rng: Rng.SeededRng, m: Js.MathLib, b: Behavior, p: Position, species: Option<Species>)
    returns (r: Behavior)
    requires rng.Valid()
    modifies rng
    ensures rng.Valid() && rng.seed == Rng.Step(Rng.Step(old(rng.seed)))
    ensures old(rng.InRangeState()) ==> rng.InRangeState()
    ensures r == b.(target := r.target) && r.target.Some? && InWorld(r.target.value)
    ensures old(rng.InRangeState()) && InWorld(p) && Js.BoundedTrig(m) ==>
      Within(p, r.target.value, MaxWanderDistance(KindOr(species)))
  {
    var maxDistance := MaxWanderDistance(KindOr(species));
    var angle := rng.NextFloat(0.0, Js.Pi * 2.0);
    var distance := rng.NextFloat(10.0, maxDistance);
    var target := Heading(p, angle, distance, m);
    r := b.(target := Some(target));
    if old(rng.InRangeState()) && InWorld(p) && Js.BoundedTrig(m) {
      assert 10.0 <= distance <= maxDistance;
      HeadingWithin(p, angle, distance, m);
      WithinWider(p, target, distance, maxDistance);
    }
  }

  /**
   * `executeMovement`: a step toward the target (dropping a target within 1),
   * or along the remembered heading, clamped into the world; then, without a
   * target, a 5% chance to pick a new one.
   */
  method ExecuteMovement(rng: Rng.SeededRng, m: Js.MathLib, p: Position, b: Behavior, species: Option<Species>, dt: real)
    returns (q: Position, r: Behavior)
    requires rng.Valid()
    modifies rng
    ensures rng.Valid() && (old(rng.InRangeState()) ==> rng.InRangeState())
    ensures r.current == b.current && r.cooldown == b.cooldown
    ensures Stepped(p, q, MoveDistance(species, b.current, dt), m)
    ensures MoveDistance(species, b.current, dt) <= 0.0 ==> r == b && rng.seed == old(rng.seed)
    ensures r.target == b.target || r.target.None? || InWorld(r.target.value)
    ensures Steered(p, q, b, r, MoveDistance(species, b.current, dt), m)
    ensures MoveDistance(species, b.current, dt) > 0.0 && b.target.Some? ==>
      var dist := m.Sqrt(SquaredNorm(Position(b.target.value.x - p.x, b.target.value.y - p.y)));
      && (dist > 1.0 ==> rng.seed == old(rng.seed))
      && (dist <= 1.0 ==> (r.target.None? <==> Rng.Output(Rng.Step(old(rng.seed))) >= 0.05))
    ensures MoveDistance(species, b.current, dt) > 0.0 && b.target.None? ==>
      var s1 := Rng.Step(old(rng.seed));
      var keep := HasDirection(b.lastDirection) && Rng.Output(Rng.Step(s1)) < 0.8;
      r.lastDirection == (if keep then b.lastDirection else Some(Rng.Output(s1) * (Js.Pi * 2.0 - 0.0) + 0.0))
  {
    var moveDistance := MoveDistance(species, b.current, dt);
    q, r := p, b;
    if moveDistance > 0.0 {
      if b.target.Some? {
        var dx, dy := b.target.value.x - p.x, b.target.value.y - p.y;
        var distance := m.Sqrt(SquaredNorm(Position(dx, dy)));
        if distance > 1.0 {
          q := Toward(p, b.target.value, distance, moveDistance);
          if InWorld(p) && Js.ExactSqrt(m) {
            TowardWithin(p, b.target.value, distance, moveDistance, m);
          }
        } else {
          q := Position(Clamp(p.x), Clamp(p.y));
          r := MaybeRetarget(rng, m, r.(target := None), q, species);
        }
      } else {
        q, r := Roam(rng, m, p, b, moveDistance);
        r := MaybeRetarget(rng, m, r, q, species);
      }
    }
  }

  /**
   * The wandering branch of `executeMovement`: a fresh angle is drawn, the
   * remembered heading is kept with probability 0.8 when there is one, and
   * the entity steps `d` along the heading, clamped into the world.
   */
  method Roam(rng: Rng.SeededRng, m: Js.MathLib, p: Position, b: Behavior, d: real)
    returns (q: Position, r: Behavior)
    requires rng.Valid() && d > 0.0
    modifies rng
    ensures rng.Valid() && (old(rng.InRangeState()) ==> rng.InRangeState())
    ensures r == b.(lastDirection := r.lastDirection) && r.lastDirection.Some?
    ensures q == Heading(p, r.lastDirection.value, d, m)
    ensures InWorld(p) && Js.BoundedTrig(m) ==> Within(p, q, d)
    ensures var s1 := Rng.Step(old(rng.seed));
      var keep := HasDirection(b.lastDirection) && Rng.Output(Rng.Step(s1)) < 0.8;
      r.lastDirection == (if keep then b.lastDirection else Some(Rng.Output(s1) * (Js.Pi * 2.0 - 0.0) + 0.0))
  {
    var angle := rng.NextFloat(0.0, Js.Pi * 2.0);
    var keep := false;
    r := b;
    if HasDirection(b.lastDirection) {
      keep := rng.NextBool(0.8);
    }
    if !keep {
      r := r.(lastDirection := Some(angle));
    }
    q := Heading(p, r.lastDirection.value, d, m);
    if InWorld(p) && Js.BoundedTrig(m) {
      HeadingWithin(p, r.lastDirection.value, d, m);
    }
  }

  /** `if (!behavior.target && rng.randomBool(0.05)) setNewTarget(...)`, on a behaviour without a target. */
  method MaybeRetarget(rng: Rng.SeededRng, m: Js.MathLib, b: Behavior, q: Position, species: Option<Species>)
    returns (r: Behavior)
    requires rng.Valid() && b.target.None?
    modifies rng
    ensures rng.Valid() && (old(rng.InRangeState()) ==> rng.InRangeState())
    ensures r == b.(target := r.target)
    ensures r.target.None? <==> Rng.Output(Rng.Step(old(rng.seed))) >= 0.05
    ensures r.target.Some? ==> InWorld(r.target.value)
  {
    r := b;
    var retarget := rng.NextBool(0.05);
    if retarget {
      r := SetNewTarget(rng, m, r, q, species);
    }
  }

  /** The three records the callback receives. */
  datatype Mover = Mover(position: Position, behavior: Behavior, energy: Energy)

  /** The queried component types, in the order the system names them. */
  const MoverTypes: seq<ComponentType> := [PositionType, BehaviorType, EnergyType]

  predicate HasMover(tables: Tables, id: EntityId) {
    && PositionType in tables && id in tables[PositionType] && tables[PositionType][id].PositionOf?
    && BehaviorType in tables && id in tables[BehaviorType] && tables[BehaviorType][id].BehaviorOf?
    && EnergyType in tables && id in tables[EnergyType] && tables[EnergyType][id].EnergyOf?
  }

  function MoverAt(tables: Tables, id: EntityId): Mover
    requires HasMover(tables, id)
  {
    Mover(tables[PositionType][id].position, tables[BehaviorType][id].behavior, tables[EnergyType][id].energy)
  }

  /** The tables after writing `mv` back into `id`'s three records. */
  function WithMover(tables: Tables, id: EntityId, mv: Mover): Tables
    requires Registered(tables)
  {
    PutAt(PutAt(PutAt(tables, PositionType, id, PositionOf(mv.position)), BehaviorType, id, BehaviorOf(mv.behavior)),
          EnergyType, id, EnergyOf(mv.energy))
  }

  /** `world.getComponent(entityId, 'species')`, as a species record. */
  function SpeciesAt(tables: Tables, id: EntityId): Option<Species> {
    if SpeciesType in tables && id in tables[SpeciesType] && tables[SpeciesType][id].SpeciesOf?
    then Some(tables[SpeciesType][id].species) else None
  }

  /** `world.getComponent(entityId, 'hunger')`, as a hunger record. */
  function HungerAt(tables: Tables, id: EntityId): Option<Hunger> {
    if HungerType in tables && id in tables[HungerType] && tables[HungerType][id].HungerOf?
    then Some(tables[HungerType][id].hunger) else None
  }

  /** Writing one entity's records back leaves every other entity's row alone. */
  lemma SameRowAfterMover(tables: Tables, id: EntityId, mv: Mover)
    requires Registered(tables)
    ensures forall x: EntityId :: x != id ==> SameRow(WithMover(tables, id, mv), tables, x)
  {
    forall x: EntityId | x != id
      ensures SameRow(WithMover(tables, id, mv), tables, x)
    {
      forall t: ComponentType
        ensures x in WithMover(tables, id, mv)[t] <==> x in tables[t]
        ensures x in tables[t] ==> WithMover(tables, id, mv)[t][x] == tables[t][x]
      {
      }
    }
  }

  /** Writing the same records over tables that agree on `id`'s row gives tables that still agree on it. */
  lemma MoverRowRebase(a: Tables, b: Tables, id: EntityId, mv: Mover)
    requires SameRow(a, b, id)
    ensures Registered(a) && Registered(b)
    ensures SameRow(WithMover(a, id, mv), WithMover(b, id, mv), id)
  {
    forall t: ComponentType
      ensures id in WithMover(a, id, mv)[t] <==> id in WithMover(b, id, mv)[t]
      ensures id in WithMover(a, id, mv)[t] ==> WithMover(a, id, mv)[t][id] == WithMover(b, id, mv)[t][id]
    {
    }
  }

  lemma WithMoverBounded(tables: Tables, id: EntityId, mv: Mover)
    requires Registered(tables) && TablesBounded(tables) && ComponentBounded(EnergyOf(mv.energy))
    ensures TablesBounded(WithMover(tables, id, mv))
  {
  }

  /**
   * The behaviour `updateBehavior` leaves behind, whatever the generator
   * says: unchanged without a species, rest for 60 when tired, the hungry
   * behaviour when very hungry, otherwise the old behaviour or one of the
   * species' options, with the cooldown kept.
   */
  ghost predicate Chose(b: Behavior, species: Option<Species>, hunger: Option<Hunger>, energy: Energy, r: Behavior) {
    if species.None? then r.current == b.current && r.cooldown == b.cooldown
    else if EnergyLevel(energy) < 0.2 then r.current == Resting && r.cooldown == 60.0
    else if HungerLevel(hunger) > 0.7 then
      r.current == HungryBehavior(species.value.kind, HungerLevel(hunger)) && r.cooldown == b.cooldown
    else r.cooldown == b.cooldown && (r.current == b.current || r.current in BehaviorOptions(species.value.kind))
  }

  /**
   * What one callback does to an entity's records: an exhausted entity (energy
   * at most 0.1) only starts resting; one in cooldown only counts it down by
   * `dt`; any other chooses a behaviour, moves according to it and pays
   * `consumption * dt` of energy, floored at zero.
   */
  ghost predicate Moved(before: Mover, after: Mover, species: Option<Species>, hunger: Option<Hunger>, dt: real, m: Js.MathLib) {
    var e := before.energy;
    var b := before.behavior;
    if e.current <= 0.1 then
      after == before.(behavior := b.(current := Resting))
    else if b.cooldown > 0.0 then
      after == before.(behavior := b.(cooldown := b.cooldown - dt))
    else
      && after.energy == Spend(e, dt)
      && Chose(b, species, hunger, e, after.behavior)
      && Stepped(before.position, after.position, MoveDistance(species, after.behavior.current, dt), m)
      && Steered(before.position, after.position, b.(current := after.behavior.current, cooldown := after.behavior.cooldown),
                 after.behavior, MoveDistance(species, after.behavior.current, dt), m)
      && (after.behavior.target == b.target || after.behavior.target.None? || InWorld(after.behavior.target.value))
  }

  /** With a non-negative tick, a callback keeps energy in [0, 1] and never raises it. */
  lemma MovedEnergy(before: Mover, after: Mover, species: Option<Species>, hunger: Option<Hunger>, dt: real, m: Js.MathLib)
    requires Moved(before, after, species, hunger, dt, m) && dt >= 0.0
    requires 0.0 <= before.energy.current <= 1.0 && 0.0 <= before.energy.consumption
    ensures 0.0 <= after.energy.current <= before.energy.current
    ensures after.energy.consumption == before.energy.consumption
  {
  }

  /** The callback's decisions on the records of one entity, before they are written back. */
  method Decide(rng: Rng.SeededRng, m: Js.MathLib, mv: Mover, species: Option<Species>, hunger: Option<Hunger>, dt: real)
    returns (after: Mover)
    requires rng.Valid() && rng.InRangeState()
    modifies rng
    ensures rng.Valid() && rng.InRangeState()
    ensures Moved(mv, after, species, hunger, dt, m)
  {
    if mv.energy.current <= 0.1 {
      after := mv.(behavior := mv.behavior.(current := Resting));
    } else if mv.behavior.cooldown > 0.0 {
      after := mv.(behavior := mv.behavior.(cooldown := mv.behavior.cooldown - dt));
    } else {
      var behavior := UpdateBehavior(rng, mv.behavior, species, hunger, mv.energy);
      var position, moved := ExecuteMovement(rng, m, mv.position, behavior, species, dt);
      after := Mover(position, moved, Spend(mv.energy, dt));
    }
  }

  /** The callback `wanderSystem` runs for one entity. */
  method Visit(world: World, rng: Rng.SeededRng, m: Js.MathLib, id: EntityId, dt: real) returns (after: Mover)
    requires world.Valid() && rng.Valid() && rng.InRangeState() && HasMover(world.tables, id)
    modifies world, rng
    ensures world.Valid() && rng.Valid() && rng.InRangeState()
    ensures world.entities == old(world.entities) && world.nextEntityId == old(world.nextEntityId)
    ensures world.tables == WithMover(old(world.tables), id, after)
    ensures Moved(MoverAt(old(world.tables), id), after, SpeciesAt(old(world.tables), id), HungerAt(old(world.tables), id), dt, m)
    ensures dt >= 0.0 && old(world.Bounded()) ==> world.Bounded()
  {
    ghost var before := world.tables;
    var mv := MoverAt(world.tables, id);
    after := Decide(rng, m, mv, SpeciesAt(world.tables, id), HungerAt(world.tables, id), dt);
    if dt >= 0.0 && world.Bounded() {
      assert ComponentBounded(EnergyOf(mv.energy));
      MovedEnergy(mv, after, SpeciesAt(before, id), HungerAt(before, id), dt, m);
    }
    WriteBack(world, id, after);
  }

  /** The callback's in-place updates of the three records, as one write of the new values. */
  method WriteBack(world: World, id: EntityId, mv: Mover)
    requires world.Valid() && HasMover(world.tables, id)
    modifies world
    ensures world.Valid() && world.entities == old(world.entities) && world.nextEntityId == old(world.nextEntityId)
    ensures world.tables == WithMover(old(world.tables), id, mv)
    ensures old(world.Bounded()) && ComponentBounded(EnergyOf(mv.energy)) ==> world.Bounded()
  {
    if world.Bounded() && ComponentBounded(EnergyOf(mv.energy)) {
      WithMoverBounded(world.tables, id, mv);
    }
    world.Overwrite(id, PositionOf(mv.position));
    world.Overwrite(id, BehaviorOf(mv.behavior));
    world.Overwrite(id, EnergyOf(mv.energy));
  }

  /**
   * The state of a tick over the snapshot `q` after its first `n` callbacks,
   * compared with the tables `before` it: each of the first `n` entities got
   * its records moved by one callback and kept the rest of its row, and every
   * other entity's row is untouched.
   */
  ghost predicate Wandered(before: Tables, tables: Tables, q: seq<EntityId>, n: nat, dt: real, m: Js.MathLib)
    requires n <= |q|
  {
    && (forall k :: 0 <= k < n ==> MovedOnce(before, tables, q[k], dt, m))
    && (forall x :: x !in q[..n] ==> SameRow(tables, before, x))
  }

  /**
   * `id`'s records in `tables` are one callback's move of its records in
   * `before`, and the rest of its row is as it was.
   */
  ghost predicate MovedOnce(before: Tables, tables: Tables, id: EntityId, dt: real, m: Js.MathLib) {
    && HasMover(before, id) && HasMover(tables, id) && Registered(before)
    && Moved(MoverAt(before, id), MoverAt(tables, id), SpeciesAt(before, id), HungerAt(before, id), dt, m)
    && SameRow(tables, WithMover(before, id, MoverAt(tables, id)), id)
  }

  /** One more callback, on an entity not visited before, extends the tick by one. */
  lemma WanderStep(before: Tables, t1: Tables, q: seq<EntityId>, i: nat, mv: Mover, dt: real, m: Js.MathLib)
    requires i < |q| && Distinct(q) && Registered(t1) && Wandered(before, t1, q, i, dt, m)
    requires HasMover(t1, q[i])
    requires Moved(MoverAt(t1, q[i]), mv, SpeciesAt(t1, q[i]), HungerAt(t1, q[i]), dt, m)
    ensures Wandered(before, WithMover(t1, q[i], mv), q, i + 1, dt, m)
  {
    var id := q[i];
    var t2 := WithMover(t1, id, mv);
    SameRowAfterMover(t1, id, mv);
    assert id !in q[..i];
    FirstMove(before, t1, id, mv, dt, m);
    forall k | 0 <= k < i ensures MovedOnce(before, t2, q[k], dt, m) {
      MovedOnceKept(before, t1, q[k], id, mv, dt, m);
    }
    forall x | x !in q[..i + 1]
      ensures SameRow(t2, before, x)
    {
      assert x != id && x !in q[..i];
      SameRowTrans(t2, t1, before, x);
    }
  }

  /** The callback on an entity whose row is still as it was before the tick moves it once. */
  lemma FirstMove(before: Tables, t1: Tables, id: EntityId, mv: Mover, dt: real, m: Js.MathLib)
    requires Registered(t1) && SameRow(t1, before, id) && HasMover(t1, id)
    requires Moved(MoverAt(t1, id), mv, SpeciesAt(t1, id), HungerAt(t1, id), dt, m)
    ensures MovedOnce(before, WithMover(t1, id, mv), id, dt, m)
  {
    MoverRowRebase(t1, before, id, mv);
  }

  /** A callback on `id` leaves the move an earlier callback made on `other` as it was. */
  lemma MovedOnceKept(before: Tables, t1: Tables, other: EntityId, id: EntityId, mv: Mover, dt: real, m: Js.MathLib)
    requires other != id && Registered(t1) && MovedOnce(before, t1, other, dt, m)
    ensures MovedOnce(before, WithMover(t1, id, mv), other, dt, m)
  {
    var t2 := WithMover(t1, id, mv);
    SameRowAfterMover(t1, id, mv);
    assert SameRow(t2, t1, other);
    assert MoverAt(t2, other) == MoverAt(t1, other);
    SameRowTrans(t2, t1, WithMover(before, other, MoverAt(t1, other)), other);
  }

  /** `wanderSystem`: the callback over every entity holding a position, a behaviour and energy, in entity order. */
  method Run(world: World, rng: Rng.SeededRng, m: Js.MathLib, dt: real)
    requires world.Valid() && rng.Valid() && rng.InRangeState()
    modifies world, rng
    ensures world.Valid() && rng.Valid() && rng.InRangeState()
    ensures world.entities == old(world.entities) && world.nextEntityId == old(world.nextEntityId)
    ensures dt >= 0.0 && old(world.Bounded()) ==> world.Bounded()
    ensures var q := old(world.QueryEntities(MoverTypes));
      Wandered(old(world.tables), world.tables, q, |q|, dt, m)
  {
    ghost var before := world.tables;
    ghost var bounded := dt >= 0.0 && world.Bounded();
    var q := world.QueryEntities(MoverTypes);
    QueriedMovers(before, q);
    var i := 0;
    while i < |q|
      invariant 0 <= i <= |q|
      invariant world.Valid() && rng.Valid() && rng.InRangeState()
      invariant world.entities == old(world.entities) && world.nextEntityId == old(world.nextEntityId)
      invariant bounded ==> world.Bounded()
      invariant Wandered(before, world.tables, q, i, dt, m)
    {
      var id := q[i];
      ghost var mid := world.tables;
      assert id in q && id !in q[..i];
      assert SameRow(mid, before, id);
      assert HasMover(mid, id) && MoverAt(mid, id) == MoverAt(before, id);
      var after := Visit(world, rng, m, id, dt);
      WanderStep(before, mid, q, i, after, dt, m);
      i := i + 1;
    }
  }

  /** Every entity the query returns for the three mover types holds the three records. */
  lemma QueriedMovers(tables: Tables, q: seq<EntityId>)
    requires TablesTyped(tables)
    requires forall x :: x in q ==> forall t :: t in MoverTypes ==> t in tables && x in tables[t]
    ensures forall x :: x in q ==> HasMover(tables, x)
  {
    forall x | x in q
      ensures HasMover(tables, x)
    {
      assert PositionType in MoverTypes && BehaviorType in MoverTypes && EnergyType in MoverTypes;
      assert TypeOf(tables[PositionType][x]) == PositionType;
      assert TypeOf(tables[BehaviorType][x]) == BehaviorType;
      assert TypeOf(tables[EnergyType][x]) == EnergyType;
    }
  }
}

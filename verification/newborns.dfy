/**
 * Births and deaths shared by the hunger and aging systems: a newborn of a
 * species, from the species template, at a random offset of up to `radius`
 * along each axis, and the death handler that removes an entity and sometimes
 * leaves such a newborn where it stood.
 */
module Newborns {
  import opened Wrappers
  import opened Components
  import opened Ecs
  import Rng

  /** A newborn: its id, species and position. */
  datatype Birth = Birth(id: EntityId, kind: SpeciesKind, at: Position)

  /** `p` lies within `radius` of `q` along each axis. */
  predicate Near(p: Position, q: Position, radius: real) {
    -radius <= p.x - q.x <= radius && -radius <= p.y - q.y <= radius
  }

  /** Two draws in [-radius, radius) for the offsets, then the species template at the offset position. */
  method SpawnNear(world: World, rng: Rng.SeededRng, kind: SpeciesKind, origin: Position, radius: real)
    returns (birth: Birth)
    requires world.Valid() && rng.Valid() && radius >= 0.0
    modifies world, rng
    ensures world.Valid() && rng.Valid() && rng.seed == Rng.Step(Rng.Step(old(rng.seed)))
    ensures old(rng.InRangeState()) ==> rng.InRangeState() && Near(birth.at, origin, radius)
    ensures old(world.Bounded()) ==> world.Bounded()
    ensures birth.kind == kind && birth.id == old(world.nextEntityId) < world.nextEntityId
    ensures world.entities == old(world.entities) + [birth.id]
    ensures world.tables == AddRow(old(world.tables), birth.id, TemplateFor(kind, birth.at.x, birth.at.y))
    ensures HasSystemTypes(world.tables, birth.id)
  {
    var dx := rng.NextFloat(-radius, radius);
    var dy := rng.NextFloat(-radius, radius);
    var x := origin.x + dx;
    var y := origin.y + dy;
    TemplateFacts(kind, x, y);
    var id := world.Spawn(TemplateFor(kind, x, y));
    birth := Birth(id, kind, Position(x, y));
  }

  /** `getEntityData` followed by `removeEntity`: the dead entity's last components, and the world without it. */
  method Bury(world: World, id: EntityId) returns (data: Partial)
    requires world.Valid() && world.HasEntity(id)
    modifies world
    ensures world.Valid() && world.nextEntityId == old(world.nextEntityId)
    ensures world.entities == Without(old(world.entities), id)
    ensures world.tables == RemoveRow(old(world.tables), id)
    ensures old(world.Bounded()) ==> world.Bounded()
    ensures forall t :: t in data <==> old(world.HasComponent(id, t))
    ensures forall t :: t in data ==> old(world.HasComponent(id, t)) && data[t] == old(world.tables)[t][id] && TypeOf(data[t]) == t
  {
    data := world.GetEntityData(id);
    world.RemoveEntity(id);
  }

  /**
   * The death handler shared by `handleStarvationDeath` and `handleNaturalDeath`:
   * it removes the entity and then, with probability `chance`, creates a
   * newborn of its species within `radius` of where it stood.
   */
  method HandleDeath(world: World, rng: Rng.SeededRng, id: EntityId, chance: real, radius: real) returns (birth: Option<Birth>)
    requires world.Valid() && rng.Valid() && world.HasEntity(id) && radius >= 0.0
    modifies world, rng
    ensures world.Valid() && rng.Valid()
    ensures old(rng.InRangeState()) ==> rng.InRangeState()
    ensures old(world.Bounded()) ==> world.Bounded()
    ensures birth.Some? <==>
      && Rng.Output(Rng.Step(old(rng.seed))) < chance
      && old(world.HasComponent(id, PositionType)) && old(world.HasComponent(id, SpeciesType))
    ensures birth.None? ==>
      && world.entities == Without(old(world.entities), id)
      && world.tables == RemoveRow(old(world.tables), id)
      && world.nextEntityId == old(world.nextEntityId)
      && rng.seed == Rng.Step(old(rng.seed))
    ensures birth.Some? ==>
      && birth.value.id == old(world.nextEntityId) < world.nextEntityId
      && world.entities == Without(old(world.entities), id) + [birth.value.id]
      && world.tables == AddRow(RemoveRow(old(world.tables), id), birth.value.id,
                                TemplateFor(birth.value.kind, birth.value.at.x, birth.value.at.y))
      && HasSystemTypes(world.tables, birth.value.id)
      && old(world.HasComponent(id, SpeciesType)) && old(world.HasComponent(id, PositionType))
      && old(world.tables)[SpeciesType][id] == SpeciesOf(Species(birth.value.kind))
      && old(world.tables)[PositionType][id].PositionOf?
      && (old(rng.InRangeState()) ==>
            Near(birth.value.at, old(world.tables)[PositionType][id].position, radius))
  {
    var data := Bury(world, id);
    var spawn := rng.NextBool(chance);
    if spawn && PositionType in data && SpeciesType in data {
      var b := SpawnNear(world, rng, data[SpeciesType].species.kind, data[PositionType].position, radius);
      birth := Some(b);
    } else {
      birth := None;
    }
  }

  /** `HandleDeath` seen from the other entities: their rows are untouched and any newcomer is fresh. */
  method Perish(world: World, rng: Rng.SeededRng, id: EntityId, chance: real, radius: real)
    requires world.Valid() && rng.Valid() && world.HasEntity(id) && radius >= 0.0
    modifies world, rng
    ensures world.Valid() && rng.Valid()
    ensures old(rng.InRangeState()) ==> rng.InRangeState()
    ensures old(world.Bounded()) ==> world.Bounded()
    ensures old(world.nextEntityId) <= world.nextEntityId
    ensures !world.HasEntity(id) && forall t :: t in world.tables ==> id !in world.tables[t]
    ensures forall x: EntityId :: x != id && x < old(world.nextEntityId) ==>
      SameRow(world.tables, old(world.tables), x) && (x in world.entities <==> x in old(world.entities))
    ensures forall x: EntityId :: x in world.entities && x !in old(world.entities) ==>
      old(world.nextEntityId) <= x && HasSystemTypes(world.tables, x)
  {
    ghost var before := world.tables;
    var birth := HandleDeath(world, rng, id, chance, radius);
    SameRowAfterRemove(before, id);
    if birth.Some? {
      SameRowAfterAdd(RemoveRow(before, id), birth.value.id, TemplateFor(birth.value.kind, birth.value.at.x, birth.value.at.y));
      forall x: EntityId | x != id && x < old(world.nextEntityId)
        ensures SameRow(world.tables, before, x)
      {
        SameRowTrans(world.tables, RemoveRow(before, id), before, x);
      }
    }
  }
}

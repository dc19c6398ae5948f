/**
 * The entity-component store of src/sim/ecs/world.ts (`ECSWorld`): an ordered
 * set of entity ids plus one table per component type.
 *
 * Ids are drawn from a counter (`nextEntityId`), which stands for the fresh
 * random UUIDs of the source: every id the world holds lies below the
 * counter, so each new id is distinct from all earlier ones.
 */
module Ecs {
  import opened Wrappers
  import opened Components
  import Rng

  type EntityId = nat
  type Table = map<EntityId, Component>
  type Tables = map<ComponentType, Table>

  predicate Distinct(s: seq<EntityId>) {
    forall i, j :: 0 <= i < j < |s| ==> s[i] != s[j]
  }

  /** Every component type has a table. */
  predicate Registered(tables: Tables) {
    forall t: ComponentType :: t in tables
  }

  /** Every entry sits in the table of its own type. */
  predicate TablesTyped(tables: Tables) {
    forall t, id :: t in tables && id in tables[t] ==> TypeOf(tables[t][id]) == t
  }

  /** Every id in a table is below `bound`. */
  predicate TablesBelow(tables: Tables, bound: nat) {
    forall t, id :: t in tables && id in tables[t] ==> id < bound
  }

  /** Every stored component lies within its documented range. */
  predicate TablesBounded(tables: Tables) {
    forall t, id :: t in tables && id in tables[t] ==> ComponentBounded(tables[t][id])
  }

  /** `id` holds every component the three tick systems query. */
  predicate HasSystemTypes(tables: Tables, id: EntityId) {
    && Holds(tables, PositionType, id) && Holds(tables, SpeciesType, id) && Holds(tables, BehaviorType, id)
    && Holds(tables, EnergyType, id) && Holds(tables, HungerType, id) && Holds(tables, HealthType, id)
    && Holds(tables, AgeType, id)
  }

  /** `id` has a component in the table of type `t`. */
  predicate Holds(tables: Tables, t: ComponentType, id: EntityId) {
    t in tables && id in tables[t]
  }

  /** `id`'s position lies in the world box [-500, 500]^2. */
  predicate InBox(tables: Tables, id: EntityId) {
    PositionType in tables && id in tables[PositionType] && tables[PositionType][id].PositionOf?
    && -500.0 <= tables[PositionType][id].position.x <= 500.0
    && -500.0 <= tables[PositionType][id].position.y <= 500.0
  }

  /** Every id of `ids` is at least `start` and holds the system types, and, when `boxed`, stands in the box. */
  predicate Placed(tables: Tables, ids: seq<EntityId>, start: nat, boxed: bool) {
    forall id :: id in ids ==> start <= id && HasSystemTypes(tables, id) && (boxed ==> InBox(tables, id))
  }

  /** `id` holds a component of every type in `types`. */
  predicate HoldsAll(tables: Tables, id: EntityId, types: seq<ComponentType>) {
    forall t :: t in types ==> t in tables && id in tables[t]
  }

  /** `initializeComponentStorage`: one empty table per type. */
  function EmptyTables(): (r: Tables)
    ensures Registered(r) && forall t :: t in r ==> r[t] == map[]
  {
    AllTypesRegistered();
    map t | t in AllTypes :: map[]
  }

  function Put(table: Table, id: EntityId, c: Component): Table {
    table[id := c]
  }

  /** The tables after setting the (t, id) entry to `c`. */
  function PutAt(tables: Tables, t: ComponentType, id: EntityId, c: Component): Tables
    requires t in tables
  {
    tables[t := Put(tables[t], id, c)]
  }

  /** The tables after giving `id` the components of `p`. */
  function AddRow(tables: Tables, id: EntityId, p: Partial): Tables {
    map t | t in tables :: if t in p then Put(tables[t], id, p[t]) else tables[t]
  }

  lemma AddRowFacts(tables: Tables, id: EntityId, p: Partial)
    requires Registered(tables)
    ensures Registered(AddRow(tables, id, p))
    ensures forall t, other :: other != id ==>
      (other in AddRow(tables, id, p)[t] <==> other in tables[t])
    ensures forall t, other :: other != id && other in tables[t] ==>
      AddRow(tables, id, p)[t][other] == tables[t][other]
    ensures forall t :: t in p ==> id in AddRow(tables, id, p)[t] && AddRow(tables, id, p)[t][id] == p[t]
    ensures forall t :: t !in p ==> AddRow(tables, id, p)[t] == tables[t]
  {
  }

  /** `id` has the same components, with the same values, in `a` as in `b`. */
  ghost predicate SameRow(a: Tables, b: Tables, id: EntityId) {
    forall t: ComponentType :: t in a && t in b && (id in a[t] <==> id in b[t]) && (id in a[t] ==> a[t][id] == b[t][id])
  }

  lemma SameRowAfterPut(tables: Tables, t: ComponentType, id: EntityId, c: Component)
    requires Registered(tables)
    ensures forall other :: other != id ==> SameRow(PutAt(tables, t, id, c), tables, other)
  {
  }

  /** Adding a row of bounded components keeps every table bounded. */
  lemma BoundedAfterAdd(tables: Tables, id: EntityId, p: Partial)
    requires TablesBounded(tables) && PartialBounded(p)
    ensures TablesBounded(AddRow(tables, id, p))
  {
    var r := AddRow(tables, id, p);
    forall t, other | t in r && other in r[t] ensures ComponentBounded(r[t][other]) {
      if other == id && t in p {
        assert r[t][other] == p[t];
      } else {
        assert r[t][other] == tables[t][other];
      }
    }
  }

  /** Each table of a type the row supplies gains the row's entry; the others stay as they were. */
  lemma RowAdded(tables: Tables, id: EntityId, p: Partial)
    requires Registered(tables)
    ensures forall t :: AddRow(tables, id, p)[t] == if t in p then tables[t][id := p[t]] else tables[t]
  {
  }

  /** Adding a newborn's row gives `id` every system type and keeps the tables bounded. */
  lemma NewbornRowFacts(tables: Tables, id: EntityId, p: Partial)
    requires Registered(tables) && SuppliesTemplateTypes(p) && PartialBounded(p)
    ensures HasSystemTypes(AddRow(tables, id, p), id)
    ensures TablesBounded(tables) ==> TablesBounded(AddRow(tables, id, p))
  {
    RowAdded(tables, id, p);
    if TablesBounded(tables) {
      BoundedAfterAdd(tables, id, p);
    }
  }

  /** The newborn stands where its template puts it. */
  lemma PositionAdded(tables: Tables, id: EntityId, p: Partial, x: real, y: real)
    requires Registered(tables) && PositionType in p && p[PositionType] == PositionOf(Position(x, y))
    ensures AddRow(tables, id, p)[PositionType][id] == PositionOf(Position(x, y))
    ensures -500.0 <= x <= 500.0 && -500.0 <= y <= 500.0 ==> InBox(AddRow(tables, id, p), id)
  {
    RowAdded(tables, id, p);
  }

  /** One more entity placed by the population loop keeps every earlier one placed. */
  lemma PlacedStep(before: Tables, after: Tables, ids: seq<EntityId>, id: EntityId, start: nat, boxed: bool)
    requires Placed(before, ids, start, boxed) && id !in ids && start <= id
    requires forall other :: other != id ==> SameRow(after, before, other)
    requires HasSystemTypes(after, id) && (boxed ==> InBox(after, id))
    ensures Placed(after, ids + [id], start, boxed)
  {
    forall e | e in ids + [id] ensures start <= e && HasSystemTypes(after, e) && (boxed ==> InBox(after, e)) {
      if e != id {
        assert SameRow(after, before, e);
      }
    }
  }

  lemma SameRowAfterRemove(tables: Tables, id: EntityId)
    requires Registered(tables)
    ensures forall other :: other != id ==> SameRow(RemoveRow(tables, id), tables, other)
  {
  }

  lemma SameRowAfterAdd(tables: Tables, id: EntityId, p: Partial)
    requires Registered(tables)
    ensures forall other :: other != id ==> SameRow(AddRow(tables, id, p), tables, other)
  {
  }

  lemma SameRowTrans(a: Tables, b: Tables, c: Tables, id: EntityId)
    requires SameRow(a, b, id) && SameRow(b, c, id)
    ensures SameRow(a, c, id)
  {
  }

  /** The tables after deleting `id` from each of them. */
  function RemoveRow(tables: Tables, id: EntityId): Tables {
    map t | t in tables :: tables[t] - {id}
  }

  /** `s` without `x`, in the same order (deleting from a JavaScript Set). */
  function Without(s: seq<EntityId>, x: EntityId): (r: seq<EntityId>)
    ensures forall y :: y in r <==> y in s && y != x
    ensures |r| <= |s|
    ensures x !in s ==> r == s
    decreases |s|
  {
    if s == [] then []
    else if s[0] == x then Without(s[1..], x)
    else [s[0]] + Without(s[1..], x)
  }

  /** Appending an id the list does not hold keeps the list duplicate-free. */
  lemma AppendDistinct(s: seq<EntityId>, x: EntityId)
    requires Distinct(s) && x !in s
    ensures Distinct(s + [x])
  {
    var r := s + [x];
    forall i, j | 0 <= i < j < |r| ensures r[i] != r[j] {
      assert r[i] == s[i];
    }
  }

  lemma {:induction false} WithoutDistinct(s: seq<EntityId>, x: EntityId)
    requires Distinct(s)
    ensures Distinct(Without(s, x))
    ensures x in s ==> |Without(s, x)| == |s| - 1
    decreases |s|
  {
    if s != [] {
      WithoutDistinct(s[1..], x);
      var r := Without(s[1..], x);
      if s[0] != x {
        assert s[0] !in r;
        assert Distinct([s[0]] + r);
      } else {
        assert x !in s[1..];
      }
    }
  }

  /** The ids of `ids` that hold every type in `types`, in their order. */
  function Holding(ids: seq<EntityId>, tables: Tables, types: seq<ComponentType>): (r: seq<EntityId>)
    ensures forall id :: id in r <==> id in ids && HoldsAll(tables, id, types)
    ensures |r| <= |ids|
    ensures types == [] ==> r == ids
    decreases |ids|
  {
    if ids == [] then []
    else if HoldsAll(tables, ids[0], types) then [ids[0]] + Holding(ids[1..], tables, types)
    else Holding(ids[1..], tables, types)
  }

  lemma {:induction false} HoldingDistinct(ids: seq<EntityId>, tables: Tables, types: seq<ComponentType>)
    requires Distinct(ids)
    ensures Distinct(Holding(ids, tables, types))
    decreases |ids|
  {
    if ids != [] {
      HoldingDistinct(ids[1..], tables, types);
      var r := Holding(ids[1..], tables, types);
      assert ids[0] !in r;
      if HoldsAll(tables, ids[0], types) {
        assert Distinct([ids[0]] + r);
      }
    }
  }

  /** The first occurrence of each id, in order (adding to a JavaScript Set). */
  function Dedup(s: seq<EntityId>): (r: seq<EntityId>)
    ensures forall x :: x in r <==> x in s
    ensures Distinct(r)
    decreases |s|
  {
    if s == [] then []
    else
      var d := Dedup(s[..|s| - 1]);
      var last := s[|s| - 1];
      assert forall x :: x in s <==> x in s[..|s| - 1] || x == last;
      if last in d then d
      else
        assert Distinct(d + [last]) by {
          forall i, j | 0 <= i < j < |d + [last]| ensures (d + [last])[i] != (d + [last])[j] {
            if j == |d| {
              assert (d + [last])[i] == d[i];
            } else {
              assert (d + [last])[i] == d[i] && (d + [last])[j] == d[j];
            }
          }
        }
        d + [last]
  }

  lemma {:induction false} DedupDistinct(s: seq<EntityId>)
    requires Distinct(s)
    ensures Dedup(s) == s
    decreases |s|
  {
    if s != [] {
      DedupDistinct(s[..|s| - 1]);
      assert s[|s| - 1] !in s[..|s| - 1];
      assert s[..|s| - 1] + [s[|s| - 1]] == s;
    }
  }

  /** The per-species histogram `getPopulationBySpecies` returns (all three keys, always). */
  datatype Population = Population(herbivores: nat, predators: nat, tribals: nat) {
    function Total(): nat { herbivores + predators + tribals }
  }

  /** How many of `ids` have a species component of kind `kind`. */
  function CountKind(ids: seq<EntityId>, species: Table, kind: SpeciesKind): nat
    decreases |ids|
  {
    if ids == [] then 0
    else
      var here := if ids[0] in species && species[ids[0]].SpeciesOf? && species[ids[0]].species.kind == kind then 1 else 0;
      here + CountKind(ids[1..], species, kind)
  }

  /** Each id with a species is counted under exactly one kind. */
  lemma {:induction false} CountKindsSum(ids: seq<EntityId>, species: Table)
    requires forall id :: id in ids ==> id in species && species[id].SpeciesOf?
    ensures CountKind(ids, species, Herbivore) + CountKind(ids, species, Predator)
          + CountKind(ids, species, Tribal) == |ids|
    decreases |ids|
  {
    if ids != [] {
      CountKindsSum(ids[1..], species);
    }
  }

  function Sum(xs: seq<real>): real
    decreases |xs|
  {
    if xs == [] then 0.0 else Sum(xs[..|xs| - 1]) + xs[|xs| - 1]
  }

  /** The `reduce(+) / length` average, 0 for no values. */
  function Mean(xs: seq<real>): real {
    if xs == [] then 0.0 else Sum(xs) / |xs| as real
  }

  lemma {:induction false} SumWithin(xs: seq<real>, lo: real, hi: real)
    requires forall k :: 0 <= k < |xs| ==> lo <= xs[k] <= hi
    ensures lo * |xs| as real <= Sum(xs) <= hi * |xs| as real
    decreases |xs|
  {
    if xs != [] {
      SumWithin(xs[..|xs| - 1], lo, hi);
      assert lo * |xs| as real == lo * (|xs| - 1) as real + lo;
      assert hi * |xs| as real == hi * (|xs| - 1) as real + hi;
    }
  }

  /** The average of values in [lo, hi] is in [lo, hi]. */
  lemma MeanWithin(xs: seq<real>, lo: real, hi: real)
    requires forall k :: 0 <= k < |xs| ==> lo <= xs[k] <= hi
    ensures xs != [] ==> lo <= Mean(xs) <= hi
  {
    if xs != [] {
      SumWithin(xs, lo, hi);
      var n := |xs| as real;
      assert Mean(xs) * n == Sum(xs);
    }
  }

  /** The age values of `ids`, in order. */
  function AgeValues(ids: seq<EntityId>, ages: Table): (r: seq<real>)
    requires forall id :: id in ids ==> id in ages && ages[id].AgeOf?
    ensures |r| == |ids|
  {
    seq(|ids|, k requires 0 <= k < |ids| => ages[ids[k]].age.value)
  }

  /** The hunger values of `ids`, in order. */
  function HungerValues(ids: seq<EntityId>, hungers: Table): (r: seq<real>)
    requires forall id :: id in ids ==> id in hungers && hungers[id].HungerOf?
    ensures |r| == |ids|
  {
    seq(|ids|, k requires 0 <= k < |ids| => hungers[ids[k]].hunger.value)
  }

  /** The serialized form: the entity list and one id-to-component object per type name. */
  datatype Snapshot = Snapshot(entities: seq<EntityId>, components: map<string, Table>)

  /** The entries of a snapshot table that belong in the table of type `t`. */
  function TypedPart(table: Table, t: ComponentType): (r: Table)
    ensures forall id :: id in r ==> TypeOf(r[id]) == t
  {
    map id | id in table && TypeOf(table[id]) == t :: table[id]
  }

  /** The tables `deserialize` builds from a snapshot: registered names only. */
  function RestoredTables(snap: Snapshot): (r: Tables)
    ensures Registered(r) && TablesTyped(r)
  {
    AllTypesRegistered();
    map t | t in AllTypes ::
      if TypeName(t) in snap.components then TypedPart(snap.components[TypeName(t)], t) else map[]
  }

  lemma NamesInjective()
    ensures forall t, u :: TypeName(t) == TypeName(u) ==> t == u
  {
    forall t, u | TypeName(t) == TypeName(u) ensures t == u {
      TypeNameRoundTrip(t);
      TypeNameRoundTrip(u);
    }
  }

  /** The name-keyed object holding the tables of `types`, written in that order. */
  function NamedTables(types: seq<ComponentType>, tables: Tables): map<string, Table>
    requires Registered(tables)
    decreases |types|
  {
    if types == [] then map[]
    else NamedTables(types[..|types| - 1], tables)[TypeName(types[|types| - 1]) := tables[types[|types| - 1]]]
  }

  /** The components object that `serialize` builds. */
  function SerializedTables(tables: Tables): map<string, Table>
    requires Registered(tables)
  {
    NamedTables(AllTypes, tables)
  }

  lemma {:induction false} NamedTablesFacts(types: seq<ComponentType>, tables: Tables)
    requires Registered(tables)
    ensures forall n :: n in NamedTables(types, tables) ==> TypeNamed(n).Some? && TypeNamed(n).value in types
    ensures forall t :: t in types ==> TypeName(t) in NamedTables(types, tables)
    ensures forall t :: t in types ==> NamedTables(types, tables)[TypeName(t)] == tables[t]
    decreases |types|
  {
    if types != [] {
      var init := types[..|types| - 1];
      var last := types[|types| - 1];
      NamedTablesFacts(init, tables);
      TypeNameRoundTrip(last);
      forall t | t in types ensures TypeName(t) in NamedTables(types, tables) && NamedTables(types, tables)[TypeName(t)] == tables[t] {
        if t != last {
          assert t in init;
          TypeNameRoundTrip(t);
        }
      }
    }
  }

  /** Each registered name maps to its table, and nothing else is written. */
  lemma SerializedFacts(tables: Tables)
    requires Registered(tables)
    ensures forall t: ComponentType :: TypeName(t) in SerializedTables(tables)
    ensures forall t: ComponentType :: SerializedTables(tables)[TypeName(t)] == tables[t]
    ensures forall n :: n in SerializedTables(tables) ==> TypeNamed(n).Some?
  {
    AllTypesRegistered();
    NamedTablesFacts(AllTypes, tables);
  }

  /** `deserialize(serialize())` gives back the same entities and the same value for every (type, id). */
  lemma RoundTrip(entities: seq<EntityId>, tables: Tables)
    requires Distinct(entities) && Registered(tables) && TablesTyped(tables)
    ensures Dedup(Snapshot(entities, SerializedTables(tables)).entities) == entities
    ensures RestoredTables(Snapshot(entities, SerializedTables(tables))) == tables
  {
    DedupDistinct(entities);
    TablesRoundTrip(Snapshot(entities, SerializedTables(tables)), tables);
  }

  /** Restoring the serialized tables gives back every table. */
  lemma TablesRoundTrip(snap: Snapshot, tables: Tables)
    requires Registered(tables) && TablesTyped(tables) && snap.components == SerializedTables(tables)
    ensures RestoredTables(snap) == tables
  {
    var r := RestoredTables(snap);
    SerializedFacts(tables);
    forall t ensures t in r && r[t] == tables[t] {
      assert snap.components[TypeName(t)] == tables[t];
      TypedPartOfTyped(tables[t], t);
    }
  }

  /** A table whose entries all have type `t` is its own part of type `t`. */
  lemma TypedPartOfTyped(table: Table, t: ComponentType)
    requires forall id :: id in table ==> TypeOf(table[id]) == t
    ensures TypedPart(table, t) == table
  {
  }

  class World {
    var entities: seq<EntityId>
    var tables: Tables
    var nextEntityId: nat

    ghost predicate Valid()
      reads this
    {
      && Registered(tables)
      && TablesTyped(tables)
      && TablesBelow(tables, nextEntityId)
      && Distinct(entities)
      && (forall id :: id in entities ==> id < nextEntityId)
    }

    /** The value ranges of hunger, health, energy and age hold for every stored component. */
    ghost predicate Bounded()
      reads this
    {
      TablesBounded(tables)
    }

    /** `new ECSWorld()`: empty tables, then 500 initial entities. */
    constructor(rng: Rng.SeededRng)
      requires rng.Valid()
      modifies rng
      ensures Valid() && Bounded() && rng.Valid()
      ensures |entities| == 500
      ensures old(rng.InRangeState()) ==> rng.InRangeState() && forall id :: id in entities ==> InBox(tables, id)
      ensures forall id :: id in entities ==> HasSystemTypes(tables, id)
    {
      entities := [];
      tables := EmptyTables();
      nextEntityId := 0;
      new;
      PopulateInitialEntities(rng);
    }

    predicate HasEntity(id: EntityId)
      reads this
    {
      id in entities
    }

    function EntityCount(): (n: nat)
      reads this
      ensures n == |QueryEntities([])|
    {
      |entities|
    }

    /** `getAllEntities()`: the live entities, each once when the world is valid. */
    function AllEntities(): (r: seq<EntityId>)
      reads this
      ensures |r| == EntityCount()
      ensures forall id :: id in r <==> HasEntity(id)
      ensures Valid() ==> Distinct(r)
    {
      entities
    }

    predicate HasComponent(id: EntityId, t: ComponentType)
      reads this
    {
      t in tables && id in tables[t]
    }

    /** The stored component, typed by its table. */
    function GetComponent(id: EntityId, t: ComponentType): (r: Option<Component>)
      requires Valid()
      reads this
      ensures r.Some? <==> HasComponent(id, t)
      ensures r.Some? ==> TypeOf(r.value) == t && r.value == tables[t][id]
    {
      if t in tables && id in tables[t] then Some(tables[t][id]) else None
    }

    /** `queryEntities`: the entities holding every requested type, in entity order. */
    function QueryEntities(types: seq<ComponentType>): (r: seq<EntityId>)
      reads this
      ensures forall id :: id in r <==> HasEntity(id) && forall t :: t in types ==> HasComponent(id, t)
      ensures types == [] ==> r == entities
      ensures Distinct(entities) ==> Distinct(r)
    {
      if Distinct(entities) then
        HoldingDistinct(entities, tables, types);
        Holding(entities, tables, types)
      else
        Holding(entities, tables, types)
    }

    /** The record `forEachEntityWith` hands its callback: only the requested types still present. */
    function Materialize(id: EntityId, types: seq<ComponentType>): (r: Partial)
      requires Valid()
      reads this
      ensures forall t :: t in r <==> t in types && HasComponent(id, t)
      ensures forall t :: t in r ==> t in tables && id in tables[t] && r[t] == tables[t][id] && TypeOf(r[t]) == t
    {
      map t | t in types && t in tables && id in tables[t] :: tables[t][id]
    }

    /** `getEntityData`: every component of a live entity, nothing for an unknown id. */
    function GetEntityData(id: EntityId): (r: Partial)
      requires Valid()
      reads this
      ensures !HasEntity(id) ==> r == map[]
      ensures HasEntity(id) ==> forall t :: (t in r <==> HasComponent(id, t))
      ensures forall t :: t in r ==> t in tables && id in tables[t] && r[t] == tables[t][id] && TypeOf(r[t]) == t
    {
      if id !in entities then map[] else map t | t in tables && id in tables[t] :: tables[t][id]
    }

    /** `addComponent`: overwrites the (id, type) entry of a live entity, else does nothing. */
    method AddComponent(id: EntityId, t: ComponentType, c: Component)
      requires Valid() && TypeOf(c) == t
      modifies this
      ensures Valid() && entities == old(entities) && nextEntityId == old(nextEntityId)
      ensures id in old(entities) ==> tables == PutAt(old(tables), t, id, c)
      ensures id !in old(entities) ==> tables == old(tables)
    {
      if t in tables && id in entities {
        tables := tables[t := Put(tables[t], id, c)];
      }
    }

    /** The in-place update of a component record that a system reached through its callback. */
    method Overwrite(id: EntityId, c: Component)
      requires Valid() && HasComponent(id, TypeOf(c))
      modifies this
      ensures Valid() && entities == old(entities) && nextEntityId == old(nextEntityId)
      ensures tables == PutAt(old(tables), TypeOf(c), id, c)
      ensures old(Bounded()) && ComponentBounded(c) ==> Bounded()
    {
      tables := tables[TypeOf(c) := Put(tables[TypeOf(c)], id, c)];
    }

    /** `removeComponent`: deletes the (id, type) entry, whether or not the entity is live. */
    method RemoveComponent(id: EntityId, t: ComponentType)
      requires Valid()
      modifies this
      ensures Valid() && entities == old(entities) && nextEntityId == old(nextEntityId)
      ensures tables == old(tables)[t := old(tables)[t] - {id}]
    {
      tables := tables[t := tables[t] - {id}];
    }

    /** `createEntity`: a fresh id holding exactly the supplied components. */
    method CreateEntity(p: Partial) returns (id: EntityId)
      requires Valid() && WellTyped(p)
      modifies this
      ensures Valid()
      ensures id == old(nextEntityId) && nextEntityId == id + 1
      ensures id !in old(entities) && forall t :: t in old(tables) ==> id !in old(tables)[t]
      ensures entities == old(entities) + [id]
      ensures tables == AddRow(old(tables), id, p)
    {
      id := nextEntityId;
      assert id !in entities;
      AppendDistinct(entities, id);
      nextEntityId := nextEntityId + 1;
      entities := entities + [id];
      AddEntries(id, p);
    }

    /** The loop of `createEntity` that adds each component of `p` to its table, in registration order. */
    method AddEntries(id: EntityId, p: Partial)
      requires Valid() && WellTyped(p) && id in entities
      modifies this
      ensures Valid() && entities == old(entities) && nextEntityId == old(nextEntityId)
      ensures tables == AddRow(old(tables), id, p)
    {
      ghost var want := AddRow(tables, id, p);
      RowAdded(tables, id, p);
      var i := 0;
      while i < |AllTypes|
        invariant 0 <= i <= |AllTypes|
        invariant Valid() && entities == old(entities) && nextEntityId == old(nextEntityId)
        invariant forall t :: tables[t] == if t in AllTypes[..i] then want[t] else old(tables)[t]
      {
        var t := AllTypes[i];
        TypesPrefixStep(i);
        if t in p {
          AddComponent(id, t, p[t]);
        }
        i := i + 1;
      }
      AllTypesRegistered();
      assert AllTypes[..i] == AllTypes;
      assert tables.Keys == want.Keys;
    }

    /** `removeEntity`: drops a live id from the entity set and every table; ignores unknown ids. */
    method RemoveEntity(id: EntityId)
      requires Valid()
      modifies this
      ensures Valid() && nextEntityId == old(nextEntityId)
      ensures id in old(entities) ==> entities == Without(old(entities), id) && tables == RemoveRow(old(tables), id)
      ensures id !in old(entities) ==> entities == old(entities) && tables == old(tables)
      ensures old(Bounded()) ==> Bounded()
    {
      if id !in entities {
        return;
      }
      ghost var before := tables;
      AllTypesRegistered();
      var i := 0;
      while i < |AllTypes|
        invariant 0 <= i <= |AllTypes|
        invariant Valid() && entities == old(entities) && nextEntityId == old(nextEntityId)
        invariant tables.Keys == before.Keys
        invariant forall t :: t in tables ==>
          tables[t] == if t in AllTypes[..i] then before[t] - {id} else before[t]
      {
        var t := AllTypes[i];
        tables := tables[t := tables[t] - {id}];
        i := i + 1;
      }
      assert AllTypes[..i] == AllTypes;
      WithoutDistinct(entities, id);
      entities := Without(entities, id);
    }

    /** `getPopulationBySpecies`: a count per species over the entities holding a species. */
    method PopulationBySpecies() returns (pop: Population)
      requires Valid()
      ensures var q := QueryEntities([SpeciesType]);
        && pop.herbivores == CountKind(q, tables[SpeciesType], Herbivore)
        && pop.predators == CountKind(q, tables[SpeciesType], Predator)
        && pop.tribals == CountKind(q, tables[SpeciesType], Tribal)
      ensures pop.Total() == |QueryEntities([SpeciesType])|
    {
      var q := QueryEntities([SpeciesType]);
      var species := tables[SpeciesType];
      pop := Population(0, 0, 0);
      var i := |q|;
      while i > 0
        invariant 0 <= i <= |q|
        invariant pop.herbivores == CountKind(q[i..], species, Herbivore)
        invariant pop.predators == CountKind(q[i..], species, Predator)
        invariant pop.tribals == CountKind(q[i..], species, Tribal)
      {
        i := i - 1;
        assert q[i..][1..] == q[i + 1..];
        assert q[i] in q;
        match species[q[i]].species.kind
        case Herbivore => pop := pop.(herbivores := pop.herbivores + 1);
        case Predator => pop := pop.(predators := pop.predators + 1);
        case Tribal => pop := pop.(tribals := pop.tribals + 1);
      }
      assert q[0..] == q;
      CountKindsSum(q, species);
    }

    /** `getAverageAge`: the mean age over the entities holding an age, 0 when there are none. */
    method AverageAge() returns (avg: real)
      requires Valid()
      ensures var q := QueryEntities([AgeType]); avg == Mean(AgeValues(q, tables[AgeType]))
      ensures Bounded() ==> 0.0 <= avg
    {
      var q := QueryEntities([AgeType]);
      var ages: seq<real> := [];
      forall id | id in q ensures id in tables[AgeType] && tables[AgeType][id].AgeOf? {
        assert TypeOf(tables[AgeType][id]) == AgeType;
      }
      var i := 0;
      while i < |q|
        invariant 0 <= i <= |q|
        invariant ages == AgeValues(q[..i], tables[AgeType])
      {
        assert q[i] in q;
        ages := ages + [tables[AgeType][q[i]].age.value];
        i := i + 1;
      }
      assert q[..i] == q;
      if |ages| == 0 {
        avg := 0.0;
      } else {
        avg := Sum(ages) / |ages| as real;
      }
      if Bounded() {
        forall k | 0 <= k < |ages| ensures 0.0 <= ages[k] {
          assert q[k] in q;
          assert ComponentBounded(tables[AgeType][q[k]]);
        }
        AverageNonNegative(ages);
      }
    }

    /** `getAverageHunger`: the mean hunger over the entities holding a hunger, 0 when there are none. */
    method AverageHunger() returns (avg: real)
      requires Valid()
      ensures var q := QueryEntities([HungerType]); avg == Mean(HungerValues(q, tables[HungerType]))
      ensures Bounded() ==> 0.0 <= avg <= 1.0
    {
      var q := QueryEntities([HungerType]);
      var values: seq<real> := [];
      forall id | id in q ensures id in tables[HungerType] && tables[HungerType][id].HungerOf? {
        assert TypeOf(tables[HungerType][id]) == HungerType;
      }
      var i := 0;
      while i < |q|
        invariant 0 <= i <= |q|
        invariant values == HungerValues(q[..i], tables[HungerType])
      {
        assert q[i] in q;
        values := values + [tables[HungerType][q[i]].hunger.value];
        i := i + 1;
      }
      assert q[..i] == q;
      if |values| == 0 {
        avg := 0.0;
      } else {
        avg := Sum(values) / |values| as real;
      }
      if Bounded() {
        forall k | 0 <= k < |values| ensures 0.0 <= values[k] <= 1.0 {
          assert q[k] in q;
          assert ComponentBounded(tables[HungerType][q[k]]);
        }
        MeanWithin(values, 0.0, 1.0);
      }
    }

    /** `serialize`: the entity list and one object per registered type name. */
    method Serialize() returns (snap: Snapshot)
      requires Valid()
      ensures snap.entities == entities
      ensures snap.components == SerializedTables(tables)
      ensures forall t: ComponentType :: TypeName(t) in snap.components && snap.components[TypeName(t)] == tables[t]
    {
      var components: map<string, Table> := map[];
      var i := 0;
      while i < |AllTypes|
        invariant 0 <= i <= |AllTypes|
        invariant components == NamedTables(AllTypes[..i], tables)
      {
        var t := AllTypes[i];
        assert AllTypes[..i + 1] == AllTypes[..i] + [t];
        components := components[TypeName(t) := tables[t]];
        i := i + 1;
      }
      assert AllTypes[..i] == AllTypes;
      snap := Snapshot(entities, components);
      SerializedFacts(tables);
      AllTypesRegistered();
    }

    /** `deserialize`: clears the world and rebuilds it from a snapshot. */
    method Deserialize(snap: Snapshot)
      modifies this
      ensures Valid()
      ensures entities == Dedup(snap.entities)
      ensures tables == RestoredTables(snap)
    {
      entities := AddAll(snap.entities);
      tables := RestoreTables(snap);
      nextEntityId := FreshBound(entities, tables);
    }

    /** `populateInitialEntities` (called on freshly initialised storage): 500 entities of mixed
        species, placed uniformly in the world box. */
    method PopulateInitialEntities(rng: Rng.SeededRng)
      requires Valid() && rng.Valid() && entities == [] && tables == EmptyTables()
      modifies this, rng
      ensures Valid() && Bounded() && rng.Valid()
      ensures |entities| == 500
      ensures forall id :: id in entities ==> old(nextEntityId) <= id && HasSystemTypes(tables, id)
      ensures old(rng.InRangeState()) ==> rng.InRangeState() && forall id :: id in entities ==> InBox(tables, id)
    {
      ghost var inRange := rng.InRangeState();
      ghost var start := nextEntityId;
      var k := 0;
      while k < 500
        invariant 0 <= k <= 500 && |entities| == k && start <= nextEntityId
        invariant Valid() && Bounded() && rng.Valid() && (inRange ==> rng.InRangeState())
        invariant Placed(tables, entities, start, inRange)
      {
        ghost var before := tables;
        ghost var ids := entities;
        var id := PlaceOne(rng);
        PlacedStep(before, tables, ids, id, start, inRange);
        k := k + 1;
      }
    }

    /** One iteration of the population loop: a position, a species roll, an entity. */
    method PlaceOne(rng: Rng.SeededRng) returns (id: EntityId)
      requires Valid() && rng.Valid()
      modifies this, rng
      ensures Valid() && rng.Valid()
      ensures id == old(nextEntityId) && nextEntityId == id + 1
      ensures id !in old(entities) && entities == old(entities) + [id]
      ensures HasSystemTypes(tables, id)
      ensures forall other :: other != id ==> SameRow(tables, old(tables), other)
      ensures old(rng.InRangeState()) ==> rng.InRangeState() && InBox(tables, id)
      ensures old(Bounded()) ==> Bounded()
    {
      var x := rng.NextFloat(-500.0, 500.0);
      var y := rng.NextFloat(-500.0, 500.0);
      var roll := rng.Next();
      var kind := if roll < 0.6 then Herbivore else if roll < 0.85 then Predator else Tribal;
      TemplateFacts(kind, x, y);
      id := Spawn(TemplateFor(kind, x, y));
      SameRowAfterAdd(old(tables), id, TemplateFor(kind, x, y));
      PositionAdded(old(tables), id, TemplateFor(kind, x, y), x, y);
    }

    /** Creates an entity from `p`, a species template. */
    method Spawn(p: Partial) returns (id: EntityId)
      requires Valid() && WellTyped(p) && SuppliesTemplateTypes(p) && PartialBounded(p)
      modifies this
      ensures Valid()
      ensures id == old(nextEntityId) && nextEntityId == id + 1
      ensures id !in old(entities) && entities == old(entities) + [id]
      ensures tables == AddRow(old(tables), id, p)
      ensures HasSystemTypes(tables, id)
      ensures old(Bounded()) ==> Bounded()
    {
      id := CreateEntity(p);
      NewbornRowFacts(old(tables), id, p);
    }

    /** `reset`: clears the world and populates it afresh from the generator. */
    method Reset(rng: Rng.SeededRng)
      requires Valid() && rng.Valid()
      modifies this, rng
      ensures Valid() && Bounded() && rng.Valid()
      ensures |entities| == 500 && forall id :: id in entities ==> id >= old(nextEntityId)
      ensures forall id :: id in entities ==> HasSystemTypes(tables, id)
      ensures old(rng.InRangeState()) ==> rng.InRangeState() && forall id :: id in entities ==> InBox(tables, id)
    {
      entities := [];
      tables := EmptyTables();
      PopulateInitialEntities(rng);
    }
  }

  /** `record` holds `id`'s current components, as the world stores them. */
  predicate RecordOf(world: World, id: EntityId, record: Partial)
    reads world
  {
    WellTyped(record) && forall t :: t in record ==> world.HasComponent(id, t) && world.tables[t][id] == record[t]
  }

  lemma {:induction false} SumNonNegative(xs: seq<real>)
    requires forall k :: 0 <= k < |xs| ==> 0.0 <= xs[k]
    ensures 0.0 <= Sum(xs)
    decreases |xs|
  {
    if xs != [] {
      SumNonNegative(xs[..|xs| - 1]);
    }
  }

  /** The average of non-negative values is non-negative. */
  lemma AverageNonNegative(xs: seq<real>)
    requires forall k :: 0 <= k < |xs| ==> 0.0 <= xs[k]
    ensures 0.0 <= Mean(xs)
  {
    if xs != [] {
      SumNonNegative(xs);
      assert Mean(xs) * |xs| as real == Sum(xs);
    }
  }

  /** `hasEntity`: an entity is live exactly when `getAllEntities` and the unfiltered query list it. */
  lemma LiveEntity(w: World, id: EntityId)
    ensures w.HasEntity(id) <==> id in w.AllEntities()
    ensures w.HasEntity(id) <==> id in w.QueryEntities([])
  {
  }

  /**
   * `hasComponent`: an entity holds a type exactly when `getComponent`
   * finds a record of it, and a live holder is what a query for that one
   * type returns.
   */
  lemma HeldComponent(w: World, id: EntityId, t: ComponentType)
    requires w.Valid()
    ensures w.HasComponent(id, t) <==> w.GetComponent(id, t).Some?
    ensures w.HasEntity(id) ==> (w.HasComponent(id, t) <==> id in w.QueryEntities([t]))
  {
  }

  /** Adds the ids of `s` one by one to an empty JavaScript Set. */
  method AddAll(s: seq<EntityId>) returns (r: seq<EntityId>)
    ensures r == Dedup(s)
    ensures Distinct(r) && forall x :: x in r <==> x in s
  {
    r := [];
    var i := 0;
    while i < |s|
      invariant 0 <= i <= |s|
      invariant r == Dedup(s[..i])
    {
      assert s[..i + 1][..i] == s[..i];
      if s[i] !in r {
        r := r + [s[i]];
      }
      i := i + 1;
    }
    assert s[..i] == s;
  }

  /** Fills fresh tables from the registered names of a snapshot, one type at a time. */
  method RestoreTables(snap: Snapshot) returns (tables: Tables)
    ensures tables == RestoredTables(snap)
    ensures Registered(tables) && TablesTyped(tables)
  {
    tables := EmptyTables();
    AllTypesRegistered();
    ghost var want := RestoredTables(snap);
    var j := 0;
    while j < |AllTypes|
      invariant 0 <= j <= |AllTypes| && Registered(tables)
      invariant forall t :: tables[t] == if t in AllTypes[..j] then want[t] else map[]
    {
      var t := AllTypes[j];
      var name := TypeName(t);
      TypesPrefixStep(j);
      if name in snap.components {
        tables := tables[t := TypedPart(snap.components[name], t)];
      }
      j := j + 1;
    }
    assert AllTypes[..j] == AllTypes;
    assert tables.Keys == want.Keys;
  }

  /** The first `j + 1` component types are the first `j` and a new one. */
  lemma TypesPrefixStep(j: nat)
    requires j < |AllTypes|
    ensures AllTypes[j] !in AllTypes[..j]
    ensures forall u :: u in AllTypes[..j + 1] <==> u in AllTypes[..j] || u == AllTypes[j]
  {
    AllTypesRegistered();
    assert AllTypes[..j + 1] == AllTypes[..j] + [AllTypes[j]];
  }

  /** A bound above every id of the entity list and every table (the counter after `deserialize`). */
  method FreshBound(entities: seq<EntityId>, tables: Tables) returns (b: nat)
    ensures forall id :: id in entities ==> id < b
    ensures TablesBelow(tables, b)
  {
    b := 0;
    var i := 0;
    while i < |entities|
      invariant 0 <= i <= |entities|
      invariant forall k :: 0 <= k < i ==> entities[k] < b
    {
      if entities[i] >= b {
        b := entities[i] + 1;
      }
      i := i + 1;
    }
    var ids: set<EntityId> := {};
    var types := tables.Keys;
    ghost var seen: set<ComponentType> := {};
    while types != {}
      invariant types + seen == tables.Keys && types !! seen
      invariant forall t, id :: t in seen && id in tables[t] ==> id in ids
      decreases types
    {
      var t :| t in types;
      ids := ids + tables[t].Keys;
      types := types - {t};
      seen := seen + {t};
    }
    assert seen == tables.Keys;
    while ids != {}
      invariant forall k :: 0 <= k < |entities| ==> entities[k] < b
      invariant forall t, id :: t in tables && id in tables[t] ==> id in ids || id < b
      decreases ids
    {
      var id :| id in ids;
      if id >= b {
        b := id + 1;
      }
      ids := ids - {id};
    }
    forall t, id | t in tables && id in tables[t] ensures id < b {
      assert id !in ids;
    }
  }
}

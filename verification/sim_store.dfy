/**
 * The simulation store of `src/state/useSimStore.ts`: one object whose
 * actions replace some of its fields, the bounded log of recent events
 * (newest first), the entity map keyed by id, and the selectors over them.
 * `Date.now()` is a parameter of `UpdateMetrics`.
 */
module SimStore {
  import opened Wrappers
  import opened ApiTypes
  import Js

  /** The log keeps the 100 newest events. */
  const MaxRecentEvents: nat := 100

  const DefaultWorldId: string := "default-world"

  /** The filter value that selects every event. */
  const AllEvents: string := "All"

  // ------------------------------------------------------------ entities

  /**
   * The map the `forEach` of `updateEntities` builds: every id in the list
   * is a key, and an id's value comes from its last occurrence.
   */
  function KeyedById(entities: seq<EntityDetail>): (m: map<string, EntityDetail>)
    ensures forall id :: id in m <==> exists k :: 0 <= k < |entities| && entities[k].id == id
    ensures forall id :: id in m ==> m[id].id == id && m[id] in entities
    decreases |entities|
  {
    if entities == [] then map[]
    else
      var last := entities[|entities| - 1];
      var m := KeyedById(entities[..|entities| - 1])[last.id := last];
      assert forall id :: id in m ==> m[id] in entities by {
        forall id | id in m ensures m[id] in entities {
          if id != last.id {
            var e := KeyedById(entities[..|entities| - 1])[id];
            assert e in entities[..|entities| - 1];
          }
        }
      }
      m
  }

  /** An entity that no later entity shares its id with is the one stored under that id. */
  lemma {:induction false} KeyedByIdLastWins(entities: seq<EntityDetail>, k: nat)
    requires k < |entities|
    requires forall j :: k < j < |entities| ==> entities[j].id != entities[k].id
    ensures KeyedById(entities)[entities[k].id] == entities[k]
    decreases |entities|
  {
    if k < |entities| - 1 {
      var init := entities[..|entities| - 1];
      assert init[k] == entities[k];
      KeyedByIdLastWins(init, k);
    }
  }

  /** With distinct ids, nothing is lost: the map has one key per entity. */
  lemma {:induction false} KeyedByIdDistinct(entities: seq<EntityDetail>)
    requires forall i, j :: 0 <= i < j < |entities| ==> entities[i].id != entities[j].id
    ensures |KeyedById(entities)| == |entities|
    ensures forall k :: 0 <= k < |entities| ==> KeyedById(entities)[entities[k].id] == entities[k]
    decreases |entities|
  {
    if entities != [] {
      var init := entities[..|entities| - 1];
      KeyedByIdDistinct(init);
      var last := entities[|entities| - 1];
      assert last.id !in KeyedById(init);
      forall k | 0 <= k < |entities| ensures KeyedById(entities)[entities[k].id] == entities[k] {
        KeyedByIdLastWins(entities, k);
      }
    }
  }

  // -------------------------------------------------------------- events

  /**
   * `[...batch, ...events].slice(0, 100)`: the batch in its own order ahead
   * of the older events, cut to the 100 newest.
   */
  function Prepended(batch: seq<Event>, events: seq<Event>): (r: seq<Event>)
    ensures |r| == Js.MinInt(|batch| + |events|, MaxRecentEvents)
    ensures forall i :: 0 <= i < |r| ==> r[i] == (batch + events)[i]
  {
    Js.Slice(batch + events, 0, MaxRecentEvents)
  }

  /**
   * `addEvent`: the new event comes first, the log never exceeds 100, and
   * the oldest event is the one dropped when the log was full.
   */
  lemma AddEventNewestFirst(e: Event, events: seq<Event>)
    requires |events| <= MaxRecentEvents
    ensures Prepended([e], events)[0] == e
    ensures |Prepended([e], events)| <= MaxRecentEvents
    ensures |events| < MaxRecentEvents ==> Prepended([e], events) == [e] + events
    ensures |events| == MaxRecentEvents ==> Prepended([e], events) == [e] + events[..MaxRecentEvents - 1]
  {
    var r := Prepended([e], events);
    if |events| == MaxRecentEvents {
      assert forall i :: 1 <= i < |r| ==> r[i] == events[i - 1];
    }
  }

  /**
   * `addEvents`: the batch is kept in its given order ahead of the older
   * events; a batch of 100 or more leaves only its own first 100 events.
   */
  lemma AddEventsKeepsBatchOrder(batch: seq<Event>, events: seq<Event>)
    ensures |batch| <= MaxRecentEvents ==> Prepended(batch, events)[..|batch|] == batch
    ensures |batch| <= MaxRecentEvents ==>
      Prepended(batch, events)[|batch|..] == events[..Js.MinInt(|events|, MaxRecentEvents - |batch|)]
    ensures |batch| >= MaxRecentEvents ==> Prepended(batch, events) == batch[..MaxRecentEvents]
  {
    var r := Prepended(batch, events);
    if |batch| <= MaxRecentEvents {
      assert forall i :: 0 <= i < |batch| ==> r[i] == batch[i];
      assert forall i :: |batch| <= i < |r| ==> r[i] == events[i - |batch|];
    }
  }

  /** Adding events one at a time, oldest first, is adding them as a reversed batch. */
  lemma AddEventTwice(a: Event, b: Event, events: seq<Event>)
    ensures Prepended([b], Prepended([a], events)) == Prepended([b, a], events)
  {
    var inner := Prepended([a], events);
    var r1 := Prepended([b], inner);
    var r2 := Prepended([b, a], events);
    assert |r1| == |r2|;
    forall i | 0 <= i < |r1| ensures r1[i] == r2[i] {
      if i >= 1 {
        assert r1[i] == inner[i - 1];
      }
    }
  }

  /** `event.kind.toLowerCase() === filter.toLowerCase()`. */
  predicate KindMatches(e: Event, filter: string) {
    Js.ToLower(KindName(e.kind)) == Js.ToLower(filter)
  }

  /** `useFilteredEvents`: every event for 'All', else those whose kind matches. */
  function FilteredEvents(events: seq<Event>, filter: string): (r: seq<Event>)
    ensures filter == AllEvents ==> r == events
    ensures filter != AllEvents ==> forall e :: e in r <==> e in events && KindMatches(e, filter)
  {
    if filter == AllEvents then events
    else Filter(events, e => KindMatches(e, filter))
  }

  /** The filter keeps the log's order: it commutes with concatenation. */
  lemma FilteredEventsKeepOrder(a: seq<Event>, b: seq<Event>, filter: string)
    ensures FilteredEvents(a + b, filter) == FilteredEvents(a, filter) + FilteredEvents(b, filter)
  {
    if filter != AllEvents {
      FilterAppend(a, b, e => KindMatches(e, filter));
    }
  }

  /** Lower-casing tells the five kind names apart. */
  lemma LowerKindNamesDistinct(k: EventKind, l: EventKind)
    ensures Js.ToLower(KindName(k)) == Js.ToLower(KindName(l)) ==> k == l
  {
    if Js.ToLower(KindName(k)) == Js.ToLower(KindName(l)) {
      assert Js.LowerChar(KindName(k)[0]) == Js.LowerChar(KindName(l)[0]);
      assert Js.LowerChar(KindName(k)[1]) == Js.LowerChar(KindName(l)[1]);
    }
  }

  /**
   * Any spelling of a kind name, in any letter case, selects exactly the
   * events of that kind, in their order in the log.
   */
  lemma FilterByKind(events: seq<Event>, filter: string, k: EventKind)
    requires filter != AllEvents && Js.ToLower(filter) == Js.ToLower(KindName(k))
    ensures forall e :: e in FilteredEvents(events, filter) <==> e in events && e.kind == k
  {
    forall e | e in events ensures KindMatches(e, filter) <==> e.kind == k {
      LowerKindNamesDistinct(e.kind, k);
    }
  }

  /** A filter that names no kind, such as 'all' in lower case, selects nothing. */
  lemma {:induction false} FilterByUnknownKind(events: seq<Event>, filter: string)
    requires filter != AllEvents
    requires forall k: EventKind :: Js.ToLower(filter) != Js.ToLower(KindName(k))
    ensures FilteredEvents(events, filter) == []
    decreases |events|
  {
    if events != [] {
      FilterByUnknownKind(events[1..], filter);
      assert !KindMatches(events[0], filter);
    }
  }

  // --------------------------------------------------------------- store

  /** `SimulationState`: the fields of the store. */
  datatype SimState = SimState(
    worldId: string,
    currentTick: int,
    dayCount: int,
    population: int,
    entities: map<string, EntityDetail>,
    selectedEntity: Option<EntityDetail>,
    recentEvents: seq<Event>,
    eventFilter: string,
    metrics: Option<WorldMetrics>,
    lastMetricsUpdate: int,
    fps: real,
    renderTime: real,
    isLoading: bool,
    error: Option<string>)
  {
    /** The one invariant every action keeps: the log holds at most 100 events. */
    predicate Valid() {
      |recentEvents| <= MaxRecentEvents
    }
  }

  /** `initialState`. */
  const InitialState: SimState :=
    SimState(DefaultWorldId, 0, 0, 0, map[], None, [], AllEvents, None, 0, 0.0, 0.0, false, None)

  /**
   * The store: one state record, which every action replaces by a copy with
   * the fields it sets changed (`set` merging a partial state), as the
   * `ensures` of each action spell out.
   */
  class Store {
    var state: SimState

    predicate Valid()
      reads this
    {
      state.Valid()
    }

    constructor ()
      ensures Valid() && state == InitialState
    {
      state := InitialState;
    }

    method SetWorldId(id: string)
      requires Valid()
      modifies this
      ensures Valid() && state == old(state).(worldId := id)
    {
      state := state.(worldId := id);
    }

    /** `incrementTick`: the tick advances by exactly one and nothing else changes. */
    method IncrementTick()
      requires Valid()
      modifies this
      ensures Valid() && state == old(state).(currentTick := old(state.currentTick) + 1)
    {
      state := state.(currentTick := state.currentTick + 1);
    }

    method SetDayCount(count: int)
      requires Valid()
      modifies this
      ensures Valid() && state == old(state).(dayCount := count)
    {
      state := state.(dayCount := count);
    }

    method SetPopulation(n: int)
      requires Valid()
      modifies this
      ensures Valid() && state == old(state).(population := n)
    {
      state := state.(population := n);
    }

    /**
     * `updateEntities`: the map is rebuilt from the list, a later duplicate
     * id winning, and the population is the list's length, duplicates
     * included.
     */
    method UpdateEntities(list: seq<EntityDetail>)
      requires Valid()
      modifies this
      ensures Valid() && state == old(state).(entities := KeyedById(list), population := |list|)
    {
      var entityMap: map<string, EntityDetail> := map[];
      var i := 0;
      while i < |list|
        invariant i <= |list|
        invariant entityMap == KeyedById(list[..i])
      {
        assert list[..i + 1][..i] == list[..i];
        entityMap := entityMap[list[i].id := list[i]];
        i := i + 1;
      }
      assert list[..i] == list;
      state := state.(entities := entityMap, population := |list|);
    }

    /** `useEntityInView`: the stored entity with that id, if any. */
    function EntityInView(id: string): (r: Option<EntityDetail>)
      reads this
      ensures r.Some? <==> id in state.entities
      ensures r.Some? ==> r.value == state.entities[id]
    {
      if id in state.entities then Some(state.entities[id]) else None
    }

    /** `selectEntity`: the stored entity for that id, or null when there is none. */
    method SelectEntity(id: string)
      requires Valid()
      modifies this
      ensures Valid() && state == old(state).(selectedEntity := old(EntityInView(id)))
    {
      state := state.(selectedEntity := if id in state.entities then Some(state.entities[id]) else None);
    }

    method ClearSelection()
      requires Valid()
      modifies this
      ensures Valid() && state == old(state).(selectedEntity := None)
    {
      state := state.(selectedEntity := None);
    }

    method UpdateSelectedEntity(entity: EntityDetail)
      requires Valid()
      modifies this
      ensures Valid() && state == old(state).(selectedEntity := Some(entity))
    {
      state := state.(selectedEntity := Some(entity));
    }

    /** `addEvent`: the event goes first; see `AddEventNewestFirst`. */
    method AddEvent(event: Event)
      requires Valid()
      modifies this
      ensures Valid() && state == old(state).(recentEvents := Prepended([event], old(state.recentEvents)))
    {
      state := state.(recentEvents := Js.Slice([event] + state.recentEvents, 0, MaxRecentEvents));
    }

    /** `addEvents`: the batch goes first; see `AddEventsKeepsBatchOrder`. */
    method AddEvents(batch: seq<Event>)
      requires Valid()
      modifies this
      ensures Valid() && state == old(state).(recentEvents := Prepended(batch, old(state.recentEvents)))
    {
      state := state.(recentEvents := Js.Slice(batch + state.recentEvents, 0, MaxRecentEvents));
    }

    method SetEventFilter(filter: string)
      requires Valid()
      modifies this
      ensures Valid() && state == old(state).(eventFilter := filter)
    {
      state := state.(eventFilter := filter);
    }

    method ClearEvents()
      requires Valid()
      modifies this
      ensures Valid() && state == old(state).(recentEvents := [])
    {
      state := state.(recentEvents := []);
    }

    /** The events `useFilteredEvents` shows for the current filter. */
    function Filtered(): (r: seq<Event>)
      reads this
      ensures |r| <= |state.recentEvents|
      ensures forall e :: e in r ==> e in state.recentEvents
      ensures r == FilteredEvents(state.recentEvents, state.eventFilter)
      ensures state.eventFilter == AllEvents ==> r == state.recentEvents
      ensures state.eventFilter != AllEvents ==>
        forall e :: e in r <==> e in state.recentEvents && KindMatches(e, state.eventFilter)
    {
      FilteredEvents(state.recentEvents, state.eventFilter)
    }

    /**
     * `updateMetrics`: the metrics are stored with the time of the update,
     * and the population becomes the metrics' total.
     */
    method UpdateMetrics(m: WorldMetrics, now: int)
      requires Valid()
      modifies this
      ensures Valid() && state == old(state).(metrics := Some(m), lastMetricsUpdate := now, population := m.total)
    {
      state := state.(metrics := Some(m), lastMetricsUpdate := now, population := m.total);
    }

    /** `usePopulationBySpecies`: the latest counts per species, or none before any metrics. */
    function PopulationBySpecies(): (r: map<string, int>)
      reads this
      ensures state.metrics.None? ==> r == map[]
      ensures state.metrics.Some? ==> r == state.metrics.value.bySpecies
    {
      match state.metrics
      case None => map[]
      case Some(m) => m.bySpecies
    }

    method UpdateFps(value: real)
      requires Valid()
      modifies this
      ensures Valid() && state == old(state).(fps := value)
    {
      state := state.(fps := value);
    }

    method UpdateRenderTime(ms: real)
      requires Valid()
      modifies this
      ensures Valid() && state == old(state).(renderTime := ms)
    {
      state := state.(renderTime := ms);
    }

    method SetLoading(loading: bool)
      requires Valid()
      modifies this
      ensures Valid() && state == old(state).(isLoading := loading)
    {
      state := state.(isLoading := loading);
    }

    method SetError(e: Option<string>)
      requires Valid()
      modifies this
      ensures Valid() && state == old(state).(error := e)
    {
      state := state.(error := e);
    }

    /** `reset`: the whole state back to `initialState`. */
    method Reset()
      modifies this
      ensures Valid() && state == InitialState
    {
      state := InitialState;
    }
  }
}

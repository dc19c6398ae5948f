/**
 * The in-memory back end of `src/api/adapters/mockAdapter.ts`: the
 * `MockDataStore` fields and the API calls that read and change them.
 *
 * Each call's network delay is left out, and each draw of `Math.random()`
 * is a parameter in [0, 1). The current time is a parameter too: `now` for
 * `Date.now()` and `timestamp` for `new Date().toISOString()`. A thrown
 * `Error` becomes `Failure` with the error's message.
 */
module MockAdapter {
  import opened Wrappers
  import opened ApiTypes
  import opened JsMap
  import opened Components
  import Js

  const DefaultWorld: string := "default-world"
  const MockToken: string := "mock-jwt-token"
  const MockPassword: string := "password"
  const Anonymous: string := "anonymous"

  /** `x || fallback` for a number parameter that may be missing: both a missing value and 0 fall back. */
  function OrDefault(v: Option<int>, fallback: int): (r: int)
    ensures v.None? || v.value == 0 ==> r == fallback
    ensures v.Some? && v.value != 0 ==> r == v.value
  {
    if v.None? || v.value == 0 then fallback else v.value
  }

  /** A present, non-empty string: the truthiness test `if (params.x)`. */
  predicate Given(v: Option<string>) {
    v.Some? && v.value != ""
  }

  // ------------------------------------------------------------- profiles

  /** The first user, in insertion order, with this email: `Array.from(users.values()).find(...)`. */
  function FindByEmail(users: seq<UserProfile>, email: string): (r: Option<UserProfile>)
    ensures r.Some? ==> r.value in users && r.value.email == email
    ensures r.None? <==> forall u :: u in users ==> u.email != email
    ensures r.Some? ==> exists k :: FirstWithEmail(users, k, email) && users[k] == r.value
    decreases |users|
  {
    if users == [] then None
    else if users[0].email == email then
      assert FirstWithEmail(users, 0, email);
      Some(users[0])
    else
      var r := FindByEmail(users[1..], email);
      assert forall u :: u in users ==> u == users[0] || u in users[1..];
      if r.Some? then
        var k :| FirstWithEmail(users[1..], k, email) && users[1..][k] == r.value;
        assert FirstWithEmail(users, k + 1, email);
        r
      else r
  }

  /** Position `k` holds the first user with this email. */
  predicate FirstWithEmail(users: seq<UserProfile>, k: int, email: string) {
    0 <= k < |users| && users[k].email == email && forall j :: 0 <= j < k ==> users[j].email != email
  }

  /** `Partial<UserProfile>`: the fields present in an update. */
  datatype ProfileUpdate = ProfileUpdate(
    id: Option<string>,
    username: Option<string>,
    email: Option<string>,
    createdAt: Option<string>,
    displayName: Option<string>,
    bio: Option<string>,
    avatar: Option<string>)

  /** A present field replaces the stored one; an absent field keeps it. */
  function Pick<T>(update: Option<T>, stored: T): (r: T)
    ensures update.Some? ==> r == update.value
    ensures update.None? ==> r == stored
  {
    if update.Some? then update.value else stored
  }

  /** `{ ...profile, ...updates }`. */
  function Overlay(p: UserProfile, u: ProfileUpdate): (r: UserProfile)
    ensures r.id == Pick(u.id, p.id) && r.username == Pick(u.username, p.username)
    ensures r.email == Pick(u.email, p.email) && r.createdAt == Pick(u.createdAt, p.createdAt)
    ensures r.displayName == (if u.displayName.Some? then u.displayName else p.displayName)
    ensures r.bio == (if u.bio.Some? then u.bio else p.bio)
    ensures r.avatar == (if u.avatar.Some? then u.avatar else p.avatar)
  {
    UserProfile(
      Pick(u.id, p.id), Pick(u.username, p.username), Pick(u.email, p.email),
      Pick(u.createdAt, p.createdAt),
      if u.displayName.Some? then u.displayName else p.displayName,
      if u.bio.Some? then u.bio else p.bio,
      if u.avatar.Some? then u.avatar else p.avatar)
  }

  /** An empty update changes nothing, and applying the same update twice is applying it once. */
  lemma OverlayLaws(p: UserProfile, u: ProfileUpdate)
    ensures Overlay(p, ProfileUpdate(None, None, None, None, None, None, None)) == p
    ensures Overlay(Overlay(p, u), u) == Overlay(p, u)
  {
  }

  // --------------------------------------------------------------- worlds

  /** The fields `createWorld` reads from its argument. */
  datatype WorldInput = WorldInput(name: string, description: Option<string>, seed: Option<int>)

  /** `worlds.filter(w => !status || w.status === status)`. */
  function WithStatus(worlds: seq<WorldDetail>, status: Option<WorldStatus>): (r: seq<WorldDetail>)
    ensures status.None? ==> r == worlds
    ensures forall w :: w in r <==> w in worlds && (status.None? || w.status == status.value)
  {
    if status.None? then worlds else Filter(worlds, (w: WorldDetail) => w.status == status.value)
  }

  // ------------------------------------------------------------- entities

  /** The parsed `bbox` parameter. */
  datatype Box = Box(minX: real, minY: real, maxX: real, maxY: real)

  /** The query parameters of `getEntities`. */
  datatype EntityQuery = EntityQuery(species: Option<string>, bbox: Option<Box>, offset: Option<int>, limit: Option<int>)

  /** The inclusive box test of the `bbox` filter. */
  predicate InBox(e: EntityDetail, b: Box) {
    e.position.x >= b.minX && e.position.x <= b.maxX && e.position.y >= b.minY && e.position.y <= b.maxY
  }

  /** The entities that pass the species filter and then the box filter, in stored order. */
  function Matching(list: seq<EntityDetail>, q: EntityQuery): (r: seq<EntityDetail>)
    ensures forall e :: e in r <==>
      && e in list
      && (Given(q.species) ==> SpeciesName(e.species) == q.species.value)
      && (q.bbox.Some? ==> InBox(e, q.bbox.value))
  {
    var bySpecies := if Given(q.species) then Filter(list, (e: EntityDetail) => SpeciesName(e.species) == q.species.value) else list;
    if q.bbox.Some? then Filter(bySpecies, (e: EntityDetail) => InBox(e, q.bbox.value)) else bySpecies
  }

  /** One page of `getEntities`: `slice(offset, offset + limit)` with the defaults 0 and 100. */
  function Page(matched: seq<EntityDetail>, q: EntityQuery): (r: EntitiesResponse)
    ensures r.total == |matched|
    ensures r.hasMore <==> OrDefault(q.offset, 0) + OrDefault(q.limit, 100) < |matched|
    ensures forall e :: e in r.entities ==> e in matched
    ensures var offset, limit := OrDefault(q.offset, 0), OrDefault(q.limit, 100);
      0 <= offset <= |matched| && 0 <= limit ==>
        r.entities == matched[offset..Js.MinInt(offset + limit, |matched|)]
  {
    var offset := OrDefault(q.offset, 0);
    var limit := OrDefault(q.limit, 100);
    var page := Js.Slice(matched, offset, offset + limit);
    assert forall e :: e in page ==> e in matched by {
      forall e | e in page ensures e in matched {
        var i :| 0 <= i < |page| && page[i] == e;
        SliceElement(matched, offset, offset + limit, i);
      }
    }
    EntitiesResponse(page, |matched|, offset + limit < |matched|)
  }

  /** Every element of a slice is an element of the sliced sequence. */
  lemma SliceElement<T>(s: seq<T>, begin: int, end: int, i: nat)
    requires i < |Js.Slice(s, begin, end)|
    ensures Js.Slice(s, begin, end)[i] in s
  {
    var b := Js.SliceIndex(begin, |s|);
    var e := Js.SliceIndex(end, |s|);
    assert Js.Slice(s, begin, end) == s[b..e];
    assert s[b..e][i] == s[b + i];
  }

  /**
   * Paging with a positive limit: a page that says there is more is full,
   * and a page that says there is no more reaches the last match.
   */
  lemma PagingCoversMatches(matched: seq<EntityDetail>, q: EntityQuery)
    requires 0 <= OrDefault(q.offset, 0) <= |matched| && 0 < OrDefault(q.limit, 100)
    ensures Page(matched, q).hasMore ==> |Page(matched, q).entities| == OrDefault(q.limit, 100)
    ensures !Page(matched, q).hasMore ==> OrDefault(q.offset, 0) + |Page(matched, q).entities| == |matched|
  {
  }

  /** `Entity not found` or the stored entity. */
  function LookupEntity(world: Option<OrderedMap<EntityDetail>>, entityId: string): (r: Result<EntityDetail>)
    ensures r.Success? <==> world.Some? && entityId in world.value.entries
    ensures r.Success? ==> r.value == world.value.entries[entityId]
  {
    if world.Some? && entityId in world.value.entries then Success(world.value.entries[entityId])
    else Failure("Entity not found")
  }

  /** The `forEach` of `getWorldMetrics` that counts the entities per species name. */
  method CountSpecies(list: seq<EntityDetail>) returns (counts: map<string, int>)
    ensures counts == SpeciesCounts(list)
  {
    counts := map[];
    var i := 0;
    while i < |list|
      invariant i <= |list|
      invariant counts == SpeciesCounts(list[..i])
    {
      assert list[..i + 1][..i] == list[..i];
      var key := SpeciesName(list[i].species);
      counts := counts[key := CountOf(counts, key) + 1];
      i := i + 1;
    }
    assert list[..i] == list;
  }

  /**
   * The counts per species name that `getWorldMetrics` builds with
   * `forEach`, visiting the entities in order.
   */
  function SpeciesCounts(list: seq<EntityDetail>): (counts: map<string, int>)
    decreases |list|
  {
    if list == [] then map[]
    else
      var counts := SpeciesCounts(list[..|list| - 1]);
      var key := SpeciesName(list[|list| - 1].species);
      counts[key := CountOf(counts, key) + 1]
  }

  /** `counts[key] || 0`. */
  function CountOf(counts: map<string, int>, key: string): (n: int)
    ensures key !in counts ==> n == 0
    ensures key in counts ==> n == counts[key]
  {
    if key in counts then counts[key] else 0
  }

  /** The number of entities of one species. */
  function Occurrences(list: seq<EntityDetail>, kind: SpeciesKind): (n: nat)
    ensures n <= |list|
    decreases |list|
  {
    if list == [] then 0
    else Occurrences(list[..|list| - 1], kind) + (if list[|list| - 1].species == kind then 1 else 0)
  }

  /** The counts name only species that occur, each with its number of entities. */
  predicate CountsSpecies(counts: map<string, int>, list: seq<EntityDetail>) {
    && (forall key :: key in counts ==> exists k: SpeciesKind :: key == SpeciesName(k) && Occurrences(list, k) > 0)
    && (forall k: SpeciesKind :: CountOf(counts, SpeciesName(k)) == Occurrences(list, k))
  }

  /** The counts `SpeciesCounts` builds are the species occurrences. */
  lemma {:induction false} SpeciesCountsCorrect(list: seq<EntityDetail>)
    ensures CountsSpecies(SpeciesCounts(list), list)
    decreases |list|
  {
    if list != [] {
      var init := list[..|list| - 1];
      SpeciesCountsCorrect(init);
      var last := list[|list| - 1];
      forall k: SpeciesKind ensures CountOf(SpeciesCounts(list), SpeciesName(k)) == Occurrences(list, k) {
        NamesDistinct(k, last.species, EventKind.Birth, EventKind.Birth);
      }
      forall key | key in SpeciesCounts(list)
        ensures exists k: SpeciesKind :: key == SpeciesName(k) && Occurrences(list, k) > 0
      {
        if key == SpeciesName(last.species) {
          assert Occurrences(list, last.species) > 0;
        } else {
          var k: SpeciesKind :| key == SpeciesName(k) && Occurrences(init, k) > 0;
          assert Occurrences(list, k) >= Occurrences(init, k);
        }
      }
    }
  }

  /** Every entity belongs to exactly one of the three species. */
  lemma {:induction false} OccurrencesSum(list: seq<EntityDetail>)
    ensures Occurrences(list, Herbivore) + Occurrences(list, Predator) + Occurrences(list, Tribal) == |list|
    decreases |list|
  {
    if list != [] {
      OccurrencesSum(list[..|list| - 1]);
    }
  }

  /**
   * The counts per species sum to the number of entities: the `bySpecies`
   * of `getWorldMetrics` adds up to its `total`.
   */
  lemma SpeciesCountsSum(list: seq<EntityDetail>)
    ensures var c := SpeciesCounts(list);
      && CountOf(c, "HERBIVORE") + CountOf(c, "PREDATOR") + CountOf(c, "TRIBAL") == |list|
      && forall key :: key in c ==> key == "HERBIVORE" || key == "PREDATOR" || key == "TRIBAL"
  {
    SpeciesCountsCorrect(list);
    OccurrencesSum(list);
    var c := SpeciesCounts(list);
    assert CountOf(c, SpeciesName(Herbivore)) == Occurrences(list, Herbivore);
    assert CountOf(c, SpeciesName(Predator)) == Occurrences(list, Predator);
    assert CountOf(c, SpeciesName(Tribal)) == Occurrences(list, Tribal);
  }

  // --------------------------------------------------------------- events

  /** The query parameters of `getEvents`; the cursor is accepted and ignored. */
  datatype EventQuery = EventQuery(kind: Option<EventKind>, limit: Option<int>)

  /** The stored events of the requested kind, in stored order. */
  function OfKind(events: seq<Event>, kind: Option<EventKind>): (r: seq<Event>)
    ensures kind.None? ==> r == events
    ensures forall e :: e in r <==> e in events && (kind.None? || e.kind == kind.value)
  {
    if kind.None? then events else Filter(events, (e: Event) => e.kind == kind.value)
  }

  /**
   * `getEvents` on a world's stored events: at most `limit` (default 50)
   * events of the requested kind, the first ones in stored order, and a
   * cursor exactly when more events matched than were returned.
   */
  function EventsPage(stored: seq<Event>, q: EventQuery, now: int): (r: EventsResponse)
    ensures forall e :: e in r.events ==> e in stored && (q.kind.None? || e.kind == q.kind.value)
    ensures r.nextCursor.Some? <==> |OfKind(stored, q.kind)| > OrDefault(q.limit, 50)
    ensures r.nextCursor.Some? ==> r.nextCursor.value == "cursor-" + Js.IntToString(now)
    ensures 0 <= OrDefault(q.limit, 50) ==>
      r.events <= OfKind(stored, q.kind) && |r.events| == Js.MinInt(OrDefault(q.limit, 50), |OfKind(stored, q.kind)|)
  {
    var events := OfKind(stored, q.kind);
    var limit := OrDefault(q.limit, 50);
    var page := Js.Slice(events, 0, limit);
    assert forall e :: e in page ==> e in events by {
      forall e | e in page ensures e in events {
        var i :| 0 <= i < |page| && page[i] == e;
        SliceElement(events, 0, limit, i);
      }
    }
    EventsResponse(page, if |events| > limit then Some("cursor-" + Js.IntToString(now)) else None)
  }

  // ------------------------------------------------------------ snapshots

  function Summary(s: SnapshotDetail): SnapshotSummary {
    SnapshotSummary(s.name, s.timestamp, s.population, s.size)
  }

  /** `snapshots.find(s => s.name === name)`. */
  function FirstNamed(snapshots: seq<SnapshotDetail>, name: string): (r: Option<SnapshotDetail>)
    ensures r.Some? ==> r.value in snapshots && r.value.name == name
    ensures r.None? <==> forall s :: s in snapshots ==> s.name != name
    ensures r.Some? ==> exists k :: FirstWithName(snapshots, k, name) && snapshots[k] == r.value
    decreases |snapshots|
  {
    if snapshots == [] then None
    else if snapshots[0].name == name then
      assert FirstWithName(snapshots, 0, name);
      Some(snapshots[0])
    else
      var r := FirstNamed(snapshots[1..], name);
      assert forall s :: s in snapshots ==> s == snapshots[0] || s in snapshots[1..];
      if r.Some? then
        var k :| FirstWithName(snapshots[1..], k, name) && snapshots[1..][k] == r.value;
        assert FirstWithName(snapshots, k + 1, name);
        r
      else r
  }

  /** Position `k` holds the first snapshot with this name. */
  predicate FirstWithName(snapshots: seq<SnapshotDetail>, k: int, name: string) {
    0 <= k < |snapshots| && snapshots[k].name == name && forall j :: 0 <= j < k ==> snapshots[j].name != name
  }

  /**
   * Appending a snapshot makes it findable by a name no earlier snapshot
   * has, and leaves the lookup of every other name as it was.
   */
  lemma {:induction false} FirstNamedAppend(snapshots: seq<SnapshotDetail>, s: SnapshotDetail, name: string)
    ensures FirstNamed(snapshots, name).Some? ==> FirstNamed(snapshots + [s], name) == FirstNamed(snapshots, name)
    ensures FirstNamed(snapshots, name).None? && s.name == name ==> FirstNamed(snapshots + [s], name) == Some(s)
    ensures s.name != name ==> FirstNamed(snapshots + [s], name) == FirstNamed(snapshots, name)
    decreases |snapshots|
  {
    if snapshots == [] {
      assert snapshots + [s] == [s];
    } else {
      assert (snapshots + [s])[0] == snapshots[0];
      assert (snapshots + [s])[1..] == snapshots[1..] + [s];
      FirstNamedAppend(snapshots[1..], s, name);
    }
  }

  // ----------------------------------------------------------- adoptions

  /** The id `getMyAdoptions` and `adoptEntity` read: `currentUser?.id`, if non-empty. */
  function SignedInId(currentUser: Option<UserProfile>): (r: Option<string>)
    ensures r.Some? <==> currentUser.Some? && currentUser.value.id != ""
    ensures r.Some? ==> r.value == currentUser.value.id
  {
    if currentUser.Some? && currentUser.value.id != "" then Some(currentUser.value.id) else None
  }

  /** `getMyAdoptions`: none when signed out, else the user's own, in order of adoption. */
  function AdoptionsOf(adoptions: seq<Adoption>, currentUser: Option<UserProfile>): (r: seq<Adoption>)
    ensures SignedInId(currentUser).None? ==> r == []
    ensures SignedInId(currentUser).Some? ==>
      forall a :: a in r <==> a in adoptions && a.userId == SignedInId(currentUser).value
  {
    match SignedInId(currentUser)
    case None => []
    case Some(id) => Filter(adoptions, (a: Adoption) => a.userId == id)
  }

  /**
   * An adoption made while signed in is the last of the user's adoptions
   * afterwards; one made by anyone else does not show up.
   */
  lemma AdoptionsOfAppend(adoptions: seq<Adoption>, a: Adoption, currentUser: Option<UserProfile>)
    requires SignedInId(currentUser).Some?
    ensures a.userId == SignedInId(currentUser).value ==>
      AdoptionsOf(adoptions + [a], currentUser) == AdoptionsOf(adoptions, currentUser) + [a]
    ensures a.userId != SignedInId(currentUser).value ==>
      AdoptionsOf(adoptions + [a], currentUser) == AdoptionsOf(adoptions, currentUser)
  {
    var id := SignedInId(currentUser).value;
    var p := (x: Adoption) => x.userId == id;
    FilterAppend(adoptions, [a], p);
    assert Filter([a], p) == (if p(a) then [a] + Filter([], p) else Filter([], p));
  }

  // ---------------------------------------------------------------- nudge

  /**
   * `nudgeEntity`, given the draw that picks the outcome: the outcome is
   * `outcomes[floor(draw * 3)]`, the message names the action in lower
   * case, and only a success reports an effect. The world and entity are
   * not consulted.
   */
  function NudgeEntity(action: NudgeAction, draw: real): (r: NudgeResult)
    requires 0.0 <= draw < 1.0
    ensures r.outcome.NudgeSuccess? <==> draw < 1.0 / 3.0
    ensures r.outcome.NudgeIgnored? <==> draw >= 2.0 / 3.0
    ensures r.outcome.NudgeSuccess? ==> r.message == "Entity responded well to " + Js.ToLower(ActionName(action))
    ensures r.outcome.NudgeFailed? ==> r.message == "Entity resisted the " + Js.ToLower(ActionName(action)) + " attempt"
    ensures r.outcome.NudgeIgnored? ==> r.message == "Entity was too busy to notice the " + Js.ToLower(ActionName(action))
    ensures r.outcome.NudgeSuccess? ==> r.effects == [ActionName(action) + " effect applied"]
    ensures !r.outcome.NudgeSuccess? ==> r.effects == []
  {
    var i := Js.Scaled(draw, 3);
    var lower := Js.ToLower(ActionName(action));
    if i == 0 then
      NudgeResult(NudgeSuccess, "Entity responded well to " + lower, [ActionName(action) + " effect applied"])
    else if i == 1 then
      NudgeResult(NudgeFailed, "Entity resisted the " + lower + " attempt", [])
    else
      NudgeResult(NudgeIgnored, "Entity was too busy to notice the " + lower, [])
  }

  // ---------------------------------------------------------------- store

  /** The `Map` the constructor's loop fills with the mock entities, keyed by id. */
  function Indexed(list: seq<EntityDetail>): (m: OrderedMap<EntityDetail>)
    ensures m.Valid()
    decreases |list|
  {
    if list == [] then EmptyMap()
    else Indexed(list[..|list| - 1]).Set(list[|list| - 1].id, list[|list| - 1])
  }

  /** The 100 mock entities: entity i has id `entity-i` and the i-th species in turn. */
  predicate GeneratedEntities(list: seq<EntityDetail>) {
    && |list| == 100
    && (forall i :: 0 <= i < 100 ==> list[i].id == "entity-" + Js.NatToString(i))
    && (forall i :: 0 <= i < 100 ==> list[i].species == [Herbivore, Predator, Tribal][i % 3])
  }

  /** `a` sorts strictly before `b` character by character, a proper prefix first. */
  predicate TextBefore(a: string, b: string)
    decreases |a|
  {
    |b| > 0 && (|a| == 0 || a[0] < b[0] || (a[0] == b[0] && TextBefore(a[1..], b[1..])))
  }

  /**
   * The 50 mock events after the sort: the ids `event-0` to `event-49`, each
   * once, in some order; any entity reference names one of the 100 mock
   * entities; newest first. The timestamps are `toISOString` texts of one
   * fixed layout, whose character order is their time order.
   */
  predicate GeneratedEvents(list: seq<Event>) {
    && |list| == 50
    && (forall j :: 0 <= j < 50 ==> exists i :: 0 <= i < 50 && list[j].id == "event-" + Js.NatToString(i))
    && (forall i, j :: 0 <= i < j < 50 ==> list[i].id != list[j].id)
    && (forall j :: 0 <= j < 50 && list[j].entityId.Some? ==>
          exists k :: 0 <= k < 100 && list[j].entityId.value == "entity-" + Js.NatToString(k))
    && (forall i, j :: 0 <= i < j < 50 ==> !TextBefore(list[i].timestamp, list[j].timestamp))
  }

  /** The constructor's loop: `mockMap.set(entity.id, entity)` for each entity in turn. */
  method IndexEntities(list: seq<EntityDetail>) returns (m: OrderedMap<EntityDetail>)
    ensures m == Indexed(list)
  {
    m := EmptyMap();
    var i := 0;
    while i < |list|
      invariant i <= |list|
      invariant m == Indexed(list[..i])
    {
      assert list[..i + 1][..i] == list[..i];
      m := m.Set(list[i].id, list[i]);
      i := i + 1;
    }
    assert list[..i] == list;
  }

  /** With distinct ids, the map visits the entities in the order they were set. */
  lemma {:induction false} IndexedValues(list: seq<EntityDetail>)
    requires forall i, j :: 0 <= i < j < |list| ==> list[i].id != list[j].id
    ensures Indexed(list).Values() == list
    decreases |list|
  {
    if list != [] {
      var init := list[..|list| - 1];
      var last := list[|list| - 1];
      IndexedValues(init);
      IndexedKeys(init);
      var m := Indexed(init);
      forall i | 0 <= i < |m.keys| ensures m.keys[i] != last.id {
        assert m.Values()[i] == init[i];
      }
      SetValues(m, last.id, last);
    }
  }

  /** With distinct ids, every entity is found under its own id. */
  lemma {:induction false} IndexedGet(list: seq<EntityDetail>)
    requires forall i, j :: 0 <= i < j < |list| ==> list[i].id != list[j].id
    ensures forall k :: 0 <= k < |list| ==> Indexed(list).Get(list[k].id) == Some(list[k])
    decreases |list|
  {
    if list != [] {
      var init := list[..|list| - 1];
      IndexedGet(init);
      forall k | 0 <= k < |list| ensures Indexed(list).Get(list[k].id) == Some(list[k]) {
        if k < |init| {
          assert init[k] == list[k];
        }
      }
    }
  }

  /** Every entity is stored under its own id. */
  lemma {:induction false} IndexedKeys(list: seq<EntityDetail>)
    ensures forall key :: key in Indexed(list).entries ==> Indexed(list).entries[key].id == key
    decreases |list|
  {
    if list != [] {
      IndexedKeys(list[..|list| - 1]);
    }
  }

  /** The store behind the mock API. */
  class MockStore {
    var users: OrderedMap<UserProfile>
    var worlds: OrderedMap<WorldDetail>
    var entities: map<string, OrderedMap<EntityDetail>>
    var events: map<string, seq<Event>>
    var snapshots: map<string, seq<SnapshotDetail>>
    var adoptions: seq<Adoption>
    var currentUser: Option<UserProfile>
    var accessToken: Option<string>

    ghost predicate Valid()
      reads this
    {
      && users.Valid() && worlds.Valid()
      && forall w :: w in entities ==> entities[w].Valid()
    }

    /**
     * `initializeMockData`: one user, one world, the 100 generated entities
     * (entity i has id `entity-i` and the i-th species in turn) and the 50
     * generated events, all under 'default-world'. The random parts of the
     * entities and events are the parameters; the events come sorted, newest
     * first.
     */
    constructor (userCreatedAt: string, worldCreatedAt: string, mockEntities: seq<EntityDetail>, mockEvents: seq<Event>)
      requires GeneratedEntities(mockEntities) && GeneratedEvents(mockEvents)
      ensures Valid()
      ensures users.Values() == [MockUser(userCreatedAt)]
      ensures worlds.Values() == [MockWorld(worldCreatedAt)] && worlds.keys == [DefaultWorld]
      ensures entities == map[DefaultWorld := Indexed(mockEntities)]
      ensures events == map[DefaultWorld := mockEvents]
      ensures snapshots == map[] && adoptions == []
      ensures currentUser == None && accessToken == None
    {
      var mockMap := IndexEntities(mockEntities);
      users := Singleton("user-1", MockUser(userCreatedAt));
      worlds := Singleton(DefaultWorld, MockWorld(worldCreatedAt));
      entities := map[DefaultWorld := mockMap];
      events := map[DefaultWorld := mockEvents];
      snapshots := map[];
      adoptions := [];
      currentUser := None;
      accessToken := None;
    }

    // -- auth

    /**
     * `login`: succeeds exactly when some user has this email and the
     * password is 'password'; then that first user is signed in with the
     * mock token. A failure changes nothing.
     */
    method Login(email: string, password: string) returns (r: Result<LoginResponse>)
      requires Valid()
      modifies this
      ensures Valid()
      ensures r.Success? <==> password == MockPassword && exists u :: u in old(users.Values()) && u.email == email
      ensures r.Success? ==> r.value.user in users.Values() && r.value.user.email == email
      ensures r.Success? ==> currentUser == Some(r.value.user) && accessToken == Some(MockToken)
      ensures r.Success? ==> r.value.accessToken == MockToken
      ensures r.Failure? ==> r.error == "Invalid credentials" && currentUser == old(currentUser) && accessToken == old(accessToken)
      ensures users == old(users) && worlds == old(worlds) && entities == old(entities)
      ensures events == old(events) && snapshots == old(snapshots) && adoptions == old(adoptions)
    {
      var user := FindByEmail(users.Values(), email);
      if user.None? || password != MockPassword {
        return Failure("Invalid credentials");
      }
      currentUser := user;
      accessToken := Some(MockToken);
      r := Success(LoginResponse(MockToken, user.value));
    }

    /** `logout`: no user and no token. */
    method Logout()
      requires Valid()
      modifies this
      ensures Valid() && currentUser == None && accessToken == None
      ensures users == old(users) && worlds == old(worlds) && entities == old(entities)
      ensures events == old(events) && snapshots == old(snapshots) && adoptions == old(adoptions)
    {
      currentUser := None;
      accessToken := None;
    }

    /** `getCurrentUser`: the signed-in user, or `Not authenticated`. */
    function GetCurrentUser(): (r: Result<UserProfile>)
      reads this
      ensures r.Success? <==> currentUser.Some?
      ensures r.Success? ==> r.value == currentUser.value
      ensures r.Failure? ==> r.error == "Not authenticated"
    {
      if currentUser.Some? then Success(currentUser.value) else Failure("Not authenticated")
    }

    // -- profiles

    /** `getProfile`: the stored profile, or `Profile not found`. */
    function GetProfile(id: string): (r: Result<UserProfile>)
      reads this
      ensures r.Success? <==> id in users.entries
      ensures r.Success? ==> r.value == users.entries[id]
      ensures r.Failure? ==> r.error == "Profile not found"
    {
      if id in users.entries then Success(users.entries[id]) else Failure("Profile not found")
    }

    /**
     * `updateProfile`: the given fields overlaid on the stored profile,
     * stored back under the same id; an unknown id fails and changes nothing.
     */
    method UpdateProfile(id: string, updates: ProfileUpdate) returns (r: Result<UserProfile>)
      requires Valid()
      modifies this
      ensures Valid()
      ensures r.Success? <==> id in old(users.entries)
      ensures r.Success? ==> r.value == Overlay(old(users.entries[id]), updates) && users == old(users).Set(id, r.value)
      ensures r.Failure? ==> r.error == "Profile not found" && users == old(users)
      ensures worlds == old(worlds) && entities == old(entities) && events == old(events)
      ensures snapshots == old(snapshots) && adoptions == old(adoptions)
      ensures currentUser == old(currentUser) && accessToken == old(accessToken)
    {
      if id !in users.entries {
        return Failure("Profile not found");
      }
      var updated := Overlay(users.entries[id], updates);
      users := users.Set(id, updated);
      r := Success(updated);
    }

    // -- worlds

    /** `getWorlds`: the worlds with the status asked for, the first `limit` (default 20) of them. */
    function GetWorlds(status: Option<WorldStatus>, limit: Option<int>): (r: seq<WorldDetail>)
      requires Valid()
      reads this
      ensures forall w :: w in r ==> w in worlds.Values() && (status.None? || w.status == status.value)
      ensures 0 <= OrDefault(limit, 20) ==>
        r <= WithStatus(worlds.Values(), status) && |r| == Js.MinInt(OrDefault(limit, 20), |WithStatus(worlds.Values(), status)|)
    {
      var matching := WithStatus(worlds.Values(), status);
      var page := Js.Slice(matching, 0, OrDefault(limit, 20));
      assert forall w :: w in page ==> w in matching by {
        forall w | w in page ensures w in matching {
          var i :| 0 <= i < |page| && page[i] == w;
          SliceElement(matching, 0, OrDefault(limit, 20), i);
        }
      }
      page
    }

    /**
     * `createWorld`: a new active world with id `world-<now>`, no population,
     * the default settings, and the given seed unless it is missing or 0, in
     * which case the seed is drawn from [0, 1000000).
     */
    method CreateWorld(data: WorldInput, now: nat, timestamp: string, seedDraw: real) returns (w: WorldDetail)
      requires Valid() && 0.0 <= seedDraw < 1.0
      modifies this
      ensures Valid()
      ensures w.id == "world-" + Js.NatToString(now) && w.name == data.name && w.description == data.description
      ensures w.status == Active && w.population == 0 && w.dayCount == 0 && w.createdAt == timestamp
      ensures data.seed.Some? && data.seed.value != 0 ==> w.seed == data.seed.value
      ensures data.seed.None? || data.seed.value == 0 ==> 0 <= w.seed < 1000000
      ensures w.timeScale == 1.0 && w.maxPopulation == 5000 && w.hungerRate == 0.1 && w.reproductionRate == 0.05
      ensures worlds == old(worlds).Set(w.id, w)
      ensures GetWorld(w.id) == Success(w)
      ensures users == old(users) && entities == old(entities) && events == old(events)
      ensures snapshots == old(snapshots) && adoptions == old(adoptions)
      ensures currentUser == old(currentUser) && accessToken == old(accessToken)
    {
      var seed := if data.seed.None? || data.seed.value == 0 then Js.Scaled(seedDraw, 1000000) else data.seed.value;
      w := WorldDetail("world-" + Js.NatToString(now), data.name, Active, 0, 0, timestamp, data.description,
        seed, 1.0, 5000, 0.1, 0.05);
      worlds := worlds.Set(w.id, w);
    }

    /** `getWorld`: the stored world, or `World not found`. */
    function GetWorld(id: string): (r: Result<WorldDetail>)
      reads this
      ensures r.Success? <==> id in worlds.entries
      ensures r.Success? ==> r.value == worlds.entries[id]
      ensures r.Failure? ==> r.error == "World not found"
    {
      if id in worlds.entries then Success(worlds.entries[id]) else Failure("World not found")
    }

    /**
     * `getWorldMetrics`: fails for an unknown world; otherwise the total is
     * the number of the world's entities (none if it has no entity map),
     * the per-species counts add up to it, and births, deaths and
     * discoveries are drawn from [0, 10), [0, 5) and [0, 3).
     */
    method GetWorldMetrics(id: string, timestamp: string, births: real, deaths: real, discoveries: real)
      returns (r: Result<WorldMetrics>)
      requires Valid()
      requires 0.0 <= births < 1.0 && 0.0 <= deaths < 1.0 && 0.0 <= discoveries < 1.0
      ensures r.Success? <==> id in worlds.entries
      ensures r.Failure? ==> r.error == "World not found"
      ensures r.Success? ==> r.value.total == (if id in entities then entities[id].Size() else 0)
      ensures r.Success? ==> var c := r.value.bySpecies;
        && CountOf(c, "HERBIVORE") + CountOf(c, "PREDATOR") + CountOf(c, "TRIBAL") == r.value.total
        && forall key :: key in c ==> key == "HERBIVORE" || key == "PREDATOR" || key == "TRIBAL"
      ensures r.Success? ==> id in entities ==> r.value.bySpecies == SpeciesCounts(entities[id].Values())
      ensures r.Success? ==> 0 <= r.value.births < 10 && 0 <= r.value.deaths < 5 && 0 <= r.value.discoveries < 3
      ensures r.Success? ==> r.value.timestamp == timestamp
    {
      if id !in worlds.entries {
        return Failure("World not found");
      }
      var list := if id in entities then entities[id].Values() else [];
      var counts := CountSpecies(list);
      SpeciesCountsSum(list);
      r := Success(WorldMetrics(timestamp, |list|, counts,
        Js.Scaled(births, 10), Js.Scaled(deaths, 5), Js.Scaled(discoveries, 3)));
    }

    // -- entities

    /**
     * `getEntities`: an unknown world has no entities; otherwise the page of
     * the world's entities, in stored order, that match the query.
     */
    function GetEntities(worldId: string, q: EntityQuery): (r: EntitiesResponse)
      requires Valid()
      reads this
      ensures worldId !in entities ==> r == EntitiesResponse([], 0, false)
      ensures worldId in entities ==> r == Page(Matching(entities[worldId].Values(), q), q)
      ensures forall e :: e in r.entities ==>
        && worldId in entities && e in entities[worldId].Values()
        && (Given(q.species) ==> SpeciesName(e.species) == q.species.value)
        && (q.bbox.Some? ==> InBox(e, q.bbox.value))
    {
      if worldId !in entities then EntitiesResponse([], 0, false)
      else Page(Matching(entities[worldId].Values(), q), q)
    }

    /** `getEntity`: the stored entity, or `Entity not found` for an unknown world or id. */
    function GetEntity(worldId: string, entityId: string): (r: Result<EntityDetail>)
      reads this
      ensures r.Success? <==> worldId in entities && entityId in entities[worldId].entries
      ensures r.Success? ==> r.value == entities[worldId].entries[entityId]
      ensures r.Failure? ==> r.error == "Entity not found"
    {
      LookupEntity(if worldId in entities then Some(entities[worldId]) else None, entityId)
    }

    // -- events

    /** `getEvents`: see `EventsPage`; a world without events has none. */
    function GetEvents(worldId: string, q: EventQuery, now: int): (r: EventsResponse)
      reads this
      ensures worldId !in events ==> r.events == []
      ensures worldId in events ==> r == EventsPage(events[worldId], q, now)
    {
      EventsPage(if worldId in events then events[worldId] else [], q, now)
    }

    // -- snapshots

    /** `getSnapshots`: the summaries of the world's snapshots, in order of creation. */
    function GetSnapshots(worldId: string): (r: seq<SnapshotSummary>)
      reads this
      ensures worldId !in snapshots ==> r == []
      ensures worldId in snapshots ==> |r| == |snapshots[worldId]|
      ensures worldId in snapshots ==> forall i :: 0 <= i < |r| ==> r[i] == Summary(snapshots[worldId][i])
    {
      var list := if worldId in snapshots then snapshots[worldId] else [];
      seq(|list|, i requires 0 <= i < |list| => Summary(list[i]))
    }

    /**
     * `createSnapshot`: fails for an unknown world; otherwise appends a
     * snapshot of the world's population to the world's list, with a size
     * drawn from [100000, 1100000).
     */
    method CreateSnapshot(worldId: string, name: string, description: Option<string>, timestamp: string, sizeDraw: real)
      returns (r: Result<SnapshotSummary>)
      requires Valid() && 0.0 <= sizeDraw < 1.0
      modifies this
      ensures Valid()
      ensures r.Success? <==> worldId in worlds.entries
      ensures r.Failure? ==> r.error == "World not found" && snapshots == old(snapshots)
      ensures r.Success? ==> exists s: SnapshotDetail ::
        && s.name == name && s.timestamp == timestamp && s.description == description
        && s.population == worlds.entries[worldId].population
        && 100000 <= s.size < 1100000
        && snapshots == old(snapshots)[worldId := old(if worldId in snapshots then snapshots[worldId] else []) + [s]]
        && r.value == Summary(s)
      ensures users == old(users) && worlds == old(worlds) && entities == old(entities) && events == old(events)
      ensures adoptions == old(adoptions) && currentUser == old(currentUser) && accessToken == old(accessToken)
    {
      if worldId !in worlds.entries {
        return Failure("World not found");
      }
      var s := SnapshotDetail(name, timestamp, worlds.entries[worldId].population, Js.Scaled(sizeDraw, 1000000) + 100000, description);
      var list := if worldId in snapshots then snapshots[worldId] else [];
      snapshots := snapshots[worldId := list + [s]];
      r := Success(Summary(s));
    }

    /** `getSnapshot`: the first of the world's snapshots with that name, or `Snapshot not found`. */
    function GetSnapshot(worldId: string, name: string): (r: Result<SnapshotDetail>)
      reads this
      ensures r.Success? ==> worldId in snapshots && r.value in snapshots[worldId] && r.value.name == name
      ensures r.Success? ==> exists k :: FirstWithName(snapshots[worldId], k, name) && snapshots[worldId][k] == r.value
      ensures r.Failure? <==> worldId !in snapshots || forall s :: s in snapshots[worldId] ==> s.name != name
      ensures r.Failure? ==> r.error == "Snapshot not found"
    {
      match FirstNamed(if worldId in snapshots then snapshots[worldId] else [], name)
      case Some(s) => Success(s)
      case None => Failure("Snapshot not found")
    }

    // -- commerce

    /**
     * `adoptEntity`: records an active adoption `adoption-<now>` for the
     * signed-in user, or for 'anonymous' when nobody is signed in.
     */
    method AdoptEntity(entityId: string, nickname: Option<string>, now: nat, timestamp: string)
      returns (r: AdoptionResponse)
      requires Valid()
      modifies this
      ensures Valid()
      ensures r.adoptionId == "adoption-" + Js.NatToString(now) && r.entityId == entityId
      ensures |adoptions| == |old(adoptions)| + 1 && adoptions[..|old(adoptions)|] == old(adoptions)
      ensures var a := adoptions[|old(adoptions)|];
        && a.id == r.adoptionId && a.entityId == entityId && a.status == AdoptionActive
        && a.nickname == nickname && a.adoptedAt == timestamp
        && a.userId == SignedInId(currentUser).GetOr(Anonymous)
      ensures users == old(users) && worlds == old(worlds) && entities == old(entities) && events == old(events)
      ensures snapshots == old(snapshots) && currentUser == old(currentUser) && accessToken == old(accessToken)
    {
      var id := "adoption-" + Js.NatToString(now);
      var a := Adoption(id, entityId, SignedInId(currentUser).GetOr(Anonymous), timestamp, AdoptionActive, nickname);
      adoptions := adoptions + [a];
      r := AdoptionResponse(id, entityId);
    }

    /** `getMyAdoptions`: see `AdoptionsOf`. */
    function GetMyAdoptions(): (r: seq<Adoption>)
      reads this
      ensures currentUser.None? ==> r == []
      ensures forall a :: a in r ==> a in adoptions && currentUser.Some? && a.userId == currentUser.value.id
      ensures r == AdoptionsOf(adoptions, currentUser)
      ensures SignedInId(currentUser).Some? ==> forall a :: a in adoptions && a.userId == SignedInId(currentUser).value ==> a in r
    {
      AdoptionsOf(adoptions, currentUser)
    }
  }

  /** The user `initializeMockData` creates. */
  function MockUser(createdAt: string): UserProfile {
    UserProfile("user-1", "aeon_explorer", "explorer@aeonworld.example", createdAt,
      Some("Aeon Explorer"), Some("Fascinated by emergent life simulations"), None)
  }

  /** The world `initializeMockData` creates. */
  function MockWorld(createdAt: string): WorldDetail {
    WorldDetail(DefaultWorld, "Genesis Valley", Active, 2847, 142, createdAt,
      Some("A lush valley where life first emerged in AeonWorld"), 12345, 1.0, 5000, 0.1, 0.05)
  }
}

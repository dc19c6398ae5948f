/**
 * The records the simulation store and the mock API exchange
 * (`src/api/types.ts`), as plain values. Identifiers and timestamps are
 * strings as in the JSON the records describe; optional fields are
 * `Option`s.
 */
module ApiTypes {
  import opened Wrappers
  import opened Components
  import Js

  /** The JSON spelling of a species kind. */
  function SpeciesName(kind: SpeciesKind): (s: string)
    ensures |s| >= 6 && 'A' <= s[0] <= 'Z'
  {
    match kind
    case Herbivore => "HERBIVORE"
    case Predator => "PREDATOR"
    case Tribal => "TRIBAL"
  }

  datatype EventKind = Birth | Death | Discovery | Migration | Interaction

  /** The JSON spelling of an event kind. */
  function KindName(kind: EventKind): (s: string)
    ensures |s| >= 5 && forall i :: 0 <= i < |s| ==> 'A' <= s[i] <= 'Z'
  {
    match kind
    case Birth => "BIRTH"
    case Death => "DEATH"
    case Discovery => "DISCOVERY"
    case Migration => "MIGRATION"
    case Interaction => "INTERACTION"
  }

  /** Distinct species and distinct event kinds have distinct names. */
  lemma NamesDistinct(a: SpeciesKind, b: SpeciesKind, k: EventKind, l: EventKind)
    ensures SpeciesName(a) == SpeciesName(b) ==> a == b
    ensures KindName(k) == KindName(l) ==> k == l
  {
    if SpeciesName(a) == SpeciesName(b) {
      assert SpeciesName(a)[0] == SpeciesName(b)[0];
    }
    if KindName(k) == KindName(l) {
      assert KindName(k)[0] == KindName(l)[0] && KindName(k)[1] == KindName(l)[1];
    }
  }

  datatype WorldStatus = Active | Paused | Archived

  datatype ApiPosition = ApiPosition(x: real, y: real)

  /** `EntityDetail`: an `Entity` with the optional detail fields. */
  datatype EntityDetail = EntityDetail(
    id: string,
    species: SpeciesKind,
    position: ApiPosition,
    altitude: Option<real>,
    age: real,
    hunger: real,
    villageId: Option<string>,
    createdAt: string,
    behavior: Option<string>,
    health: Option<real>,
    experience: Option<int>,
    traits: Option<seq<string>>)

  /** `Event`; its free-form `metadata` is not modelled. */
  datatype Event = Event(
    id: string,
    kind: EventKind,
    timestamp: string,
    description: string,
    entityId: Option<string>)

  /** The three species counts of `getPopulationBySpecies` or a count per species name. */
  datatype WorldMetrics = WorldMetrics(
    timestamp: string,
    total: int,
    bySpecies: map<string, int>,
    births: int,
    deaths: int,
    discoveries: int)

  /** `User` extended to `UserProfile`. */
  datatype UserProfile = UserProfile(
    id: string,
    username: string,
    email: string,
    createdAt: string,
    displayName: Option<string>,
    bio: Option<string>,
    avatar: Option<string>)

  /** `WorldDetail`, the settings object flattened. */
  datatype WorldDetail = WorldDetail(
    id: string,
    name: string,
    status: WorldStatus,
    population: int,
    dayCount: int,
    createdAt: string,
    description: Option<string>,
    seed: int,
    timeScale: real,
    maxPopulation: int,
    hungerRate: real,
    reproductionRate: real)

  /** `SnapshotDetail`; its `worldState` is the constant mock payload and is not modelled. */
  datatype SnapshotDetail = SnapshotDetail(
    name: string,
    timestamp: string,
    population: int,
    size: int,
    description: Option<string>)

  datatype SnapshotSummary = SnapshotSummary(name: string, timestamp: string, population: int, size: int)

  datatype AdoptionStatus = AdoptionActive | Released | Deceased

  datatype Adoption = Adoption(
    id: string,
    entityId: string,
    userId: string,
    adoptedAt: string,
    status: AdoptionStatus,
    nickname: Option<string>)

  datatype NudgeAction = Feed | Relocate | Inspire

  /** The JSON spelling of a nudge action. */
  function ActionName(action: NudgeAction): (s: string)
    ensures |s| >= 4 && forall i :: 0 <= i < |s| ==> 'A' <= s[i] <= 'Z'
  {
    match action
    case Feed => "FEED"
    case Relocate => "RELOCATE"
    case Inspire => "INSPIRE"
  }

  datatype NudgeOutcome = NudgeSuccess | NudgeFailed | NudgeIgnored

  datatype NudgeResult = NudgeResult(outcome: NudgeOutcome, message: string, effects: seq<string>)

  datatype LoginResponse = LoginResponse(accessToken: string, user: UserProfile)

  datatype EntitiesResponse = EntitiesResponse(entities: seq<EntityDetail>, total: int, hasMore: bool)

  datatype EventsResponse = EventsResponse(events: seq<Event>, nextCursor: Option<string>)

  datatype AdoptionResponse = AdoptionResponse(adoptionId: string, entityId: string)

  /** The elements of `s` satisfying `p`, in order: `Array.prototype.filter`. */
  function Filter<T(!new)>(s: seq<T>, p: T -> bool): (r: seq<T>)
    ensures |r| <= |s|
    ensures forall x :: x in r <==> x in s && p(x)
    decreases |s|
  {
    if s == [] then []
    else if p(s[0]) then [s[0]] + Filter(s[1..], p)
    else Filter(s[1..], p)
  }

  /**
   * Filtering keeps the relative order: filtering a concatenation is the
   * concatenation of the filtered parts.
   */
  lemma {:induction false} FilterAppend<T(!new)>(a: seq<T>, b: seq<T>, p: T -> bool)
    ensures Filter(a + b, p) == Filter(a, p) + Filter(b, p)
    decreases |a|
  {
    if a == [] {
      assert a + b == b;
    } else {
      assert (a + b)[0] == a[0];
      assert (a + b)[1..] == a[1..] + b;
      FilterAppend(a[1..], b, p);
    }
  }

  /** Filtering with a predicate that holds everywhere changes nothing. */
  lemma {:induction false} FilterAll<T(!new)>(s: seq<T>, p: T -> bool)
    requires forall x :: x in s ==> p(x)
    ensures Filter(s, p) == s
    decreases |s|
  {
    if s != [] {
      FilterAll(s[1..], p);
    }
  }
}

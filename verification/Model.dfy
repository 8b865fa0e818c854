// The authoritative game state (crates/forge-kernel/src/model.rs).
module Model {
  import opened Basics

  /** Positive stock by item; an owner holding none of an item has no entry. */
  type Inventory = map<Id, u32>

  function Count(inventory: Inventory, item: Id): (n: u32) {
    if item in inventory then inventory[item] else 0
  }

  /** Store a balance, leaving no entry for a zero one. */
  function SetCount(inventory: Inventory, item: Id, count: u32): Inventory {
    if count == 0 then inventory - {item} else inventory[item := count]
  }

  datatype FacetValue = Text(text: string) | Number(number: i64) | Boolean(truth: bool) | Tags(tags: set<Id>)

  datatype Character = Character(
    id: Id,
    lineage: string,
    origin: string,
    background: string,
    aptitudes: map<Id, i64>,
    skills: set<Id>,
    values: set<Id>,
    traits: set<Id>,
    flaws: set<Id>,
    appearance: map<Id, string>,
    affiliations: map<Id, i64>,
    reputation: map<Id, i64>,
    knowledge: set<Id>,
    inventory: Inventory,
    resources: map<Id, i64>,
    injuries: set<Id>,
    deeds: set<Id>,
    promises: set<Id>,
    discoveries: set<Id>,
    facets: map<Id, FacetValue>)
  {
    function NumberFacet(values: map<Id, i64>, name: Id): Option<FacetValue> {
      if name in values then Some(Number(values[name])) else None
    }

    /** Resolve the built-in and the extensible axes for conditions. */
    function FacetOf(axis: Id): Option<FacetValue> {
      if axis == "lineage" then Some(Text(lineage))
      else if axis == "origin" then Some(Text(origin))
      else if axis == "background" then Some(Text(background))
      else if axis in {"aptitudes", "skills", "values", "traits", "flaws", "appearance", "affiliations",
                       "reputation", "knowledge", "injuries", "deeds", "promises", "discoveries"} then None
      else if "aptitude." <= axis then NumberFacet(aptitudes, axis[|"aptitude."|..])
      else if "affiliation." <= axis then NumberFacet(affiliations, axis[|"affiliation."|..])
      else if "reputation." <= axis then NumberFacet(reputation, axis[|"reputation."|..])
      else if "appearance." <= axis then
        var name := axis[|"appearance."|..];
        if name in appearance then Some(Text(appearance[name])) else None
      else if axis in facets then Some(facets[axis]) else None
    }

    predicate HasTag(tag: Id) {
      || tag in skills || tag in values || tag in traits || tag in flaws || tag in knowledge
      || tag in injuries || tag in deeds || tag in promises || tag in discoveries
      || exists axis <- facets :: facets[axis].Tags? && tag in facets[axis].tags
    }
  }

  datatype Provenance = Witnessed | Told(teller: Id) | Read(source: string) | Inferred(from: string) | Rumor(origin: Option<Id>)

  datatype ProvenanceKind = IsWitnessed | IsTold | IsRead | IsInferred | IsRumor

  function KindOf(provenance: Provenance): ProvenanceKind {
    match provenance
    case Witnessed => IsWitnessed
    case Told(_) => IsTold
    case Read(_) => IsRead
    case Inferred(_) => IsInferred
    case Rumor(_) => IsRumor
  }

  /** The NPC who must already possess the knowledge being passed on, if any. */
  function KnowledgeSource(provenance: Provenance): Option<Id> {
    match provenance
    case Told(teller) => Some(teller)
    case Rumor(origin) => origin
    case _ => None
  }

  /** A memory or a piece of knowledge, keyed by its id in the NPC's table. */
  datatype Record = Record(subject: string, turn: u64, provenance: Provenance)

  datatype NpcState = NpcState(
    location: Id,
    relationship: i64,
    memories: map<Id, Record>,
    knowledge: map<Id, Record>,
    inventory: Inventory)

  datatype LocationRuntime = LocationRuntime(flags: set<Id>, entities: set<Id>)

  datatype ScheduledEvent = ScheduledEvent(id: Id, due: u64, kind: Id)

  datatype ChoiceSelection = ChoiceSelection(slot: Id, choice: Id)

  datatype CharacterSelection = CharacterSelection(name: string, choices: seq<ChoiceSelection>)

  datatype CharacterStart = Fixture | Preset(preset: Id) | Custom(selection: CharacterSelection)

  const ENTROPY_ALGORITHM := "splitmix64-v1"
  const MAX_ENTROPY_CURSOR: u64 := 0xFFFF_FFFF_FFFF_FFFE

  datatype EntropyState = EntropyState(algorithm: string, seed: u64, cursor: u64)

  datatype World = World(
    time: u64,
    location: Id,
    locations: map<Id, LocationRuntime>,
    npcs: map<Id, NpcState>,
    storages: map<Id, Inventory>,
    flags: set<Id>,
    queue: seq<ScheduledEvent>)

  datatype GameState = GameState(
    world: World,
    character: Character,
    start: CharacterStart,
    entropy: EntropyState,
    log: seq<Event>)

  datatype Event = Event(turn: u64, kind: EventKind)

  datatype EventKind =
    | FlagSet(flag: Id, on: bool)
    | WorldFlagSet(flag: Id, on: bool)
    | LocationFlagSet(location: Id, flag: Id, on: bool)
    | ResourceAdjusted(resource: Id, amount: i64)
    | Moved(origin: Id, destination: Id)
    | NpcMoved(npc: Id, origin: Id, destination: Id)
    | NpcRelationshipAdjusted(npc: Id, amount: i64)
    | NpcMemoryAdded(npc: Id, memory: Id)
    | NpcKnowledgeAdded(npc: Id, knowledge: Id)
    | NpcItemTransferred(npc: Id, item: Id, count: u32)
    | StorageItemWithdrawn(storage: Id, item: Id, count: u32)
    | StorageItemDeposited(storage: Id, item: Id, count: u32)
    | RecipeApplied(recipe: Id, inputs: Inventory, outputs: Inventory)
    | TimeAdvanced(ticks: u64)
    | Resolved(event: Id, eventKind: Id, applied: bool)
    | Scheduled(event: Id, eventKind: Id, due: u64)
    | RandomDraw(algorithm: string, cursor: u64, value: u64)

  /** The order of the pending queue: by due time, then by id. */
  predicate Before(a: ScheduledEvent, b: ScheduledEvent) {
    a.due < b.due || (a.due == b.due && Less(a.id, b.id))
  }
}

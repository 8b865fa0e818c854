// Authored content: conditions, effects, definitions and compilation (crates/forge-kernel/src/content.rs).
module Content {
  import opened Basics
  import opened Model
  import Text

  const OBSERVATION_WORD_LIMIT := 100
  const DEFAULT_ACTION_RESULT := "The action is complete."
  const MAX_AST_DEPTH := 64

  datatype Condition =
    | Always
    | Never
    | All(conditions: seq<Condition>)
    | Any(conditions: seq<Condition>)
    | Not(condition: Condition)
    | FacetEquals(axis: Id, facet: FacetValue)
    | FacetAtLeast(axis: Id, threshold: i64)
    | HasTag(tag: Id)
    | HasItem(item: Id, count: u32)
    | ResourceAtLeast(resource: Id, amount: i64)
    | CharacterKnows(knowledge: Id)
    | CharacterHasDeed(deed: Id)
    | WorldFlag(flag: Id)
    | LocationFlag(location: Id, flag: Id)
    | AtLocation(location: Id)
    | NpcAtLocation(npc: Id, location: Id)
    | NpcKnows(npc: Id, knowledge: Id)
    | NpcKnowsWithProvenance(npc: Id, knowledge: Id, provenance: ProvenanceKind)
    | NpcRemembers(npc: Id, memory: Id)
    | NpcRelationshipAtLeast(npc: Id, amount: i64)
  {
    predicate Holds(s: GameState) {
      match this
      case Always => true
      case Never => false
      case All(conditions) => forall c <- conditions :: c.Holds(s)
      case Any(conditions) => exists c <- conditions :: c.Holds(s)
      case Not(condition) => !condition.Holds(s)
      case FacetEquals(axis, facet) => s.character.FacetOf(axis) == Some(facet)
      case FacetAtLeast(axis, threshold) =>
        var facet := s.character.FacetOf(axis);
        facet.Some? && facet.value.Number? && facet.value.number >= threshold
      case HasTag(tag) => s.character.HasTag(tag)
      case HasItem(item, count) => item in s.character.inventory && s.character.inventory[item] >= count
      case ResourceAtLeast(resource, amount) =>
        (if resource in s.character.resources then s.character.resources[resource] else 0) >= amount
      case CharacterKnows(knowledge) => knowledge in s.character.knowledge
      case CharacterHasDeed(deed) => deed in s.character.deeds
      case WorldFlag(flag) => flag in s.world.flags
      case LocationFlag(location, flag) =>
        location in s.world.locations && flag in s.world.locations[location].flags
      case AtLocation(location) => s.world.location == location
      case NpcAtLocation(npc, location) => npc in s.world.npcs && s.world.npcs[npc].location == location
      case NpcKnows(npc, knowledge) => npc in s.world.npcs && knowledge in s.world.npcs[npc].knowledge
      case NpcKnowsWithProvenance(npc, knowledge, provenance) =>
        && npc in s.world.npcs && knowledge in s.world.npcs[npc].knowledge
        && KindOf(s.world.npcs[npc].knowledge[knowledge].provenance) == provenance
      case NpcRemembers(npc, memory) => npc in s.world.npcs && memory in s.world.npcs[npc].memories
      case NpcRelationshipAtLeast(npc, amount) =>
        (if npc in s.world.npcs then s.world.npcs[npc].relationship else 0) >= amount
    }
  }

  datatype StringRef = Literal(value: Id) | Parameter(name: Id)

  datatype Effect =
    | Noop
    | SetFlag(flag: Id, on: bool)
    | SetWorldFlag(flag: Id, on: bool)
    | SetLocationFlag(place: StringRef, flag: Id, on: bool)
    | AdjustResource(resource: Id, amount: i64)
    | MoveCharacter(place: StringRef)
    | MoveNpc(npc: StringRef, place: StringRef)
    | AdjustNpcRelationship(npc: StringRef, amount: i64)
    | AddNpcMemory(npc: StringRef, memory: Id, subject: string, provenance: Provenance)
    | TeachNpc(npc: StringRef, knowledge: Id, subject: string, provenance: Provenance)
    | TransferNpcItemToCharacter(npc: StringRef, item: Id, count: u32)
    | TransferStorageItemToCharacter(storage: Id, item: Id, count: u32)
    | TransferCharacterItemToStorage(storage: Id, item: Id, count: u32)
    | ApplyRecipe(recipe: Id)
    | ScheduleEvent(event: Id)
    | AddCharacterDeed(deed: Id)
    | AdvanceTime(ticks: u64)
    | RandomChance(percent: nat, onSuccess: Effect, onFailure: Effect)

  datatype TextVariant = TextVariant(id: Id, priority: int, condition: Condition, text: string)

  datatype LocationDefinition = LocationDefinition(
    id: Id, name: string, description: string, variants: seq<TextVariant>, exits: seq<Id>)

  datatype NpcDefinition = NpcDefinition(id: Id, location: Id, inventory: Inventory)

  datatype StorageDefinition = StorageDefinition(id: Id, location: Id, inventory: Inventory)

  datatype RecipeDefinition = RecipeDefinition(id: Id, inputs: Inventory, outputs: Inventory)

  datatype TimedEvent = TimedEvent(
    id: Id, due: u64, kind: Id, caption: string, result: string, condition: Condition, effects: seq<Effect>)

  datatype DeferredEvent = DeferredEvent(
    id: Id, delay: u64, kind: Id, caption: string, result: string, condition: Condition, effects: seq<Effect>)

  datatype ParameterDomain = Values(values: seq<Id>) | InventoryItems | NpcsAtCurrentLocation | LocationsAdjacent

  datatype ParameterSpec = ParameterSpec(name: Id, domain: ParameterDomain)

  datatype ActionDefinition = ActionDefinition(
    id: Id, caption: string, result: string, variants: seq<TextVariant>, locations: seq<Id>,
    condition: Condition, effects: seq<Effect>, parameters: seq<ParameterSpec>)

  datatype CharacterPatch = CharacterPatch(
    lineage: Option<string>,
    origin: Option<string>,
    background: Option<string>,
    aptitudes: map<Id, i64>,
    skills: set<Id>,
    values: set<Id>,
    traits: set<Id>,
    flaws: set<Id>,
    appearance: map<Id, string>,
    affiliations: map<Id, i64>,
    reputation: map<Id, i64>,
    knowledge: set<Id>,
    inventory: Inventory,
    resources: map<Id, i64>,
    injuries: set<Id>,
    deeds: set<Id>,
    promises: set<Id>,
    discoveries: set<Id>,
    facets: map<Id, FacetValue>)

  datatype CreationChoice = CreationChoice(id: Id, patch: CharacterPatch)

  datatype CreationSlot = CreationSlot(id: Id, order: nat, choices: seq<CreationChoice>)

  datatype CreationDefinition = CreationDefinition(base: CharacterPatch, slots: seq<CreationSlot>)

  datatype CharacterPreset = CharacterPreset(id: Id, character: Character)

  datatype SupplyLabels = SupplyLabels(items: map<Id, string>, resources: map<Id, string>)

  /** Untrusted authoring input of production content. */
  datatype Draft = Draft(
    startLocation: Id,
    presets: seq<CharacterPreset>,
    creation: Option<CreationDefinition>,
    labels: SupplyLabels,
    locations: seq<LocationDefinition>,
    npcs: seq<NpcDefinition>,
    storages: seq<StorageDefinition>,
    timedEvents: seq<TimedEvent>,
    deferredEvents: seq<DeferredEvent>,
    recipes: seq<RecipeDefinition>,
    actions: seq<ActionDefinition>)

  /** Compiled content: every definition indexed by its id. */
  datatype Compiled = Compiled(
    startLocation: Id,
    presets: map<Id, CharacterPreset>,
    creation: Option<CreationDefinition>,
    labels: SupplyLabels,
    locations: map<Id, LocationDefinition>,
    npcs: map<Id, NpcDefinition>,
    storages: map<Id, StorageDefinition>,
    timedEvents: map<Id, TimedEvent>,
    deferredEvents: map<Id, DeferredEvent>,
    recipes: map<Id, RecipeDefinition>,
    actions: map<Id, ActionDefinition>)

  function LocationKey(x: LocationDefinition): Id { x.id }
  function NpcKey(x: NpcDefinition): Id { x.id }
  function StorageKey(x: StorageDefinition): Id { x.id }
  function TimedKey(x: TimedEvent): Id { x.id }
  function DeferredKey(x: DeferredEvent): Id { x.id }
  function RecipeKey(x: RecipeDefinition): Id { x.id }
  function ActionKey(x: ActionDefinition): Id { x.id }
  function PresetKey(x: CharacterPreset): Id { x.id }
  function SlotKey(x: CreationSlot): Id { x.id }
  function ChoiceKey(x: CreationChoice): Id { x.id }

  // ---- Selecting text ----

  /** Higher priority first, then the smaller id. */
  predicate Outranks(a: TextVariant, b: TextVariant) {
    a.priority > b.priority || (a.priority == b.priority && Less(a.id, b.id))
  }

  function BestVariant(variants: seq<TextVariant>, s: GameState): Option<TextVariant> {
    if variants == [] then None
    else
      var earlier := BestVariant(variants[..|variants| - 1], s);
      var last := variants[|variants| - 1];
      if last.condition.Holds(s) && (earlier.None? || Outranks(last, earlier.value)) then Some(last) else earlier
  }

  function SelectText(fallback: string, variants: seq<TextVariant>, s: GameState): string {
    var best := BestVariant(variants, s);
    if best.Some? then best.value.text else fallback
  }

  function ShownResult(action: ActionDefinition): string {
    if Text.Blank(action.result) then DEFAULT_ACTION_RESULT else action.result
  }

  /** A label when authored, otherwise the exact identifier. */
  function LabelOf(labels: map<Id, string>, id: Id): string {
    if id in labels then labels[id] else id
  }

  // ---- Compilation ----

  function LeastLocation(locations: seq<LocationDefinition>): Id {
    if locations == [] then ""
    else if |locations| == 1 then locations[0].id
    else
      var least := LeastLocation(locations[1..]);
      if Less(least, locations[0].id) then least else locations[0].id
  }

  predicate SlotBefore(a: CreationSlot, b: CreationSlot) {
    a.order < b.order || (a.order == b.order && Less(a.id, b.id))
  }

  function InsertSlot(sorted: seq<CreationSlot>, slot: CreationSlot): seq<CreationSlot> {
    if sorted != [] && SlotBefore(slot, sorted[|sorted| - 1])
    then InsertSlot(sorted[..|sorted| - 1], slot) + [sorted[|sorted| - 1]]
    else sorted + [slot]
  }

  /** The creation slots in (order, id) order; equal slots keep their order. */
  function SortSlots(slots: seq<CreationSlot>): seq<CreationSlot> {
    if slots == [] then [] else InsertSlot(SortSlots(slots[..|slots| - 1]), slots[|slots| - 1])
  }

  function Compile(d: Draft): Compiled {
    Compiled(
      if Text.Blank(d.startLocation) then LeastLocation(d.locations) else d.startLocation,
      Table(d.presets, PresetKey),
      if d.creation.None? then None
      else Some(CreationDefinition(d.creation.value.base, SortSlots(d.creation.value.slots))),
      d.labels,
      Table(d.locations, LocationKey),
      Table(d.npcs, NpcKey),
      Table(d.storages, StorageKey),
      Table(d.timedEvents, TimedKey),
      Table(d.deferredEvents, DeferredKey),
      Table(d.recipes, RecipeKey),
      Table(d.actions, ActionKey))
  }
}

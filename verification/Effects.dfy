// The reducer's effects and due events (crates/forge-kernel/src/reducer.rs).
module Effects {
  import opened Basics
  import opened Model
  import opened Content

  datatype KernelError =
    | IllegalAction
    | MissingParameter
    | EmptyFlag
    | UnknownLocation
    | UnknownNpc
    | UnknownStorage
    | UnknownRecipe
    | UnknownEvent
    | NotAtStorage
    | ZeroCount
    | LacksStock
    | InventoryFull
    | SourceLacksKnowledge
    | AlreadyScheduled
    | Overflow
    | BrokenIndex
    | ChanceAbove100
    | EntropyUnsupported
    | EntropyExhausted
    | EventDiffers

  /** The value drawn for a seed at a cursor; every statement holds for all streams. */
  type Stream = (u64, u64) -> u64

  type Parameters = map<Id, Id>

  /** The state being staged, the entropy cursor and the events emitted so far. */
  datatype Machine = Machine(state: GameState, entropy: EntropyState, events: seq<Event>)

  type Outcome = Result<Machine, KernelError>

  /** The machine a transition begins with. */
  function Start(s: GameState): Machine {
    Machine(s, s.entropy, [])
  }

  function Emit(m: Machine, world: World, character: Character, kind: EventKind): Machine {
    Machine(m.state.(world := world, character := character), m.entropy, m.events + [Event(m.state.world.time, kind)])
  }

  function EmitWorld(m: Machine, world: World, kind: EventKind): Machine {
    Emit(m, world, m.state.character, kind)
  }

  function EmitCharacter(m: Machine, character: Character, kind: EventKind): Machine {
    Emit(m, m.state.world, character, kind)
  }

  function Resolve(reference: StringRef, parameters: Parameters): Option<Id> {
    match reference
    case Literal(value) => Some(value)
    case Parameter(name) => if name in parameters then Some(parameters[name]) else None
  }

  function Toggle(flags: set<Id>, flag: Id, on: bool): set<Id> {
    if on then flags + {flag} else flags - {flag}
  }

  function WithNpc(world: World, npc: Id, updated: NpcState): World {
    world.(npcs := world.npcs[npc := updated])
  }

  function WithPlace(world: World, place: Id, updated: LocationRuntime): World {
    world.(locations := world.locations[place := updated])
  }

  // ---- Inventory effects ----

  function TransferFromNpc(m: Machine, npc: Id, item: Id, count: u32): Outcome {
    var w := m.state.world;
    var held := if npc in w.npcs then Count(w.npcs[npc].inventory, item) else 0;
    var carried := Count(m.state.character.inventory, item);
    if count == 0 then Err(ZeroCount)
    else if held < count then Err(LacksStock)
    else if carried + count > U32_MAX then Err(InventoryFull)
    else if npc !in w.npcs then Err(UnknownNpc)
    else Ok(Emit(
      m,
      WithNpc(w, npc, w.npcs[npc].(inventory := SetCount(w.npcs[npc].inventory, item, held - count))),
      m.state.character.(inventory := m.state.character.inventory[item := carried + count]),
      NpcItemTransferred(npc, item, count)))
  }

  function TransferWithStorage(
    c: Compiled, m: Machine, storage: Id, item: Id, count: u32, withdrawing: bool): Outcome
  {
    var w := m.state.world;
    if count == 0 then Err(ZeroCount)
    else if storage !in c.storages then Err(UnknownStorage)
    else if w.location != c.storages[storage].location then Err(NotAtStorage)
    else if storage !in w.storages then Err(UnknownStorage)
    else
      var stored := Count(w.storages[storage], item);
      var carried := Count(m.state.character.inventory, item);
      var source := if withdrawing then stored else carried;
      var target := if withdrawing then carried else stored;
      if source < count then Err(LacksStock)
      else if target + count > U32_MAX then Err(InventoryFull)
      else
        var nextStored := if withdrawing then stored - count else stored + count;
        var nextCarried := if withdrawing then carried + count else carried - count;
        Ok(Emit(
          m,
          w.(storages := w.storages[storage := SetCount(w.storages[storage], item, nextStored)]),
          m.state.character.(inventory := SetCount(m.state.character.inventory, item, nextCarried)),
          if withdrawing then StorageItemWithdrawn(storage, item, count)
          else StorageItemDeposited(storage, item, count)))
  }

  predicate HasInputs(inventory: Inventory, inputs: Inventory) {
    forall item <- inputs :: inputs[item] <= Count(inventory, item)
  }

  predicate HasRoom(inventory: Inventory, inputs: Inventory, outputs: Inventory) {
    forall item <- outputs :: Count(inventory, item) - Count(inputs, item) + outputs[item] <= U32_MAX
  }

  /** Items consumed to zero lose their entry; produced items always have one. */
  function AfterRecipe(inventory: Inventory, inputs: Inventory, outputs: Inventory): Inventory
    requires HasInputs(inventory, inputs) && HasRoom(inventory, inputs, outputs)
  {
    map item | item in inventory.Keys + outputs.Keys
               && (item in outputs || item !in inputs || Count(inventory, item) != inputs[item])
      :: Count(inventory, item) - Count(inputs, item) + Count(outputs, item)
  }

  function Craft(c: Compiled, m: Machine, recipe: Id): Outcome {
    if recipe !in c.recipes then Err(UnknownRecipe)
    else
      var r := c.recipes[recipe];
      var inventory := m.state.character.inventory;
      if !HasInputs(inventory, r.inputs) then Err(LacksStock)
      else if !HasRoom(inventory, r.inputs, r.outputs) then Err(InventoryFull)
      else Ok(EmitCharacter(
        m,
        m.state.character.(inventory := AfterRecipe(inventory, r.inputs, r.outputs)),
        RecipeApplied(recipe, r.inputs, r.outputs)))
  }

  // ---- Scheduling ----

  predicate UsedIn(events: seq<Event>, id: Id) {
    exists e <- events :: (e.kind.Scheduled? || e.kind.Resolved?) && e.kind.event == id
  }

  predicate Pending(queue: seq<ScheduledEvent>, id: Id) {
    exists e <- queue :: e.id == id
  }

  predicate AlreadyUsed(m: Machine, id: Id) {
    Pending(m.state.world.queue, id) || UsedIn(m.state.log, id) || UsedIn(m.events, id)
  }

  /** Insert into a queue kept in (due, id) order. */
  function Enqueue(queue: seq<ScheduledEvent>, e: ScheduledEvent): seq<ScheduledEvent> {
    if queue != [] && Before(e, queue[|queue| - 1])
    then Enqueue(queue[..|queue| - 1], e) + [queue[|queue| - 1]]
    else queue + [e]
  }

  lemma {:induction false} EnqueueMembers(queue: seq<ScheduledEvent>, e: ScheduledEvent, x: ScheduledEvent)
    ensures x in Enqueue(queue, e) <==> x in queue || x == e
    decreases |queue|
  {
    if queue != [] && Before(e, queue[|queue| - 1]) {
      EnqueueMembers(queue[..|queue| - 1], e, x);
      assert queue == queue[..|queue| - 1] + [queue[|queue| - 1]];
    }
  }

  function Schedule(c: Compiled, m: Machine, event: Id): Outcome {
    var w := m.state.world;
    if event !in c.deferredEvents then Err(UnknownEvent)
    else if AlreadyUsed(m, event) then Err(AlreadyScheduled)
    else if w.time + c.deferredEvents[event].delay > U64_MAX then Err(Overflow)
    else
      var due := w.time + c.deferredEvents[event].delay;
      var kind := c.deferredEvents[event].kind;
      Ok(EmitWorld(
        m,
        w.(queue := Enqueue(w.queue, ScheduledEvent(event, due, kind))),
        EventKind.Scheduled(event, kind, due)))
  }

  // ---- The other effects ----

  function RelocateNpc(c: Compiled, m: Machine, npc: Id, place: Id): Outcome {
    var w := m.state.world;
    if npc !in c.npcs then Err(UnknownNpc)
    else if place !in c.locations || place !in w.locations then Err(UnknownLocation)
    else if npc !in w.npcs then Err(UnknownNpc)
    else
      var origin := w.npcs[npc].location;
      if origin !in w.locations || npc !in w.locations[origin].entities then Err(BrokenIndex)
      else if origin == place then Ok(m)
      else if npc in w.locations[place].entities then Err(BrokenIndex)
      else
        var left := WithPlace(w, origin, w.locations[origin].(entities := w.locations[origin].entities - {npc}));
        var entered := WithPlace(left, place, w.locations[place].(entities := w.locations[place].entities + {npc}));
        Ok(EmitWorld(
          m, WithNpc(entered, npc, w.npcs[npc].(location := place)), EventKind.NpcMoved(npc, origin, place)))
  }

  function Teach(m: Machine, npc: Id, knowledge: Id, subject: string, provenance: Provenance): Outcome {
    var w := m.state.world;
    if npc !in w.npcs then Err(UnknownNpc)
    else Ok(EmitWorld(
      m,
      WithNpc(w, npc, w.npcs[npc].(
        knowledge := w.npcs[npc].knowledge[knowledge := Record(subject, w.time, provenance)])),
      NpcKnowledgeAdded(npc, knowledge)))
  }

  predicate SourceKnows(w: World, provenance: Provenance, knowledge: Id) {
    var source := KnowledgeSource(provenance);
    source.Some? ==> source.value in w.npcs && knowledge in w.npcs[source.value].knowledge
  }

  function Draw(stream: Stream, entropy: EntropyState): Result<u64, KernelError> {
    if entropy.algorithm != ENTROPY_ALGORITHM then Err(EntropyUnsupported)
    else if entropy.cursor >= MAX_ENTROPY_CURSOR then Err(EntropyExhausted)
    else Ok(stream(entropy.seed, entropy.cursor))
  }

  /** Everything but a random choice. */
  function ApplyPlain(c: Compiled, parameters: Parameters, effect: Effect, m: Machine): Outcome
    requires !effect.RandomChance?
  {
    var w := m.state.world;
    var ch := m.state.character;
    match effect
    case Noop => Ok(m)
    case SetFlag(flag, on) =>
      if flag == "" then Err(EmptyFlag)
      else Ok(EmitWorld(m, w.(flags := Toggle(w.flags, flag, on)), WorldFlagSet(flag, on)))
    case SetWorldFlag(flag, on) =>
      if flag == "" then Err(EmptyFlag)
      else Ok(EmitWorld(m, w.(flags := Toggle(w.flags, flag, on)), WorldFlagSet(flag, on)))
    case SetLocationFlag(reference, flag, on) =>
      var place := Resolve(reference, parameters);
      if place.None? then Err(MissingParameter)
      else if place.value !in w.locations then Err(UnknownLocation)
      else
        var runtime := w.locations[place.value];
        Ok(EmitWorld(
          m, WithPlace(w, place.value, runtime.(flags := Toggle(runtime.flags, flag, on))),
          LocationFlagSet(place.value, flag, on)))
    case AdjustResource(resource, amount) =>
      var next := (if resource in ch.resources then ch.resources[resource] else 0) + amount;
      if !(I64_MIN <= next <= I64_MAX) then Err(Overflow)
      else Ok(EmitCharacter(
        m, ch.(resources := ch.resources[resource := next]), ResourceAdjusted(resource, amount)))
    case MoveCharacter(reference) =>
      var place := Resolve(reference, parameters);
      if place.None? then Err(MissingParameter)
      else if place.value !in c.locations || place.value !in w.locations then Err(UnknownLocation)
      else Ok(EmitWorld(m, w.(location := place.value), Moved(w.location, place.value)))
    case MoveNpc(npcRef, placeRef) =>
      var npc, place := Resolve(npcRef, parameters), Resolve(placeRef, parameters);
      if npc.None? || place.None? then Err(MissingParameter)
      else RelocateNpc(c, m, npc.value, place.value)
    case AdjustNpcRelationship(reference, amount) =>
      var npc := Resolve(reference, parameters);
      if npc.None? then Err(MissingParameter)
      else if npc.value !in w.npcs then Err(UnknownNpc)
      else
        var next := w.npcs[npc.value].relationship + amount;
        if !(I64_MIN <= next <= I64_MAX) then Err(Overflow)
        else Ok(EmitWorld(
          m, WithNpc(w, npc.value, w.npcs[npc.value].(relationship := next)),
          NpcRelationshipAdjusted(npc.value, amount)))
    case AddNpcMemory(reference, memory, subject, provenance) =>
      var npc := Resolve(reference, parameters);
      if npc.None? then Err(MissingParameter)
      else if npc.value !in w.npcs then Err(UnknownNpc)
      else Ok(EmitWorld(
        m,
        WithNpc(w, npc.value, w.npcs[npc.value].(
          memories := w.npcs[npc.value].memories[memory := Record(subject, w.time, provenance)])),
        NpcMemoryAdded(npc.value, memory)))
    case TeachNpc(reference, knowledge, subject, provenance) =>
      if !SourceKnows(w, provenance, knowledge) then Err(SourceLacksKnowledge)
      else
        var npc := Resolve(reference, parameters);
        if npc.None? then Err(MissingParameter) else Teach(m, npc.value, knowledge, subject, provenance)
    case TransferNpcItemToCharacter(reference, item, count) =>
      var npc := Resolve(reference, parameters);
      if count == 0 then Err(ZeroCount)
      else if npc.None? then Err(MissingParameter)
      else TransferFromNpc(m, npc.value, item, count)
    case TransferStorageItemToCharacter(storage, item, count) =>
      TransferWithStorage(c, m, storage, item, count, true)
    case TransferCharacterItemToStorage(storage, item, count) =>
      TransferWithStorage(c, m, storage, item, count, false)
    case ApplyRecipe(recipe) => Craft(c, m, recipe)
    case ScheduleEvent(event) => Schedule(c, m, event)
    case AddCharacterDeed(deed) =>
      Ok(EmitCharacter(m, ch.(deeds := ch.deeds + {deed}), FlagSet("deed:" + deed, true)))
    case AdvanceTime(ticks) =>
      if w.time + ticks > U64_MAX then Err(Overflow)
      else Ok(EmitWorld(m, w.(time := w.time + ticks), TimeAdvanced(ticks)))
  }

  /** The machine after a draw was spent, and whether the draw was a success. */
  function Chance(stream: Stream, percent: nat, m: Machine): Result<(Machine, bool), KernelError> {
    if percent > 100 then Err(ChanceAbove100)
    else
      var value := Draw(stream, m.entropy);
      if value.Err? then Err(value.error)
      else
        var spent := Machine(
          m.state, m.entropy.(cursor := m.entropy.cursor + 1),
          m.events + [Event(m.state.world.time, RandomDraw(m.entropy.algorithm, m.entropy.cursor, value.value))]);
        Ok((spent, value.value % 100 < percent))
  }

  function ApplyEffect(c: Compiled, stream: Stream, parameters: Parameters, effect: Effect, m: Machine): Outcome
    decreases effect
  {
    match effect
    case RandomChance(percent, onSuccess, onFailure) =>
      var drawn := Chance(stream, percent, m);
      if drawn.Err? then Err(drawn.error)
      else ApplyEffect(c, stream, parameters, if drawn.value.1 then onSuccess else onFailure, drawn.value.0)
    case _ => ApplyPlain(c, parameters, effect, m)
  }

  /** Effects run in order; the first failure aborts the program. */
  function ApplyEffects(c: Compiled, stream: Stream, parameters: Parameters, effects: seq<Effect>, m: Machine): Outcome {
    if effects == [] then Ok(m)
    else
      var next := ApplyEffect(c, stream, parameters, effects[0], m);
      if next.Err? then next else ApplyEffects(c, stream, parameters, effects[1..], next.value)
  }

  // ---- Due events ----

  function DueCount(queue: seq<ScheduledEvent>, time: u64): (n: nat)
    ensures n <= |queue|
  {
    if queue == [] || queue[0].due > time then 0 else 1 + DueCount(queue[1..], time)
  }

  datatype Program = Program(condition: Condition, effects: seq<Effect>)

  function ProgramOf(c: Compiled, e: ScheduledEvent): Option<Program> {
    if e.id in c.timedEvents then
      var definition := c.timedEvents[e.id];
      if definition.due == e.due && definition.kind == e.kind
      then Some(Program(definition.condition, definition.effects)) else None
    else if e.id in c.deferredEvents then
      var definition := c.deferredEvents[e.id];
      if definition.kind == e.kind then Some(Program(definition.condition, definition.effects)) else None
    else None
  }

  function ResolveOne(c: Compiled, stream: Stream, e: ScheduledEvent, m: Machine): Outcome {
    var program := ProgramOf(c, e);
    if program.None? then Err(EventDiffers)
    else
      var applied := program.value.condition.Holds(m.state);
      var noted := EmitWorld(m, m.state.world, Resolved(e.id, e.kind, applied));
      if applied then ApplyEffects(c, stream, map[], program.value.effects, noted) else Ok(noted)
  }

  function ResolveAll(c: Compiled, stream: Stream, due: seq<ScheduledEvent>, m: Machine): Outcome {
    if due == [] then Ok(m)
    else
      var next := ResolveOne(c, stream, due[0], m);
      if next.Err? then next else ResolveAll(c, stream, due[1..], next.value)
  }

  function DueNow(m: Machine): seq<ScheduledEvent> {
    m.state.world.queue[..DueCount(m.state.world.queue, m.state.world.time)]
  }

  function WithoutDue(m: Machine): Machine {
    var w := m.state.world;
    m.(state := m.state.(world := w.(queue := w.queue[DueCount(w.queue, w.time)..])))
  }

  function ResolveDue(c: Compiled, stream: Stream, m: Machine): Outcome {
    ResolveAll(c, stream, DueNow(m), WithoutDue(m))
  }
}

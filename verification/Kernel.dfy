// Transitions (crates/forge-kernel/src/reducer.rs), the authored starts of a game, and runs.
module Kernel {
  import opened Basics
  import opened Model
  import opened Content
  import opened Effects
  import Availability
  import Text
  import Creation

  // ---- Transitions ----

  datatype Transition = Transition(action: Id, events: seq<Event>, state: GameState)

  predicate DomainAllows(c: Compiled, s: GameState, domain: ParameterDomain, value: Id) {
    match domain
    case Values(values) => value in values
    case InventoryItems => Count(s.character.inventory, value) > 0
    case NpcsAtCurrentLocation => value in s.world.npcs && s.world.npcs[value].location == s.world.location
    case LocationsAdjacent =>
      s.world.location in c.locations && value in c.locations[s.world.location].exits && value in c.locations
  }

  /** A candidate of the legal set, before its inventory is considered. */
  predicate Legal(c: Compiled, s: GameState, action: Id, parameters: Parameters) {
    && action in c.actions
    && var definition := c.actions[action];
    && (definition.locations == [] || s.world.location in definition.locations)
    && definition.condition.Holds(s)
    && parameters.Keys == (set p <- definition.parameters :: p.name)
    && forall p <- definition.parameters :: DomainAllows(c, s, p.domain, parameters[p.name])
  }

  /** A member of the legal set (enumerate_legal_actions). */
  predicate Enumerated(c: Compiled, s: GameState, action: Id, parameters: Parameters) {
    Legal(c, s, action, parameters) && Availability.Available(c, parameters, c.actions[action].effects, s)
  }

  function Commit(action: Id, m: Machine): Transition {
    Transition(action, m.events, m.state.(entropy := m.entropy, log := m.state.log + m.events))
  }

  /** One canonical action: its effects, then every event that became due. */
  function Step(c: Compiled, stream: Stream, s: GameState, action: Id, parameters: Parameters)
    : Result<Transition, KernelError>
  {
    if !Enumerated(c, s, action, parameters) then Err(IllegalAction)
    else
      var acted := ApplyEffects(c, stream, parameters, c.actions[action].effects, Start(s));
      if acted.Err? then Err(acted.error)
      else
        var settled := ResolveDue(c, stream, acted.value);
        if settled.Err? then Err(settled.error) else Ok(Commit(action, settled.value))
  }

  // ---- Authored starts ----

  function EnqueueAll(events: seq<ScheduledEvent>): seq<ScheduledEvent> {
    if events == [] then [] else Enqueue(EnqueueAll(events[..|events| - 1]), events[|events| - 1])
  }

  /** The values of a pending table in (due, id) order. */
  function SortedQueue(pending: map<Id, ScheduledEvent>): seq<ScheduledEvent> {
    var keys := SortedKeys(pending.Keys);
    EnqueueAll(seq(|keys|, i requires 0 <= i < |keys| => pending[keys[i]]))
  }

  function AbsoluteEvents(c: Compiled): map<Id, ScheduledEvent> {
    map id <- c.timedEvents :: ScheduledEvent(id, c.timedEvents[id].due, c.timedEvents[id].kind)
  }

  function NewGame(c: Compiled, character: Character, start: CharacterStart, seed: u64): GameState {
    var world := World(
      0,
      c.startLocation,
      map l <- c.locations :: LocationRuntime({}, set n | n in c.npcs && c.npcs[n].location == l),
      map n <- c.npcs :: NpcState(c.npcs[n].location, 0, map[], map[], c.npcs[n].inventory),
      map b <- c.storages :: c.storages[b].inventory,
      {},
      SortedQueue(AbsoluteEvents(c)));
    GameState(world, character, start, EntropyState(ENTROPY_ALGORITHM, seed, 0), [])
  }

  /** Stock entries that state validation accepts when a game is created. */
  predicate ValidStock(inventory: Inventory) {
    forall item <- inventory :: !Text.Blank(item) && inventory[item] > 0
  }

  /** A character an authored preset or a canonical custom selection can start with. */
  ghost predicate AuthoredCharacter(c: Compiled, character: Character, start: CharacterStart) {
    ValidStock(character.inventory) &&
    match start
    case Fixture => false
    case Preset(preset) => preset in c.presets && c.presets[preset].character == character
    case Custom(selection) =>
      && c.creation.Some?
      && Creation.CanonicalChoices(c.creation.value.slots, selection.choices)
      && Creation.CustomCharacter(c.creation.value, character.id, selection.choices) == Ok(character)
  }

  ghost predicate AuthoredStart(c: Compiled, s: GameState) {
    AuthoredCharacter(c, s.character, s.start) && s == NewGame(c, s.character, s.start, s.entropy.seed)
  }

  // ---- Runs ----

  datatype Command = Command(action: Id, parameters: Parameters)

  function Play(c: Compiled, stream: Stream, s: GameState, commands: seq<Command>): Result<GameState, KernelError> {
    if commands == [] then Ok(s)
    else
      var last := commands[|commands| - 1];
      var earlier := Play(c, stream, s, commands[..|commands| - 1]);
      if earlier.Err? then earlier
      else
        var step := Step(c, stream, earlier.value, last.action, last.parameters);
        if step.Err? then Err(step.error) else Ok(step.value.state)
  }

  /** A state some canonical run from an authored start arrives at. */
  ghost predicate Reachable(c: Compiled, stream: Stream, s: GameState) {
    exists start, commands :: AuthoredStart(c, start) && Play(c, stream, start, commands) == Ok(s)
  }
}

// Which candidates are offered: interval stock bounds and the exact path preflight (crates/forge-kernel/src/reducer.rs).
module Availability {
  import opened Basics
  import opened Model
  import opened Content
  import opened Effects

  // ---- Interval bounds on every owner's stock ----

  datatype StockOwner = OfCharacter | OfNpc(npc: Id) | OfStorage(storage: Id)

  datatype Range = Range(minimum: u32, maximum: u32)

  /** Ranges for what a program touched so far, the latest time it can have reached, and what it scheduled. */
  datatype Bounds = Bounds(counts: map<(StockOwner, Id), Range>, latest: Option<u64>, scheduled: set<Id>)

  function StockOf(s: GameState, owner: StockOwner): Inventory {
    match owner
    case OfCharacter => s.character.inventory
    case OfNpc(npc) => if npc in s.world.npcs then s.world.npcs[npc].inventory else map[]
    case OfStorage(storage) => if storage in s.world.storages then s.world.storages[storage] else map[]
  }

  function RangeOf(initial: GameState, b: Bounds, owner: StockOwner, item: Id): Range {
    if (owner, item) in b.counts then b.counts[(owner, item)]
    else Range(Count(StockOf(initial, owner), item), Count(StockOf(initial, owner), item))
  }

  function ConsumeRange(initial: GameState, b: Bounds, owner: StockOwner, item: Id, count: u32): Option<Bounds> {
    var r := RangeOf(initial, b, owner, item);
    if r.minimum < count || r.maximum < count then None
    else Some(b.(counts := b.counts[(owner, item) := Range(r.minimum - count, r.maximum - count)]))
  }

  function ProduceRange(initial: GameState, b: Bounds, owner: StockOwner, item: Id, count: u32): Option<Bounds> {
    var r := RangeOf(initial, b, owner, item);
    if r.minimum + count > U32_MAX || r.maximum + count > U32_MAX then None
    else Some(b.(counts := b.counts[(owner, item) := Range(r.minimum + count, r.maximum + count)]))
  }

  function MoveRange(initial: GameState, b: Bounds, source: StockOwner, target: StockOwner, item: Id, count: u32)
    : Option<Bounds>
  {
    var taken := ConsumeRange(initial, b, source, item, count);
    if taken.None? then None else ProduceRange(initial, taken.value, target, item, count)
  }

  function ConsumeAll(initial: GameState, b: Bounds, items: seq<Id>, inputs: Inventory): Option<Bounds>
    decreases |items|
  {
    if items == [] then Some(b)
    else
      var next := ConsumeRange(initial, b, OfCharacter, items[0], Count(inputs, items[0]));
      if next.None? then None else ConsumeAll(initial, next.value, items[1..], inputs)
  }

  function ProduceAll(initial: GameState, b: Bounds, items: seq<Id>, outputs: Inventory): Option<Bounds>
    decreases |items|
  {
    if items == [] then Some(b)
    else
      var next := ProduceRange(initial, b, OfCharacter, items[0], Count(outputs, items[0]));
      if next.None? then None else ProduceAll(initial, next.value, items[1..], outputs)
  }

  function MergeBounds(initial: GameState, a: Bounds, b: Bounds): Bounds {
    Bounds(
      map key | key in a.counts.Keys + b.counts.Keys ::
        var left := RangeOf(initial, a, key.0, key.1);
        var right := RangeOf(initial, b, key.0, key.1);
        Range(Min(left.minimum, right.minimum), Max(left.maximum, right.maximum)),
      if a.latest.Some? && b.latest.Some? then Some(Max(a.latest.value, b.latest.value)) else None,
      a.scheduled + b.scheduled)
  }

  function Later(time: Option<u64>, ticks: u64): Option<u64> {
    if time.None? then None else CheckedAdd64(time.value, ticks)
  }

  /** inventory_effect_available; None when the effect is not available on some reachable branch. */
  function BoundsAfter(c: Compiled, parameters: Parameters, initial: GameState, e: Effect, b: Bounds): Option<Bounds>
    decreases e
  {
    match e
    case TransferNpcItemToCharacter(reference, item, count) =>
      var npc := Resolve(reference, parameters);
      if npc.None? then None else MoveRange(initial, b, OfNpc(npc.value), OfCharacter, item, count)
    case TransferStorageItemToCharacter(storage, item, count) =>
      MoveRange(initial, b, OfStorage(storage), OfCharacter, item, count)
    case TransferCharacterItemToStorage(storage, item, count) =>
      MoveRange(initial, b, OfCharacter, OfStorage(storage), item, count)
    case ApplyRecipe(recipe) =>
      if recipe !in c.recipes then None
      else
        var r := c.recipes[recipe];
        var taken := ConsumeAll(initial, b, SortedKeys(r.inputs.Keys), r.inputs);
        if taken.None? then None else ProduceAll(initial, taken.value, SortedKeys(r.outputs.Keys), r.outputs)
    case ScheduleEvent(event) =>
      if event !in c.deferredEvents || AlreadyUsed(Start(initial), event) || event in b.scheduled then None
      else if Later(b.latest, c.deferredEvents[event].delay).None? then None
      else Some(b.(scheduled := b.scheduled + {event}))
    case AdvanceTime(ticks) => Some(b.(latest := Later(b.latest, ticks)))
    case RandomChance(percent, onSuccess, onFailure) =>
      if percent == 0 then BoundsAfter(c, parameters, initial, onFailure, b)
      else if percent == 100 then BoundsAfter(c, parameters, initial, onSuccess, b)
      else
        var success := BoundsAfter(c, parameters, initial, onSuccess, b);
        var failure := BoundsAfter(c, parameters, initial, onFailure, b);
        if success.None? || failure.None? then None else Some(MergeBounds(initial, success.value, failure.value))
    case _ => Some(b)
  }

  function BoundsAfterAll(c: Compiled, parameters: Parameters, initial: GameState, effects: seq<Effect>, b: Bounds)
    : Option<Bounds>
  {
    if effects == [] then Some(b)
    else
      var next := BoundsAfter(c, parameters, initial, effects[0], b);
      if next.None? then None else BoundsAfterAll(c, parameters, initial, effects[1..], next.value)
  }

  function InitialBounds(s: GameState): Bounds {
    Bounds(map[], Some(s.world.time), {})
  }

  // ---- Programs that touch stock on a branch a draw can take ----

  predicate Crafts(e: Effect) {
    match e
    case ApplyRecipe(_) => true
    case RandomChance(percent, onSuccess, onFailure) =>
      (percent > 0 && Crafts(onSuccess)) || (percent < 100 && Crafts(onFailure))
    case _ => false
  }

  predicate MovesStorage(e: Effect) {
    match e
    case TransferStorageItemToCharacter(_, _, _) => true
    case TransferCharacterItemToStorage(_, _, _) => true
    case RandomChance(percent, onSuccess, onFailure) =>
      (percent > 0 && MovesStorage(onSuccess)) || (percent < 100 && MovesStorage(onFailure))
    case _ => false
  }

  predicate InventoryProgram(effects: seq<Effect>) {
    exists e <- effects :: Crafts(e) || MovesStorage(e)
  }

  // ---- The preflight: every path a draw can take, without drawing ----

  /** The states one effect can lead to, or None if it fails on some path. */
  function PathsAfter(c: Compiled, parameters: Parameters, e: Effect, s: GameState): Option<set<GameState>>
    decreases e
  {
    match e
    case RandomChance(percent, onSuccess, onFailure) =>
      if s.entropy.cursor >= MAX_ENTROPY_CURSOR then None
      else
        var spent := s.(entropy := s.entropy.(cursor := s.entropy.cursor + 1));
        if percent == 0 then PathsAfter(c, parameters, onFailure, spent)
        else if percent == 100 then PathsAfter(c, parameters, onSuccess, spent)
        else
          var success := PathsAfter(c, parameters, onSuccess, spent);
          var failure := PathsAfter(c, parameters, onFailure, spent);
          if success.None? || failure.None? then None else Some(success.value + failure.value)
    case _ =>
      var next := ApplyPlain(c, parameters, e, Start(s));
      if next.Err? then None else Some({next.value.state})
  }

  /** Every path continued by one effect. */
  function AllPathsAfter(c: Compiled, parameters: Parameters, e: Effect, paths: set<GameState>): Option<set<GameState>> {
    if exists p <- paths :: PathsAfter(c, parameters, e, p).None? then None
    else Some(set p, q | p in paths && q in PathsAfter(c, parameters, e, p).value :: q)
  }

  function PathsAfterAll(c: Compiled, parameters: Parameters, effects: seq<Effect>, paths: set<GameState>)
    : Option<set<GameState>>
  {
    if effects == [] then Some(paths)
    else
      var next := AllPathsAfter(c, parameters, effects[0], paths);
      if next.None? then None else PathsAfterAll(c, parameters, effects[1..], next.value)
  }

  /** One due event on one path: its program if its condition holds there. */
  function EventPaths(c: Compiled, e: ScheduledEvent, p: GameState): Option<set<GameState>> {
    var program := ProgramOf(c, e);
    if program.None? then None
    else if program.value.condition.Holds(p) then PathsAfterAll(c, map[], program.value.effects, {p})
    else Some({p})
  }

  /** Every path continued by one due event. */
  function AllEventPaths(c: Compiled, e: ScheduledEvent, paths: set<GameState>): Option<set<GameState>> {
    if exists p <- paths :: EventPaths(c, e, p).None? then None
    else Some(set p, q | p in paths && q in EventPaths(c, e, p).value :: q)
  }

  function DuePaths(c: Compiled, due: seq<ScheduledEvent>, paths: set<GameState>): Option<set<GameState>> {
    if due == [] then Some(paths)
    else
      var next := AllEventPaths(c, due[0], paths);
      if next.None? then None else DuePaths(c, due[1..], next.value)
  }

  /** preflight_candidate_available. */
  predicate Preflight(c: Compiled, parameters: Parameters, effects: seq<Effect>, s: GameState) {
    var acted := PathsAfterAll(c, parameters, effects, {s});
    && acted.Some?
    && forall p <- acted.value :: DuePaths(c, DueNow(Start(p)), {WithoutDue(Start(p)).state}).Some?
  }

  /** A pending event that may resolve by the latest time and whose program can touch stock. */
  predicate PendingProgram(c: Compiled, s: GameState, latest: u64) {
    exists e <- s.world.queue :: e.due <= latest && ProgramOf(c, e).Some? && InventoryProgram(ProgramOf(c, e).value.effects)
  }

  predicate NewProgram(c: Compiled, s: GameState, b: Bounds, latest: u64) {
    exists id <- b.scheduled :: id in c.deferredEvents && InventoryProgram(c.deferredEvents[id].effects)
      && s.world.time + c.deferredEvents[id].delay <= latest
  }

  /** inventory_candidate_available. */
  predicate Available(c: Compiled, parameters: Parameters, effects: seq<Effect>, s: GameState) {
    var b := BoundsAfterAll(c, parameters, s, effects, InitialBounds(s));
    && b.Some?
    && (b.value.scheduled == {} || b.value.latest.Some?)
    && var latest := if b.value.latest.Some? then b.value.latest.value else U64_MAX;
    && (forall e <- s.world.queue :: e.due <= latest ==> ProgramOf(c, e).Some?)
    && ((exists e <- effects :: MovesStorage(e)) || PendingProgram(c, s, latest) || NewProgram(c, s, b.value, latest) ==>
          Preflight(c, parameters, effects, s))
  }
}

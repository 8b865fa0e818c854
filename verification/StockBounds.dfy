// Candidates the legal set offers never run out of stock, room or fresh event identities (crates/forge-kernel/src/reducer.rs).
module StockBounds {
  import opened Basics
  import opened Model
  import opened Content
  import opened Effects
  import opened Kernel
  import opened Availability
  import opened Validation
  import opened PreflightPaths
  import Ownership
  import Timeline

  /** The failures the stock analysis is there to rule out. */
  predicate Shortage(e: KernelError) {
    e == LacksStock || e == InventoryFull || e == AlreadyScheduled
  }

  // ---- What the bounds say of a machine ----

  /** Every holding lies in its range. */
  ghost predicate StockWithin(initial: GameState, b: Bounds, s: GameState) {
    forall owner: StockOwner, item: Id ::
      RangeOf(initial, b, owner, item).minimum <= Count(StockOf(s, owner), item) <= RangeOf(initial, b, owner, item).maximum
  }

  predicate ClockWithin(initial: GameState, b: Bounds, time: u64) {
    initial.world.time <= time && (b.latest.Some? ==> time <= b.latest.value)
  }

  ghost predicate UsedWithin(initial: GameState, b: Bounds, m: Machine) {
    forall id: Id :: AlreadyUsed(m, id) ==> AlreadyUsed(Start(initial), id) || id in b.scheduled
  }

  /** A pending event was there before the action, or the action scheduled it. */
  predicate QueueWithin(c: Compiled, initial: GameState, b: Bounds, queue: seq<ScheduledEvent>) {
    forall e <- queue ::
      || e in initial.world.queue
      || (e.id in b.scheduled && e.id in c.deferredEvents
          && initial.world.time + c.deferredEvents[e.id].delay <= e.due)
  }

  ghost predicate Brackets(c: Compiled, initial: GameState, b: Bounds, m: Machine) {
    && StockWithin(initial, b, m.state)
    && ClockWithin(initial, b, m.state.world.time)
    && UsedWithin(initial, b, m)
    && QueueWithin(c, initial, b, m.state.world.queue)
  }

  lemma InitialBrackets(c: Compiled, s: GameState)
    ensures Brackets(c, s, InitialBounds(s), Start(s))
  {
  }

  /** Widening bounds loses no machine. */
  lemma MergeBrackets(c: Compiled, initial: GameState, a: Bounds, b: Bounds, m: Machine)
    requires Brackets(c, initial, a, m) || Brackets(c, initial, b, m)
    ensures Brackets(c, initial, MergeBounds(initial, a, b), m)
  {
    hide AlreadyUsed, StockOf, Count;
    var merged := MergeBounds(initial, a, b);
    forall owner: StockOwner, item: Id
      ensures RangeOf(initial, merged, owner, item).minimum <= Count(StockOf(m.state, owner), item)
      ensures Count(StockOf(m.state, owner), item) <= RangeOf(initial, merged, owner, item).maximum
    {
      var left, right := RangeOf(initial, a, owner, item), RangeOf(initial, b, owner, item);
      assert RangeOf(initial, merged, owner, item)
          == Range(Min(left.minimum, right.minimum), Max(left.maximum, right.maximum));
    }
  }

  // ---- One operation on the ranges ----

  /** What an effect adds to and takes from one holding. */
  function Shifted(r: Range, taken: u32, added: u32): Range
    requires taken <= r.minimum && taken <= r.maximum
    requires r.minimum - taken + added <= U32_MAX && r.maximum - taken + added <= U32_MAX
  {
    Range(r.minimum - taken + added, r.maximum - taken + added)
  }

  lemma MoveRanges(
    initial: GameState, b: Bounds, source: StockOwner, target: StockOwner, item: Id, count: u32,
    owner: StockOwner, other: Id)
    requires source != target && MoveRange(initial, b, source, target, item, count).Some?
    ensures var after := MoveRange(initial, b, source, target, item, count).value;
            var was := RangeOf(initial, b, owner, other);
            && after.latest == b.latest && after.scheduled == b.scheduled
            && RangeOf(initial, after, owner, other)
               == (if other == item && owner == source then Range(was.minimum - count, was.maximum - count)
                   else if other == item && owner == target then Range(was.minimum + count, was.maximum + count)
                   else was)
  {
    hide StockOf, Count;
  }

  lemma {:induction false} ConsumeAllRanges(
    initial: GameState, b: Bounds, items: seq<Id>, inputs: Inventory, owner: StockOwner, item: Id)
    requires forall i, j :: 0 <= i < j < |items| ==> items[i] != items[j]
    requires ConsumeAll(initial, b, items, inputs).Some?
    ensures var after := ConsumeAll(initial, b, items, inputs).value;
            var was := RangeOf(initial, b, owner, item);
            var taken := if owner == OfCharacter && item in items then Count(inputs, item) else 0;
            && after.latest == b.latest && after.scheduled == b.scheduled
            && taken <= was.minimum && taken <= was.maximum
            && RangeOf(initial, after, owner, item) == Range(was.minimum - taken, was.maximum - taken)
    decreases |items|
  {
    hide StockOf, Count;
    if items != [] {
      var next := ConsumeRange(initial, b, OfCharacter, items[0], Count(inputs, items[0])).value;
      ConsumeAllRanges(initial, next, items[1..], inputs, owner, item);
      assert item in items <==> item == items[0] || item in items[1..];
    }
  }

  lemma {:induction false} ProduceAllRanges(
    initial: GameState, b: Bounds, items: seq<Id>, outputs: Inventory, owner: StockOwner, item: Id)
    requires forall i, j :: 0 <= i < j < |items| ==> items[i] != items[j]
    requires ProduceAll(initial, b, items, outputs).Some?
    ensures var after := ProduceAll(initial, b, items, outputs).value;
            var was := RangeOf(initial, b, owner, item);
            var added := if owner == OfCharacter && item in items then Count(outputs, item) else 0;
            && after.latest == b.latest && after.scheduled == b.scheduled
            && was.minimum + added <= U32_MAX && was.maximum + added <= U32_MAX
            && RangeOf(initial, after, owner, item) == Range(was.minimum + added, was.maximum + added)
    decreases |items|
  {
    hide StockOf, Count;
    if items != [] {
      var next := ProduceRange(initial, b, OfCharacter, items[0], Count(outputs, items[0])).value;
      ProduceAllRanges(initial, next, items[1..], outputs, owner, item);
      assert item in items <==> item == items[0] || item in items[1..];
    }
  }

  lemma SortedAreDistinct(keys: set<Id>)
    ensures forall i, j :: 0 <= i < j < |SortedKeys(keys)| ==> SortedKeys(keys)[i] != SortedKeys(keys)[j]
  {
    forall i, j | 0 <= i < j < |SortedKeys(keys)| ensures SortedKeys(keys)[i] != SortedKeys(keys)[j] {
      LessIrreflexive(SortedKeys(keys)[i]);
    }
  }

  /** The ranges a recipe leaves: the carried ones shifted by its inputs and outputs, all others as they were. */
  lemma RecipeRanges(c: Compiled, initial: GameState, r: RecipeDefinition, b: Bounds, owner: StockOwner, item: Id)
    requires ConsumeAll(initial, b, SortedKeys(r.inputs.Keys), r.inputs).Some?
    requires ProduceAll(initial, ConsumeAll(initial, b, SortedKeys(r.inputs.Keys), r.inputs).value,
                        SortedKeys(r.outputs.Keys), r.outputs).Some?
    ensures var after := ProduceAll(initial, ConsumeAll(initial, b, SortedKeys(r.inputs.Keys), r.inputs).value,
                                    SortedKeys(r.outputs.Keys), r.outputs).value;
            var was := RangeOf(initial, b, owner, item);
            var taken := if owner == OfCharacter then Count(r.inputs, item) else 0;
            var added := if owner == OfCharacter then Count(r.outputs, item) else 0;
            && after.latest == b.latest && after.scheduled == b.scheduled
            && taken <= was.minimum && taken <= was.maximum
            && was.minimum - taken + added <= U32_MAX && was.maximum - taken + added <= U32_MAX
            && RangeOf(initial, after, owner, item) == Shifted(was, taken, added)
  {
    hide StockOf, ConsumeAll, ProduceAll, RangeOf, SortedKeys;
    SortedAreDistinct(r.inputs.Keys);
    SortedAreDistinct(r.outputs.Keys);
    var inputs, outputs := SortedKeys(r.inputs.Keys), SortedKeys(r.outputs.Keys);
    var between := ConsumeAll(initial, b, inputs, r.inputs).value;
    ConsumeAllRanges(initial, b, inputs, r.inputs, owner, item);
    ProduceAllRanges(initial, between, outputs, r.outputs, owner, item);
    assert item in inputs <==> item in r.inputs;
    assert item in outputs <==> item in r.outputs;
  }

  // ---- One operation on a machine whose holdings are bracketed ----

  /** An effect that only moves stock leaves clock, queue and used identities alone. */
  predicate OnlyStock(m: Machine, after: Machine) {
    && after.state.world.time == m.state.world.time
    && after.state.world.queue == m.state.world.queue
    && after.state.log == m.state.log
    && (forall x <- after.events :: x in m.events || !(x.kind.Scheduled? || x.kind.Resolved?))
  }

  lemma OnlyStockBrackets(c: Compiled, initial: GameState, b: Bounds, after: Bounds, m: Machine, next: Machine)
    requires OnlyStock(m, next) && Brackets(c, initial, b, m)
    requires after.latest == b.latest && after.scheduled == b.scheduled
    requires StockWithin(initial, after, next.state)
    ensures Brackets(c, initial, after, next)
  {
    hide StockWithin;
    forall id: Id | AlreadyUsed(next, id) ensures AlreadyUsed(m, id) {
    }
  }

  /** The holdings after a move of stock between two owners. */
  ghost predicate Moved(s: GameState, next: GameState, source: StockOwner, target: StockOwner, item: Id, count: u32) {
    forall owner: StockOwner, other: Id ::
      Count(StockOf(next, owner), other) + (if other == item && owner == source then count else 0)
      == Count(StockOf(s, owner), other) + (if other == item && owner == target then count else 0)
  }

  lemma MoveWithin(
    initial: GameState, b: Bounds, source: StockOwner, target: StockOwner, item: Id, count: u32,
    s: GameState, next: GameState)
    requires source != target && MoveRange(initial, b, source, target, item, count).Some?
    requires StockWithin(initial, b, s) && Moved(s, next, source, target, item, count)
    ensures StockWithin(initial, MoveRange(initial, b, source, target, item, count).value, next)
  {
    hide MoveRange, RangeOf, StockOf, Count;
    var after := MoveRange(initial, b, source, target, item, count).value;
    forall owner: StockOwner, other: Id
      ensures RangeOf(initial, after, owner, other).minimum <= Count(StockOf(next, owner), other)
      ensures Count(StockOf(next, owner), other) <= RangeOf(initial, after, owner, other).maximum
    {
      MoveRanges(initial, b, source, target, item, count, owner, other);
    }
  }

  lemma StorageTransferMoves(c: Compiled, m: Machine, storage: Id, item: Id, count: u32, withdrawing: bool)
    requires TransferWithStorage(c, m, storage, item, count, withdrawing).Ok?
    ensures var next := TransferWithStorage(c, m, storage, item, count, withdrawing).value;
            && OnlyStock(m, next)
            && (if withdrawing then Moved(m.state, next.state, OfStorage(storage), OfCharacter, item, count)
                else Moved(m.state, next.state, OfCharacter, OfStorage(storage), item, count))
  {
    hide SetCount, Count;
    var s := m.state;
    var next := TransferWithStorage(c, m, storage, item, count, withdrawing).value;
    forall owner: StockOwner, other: Id
      ensures Count(StockOf(next.state, owner), other)
           == (if other != item then Count(StockOf(s, owner), other)
               else if owner == OfStorage(storage) then
                 (if withdrawing then Count(s.world.storages[storage], item) - count
                  else Count(s.world.storages[storage], item) + count)
               else if owner == OfCharacter then
                 (if withdrawing then Count(s.character.inventory, item) + count
                  else Count(s.character.inventory, item) - count)
               else Count(StockOf(s, owner), other))
    {
      match owner
      case OfStorage(_) =>
        var n := if withdrawing then Count(s.world.storages[storage], item) - count
                 else Count(s.world.storages[storage], item) + count;
        CountAfterSet(s.world.storages[storage], item, n, other);
      case OfCharacter =>
        var n := if withdrawing then Count(s.character.inventory, item) + count
                 else Count(s.character.inventory, item) - count;
        CountAfterSet(s.character.inventory, item, n, other);
      case OfNpc(_) =>
    }
  }

  lemma CountAfterSet(inventory: Inventory, item: Id, count: u32, other: Id)
    ensures Count(SetCount(inventory, item, count), other) == if other == item then count else Count(inventory, other)
  {
  }

  lemma NpcTransferMoves(m: Machine, npc: Id, item: Id, count: u32)
    requires TransferFromNpc(m, npc, item, count).Ok?
    ensures var next := TransferFromNpc(m, npc, item, count).value;
            OnlyStock(m, next) && Moved(m.state, next.state, OfNpc(npc), OfCharacter, item, count)
  {
  }

  lemma NpcTransferWithin(initial: GameState, b: Bounds, m: Machine, npc: Id, item: Id, count: u32)
    requires StockWithin(initial, b, m.state) && MoveRange(initial, b, OfNpc(npc), OfCharacter, item, count).Some?
    ensures var ran := TransferFromNpc(m, npc, item, count);
            && (ran.Err? ==> !Shortage(ran.error))
            && (ran.Ok? ==>
                  && OnlyStock(m, ran.value)
                  && StockWithin(initial, MoveRange(initial, b, OfNpc(npc), OfCharacter, item, count).value, ran.value.state))
  {
    hide MoveRange, RangeOf;
    MoveBounds(initial, b, OfNpc(npc), OfCharacter, item, count);
    var ran := TransferFromNpc(m, npc, item, count);
    assert StockOf(m.state, OfCharacter) == m.state.character.inventory;
    assert Count(StockOf(m.state, OfNpc(npc)), item)
        == if npc in m.state.world.npcs then Count(m.state.world.npcs[npc].inventory, item) else 0;
    if ran.Ok? {
      NpcTransferMoves(m, npc, item, count);
      MoveWithin(initial, b, OfNpc(npc), OfCharacter, item, count, m.state, ran.value.state);
    }
  }

  /** An accepted move has the source's stock and the target's room at both ends of the ranges. */
  lemma MoveBounds(initial: GameState, b: Bounds, source: StockOwner, target: StockOwner, item: Id, count: u32)
    requires source != target && MoveRange(initial, b, source, target, item, count).Some?
    ensures RangeOf(initial, b, source, item).minimum >= count
    ensures RangeOf(initial, b, target, item).maximum + count <= U32_MAX
  {
    hide StockOf, Count;
  }

  lemma StorageTransferWithin(
    c: Compiled, initial: GameState, b: Bounds, m: Machine, storage: Id, item: Id, count: u32, withdrawing: bool)
    requires StockWithin(initial, b, m.state)
    requires var source := if withdrawing then OfStorage(storage) else OfCharacter;
             var target := if withdrawing then OfCharacter else OfStorage(storage);
             MoveRange(initial, b, source, target, item, count).Some?
    ensures var source := if withdrawing then OfStorage(storage) else OfCharacter;
            var target := if withdrawing then OfCharacter else OfStorage(storage);
            var ran := TransferWithStorage(c, m, storage, item, count, withdrawing);
            && (ran.Err? ==> !Shortage(ran.error))
            && (ran.Ok? ==>
                  && OnlyStock(m, ran.value)
                  && StockWithin(initial, MoveRange(initial, b, source, target, item, count).value, ran.value.state))
  {
    hide MoveRange, RangeOf;
    var source := if withdrawing then OfStorage(storage) else OfCharacter;
    var target := if withdrawing then OfCharacter else OfStorage(storage);
    MoveBounds(initial, b, source, target, item, count);
    var ran := TransferWithStorage(c, m, storage, item, count, withdrawing);
    assert StockOf(m.state, OfCharacter) == m.state.character.inventory;
    assert storage in m.state.world.storages ==> StockOf(m.state, OfStorage(storage)) == m.state.world.storages[storage];
    assert RangeOf(initial, b, source, item).minimum <= Count(StockOf(m.state, source), item);
    assert Count(StockOf(m.state, target), item) <= RangeOf(initial, b, target, item).maximum;
    if ran.Ok? {
      StorageTransferMoves(c, m, storage, item, count, withdrawing);
      MoveWithin(initial, b, source, target, item, count, m.state, ran.value.state);
    }
  }

  lemma CraftWithin(c: Compiled, initial: GameState, b: Bounds, m: Machine, recipe: Id)
    requires StockWithin(initial, b, m.state)
    requires BoundsAfter(c, map[], initial, ApplyRecipe(recipe), b).Some?
    ensures var ran := Craft(c, m, recipe);
            && ran.Ok?
            && OnlyStock(m, ran.value)
            && var after := BoundsAfter(c, map[], initial, ApplyRecipe(recipe), b).value;
            && after.latest == b.latest && after.scheduled == b.scheduled
            && StockWithin(initial, after, ran.value.state)
  {
    hide ConsumeAll, ProduceAll, RangeOf, HasInputs, HasRoom, AfterRecipe;
    var r := c.recipes[recipe];
    var carried := m.state.character.inventory;
    assert StockOf(m.state, OfCharacter) == carried;
    var after := BoundsAfter(c, map[], initial, ApplyRecipe(recipe), b).value;
    RecipeFits(c, initial, r, b, carried);
    var next := Craft(c, m, recipe).value;
    forall owner: StockOwner, item: Id
      ensures RangeOf(initial, after, owner, item).minimum <= Count(StockOf(next.state, owner), item)
      ensures Count(StockOf(next.state, owner), item) <= RangeOf(initial, after, owner, item).maximum
    {
      RecipeRanges(c, initial, r, b, owner, item);
      var held := Count(StockOf(m.state, owner), item);
      assert RangeOf(initial, b, owner, item).minimum <= held <= RangeOf(initial, b, owner, item).maximum;
      Ownership.AfterRecipeCount(carried, r.inputs, r.outputs, item);
    }
    RecipeRanges(c, initial, r, b, OfCharacter, recipe);
  }

  /** Bracketed stock has a recipe's inputs and room for its outputs. */
  lemma RecipeFits(c: Compiled, initial: GameState, r: RecipeDefinition, b: Bounds, carried: Inventory)
    requires forall item: Id :: RangeOf(initial, b, OfCharacter, item).minimum <= Count(carried, item)
                                <= RangeOf(initial, b, OfCharacter, item).maximum
    requires ConsumeAll(initial, b, SortedKeys(r.inputs.Keys), r.inputs).Some?
    requires ProduceAll(initial, ConsumeAll(initial, b, SortedKeys(r.inputs.Keys), r.inputs).value,
                        SortedKeys(r.outputs.Keys), r.outputs).Some?
    ensures HasInputs(carried, r.inputs) && HasRoom(carried, r.inputs, r.outputs)
  {
    hide ConsumeAll, ProduceAll, RangeOf;
    forall item | item in r.inputs ensures r.inputs[item] <= Count(carried, item) {
      RecipeRanges(c, initial, r, b, OfCharacter, item);
    }
    forall item | item in r.outputs
      ensures Count(carried, item) - Count(r.inputs, item) + r.outputs[item] <= U32_MAX
    {
      RecipeRanges(c, initial, r, b, OfCharacter, item);
    }
  }

  // ---- Every effect ----

  /** The bounds after an effect bracket the machine after it, unless it failed for a reason other than stock. */
  ghost predicate Foretold(c: Compiled, initial: GameState, after: Bounds, ran: Outcome) {
    if ran.Err? then !Shortage(ran.error) else Brackets(c, initial, after, ran.value)
  }

  lemma StockForetold(c: Compiled, parameters: Parameters, initial: GameState, e: Effect, b: Bounds, m: Machine)
    requires Ownership.MovesStock(e) && Brackets(c, initial, b, m)
    requires BoundsAfter(c, parameters, initial, e, b).Some?
    ensures Foretold(c, initial, BoundsAfter(c, parameters, initial, e, b).value, ApplyPlain(c, parameters, e, m))
  {
    hide StockWithin, OnlyStock, UsedWithin, QueueWithin, TransferFromNpc, TransferWithStorage, Craft,
         ConsumeAll, ProduceAll, MoveRange, Brackets;
    UnfoldBrackets(c, initial, b, m);
    var after := BoundsAfter(c, parameters, initial, e, b).value;
    var ran := ApplyPlain(c, parameters, e, m);
    match e
    case TransferNpcItemToCharacter(reference, item, count) =>
      var npc := Resolve(reference, parameters).value;
      NpcTransferWithin(initial, b, m, npc, item, count);
      MoveRanges(initial, b, OfNpc(npc), OfCharacter, item, count, OfCharacter, item);
      if ran.Ok? {
        OnlyStockBrackets(c, initial, b, after, m, ran.value);
      }
    case TransferStorageItemToCharacter(storage, item, count) =>
      StorageTransferWithin(c, initial, b, m, storage, item, count, true);
      MoveRanges(initial, b, OfStorage(storage), OfCharacter, item, count, OfCharacter, item);
      if ran.Ok? {
        OnlyStockBrackets(c, initial, b, after, m, ran.value);
      }
    case TransferCharacterItemToStorage(storage, item, count) =>
      StorageTransferWithin(c, initial, b, m, storage, item, count, false);
      MoveRanges(initial, b, OfCharacter, OfStorage(storage), item, count, OfCharacter, item);
      if ran.Ok? {
        OnlyStockBrackets(c, initial, b, after, m, ran.value);
      }
    case ApplyRecipe(recipe) =>
      CraftWithin(c, initial, b, m, recipe);
      OnlyStockBrackets(c, initial, b, after, m, ran.value);
  }

  lemma UnfoldBrackets(c: Compiled, initial: GameState, b: Bounds, m: Machine)
    requires Brackets(c, initial, b, m)
    ensures StockWithin(initial, b, m.state)
  {
  }

  /** Effects that leave stock, clock and queue alone. */
  lemma IdleKeeps(c: Compiled, parameters: Parameters, e: Effect, m: Machine)
    requires !e.RandomChance? && !Ownership.MovesStock(e) && !e.ScheduleEvent? && !e.AdvanceTime?
    requires ApplyPlain(c, parameters, e, m).Ok?
    ensures var after := ApplyPlain(c, parameters, e, m).value;
            after.state.world.time == m.state.world.time && after.state.log == m.state.log
  {
  }

  lemma SameStock(initial: GameState, b: Bounds, s: GameState, next: GameState)
    requires StockWithin(initial, b, s)
    requires forall owner: StockOwner :: StockOf(next, owner) == StockOf(s, owner)
    ensures StockWithin(initial, b, next)
  {
  }

  lemma PlainSameStock(c: Compiled, parameters: Parameters, e: Effect, m: Machine)
    requires !e.RandomChance? && !Ownership.MovesStock(e) && ApplyPlain(c, parameters, e, m).Ok?
    ensures forall owner: StockOwner :: StockOf(ApplyPlain(c, parameters, e, m).value.state, owner) == StockOf(m.state, owner)
  {
    hide ApplyPlain;
    Ownership.PlainKeepsStock(c, parameters, e, m);
  }

  lemma IdleNeverShort(c: Compiled, parameters: Parameters, e: Effect, m: Machine)
    requires !e.RandomChance? && !Ownership.MovesStock(e) && !e.ScheduleEvent?
    ensures var ran := ApplyPlain(c, parameters, e, m); ran.Err? ==> !Shortage(ran.error)
  {
  }

  lemma IdleForetold(c: Compiled, parameters: Parameters, initial: GameState, e: Effect, b: Bounds, m: Machine)
    requires !e.RandomChance? && !Ownership.MovesStock(e) && !e.ScheduleEvent? && !e.AdvanceTime?
    requires Brackets(c, initial, b, m)
    ensures BoundsAfter(c, parameters, initial, e, b) == Some(b)
    ensures Foretold(c, initial, b, ApplyPlain(c, parameters, e, m))
  {
    hide ApplyPlain, StockWithin, UsedWithin, QueueWithin;
    IdleNeverShort(c, parameters, e, m);
    var ran := ApplyPlain(c, parameters, e, m);
    if ran.Ok? {
      IdleKeeps(c, parameters, e, m);
      PlainSchedulesNothing(c, parameters, e, m);
      PlainSameStock(c, parameters, e, m);
      SameStock(initial, b, m.state, ran.value.state);
      OnlyStockBrackets(c, initial, b, b, m, ran.value);
    }
  }

  lemma AdvanceForetold(c: Compiled, parameters: Parameters, initial: GameState, ticks: u64, b: Bounds, m: Machine)
    requires Brackets(c, initial, b, m)
    ensures BoundsAfter(c, parameters, initial, AdvanceTime(ticks), b).Some?
    ensures Foretold(c, initial, BoundsAfter(c, parameters, initial, AdvanceTime(ticks), b).value,
                     ApplyPlain(c, parameters, AdvanceTime(ticks), m))
  {
    hide StockWithin, UsedWithin, QueueWithin;
    var e := AdvanceTime(ticks);
    var after := BoundsAfter(c, parameters, initial, e, b).value;
    var ran := ApplyPlain(c, parameters, e, m);
    if ran.Ok? {
      PlainSchedulesNothing(c, parameters, e, m);
      AdvanceStock(initial, b, after, m.state, ran.value.state);
      AdvanceUsed(initial, b, after, m, ran.value);
      AdvanceQueue(c, initial, b, after, m.state.world.queue);
    }
  }

  lemma AdvanceStock(initial: GameState, b: Bounds, after: Bounds, s: GameState, next: GameState)
    requires StockWithin(initial, b, s) && after.counts == b.counts
    requires next.character == s.character && next.world.npcs == s.world.npcs && next.world.storages == s.world.storages
    ensures StockWithin(initial, after, next)
  {
    forall owner: StockOwner, item: Id
      ensures RangeOf(initial, after, owner, item).minimum <= Count(StockOf(next, owner), item)
      ensures Count(StockOf(next, owner), item) <= RangeOf(initial, after, owner, item).maximum
    {
      assert RangeOf(initial, after, owner, item) == RangeOf(initial, b, owner, item);
      assert StockOf(next, owner) == StockOf(s, owner);
    }
  }

  lemma AdvanceUsed(initial: GameState, b: Bounds, after: Bounds, m: Machine, next: Machine)
    requires UsedWithin(initial, b, m) && after.scheduled == b.scheduled
    requires next.state.world.queue == m.state.world.queue && next.state.log == m.state.log
    requires forall x <- next.events :: x in m.events || !(x.kind.Scheduled? || x.kind.Resolved?)
    ensures UsedWithin(initial, after, next)
  {
    forall id: Id | AlreadyUsed(next, id) ensures AlreadyUsed(m, id) {
    }
  }

  lemma AdvanceQueue(c: Compiled, initial: GameState, b: Bounds, after: Bounds, queue: seq<ScheduledEvent>)
    requires QueueWithin(c, initial, b, queue) && b.scheduled <= after.scheduled
    ensures QueueWithin(c, initial, after, queue)
  {
  }

  lemma ScheduleForetold(c: Compiled, parameters: Parameters, initial: GameState, event: Id, b: Bounds, m: Machine)
    requires Brackets(c, initial, b, m)
    requires BoundsAfter(c, parameters, initial, ScheduleEvent(event), b).Some?
    ensures Foretold(c, initial, BoundsAfter(c, parameters, initial, ScheduleEvent(event), b).value,
                     Schedule(c, m, event))
  {
    hide StockWithin, AlreadyUsed, Enqueue;
    var after := BoundsAfter(c, parameters, initial, ScheduleEvent(event), b).value;
    var ran := Schedule(c, m, event);
    if ran.Ok? {
      var added := ScheduledEvent(event, m.state.world.time + c.deferredEvents[event].delay, c.deferredEvents[event].kind);
      AdvanceStock(initial, b, after, m.state, ran.value.state);
      forall id: Id | AlreadyUsed(ran.value, id) ensures AlreadyUsed(m, id) || id == event {
        ScheduleUses(c, m, event, id);
      }
      forall e | e in ran.value.state.world.queue ensures e in m.state.world.queue || e == added {
        EnqueueMembers(m.state.world.queue, added, e);
      }
    }
  }

  lemma ScheduleUses(c: Compiled, m: Machine, event: Id, id: Id)
    requires Schedule(c, m, event).Ok? && AlreadyUsed(Schedule(c, m, event).value, id)
    ensures AlreadyUsed(m, id) || id == event
  {
    var due := m.state.world.time + c.deferredEvents[event].delay;
    EnqueueHas(m.state.world.queue, ScheduledEvent(event, due, c.deferredEvents[event].kind), id);
  }

  lemma ChanceBrackets(c: Compiled, stream: Stream, initial: GameState, percent: nat, b: Bounds, m: Machine)
    requires Brackets(c, initial, b, m) && Chance(stream, percent, m).Ok?
    ensures Brackets(c, initial, b, Chance(stream, percent, m).value.0)
    ensures percent <= 100
    ensures Chance(stream, percent, m).value.1 <==> stream(m.entropy.seed, m.entropy.cursor) % 100 < percent
  {
    hide StockWithin, UsedWithin, QueueWithin;
    OnlyStockBrackets(c, initial, b, b, m, Chance(stream, percent, m).value.0);
  }

  lemma {:induction false} EffectForetold(
    c: Compiled, stream: Stream, parameters: Parameters, initial: GameState, e: Effect, b: Bounds, m: Machine)
    requires Brackets(c, initial, b, m) && BoundsAfter(c, parameters, initial, e, b).Some?
    ensures Foretold(c, initial, BoundsAfter(c, parameters, initial, e, b).value, ApplyEffect(c, stream, parameters, e, m))
    decreases e
  {
    hide Brackets, Schedule, AlreadyUsed, MoveRange, ConsumeAll, ProduceAll, Chance, Craft, TransferFromNpc,
         TransferWithStorage, MergeBounds;
    match e
    case RandomChance(percent, onSuccess, onFailure) =>
      var drawn := Chance(stream, percent, m);
      if drawn.Ok? {
        ChanceBrackets(c, stream, initial, percent, b, m);
        var taken := if drawn.value.1 then onSuccess else onFailure;
        EffectForetold(c, stream, parameters, initial, taken, b, drawn.value.0);
        var ran := ApplyEffect(c, stream, parameters, taken, drawn.value.0);
        if 0 < percent < 100 && ran.Ok? {
          MergeBrackets(c, initial, BoundsAfter(c, parameters, initial, onSuccess, b).value,
                        BoundsAfter(c, parameters, initial, onFailure, b).value, ran.value);
        }
      } else {
        ChanceNeverShort(stream, percent, m);
      }
    case ScheduleEvent(event) => ScheduleForetold(c, parameters, initial, event, b, m);
    case AdvanceTime(ticks) => AdvanceForetold(c, parameters, initial, ticks, b, m);
    case _ =>
      if Ownership.MovesStock(e) {
        StockForetold(c, parameters, initial, e, b, m);
      } else {
        IdleForetold(c, parameters, initial, e, b, m);
      }
  }

  lemma ChanceNeverShort(stream: Stream, percent: nat, m: Machine)
    ensures Chance(stream, percent, m).Err? ==> !Shortage(Chance(stream, percent, m).error)
  {
  }

  /** Programs the interval analysis admits never run out of stock, room or fresh identities, whatever is drawn. */
  lemma {:induction false} IntervalsSound(
    c: Compiled, stream: Stream, parameters: Parameters, initial: GameState, effects: seq<Effect>, b: Bounds, m: Machine)
    requires Brackets(c, initial, b, m) && BoundsAfterAll(c, parameters, initial, effects, b).Some?
    ensures Foretold(c, initial, BoundsAfterAll(c, parameters, initial, effects, b).value,
                     ApplyEffects(c, stream, parameters, effects, m))
    decreases |effects|
  {
    hide Brackets, BoundsAfter, ApplyEffect;
    if effects != [] {
      EffectForetold(c, stream, parameters, initial, effects[0], b, m);
      var next := ApplyEffect(c, stream, parameters, effects[0], m);
      if next.Ok? {
        IntervalsSound(c, stream, parameters, initial, effects[1..],
                       BoundsAfter(c, parameters, initial, effects[0], b).value, next.value);
      }
    }
  }

  // ---- Due events ----

  /** Quiet programs that craft on no branch a draw can take never ask for stock. */
  lemma {:induction false} CraftlessNeverShort(c: Compiled, stream: Stream, e: Effect, m: Machine)
    requires Quiet(e) && !Crafts(e)
    ensures var ran := ApplyEffect(c, stream, map[], e, m); ran.Err? ==> !Shortage(ran.error)
    decreases e
  {
    hide ApplyPlain, Chance;
    if e.RandomChance? {
      var drawn := Chance(stream, e.percent, m);
      ChanceNeverShort(stream, e.percent, m);
      if drawn.Ok? {
        ChanceTaken(stream, e.percent, m);
        CraftlessNeverShort(c, stream, if drawn.value.1 then e.onSuccess else e.onFailure, drawn.value.0);
      }
    } else {
      IdleNeverShort(c, map[], e, m);
    }
  }

  lemma ChanceTaken(stream: Stream, percent: nat, m: Machine)
    requires Chance(stream, percent, m).Ok?
    ensures if Chance(stream, percent, m).value.1 then percent > 0 else percent < 100
  {
  }

  lemma {:induction false} CraftlessProgramNeverShort(c: Compiled, stream: Stream, effects: seq<Effect>, m: Machine)
    requires forall e <- effects :: Quiet(e) && !Crafts(e)
    ensures var ran := ApplyEffects(c, stream, map[], effects, m); ran.Err? ==> !Shortage(ran.error)
    decreases |effects|
  {
    hide ApplyEffect, Crafts;
    if effects != [] {
      CraftlessNeverShort(c, stream, effects[0], m);
      var next := ApplyEffect(c, stream, map[], effects[0], m);
      if next.Ok? {
        CraftlessProgramNeverShort(c, stream, effects[1..], next.value);
      }
    }
  }

  ghost predicate Craftless(c: Compiled, e: ScheduledEvent) {
    ProgramOf(c, e).Some? ==> forall x <- ProgramOf(c, e).value.effects :: Quiet(x) && !Crafts(x)
  }

  lemma {:induction false} CraftlessEventsNeverShort(c: Compiled, stream: Stream, due: seq<ScheduledEvent>, m: Machine)
    requires forall e <- due :: Craftless(c, e)
    ensures var ran := ResolveAll(c, stream, due, m); ran.Err? ==> !Shortage(ran.error)
    decreases |due|
  {
    hide ApplyEffects, Crafts, Quiet;
    if due != [] {
      assert Craftless(c, due[0]);
      var program := ProgramOf(c, due[0]);
      if program.Some? && program.value.condition.Holds(m.state) {
        CraftlessProgramNeverShort(c, stream, program.value.effects, NotedState(c, due[0], m));
      }
      var next := ResolveOne(c, stream, due[0], m);
      if next.Ok? {
        CraftlessEventsNeverShort(c, stream, due[1..], next.value);
      }
    }
  }

  lemma {:induction false} DueByTime(queue: seq<ScheduledEvent>, time: u64)
    ensures forall e <- queue[..DueCount(queue, time)] :: e in queue && e.due <= time
    decreases |queue|
  {
    if queue != [] && queue[0].due <= time {
      DueByTime(queue[1..], time);
      var n := DueCount(queue[1..], time);
      assert queue[..1 + n] == [queue[0]] + queue[1..][..n];
    }
  }

  /** If the screen of pending and new programs found none that touches stock, no event due after the action crafts. */
  lemma DueAreCraftless(c: Compiled, initial: GameState, b: Bounds, m: Machine)
    requires FairEvents(c) && Timeline.DisjointEvents(c) && Brackets(c, initial, b, m)
    requires var latest := if b.latest.Some? then b.latest.value else U64_MAX;
             !PendingProgram(c, initial, latest) && !NewProgram(c, initial, b, latest)
    ensures forall e <- DueNow(m) :: Craftless(c, e)
  {
    hide StockWithin, UsedWithin, Crafts, MovesStorage, Quiet, FairChances;
    var latest := if b.latest.Some? then b.latest.value else U64_MAX;
    DueByTime(m.state.world.queue, m.state.world.time);
    forall e | e in DueNow(m) ensures Craftless(c, e) {
      assert e in m.state.world.queue && e.due <= latest;
      if ProgramOf(c, e).Some? {
        var effects := ProgramOf(c, e).value.effects;
        assert forall x <- effects :: Quiet(x);
        assert !InventoryProgram(effects);
      }
    }
  }

  /** An offered candidate never fails for want of stock, room or a fresh identity, nor does an event it makes due. */
  lemma OfferedNeverShort(c: Compiled, stream: Stream, s: GameState, action: Id, parameters: Parameters)
    requires Enumerated(c, s, action, parameters)
    requires Explorable(c, c.actions[action].effects, s) && Timeline.DisjointEvents(c)
    ensures var ran := Step(c, stream, s, action, parameters); ran.Err? ==> !Shortage(ran.error)
  {
    hide Explorable, DomainAllows, Preflight, ApplyEffects, ResolveAll, BoundsAfterAll, Brackets, FairEvents, DueNow, WithoutDue,
         PendingProgram, NewProgram, MovesStorage;
    var effects := c.actions[action].effects;
    if Preflight(c, parameters, effects, s) {
      PreflightSound(c, stream, parameters, effects, s);
    } else {
      InitialBrackets(c, s);
      var b := BoundsAfterAll(c, parameters, s, effects, InitialBounds(s)).value;
      IntervalsSound(c, stream, parameters, s, effects, InitialBounds(s), Start(s));
      var acted := ApplyEffects(c, stream, parameters, effects, Start(s));
      if acted.Ok? {
        ExplorableEvents(c, effects, s);
        DueAreCraftless(c, s, b, acted.value);
        CraftlessEventsNeverShort(c, stream, DueNow(acted.value), WithoutDue(acted.value));
      }
    }
  }

  lemma ExplorableEvents(c: Compiled, effects: seq<Effect>, s: GameState)
    requires Explorable(c, effects, s)
    ensures FairEvents(c)
  {
  }

  // ---- Validated content ----

  lemma {:induction false} CheckedIsFair(npcs: set<Id>, e: Effect, depth: nat, allowTransfers: bool)
    requires EffectChecked(npcs, e, depth, allowTransfers)
    ensures FairChances(e)
    decreases e
  {
    if e.RandomChance? {
      CheckedIsFair(npcs, e.onSuccess, depth + 1, allowTransfers);
      CheckedIsFair(npcs, e.onFailure, depth + 1, allowTransfers);
    }
  }

  /** Validation gives the exploration everything it relies on, in every state of the supported algorithm. */
  lemma ValidatedIsExplorable(d: Draft, s: GameState, action: Id)
    requires StructureValid(d) && action in Compile(d).actions && s.entropy.algorithm == ENTROPY_ALGORITHM
    ensures Explorable(Compile(d), Compile(d).actions[action].effects, s) && Timeline.DisjointEvents(Compile(d))
  {
    hide EffectChecked, StorageChecked, ScheduleChecked, RecipeChecked, NamespacedId, FairChances, Quiet;
    TableEntries(d.actions, ActionKey);
    TableEntries(d.timedEvents, TimedKey);
    TableEntries(d.deferredEvents, DeferredKey);
    var c := Compile(d);
    assert c.actions[action] in d.actions;
    forall e | e in c.actions[action].effects ensures FairChances(e) {
      CheckedIsFair(NpcIds(d), e, 0, true);
    }
    forall id, e | id in c.timedEvents && e in c.timedEvents[id].effects ensures FairChances(e) && Quiet(e) {
      assert c.timedEvents[id] in d.timedEvents;
      CheckedIsFair(NpcIds(d), e, 0, false);
      CheckedIsQuiet(d, e, 0);
    }
    forall id, e | id in c.deferredEvents && e in c.deferredEvents[id].effects ensures FairChances(e) && Quiet(e) {
      assert c.deferredEvents[id] in d.deferredEvents;
      CheckedIsFair(NpcIds(d), e, 0, false);
      CheckedIsQuiet(d, e, 0);
    }
  }

  /** In validated content no transition fails for want of stock, room or a fresh identity. */
  lemma StepNeverShort(d: Draft, stream: Stream, s: GameState, action: Id, parameters: Parameters)
    requires StructureValid(d) && s.entropy.algorithm == ENTROPY_ALGORITHM
    ensures var ran := Step(Compile(d), stream, s, action, parameters); ran.Err? ==> !Shortage(ran.error)
  {
    hide StructureValid, Compile, ApplyEffects, ResolveAll, Available, Explorable, Timeline.DisjointEvents;
    var c := Compile(d);
    if Enumerated(c, s, action, parameters) {
      ValidatedIsExplorable(d, s, action);
      OfferedNeverShort(c, stream, s, action, parameters);
    }
  }
}

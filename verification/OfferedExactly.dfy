// The legal set leaves out nothing that cannot fail: the interval ranges are attained on some explored path.
module OfferedExactly {
  import opened Basics
  import opened Model
  import opened Content
  import opened Effects
  import opened Kernel
  import opened Availability
  import opened Validation
  import opened PreflightPaths
  import opened StockBounds
  import Ownership
  import Schedule
  import Timeline

  // ---- Every end of every range is attained on some path ----

  predicate LowAttained(initial: GameState, b: Bounds, paths: set<GameState>, owner: StockOwner, item: Id) {
    exists p <- paths :: Count(StockOf(p, owner), item) == RangeOf(initial, b, owner, item).minimum
  }

  predicate HighAttained(initial: GameState, b: Bounds, paths: set<GameState>, owner: StockOwner, item: Id) {
    exists p <- paths :: Count(StockOf(p, owner), item) == RangeOf(initial, b, owner, item).maximum
  }

  ghost predicate StockTight(initial: GameState, b: Bounds, paths: set<GameState>) {
    forall owner: StockOwner, item: Id ::
      LowAttained(initial, b, paths, owner, item) && HighAttained(initial, b, paths, owner, item)
  }

  predicate LatestAttained(b: Bounds, paths: set<GameState>) {
    b.latest.Some? && exists p <- paths :: p.world.time == b.latest.value
  }

  /** What the analysis believes scheduled is pending on some path, and what was used before is used on every path. */
  ghost predicate UsesTight(initial: GameState, b: Bounds, paths: set<GameState>) {
    && (forall id <- b.scheduled :: exists p <- paths :: Pending(p.world.queue, id))
    && forall p, id: Id | p in paths && AlreadyUsed(Start(initial), id) :: AlreadyUsed(Start(p), id)
  }

  ghost predicate Tight(initial: GameState, b: Bounds, paths: set<GameState>) {
    StockTight(initial, b, paths) && LatestAttained(b, paths) && UsesTight(initial, b, paths)
  }

  lemma InitialTight(s: GameState)
    ensures Tight(s, InitialBounds(s), {s})
  {
    assert s in {s};
  }

  /** The ends of merged ranges are ends of one of the two branches. */
  lemma MergeTight(initial: GameState, a: Bounds, b: Bounds, p: set<GameState>, q: set<GameState>)
    requires Tight(initial, a, p) && Tight(initial, b, q)
    ensures Tight(initial, MergeBounds(initial, a, b), p + q)
  {
    MergeStockTight(initial, a, b, p, q);
    MergeUsesTight(initial, a, b, p, q);
    assert forall x <- p :: x in p + q;
    assert forall x <- q :: x in p + q;
  }

  lemma MergedRange(initial: GameState, a: Bounds, b: Bounds, owner: StockOwner, item: Id)
    ensures var left, right := RangeOf(initial, a, owner, item), RangeOf(initial, b, owner, item);
            RangeOf(initial, MergeBounds(initial, a, b), owner, item)
            == Range(Min(left.minimum, right.minimum), Max(left.maximum, right.maximum))
  {
    hide StockOf, Count;
  }

  lemma MergeStockTight(initial: GameState, a: Bounds, b: Bounds, p: set<GameState>, q: set<GameState>)
    requires StockTight(initial, a, p) && StockTight(initial, b, q)
    ensures StockTight(initial, MergeBounds(initial, a, b), p + q)
  {
    hide MergeBounds, RangeOf, StockOf, Count;
    var merged := MergeBounds(initial, a, b);
    forall owner: StockOwner, item: Id
      ensures LowAttained(initial, merged, p + q, owner, item) && HighAttained(initial, merged, p + q, owner, item)
    {
      MergedRange(initial, a, b, owner, item);
      assert LowAttained(initial, a, p, owner, item) && HighAttained(initial, a, p, owner, item);
      assert LowAttained(initial, b, q, owner, item) && HighAttained(initial, b, q, owner, item);
    }
  }

  lemma MergeUsesTight(initial: GameState, a: Bounds, b: Bounds, p: set<GameState>, q: set<GameState>)
    requires UsesTight(initial, a, p) && UsesTight(initial, b, q)
    ensures UsesTight(initial, MergeBounds(initial, a, b), p + q)
  {
    hide AlreadyUsed, Pending;
    forall id | id in a.scheduled + b.scheduled ensures exists x <- p + q :: Pending(x.world.queue, id) {
      if id in a.scheduled {
        var x :| x in p && Pending(x.world.queue, id);
        assert x in p + q;
      } else {
        var x :| x in q && Pending(x.world.queue, id);
        assert x in p + q;
      }
    }
  }

  // ---- How a plain effect moves stock and ranges alike ----

  /** What an effect takes from a holding. */
  function Taken(c: Compiled, parameters: Parameters, e: Effect, owner: StockOwner, item: Id): u32 {
    match e
    case TransferNpcItemToCharacter(npc, moved, count) =>
      if Resolve(npc, parameters).Some? && owner == OfNpc(Resolve(npc, parameters).value) && item == moved then count else 0
    case TransferStorageItemToCharacter(storage, moved, count) =>
      if owner == OfStorage(storage) && item == moved then count else 0
    case TransferCharacterItemToStorage(storage, moved, count) =>
      if owner == OfCharacter && item == moved then count else 0
    case ApplyRecipe(recipe) =>
      if recipe in c.recipes && owner == OfCharacter then Count(c.recipes[recipe].inputs, item) else 0
    case _ => 0
  }

  /** What an effect adds to a holding. */
  function Added(c: Compiled, parameters: Parameters, e: Effect, owner: StockOwner, item: Id): u32 {
    match e
    case TransferNpcItemToCharacter(_, moved, count) => if owner == OfCharacter && item == moved then count else 0
    case TransferStorageItemToCharacter(_, moved, count) => if owner == OfCharacter && item == moved then count else 0
    case TransferCharacterItemToStorage(storage, moved, count) =>
      if owner == OfStorage(storage) && item == moved then count else 0
    case ApplyRecipe(recipe) =>
      if recipe in c.recipes && owner == OfCharacter then Count(c.recipes[recipe].outputs, item) else 0
    case _ => 0
  }

  lemma PlainShifts(c: Compiled, parameters: Parameters, e: Effect, m: Machine, owner: StockOwner, item: Id)
    requires !e.RandomChance? && ApplyPlain(c, parameters, e, m).Ok?
    ensures Count(StockOf(ApplyPlain(c, parameters, e, m).value.state, owner), item) + Taken(c, parameters, e, owner, item)
         == Count(StockOf(m.state, owner), item) + Added(c, parameters, e, owner, item)
  {
    hide StockOf, Count, HasInputs, HasRoom, AfterRecipe, TransferFromNpc, TransferWithStorage, Craft, Effects.Schedule;
    match e
    case TransferNpcItemToCharacter(npc, moved, count) =>
      NpcTransferMoves(m, Resolve(npc, parameters).value, moved, count);
    case TransferStorageItemToCharacter(storage, moved, count) => StorageTransferMoves(c, m, storage, moved, count, true);
    case TransferCharacterItemToStorage(storage, moved, count) => StorageTransferMoves(c, m, storage, moved, count, false);
    case ApplyRecipe(recipe) => CraftShifts(c, m, recipe, owner, item);
    case _ => PlainSameStock(c, parameters, e, m);
  }

  lemma CraftShifts(c: Compiled, m: Machine, recipe: Id, owner: StockOwner, item: Id)
    requires Craft(c, m, recipe).Ok?
    ensures recipe in c.recipes
    ensures Count(StockOf(Craft(c, m, recipe).value.state, owner), item)
            + (if owner == OfCharacter then Count(c.recipes[recipe].inputs, item) else 0)
         == Count(StockOf(m.state, owner), item)
            + (if owner == OfCharacter then Count(c.recipes[recipe].outputs, item) else 0)
  {
    hide HasInputs, HasRoom, AfterRecipe, Count;
    var r := c.recipes[recipe];
    Ownership.AfterRecipeCount(m.state.character.inventory, r.inputs, r.outputs, item);
  }

  lemma BoundsShift(c: Compiled, parameters: Parameters, initial: GameState, e: Effect, b: Bounds, owner: StockOwner, item: Id)
    requires !e.RandomChance? && BoundsAfter(c, parameters, initial, e, b).Some?
    ensures var was := RangeOf(initial, b, owner, item);
            var now := RangeOf(initial, BoundsAfter(c, parameters, initial, e, b).value, owner, item);
            && now.minimum + Taken(c, parameters, e, owner, item) == was.minimum + Added(c, parameters, e, owner, item)
            && now.maximum + Taken(c, parameters, e, owner, item) == was.maximum + Added(c, parameters, e, owner, item)
  {
    hide StockOf, Count, MoveRange, ConsumeAll, ProduceAll, AlreadyUsed;
    match e
    case TransferNpcItemToCharacter(npc, moved, count) =>
      MoveRanges(initial, b, OfNpc(Resolve(npc, parameters).value), OfCharacter, moved, count, owner, item);
    case TransferStorageItemToCharacter(storage, moved, count) =>
      MoveRanges(initial, b, OfStorage(storage), OfCharacter, moved, count, owner, item);
    case TransferCharacterItemToStorage(storage, moved, count) =>
      MoveRanges(initial, b, OfCharacter, OfStorage(storage), moved, count, owner, item);
    case ApplyRecipe(recipe) => RecipeRanges(c, initial, c.recipes[recipe], b, owner, item);
    case _ =>
  }

  // ---- A plain effect that fails on no path is admitted ----

  ghost predicate RunsOnAll(c: Compiled, parameters: Parameters, e: Effect, paths: set<GameState>)
    requires !e.RandomChance?
  {
    forall p <- paths :: ApplyPlain(c, parameters, e, Start(p)).Ok?
  }

  lemma ConsumeAdmits(initial: GameState, b: Bounds, paths: set<GameState>, owner: StockOwner, item: Id, count: u32)
    requires StockTight(initial, b, paths) && forall p <- paths :: count <= Count(StockOf(p, owner), item)
    ensures ConsumeRange(initial, b, owner, item, count).Some?
  {
    hide StockOf, Count;
    assert LowAttained(initial, b, paths, owner, item) && HighAttained(initial, b, paths, owner, item);
  }

  lemma MoveAdmits(
    initial: GameState, b: Bounds, paths: set<GameState>, source: StockOwner, target: StockOwner, item: Id, count: u32)
    requires StockTight(initial, b, paths) && source != target
    requires forall p <- paths ::
      count <= Count(StockOf(p, source), item) && Count(StockOf(p, target), item) + count <= U32_MAX
    ensures MoveRange(initial, b, source, target, item, count).Some?
  {
    hide StockOf, Count;
    ConsumeAdmits(initial, b, paths, source, item, count);
    assert LowAttained(initial, b, paths, target, item) && HighAttained(initial, b, paths, target, item);
  }

  lemma NpcTransferNeeds(m: Machine, npc: Id, item: Id, count: u32)
    requires TransferFromNpc(m, npc, item, count).Ok?
    ensures count <= Count(StockOf(m.state, OfNpc(npc)), item)
    ensures Count(StockOf(m.state, OfCharacter), item) + count <= U32_MAX
  {
  }

  lemma StorageTransferNeeds(c: Compiled, m: Machine, storage: Id, item: Id, count: u32, withdrawing: bool)
    requires TransferWithStorage(c, m, storage, item, count, withdrawing).Ok?
    ensures var source := if withdrawing then OfStorage(storage) else OfCharacter;
            var target := if withdrawing then OfCharacter else OfStorage(storage);
            && count <= Count(StockOf(m.state, source), item)
            && Count(StockOf(m.state, target), item) + count <= U32_MAX
  {
  }

  lemma {:induction false} ConsumeAllAdmits(initial: GameState, b: Bounds, items: seq<Id>, inputs: Inventory)
    requires forall i, j :: 0 <= i < j < |items| ==> items[i] != items[j]
    requires forall item <- items :: Count(inputs, item) <= RangeOf(initial, b, OfCharacter, item).minimum
                                     && Count(inputs, item) <= RangeOf(initial, b, OfCharacter, item).maximum
    ensures ConsumeAll(initial, b, items, inputs).Some?
    decreases |items|
  {
    hide StockOf, Count;
    if items != [] {
      assert items[0] in items;
      var next := ConsumeRange(initial, b, OfCharacter, items[0], Count(inputs, items[0])).value;
      forall item | item in items[1..] ensures RangeOf(initial, next, OfCharacter, item) == RangeOf(initial, b, OfCharacter, item) {
        var k :| 1 <= k < |items| && items[k] == item;
        assert items[0] != items[k];
      }
      ConsumeAllAdmits(initial, next, items[1..], inputs);
    }
  }

  lemma {:induction false} ProduceAllAdmits(initial: GameState, b: Bounds, items: seq<Id>, outputs: Inventory)
    requires forall i, j :: 0 <= i < j < |items| ==> items[i] != items[j]
    requires forall item <- items :: RangeOf(initial, b, OfCharacter, item).minimum + Count(outputs, item) <= U32_MAX
                                     && RangeOf(initial, b, OfCharacter, item).maximum + Count(outputs, item) <= U32_MAX
    ensures ProduceAll(initial, b, items, outputs).Some?
    decreases |items|
  {
    hide StockOf, Count;
    if items != [] {
      assert items[0] in items;
      var next := ProduceRange(initial, b, OfCharacter, items[0], Count(outputs, items[0])).value;
      forall item | item in items[1..] ensures RangeOf(initial, next, OfCharacter, item) == RangeOf(initial, b, OfCharacter, item) {
        var k :| 1 <= k < |items| && items[k] == item;
        assert items[0] != items[k];
      }
      ProduceAllAdmits(initial, next, items[1..], outputs);
    }
  }

  lemma CraftNeeds(c: Compiled, m: Machine, recipe: Id, item: Id)
    requires Craft(c, m, recipe).Ok?
    ensures var r := c.recipes[recipe];
            && Count(r.inputs, item) <= Count(StockOf(m.state, OfCharacter), item)
            && Count(StockOf(m.state, OfCharacter), item) - Count(r.inputs, item) + Count(r.outputs, item) <= U32_MAX
  {
  }

  /** A recipe that fires on every path is admitted. */
  lemma CraftAdmits(c: Compiled, initial: GameState, b: Bounds, paths: set<GameState>, recipe: Id)
    requires StockTight(initial, b, paths) && recipe in c.recipes
    requires forall p <- paths :: Craft(c, Start(p), recipe).Ok?
    ensures BoundsAfter(c, map[], initial, ApplyRecipe(recipe), b).Some?
  {
    hide Craft, StockOf, Count, RangeOf, ConsumeAll, ProduceAll, StockTight;
    forall item: Id ensures Fits(initial, b, c.recipes[recipe], item) {
      CraftFits(c, initial, b, paths, recipe, item);
    }
    FittingAdmits(initial, b, c.recipes[recipe]);
  }

  lemma FittingAdmits(initial: GameState, b: Bounds, r: RecipeDefinition)
    requires forall item: Id :: Fits(initial, b, r, item)
    ensures ConsumeAll(initial, b, SortedKeys(r.inputs.Keys), r.inputs).Some?
    ensures ProduceAll(initial, ConsumeAll(initial, b, SortedKeys(r.inputs.Keys), r.inputs).value,
                       SortedKeys(r.outputs.Keys), r.outputs).Some?
  {
    hide StockOf, Count, RangeOf, ConsumeAll, ProduceAll, SortedKeys;
    var inputs, outputs := SortedKeys(r.inputs.Keys), SortedKeys(r.outputs.Keys);
    SortedAreDistinct(r.inputs.Keys);
    SortedAreDistinct(r.outputs.Keys);
    forall item | item in inputs
      ensures Count(r.inputs, item) <= RangeOf(initial, b, OfCharacter, item).minimum
      ensures Count(r.inputs, item) <= RangeOf(initial, b, OfCharacter, item).maximum
    {
      assert Fits(initial, b, r, item);
    }
    ConsumeAllAdmits(initial, b, inputs, r.inputs);
    var between := ConsumeAll(initial, b, inputs, r.inputs).value;
    forall item | item in outputs
      ensures RangeOf(initial, between, OfCharacter, item).minimum + Count(r.outputs, item) <= U32_MAX
      ensures RangeOf(initial, between, OfCharacter, item).maximum + Count(r.outputs, item) <= U32_MAX
    {
      assert Fits(initial, b, r, item);
      ConsumeAllRanges(initial, b, inputs, r.inputs, OfCharacter, item);
      NotAnInput(r.inputs, item);
    }
    ProduceAllAdmits(initial, between, outputs, r.outputs);
  }

  lemma NotAnInput(inputs: Inventory, item: Id)
    ensures item !in inputs ==> Count(inputs, item) == 0
  {
  }

  predicate Fits(initial: GameState, b: Bounds, r: RecipeDefinition, item: Id) {
    var range := RangeOf(initial, b, OfCharacter, item);
    && Count(r.inputs, item) <= range.minimum && Count(r.inputs, item) <= range.maximum
    && range.minimum - Count(r.inputs, item) + Count(r.outputs, item) <= U32_MAX
    && range.maximum - Count(r.inputs, item) + Count(r.outputs, item) <= U32_MAX
  }

  lemma CraftFits(c: Compiled, initial: GameState, b: Bounds, paths: set<GameState>, recipe: Id, item: Id)
    requires StockTight(initial, b, paths) && recipe in c.recipes
    requires forall p <- paths :: Craft(c, Start(p), recipe).Ok?
    ensures Fits(initial, b, c.recipes[recipe], item)
  {
    hide Craft, StockOf, Count, RangeOf;
    assert LowAttained(initial, b, paths, OfCharacter, item) && HighAttained(initial, b, paths, OfCharacter, item);
    var low :| low in paths && Count(StockOf(low, OfCharacter), item) == RangeOf(initial, b, OfCharacter, item).minimum;
    var high :| high in paths && Count(StockOf(high, OfCharacter), item) == RangeOf(initial, b, OfCharacter, item).maximum;
    CraftNeeds(c, Start(low), recipe, item);
    CraftNeeds(c, Start(high), recipe, item);
  }

  lemma ScheduleAdmits(c: Compiled, parameters: Parameters, initial: GameState, b: Bounds, paths: set<GameState>, event: Id)
    requires LatestAttained(b, paths) && UsesTight(initial, b, paths)
    requires forall p <- paths :: Effects.Schedule(c, Start(p), event).Ok?
    ensures BoundsAfter(c, parameters, initial, ScheduleEvent(event), b).Some?
  {
    hide UsedIn, Pending, Enqueue;
    var late :| late in paths && late.world.time == b.latest.value;
    assert Effects.Schedule(c, Start(late), event).Ok?;
  }

  lemma PlainAdmits(c: Compiled, parameters: Parameters, initial: GameState, e: Effect, b: Bounds, paths: set<GameState>)
    requires !e.RandomChance? && Tight(initial, b, paths) && RunsOnAll(c, parameters, e, paths)
    ensures BoundsAfter(c, parameters, initial, e, b).Some?
  {
    hide Craft, TransferFromNpc, TransferWithStorage, Effects.Schedule, StockTight, UsesTight, StockOf, Count, MoveRange,
         ConsumeAll, ProduceAll, AlreadyUsed;
    var some :| some in paths && some.world.time == b.latest.value;
    assert ApplyPlain(c, parameters, e, Start(some)).Ok?;
    match e
    case TransferNpcItemToCharacter(reference, item, count) =>
      var npc := Resolve(reference, parameters).value;
      forall p | p in paths
        ensures count <= Count(StockOf(p, OfNpc(npc)), item) && Count(StockOf(p, OfCharacter), item) + count <= U32_MAX
      {
        NpcTransferNeeds(Start(p), npc, item, count);
      }
      MoveAdmits(initial, b, paths, OfNpc(npc), OfCharacter, item, count);
    case TransferStorageItemToCharacter(storage, item, count) =>
      forall p | p in paths
        ensures count <= Count(StockOf(p, OfStorage(storage)), item)
                && Count(StockOf(p, OfCharacter), item) + count <= U32_MAX
      {
        StorageTransferNeeds(c, Start(p), storage, item, count, true);
      }
      MoveAdmits(initial, b, paths, OfStorage(storage), OfCharacter, item, count);
    case TransferCharacterItemToStorage(storage, item, count) =>
      forall p | p in paths
        ensures count <= Count(StockOf(p, OfCharacter), item)
                && Count(StockOf(p, OfStorage(storage)), item) + count <= U32_MAX
      {
        StorageTransferNeeds(c, Start(p), storage, item, count, false);
      }
      MoveAdmits(initial, b, paths, OfCharacter, OfStorage(storage), item, count);
    case ApplyRecipe(recipe) =>
      CraftKnows(c, Start(some), recipe);
      CraftAdmits(c, initial, b, paths, recipe);
    case ScheduleEvent(event) => ScheduleAdmits(c, parameters, initial, b, paths, event);
    case _ =>
  }

  lemma CraftKnows(c: Compiled, m: Machine, recipe: Id)
    requires Craft(c, m, recipe).Ok?
    ensures recipe in c.recipes
  {
  }

  // ---- Tightness survives a plain effect ----

  /** Where every path leads. */
  ghost predicate LeadsTo(c: Compiled, parameters: Parameters, e: Effect, paths: set<GameState>, next: set<GameState>)
    requires !e.RandomChance?
  {
    forall p <- paths ::
      ApplyPlain(c, parameters, e, Start(p)).Ok? && ApplyPlain(c, parameters, e, Start(p)).value.state in next
  }

  lemma StockStaysTight(
    c: Compiled, parameters: Parameters, initial: GameState, e: Effect, b: Bounds, paths: set<GameState>, next: set<GameState>)
    requires !e.RandomChance? && StockTight(initial, b, paths) && LeadsTo(c, parameters, e, paths, next)
    requires BoundsAfter(c, parameters, initial, e, b).Some?
    ensures StockTight(initial, BoundsAfter(c, parameters, initial, e, b).value, next)
  {
    hide ApplyPlain, StockOf, Count, RangeOf, BoundsAfter, Taken, Added;
    var after := BoundsAfter(c, parameters, initial, e, b).value;
    forall owner: StockOwner, item: Id
      ensures LowAttained(initial, after, next, owner, item) && HighAttained(initial, after, next, owner, item)
    {
      BoundsShift(c, parameters, initial, e, b, owner, item);
      assert LowAttained(initial, b, paths, owner, item) && HighAttained(initial, b, paths, owner, item);
      var low :| low in paths && Count(StockOf(low, owner), item) == RangeOf(initial, b, owner, item).minimum;
      var high :| high in paths && Count(StockOf(high, owner), item) == RangeOf(initial, b, owner, item).maximum;
      PlainShifts(c, parameters, e, Start(low), owner, item);
      PlainShifts(c, parameters, e, Start(high), owner, item);
      assert ApplyPlain(c, parameters, e, Start(low)).value.state in next;
      assert ApplyPlain(c, parameters, e, Start(high)).value.state in next;
    }
  }

  lemma LatestStaysAttained(
    c: Compiled, parameters: Parameters, initial: GameState, e: Effect, b: Bounds, paths: set<GameState>, next: set<GameState>)
    requires !e.RandomChance? && LatestAttained(b, paths) && LeadsTo(c, parameters, e, paths, next)
    requires BoundsAfter(c, parameters, initial, e, b).Some?
    ensures LatestAttained(BoundsAfter(c, parameters, initial, e, b).value, next)
  {
    hide LeadsTo;
    var late :| late in paths && late.world.time == b.latest.value;
    Leads(c, parameters, e, paths, next, late);
    TimesAgree(c, parameters, initial, e, b, late);
  }

  lemma Leads(
    c: Compiled, parameters: Parameters, e: Effect, paths: set<GameState>, next: set<GameState>, p: GameState)
    requires !e.RandomChance? && LeadsTo(c, parameters, e, paths, next) && p in paths
    ensures ApplyPlain(c, parameters, e, Start(p)).Ok? && ApplyPlain(c, parameters, e, Start(p)).value.state in next
  {
  }

  /** On a path at the latest time, the clock and its bound advance together. */
  lemma TimesAgree(c: Compiled, parameters: Parameters, initial: GameState, e: Effect, b: Bounds, p: GameState)
    requires !e.RandomChance? && b.latest == Some(p.world.time)
    requires ApplyPlain(c, parameters, e, Start(p)).Ok? && BoundsAfter(c, parameters, initial, e, b).Some?
    ensures BoundsAfter(c, parameters, initial, e, b).value.latest
         == Some(ApplyPlain(c, parameters, e, Start(p)).value.state.world.time)
  {
    hide AlreadyUsed, Enqueue, StockOf, Count, ConsumeAll, ProduceAll, MoveRange, Craft, TransferFromNpc, TransferWithStorage;
    match e
    case AdvanceTime(_) =>
    case ScheduleEvent(_) =>
    case _ =>
      BoundsKeep(c, parameters, initial, e, b);
      TimeKept(c, parameters, e, Start(p));
  }

  lemma BoundsKeep(c: Compiled, parameters: Parameters, initial: GameState, e: Effect, b: Bounds)
    requires !e.RandomChance? && !e.AdvanceTime? && !e.ScheduleEvent? && BoundsAfter(c, parameters, initial, e, b).Some?
    ensures var after := BoundsAfter(c, parameters, initial, e, b).value;
            after.latest == b.latest && after.scheduled == b.scheduled
  {
    hide StockOf, Count, MoveRange, ConsumeAll, ProduceAll;
    match e
    case TransferNpcItemToCharacter(npc, moved, count) =>
      MoveRanges(initial, b, OfNpc(Resolve(npc, parameters).value), OfCharacter, moved, count, OfCharacter, moved);
    case TransferStorageItemToCharacter(storage, moved, count) =>
      MoveRanges(initial, b, OfStorage(storage), OfCharacter, moved, count, OfCharacter, moved);
    case TransferCharacterItemToStorage(storage, moved, count) =>
      MoveRanges(initial, b, OfCharacter, OfStorage(storage), moved, count, OfCharacter, moved);
    case ApplyRecipe(recipe) => RecipeRanges(c, initial, c.recipes[recipe], b, OfCharacter, recipe);
    case _ =>
  }

  lemma TimeKept(c: Compiled, parameters: Parameters, e: Effect, m: Machine)
    requires !e.RandomChance? && !e.AdvanceTime? && ApplyPlain(c, parameters, e, m).Ok?
    ensures ApplyPlain(c, parameters, e, m).value.state.world.time == m.state.world.time
  {
    hide AlreadyUsed, Enqueue, SetCount, Count, HasInputs, HasRoom, AfterRecipe, SourceKnows, Toggle;
  }

  lemma LogKept(c: Compiled, parameters: Parameters, e: Effect, m: Machine)
    requires !e.RandomChance? && ApplyPlain(c, parameters, e, m).Ok?
    ensures ApplyPlain(c, parameters, e, m).value.state.log == m.state.log
  {
    hide AlreadyUsed, Enqueue, SetCount, Count, HasInputs, HasRoom, AfterRecipe, SourceKnows, Toggle;
  }

  /** Nothing used is ever forgotten on a path. */
  lemma UsesKept(c: Compiled, parameters: Parameters, e: Effect, p: GameState, id: Id)
    requires !e.RandomChance? && ApplyPlain(c, parameters, e, Start(p)).Ok?
    ensures var next := ApplyPlain(c, parameters, e, Start(p)).value.state;
            && (Pending(p.world.queue, id) ==> Pending(next.world.queue, id))
            && (AlreadyUsed(Start(p), id) ==> AlreadyUsed(Start(next), id))
            && (e == ScheduleEvent(id) ==> Pending(next.world.queue, id))
  {
    hide ApplyPlain;
    PlainUses(c, parameters, e, Start(p), id);
    LogKept(c, parameters, e, Start(p));
    if e == ScheduleEvent(id) {
      ScheduledIsPending(c, parameters, p, id);
    }
  }

  lemma ScheduledIsPending(c: Compiled, parameters: Parameters, p: GameState, id: Id)
    requires ApplyPlain(c, parameters, ScheduleEvent(id), Start(p)).Ok?
    ensures Pending(ApplyPlain(c, parameters, ScheduleEvent(id), Start(p)).value.state.world.queue, id)
  {
    var due := p.world.time + c.deferredEvents[id].delay;
    EnqueueHas(p.world.queue, ScheduledEvent(id, due, c.deferredEvents[id].kind), id);
  }

  ghost predicate IsImage(c: Compiled, parameters: Parameters, e: Effect, paths: set<GameState>, next: set<GameState>)
    requires !e.RandomChance?
  {
    && (forall p <- paths :: ApplyPlain(c, parameters, e, Start(p)).Ok?)
    && next == set p <- paths :: ApplyPlain(c, parameters, e, Start(p)).value.state
  }

  lemma UsesStayTight(
    c: Compiled, parameters: Parameters, initial: GameState, e: Effect, b: Bounds, paths: set<GameState>, next: set<GameState>)
    requires !e.RandomChance? && UsesTight(initial, b, paths) && paths != {} && IsImage(c, parameters, e, paths, next)
    requires BoundsAfter(c, parameters, initial, e, b).Some?
    ensures UsesTight(initial, BoundsAfter(c, parameters, initial, e, b).value, next)
  {
    hide ApplyPlain, AlreadyUsed, Pending, BoundsAfter, IsImage;
    var after := BoundsAfter(c, parameters, initial, e, b).value;
    ScheduledGrows(c, parameters, initial, e, b);
    forall id | id in after.scheduled ensures exists q <- next :: Pending(q.world.queue, id) {
      var p: GameState :| p in paths && (id in b.scheduled ==> Pending(p.world.queue, id));
      PathKeepsUses(c, parameters, e, paths, next, p, id);
    }
    forall q, id: Id | q in next && AlreadyUsed(Start(initial), id) ensures AlreadyUsed(Start(q), id) {
      var p := PathTo(c, parameters, e, paths, next, q);
      PathKeepsUses(c, parameters, e, paths, next, p, id);
    }
  }

  lemma PathTo(c: Compiled, parameters: Parameters, e: Effect, paths: set<GameState>, next: set<GameState>, q: GameState)
    returns (p: GameState)
    requires !e.RandomChance? && IsImage(c, parameters, e, paths, next) && q in next
    ensures p in paths && ApplyPlain(c, parameters, e, Start(p)).Ok? && q == ApplyPlain(c, parameters, e, Start(p)).value.state
  {
    hide ApplyPlain;
    p :| p in paths && q == ApplyPlain(c, parameters, e, Start(p)).value.state;
  }

  lemma PathKeepsUses(
    c: Compiled, parameters: Parameters, e: Effect, paths: set<GameState>, next: set<GameState>, p: GameState, id: Id)
    requires !e.RandomChance? && IsImage(c, parameters, e, paths, next) && p in paths
    ensures ApplyPlain(c, parameters, e, Start(p)).Ok?
    ensures var q := ApplyPlain(c, parameters, e, Start(p)).value.state;
            && q in next
            && (Pending(p.world.queue, id) || e == ScheduleEvent(id) ==> Pending(q.world.queue, id))
            && (AlreadyUsed(Start(p), id) ==> AlreadyUsed(Start(q), id))
  {
    hide ApplyPlain, AlreadyUsed, Pending;
    UsesKept(c, parameters, e, p, id);
  }

  lemma ScheduledGrows(c: Compiled, parameters: Parameters, initial: GameState, e: Effect, b: Bounds)
    requires !e.RandomChance? && BoundsAfter(c, parameters, initial, e, b).Some?
    ensures forall id <- BoundsAfter(c, parameters, initial, e, b).value.scheduled :: id in b.scheduled || e == ScheduleEvent(id)
  {
    hide AlreadyUsed;
    if !e.AdvanceTime? && !e.ScheduleEvent? {
      BoundsKeep(c, parameters, initial, e, b);
    }
  }

  // ---- Every effect ----

  lemma PlainPaths(c: Compiled, parameters: Parameters, e: Effect, paths: set<GameState>)
    requires !e.RandomChance? && AllPathsAfter(c, parameters, e, paths).Some?
    ensures RunsOnAll(c, parameters, e, paths)
    ensures AllPathsAfter(c, parameters, e, paths).value
         == set p <- paths :: ApplyPlain(c, parameters, e, Start(p)).value.state
  {
    hide ApplyPlain;
    forall p | p in paths ensures ApplyPlain(c, parameters, e, Start(p)).Ok? {
      assert PathsAfter(c, parameters, e, p).Some?;
    }
  }

  lemma PlainTight(c: Compiled, parameters: Parameters, initial: GameState, e: Effect, b: Bounds, paths: set<GameState>)
    requires !e.RandomChance? && Tight(initial, b, paths) && AllPathsAfter(c, parameters, e, paths).Some?
    ensures BoundsAfter(c, parameters, initial, e, b).Some?
    ensures Tight(initial, BoundsAfter(c, parameters, initial, e, b).value, AllPathsAfter(c, parameters, e, paths).value)
  {
    hide ApplyPlain, StockTight, UsesTight, BoundsAfter, AllPathsAfter;
    var next := AllPathsAfter(c, parameters, e, paths).value;
    PlainPaths(c, parameters, e, paths);
    PlainAdmits(c, parameters, initial, e, b, paths);
    assert LeadsTo(c, parameters, e, paths, next);
    StockStaysTight(c, parameters, initial, e, b, paths, next);
    LatestStaysAttained(c, parameters, initial, e, b, paths, next);
    UsesStayTight(c, parameters, initial, e, b, paths, next);
  }

  ghost function SpentAll(paths: set<GameState>): set<GameState>
    requires forall p <- paths :: p.entropy.cursor < MAX_ENTROPY_CURSOR
  {
    set p <- paths :: Spent(p)
  }

  lemma SpentTight(initial: GameState, b: Bounds, paths: set<GameState>)
    requires Tight(initial, b, paths) && forall p <- paths :: p.entropy.cursor < MAX_ENTROPY_CURSOR
    ensures Tight(initial, b, SpentAll(paths))
  {
    hide RangeOf, Count, UsedIn, Pending;
    var spent := SpentAll(paths);
    assert forall p <- paths :: Spent(p) in spent;
    forall owner: StockOwner, item: Id
      ensures LowAttained(initial, b, spent, owner, item) && HighAttained(initial, b, spent, owner, item)
    {
      assert LowAttained(initial, b, paths, owner, item) && HighAttained(initial, b, paths, owner, item);
      var low :| low in paths && Count(StockOf(low, owner), item) == RangeOf(initial, b, owner, item).minimum;
      var high :| high in paths && Count(StockOf(high, owner), item) == RangeOf(initial, b, owner, item).maximum;
      assert StockOf(Spent(low), owner) == StockOf(low, owner) && StockOf(Spent(high), owner) == StockOf(high, owner);
    }
    forall id | id in b.scheduled ensures exists q <- spent :: Pending(q.world.queue, id) {
      var p :| p in paths && Pending(p.world.queue, id);
      assert Pending(Spent(p).world.queue, id);
    }
    var late :| late in paths && late.world.time == b.latest.value;
    assert Spent(late).world.time == b.latest.value;
  }

  /** A chance explores the branches a draw can take, from paths that have drawn. */
  lemma ChancePaths(c: Compiled, parameters: Parameters, e: Effect, paths: set<GameState>)
    requires e.RandomChance? && AllPathsAfter(c, parameters, e, paths).Some?
    ensures forall p <- paths :: p.entropy.cursor < MAX_ENTROPY_CURSOR
    ensures e.percent > 0 ==> AllPathsAfter(c, parameters, e.onSuccess, SpentAll(paths)).Some?
    ensures e.percent != 100 ==> AllPathsAfter(c, parameters, e.onFailure, SpentAll(paths)).Some?
    ensures AllPathsAfter(c, parameters, e, paths).value
         == if e.percent == 0 then AllPathsAfter(c, parameters, e.onFailure, SpentAll(paths)).value
            else if e.percent == 100 then AllPathsAfter(c, parameters, e.onSuccess, SpentAll(paths)).value
            else AllPathsAfter(c, parameters, e.onSuccess, SpentAll(paths)).value
                 + AllPathsAfter(c, parameters, e.onFailure, SpentAll(paths)).value
  {
    forall p | p in paths
      ensures p.entropy.cursor < MAX_ENTROPY_CURSOR
      ensures e.percent > 0 ==> PathsAfter(c, parameters, e.onSuccess, Spent(p)).Some?
      ensures e.percent != 100 ==> PathsAfter(c, parameters, e.onFailure, Spent(p)).Some?
    {
      assert PathsAfter(c, parameters, e, p).Some?;
    }
    var all := AllPathsAfter(c, parameters, e, paths).value;
    var spent := SpentAll(paths);
    if e.percent > 0 {
      BranchPaths(c, parameters, e.onSuccess, paths);
    }
    if e.percent != 100 {
      BranchPaths(c, parameters, e.onFailure, paths);
    }
    forall q
      ensures q in all <==> || (e.percent > 0 && Follows(c, parameters, e.onSuccess, paths, q))
                            || (e.percent != 100 && Follows(c, parameters, e.onFailure, paths, q))
    {
      ChanceFollows(c, parameters, e, paths, q);
    }
  }

  /** A state some path leads to once it has drawn. */
  predicate Follows(c: Compiled, parameters: Parameters, e: Effect, paths: set<GameState>, q: GameState)
    requires forall p <- paths :: p.entropy.cursor < MAX_ENTROPY_CURSOR
  {
    exists p <- paths :: PathsAfter(c, parameters, e, Spent(p)).Some? && q in PathsAfter(c, parameters, e, Spent(p)).value
  }

  lemma ChanceFollows(c: Compiled, parameters: Parameters, e: Effect, paths: set<GameState>, q: GameState)
    requires e.RandomChance? && AllPathsAfter(c, parameters, e, paths).Some?
    requires forall p <- paths :: p.entropy.cursor < MAX_ENTROPY_CURSOR
    ensures q in AllPathsAfter(c, parameters, e, paths).value <==>
      || (e.percent > 0 && Follows(c, parameters, e.onSuccess, paths, q))
      || (e.percent != 100 && Follows(c, parameters, e.onFailure, paths, q))
  {
    forall p | p in paths ensures PathsAfter(c, parameters, e, p).Some? {
    }
    if p :| p in paths && q in PathsAfter(c, parameters, e, p).value {
      assert q in AllPathsAfter(c, parameters, e, paths).value;
    }
  }

  lemma BranchPaths(c: Compiled, parameters: Parameters, e: Effect, paths: set<GameState>)
    requires forall p <- paths :: p.entropy.cursor < MAX_ENTROPY_CURSOR
    requires forall p <- paths :: PathsAfter(c, parameters, e, Spent(p)).Some?
    ensures AllPathsAfter(c, parameters, e, SpentAll(paths)).Some?
    ensures forall q :: q in AllPathsAfter(c, parameters, e, SpentAll(paths)).value <==> Follows(c, parameters, e, paths, q)
  {
    hide PathsAfter, Follows, Spent;
    var spent := SpentAll(paths);
    assert forall x <- spent :: PathsAfter(c, parameters, e, x).Some?;
    forall q ensures q in AllPathsAfter(c, parameters, e, spent).value <==> Follows(c, parameters, e, paths, q) {
      BranchFollows(c, parameters, e, paths, q);
    }
  }

  lemma BranchFollows(c: Compiled, parameters: Parameters, e: Effect, paths: set<GameState>, q: GameState)
    requires forall p <- paths :: p.entropy.cursor < MAX_ENTROPY_CURSOR
    requires AllPathsAfter(c, parameters, e, SpentAll(paths)).Some?
    ensures q in AllPathsAfter(c, parameters, e, SpentAll(paths)).value <==> Follows(c, parameters, e, paths, q)
  {
    hide PathsAfter, Spent, Follows, AllPathsAfter, SpentAll;
    var spent := SpentAll(paths);
    if q in AllPathsAfter(c, parameters, e, spent).value {
      var x := PathInto(c, parameters, e, spent, q);
      var p := SpentFrom(paths, x);
      FollowsPath(c, parameters, e, paths, p, q);
    }
    if Follows(c, parameters, e, paths, q) {
      var p := PathFollowed(c, parameters, e, paths, q);
      SpentHas(paths, p);
      PathsInto(c, parameters, e, spent, Spent(p), q);
    }
  }

  lemma PathInto(c: Compiled, parameters: Parameters, e: Effect, paths: set<GameState>, q: GameState) returns (p: GameState)
    requires AllPathsAfter(c, parameters, e, paths).Some? && q in AllPathsAfter(c, parameters, e, paths).value
    ensures p in paths && PathsAfter(c, parameters, e, p).Some? && q in PathsAfter(c, parameters, e, p).value
  {
    hide PathsAfter;
    p :| p in paths && q in PathsAfter(c, parameters, e, p).value;
  }

  lemma PathsInto(c: Compiled, parameters: Parameters, e: Effect, paths: set<GameState>, p: GameState, q: GameState)
    requires AllPathsAfter(c, parameters, e, paths).Some? && p in paths
    requires PathsAfter(c, parameters, e, p).Some? && q in PathsAfter(c, parameters, e, p).value
    ensures q in AllPathsAfter(c, parameters, e, paths).value
  {
    hide PathsAfter;
  }

  lemma SpentFrom(paths: set<GameState>, x: GameState) returns (p: GameState)
    requires forall p <- paths :: p.entropy.cursor < MAX_ENTROPY_CURSOR
    requires x in SpentAll(paths)
    ensures p in paths && x == Spent(p)
  {
    p :| p in paths && x == Spent(p);
  }

  lemma SpentHas(paths: set<GameState>, p: GameState)
    requires forall p <- paths :: p.entropy.cursor < MAX_ENTROPY_CURSOR
    requires p in paths
    ensures Spent(p) in SpentAll(paths)
  {
    hide Spent;
  }

  lemma FollowsPath(c: Compiled, parameters: Parameters, e: Effect, paths: set<GameState>, p: GameState, q: GameState)
    requires forall p <- paths :: p.entropy.cursor < MAX_ENTROPY_CURSOR
    requires p in paths && PathsAfter(c, parameters, e, Spent(p)).Some? && q in PathsAfter(c, parameters, e, Spent(p)).value
    ensures Follows(c, parameters, e, paths, q)
  {
    hide PathsAfter, Spent;
  }

  lemma PathFollowed(c: Compiled, parameters: Parameters, e: Effect, paths: set<GameState>, q: GameState)
    returns (p: GameState)
    requires forall p <- paths :: p.entropy.cursor < MAX_ENTROPY_CURSOR
    requires Follows(c, parameters, e, paths, q)
    ensures p in paths && PathsAfter(c, parameters, e, Spent(p)).Some? && q in PathsAfter(c, parameters, e, Spent(p)).value
  {
    hide PathsAfter, Spent;
    p :| p in paths && PathsAfter(c, parameters, e, Spent(p)).Some? && q in PathsAfter(c, parameters, e, Spent(p)).value;
  }

  /** An effect that fails on no path is admitted, with tight ranges. */
  lemma {:induction false} EffectTight(
    c: Compiled, parameters: Parameters, initial: GameState, e: Effect, b: Bounds, paths: set<GameState>)
    requires Tight(initial, b, paths) && AllPathsAfter(c, parameters, e, paths).Some?
    ensures BoundsAfter(c, parameters, initial, e, b).Some?
    ensures Tight(initial, BoundsAfter(c, parameters, initial, e, b).value, AllPathsAfter(c, parameters, e, paths).value)
    decreases e
  {
    hide Tight, AllPathsAfter, MergeBounds, AlreadyUsed, MoveRange, ConsumeAll, ProduceAll, SpentAll;
    if e.RandomChance? {
      ChancePaths(c, parameters, e, paths);
      SpentTight(initial, b, paths);
      var spent := SpentAll(paths);
      if e.percent != 0 {
        EffectTight(c, parameters, initial, e.onSuccess, b, spent);
      }
      if e.percent != 100 {
        EffectTight(c, parameters, initial, e.onFailure, b, spent);
      }
      if e.percent != 0 && e.percent != 100 {
        MergeTight(initial, BoundsAfter(c, parameters, initial, e.onSuccess, b).value,
                   BoundsAfter(c, parameters, initial, e.onFailure, b).value,
                   AllPathsAfter(c, parameters, e.onSuccess, spent).value,
                   AllPathsAfter(c, parameters, e.onFailure, spent).value);
      }
    } else {
      PlainTight(c, parameters, initial, e, b, paths);
    }
  }

  lemma {:induction false} EffectsTight(
    c: Compiled, parameters: Parameters, initial: GameState, effects: seq<Effect>, b: Bounds, paths: set<GameState>)
    requires Tight(initial, b, paths) && PathsAfterAll(c, parameters, effects, paths).Some?
    ensures BoundsAfterAll(c, parameters, initial, effects, b).Some?
    ensures Tight(initial, BoundsAfterAll(c, parameters, initial, effects, b).value,
                  PathsAfterAll(c, parameters, effects, paths).value)
    decreases |effects|
  {
    hide Tight, AllPathsAfter, BoundsAfter;
    if effects != [] {
      EffectTight(c, parameters, initial, effects[0], b, paths);
      EffectsTight(c, parameters, initial, effects[1..], BoundsAfter(c, parameters, initial, effects[0], b).value,
                   AllPathsAfter(c, parameters, effects[0], paths).value);
    }
  }

  // ---- The legal set ----

  predicate AuthoredQueue(c: Compiled, queue: seq<ScheduledEvent>) {
    forall e <- queue :: ProgramOf(c, e).Some?
  }

  /** The interval analysis and its screens refuse nothing the preflight admits. */
  lemma PreflightIsAvailable(c: Compiled, parameters: Parameters, effects: seq<Effect>, s: GameState)
    requires AuthoredQueue(c, s.world.queue) && Preflight(c, parameters, effects, s)
    ensures Available(c, parameters, effects, s)
  {
    hide StockTight, UsesTight, PathsAfterAll, BoundsAfterAll, DuePaths, DueNow, WithoutDue, ProgramOf, MovesStorage,
         PendingProgram, NewProgram;
    InitialTight(s);
    EffectsTight(c, parameters, s, effects, InitialBounds(s), {s});
  }

  lemma {:induction false} PendingAreAuthored(c: Compiled, log: seq<Event>)
    requires Timeline.DisjointEvents(c) && Schedule.RunQueue(c, log).Some?
    ensures AuthoredQueue(c, Schedule.RunQueue(c, log).value.queue)
    decreases |log|
  {
    if log == [] {
      Schedule.SortedQueueRepresents(AbsoluteEvents(c));
    } else {
      var front, e := log[..|log| - 1], log[|log| - 1];
      PendingAreAuthored(c, front);
      Schedule.QueueInvariant(c, front);
      if e.kind.Scheduled? {
        var q := Schedule.RunQueue(c, front).value;
        Schedule.EnqueueSorted(q.queue, ScheduledEvent(e.kind.event, e.kind.due, e.kind.eventKind));
      }
    }
  }

  lemma AdmittedIsAuthored(c: Compiled, s: GameState)
    requires Timeline.DisjointEvents(c) && Schedule.Admitted(c, s)
    ensures AuthoredQueue(c, s.world.queue)
  {
    PendingAreAuthored(c, s.log);
  }

  /**
   * The legal set of validated content, in every admitted state: a candidate that no draws can make fail is offered, and
   * an offered one never fails for want of stock, room or a fresh event identity.
   */
  lemma OfferedExactly(d: Draft, s: GameState, action: Id, parameters: Parameters)
    requires StructureValid(d) && Schedule.Admitted(Compile(d), s) && s.entropy.algorithm == ENTROPY_ALGORITHM
    requires Legal(Compile(d), s, action, parameters)
    ensures (forall stream: Stream :: Succeeds(Compile(d), stream, parameters, Compile(d).actions[action].effects, s))
            ==> Enumerated(Compile(d), s, action, parameters)
    ensures Enumerated(Compile(d), s, action, parameters) ==>
      forall stream: Stream :: Step(Compile(d), stream, s, action, parameters).Err? ==>
        !Shortage(Step(Compile(d), stream, s, action, parameters).error)
  {
    hide StructureValid, Compile, Available, Explorable, Succeeds, DomainAllows, Preflight, Step;
    var c := Compile(d);
    var effects := c.actions[action].effects;
    ValidatedIsExplorable(d, s, action);
    Timeline.CompiledEvents(d);
    AdmittedIsAuthored(c, s);
    PreflightIsExact(c, parameters, effects, s);
    if Preflight(c, parameters, effects, s) {
      PreflightIsAvailable(c, parameters, effects, s);
    }
    forall stream: Stream | Step(c, stream, s, action, parameters).Err?
      ensures !Shortage(Step(c, stream, s, action, parameters).error)
    {
      StepNeverShort(d, stream, s, action, parameters);
    }
  }
}

// Who holds what: transfers between owners, and recipes fired by the player, on whole holdings.
module Ownership {
  import opened Basics
  import opened Model
  import opened Content
  import opened Effects
  import opened Kernel

  datatype Owner = Player | Npc(npc: Id) | Storage(storage: Id)

  type Holdings = map<Owner, Inventory>

  function Held(h: Holdings, owner: Owner, item: Id): u32 {
    if owner in h then Count(h[owner], item) else 0
  }

  /** Units of an item over all owners. */
  ghost function Total(h: Holdings, item: Id): nat
    decreases |h|
  {
    if h == map[] then 0
    else
      var owner :| owner in h;
      Count(h[owner], item) + Total(h - {owner}, item)
  }

  /** Any owner's stock can be split off the total. */
  lemma {:induction false} TotalSplit(h: Holdings, owner: Owner, item: Id)
    requires owner in h
    ensures Total(h, item) == Count(h[owner], item) + Total(h - {owner}, item)
    decreases |h|
  {
    var picked :| picked in h && Total(h, item) == Count(h[picked], item) + Total(h - {picked}, item);
    if picked != owner {
      var rest := h - {picked};
      TotalSplit(rest, owner, item);
      TotalSplit(h - {owner}, picked, item);
      assert rest - {owner} == h - {owner} - {picked};
    }
  }

  lemma TotalUpdate(h: Holdings, owner: Owner, inventory: Inventory, item: Id)
    requires owner in h
    ensures Total(h[owner := inventory], item) == Total(h, item) - Count(h[owner], item) + Count(inventory, item)
  {
    TotalSplit(h, owner, item);
    TotalSplit(h[owner := inventory], owner, item);
    assert h[owner := inventory] - {owner} == h - {owner};
  }

  lemma TotalInsert(h: Holdings, owner: Owner, inventory: Inventory, item: Id)
    requires owner !in h
    ensures Total(h[owner := inventory], item) == Total(h, item) + Count(inventory, item)
  {
    TotalSplit(h[owner := inventory], owner, item);
    assert h[owner := inventory] - {owner} == h;
  }

  lemma TotalCovers(h: Holdings, owner: Owner, item: Id)
    ensures Held(h, owner, item) <= Total(h, item)
  {
    if owner in h {
      TotalSplit(h, owner, item);
    }
  }

  // ---- Moves ----

  datatype Move =
    | Transfer(source: Owner, target: Owner, item: Id, count: u32)
    | Fire(inputs: Inventory, outputs: Inventory)

  /** The holdings after a move, if both owners exist and stock and room suffice. */
  function Apply(h: Holdings, move: Move): Option<Holdings> {
    match move
    case Transfer(source, target, item, count) =>
      if && source in h && target in h && source != target && count > 0
         && Count(h[source], item) >= count && Count(h[target], item) + count <= U32_MAX
      then Some(h[source := SetCount(h[source], item, Count(h[source], item) - count)]
                 [target := SetCount(h[target], item, Count(h[target], item) + count)])
      else None
    case Fire(inputs, outputs) =>
      if Player in h && HasInputs(h[Player], inputs) && HasRoom(h[Player], inputs, outputs)
      then Some(h[Player := AfterRecipe(h[Player], inputs, outputs)])
      else None
  }

  function Consumed(move: Move, item: Id): u32 {
    if move.Fire? then Count(move.inputs, item) else 0
  }

  function Produced(move: Move, item: Id): u32 {
    if move.Fire? then Count(move.outputs, item) else 0
  }

  lemma AfterRecipeCount(inventory: Inventory, inputs: Inventory, outputs: Inventory, item: Id)
    requires HasInputs(inventory, inputs) && HasRoom(inventory, inputs, outputs)
    ensures Count(AfterRecipe(inventory, inputs, outputs), item)
         == Count(inventory, item) - Count(inputs, item) + Count(outputs, item)
  {
  }

  /** Transfers conserve every item; a recipe changes totals by exactly its outputs and inputs. */
  lemma ApplyConserves(h: Holdings, move: Move, item: Id)
    requires Apply(h, move).Some?
    ensures Total(Apply(h, move).value, item) + Consumed(move, item) == Total(h, item) + Produced(move, item)
  {
    match move
    case Transfer(source, target, moved, count) =>
      var given := SetCount(h[source], moved, Count(h[source], moved) - count);
      var received := SetCount(h[target], moved, Count(h[target], moved) + count);
      TotalUpdate(h, source, given, item);
      TotalUpdate(h[source := given], target, received, item);
    case Fire(inputs, outputs) =>
      TotalUpdate(h, Player, AfterRecipe(h[Player], inputs, outputs), item);
      AfterRecipeCount(h[Player], inputs, outputs, item);
  }

  predicate NoZeroEntries(h: Holdings) {
    forall owner <- h :: forall item <- h[owner] :: h[owner][item] > 0
  }

  lemma ApplyNoZeroEntries(h: Holdings, move: Move)
    requires NoZeroEntries(h) && Apply(h, move).Some?
    requires move.Fire? ==> forall item <- move.outputs :: move.outputs[item] > 0
    ensures NoZeroEntries(Apply(h, move).value)
    ensures Apply(h, move).value.Keys == h.Keys
  {
  }

  // ---- The kernel's state as holdings ----

  function Owners(npcs: map<Id, Inventory>, storages: map<Id, Inventory>): set<Owner> {
    {Player} + (set n <- npcs :: Npc(n)) + (set b <- storages :: Storage(b))
  }

  function InventoryOf(carried: Inventory, npcs: map<Id, Inventory>, storages: map<Id, Inventory>, owner: Owner): Inventory
    requires owner in Owners(npcs, storages)
  {
    match owner
    case Player => carried
    case Npc(n) => npcs[n]
    case Storage(b) => storages[b]
  }

  function Combine(carried: Inventory, npcs: map<Id, Inventory>, storages: map<Id, Inventory>): Holdings {
    map owner | owner in Owners(npcs, storages) :: InventoryOf(carried, npcs, storages, owner)
  }

  lemma CombineNpc(carried: Inventory, npcs: map<Id, Inventory>, storages: map<Id, Inventory>, npc: Id, next: Inventory)
    requires npc in npcs
    ensures Combine(carried, npcs[npc := next], storages) == Combine(carried, npcs, storages)[Npc(npc) := next]
  {
  }

  lemma CombineStorage(carried: Inventory, npcs: map<Id, Inventory>, storages: map<Id, Inventory>, storage: Id, next: Inventory)
    requires storage in storages
    ensures Combine(carried, npcs, storages[storage := next]) == Combine(carried, npcs, storages)[Storage(storage) := next]
  {
  }

  lemma CombineCarried(carried: Inventory, npcs: map<Id, Inventory>, storages: map<Id, Inventory>, next: Inventory)
    ensures Combine(next, npcs, storages) == Combine(carried, npcs, storages)[Player := next]
  {
  }

  lemma CombineBoth(
    carried: Inventory, npcs: map<Id, Inventory>, storages: map<Id, Inventory>, storage: Id, stored: Inventory, next: Inventory)
    requires storage in storages
    ensures Combine(next, npcs, storages[storage := stored])
         == Combine(carried, npcs, storages)[Storage(storage) := stored][Player := next]
         == Combine(carried, npcs, storages)[Player := next][Storage(storage) := stored]
  {
    CombineStorage(carried, npcs, storages, storage, stored);
    CombineCarried(carried, npcs, storages[storage := stored], next);
  }

  function Stocks(npcs: map<Id, NpcState>): map<Id, Inventory> {
    map n <- npcs :: npcs[n].inventory
  }

  function HoldingsOf(s: GameState): Holdings {
    Combine(s.character.inventory, Stocks(s.world.npcs), s.world.storages)
  }

  /** The move an inventory record claims, if it is one. */
  function MoveOf(e: Event): Option<Move> {
    match e.kind
    case NpcItemTransferred(npc, item, count) => Some(Transfer(Npc(npc), Player, item, count))
    case StorageItemWithdrawn(storage, item, count) => Some(Transfer(Storage(storage), Player, item, count))
    case StorageItemDeposited(storage, item, count) => Some(Transfer(Player, Storage(storage), item, count))
    case RecipeApplied(_, inputs, outputs) => Some(Fire(inputs, outputs))
    case _ => None
  }

  lemma NpcTransferHoldings(s: GameState, w: World, npc: Id, updated: NpcState, carried: Inventory)
    requires npc in s.world.npcs && w == WithNpc(s.world, npc, updated)
    ensures Combine(carried, Stocks(w.npcs), w.storages)
         == HoldingsOf(s)[Npc(npc) := updated.inventory][Player := carried]
  {
    var stocks := Stocks(s.world.npcs);
    assert Stocks(w.npcs) == stocks[npc := updated.inventory];
    CombineNpc(s.character.inventory, stocks, w.storages, npc, updated.inventory);
    CombineCarried(s.character.inventory, Stocks(w.npcs), w.storages, carried);
  }

  lemma NpcTransferFields(m: Machine, npc: Id, item: Id, count: u32)
    requires TransferFromNpc(m, npc, item, count).Ok?
    ensures count > 0 && npc in m.state.world.npcs
    ensures var held, carried := m.state.world.npcs[npc].inventory, m.state.character.inventory;
            && Count(held, item) >= count && Count(carried, item) + count <= U32_MAX
            && var after := TransferFromNpc(m, npc, item, count).value.state;
            && after.world == WithNpc(m.state.world, npc, m.state.world.npcs[npc].(
                                inventory := SetCount(held, item, Count(held, item) - count)))
            && after.character.inventory == SetCount(carried, item, Count(carried, item) + count)
  {
  }

  lemma NpcTransferMoves(m: Machine, npc: Id, item: Id, count: u32)
    requires TransferFromNpc(m, npc, item, count).Ok?
    ensures var after := TransferFromNpc(m, npc, item, count).value;
            Some(HoldingsOf(after.state)) == Apply(HoldingsOf(m.state), Transfer(Npc(npc), Player, item, count))
  {
    hide SetCount, Count;
    NpcTransferFields(m, npc, item, count);
    var after := TransferFromNpc(m, npc, item, count).value.state;
    var updated := after.world.npcs[npc];
    NpcTransferHoldings(m.state, after.world, npc, updated, after.character.inventory);
    var h := HoldingsOf(m.state);
    assert h[Npc(npc)] == m.state.world.npcs[npc].inventory && h[Player] == m.state.character.inventory;
  }

  lemma StorageTransferMoves(c: Compiled, m: Machine, storage: Id, item: Id, count: u32, withdrawing: bool)
    requires TransferWithStorage(c, m, storage, item, count, withdrawing).Ok?
    ensures var after := TransferWithStorage(c, m, storage, item, count, withdrawing).value;
            Some(HoldingsOf(after.state)) == Apply(
              HoldingsOf(m.state),
              if withdrawing then Transfer(Storage(storage), Player, item, count)
              else Transfer(Player, Storage(storage), item, count))
  {
    hide SetCount;
    var w, carried := m.state.world, m.state.character.inventory;
    var after := TransferWithStorage(c, m, storage, item, count, withdrawing).value;
    CombineBoth(carried, Stocks(w.npcs), w.storages, storage,
                after.state.world.storages[storage], after.state.character.inventory);
    var h := HoldingsOf(m.state);
    assert h[Storage(storage)] == w.storages[storage] && h[Player] == carried;
  }

  lemma CraftMoves(c: Compiled, m: Machine, recipe: Id)
    requires Craft(c, m, recipe).Ok?
    ensures Some(HoldingsOf(Craft(c, m, recipe).value.state))
         == Apply(HoldingsOf(m.state), Fire(c.recipes[recipe].inputs, c.recipes[recipe].outputs))
  {
    CombineCarried(m.state.character.inventory, Stocks(m.state.world.npcs), m.state.world.storages,
                   Craft(c, m, recipe).value.state.character.inventory);
  }

  predicate MovesStock(e: Effect) {
    e.TransferNpcItemToCharacter? || e.TransferStorageItemToCharacter? || e.TransferCharacterItemToStorage? || e.ApplyRecipe?
  }

  /** Every other effect leaves all stock where it was and writes no inventory record. */
  lemma PlainKeepsStock(c: Compiled, parameters: Parameters, e: Effect, m: Machine)
    requires !e.RandomChance? && !MovesStock(e) && ApplyPlain(c, parameters, e, m).Ok?
    ensures var after := ApplyPlain(c, parameters, e, m).value;
            && after.state.world.storages == m.state.world.storages
            && after.state.world.npcs.Keys == m.state.world.npcs.Keys
            && (forall n <- m.state.world.npcs :: after.state.world.npcs[n].inventory == m.state.world.npcs[n].inventory)
            && after.state.character.inventory == m.state.character.inventory
  {
    hide AlreadyUsed, Enqueue, Toggle, SourceKnows, TransferFromNpc, TransferWithStorage, Craft;
    match e
    case MoveNpc(_, _) =>
    case Noop =>
    case TeachNpc(_, _, _, _) =>
    case _ =>
  }

  lemma PlainKeepsHoldings(c: Compiled, parameters: Parameters, e: Effect, m: Machine)
    requires !e.RandomChance? && !MovesStock(e) && ApplyPlain(c, parameters, e, m).Ok?
    ensures HoldingsOf(ApplyPlain(c, parameters, e, m).value.state) == HoldingsOf(m.state)
  {
    PlainKeepsStock(c, parameters, e, m);
    assert Stocks(ApplyPlain(c, parameters, e, m).value.state.world.npcs) == Stocks(m.state.world.npcs);
  }

  lemma PlainWritesNoMove(c: Compiled, parameters: Parameters, e: Effect, m: Machine)
    requires !e.RandomChance? && !MovesStock(e) && ApplyPlain(c, parameters, e, m).Ok?
    ensures var after := ApplyPlain(c, parameters, e, m).value;
            && m.events <= after.events && |after.events| <= |m.events| + 1
            && forall i :: |m.events| <= i < |after.events| ==> MoveOf(after.events[i]).None?
  {
  }
}

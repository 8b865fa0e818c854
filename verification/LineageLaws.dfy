// What the inventory validator accepts, said of the ledger itself: every balance is a sum over records.
module LineageLaws {
  import opened Basics
  import opened Model
  import opened Content
  import opened Effects
  import opened Ownership
  import opened Lineage
  import Text
  import Validation

  // ---- Balances as sums over records ----

  /** What a record takes from an owner's stock of an item. */
  function GivenBy(r: Event, owner: Owner, item: Id): u32 {
    match r.kind
    case NpcItemTransferred(npc, moved, count) => if owner == Npc(npc) && item == moved then count else 0
    case StorageItemWithdrawn(storage, moved, count) => if owner == Storage(storage) && item == moved then count else 0
    case StorageItemDeposited(_, moved, count) => if owner == Player && item == moved then count else 0
    case RecipeApplied(_, inputs, _) => if owner == Player then Count(inputs, item) else 0
    case _ => 0
  }

  /** What a record adds to an owner's stock of an item. */
  function ReceivedBy(r: Event, owner: Owner, item: Id): u32 {
    match r.kind
    case NpcItemTransferred(_, moved, count) => if owner == Player && item == moved then count else 0
    case StorageItemWithdrawn(_, moved, count) => if owner == Player && item == moved then count else 0
    case StorageItemDeposited(storage, moved, count) => if owner == Storage(storage) && item == moved then count else 0
    case RecipeApplied(_, _, outputs) => if owner == Player then Count(outputs, item) else 0
    case _ => 0
  }

  /** Genesis stock, plus all that was received, minus all that was given. */
  function Balance(genesis: Holdings, log: seq<Event>, owner: Owner, item: Id): int {
    if log == [] then Held(genesis, owner, item)
    else
      var r := log[|log| - 1];
      Balance(genesis, log[..|log| - 1], owner, item) + ReceivedBy(r, owner, item) - GivenBy(r, owner, item)
  }

  predicate IsStockRecord(r: Event) {
    r.kind.NpcItemTransferred? || r.kind.StorageItemWithdrawn? || r.kind.StorageItemDeposited? || r.kind.RecipeApplied?
  }

  predicate StockNotAfter(log: seq<Event>, turn: u64) {
    forall r <- log :: IsStockRecord(r) ==> r.turn <= turn
  }

  // ---- Lawful records ----

  /** A positive count leaves an authored owner who has it, for one who has room for it. */
  predicate LawfulTransfer(genesis: Holdings, log: seq<Event>, source: Owner, target: Owner, item: Id, count: u32) {
    && source in genesis && target in genesis && count > 0
    && Balance(genesis, log, source, item) >= count
    && Balance(genesis, log, target, item) + count <= U32_MAX
  }

  /** A compiled recipe, with its own inputs in stock and room for its own outputs. */
  ghost predicate LawfulRecipe(
    c: Compiled, genesis: Holdings, log: seq<Event>, recipe: Id, inputs: Inventory, outputs: Inventory)
  {
    && recipe in c.recipes && inputs == c.recipes[recipe].inputs && outputs == c.recipes[recipe].outputs
    && (forall item <- inputs :: inputs[item] <= Balance(genesis, log, Player, item))
    && forall item <- outputs :: Balance(genesis, log, Player, item) - Count(inputs, item) + outputs[item] <= U32_MAX
  }

  /** What a record may say behind the records before it. */
  ghost predicate LawfulStock(c: Compiled, genesis: Holdings, log: seq<Event>, r: Event) {
    && (IsStockRecord(r) ==> StockNotAfter(log, r.turn))
    && match r.kind
       case NpcItemTransferred(npc, item, count) =>
         !Text.Blank(item) && LawfulTransfer(genesis, log, Npc(npc), Player, item, count)
       case StorageItemWithdrawn(storage, item, count) =>
         Validation.NamespacedId(item) && LawfulTransfer(genesis, log, Storage(storage), Player, item, count)
       case StorageItemDeposited(storage, item, count) =>
         Validation.NamespacedId(item) && LawfulTransfer(genesis, log, Player, Storage(storage), item, count)
       case RecipeApplied(recipe, inputs, outputs) => LawfulRecipe(c, genesis, log, recipe, inputs, outputs)
       case _ => true
  }

  ghost predicate LawfulBooks(c: Compiled, genesis: Holdings, log: seq<Event>) {
    forall n :: 0 <= n < |log| ==> LawfulStock(c, genesis, log[..n], log[n])
  }

  // ---- The ownership machine runs exactly on lawful ledgers ----

  ghost predicate Accounts(genesis: Holdings, log: seq<Event>, l: LedgerState) {
    && l.holdings.Keys == genesis.Keys
    && (forall owner: Owner, item: Id | owner in genesis :: Count(l.holdings[owner], item) == Balance(genesis, log, owner, item))
    && forall turn: u64 :: l.turn <= turn <==> StockNotAfter(log, turn)
  }

  lemma BalanceNext(genesis: Holdings, log: seq<Event>, r: Event, owner: Owner, item: Id)
    ensures Balance(genesis, log + [r], owner, item)
         == Balance(genesis, log, owner, item) + ReceivedBy(r, owner, item) - GivenBy(r, owner, item)
  {
    assert (log + [r])[..|log|] == log;
  }

  lemma ApplyCounts(h: Holdings, r: Event, owner: Owner, item: Id)
    requires MoveOf(r).Some? && Apply(h, MoveOf(r).value).Some? && owner in h
    ensures owner in Apply(h, MoveOf(r).value).value
    ensures Count(Apply(h, MoveOf(r).value).value[owner], item) + GivenBy(r, owner, item)
         == Count(h[owner], item) + ReceivedBy(r, owner, item)
  {
    if r.kind.RecipeApplied? && owner == Player {
      AfterRecipeCount(h[Player], r.kind.inputs, r.kind.outputs, item);
    }
  }

  lemma TurnsNext(log: seq<Event>, r: Event)
    ensures forall turn: u64 :: StockNotAfter(log + [r], turn) <==> StockNotAfter(log, turn) && (IsStockRecord(r) ==> r.turn <= turn)
  {
    assert forall x :: x in log + [r] <==> x in log || x == r;
  }

  /** The machine moves for a record exactly when the record is lawful. */
  lemma MovesExactly(c: Compiled, genesis: Holdings, log: seq<Event>, l: LedgerState, r: Event)
    requires Accounts(genesis, log, l) && Player in genesis && IsStockRecord(r)
    ensures LedgerStep(c, l, r).Some? <==> LawfulStock(c, genesis, log, r)
  {
    hide Validation.NamespacedId, Text.Blank, Balance, SetCount, AfterRecipe, StockNotAfter;
    match r.kind
    case RecipeApplied(recipe, inputs, outputs) => RecipeExactly(genesis, log, l, inputs, outputs);
    case _ =>
  }

  lemma RecipeExactly(genesis: Holdings, log: seq<Event>, l: LedgerState, inputs: Inventory, outputs: Inventory)
    requires Accounts(genesis, log, l) && Player in genesis
    ensures HasInputs(l.holdings[Player], inputs) <==>
      forall item <- inputs :: inputs[item] <= Balance(genesis, log, Player, item)
    ensures HasRoom(l.holdings[Player], inputs, outputs) <==>
      forall item <- outputs :: Balance(genesis, log, Player, item) - Count(inputs, item) + outputs[item] <= U32_MAX
  {
    hide Balance, StockNotAfter;
    assert forall item: Id :: Count(l.holdings[Player], item) == Balance(genesis, log, Player, item);
  }

  lemma StepAccounts(c: Compiled, genesis: Holdings, log: seq<Event>, l: LedgerState, r: Event)
    requires Accounts(genesis, log, l) && LedgerStep(c, l, r).Some?
    ensures Accounts(genesis, log + [r], LedgerStep(c, l, r).value)
  {
    hide WellFormed, Apply, GivenBy, ReceivedBy, Count, StockNotAfter, Balance;
    TurnsNext(log, r);
    var next := LedgerStep(c, l, r).value;
    if MoveOf(r).None? {
      NoMove(r);
    } else {
      ApplyKeys(l.holdings, MoveOf(r).value);
    }
    forall owner: Owner, item: Id | owner in genesis
      ensures owner in next.holdings && Count(next.holdings[owner], item) == Balance(genesis, log + [r], owner, item)
    {
      BalanceNext(genesis, log, r, owner, item);
      if MoveOf(r).Some? {
        ApplyCounts(l.holdings, r, owner, item);
      }
    }
  }

  lemma NoMove(r: Event)
    requires MoveOf(r).None?
    ensures forall owner: Owner, item: Id :: GivenBy(r, owner, item) == 0 && ReceivedBy(r, owner, item) == 0
    ensures !IsStockRecord(r)
  {
  }

  lemma ApplyKeys(h: Holdings, move: Move)
    requires Apply(h, move).Some?
    ensures Apply(h, move).value.Keys == h.Keys
  {
  }

  lemma LawfulSplits(c: Compiled, genesis: Holdings, log: seq<Event>)
    requires log != []
    ensures LawfulBooks(c, genesis, log) <==>
      LawfulBooks(c, genesis, log[..|log| - 1]) && LawfulStock(c, genesis, log[..|log| - 1], log[|log| - 1])
  {
    hide LawfulStock;
    var front := log[..|log| - 1];
    forall n | 0 <= n < |front| ensures front[..n] == log[..n] && front[n] == log[n] {
    }
  }

  lemma {:induction false} RunAccounts(c: Compiled, genesis: Holdings, log: seq<Event>)
    requires Player in genesis
    ensures RunLedger(c, genesis, log).Some? <==> LawfulBooks(c, genesis, log)
    ensures RunLedger(c, genesis, log).Some? ==> Accounts(genesis, log, RunLedger(c, genesis, log).value)
    decreases |log|
  {
    hide LedgerStep, LawfulStock, Accounts;
    if log == [] {
      GenesisAccounts(genesis);
    } else {
      var front, r := log[..|log| - 1], log[|log| - 1];
      RunAccounts(c, genesis, front);
      LawfulSplits(c, genesis, log);
      assert log == front + [r];
      if RunLedger(c, genesis, front).Some? {
        var l := RunLedger(c, genesis, front).value;
        if IsStockRecord(r) {
          MovesExactly(c, genesis, front, l, r);
        } else {
          OtherRecord(c, genesis, front, l, r);
        }
        if LedgerStep(c, l, r).Some? {
          StepAccounts(c, genesis, front, l, r);
        }
      }
    }
  }

  lemma GenesisAccounts(genesis: Holdings)
    ensures Accounts(genesis, [], LedgerState(genesis, 0))
  {
  }

  lemma OtherRecord(c: Compiled, genesis: Holdings, log: seq<Event>, l: LedgerState, r: Event)
    requires !IsStockRecord(r)
    ensures LedgerStep(c, l, r).Some? && LawfulStock(c, genesis, log, r)
  {
  }

  // ---- Admission, said of the ledger ----

  /** A stored inventory holds exactly the balances, with no entry for a zero one. */
  ghost predicate HoldsBalances(genesis: Holdings, log: seq<Event>, owner: Owner, inventory: Inventory) {
    && (forall item: Id :: Count(inventory, item) == Balance(genesis, log, owner, item))
    && forall item <- inventory :: inventory[item] > 0
  }

  ghost predicate LawfulLineage(c: Compiled, s: GameState, genesis: Holdings) {
    && LawfulBooks(c, genesis, s.log) && StockNotAfter(s.log, s.world.time)
    && HoldsBalances(genesis, s.log, Player, s.character.inventory)
    && (forall b <- c.storages :: b in s.world.storages ==> HoldsBalances(genesis, s.log, Storage(b), s.world.storages[b]))
    && forall n <- c.npcs :: n in s.world.npcs ==> HoldsBalances(genesis, s.log, Npc(n), s.world.npcs[n].inventory)
  }

  /** An inventory without zero entries is determined by its counts. */
  lemma CountsDetermine(a: Inventory, b: Inventory)
    requires forall item <- a :: a[item] > 0
    ensures a == b <==> (forall item: Id :: Count(a, item) == Count(b, item)) && forall item <- b :: b[item] > 0
  {
    if (forall item: Id :: Count(a, item) == Count(b, item)) && forall item <- b :: b[item] > 0 {
      forall item: Id ensures item in a <==> item in b {
        assert Count(a, item) == Count(b, item);
      }
      forall item | item in a ensures a[item] == b[item] {
        assert Count(a, item) == Count(b, item);
      }
      assert a == b;
    }
  }

  lemma OwnerHoldsBalances(genesis: Holdings, log: seq<Event>, l: LedgerState, owner: Owner, inventory: Inventory)
    requires Accounts(genesis, log, l) && NoZeroEntries(l.holdings) && owner in genesis
    ensures l.holdings[owner] == inventory <==> HoldsBalances(genesis, log, owner, inventory)
  {
    hide Balance, StockNotAfter, Count;
    CountsDetermine(l.holdings[owner], inventory);
  }

  lemma AuthoredOwners(c: Compiled, carried: Inventory)
    ensures var genesis := Genesis(c, carried);
            && Player in genesis && (forall n: Id :: Npc(n) in genesis <==> n in c.npcs)
            && forall b: Id :: Storage(b) in genesis <==> b in c.storages
  {
  }

  lemma MatchesBalances(c: Compiled, s: GameState, genesis: Holdings, l: LedgerState)
    requires Accounts(genesis, s.log, l) && NoZeroEntries(l.holdings)
    requires Player in genesis && (forall n: Id :: Npc(n) in genesis <==> n in c.npcs)
    requires forall b: Id :: Storage(b) in genesis <==> b in c.storages
    ensures Matches(c, l.holdings, s) <==>
      && HoldsBalances(genesis, s.log, Player, s.character.inventory)
      && (forall b <- c.storages :: b in s.world.storages ==> HoldsBalances(genesis, s.log, Storage(b), s.world.storages[b]))
      && forall n <- c.npcs :: n in s.world.npcs ==> HoldsBalances(genesis, s.log, Npc(n), s.world.npcs[n].inventory)
  {
    hide HoldsBalances, NoZeroEntries, Count, Balance, StockNotAfter;
    OwnerHoldsBalances(genesis, s.log, l, Player, s.character.inventory);
    forall b: Id | b in c.storages && b in s.world.storages
      ensures l.holdings[Storage(b)] == s.world.storages[b] <==> HoldsBalances(genesis, s.log, Storage(b), s.world.storages[b])
    {
      OwnerHoldsBalances(genesis, s.log, l, Storage(b), s.world.storages[b]);
    }
    forall n: Id | n in c.npcs && n in s.world.npcs
      ensures l.holdings[Npc(n)] == s.world.npcs[n].inventory
          <==> HoldsBalances(genesis, s.log, Npc(n), s.world.npcs[n].inventory)
    {
      OwnerHoldsBalances(genesis, s.log, l, Npc(n), s.world.npcs[n].inventory);
    }
  }

  /** For authored stock without zero entries, the validator accepts exactly the lawful states. */
  lemma LineageExactly(c: Compiled, s: GameState)
    requires PositiveOutputs(c)
    requires GenesisInventory(c, s.start).Some? ==> NoZeroEntries(Genesis(c, GenesisInventory(c, s.start).value))
    ensures LineageAdmitted(c, s) <==>
      (GenesisInventory(c, s.start).Some? ==> LawfulLineage(c, s, Genesis(c, GenesisInventory(c, s.start).value)))
  {
    hide Genesis, GenesisInventory, Matches, LawfulBooks, HoldsBalances, PositiveOutputs, NoZeroEntries, RunLedger;
    if GenesisInventory(c, s.start).Some? {
      var carried := GenesisInventory(c, s.start).value;
      var genesis := Genesis(c, carried);
      AuthoredOwners(c, carried);
      RunAccounts(c, genesis, s.log);
      if RunLedger(c, genesis, s.log).Some? {
        LedgerPrefixes(c, genesis, s.log, |s.log|);
        assert s.log[..|s.log|] == s.log;
        MatchesBalances(c, s, genesis, RunLedger(c, genesis, s.log).value);
      }
    }
  }
}

// Admission of the inventory ledger (validate_production_inventory) and the lineage of every run.
module Lineage {
  import opened Basics
  import opened Model
  import opened Content
  import opened Effects
  import opened Kernel
  import opened Ownership
  import Creation
  import Text
  import Validation

  // ---- Genesis ----

  /** The authored inventory a start begins with; None when the start names nothing authored. */
  function GenesisInventory(c: Compiled, start: CharacterStart): Option<Inventory> {
    match start
    case Fixture => None
    case Preset(preset) => if preset in c.presets then Some(c.presets[preset].character.inventory) else None
    case Custom(selection) =>
      if c.creation.None? then None
      else
        var canonical := Creation.Canonicalize(c.creation.value.slots, selection.choices);
        if canonical.None? then None
        else
          var character := Creation.CustomCharacter(c.creation.value, "", canonical.value);
          if character.Err? then None else Some(character.value.inventory)
  }

  function AuthoredNpcs(c: Compiled): map<Id, Inventory> {
    map n <- c.npcs :: c.npcs[n].inventory
  }

  function AuthoredStorages(c: Compiled): map<Id, Inventory> {
    map b <- c.storages :: c.storages[b].inventory
  }

  function Genesis(c: Compiled, carried: Inventory): Holdings {
    Combine(carried, AuthoredNpcs(c), AuthoredStorages(c))
  }

  // ---- The ledger machine ----

  datatype LedgerState = LedgerState(holdings: Holdings, turn: u64)

  /** The claims of a record that do not depend on balances. */
  predicate WellFormed(c: Compiled, e: Event) {
    match e.kind
    case NpcItemTransferred(_, item, _) => !Text.Blank(item)
    case StorageItemWithdrawn(_, item, _) => Validation.NamespacedId(item)
    case StorageItemDeposited(_, item, _) => Validation.NamespacedId(item)
    case RecipeApplied(recipe, inputs, outputs) =>
      recipe in c.recipes && inputs == c.recipes[recipe].inputs && outputs == c.recipes[recipe].outputs
    case _ => true
  }

  function LedgerStep(c: Compiled, l: LedgerState, e: Event): Option<LedgerState> {
    var move := MoveOf(e);
    if move.None? then Some(l)
    else if e.turn < l.turn || !WellFormed(c, e) then None
    else
      var next := Apply(l.holdings, move.value);
      if next.None? then None else Some(LedgerState(next.value, e.turn))
  }

  function RunLedger(c: Compiled, genesis: Holdings, log: seq<Event>): Option<LedgerState> {
    if log == [] then Some(LedgerState(genesis, 0))
    else
      var earlier := RunLedger(c, genesis, log[..|log| - 1]);
      if earlier.None? then None else LedgerStep(c, earlier.value, log[|log| - 1])
  }

  /** The stored inventories of every owner the state has are the ones the ledger ends with. */
  predicate Matches(c: Compiled, h: Holdings, s: GameState) {
    && Player in h && h[Player] == s.character.inventory
    && (forall b <- c.storages :: b in s.world.storages && Storage(b) in h ==> h[Storage(b)] == s.world.storages[b])
    && (forall n <- c.npcs :: n in s.world.npcs && Npc(n) in h ==> h[Npc(n)] == s.world.npcs[n].inventory)
  }

  /** The records move authored stock, in order, to exactly the stored inventories. */
  ghost predicate LineageAdmitted(c: Compiled, s: GameState) {
    var genesis := GenesisInventory(c, s.start);
    genesis.Some? ==>
      var l := RunLedger(c, Genesis(c, genesis.value), s.log);
      l.Some? && l.value.turn <= s.world.time && Matches(c, l.value.holdings, s)
  }

  lemma RunLedgerExtend(c: Compiled, genesis: Holdings, log: seq<Event>, e: Event)
    ensures RunLedger(c, genesis, log + [e])
         == if RunLedger(c, genesis, log).None? then None else LedgerStep(c, RunLedger(c, genesis, log).value, e)
  {
    assert (log + [e])[..|log|] == log;
  }

  // ---- What an admitted ledger means ----

  function ConsumedIn(log: seq<Event>, item: Id): nat {
    if log == [] then 0
    else
      var move := MoveOf(log[|log| - 1]);
      ConsumedIn(log[..|log| - 1], item) + if move.Some? then Consumed(move.value, item) else 0
  }

  function ProducedIn(log: seq<Event>, item: Id): nat {
    if log == [] then 0
    else
      var move := MoveOf(log[|log| - 1]);
      ProducedIn(log[..|log| - 1], item) + if move.Some? then Produced(move.value, item) else 0
  }

  /** Over all owners, an item's units are its genesis units, plus recipe outputs, minus recipe inputs. */
  lemma {:induction false} LedgerConserves(c: Compiled, genesis: Holdings, log: seq<Event>, item: Id)
    requires RunLedger(c, genesis, log).Some?
    ensures Total(RunLedger(c, genesis, log).value.holdings, item) + ConsumedIn(log, item)
         == Total(genesis, item) + ProducedIn(log, item)
    decreases |log|
  {
    if log != [] {
      var front, e := log[..|log| - 1], log[|log| - 1];
      LedgerConserves(c, genesis, front, item);
      if MoveOf(e).Some? {
        ApplyConserves(RunLedger(c, genesis, front).value.holdings, MoveOf(e).value, item);
      }
    }
  }

  ghost predicate PositiveOutputs(c: Compiled) {
    forall r <- c.recipes :: forall item <- c.recipes[r].outputs :: c.recipes[r].outputs[item] > 0
  }

  /** Every prefix of an admitted ledger has u32 balances for the same owners, with no zero entries. */
  lemma {:induction false} LedgerPrefixes(c: Compiled, genesis: Holdings, log: seq<Event>, n: nat)
    requires PositiveOutputs(c) && NoZeroEntries(genesis)
    requires RunLedger(c, genesis, log).Some? && n <= |log|
    ensures RunLedger(c, genesis, log[..n]).Some?
    ensures var l := RunLedger(c, genesis, log[..n]).value;
            NoZeroEntries(l.holdings) && l.holdings.Keys == genesis.Keys
    decreases |log|
  {
    if n < |log| {
      LedgerPrefixes(c, genesis, log[..|log| - 1], n);
      assert log[..|log| - 1][..n] == log[..n];
    } else if n > 0 {
      var front, e := log[..|log| - 1], log[|log| - 1];
      assert log[..n] == log;
      LedgerPrefixes(c, genesis, front, |front|);
      assert front[..|front|] == front;
      if MoveOf(e).Some? {
        ApplyNoZeroEntries(RunLedger(c, genesis, front).value.holdings, MoveOf(e).value);
      }
    }
  }

  // ---- The validator ----

  function AfterInputs(inventory: Inventory, inputs: Inventory): Inventory
    requires HasInputs(inventory, inputs)
  {
    map item | item in inventory && (item !in inputs || inventory[item] != inputs[item])
      :: inventory[item] - Count(inputs, item)
  }

  lemma ConsumeOne(inventory: Inventory, done: Inventory, item: Id, count: u32)
    requires HasInputs(inventory, done) && item !in done
    ensures var current := AfterInputs(inventory, done);
            && Count(current, item) == Count(inventory, item)
            && (count <= Count(inventory, item) ==>
                  && HasInputs(inventory, done[item := count])
                  && AfterInputs(inventory, done[item := count]) == SetCount(current, item, Count(current, item) - count))
  {
  }

  method ConsumeInputs(inventory: Inventory, inputs: Inventory) returns (candidate: Option<Inventory>)
    ensures candidate.Some? <==> HasInputs(inventory, inputs)
    ensures candidate.Some? ==> candidate.value == AfterInputs(inventory, inputs)
  {
    var rest := inputs.Keys;
    var current: Inventory := inventory;
    while rest != {}
      invariant rest <= inputs.Keys
      invariant HasInputs(inventory, inputs - rest) && current == AfterInputs(inventory, inputs - rest)
    {
      var item := Least(rest);
      ConsumeOne(inventory, inputs - rest, item, inputs[item]);
      assert inputs - (rest - {item}) == (inputs - rest)[item := inputs[item]];
      rest := rest - {item};
      if Count(current, item) < inputs[item] {
        return None;
      }
      current := SetCount(current, item, Count(current, item) - inputs[item]);
    }
    assert inputs - rest == inputs;
    return Some(current);
  }

  predicate OutputsFit(candidate: Inventory, outputs: Inventory) {
    forall item <- outputs :: Count(candidate, item) + outputs[item] <= U32_MAX
  }

  function AfterOutputs(candidate: Inventory, outputs: Inventory): Inventory
    requires OutputsFit(candidate, outputs)
  {
    map item | item in candidate.Keys + outputs.Keys :: Count(candidate, item) + Count(outputs, item)
  }

  lemma ProduceOne(candidate: Inventory, done: Inventory, item: Id, count: u32)
    requires OutputsFit(candidate, done) && item !in done
    ensures var current := AfterOutputs(candidate, done);
            && Count(current, item) == Count(candidate, item)
            && (Count(candidate, item) + count <= U32_MAX ==>
                  && OutputsFit(candidate, done[item := count])
                  && AfterOutputs(candidate, done[item := count]) == current[item := Count(current, item) + count])
  {
  }

  method ProduceOutputs(candidate: Inventory, outputs: Inventory) returns (produced: Option<Inventory>)
    ensures produced.Some? <==> OutputsFit(candidate, outputs)
    ensures produced.Some? ==> produced.value == AfterOutputs(candidate, outputs)
  {
    var rest := outputs.Keys;
    var current: Inventory := candidate;
    assert AfterOutputs(candidate, map[]) == candidate;
    while rest != {}
      invariant rest <= outputs.Keys
      invariant OutputsFit(candidate, outputs - rest) && current == AfterOutputs(candidate, outputs - rest)
    {
      var item := Least(rest);
      ProduceOne(candidate, outputs - rest, item, outputs[item]);
      assert outputs - (rest - {item}) == (outputs - rest)[item := outputs[item]];
      rest := rest - {item};
      if Count(current, item) + outputs[item] > U32_MAX {
        return None;
      }
      current := current[item := Count(current, item) + outputs[item]];
    }
    assert outputs - rest == outputs;
    return Some(current);
  }

  /** Consuming, then producing, is the recipe. */
  lemma RecipeInTwoPhases(inventory: Inventory, inputs: Inventory, outputs: Inventory)
    requires HasInputs(inventory, inputs)
    ensures OutputsFit(AfterInputs(inventory, inputs), outputs) <==> HasRoom(inventory, inputs, outputs)
    ensures HasRoom(inventory, inputs, outputs) ==>
      AfterOutputs(AfterInputs(inventory, inputs), outputs) == AfterRecipe(inventory, inputs, outputs)
  {
    var candidate := AfterInputs(inventory, inputs);
    assert forall item :: Count(candidate, item) == Count(inventory, item) - Count(inputs, item);
  }

  /** The three tables the validator rebuilds. */
  datatype Books = Books(ok: bool, character: Inventory, npcs: map<Id, Inventory>, storages: map<Id, Inventory>, turn: u64)

  function HoldingsIn(b: Books): Holdings {
    Combine(b.character, b.npcs, b.storages)
  }

  ghost predicate Unlawful(c: Compiled, genesis: Holdings, log: seq<Event>, time: u64) {
    var l := RunLedger(c, genesis, log);
    l.None? || l.value.turn > time
  }

  ghost predicate Keeps(c: Compiled, genesis: Holdings, log: seq<Event>, time: u64, b: Books) {
    && (!b.ok ==> Unlawful(c, genesis, log, time))
    && (b.ok ==> !Unlawful(c, genesis, log, time)
                 && RunLedger(c, genesis, log).value == LedgerState(HoldingsIn(b), b.turn))
  }

  lemma CombineLookup(b: Books)
    ensures Player in HoldingsIn(b) && HoldingsIn(b)[Player] == b.character
    ensures forall n :: Npc(n) in HoldingsIn(b) <==> n in b.npcs
    ensures forall n <- b.npcs :: HoldingsIn(b)[Npc(n)] == b.npcs[n]
    ensures forall x :: Storage(x) in HoldingsIn(b) <==> x in b.storages
    ensures forall x <- b.storages :: HoldingsIn(b)[Storage(x)] == b.storages[x]
  {
  }

  method BookNpcTransfer(b: Books, npc: Id, item: Id, count: u32) returns (next: Books)
    ensures next.ok ==> b.ok
    ensures next.npcs.Keys == b.npcs.Keys && next.storages.Keys == b.storages.Keys
    ensures b.ok ==> (next.ok <==> !Text.Blank(item) && Apply(HoldingsIn(b), Transfer(Npc(npc), Player, item, count)).Some?)
    ensures next.ok ==> Apply(HoldingsIn(b), Transfer(Npc(npc), Player, item, count)) == Some(HoldingsIn(next))
  {
    CombineLookup(b);
    next := b;
    if Text.Blank(item) || count == 0 {
      return next.(ok := false);
    }
    if npc !in b.npcs {
      return next.(ok := false);
    }
    var available := Count(b.npcs[npc], item);
    if available < count {
      return next.(ok := false);
    }
    var current := Count(b.character, item);
    if current + count > U32_MAX {
      return next.(ok := false);
    }
    var given := SetCount(b.npcs[npc], item, available - count);
    next := next.(character := b.character[item := current + count], npcs := b.npcs[npc := given]);
    CombineNpc(b.character, b.npcs, b.storages, npc, given);
    CombineCarried(b.character, next.npcs, b.storages, next.character);
  }

  function Shift(source: Inventory, destination: Inventory, item: Id, count: u32): Option<(Inventory, Inventory)> {
    if Count(source, item) < count || Count(destination, item) + count > U32_MAX then None
    else Some((SetCount(source, item, Count(source, item) - count),
               destination[item := Count(destination, item) + count]))
  }

  lemma ShiftIsTransfer(h: Holdings, source: Owner, target: Owner, item: Id, count: u32)
    requires source in h && target in h && source != target && count > 0
    ensures Apply(h, Transfer(source, target, item, count))
         == var shifted := Shift(h[source], h[target], item, count);
            if shifted.None? then None else Some(h[source := shifted.value.0][target := shifted.value.1])
  {
  }

  method BookStorageTransfer(b: Books, storage: Id, item: Id, count: u32, withdrawing: bool) returns (next: Books)
    ensures next.ok ==> b.ok
    ensures next.npcs.Keys == b.npcs.Keys && next.storages.Keys == b.storages.Keys
    ensures var move := if withdrawing then Transfer(Storage(storage), Player, item, count)
                        else Transfer(Player, Storage(storage), item, count);
            && (b.ok ==> (next.ok <==> Validation.NamespacedId(item) && Apply(HoldingsIn(b), move).Some?))
            && (next.ok ==> Apply(HoldingsIn(b), move) == Some(HoldingsIn(next)))
  {
    CombineLookup(b);
    next := b;
    if !Validation.NamespacedId(item) || count == 0 || storage !in b.storages {
      return next.(ok := false);
    }
    ghost var h := HoldingsIn(b);
    var stock := b.storages[storage];
    var shifted := if withdrawing then Shift(stock, b.character, item, count) else Shift(b.character, stock, item, count);
    if withdrawing {
      ShiftIsTransfer(h, Storage(storage), Player, item, count);
    } else {
      ShiftIsTransfer(h, Player, Storage(storage), item, count);
    }
    if shifted.None? {
      return next.(ok := false);
    }
    var stored := if withdrawing then shifted.value.0 else shifted.value.1;
    var carried := if withdrawing then shifted.value.1 else shifted.value.0;
    next := next.(character := carried, storages := b.storages[storage := stored]);
    CombineBoth(b.character, b.npcs, b.storages, storage, stored, carried);
  }

  method CraftFrom(inventory: Inventory, inputs: Inventory, outputs: Inventory) returns (crafted: Option<Inventory>)
    ensures crafted.Some? <==> HasInputs(inventory, inputs) && HasRoom(inventory, inputs, outputs)
    ensures crafted.Some? ==> crafted.value == AfterRecipe(inventory, inputs, outputs)
  {
    var candidate := ConsumeInputs(inventory, inputs);
    if candidate.None? {
      return None;
    }
    RecipeInTwoPhases(inventory, inputs, outputs);
    crafted := ProduceOutputs(candidate.value, outputs);
  }

  method BookRecipe(c: Compiled, b: Books, recipe: Id, inputs: Inventory, outputs: Inventory) returns (next: Books)
    ensures next.ok ==> b.ok
    ensures next.npcs.Keys == b.npcs.Keys && next.storages.Keys == b.storages.Keys
    ensures b.ok ==> (next.ok <==> recipe in c.recipes && inputs == c.recipes[recipe].inputs
                                   && outputs == c.recipes[recipe].outputs && Apply(HoldingsIn(b), Fire(inputs, outputs)).Some?)
    ensures next.ok ==> Apply(HoldingsIn(b), Fire(inputs, outputs)) == Some(HoldingsIn(next))
  {
    assert HoldingsIn(b)[Player] == b.character;
    next := b;
    if recipe !in c.recipes {
      return next.(ok := false);
    }
    if inputs != c.recipes[recipe].inputs || outputs != c.recipes[recipe].outputs {
      return next.(ok := false);
    }
    var crafted := CraftFrom(b.character, inputs, outputs);
    if crafted.None? {
      return next.(ok := false);
    }
    next := next.(character := crafted.value);
    CombineCarried(b.character, b.npcs, b.storages, next.character);
  }

  method BookRecord(c: Compiled, b: Books, e: Event, ghost genesis: Holdings, ghost log: seq<Event>, time: u64)
    returns (next: Books)
    requires MoveOf(e).Some? && Keeps(c, genesis, log, time, b)
    ensures Keeps(c, genesis, log + [e], time, next)
    ensures next.npcs.Keys == b.npcs.Keys && next.storages.Keys == b.storages.Keys
  {
    RunLedgerExtend(c, genesis, log, e);
    var inOrder := e.turn >= b.turn;
    next := b;
    if e.turn > time {
      next := next.(ok := false);
    } else {
      match e.kind
      case NpcItemTransferred(npc, item, count) => next := BookNpcTransfer(b, npc, item, count);
      case StorageItemWithdrawn(storage, item, count) => next := BookStorageTransfer(b, storage, item, count, true);
      case StorageItemDeposited(storage, item, count) => next := BookStorageTransfer(b, storage, item, count, false);
      case RecipeApplied(recipe, inputs, outputs) => next := BookRecipe(c, b, recipe, inputs, outputs);
      case _ => assert false;
    }
    next := next.(ok := next.ok && inOrder, turn := e.turn);
  }

  method RebuildBooks(c: Compiled, carried: Inventory, log: seq<Event>, time: u64) returns (b: Books)
    ensures Keeps(c, Genesis(c, carried), log, time, b)
    ensures b.npcs.Keys == c.npcs.Keys && b.storages.Keys == c.storages.Keys
  {
    hide MoveOf, WellFormed;
    b := Books(true, carried, AuthoredNpcs(c), AuthoredStorages(c), 0);
    ghost var genesis := Genesis(c, carried);
    for index := 0 to |log|
      invariant Keeps(c, genesis, log[..index], time, b)
      invariant b.npcs.Keys == c.npcs.Keys && b.storages.Keys == c.storages.Keys
    {
      assert log[..index + 1] == log[..index] + [log[index]];
      if MoveOf(log[index]).Some? {
        b := BookRecord(c, b, log[index], genesis, log[..index], time);
      } else {
        RunLedgerExtend(c, genesis, log[..index], log[index]);
      }
    }
    assert log[..|log|] == log;
  }

  method SameStorages(c: Compiled, b: Books, s: GameState) returns (ok: bool)
    requires b.storages.Keys == c.storages.Keys
    ensures ok <==> forall x <- c.storages :: x in s.world.storages ==> b.storages[x] == s.world.storages[x]
  {
    ok := true;
    var rest := c.storages.Keys;
    while rest != {}
      invariant rest <= c.storages.Keys
      invariant ok <==> forall x <- c.storages.Keys - rest :: x in s.world.storages ==> b.storages[x] == s.world.storages[x]
    {
      var x := Least(rest);
      rest := rest - {x};
      if x in s.world.storages && s.world.storages[x] != b.storages[x] {
        ok := false;
      }
    }
  }

  method SameNpcs(c: Compiled, b: Books, s: GameState) returns (ok: bool)
    requires b.npcs.Keys == c.npcs.Keys
    ensures ok <==> forall n <- c.npcs :: n in s.world.npcs ==> b.npcs[n] == s.world.npcs[n].inventory
  {
    ok := true;
    var rest := c.npcs.Keys;
    while rest != {}
      invariant rest <= c.npcs.Keys
      invariant ok <==> forall n <- c.npcs.Keys - rest :: n in s.world.npcs ==> b.npcs[n] == s.world.npcs[n].inventory
    {
      var n := Least(rest);
      rest := rest - {n};
      if n in s.world.npcs && s.world.npcs[n].inventory != b.npcs[n] {
        ok := false;
      }
    }
  }

  /** validate_production_inventory: rebuild every balance from genesis and the ledger, then compare. */
  method ValidateProductionInventory(c: Compiled, s: GameState) returns (ok: bool)
    ensures ok <==> LineageAdmitted(c, s)
  {
    var genesis := GenesisInventory(c, s.start);
    if genesis.None? {
      return true;
    }
    var b := RebuildBooks(c, genesis.value, s.log, s.world.time);
    CombineLookup(b);
    var storages := SameStorages(c, b, s);
    var npcs := SameNpcs(c, b, s);
    ok := b.ok && b.character == s.character.inventory && storages && npcs;
  }
}

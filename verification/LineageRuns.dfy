// Every run of the kernel keeps an admitted inventory ledger (reducer.rs against validate_production_inventory).
module LineageRuns {
  import opened Basics
  import opened Model
  import opened Content
  import opened Effects
  import opened Kernel
  import opened Ownership
  import opened Lineage
  import opened Validation
  import Creation
  import CreationRules
  import Text
  import Timeline

  /** Every transfer of a program, on any branch, names an item the ledger accepts. */
  predicate Named(e: Effect) {
    match e
    case TransferNpcItemToCharacter(_, item, _) => !Text.Blank(item)
    case TransferStorageItemToCharacter(_, item, _) => NamespacedId(item)
    case TransferCharacterItemToStorage(_, item, _) => NamespacedId(item)
    case RandomChance(_, onSuccess, onFailure) => Named(onSuccess) && Named(onFailure)
    case _ => true
  }

  lemma {:induction false} CheckedIsNamed(d: Draft, e: Effect, depth: nat, allow: bool)
    requires depth <= MAX_AST_DEPTH
    requires EffectChecked(NpcIds(d), e, depth, allow) && StorageChecked(StorageIds(d), e, depth, allow)
    ensures Named(e)
  {
    if e.RandomChance? {
      CheckedIsNamed(d, e.onSuccess, depth + 1, allow);
      CheckedIsNamed(d, e.onFailure, depth + 1, allow);
    }
  }

  ghost predicate NamedPrograms(c: Compiled) {
    && (forall id <- c.actions :: forall e <- c.actions[id].effects :: Named(e))
    && (forall id <- c.timedEvents :: forall e <- c.timedEvents[id].effects :: Named(e))
    && (forall id <- c.deferredEvents :: forall e <- c.deferredEvents[id].effects :: Named(e))
  }

  /** The staged ledger accounts for the staged holdings. */
  ghost predicate Accounted(c: Compiled, genesis: Holdings, m: Machine) {
    var l := RunLedger(c, genesis, Timeline.Ledger(m));
    l.Some? && l.value.holdings == HoldingsOf(m.state) && l.value.turn <= m.state.world.time
  }

  lemma {:induction false} SilentLedger(c: Compiled, genesis: Holdings, log: seq<Event>, longer: seq<Event>)
    requires log <= longer && forall i :: |log| <= i < |longer| ==> MoveOf(longer[i]).None?
    ensures RunLedger(c, genesis, longer) == RunLedger(c, genesis, log)
    decreases |longer|
  {
    if |log| < |longer| {
      SilentLedger(c, genesis, log, longer[..|longer| - 1]);
    } else {
      assert log == longer;
    }
  }

  lemma RecordAccounts(c: Compiled, genesis: Holdings, m: Machine, after: Machine, record: Event)
    requires Accounted(c, genesis, m)
    requires after.state.log == m.state.log && after.events == m.events + [record]
    requires record.turn == m.state.world.time == after.state.world.time
    requires MoveOf(record).Some? && WellFormed(c, record)
    requires Apply(HoldingsOf(m.state), MoveOf(record).value) == Some(HoldingsOf(after.state))
    ensures Accounted(c, genesis, after)
  {
    assert Timeline.Ledger(after) == Timeline.Ledger(m) + [record];
    RunLedgerExtend(c, genesis, Timeline.Ledger(m), record);
  }

  /** An inventory effect writes exactly one record, of the move it makes. */
  lemma StockRecord(c: Compiled, parameters: Parameters, e: Effect, m: Machine)
    requires MovesStock(e) && Named(e) && ApplyPlain(c, parameters, e, m).Ok?
    ensures var after := ApplyPlain(c, parameters, e, m).value;
            && after.state.log == m.state.log && after.state.world.time == m.state.world.time
            && |after.events| == |m.events| + 1
            && var record := after.events[|m.events|];
            && after.events == m.events + [record] && record.turn == m.state.world.time
            && MoveOf(record) == MoveMade(c, parameters, e) && MoveOf(record).Some? && WellFormed(c, record)
  {
  }

  /** The move an inventory effect makes, given its resolved NPC. */
  function MoveMade(c: Compiled, parameters: Parameters, e: Effect): Option<Move> {
    match e
    case TransferNpcItemToCharacter(reference, item, count) =>
      var npc := Resolve(reference, parameters);
      if npc.None? then None else Some(Transfer(Npc(npc.value), Player, item, count))
    case TransferStorageItemToCharacter(storage, item, count) => Some(Transfer(Storage(storage), Player, item, count))
    case TransferCharacterItemToStorage(storage, item, count) => Some(Transfer(Player, Storage(storage), item, count))
    case ApplyRecipe(recipe) =>
      if recipe in c.recipes then Some(Fire(c.recipes[recipe].inputs, c.recipes[recipe].outputs)) else None
    case _ => None
  }

  lemma StockMoves(c: Compiled, parameters: Parameters, e: Effect, m: Machine)
    requires MovesStock(e) && ApplyPlain(c, parameters, e, m).Ok?
    ensures MoveMade(c, parameters, e).Some?
    ensures Apply(HoldingsOf(m.state), MoveMade(c, parameters, e).value)
         == Some(HoldingsOf(ApplyPlain(c, parameters, e, m).value.state))
  {
    match e
    case TransferNpcItemToCharacter(reference, item, count) =>
      NpcTransferMoves(m, Resolve(reference, parameters).value, item, count);
    case TransferStorageItemToCharacter(storage, item, count) =>
      StorageTransferMoves(c, m, storage, item, count, true);
    case TransferCharacterItemToStorage(storage, item, count) =>
      StorageTransferMoves(c, m, storage, item, count, false);
    case ApplyRecipe(recipe) =>
      CraftMoves(c, m, recipe);
  }

  lemma StockEffectAccounts(c: Compiled, genesis: Holdings, parameters: Parameters, e: Effect, m: Machine)
    requires MovesStock(e) && Named(e) && Accounted(c, genesis, m) && ApplyPlain(c, parameters, e, m).Ok?
    ensures Accounted(c, genesis, ApplyPlain(c, parameters, e, m).value)
  {
    var after := ApplyPlain(c, parameters, e, m).value;
    StockRecord(c, parameters, e, m);
    StockMoves(c, parameters, e, m);
    RecordAccounts(c, genesis, m, after, after.events[|m.events|]);
  }

  lemma TimeMovesForward(c: Compiled, parameters: Parameters, e: Effect, m: Machine)
    requires !e.RandomChance? && ApplyPlain(c, parameters, e, m).Ok?
    ensures ApplyPlain(c, parameters, e, m).value.state.world.time >= m.state.world.time
    ensures ApplyPlain(c, parameters, e, m).value.state.log == m.state.log
  {
  }

  lemma {:induction false} EffectAccounts(
    c: Compiled, genesis: Holdings, stream: Stream, parameters: Parameters, e: Effect, m: Machine)
    requires Named(e) && Accounted(c, genesis, m) && ApplyEffect(c, stream, parameters, e, m).Ok?
    ensures Accounted(c, genesis, ApplyEffect(c, stream, parameters, e, m).value)
    decreases e
  {
    if e.RandomChance? {
      var drawn := Chance(stream, e.percent, m).value;
      SilentLedger(c, genesis, Timeline.Ledger(m), Timeline.Ledger(drawn.0));
      EffectAccounts(c, genesis, stream, parameters, if drawn.1 then e.onSuccess else e.onFailure, drawn.0);
    } else if MovesStock(e) {
      StockEffectAccounts(c, genesis, parameters, e, m);
    } else {
      var after := ApplyPlain(c, parameters, e, m).value;
      PlainKeepsHoldings(c, parameters, e, m);
      PlainWritesNoMove(c, parameters, e, m);
      TimeMovesForward(c, parameters, e, m);
      SilentLedger(c, genesis, Timeline.Ledger(m), Timeline.Ledger(after));
    }
  }

  lemma {:induction false} EffectsAccount(
    c: Compiled, genesis: Holdings, stream: Stream, parameters: Parameters, effects: seq<Effect>, m: Machine)
    requires (forall e <- effects :: Named(e)) && Accounted(c, genesis, m)
    requires ApplyEffects(c, stream, parameters, effects, m).Ok?
    ensures Accounted(c, genesis, ApplyEffects(c, stream, parameters, effects, m).value)
    decreases |effects|
  {
    if effects != [] {
      EffectAccounts(c, genesis, stream, parameters, effects[0], m);
      EffectsAccount(c, genesis, stream, parameters, effects[1..], ApplyEffect(c, stream, parameters, effects[0], m).value);
    }
  }

  lemma ResolveOneAccounts(c: Compiled, genesis: Holdings, stream: Stream, e: ScheduledEvent, m: Machine)
    requires NamedPrograms(c) && Accounted(c, genesis, m) && ResolveOne(c, stream, e, m).Ok?
    ensures Accounted(c, genesis, ResolveOne(c, stream, e, m).value)
  {
    var program := ProgramOf(c, e).value;
    var applied := program.condition.Holds(m.state);
    var noted := Timeline.Noted(c, e, m);
    SilentLedger(c, genesis, Timeline.Ledger(m), Timeline.Ledger(noted));
    if applied {
      EffectsAccount(c, genesis, stream, map[], program.effects, noted);
    }
  }

  lemma {:induction false} ResolveAllAccounts(
    c: Compiled, genesis: Holdings, stream: Stream, due: seq<ScheduledEvent>, m: Machine)
    requires NamedPrograms(c) && Accounted(c, genesis, m) && ResolveAll(c, stream, due, m).Ok?
    ensures Accounted(c, genesis, ResolveAll(c, stream, due, m).value)
    decreases |due|
  {
    if due != [] {
      ResolveOneAccounts(c, genesis, stream, due[0], m);
      ResolveAllAccounts(c, genesis, stream, due[1..], ResolveOne(c, stream, due[0], m).value);
    }
  }

  /** The whole ledger of a state accounts for its holdings. */
  ghost predicate Settled(c: Compiled, genesis: Holdings, s: GameState) {
    Accounted(c, genesis, Effects.Start(s))
  }

  lemma StepAccounts(
    c: Compiled, genesis: Holdings, stream: Stream, s: GameState, action: Id, parameters: Parameters)
    requires NamedPrograms(c) && Settled(c, genesis, s) && Step(c, stream, s, action, parameters).Ok?
    ensures Settled(c, genesis, Step(c, stream, s, action, parameters).value.state)
  {
    var acted := ApplyEffects(c, stream, parameters, c.actions[action].effects, Effects.Start(s)).value;
    EffectsAccount(c, genesis, stream, parameters, c.actions[action].effects, Effects.Start(s));
    ResolveAllAccounts(c, genesis, stream, DueNow(acted), WithoutDue(acted));
    var settled := ResolveDue(c, stream, acted).value;
    var after := Commit(action, settled).state;
    assert Timeline.Ledger(Effects.Start(after)) == Timeline.Ledger(settled);
  }

  lemma {:induction false} PlayAccounts(
    c: Compiled, genesis: Holdings, stream: Stream, s: GameState, commands: seq<Command>)
    requires NamedPrograms(c) && Settled(c, genesis, s) && Play(c, stream, s, commands).Ok?
    ensures Settled(c, genesis, Play(c, stream, s, commands).value)
    decreases |commands|
  {
    if commands != [] {
      var last := commands[|commands| - 1];
      PlayAccounts(c, genesis, stream, s, commands[..|commands| - 1]);
      StepAccounts(c, genesis, stream, Play(c, stream, s, commands[..|commands| - 1]).value, last.action, last.parameters);
    }
  }

  lemma CompiledNamed(d: Draft)
    requires StructureValid(d)
    ensures NamedPrograms(Compile(d)) && PositiveOutputs(Compile(d))
  {
    TableEntries(d.actions, ActionKey);
    TableEntries(d.timedEvents, TimedKey);
    TableEntries(d.deferredEvents, DeferredKey);
    TableEntries(d.recipes, RecipeKey);
    var c := Compile(d);
    forall id, e | id in c.actions && e in c.actions[id].effects ensures Named(e) {
      assert c.actions[id] in d.actions;
      CheckedIsNamed(d, e, 0, true);
    }
    forall id, e | id in c.timedEvents && e in c.timedEvents[id].effects ensures Named(e) {
      assert c.timedEvents[id] in d.timedEvents;
      CheckedIsNamed(d, e, 0, false);
    }
    forall id, e | id in c.deferredEvents && e in c.deferredEvents[id].effects ensures Named(e) {
      assert c.deferredEvents[id] in d.deferredEvents;
      CheckedIsNamed(d, e, 0, false);
    }
  }

  lemma CompiledSlots(d: Draft)
    requires StructureValid(d)
    ensures DistinctIds(Compile(d).creation.value.slots, SlotKey)
  {
    CreationRules.SortSlotsElements(d.creation.value.slots);
    CreationRules.PermutedSlots(d.creation.value.slots, Compile(d).creation.value.slots);
  }

  /** An authored start carries exactly the inventory the ledger is replayed from. */
  lemma StartGenesis(d: Draft, s: GameState)
    requires StructureValid(d) && AuthoredStart(Compile(d), s)
    ensures GenesisInventory(Compile(d), s.start) == Some(s.character.inventory)
  {
    var c := Compile(d);
    if s.start.Custom? {
      var choices := s.start.selection.choices;
      CompiledSlots(d);
      Creation.CanonicalizeFixpoint(c.creation.value.slots, choices);
      CreationRules.CustomIgnoresId(c.creation.value, s.character.id, "", choices);
    }
  }

  lemma StartSettled(c: Compiled, s: GameState)
    requires AuthoredStart(c, s)
    ensures Settled(c, Genesis(c, s.character.inventory), s)
  {
    assert Stocks(s.world.npcs) == AuthoredNpcs(c);
    assert s.world.storages == AuthoredStorages(c);
  }

  lemma SettledIsAdmitted(c: Compiled, s: GameState)
    requires GenesisInventory(c, s.start).Some?
    requires Settled(c, Genesis(c, GenesisInventory(c, s.start).value), s)
    ensures LineageAdmitted(c, s)
  {
    assert Timeline.Ledger(Effects.Start(s)) == s.log;
    var h := HoldingsOf(s);
    assert h[Player] == s.character.inventory;
    assert forall b <- s.world.storages :: Storage(b) in h ==> h[Storage(b)] == s.world.storages[b];
    assert forall n <- s.world.npcs :: Npc(n) in h ==> h[Npc(n)] == s.world.npcs[n].inventory;
  }

  lemma {:induction false} PlayKeepsStart(c: Compiled, stream: Stream, s: GameState, commands: seq<Command>)
    requires Timeline.DisjointEvents(c) && Timeline.QuietEvents(c)
    requires Play(c, stream, s, commands).Ok?
    ensures Play(c, stream, s, commands).value.start == s.start
    decreases |commands|
  {
    if commands != [] {
      var last := commands[|commands| - 1];
      PlayKeepsStart(c, stream, s, commands[..|commands| - 1]);
      var before := Play(c, stream, s, commands[..|commands| - 1]).value;
      StepKeepsStart(c, stream, before, last.action, last.parameters);
    }
  }

  lemma {:induction false} EffectsKeepStart(
    c: Compiled, stream: Stream, parameters: Parameters, effects: seq<Effect>, m: Machine)
    requires ApplyEffects(c, stream, parameters, effects, m).Ok?
    ensures ApplyEffects(c, stream, parameters, effects, m).value.state.start == m.state.start
    decreases |effects|
  {
    if effects != [] {
      Timeline.EventsGrow(c, stream, parameters, effects[0], m);
      EffectsKeepStart(c, stream, parameters, effects[1..], ApplyEffect(c, stream, parameters, effects[0], m).value);
    }
  }

  lemma {:induction false} ResolveKeepsStart(c: Compiled, stream: Stream, due: seq<ScheduledEvent>, m: Machine)
    requires ResolveAll(c, stream, due, m).Ok?
    ensures ResolveAll(c, stream, due, m).value.state.start == m.state.start
    decreases |due|
  {
    if due != [] {
      var program := ProgramOf(c, due[0]).value;
      var applied := program.condition.Holds(m.state);
      var noted := EmitWorld(m, m.state.world, Resolved(due[0].id, due[0].kind, applied));
      if applied {
        EffectsKeepStart(c, stream, map[], program.effects, noted);
      }
      ResolveKeepsStart(c, stream, due[1..], ResolveOne(c, stream, due[0], m).value);
    }
  }

  lemma StepKeepsStart(c: Compiled, stream: Stream, s: GameState, action: Id, parameters: Parameters)
    requires Step(c, stream, s, action, parameters).Ok?
    ensures Step(c, stream, s, action, parameters).value.state.start == s.start
  {
    EffectsKeepStart(c, stream, parameters, c.actions[action].effects, Effects.Start(s));
    var acted := ApplyEffects(c, stream, parameters, c.actions[action].effects, Effects.Start(s)).value;
    ResolveKeepsStart(c, stream, DueNow(acted), WithoutDue(acted));
  }

  /** The validator of inventory ledgers accepts every state a canonical run reaches. */
  lemma ReachableLineage(d: Draft, stream: Stream, s: GameState)
    requires StructureValid(d) && Reachable(Compile(d), stream, s)
    ensures LineageAdmitted(Compile(d), s)
    ensures exists carried :: LedgerReaches(Compile(d), carried, s) && AuthoredCarried(Compile(d), carried)
  {
    var c := Compile(d);
    CompiledNamed(d);
    Timeline.CompiledEvents(d);
    var start, commands :| AuthoredStart(c, start) && Play(c, stream, start, commands) == Ok(s);
    StartGenesis(d, start);
    StartSettled(c, start);
    PlayAccounts(c, Genesis(c, start.character.inventory), stream, start, commands);
    PlayKeepsStart(c, stream, start, commands);
    SettledIsAdmitted(c, s);
    assert AuthoredCharacter(c, start.character, start.start);
    assert LedgerReaches(c, start.character.inventory, s);
  }

  /** An inventory some authored start carries. */
  ghost predicate AuthoredCarried(c: Compiled, carried: Inventory) {
    exists character, start :: AuthoredCharacter(c, character, start) && character.inventory == carried
  }

  ghost predicate LedgerReaches(c: Compiled, carried: Inventory, s: GameState) {
    Settled(c, Genesis(c, carried), s)
  }
}

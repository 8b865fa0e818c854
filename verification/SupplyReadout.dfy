// The supply readout of a state, and the compile-time bound on its words (potential_supply_summary_words).
module SupplyReadout {
  import opened Basics
  import opened Model
  import opened Content
  import opened Effects
  import opened Kernel
  import opened Ownership
  import opened Validation
  import opened Sums
  import opened GenesisBudget
  import opened SupplyBudget
  import opened Text
  import Creation
  import CreationRules
  import LineageRuns
  import SupplyClosure
  import SupplyWords

  // ---- Identifiers that can ever be shown ----

  function EffectItems(e: Effect): set<Id> {
    match e
    case TransferNpcItemToCharacter(_, item, _) => {item}
    case TransferStorageItemToCharacter(_, item, _) => {item}
    case TransferCharacterItemToStorage(_, item, _) => {item}
    case RandomChance(_, onSuccess, onFailure) => EffectItems(onSuccess) + EffectItems(onFailure)
    case _ => {}
  }

  function EffectResources(e: Effect): set<Id> {
    match e
    case AdjustResource(resource, _) => {resource}
    case RandomChance(_, onSuccess, onFailure) => EffectResources(onSuccess) + EffectResources(onFailure)
    case _ => {}
  }

  function ProgramResources(effects: seq<Effect>): set<Id> {
    set e, id | e in effects && id in EffectResources(e) :: id
  }

  function ProgramItems(effects: seq<Effect>): set<Id> {
    set e, id | e in effects && id in EffectItems(e) :: id
  }

  function CreationPatches(creation: Option<CreationDefinition>): set<CharacterPatch> {
    if creation.None? then {}
    else {creation.value.base}
         + set slot, choice | slot in creation.value.slots && choice in slot.choices :: choice.patch
  }

  function PotentialItems(d: Draft): set<Id> {
    (set p, id | p in d.presets && id in p.character.inventory :: id)
    + (set p, id | p in CreationPatches(d.creation) && id in p.inventory :: id)
    + (set n, id | n in d.npcs && id in n.inventory :: id)
    + (set b, id | b in d.storages && id in b.inventory :: id)
    + SupplyWords.ItemsOf(d.recipes)
    + (set a, id | a in d.actions && id in ProgramItems(a.effects) :: id)
    + (set t, id | t in d.timedEvents && id in ProgramItems(t.effects) :: id)
    + (set x, id | x in d.deferredEvents && id in ProgramItems(x.effects) :: id)
  }

  function PotentialResources(d: Draft): set<Id> {
    (set p, id | p in d.presets && id in p.character.resources :: id)
    + (set p, id | p in CreationPatches(d.creation) && id in p.resources :: id)
    + (set a, id | a in d.actions && id in ProgramResources(a.effects) :: id)
    + (set t, id | t in d.timedEvents && id in ProgramResources(t.effects) :: id)
    + (set x, id | x in d.deferredEvents && id in ProgramResources(x.effects) :: id)
  }

  // ---- No run carries anything else ----

  lemma {:induction false} NoNpcStock(npcs: seq<NpcDefinition>, item: Id)
    requires forall n <- npcs :: item !in n.inventory
    ensures NpcStock(npcs, CountOf(item)) == 0
    decreases |npcs|
  {
    if npcs != [] {
      NoNpcStock(npcs[..|npcs| - 1], item);
      assert npcs[|npcs| - 1] in npcs;
    }
  }

  lemma {:induction false} NoStorageStock(storages: seq<StorageDefinition>, item: Id)
    requires forall b <- storages :: item !in b.inventory
    ensures StorageStock(storages, CountOf(item)) == 0
    decreases |storages|
  {
    if storages != [] {
      NoStorageStock(storages[..|storages| - 1], item);
      assert storages[|storages| - 1] in storages;
    }
  }

  lemma {:induction false} NoPresetStock(presets: seq<CharacterPreset>, item: Id)
    requires forall p <- presets :: item !in p.character.inventory
    ensures PresetMaximum(presets, CountOf(item)) == 0
    decreases |presets|
  {
    if presets != [] {
      NoPresetStock(presets[..|presets| - 1], item);
      assert presets[|presets| - 1] in presets;
    }
  }

  lemma {:induction false} NoChoiceStock(choices: seq<CreationChoice>, item: Id)
    requires forall choice <- choices :: item !in choice.patch.inventory
    ensures ChoiceMaximum(choices, CountOf(item)) == 0
    decreases |choices|
  {
    if choices != [] {
      NoChoiceStock(choices[..|choices| - 1], item);
      assert choices[|choices| - 1] in choices;
    }
  }

  lemma {:induction false} NoSlotStock(slots: seq<CreationSlot>, item: Id)
    requires forall slot <- slots, choice <- slot.choices :: item !in choice.patch.inventory
    ensures SlotMaxima(slots, CountOf(item)) == 0
    decreases |slots|
  {
    if slots != [] {
      NoSlotStock(slots[..|slots| - 1], item);
      assert slots[|slots| - 1] in slots;
      NoChoiceStock(slots[|slots| - 1].choices, item);
    }
  }

  lemma NoCreationStock(creation: Option<CreationDefinition>, item: Id)
    requires forall p <- CreationPatches(creation) :: item !in p.inventory
    ensures CustomMaximum(creation, CountOf(item)) == 0
  {
    if creation.Some? {
      assert creation.value.base in CreationPatches(creation);
      forall slot, choice | slot in creation.value.slots && choice in slot.choices ensures item !in choice.patch.inventory {
        assert choice.patch in CreationPatches(creation);
      }
      NoSlotStock(creation.value.slots, item);
    }
  }

  lemma UnlistedHasNoGenesis(d: Draft, item: Id)
    requires item !in PotentialItems(d)
    ensures GenesisBound(d, CountOf(item)) == 0
    ensures forall r <- d.recipes :: item !in RecipeItems(r)
  {
    NoNpcStock(d.npcs, item);
    NoStorageStock(d.storages, item);
    NoPresetStock(d.presets, item);
    NoCreationStock(d.creation, item);
  }

  lemma {:induction false} TouchingNone(recipes: seq<RecipeDefinition>, item: Id)
    requires forall r <- recipes :: item !in RecipeItems(r)
    ensures SupplyClosure.Touching(recipes, {item}) == []
    decreases |recipes|
  {
    if recipes != [] {
      TouchingNone(recipes[..|recipes| - 1], item);
      assert recipes[|recipes| - 1] in recipes;
    }
  }

  /** Only listed items are ever carried: an unlisted one has no genesis stock and no recipe to come from. */
  lemma CarriedAreListed(d: Draft, carried: Inventory, log: seq<Event>, h: Holdings)
    requires StructureValid(d) && Reaches(d, carried, log, h)
    ensures CarriedItems(h) <= PotentialItems(d)
  {
    forall item | item in CarriedItems(h) ensures item in PotentialItems(d) {
      ShownIsHeld(d, carried, log, h, item);
      if item !in PotentialItems(d) {
        UnlistedNeverHeld(d, carried, log, h, item);
      }
    }
  }

  lemma UnlistedNeverHeld(d: Draft, carried: Inventory, log: seq<Event>, h: Holdings, item: Id)
    requires StructureValid(d) && Reaches(d, carried, log, h) && item !in PotentialItems(d)
    ensures Total(h, item) == 0
  {
    hide StructureValid, Reaches, GenesisBound, PotentialItems;
    UnlistedHasNoGenesis(d, item);
    TouchingNone(d.recipes, item);
    var p := SupplyClosure.PoolDominatesRun(d, {item}, carried, log, h);
    NothingFires(SupplyClosure.Pooled(d, {item}), p);
    PooledNone(d, item);
  }

  lemma NothingFires(p: SupplyClosure.Pool, q: SupplyClosure.Pool)
    requires SupplyClosure.PoolReaches([], p, q)
    ensures q == p
  {
    var fired :| (forall r <- fired :: r in []) && SupplyClosure.RunPool(p, fired) == Some(q);
    EmptyOrNot(fired);
  }

  lemma PooledNone(d: Draft, item: Id)
    requires GenesisBound(d, CountOf(item)) == 0
    ensures SupplyClosure.Pooled(d, {item}) == map[item := 0]
  {
  }

  // ---- Resources ----

  lemma {:induction false} PatchesAreListed(slots: seq<CreationSlot>, choices: seq<ChoiceSelection>, p: CharacterPatch)
    requires Creation.PatchesOf(slots, choices).Some? && p in Creation.PatchesOf(slots, choices).value
    ensures exists slot, choice :: slot in slots && choice in slot.choices && choice.patch == p
    decreases |choices|
  {
    var last := choices[|choices| - 1];
    if p in Creation.PatchesOf(slots, choices[..|choices| - 1]).value {
      PatchesAreListed(slots, choices[..|choices| - 1], p);
    } else {
      Creation.FindSlotFirst(slots, last.slot);
      var slot := Creation.FindSlot(slots, last.slot).value;
      CreationRules.FindChoiceFirst(slot.choices, last.choice);
      assert Creation.FindChoice(slot.choices, last.choice).value in slot.choices;
    }
  }

  lemma {:induction false} MergedResources(c: Character, patches: seq<CharacterPatch>, id: Id)
    requires Creation.ApplyPatches(c, patches).Ok? && id in Creation.ApplyPatches(c, patches).value.resources
    ensures id in c.resources || exists p <- patches :: id in p.resources
    decreases |patches|
  {
    if patches != [] {
      var front, last := patches[..|patches| - 1], patches[|patches| - 1];
      if id in Creation.ApplyPatches(c, front).value.resources {
        MergedResources(c, front, id);
        if exists p <- front :: id in p.resources {
          var p :| p in front && id in p.resources;
          assert p in patches;
        }
      } else {
        assert last in patches && id in last.resources;
      }
    }
  }

  lemma CustomResources(d: Draft, character: Character, choices: seq<ChoiceSelection>, id: Id)
    requires StructureValid(d) && id in character.resources
    requires Creation.CustomCharacter(Compile(d).creation.value, character.id, choices) == Ok(character)
    ensures id in PotentialResources(d)
  {
    var slots := Compile(d).creation.value.slots;
    var chosen := Creation.PatchesOf(slots, choices).value;
    var patches := [d.creation.value.base] + chosen;
    MergedResources(Creation.EmptyCharacter(character.id), patches, id);
    var p :| p in patches && id in p.resources;
    if p in chosen {
      PatchesAreListed(slots, choices, p);
      CreationRules.SortSlotsElements(d.creation.value.slots);
      CreationRules.PermutedSlots(d.creation.value.slots, slots);
      assert p in CreationPatches(d.creation);
    }
    assert p in CreationPatches(d.creation);
  }

  lemma StartResources(d: Draft, s: GameState)
    requires StructureValid(d) && AuthoredStart(Compile(d), s)
    ensures s.character.resources.Keys <= PotentialResources(d)
  {
    forall id | id in s.character.resources ensures id in PotentialResources(d) {
      match s.start
      case Preset(preset) =>
        TableEntries(d.presets, PresetKey);
        assert Compile(d).presets[preset] in d.presets;
      case Custom(selection) =>
        CustomResources(d, s.character, selection.choices, id);
    }
  }

  lemma PlainResources(c: Compiled, parameters: Parameters, e: Effect, m: Machine)
    requires !e.RandomChance? && ApplyPlain(c, parameters, e, m).Ok?
    ensures ApplyPlain(c, parameters, e, m).value.state.character.resources.Keys
         == m.state.character.resources.Keys + EffectResources(e)
  {
  }

  lemma {:induction false} EffectKeepsResources(
    c: Compiled, stream: Stream, parameters: Parameters, e: Effect, m: Machine)
    requires ApplyEffect(c, stream, parameters, e, m).Ok?
    ensures ApplyEffect(c, stream, parameters, e, m).value.state.character.resources.Keys
         <= m.state.character.resources.Keys + EffectResources(e)
    decreases e
  {
    if e.RandomChance? {
      var drawn := Chance(stream, e.percent, m).value;
      EffectKeepsResources(c, stream, parameters, if drawn.1 then e.onSuccess else e.onFailure, drawn.0);
    } else {
      PlainResources(c, parameters, e, m);
    }
  }

  lemma {:induction false} EffectsKeepResources(
    c: Compiled, stream: Stream, parameters: Parameters, effects: seq<Effect>, m: Machine, listed: set<Id>)
    requires ApplyEffects(c, stream, parameters, effects, m).Ok?
    requires m.state.character.resources.Keys + ProgramResources(effects) <= listed
    ensures ApplyEffects(c, stream, parameters, effects, m).value.state.character.resources.Keys <= listed
    decreases |effects|
  {
    if effects != [] {
      EffectKeepsResources(c, stream, parameters, effects[0], m);
      assert EffectResources(effects[0]) <= ProgramResources(effects);
      assert ProgramResources(effects[1..]) <= ProgramResources(effects);
      EffectsKeepResources(
        c, stream, parameters, effects[1..], ApplyEffect(c, stream, parameters, effects[0], m).value, listed);
    }
  }

  lemma EventResources(d: Draft, e: ScheduledEvent)
    ensures ProgramOf(Compile(d), e).Some? ==>
              ProgramResources(ProgramOf(Compile(d), e).value.effects) <= PotentialResources(d)
  {
    TableEntries(d.timedEvents, TimedKey);
    TableEntries(d.deferredEvents, DeferredKey);
    var c := Compile(d);
    if e.id in c.timedEvents {
      assert c.timedEvents[e.id] in d.timedEvents;
    } else if e.id in c.deferredEvents {
      assert c.deferredEvents[e.id] in d.deferredEvents;
    }
  }

  lemma {:induction false} ResolveKeepsResources(d: Draft, stream: Stream, due: seq<ScheduledEvent>, m: Machine)
    requires ResolveAll(Compile(d), stream, due, m).Ok?
    requires m.state.character.resources.Keys <= PotentialResources(d)
    ensures ResolveAll(Compile(d), stream, due, m).value.state.character.resources.Keys <= PotentialResources(d)
    decreases |due|
  {
    if due != [] {
      var c := Compile(d);
      var program := ProgramOf(c, due[0]).value;
      var applied := program.condition.Holds(m.state);
      var noted := EmitWorld(m, m.state.world, Resolved(due[0].id, due[0].kind, applied));
      if applied {
        EventResources(d, due[0]);
        EffectsKeepResources(c, stream, map[], program.effects, noted, PotentialResources(d));
      }
      ResolveKeepsResources(d, stream, due[1..], ResolveOne(c, stream, due[0], m).value);
    }
  }

  /** No step gives the character a resource the content does not mention. */
  lemma StepKeepsResources(d: Draft, stream: Stream, s: GameState, action: Id, parameters: Parameters)
    requires Step(Compile(d), stream, s, action, parameters).Ok?
    requires s.character.resources.Keys <= PotentialResources(d)
    ensures Step(Compile(d), stream, s, action, parameters).value.state.character.resources.Keys <= PotentialResources(d)
  {
    var c := Compile(d);
    TableEntries(d.actions, ActionKey);
    var definition := c.actions[action];
    assert definition in d.actions;
    assert ProgramResources(definition.effects) <= PotentialResources(d);
    EffectsKeepResources(c, stream, parameters, definition.effects, Effects.Start(s), PotentialResources(d));
    var acted := ApplyEffects(c, stream, parameters, definition.effects, Effects.Start(s)).value;
    ResolveKeepsResources(d, stream, DueNow(acted), WithoutDue(acted));
  }

  // ---- The readout ----

  function Lines(keys: seq<Id>, line: Id -> string): seq<string> {
    if keys == [] then [] else [line(keys[0])] + Lines(keys[1..], line)
  }

  function ResourceLineOf(labels: map<Id, string>, resources: map<Id, i64>): Id -> string {
    id => ResourceLine(LabelOf(labels, id), if id in resources then resources[id] else 0)
  }

  function ItemLineOf(labels: map<Id, string>, inventory: Inventory): Id -> string {
    id => ItemLine(LabelOf(labels, id), Count(inventory, id))
  }

  /** supply_view and summary: every resource and item of the character, in key order. */
  function Readout(c: Compiled, character: Character): string {
    SupplySummary(
      Lines(SortedKeys(character.resources.Keys), ResourceLineOf(c.labels.resources, character.resources)),
      Lines(SortedKeys(character.inventory.Keys), ItemLineOf(c.labels.items, character.inventory)))
  }

  lemma {:induction false} SumWordsPrepend(first: string, rest: seq<string>)
    ensures SumWords([first] + rest) == WordCount(first) + SumWords(rest)
    decreases |rest|
  {
    if rest == [] {
      assert ([first] + rest)[..0] == [];
    } else {
      SumWordsPrepend(first, rest[..|rest| - 1]);
      assert ([first] + rest)[..|rest|] == [first] + rest[..|rest| - 1];
    }
  }

  lemma NoLines(line: Id -> string)
    ensures Lines(SortedKeys({}), line) == [] && SumWords([]) == 0
  {
  }

  lemma LinesHead(s: set<Id>, line: Id -> string)
    requires s != {}
    ensures Lines(SortedKeys(s), line) == [line(Least(s))] + Lines(SortedKeys(s - {Least(s)}), line)
  {
    assert SortedKeys(s)[1..] == SortedKeys(s - {Least(s)});
  }

  /** The words of one line per key are the sum of the line costs. */
  lemma {:induction false} LinesWords(s: set<Id>, line: Id -> string, cost: Id -> nat)
    requires forall id :: EndsInWord(line(id)) && WordCount(line(id)) == cost(id)
    ensures SumWords(Lines(SortedKeys(s), line)) == SumOver(s, cost)
    ensures Lines(SortedKeys(s), line) == [] <==> s == {}
    ensures forall text <- Lines(SortedKeys(s), line) :: EndsInWord(text)
    decreases |s|
  {
    hide WordCount, EndsInWord, Lines, SumWords, SortedKeys, Less;
    if s == {} {
      NoLines(line);
    } else {
      var m := Least(s);
      LinesWords(s - {m}, line, cost);
      LinesHead(s, line);
      SumWordsPrepend(line(m), Lines(SortedKeys(s - {m}), line));
    }
  }

  function GroupWords(labels: map<Id, string>, ids: set<Id>): nat {
    if ids == {} then 0 else 1 + SumOver(ids, LineCost(labels))
  }

  lemma ResourceLineCost(labels: map<Id, string>, resources: map<Id, i64>, id: Id)
    ensures var text := ResourceLineOf(labels, resources)(id);
            EndsInWord(text) && WordCount(text) == LineCost(labels)(id)
  {
    Text.LineWords(LabelOf(labels, id), if id in resources then resources[id] else 0);
  }

  lemma ResourceLines(labels: map<Id, string>, resources: map<Id, i64>)
    ensures var lines := Lines(SortedKeys(resources.Keys), ResourceLineOf(labels, resources));
            && (forall text <- lines :: EndsInWord(text))
            && (if lines == [] then 0 else 1 + SumWords(lines)) == GroupWords(labels, resources.Keys)
  {
    hide WordCount, SumWords, Lines, EndsInWord, SumOver, ResourceLineOf, LineCost;
    var line := ResourceLineOf(labels, resources);
    forall id ensures EndsInWord(line(id)) && WordCount(line(id)) == LineCost(labels)(id) {
      ResourceLineCost(labels, resources, id);
    }
    LinesWords(resources.Keys, line, LineCost(labels));
  }

  lemma ItemLineCost(labels: map<Id, string>, inventory: Inventory, id: Id)
    ensures var text := ItemLineOf(labels, inventory)(id);
            EndsInWord(text) && WordCount(text) == LineCost(labels)(id)
  {
    ItemLineWords(LabelOf(labels, id), Count(inventory, id));
  }

  lemma ItemLines(labels: map<Id, string>, inventory: Inventory)
    ensures var lines := Lines(SortedKeys(inventory.Keys), ItemLineOf(labels, inventory));
            && (forall text <- lines :: EndsInWord(text))
            && (if lines == [] then 0 else 1 + SumWords(lines)) == GroupWords(labels, inventory.Keys)
  {
    hide WordCount, SumWords, Lines, EndsInWord, SumOver, ItemLineOf, LineCost;
    var line := ItemLineOf(labels, inventory);
    forall id ensures EndsInWord(line(id)) && WordCount(line(id)) == LineCost(labels)(id) {
      ItemLineCost(labels, inventory, id);
    }
    LinesWords(inventory.Keys, line, LineCost(labels));
  }

  /** The words of a readout: a heading and a line per entry, for each nonempty group. */
  lemma ReadoutWords(c: Compiled, character: Character)
    ensures WordCount(Readout(c, character))
         == GroupWords(c.labels.resources, character.resources.Keys) + GroupWords(c.labels.items, character.inventory.Keys)
  {
    hide Lines, ResourceLineOf, ItemLineOf, SumWords, WordCount, SupplySummary, GroupWords, EndsInWord;
    ResourceLines(c.labels.resources, character.resources);
    ItemLines(c.labels.items, character.inventory);
    SupplySummaryWords(
      Lines(SortedKeys(character.resources.Keys), ResourceLineOf(c.labels.resources, character.resources)),
      Lines(SortedKeys(character.inventory.Keys), ItemLineOf(c.labels.items, character.inventory)));
  }

  // ---- The bound ----

  /** The words allowed for the items a run can show. */
  ghost function ItemBound(d: Draft): nat {
    SupplyWords.WordsWith(d, PotentialItems(d), Some(SupplyClosure.DEFAULT_BUDGET))
  }

  ghost function SummaryBound(d: Draft): nat {
    GroupWords(d.labels.resources, PotentialResources(d)) + if PotentialItems(d) == {} then 0 else 1 + ItemBound(d)
  }

  /** potential_supply_summary_words. */
  method PotentialSupplySummaryWords(d: Draft) returns (words: nat)
    ensures words == SummaryBound(d)
  {
    var items := SupplyWords.TighterPotentialItemWords(d, PotentialItems(d));
    words := GroupWords(d.labels.resources, PotentialResources(d)) + if PotentialItems(d) == {} then 0 else 1 + items;
  }

  lemma CarriedOf(s: GameState)
    ensures CarriedItems(HoldingsOf(s)) == s.character.inventory.Keys
  {
  }

  lemma BoundsAt(d: Draft, items: set<Id>, w: nat, carried: Inventory, log: seq<Event>, h: Holdings)
    requires Bounds(d, items, w) && Reaches(d, carried, log, h) && CarriedItems(h) <= items
    ensures SupplyBudget.LineWords(d, CarriedItems(h)) <= w
  {
    hide Reaches;
    assert items * CarriedItems(h) == CarriedItems(h);
  }

  lemma GroupWider(labels: map<Id, string>, ids: set<Id>, more: set<Id>)
    requires ids <= more
    ensures GroupWords(labels, ids) <= GroupWords(labels, more)
  {
    hide SumOver, LineCost;
    SumSubset(ids, more, LineCost(labels));
    assert more == {} ==> ids == {};
  }

  lemma GroupsBound(d: Draft, resources: set<Id>, items: set<Id>)
    requires resources <= PotentialResources(d) && items <= PotentialItems(d)
    requires SupplyBudget.LineWords(d, items) <= ItemBound(d)
    ensures GroupWords(d.labels.resources, resources) + GroupWords(d.labels.items, items) <= SummaryBound(d)
  {
    hide PotentialResources, PotentialItems, SumOver, LineCost, ItemBound;
    GroupWider(d.labels.resources, resources, PotentialResources(d));
    assert PotentialItems(d) == {} ==> items == {};
  }

  /** Every state a ledger reaches has a readout within the bound. */
  lemma ReadoutBound(d: Draft, carried: Inventory, s: GameState)
    requires StructureValid(d)
    requires Reaches(d, carried, s.log, HoldingsOf(s))
    requires s.character.resources.Keys <= PotentialResources(d)
    ensures WordCount(Readout(Compile(d), s.character)) <= SummaryBound(d)
  {
    hide *;
    var c := Compile(d);
    ReadoutWords(c, s.character);
    CompiledLabels(d);
    CarriedOf(s);
    CarriedAreListed(d, carried, s.log, HoldingsOf(s));
    SupplyWords.ItemWordsSound(d, PotentialItems(d), Some(SupplyClosure.DEFAULT_BUDGET));
    BoundIsItemWords(d);
    BoundsAt(d, PotentialItems(d), ItemBound(d), carried, s.log, HoldingsOf(s));
    GroupsBound(d, s.character.resources.Keys, s.character.inventory.Keys);
  }

  lemma BoundIsItemWords(d: Draft)
    ensures ItemBound(d) == SupplyWords.WordsWith(d, PotentialItems(d), Some(SupplyClosure.DEFAULT_BUDGET))
  {
  }

  lemma CompiledLabels(d: Draft)
    ensures Compile(d).labels == d.labels
  {
  }
}

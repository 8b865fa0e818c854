// The genesis bounds are attained: some authored start begins with exactly what they allow for.
module GenesisTight {
  import opened Basics
  import opened Model
  import opened Content
  import opened Kernel
  import opened Ownership
  import opened Lineage
  import opened Validation
  import opened Sums
  import opened Creation
  import opened CreationRules
  import opened GenesisBudget
  import LineageRuns
  import Text

  lemma {:induction false} PresetAttained(presets: seq<CharacterPreset>, w: Measure) returns (p: CharacterPreset)
    requires presets != []
    ensures p in presets && w(p.character.inventory) == PresetMaximum(presets, w)
    decreases |presets|
  {
    var front, last := presets[..|presets| - 1], presets[|presets| - 1];
    if front == [] {
      p := last;
    } else {
      p := PresetAttained(front, w);
      if w(last.character.inventory) > w(p.character.inventory) {
        p := last;
      }
    }
  }

  lemma {:induction false} ChoiceAttained(choices: seq<CreationChoice>, w: Measure) returns (choice: CreationChoice)
    requires choices != []
    ensures choice in choices && w(choice.patch.inventory) == ChoiceMaximum(choices, w)
    decreases |choices|
  {
    var front, last := choices[..|choices| - 1], choices[|choices| - 1];
    if front == [] {
      choice := last;
    } else {
      choice := ChoiceAttained(front, w);
      if w(last.patch.inventory) > w(choice.patch.inventory) {
        choice := last;
      }
    }
  }

  /** One choice per slot, each of the largest measure its slot offers. */
  lemma {:induction false} BestSelection(slots: seq<CreationSlot>, w: Measure) returns (choices: seq<ChoiceSelection>)
    requires forall slot <- slots :: slot.choices != [] && DistinctIds(slot.choices, ChoiceKey)
    ensures CanonicalChoices(slots, choices)
    ensures PatchSum(ChosenPatches(slots, choices), w) == SlotMaxima(slots, w)
    decreases |slots|
  {
    choices := [];
    if slots != [] {
      var front, last := slots[..|slots| - 1], slots[|slots| - 1];
      var earlier := BestSelection(front, w);
      var choice := ChoiceAttained(last.choices, w);
      FindChoiceOwn(last.choices, choice);
      choices := earlier + [ChoiceSelection(last.id, choice.id)];
      var chosen := ChosenPatches(slots, choices);
      assert chosen[..|slots| - 1] == ChosenPatches(front, earlier);
      assert chosen[|slots| - 1] == choice.patch;
    }
  }

  lemma ChoicesOffered(definition: CreationDefinition)
    requires CreationValid(definition)
    ensures forall slot <- CreationRules.Compiled(definition).slots :: slot.choices != [] && DistinctIds(slot.choices, ChoiceKey)
  {
    SortSlotsElements(definition.slots);
    PermutedSlots(definition.slots, CreationRules.Compiled(definition).slots);
    forall slot | slot in CreationRules.Compiled(definition).slots ensures slot.choices != [] && DistinctIds(slot.choices, ChoiceKey) {
      assert slot in definition.slots && SlotValid(slot);
    }
  }

  predicate NamedStock(p: CharacterPatch) {
    forall item <- p.inventory :: !Text.Blank(item)
  }

  /** Items are named in every patch. */
  ghost predicate StockNamed(definition: CreationDefinition) {
    NamedStock(definition.base) && forall slot <- definition.slots, choice <- slot.choices :: NamedStock(choice.patch)
  }

  lemma {:induction false} MergedStockValid(id: Id, patches: seq<CharacterPatch>)
    requires forall p <- patches :: PatchValid(p) && NamedStock(p)
    requires ApplyPatches(EmptyCharacter(id), patches).Ok?
    ensures ValidStock(ApplyPatches(EmptyCharacter(id), patches).value.inventory)
    decreases |patches|
  {
    hide Text.Blank;
    if patches != [] {
      var front, last := patches[..|patches| - 1], patches[|patches| - 1];
      MergedStockValid(id, front);
      assert last in patches;
      var merged := ApplyPatches(EmptyCharacter(id), front).value;
      assert ApplyPatches(EmptyCharacter(id), patches).value.inventory == merged.inventory + last.inventory;
    }
  }

  lemma ChosenNamed(definition: CreationDefinition, choices: seq<ChoiceSelection>)
    requires StockNamed(definition) && CanonicalChoices(CreationRules.Compiled(definition).slots, choices)
    ensures forall p <- MergedPatches(CreationRules.Compiled(definition), choices) :: NamedStock(p)
  {
    var slots := CreationRules.Compiled(definition).slots;
    SortSlotsElements(definition.slots);
    PermutedSlots(definition.slots, slots);
    forall i | 0 <= i < |slots| ensures NamedStock(ChosenPatches(slots, choices)[i]) {
      var choice := ChosenOf(slots, choices, i);
      assert slots[i] in definition.slots;
    }
  }

  /** A custom start with the largest choice of every slot carries exactly the custom maximum. */
  lemma CustomAttained(d: Draft, w: Measure, name: string, id: Id) returns (character: Character, selection: CharacterSelection)
    requires StructureValid(d) && Additive(w)
    requires NoBaseCollision(d.creation.value) && StockNamed(d.creation.value)
    ensures AuthoredCharacter(Compile(d), character, Custom(selection))
    ensures w(character.inventory) == CustomMaximum(d.creation, w)
  {
    hide NoBaseCollision, StockNamed;
    var definition := d.creation.value;
    var compiled := CreationRules.Compiled(definition);
    ChoicesOffered(definition);
    var choices := BestSelection(compiled.slots, w);
    MergedPatchesSeparate(definition, choices);
    CustomIsMerge(definition, id, choices);
    MergedPatchesValid(definition, choices);
    ChosenNamed(definition, choices);
    var patches := MergedPatches(compiled, choices);
    hide *;
    PatchesMerge(id, patches);
    MergedStockValid(id, patches);
    character, selection := CustomMeasure(d, w, name, id, choices);
  }

  lemma CustomMeasure(d: Draft, w: Measure, name: string, id: Id, choices: seq<ChoiceSelection>)
    returns (character: Character, selection: CharacterSelection)
    requires d.creation.Some? && Additive(w) && CanonicalChoices(CreationRules.Compiled(d.creation.value).slots, choices)
    requires var slots := CreationRules.Compiled(d.creation.value).slots;
             PatchSum(ChosenPatches(slots, choices), w) == SlotMaxima(slots, w)
    requires var merged := ApplyPatches(EmptyCharacter(id), MergedPatches(CreationRules.Compiled(d.creation.value), choices));
             merged.Ok? && ValidStock(merged.value.inventory)
             && CustomCharacter(CreationRules.Compiled(d.creation.value), id, choices) == merged
    ensures AuthoredCharacter(Compile(d), character, Custom(selection))
    ensures w(character.inventory) == CustomMaximum(d.creation, w)
  {
    hide ApplyPatches, CustomCharacter, CanonicalChoices, SortSlots, ChosenPatches, ValidStock;
    var definition := d.creation.value;
    var chosen := ChosenPatches(CreationRules.Compiled(definition).slots, choices);
    character := ApplyPatches(EmptyCharacter(id), [definition.base] + chosen).value;
    selection := CharacterSelection(name, choices);
    PatchesKeepId(EmptyCharacter(id), [definition.base] + chosen);
    MergedMeasure(EmptyCharacter(id), [definition.base] + chosen, w);
    PatchSumPrepend(definition.base, chosen, w);
    SortedSlotMaxima(definition.slots, w);
  }

  lemma {:induction false} PatchesKeepId(c: Character, patches: seq<CharacterPatch>)
    requires ApplyPatches(c, patches).Ok?
    ensures ApplyPatches(c, patches).value.id == c.id
    decreases |patches|
  {
    if patches != [] {
      PatchesKeepId(c, patches[..|patches| - 1]);
    }
  }

  /** What the starts of a draft need for the bound to be attained: presets with proper stock, choices that merge. */
  ghost predicate StartsCleanly(d: Draft) {
    && d.creation.Some? && NoBaseCollision(d.creation.value) && StockNamed(d.creation.value)
    && forall p <- d.presets :: ValidStock(p.character.inventory)
  }

  /** Some authored character carries exactly the larger of the best preset and the best custom start. */
  lemma CarriedAttained(d: Draft, w: Measure) returns (carried: Inventory)
    requires StructureValid(d) && StartsCleanly(d) && Additive(w)
    ensures LineageRuns.AuthoredCarried(Compile(d), carried)
    ensures w(carried) == Max(PresetMaximum(d.presets, w), CustomMaximum(d.creation, w))
  {
    hide NoBaseCollision, StockNamed, Additive;
    if d.presets != [] && PresetMaximum(d.presets, w) > CustomMaximum(d.creation, w) {
      var p := PresetAttained(d.presets, w);
      carried := p.character.inventory;
      TableEntries(d.presets, PresetKey);
      assert Compile(d).presets[p.id] == p;
      assert AuthoredCharacter(Compile(d), p.character, Preset(p.id));
    } else {
      var character, selection := CustomAttained(d, w, "", "");
      carried := character.inventory;
    }
  }

  /** Pooled stock is what some authored start really begins with, item by item. */
  lemma PooledAttained(d: Draft, item: Id) returns (carried: Inventory)
    requires StructureValid(d) && StartsCleanly(d)
    ensures LineageRuns.AuthoredCarried(Compile(d), carried)
    ensures Total(Genesis(Compile(d), carried), item) == GenesisBound(d, CountOf(item))
  {
    hide StructureValid, StartsCleanly;
    CountIsAdditive(item);
    carried := CarriedAttained(d, CountOf(item));
    GenesisTotal(d, carried, item);
  }

  /** The genesis units of a component are those of some authored start. */
  lemma GenesisUnitsAttained(d: Draft, component: set<Id>) returns (carried: Inventory)
    requires StructureValid(d) && StartsCleanly(d)
    ensures LineageRuns.AuthoredCarried(Compile(d), carried)
    ensures SumOver(component, Totals(Genesis(Compile(d), carried))) == GenesisBound(d, UnitsIn(component))
  {
    hide StructureValid, StartsCleanly;
    UnitsAreAdditive(component);
    carried := CarriedAttained(d, UnitsIn(component));
    GenesisUnits(d, carried, component);
  }

  lemma GenesisUnits(d: Draft, carried: Inventory, component: set<Id>)
    requires StructureValid(d)
    ensures SumOver(component, Totals(Genesis(Compile(d), carried)))
         == UnitsIn(component)(carried) + NpcStock(d.npcs, UnitsIn(component)) + StorageStock(d.storages, UnitsIn(component))
  {
    var h := Genesis(Compile(d), carried);
    hide StructureValid;
    forall item | item in component ensures Totals(h)(item) == Counts(carried)(item) + OwnerCounts(d)(item) {
      GenesisTotal(d, carried, item);
    }
    SumAdd(component, Counts(carried), OwnerCounts(d), Totals(h));
    SumAdd(component, NpcCounts(d.npcs), StorageCounts(d.storages), OwnerCounts(d));
    NpcUnits(d.npcs, component);
    StorageUnits(d.storages, component);
  }
}

// Bounds on the stock any authored start can begin with (genesis_units and pooled_genesis).
module GenesisBudget {
  import opened Basics
  import opened Model
  import opened Content
  import opened Effects
  import opened Kernel
  import opened Ownership
  import opened Lineage
  import opened Validation
  import opened Sums
  import Creation
  import CreationRules
  import LineageRuns

  /** A measure of one inventory: the units of one item, or the units of a set of items. */
  type Measure = Inventory -> nat

  function CountOf(item: Id): Measure {
    inventory => Count(inventory, item)
  }

  function Counts(inventory: Inventory): Id -> nat {
    item => Count(inventory, item)
  }

  function UnitsIn(component: set<Id>): Measure {
    inventory => SumOver(component, Counts(inventory))
  }

  function NpcStock(npcs: seq<NpcDefinition>, w: Measure): nat {
    if npcs == [] then 0 else NpcStock(npcs[..|npcs| - 1], w) + w(npcs[|npcs| - 1].inventory)
  }

  function StorageStock(storages: seq<StorageDefinition>, w: Measure): nat {
    if storages == [] then 0 else StorageStock(storages[..|storages| - 1], w) + w(storages[|storages| - 1].inventory)
  }

  function PresetMaximum(presets: seq<CharacterPreset>, w: Measure): nat {
    if presets == [] then 0
    else Max(PresetMaximum(presets[..|presets| - 1], w), w(presets[|presets| - 1].character.inventory))
  }

  function ChoiceMaximum(choices: seq<CreationChoice>, w: Measure): nat {
    if choices == [] then 0
    else Max(ChoiceMaximum(choices[..|choices| - 1], w), w(choices[|choices| - 1].patch.inventory))
  }

  function SlotMaxima(slots: seq<CreationSlot>, w: Measure): nat {
    if slots == [] then 0 else SlotMaxima(slots[..|slots| - 1], w) + ChoiceMaximum(slots[|slots| - 1].choices, w)
  }

  function CustomMaximum(creation: Option<CreationDefinition>, w: Measure): nat {
    if creation.None? then 0 else w(creation.value.base.inventory) + SlotMaxima(creation.value.slots, w)
  }

  /** All other owners' stock, plus the larger of the best preset and the per-slot best of a custom start. */
  function GenesisBound(d: Draft, w: Measure): nat {
    NpcStock(d.npcs, w) + StorageStock(d.storages, w) + Max(PresetMaximum(d.presets, w), CustomMaximum(d.creation, w))
  }

  // ---- What an authored start really begins with ----

  /** A measure that adds up over inventories without common items. */
  ghost predicate Additive(w: Measure) {
    w(map[]) == 0 && forall a: Inventory, b: Inventory :: a.Keys !! b.Keys ==> w(a + b) == w(a) + w(b)
  }

  lemma CountIsAdditive(item: Id)
    ensures Additive(CountOf(item))
  {
  }

  lemma UnitsAreAdditive(component: set<Id>)
    ensures Additive(UnitsIn(component))
  {
    var w := UnitsIn(component);
    SumZero(component, Counts(map[]));
    forall a: Inventory, b: Inventory | a.Keys !! b.Keys ensures w(a + b) == w(a) + w(b) {
      SumAdd(component, Counts(a), Counts(b), Counts(a + b));
    }
  }

  lemma {:induction false} PresetAtMost(presets: seq<CharacterPreset>, w: Measure, p: CharacterPreset)
    requires p in presets
    ensures w(p.character.inventory) <= PresetMaximum(presets, w)
    decreases |presets|
  {
    if p != presets[|presets| - 1] {
      PresetAtMost(presets[..|presets| - 1], w, p);
    }
  }

  lemma {:induction false} ChoiceAtMost(choices: seq<CreationChoice>, w: Measure, choice: CreationChoice)
    requires choice in choices
    ensures w(choice.patch.inventory) <= ChoiceMaximum(choices, w)
    decreases |choices|
  {
    if choice != choices[|choices| - 1] {
      ChoiceAtMost(choices[..|choices| - 1], w, choice);
    }
  }

  function PatchSum(patches: seq<CharacterPatch>, w: Measure): nat {
    if patches == [] then 0 else PatchSum(patches[..|patches| - 1], w) + w(patches[|patches| - 1].inventory)
  }

  /** Merged patches measure as much as the patches together: a merge never combines two counts of an item. */
  lemma {:induction false} MergedMeasure(c: Character, patches: seq<CharacterPatch>, w: Measure)
    requires Additive(w) && Creation.ApplyPatches(c, patches).Ok?
    ensures w(Creation.ApplyPatches(c, patches).value.inventory) == w(c.inventory) + PatchSum(patches, w)
    decreases |patches|
  {
    if patches != [] {
      var front, last := patches[..|patches| - 1], patches[|patches| - 1];
      MergedMeasure(c, front, w);
      var merged := Creation.ApplyPatches(c, front).value.inventory;
      assert Creation.ApplyPatches(c, patches).value.inventory == merged + last.inventory;
    }
  }

  lemma {:induction false} ChosenMeasure(slots: seq<CreationSlot>, choices: seq<ChoiceSelection>, w: Measure, n: nat)
    requires Creation.CanonicalChoices(slots, choices) && n <= |slots|
    ensures PatchSum(CreationRules.ChosenPatches(slots, choices)[..n], w) <= SlotMaxima(slots[..n], w)
    decreases n
  {
    if n > 0 {
      ChosenMeasure(slots, choices, w, n - 1);
      var chosen := CreationRules.ChosenPatches(slots, choices);
      assert chosen[..n][..n - 1] == chosen[..n - 1] && slots[..n][..n - 1] == slots[..n - 1];
      var choice := CreationRules.ChosenOf(slots, choices, n - 1);
      ChoiceAtMost(slots[n - 1].choices, w, choice);
    }
  }

  lemma {:induction false} InsertSlotMaxima(sorted: seq<CreationSlot>, slot: CreationSlot, w: Measure)
    ensures SlotMaxima(InsertSlot(sorted, slot), w) == SlotMaxima(sorted, w) + ChoiceMaximum(slot.choices, w)
    decreases |sorted|
  {
    if sorted != [] && SlotBefore(slot, sorted[|sorted| - 1]) {
      var front, last := sorted[..|sorted| - 1], sorted[|sorted| - 1];
      InsertSlotMaxima(front, slot, w);
      assert (InsertSlot(front, slot) + [last])[..|InsertSlot(front, slot)|] == InsertSlot(front, slot);
    } else {
      assert (sorted + [slot])[..|sorted|] == sorted;
    }
  }

  lemma {:induction false} SortedSlotMaxima(slots: seq<CreationSlot>, w: Measure)
    ensures SlotMaxima(SortSlots(slots), w) == SlotMaxima(slots, w)
    decreases |slots|
  {
    if slots != [] {
      SortedSlotMaxima(slots[..|slots| - 1], w);
      InsertSlotMaxima(SortSlots(slots[..|slots| - 1]), slots[|slots| - 1], w);
    }
  }

  lemma {:induction false} PatchSumPrepend(p: CharacterPatch, patches: seq<CharacterPatch>, w: Measure)
    ensures PatchSum([p] + patches, w) == w(p.inventory) + PatchSum(patches, w)
    decreases |patches|
  {
    if patches == [] {
      assert ([p] + patches)[..0] == [];
    } else {
      PatchSumPrepend(p, patches[..|patches| - 1], w);
      assert ([p] + patches)[..|patches|] == [p] + patches[..|patches| - 1];
    }
  }

  lemma CustomMerged(d: Draft, character: Character, choices: seq<ChoiceSelection>)
    requires StructureValid(d)
    requires var definition := Compile(d).creation.value;
             Creation.CanonicalChoices(definition.slots, choices)
             && Creation.CustomCharacter(definition, character.id, choices) == Ok(character)
    ensures var patches := [d.creation.value.base] + CreationRules.ChosenPatches(Compile(d).creation.value.slots, choices);
            Creation.ApplyPatches(Creation.EmptyCharacter(character.id), patches) == Ok(character)
  {
    assert CreationRules.Compiled(d.creation.value) == Compile(d).creation.value;
    CreationRules.CanonicalPatches(d.creation.value, choices);
  }

  lemma CustomAtMost(d: Draft, character: Character, choices: seq<ChoiceSelection>, w: Measure)
    requires StructureValid(d) && Additive(w)
    requires var definition := Compile(d).creation.value;
             Creation.CanonicalChoices(definition.slots, choices)
             && Creation.CustomCharacter(definition, character.id, choices) == Ok(character)
    ensures w(character.inventory) <= CustomMaximum(d.creation, w)
  {
    CustomMerged(d, character, choices);
    var slots := Compile(d).creation.value.slots;
    var chosen := CreationRules.ChosenPatches(slots, choices);
    MergedMeasure(Creation.EmptyCharacter(character.id), [d.creation.value.base] + chosen, w);
    PatchSumPrepend(d.creation.value.base, chosen, w);
    ChosenMeasure(slots, choices, w, |slots|);
    assert chosen[..|slots|] == chosen && slots[..|slots|] == slots;
    SortedSlotMaxima(d.creation.value.slots, w);
  }

  /** No authored character carries more than the bound allows for it. */
  lemma CarriedAtMost(d: Draft, carried: Inventory, w: Measure)
    requires StructureValid(d) && Additive(w) && LineageRuns.AuthoredCarried(Compile(d), carried)
    ensures w(carried) <= Max(PresetMaximum(d.presets, w), CustomMaximum(d.creation, w))
  {
    var c := Compile(d);
    var character, start :| AuthoredCharacter(c, character, start) && character.inventory == carried;
    match start
    case Preset(preset) =>
      TableEntries(d.presets, PresetKey);
      PresetAtMost(d.presets, w, c.presets[preset]);
    case Custom(selection) =>
      CustomAtMost(d, character, selection.choices, w);
  }

  // ---- Genesis totals ----

  function NpcInventories(npcs: seq<NpcDefinition>): map<Id, Inventory> {
    map n <- Table(npcs, NpcKey) :: Table(npcs, NpcKey)[n].inventory
  }

  function StorageInventories(storages: seq<StorageDefinition>): map<Id, Inventory> {
    map b <- Table(storages, StorageKey) :: Table(storages, StorageKey)[b].inventory
  }

  lemma DistinctFront<T>(xs: seq<T>, id: T -> Id)
    requires xs != [] && DistinctIds(xs, id)
    ensures DistinctIds(xs[..|xs| - 1], id)
    ensures id(xs[|xs| - 1]) !in Table(xs[..|xs| - 1], id)
  {
    var n := |xs| - 1;
    var front := xs[..n];
    forall i, j | 0 <= i < j < |front| ensures id(front[i]) != id(front[j]) {
      assert id(xs[i]) != id(xs[j]);
    }
    TableEntries(front, id);
    forall k | k in Table(front, id) ensures k != id(xs[n]) {
      var i :| 0 <= i < |front| && front[i] == Table(front, id)[k];
      assert id(xs[i]) != id(xs[n]);
    }
  }

  lemma CombineNewStorage(carried: Inventory, npcs: map<Id, Inventory>, storages: map<Id, Inventory>, b: Id, stock: Inventory)
    requires b !in storages
    ensures Storage(b) !in Combine(carried, npcs, storages)
    ensures Combine(carried, npcs, storages[b := stock]) == Combine(carried, npcs, storages)[Storage(b) := stock]
  {
  }

  lemma CombineNewNpc(carried: Inventory, npcs: map<Id, Inventory>, storages: map<Id, Inventory>, n: Id, stock: Inventory)
    requires n !in npcs
    ensures Npc(n) !in Combine(carried, npcs, storages)
    ensures Combine(carried, npcs[n := stock], storages) == Combine(carried, npcs, storages)[Npc(n) := stock]
  {
  }

  lemma {:induction false} StorageTotal(carried: Inventory, storages: seq<StorageDefinition>, item: Id)
    requires DistinctIds(storages, StorageKey)
    ensures Total(Combine(carried, map[], StorageInventories(storages)), item)
         == Count(carried, item) + StorageStock(storages, CountOf(item))
    decreases |storages|
  {
    if storages == [] {
      var h := Combine(carried, map[], StorageInventories(storages));
      assert h == map[Player := carried];
      TotalSplit(h, Player, item);
      assert h - {Player} == map[];
    } else {
      var front, last := storages[..|storages| - 1], storages[|storages| - 1];
      DistinctFront(storages, StorageKey);
      StorageTotal(carried, front, item);
      var before := Combine(carried, map[], StorageInventories(front));
      assert StorageInventories(storages) == StorageInventories(front)[last.id := last.inventory];
      CombineNewStorage(carried, map[], StorageInventories(front), last.id, last.inventory);
      TotalInsert(before, Storage(last.id), last.inventory, item);
    }
  }

  lemma {:induction false} NpcTotal(carried: Inventory, npcs: seq<NpcDefinition>, storages: map<Id, Inventory>, item: Id)
    requires DistinctIds(npcs, NpcKey)
    ensures Total(Combine(carried, NpcInventories(npcs), storages), item)
         == Total(Combine(carried, map[], storages), item) + NpcStock(npcs, CountOf(item))
    decreases |npcs|
  {
    if npcs == [] {
      assert NpcInventories(npcs) == map[];
    } else {
      var front, last := npcs[..|npcs| - 1], npcs[|npcs| - 1];
      DistinctFront(npcs, NpcKey);
      NpcTotal(carried, front, storages, item);
      var before := Combine(carried, NpcInventories(front), storages);
      assert NpcInventories(npcs) == NpcInventories(front)[last.id := last.inventory];
      CombineNewNpc(carried, NpcInventories(front), storages, last.id, last.inventory);
      TotalInsert(before, Npc(last.id), last.inventory, item);
    }
  }

  /** The units of an item at genesis: what the character carries, plus every authored owner's stock. */
  lemma GenesisTotal(d: Draft, carried: Inventory, item: Id)
    requires StructureValid(d)
    ensures Total(Genesis(Compile(d), carried), item)
         == Count(carried, item) + NpcStock(d.npcs, CountOf(item)) + StorageStock(d.storages, CountOf(item))
  {
    var c := Compile(d);
    assert AuthoredNpcs(c) == NpcInventories(d.npcs) && AuthoredStorages(c) == StorageInventories(d.storages);
    NpcTotal(carried, d.npcs, StorageInventories(d.storages), item);
    StorageTotal(carried, d.storages, item);
  }

  /** Pooled stock dominates what any authored start begins with, item by item. */
  lemma PooledDominates(d: Draft, carried: Inventory, item: Id)
    requires StructureValid(d) && LineageRuns.AuthoredCarried(Compile(d), carried)
    ensures Total(Genesis(Compile(d), carried), item) <= GenesisBound(d, CountOf(item))
  {
    CountIsAdditive(item);
    CarriedAtMost(d, carried, CountOf(item));
    GenesisTotal(d, carried, item);
  }

  // ---- Units of a whole component ----

  ghost function Totals(h: Holdings): Id -> nat {
    item => Total(h, item)
  }

  function NpcCounts(npcs: seq<NpcDefinition>): Id -> nat {
    item => NpcStock(npcs, CountOf(item))
  }

  function StorageCounts(storages: seq<StorageDefinition>): Id -> nat {
    item => StorageStock(storages, CountOf(item))
  }

  lemma {:induction false} NpcUnits(npcs: seq<NpcDefinition>, component: set<Id>)
    ensures SumOver(component, NpcCounts(npcs)) == NpcStock(npcs, UnitsIn(component))
    decreases |npcs|
  {
    if npcs == [] {
      SumZero(component, NpcCounts(npcs));
    } else {
      var front, last := npcs[..|npcs| - 1], npcs[|npcs| - 1];
      NpcUnits(front, component);
      SumAdd(component, NpcCounts(front), Counts(last.inventory), NpcCounts(npcs));
    }
  }

  lemma {:induction false} StorageUnits(storages: seq<StorageDefinition>, component: set<Id>)
    ensures SumOver(component, StorageCounts(storages)) == StorageStock(storages, UnitsIn(component))
    decreases |storages|
  {
    if storages == [] {
      SumZero(component, StorageCounts(storages));
    } else {
      var front, last := storages[..|storages| - 1], storages[|storages| - 1];
      StorageUnits(front, component);
      SumAdd(component, StorageCounts(front), Counts(last.inventory), StorageCounts(storages));
    }
  }

  function OwnerCounts(d: Draft): Id -> nat {
    item => NpcStock(d.npcs, CountOf(item)) + StorageStock(d.storages, CountOf(item))
  }

  /** The units of a component at genesis never exceed the authored bound. */
  lemma GenesisUnitsBound(d: Draft, carried: Inventory, component: set<Id>)
    requires StructureValid(d) && LineageRuns.AuthoredCarried(Compile(d), carried)
    ensures SumOver(component, Totals(Genesis(Compile(d), carried))) <= GenesisBound(d, UnitsIn(component))
  {
    var h := Genesis(Compile(d), carried);
    forall item | item in component ensures Totals(h)(item) == Counts(carried)(item) + OwnerCounts(d)(item) {
      GenesisTotal(d, carried, item);
    }
    SumAdd(component, Counts(carried), OwnerCounts(d), Totals(h));
    SumAdd(component, NpcCounts(d.npcs), StorageCounts(d.storages), OwnerCounts(d));
    NpcUnits(d.npcs, component);
    StorageUnits(d.storages, component);
    UnitsAreAdditive(component);
    CarriedAtMost(d, carried, UnitsIn(component));
  }
}

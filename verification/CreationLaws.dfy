// A materialized character is the union of its patches, field by field.
module CreationLaws {
  import opened Basics
  import opened Model
  import opened Content
  import opened Creation
  import opened CreationRules

  // ---- What a field gathers from the patches ----

  ghost predicate GathersTags(tags: set<Id>, patches: seq<CharacterPatch>, field: CharacterPatch -> set<Id>) {
    forall tag: Id :: tag in tags <==> exists p <- patches :: tag in field(p)
  }

  predicate Maps<T(==)>(values: map<Id, T>, key: Id, value: T) {
    key in values && values[key] == value
  }

  ghost predicate GathersValues<T(!new)>(values: map<Id, T>, patches: seq<CharacterPatch>, field: CharacterPatch -> map<Id, T>) {
    forall key: Id, value: T :: Maps(values, key, value) <==> exists p <- patches :: Maps(field(p), key, value)
  }

  /** The value of the one patch that gives it; empty when none does. */
  ghost predicate GathersOne(value: string, patches: seq<CharacterPatch>, field: CharacterPatch -> Option<string>) {
    && (forall p <- patches :: field(p).Some? ==> field(p) == Some(value))
    && (value != "" ==> exists p <- patches :: field(p) == Some(value))
  }

  ghost predicate GathersTexts(c: Character, patches: seq<CharacterPatch>) {
    && GathersOne(c.lineage, patches, (p: CharacterPatch) => p.lineage)
    && GathersOne(c.origin, patches, (p: CharacterPatch) => p.origin)
    && GathersOne(c.background, patches, (p: CharacterPatch) => p.background)
  }

  ghost predicate GathersNature(c: Character, patches: seq<CharacterPatch>) {
    && GathersTags(c.skills, patches, (p: CharacterPatch) => p.skills)
    && GathersTags(c.values, patches, (p: CharacterPatch) => p.values)
    && GathersTags(c.traits, patches, (p: CharacterPatch) => p.traits)
    && GathersTags(c.flaws, patches, (p: CharacterPatch) => p.flaws)
  }

  ghost predicate GathersHistory(c: Character, patches: seq<CharacterPatch>) {
    && GathersTags(c.knowledge, patches, (p: CharacterPatch) => p.knowledge)
    && GathersTags(c.injuries, patches, (p: CharacterPatch) => p.injuries)
    && GathersTags(c.deeds, patches, (p: CharacterPatch) => p.deeds)
    && GathersTags(c.promises, patches, (p: CharacterPatch) => p.promises)
    && GathersTags(c.discoveries, patches, (p: CharacterPatch) => p.discoveries)
  }

  ghost predicate GathersTables(c: Character, patches: seq<CharacterPatch>) {
    && GathersValues(c.aptitudes, patches, (p: CharacterPatch) => p.aptitudes)
    && GathersValues(c.appearance, patches, (p: CharacterPatch) => p.appearance)
    && GathersValues(c.affiliations, patches, (p: CharacterPatch) => p.affiliations)
    && GathersValues(c.reputation, patches, (p: CharacterPatch) => p.reputation)
    && GathersValues(c.inventory, patches, (p: CharacterPatch) => p.inventory)
    && GathersValues(c.resources, patches, (p: CharacterPatch) => p.resources)
    && GathersValues(c.facets, patches, (p: CharacterPatch) => p.facets)
  }

  /** Every field of the character holds what the patches give it, and nothing else. */
  ghost predicate IsUnion(c: Character, patches: seq<CharacterPatch>) {
    GathersTexts(c, patches) && GathersNature(c, patches) && GathersHistory(c, patches) && GathersTables(c, patches)
  }

  // ---- One more patch ----

  lemma TagsNext(tags: set<Id>, patches: seq<CharacterPatch>, field: CharacterPatch -> set<Id>, last: CharacterPatch)
    requires GathersTags(tags, patches, field)
    ensures GathersTags(tags + field(last), patches + [last], field)
  {
    assert forall p :: p in patches + [last] <==> p in patches || p == last;
  }

  lemma ValuesNext<T(!new)>(
    values: map<Id, T>, patches: seq<CharacterPatch>, field: CharacterPatch -> map<Id, T>, last: CharacterPatch)
    requires GathersValues(values, patches, field) && MergeMap(values, field(last)).Some?
    ensures GathersValues(MergeMap(values, field(last)).value, patches + [last], field)
  {
    assert forall p :: p in patches + [last] <==> p in patches || p == last;
    var merged := MergeMap(values, field(last)).value;
    assert forall key: Id, value: T :: Maps(merged, key, value) <==> Maps(values, key, value) || Maps(field(last), key, value);
  }

  lemma OneNext(value: string, patches: seq<CharacterPatch>, field: CharacterPatch -> Option<string>, last: CharacterPatch)
    requires GathersOne(value, patches, field) && MergeSingleton(value, field(last)).Some?
    requires forall p <- patches :: field(p).Some? ==> field(p).value != ""
    ensures GathersOne(MergeSingleton(value, field(last)).value, patches + [last], field)
  {
    assert forall p :: p in patches + [last] <==> p in patches || p == last;
  }

  lemma TextsNext(c: Character, patches: seq<CharacterPatch>, last: CharacterPatch)
    requires GathersTexts(c, patches) && ApplyPatch(c, last).Ok? && forall p <- patches :: PatchValid(p)
    ensures GathersTexts(ApplyPatch(c, last).value, patches + [last])
  {
    hide GathersOne;
    OneNext(c.lineage, patches, (p: CharacterPatch) => p.lineage, last);
    OneNext(c.origin, patches, (p: CharacterPatch) => p.origin, last);
    OneNext(c.background, patches, (p: CharacterPatch) => p.background, last);
  }

  lemma NatureNext(c: Character, patches: seq<CharacterPatch>, last: CharacterPatch)
    requires GathersNature(c, patches) && ApplyPatch(c, last).Ok?
    ensures GathersNature(ApplyPatch(c, last).value, patches + [last])
  {
    hide GathersTags;
    TagsNext(c.skills, patches, (p: CharacterPatch) => p.skills, last);
    TagsNext(c.values, patches, (p: CharacterPatch) => p.values, last);
    TagsNext(c.traits, patches, (p: CharacterPatch) => p.traits, last);
    TagsNext(c.flaws, patches, (p: CharacterPatch) => p.flaws, last);
  }

  lemma HistoryNext(c: Character, patches: seq<CharacterPatch>, last: CharacterPatch)
    requires GathersHistory(c, patches) && ApplyPatch(c, last).Ok?
    ensures GathersHistory(ApplyPatch(c, last).value, patches + [last])
  {
    hide GathersTags;
    TagsNext(c.knowledge, patches, (p: CharacterPatch) => p.knowledge, last);
    TagsNext(c.injuries, patches, (p: CharacterPatch) => p.injuries, last);
    TagsNext(c.deeds, patches, (p: CharacterPatch) => p.deeds, last);
    TagsNext(c.promises, patches, (p: CharacterPatch) => p.promises, last);
    TagsNext(c.discoveries, patches, (p: CharacterPatch) => p.discoveries, last);
  }

  lemma TablesNext(c: Character, patches: seq<CharacterPatch>, last: CharacterPatch)
    requires GathersTables(c, patches) && ApplyPatch(c, last).Ok?
    ensures GathersTables(ApplyPatch(c, last).value, patches + [last])
  {
    hide GathersValues, MergeMap;
    ValuesNext(c.aptitudes, patches, (p: CharacterPatch) => p.aptitudes, last);
    ValuesNext(c.appearance, patches, (p: CharacterPatch) => p.appearance, last);
    ValuesNext(c.affiliations, patches, (p: CharacterPatch) => p.affiliations, last);
    ValuesNext(c.reputation, patches, (p: CharacterPatch) => p.reputation, last);
    ValuesNext(c.inventory, patches, (p: CharacterPatch) => p.inventory, last);
    ValuesNext(c.resources, patches, (p: CharacterPatch) => p.resources, last);
    ValuesNext(c.facets, patches, (p: CharacterPatch) => p.facets, last);
  }

  lemma EmptyIsUnion(id: Id)
    ensures IsUnion(EmptyCharacter(id), [])
  {
  }

  lemma {:induction false} MergedIsUnion(id: Id, patches: seq<CharacterPatch>)
    requires ApplyPatches(EmptyCharacter(id), patches).Ok? && forall p <- patches :: PatchValid(p)
    ensures IsUnion(ApplyPatches(EmptyCharacter(id), patches).value, patches)
    decreases |patches|
  {
    if patches == [] {
      EmptyIsUnion(id);
    } else {
      var front, last := patches[..|patches| - 1], patches[|patches| - 1];
      hide ApplyPatch, IsUnion, PatchValid;
      assert patches == front + [last];
      MergedIsUnion(id, front);
      UnionNext(ApplyPatches(EmptyCharacter(id), front).value, front, last);
    }
  }

  lemma UnionNext(c: Character, patches: seq<CharacterPatch>, last: CharacterPatch)
    requires IsUnion(c, patches) && ApplyPatch(c, last).Ok? && forall p <- patches :: PatchValid(p)
    ensures IsUnion(ApplyPatch(c, last).value, patches + [last])
  {
    hide GathersTexts, GathersNature, GathersHistory, GathersTables, ApplyPatch, PatchValid;
    TextsNext(c, patches, last);
    NatureNext(c, patches, last);
    HistoryNext(c, patches, last);
    TablesNext(c, patches, last);
  }

  /** The character a canonical selection materializes is the union of the base patch and the chosen ones. */
  lemma CustomIsUnion(definition: CreationDefinition, id: Id, choices: seq<ChoiceSelection>)
    requires CreationValid(definition) && CanonicalChoices(CreationRules.Compiled(definition).slots, choices)
    requires CustomCharacter(CreationRules.Compiled(definition), id, choices).Ok?
    ensures IsUnion(CustomCharacter(CreationRules.Compiled(definition), id, choices).value,
                    MergedPatches(CreationRules.Compiled(definition), choices))
  {
    hide IsUnion, PatchValid, CreationValid;
    CustomIsMerge(definition, id, choices);
    MergedPatchesValid(definition, choices);
    MergedIsUnion(id, MergedPatches(CreationRules.Compiled(definition), choices));
  }

  // ---- The order the slots are filled in ----

  predicate SlotsInOrder(slots: seq<CreationSlot>) {
    forall i, j :: 0 <= i < j < |slots| ==> !SlotBefore(slots[j], slots[i])
  }

  lemma SlotOrderTotal(a: CreationSlot, b: CreationSlot)
    requires !SlotBefore(a, b)
    ensures b.order < a.order || (b.order == a.order && (b.id == a.id || Less(b.id, a.id)))
  {
    LessTotal(a.id, b.id);
  }

  lemma SlotOrderTransitive(a: CreationSlot, b: CreationSlot, c: CreationSlot)
    requires !SlotBefore(b, a) && !SlotBefore(c, b)
    ensures !SlotBefore(c, a)
  {
    SlotOrderTotal(b, a);
    SlotOrderTotal(c, b);
    if SlotBefore(c, a) {
      if a.id == b.id {
        LessOrSame(b.id, c.id);
      } else if b.id != c.id && Less(a.id, b.id) && Less(b.id, c.id) {
        LessTransitive(a.id, b.id, c.id);
      }
      LessIrreflexive(a.id);
      if Less(a.id, c.id) {
        LessAsymmetric(a.id, c.id);
      }
    }
  }

  lemma LessOrSame(a: Id, b: Id)
    ensures Less(a, b) ==> !Less(b, a)
  {
    if Less(a, b) {
      LessAsymmetric(a, b);
    }
  }

  lemma {:induction false} InsertInOrder(sorted: seq<CreationSlot>, slot: CreationSlot)
    requires SlotsInOrder(sorted)
    ensures SlotsInOrder(InsertSlot(sorted, slot))
    decreases |sorted|
  {
    if sorted != [] {
      var n := |sorted| - 1;
      var last := sorted[n];
      if SlotBefore(slot, last) {
        InsertInOrder(sorted[..n], slot);
        InsertSlotElements(sorted[..n], slot);
        var front := InsertSlot(sorted[..n], slot);
        forall i | 0 <= i < |front| ensures !SlotBefore(last, front[i]) {
          assert front[i] in multiset(front);
          assert front[i] in sorted[..n] || front[i] == slot;
          if front[i] == slot {
            BeforeIsStrict(slot, last);
          }
        }
        hide SlotBefore;
        assert InsertSlot(sorted, slot) == front + [last];
      } else {
        forall i | 0 <= i < n ensures !SlotBefore(slot, sorted[i]) {
          SlotOrderTransitive(sorted[i], last, slot);
        }
        hide SlotBefore;
        assert InsertSlot(sorted, slot) == sorted + [slot];
      }
    }
  }

  lemma BeforeIsStrict(a: CreationSlot, b: CreationSlot)
    requires SlotBefore(a, b)
    ensures !SlotBefore(b, a)
  {
    LessOrSame(a.id, b.id);
  }

  /** Compiled slots are the authored ones, in the order of their numbers and then of their ids. */
  lemma {:induction false} SlotsAreOrdered(slots: seq<CreationSlot>)
    ensures SlotsInOrder(SortSlots(slots)) && multiset(SortSlots(slots)) == multiset(slots)
    decreases |slots|
  {
    SortSlotsElements(slots);
    if slots != [] {
      SlotsAreOrdered(slots[..|slots| - 1]);
      InsertInOrder(SortSlots(slots[..|slots| - 1]), slots[|slots| - 1]);
    }
  }

  /** Without a named start the game starts at the location with the least id. */
  lemma {:induction false} StartIsLeast(locations: seq<LocationDefinition>)
    requires locations != []
    ensures IsLeast(set l <- locations :: l.id, LeastLocation(locations))
    decreases |locations|
  {
    var ids, first := set l <- locations :: l.id, locations[0];
    if |locations| == 1 {
      assert forall l <- locations :: l == first;
    } else {
      var rest := locations[1..];
      StartIsLeast(rest);
      assert locations == [first] + rest;
      var least := LeastLocation(rest);
      LessTotal(first.id, least);
      forall id | id in ids ensures id == LeastLocation(locations) || Less(LeastLocation(locations), id) {
        if id != first.id && id != least && !Less(least, first.id) && first.id != least {
          LessTransitive(first.id, least, id);
        }
      }
    }
  }
}

// Materializing a custom character from authored patches (crates/forge-kernel/src/content.rs).
module Creation {
  import opened Basics
  import opened Model
  import opened Content

  datatype CreationError = Conflict | NotCanonical | Undefined

  function EmptyCharacter(id: Id): Character {
    Character(id, "", "", "", map[], {}, {}, {}, {}, map[], map[], map[], {}, map[], map[], {}, {}, {}, {}, map[])
  }

  function MergeSingleton(target: string, value: Option<string>): Option<string> {
    if value.None? then Some(target) else if target != "" then None else Some(value.value)
  }

  function MergeMap<T>(target: map<Id, T>, values: map<Id, T>): Option<map<Id, T>> {
    if target.Keys !! values.Keys then Some(target + values) else None
  }

  /** Merge one patch; the first write to an already written target is a conflict. */
  function ApplyPatch(c: Character, p: CharacterPatch): Result<Character, CreationError> {
    var lineage := MergeSingleton(c.lineage, p.lineage);
    var origin := MergeSingleton(c.origin, p.origin);
    var background := MergeSingleton(c.background, p.background);
    var aptitudes := MergeMap(c.aptitudes, p.aptitudes);
    var appearance := MergeMap(c.appearance, p.appearance);
    var affiliations := MergeMap(c.affiliations, p.affiliations);
    var reputation := MergeMap(c.reputation, p.reputation);
    var inventory := MergeMap(c.inventory, p.inventory);
    var resources := MergeMap(c.resources, p.resources);
    var facets := MergeMap(c.facets, p.facets);
    if || lineage.None? || origin.None? || background.None? || aptitudes.None? || appearance.None?
       || affiliations.None? || reputation.None? || inventory.None? || resources.None? || facets.None?
    then Err(Conflict)
    else Ok(Character(
      c.id, lineage.value, origin.value, background.value, aptitudes.value,
      c.skills + p.skills, c.values + p.values, c.traits + p.traits, c.flaws + p.flaws,
      appearance.value, affiliations.value, reputation.value, c.knowledge + p.knowledge,
      inventory.value, resources.value, c.injuries + p.injuries, c.deeds + p.deeds,
      c.promises + p.promises, c.discoveries + p.discoveries, facets.value))
  }

  function ApplyPatches(c: Character, patches: seq<CharacterPatch>): Result<Character, CreationError> {
    if patches == [] then Ok(c)
    else
      var earlier := ApplyPatches(c, patches[..|patches| - 1]);
      if earlier.Err? then earlier else ApplyPatch(earlier.value, patches[|patches| - 1])
  }

  function FindSlot(slots: seq<CreationSlot>, id: Id): Option<CreationSlot> {
    if slots == [] then None else if slots[0].id == id then Some(slots[0]) else FindSlot(slots[1..], id)
  }

  function FindChoice(choices: seq<CreationChoice>, id: Id): Option<CreationChoice> {
    if choices == [] then None else if choices[0].id == id then Some(choices[0]) else FindChoice(choices[1..], id)
  }

  function PatchOf(slots: seq<CreationSlot>, selected: ChoiceSelection): Option<CharacterPatch> {
    var slot := FindSlot(slots, selected.slot);
    if slot.None? then None
    else
      var choice := FindChoice(slot.value.choices, selected.choice);
      if choice.None? then None else Some(choice.value.patch)
  }

  /** The patches named by a selection, in its order; None if one is not compiled. */
  function PatchesOf(slots: seq<CreationSlot>, choices: seq<ChoiceSelection>): Option<seq<CharacterPatch>> {
    if choices == [] then Some([])
    else
      var earlier := PatchesOf(slots, choices[..|choices| - 1]);
      var last := PatchOf(slots, choices[|choices| - 1]);
      if earlier.None? || last.None? then None else Some(earlier.value + [last.value])
  }

  /** The character of a canonical selection, under an identity derived from it. */
  function CustomCharacter(definition: CreationDefinition, id: Id, choices: seq<ChoiceSelection>)
    : Result<Character, CreationError>
  {
    var patches := PatchesOf(definition.slots, choices);
    if patches.None? then Err(NotCanonical)
    else
      var merged := ApplyPatches(EmptyCharacter(id), [definition.base] + patches.value);
      if merged.Err? then merged
      else if merged.value.lineage == "" || merged.value.origin == "" || merged.value.background == ""
      then Err(Undefined)
      else merged
  }

  // ---- Canonical selections ----

  predicate DistinctSlots(choices: seq<ChoiceSelection>) {
    forall i, j :: 0 <= i < j < |choices| ==> choices[i].slot != choices[j].slot
  }

  function Supplied(choices: seq<ChoiceSelection>): map<Id, Id> {
    if choices == [] then map[]
    else Supplied(choices[..|choices| - 1])[choices[|choices| - 1].slot := choices[|choices| - 1].choice]
  }

  /** canonical_character_selection, for the choices: every slot once, known choices, in slot order. */
  function Canonicalize(slots: seq<CreationSlot>, choices: seq<ChoiceSelection>): Option<seq<ChoiceSelection>> {
    var supplied := Supplied(choices);
    if |choices| != |slots| || !DistinctSlots(choices) then None
    else if exists slot <- slots :: slot.id !in supplied then None
    else if exists slot <- slots :: FindChoice(slot.choices, supplied[slot.id]).None? then None
    else if exists id <- supplied :: FindSlot(slots, id).None? then None
    else Some(seq(|slots|, i requires 0 <= i < |slots| => ChoiceSelection(slots[i].id, supplied[slots[i].id])))
  }

  /** One choice per compiled slot, in slot order. */
  predicate CanonicalChoices(slots: seq<CreationSlot>, choices: seq<ChoiceSelection>) {
    && |choices| == |slots|
    && forall i :: 0 <= i < |slots| ==>
         choices[i].slot == slots[i].id && FindChoice(slots[i].choices, choices[i].choice).Some?
  }

  lemma {:induction false} SuppliedEntries(choices: seq<ChoiceSelection>)
    requires DistinctSlots(choices)
    ensures forall c <- choices :: c.slot in Supplied(choices) && Supplied(choices)[c.slot] == c.choice
    ensures forall id <- Supplied(choices) :: ChoiceSelection(id, Supplied(choices)[id]) in choices
    ensures |Supplied(choices)| == |choices|
    decreases |choices|
  {
    if choices != [] {
      var n := |choices| - 1;
      SuppliedEntries(choices[..n]);
      assert choices == choices[..n] + [choices[n]];
      assert choices[n].slot !in Supplied(choices[..n]);
    }
  }

  lemma {:induction false} FindSlotFirst(slots: seq<CreationSlot>, id: Id)
    ensures FindSlot(slots, id).Some? <==> exists slot <- slots :: slot.id == id
    ensures FindSlot(slots, id).Some? ==> FindSlot(slots, id).value in slots && FindSlot(slots, id).value.id == id
    decreases |slots|
  {
    if slots != [] {
      FindSlotFirst(slots[1..], id);
      assert slots == [slots[0]] + slots[1..];
    }
  }

  lemma CanonicalDistinct(slots: seq<CreationSlot>, choices: seq<ChoiceSelection>)
    requires DistinctIds(slots, SlotKey) && CanonicalChoices(slots, choices)
    ensures DistinctSlots(choices)
  {
    forall i, j | 0 <= i < j < |choices| ensures choices[i].slot != choices[j].slot {
      assert SlotKey(slots[i]) != SlotKey(slots[j]);
    }
  }

  lemma CanonicalSupplies(slots: seq<CreationSlot>, choices: seq<ChoiceSelection>, i: nat)
    requires DistinctSlots(choices) && CanonicalChoices(slots, choices) && i < |slots|
    ensures slots[i].id in Supplied(choices) && Supplied(choices)[slots[i].id] == choices[i].choice
  {
    SuppliedEntries(choices);
    assert choices[i] in choices;
  }

  /** A canonical selection is its own canonical form. */
  lemma CanonicalizeFixpoint(slots: seq<CreationSlot>, choices: seq<ChoiceSelection>)
    requires DistinctIds(slots, SlotKey) && CanonicalChoices(slots, choices)
    ensures Canonicalize(slots, choices) == Some(choices)
  {
    CanonicalDistinct(slots, choices);
    var supplied := Supplied(choices);
    forall i | 0 <= i < |slots| ensures slots[i].id in supplied && supplied[slots[i].id] == choices[i].choice {
      CanonicalSupplies(slots, choices, i);
    }
    assert forall slot <- slots :: slot.id in supplied && FindChoice(slot.choices, supplied[slot.id]).Some?;
    forall id | id in supplied ensures FindSlot(slots, id).Some? {
      SuppliedEntries(choices);
      var i :| 0 <= i < |choices| && choices[i] == ChoiceSelection(id, supplied[id]);
      FindSlotFirst(slots, id);
      assert slots[i] in slots;
    }
    var canonical := Canonicalize(slots, choices).value;
    assert canonical == choices;
  }

  /** Canonicalization ignores the order in which the player lists the choices. */
  lemma CanonicalizeIgnoresOrder(slots: seq<CreationSlot>, a: seq<ChoiceSelection>, b: seq<ChoiceSelection>)
    requires multiset(a) == multiset(b)
    ensures Canonicalize(slots, a) == Canonicalize(slots, b)
  {
    PermutationFacts(a, b);
    if DistinctSlots(a) {
      PermutedDistinct(a, b);
      SuppliedEntries(a);
      SuppliedEntries(b);
      assert Supplied(a) == Supplied(b);
    } else if DistinctSlots(b) {
      PermutedDistinct(b, a);
    }
  }

  lemma PermutationFacts(a: seq<ChoiceSelection>, b: seq<ChoiceSelection>)
    requires multiset(a) == multiset(b)
    ensures |a| == |b|
    ensures forall c :: c in a <==> c in b
  {
    assert |a| == |multiset(a)| && |b| == |multiset(b)|;
    forall c ensures c in a <==> c in b {
      assert c in multiset(a) <==> c in multiset(b);
    }
  }

  lemma DistinctOnce(a: seq<ChoiceSelection>, c: ChoiceSelection)
    requires DistinctSlots(a) && c in a
    ensures multiset(a)[c] == 1
  {
    var k :| 0 <= k < |a| && a[k] == c;
    assert a == a[..k] + [a[k]] + a[k + 1..];
    assert c !in a[..k] && c !in a[k + 1..];
  }

  lemma PermutedDistinct(a: seq<ChoiceSelection>, b: seq<ChoiceSelection>)
    requires multiset(a) == multiset(b) && DistinctSlots(a)
    ensures DistinctSlots(b)
  {
    PermutationFacts(a, b);
    forall i, j | 0 <= i < j < |b| ensures b[i].slot != b[j].slot {
      assert b[i] in a && b[j] in a;
      DistinctOnce(a, b[i]);
      if b[i] == b[j] {
        SplitTwice(b, i, j);
      }
    }
  }

  lemma SplitTwice(b: seq<ChoiceSelection>, i: nat, j: nat)
    requires i < j < |b| && b[i] == b[j]
    ensures multiset(b)[b[i]] >= 2
  {
    assert b == b[..i] + [b[i]] + b[i + 1..j] + [b[j]] + b[j + 1..];
  }

  /** A selection canonicalizes exactly when it lists, in some order, one known choice per slot; the result is that list in order. */
  lemma CanonicalizeExact(slots: seq<CreationSlot>, choices: seq<ChoiceSelection>)
    requires DistinctIds(slots, SlotKey)
    ensures Canonicalize(slots, choices).Some? <==>
      exists canonical :: CanonicalChoices(slots, canonical) && multiset(canonical) == multiset(choices)
    ensures forall canonical | CanonicalChoices(slots, canonical) && multiset(canonical) == multiset(choices) ::
      Canonicalize(slots, choices) == Some(canonical)
  {
    forall canonical | CanonicalChoices(slots, canonical) && multiset(canonical) == multiset(choices)
      ensures Canonicalize(slots, choices) == Some(canonical)
    {
      CanonicalizeFixpoint(slots, canonical);
      CanonicalizeIgnoresOrder(slots, canonical, choices);
    }
    if Canonicalize(slots, choices).Some? {
      CanonicalizePermutes(slots, choices);
    }
  }

  lemma CanonicalizePermutes(slots: seq<CreationSlot>, choices: seq<ChoiceSelection>)
    requires DistinctIds(slots, SlotKey) && Canonicalize(slots, choices).Some?
    ensures CanonicalChoices(slots, Canonicalize(slots, choices).value)
    ensures multiset(Canonicalize(slots, choices).value) == multiset(choices)
  {
    var canonical := Canonicalize(slots, choices).value;
    SuppliedEntries(choices);
    CanonicalDistinct(slots, canonical);
    forall c ensures c in canonical <==> c in choices {
      if c in choices {
        FindSlotFirst(slots, c.slot);
        var k :| 0 <= k < |slots| && slots[k].id == c.slot;
        assert canonical[k] == c;
      }
    }
    forall c ensures multiset(canonical)[c] == multiset(choices)[c] {
      if c in choices {
        DistinctOnce(canonical, c);
        DistinctOnce(choices, c);
      }
    }
  }

  // ---- The loops that merge and canonicalize ----

  /** merge_character_map: every key inserted once, or the first conflict. */
  method MergeCharacterMap<T>(target: map<Id, T>, values: map<Id, T>) returns (merged: Option<map<Id, T>>)
    ensures merged == MergeMap(target, values)
  {
    var next := target;
    var rest := values.Keys;
    while rest != {}
      invariant rest <= values.Keys && target.Keys !! (values.Keys - rest)
      invariant next == target + (values - rest)
      decreases |rest|
    {
      var key :| key in rest;
      if key in next {
        return None;
      }
      next := next[key := values[key]];
      rest := rest - {key};
    }
    assert values - {} == values;
    return Some(next);
  }

  /** apply_character_patch, field by field. */
  method ApplyCharacterPatch(c: Character, p: CharacterPatch) returns (r: Result<Character, CreationError>)
    ensures r == ApplyPatch(c, p)
  {
    hide MergeMap, MergeSingleton;
    var lineage, origin, background :=
      MergeSingleton(c.lineage, p.lineage), MergeSingleton(c.origin, p.origin), MergeSingleton(c.background, p.background);
    if lineage.None? || origin.None? || background.None? {
      return Err(Conflict);
    }
    var next := c.(lineage := lineage.value, origin := origin.value, background := background.value);
    var aptitudes := MergeCharacterMap(c.aptitudes, p.aptitudes);
    if aptitudes.None? {
      return Err(Conflict);
    }
    next := next.(aptitudes := aptitudes.value, skills := c.skills + p.skills, values := c.values + p.values,
                  traits := c.traits + p.traits, flaws := c.flaws + p.flaws);
    var appearance := MergeCharacterMap(c.appearance, p.appearance);
    if appearance.None? {
      return Err(Conflict);
    }
    var affiliations := MergeCharacterMap(c.affiliations, p.affiliations);
    if affiliations.None? {
      return Err(Conflict);
    }
    var reputation := MergeCharacterMap(c.reputation, p.reputation);
    if reputation.None? {
      return Err(Conflict);
    }
    next := next.(appearance := appearance.value, affiliations := affiliations.value, reputation := reputation.value,
                  knowledge := c.knowledge + p.knowledge);
    var inventory := MergeCharacterMap(c.inventory, p.inventory);
    if inventory.None? {
      return Err(Conflict);
    }
    var resources := MergeCharacterMap(c.resources, p.resources);
    if resources.None? {
      return Err(Conflict);
    }
    next := next.(inventory := inventory.value, resources := resources.value, injuries := c.injuries + p.injuries,
                  deeds := c.deeds + p.deeds, promises := c.promises + p.promises,
                  discoveries := c.discoveries + p.discoveries);
    var facets := MergeCharacterMap(c.facets, p.facets);
    if facets.None? {
      return Err(Conflict);
    }
    return Ok(next.(facets := facets.value));
  }

  lemma {:induction false} PatchesFail(c: Character, a: seq<CharacterPatch>, b: seq<CharacterPatch>)
    requires ApplyPatches(c, a).Err?
    ensures ApplyPatches(c, a + b) == ApplyPatches(c, a)
    decreases |b|
  {
    if b == [] {
      assert a + b == a;
    } else {
      assert (a + b)[..|a + b| - 1] == a + b[..|b| - 1];
      PatchesFail(c, a, b[..|b| - 1]);
    }
  }

  lemma {:induction false} PatchesPrefix(slots: seq<CreationSlot>, choices: seq<ChoiceSelection>, n: nat)
    requires n <= |choices| && PatchesOf(slots, choices).Some?
    ensures |PatchesOf(slots, choices).value| == |choices|
    ensures PatchesOf(slots, choices[..n]) == Some(PatchesOf(slots, choices).value[..n])
    decreases |choices|
  {
    if n == |choices| {
      assert choices[..n] == choices;
      if choices != [] {
        PatchesPrefix(slots, choices[..n - 1], n - 1);
      }
      assert PatchesOf(slots, choices).value[..n] == PatchesOf(slots, choices).value;
    } else {
      PatchesPrefix(slots, choices[..|choices| - 1], n);
      assert choices[..|choices| - 1][..n] == choices[..n];
      var earlier := PatchesOf(slots, choices[..|choices| - 1]).value;
      assert PatchesOf(slots, choices).value == earlier + [PatchOf(slots, choices[|choices| - 1]).value];
      assert PatchesOf(slots, choices).value[..n] == earlier[..n];
    }
  }

  lemma PatchAt(slots: seq<CreationSlot>, choices: seq<ChoiceSelection>, i: nat)
    requires i < |choices| && PatchesOf(slots, choices).Some?
    ensures |PatchesOf(slots, choices).value| == |choices|
    ensures PatchOf(slots, choices[i]) == Some(PatchesOf(slots, choices).value[i])
  {
    PatchesPrefix(slots, choices, i + 1);
    PatchesPrefix(slots, choices[..i + 1], i);
    var front := choices[..i + 1];
    assert front[|front| - 1] == choices[i] && front[..|front| - 1] == choices[..i];
    assert PatchesOf(slots, front).value[i] == PatchOf(slots, choices[i]).value;
    assert PatchesOf(slots, choices).value[..i + 1][i] == PatchesOf(slots, choices).value[i];
  }

  /** custom_character_from_canonical: the base, then one compiled patch per selected choice. */
  method CustomFromCanonical(definition: CreationDefinition, id: Id, choices: seq<ChoiceSelection>)
    returns (r: Result<Character, CreationError>)
    requires PatchesOf(definition.slots, choices).Some?
    ensures r == CustomCharacter(definition, id, choices)
  {
    hide ApplyPatch;
    ghost var patches := PatchesOf(definition.slots, choices).value;
    ghost var all := [definition.base] + patches;
    PatchesPrefix(definition.slots, choices, |choices|);
    var begun := ApplyCharacterPatch(EmptyCharacter(id), definition.base);
    assert all[..1] == [definition.base] && all[..1][..0] == [];
    if begun.Err? {
      assert all == all[..1] + patches;
      PatchesFail(EmptyCharacter(id), all[..1], patches);
      return begun;
    }
    var character := begun.value;
    for i := 0 to |choices|
      invariant ApplyPatches(EmptyCharacter(id), all[..i + 1]) == Ok(character)
    {
      PatchAt(definition.slots, choices, i);
      var patch := PatchOf(definition.slots, choices[i]).value;
      assert patch == all[i + 1] && all[..i + 2][..i + 1] == all[..i + 1];
      var next := ApplyCharacterPatch(character, patch);
      if next.Err? {
        assert all == all[..i + 2] + all[i + 2..];
        PatchesFail(EmptyCharacter(id), all[..i + 2], all[i + 2..]);
        return next;
      }
      character := next.value;
    }
    assert all[..|choices| + 1] == all;
    if character.lineage == "" || character.origin == "" || character.background == "" {
      return Err(Undefined);
    }
    return Ok(character);
  }

  lemma SuppliedNext(choices: seq<ChoiceSelection>, i: nat)
    requires i < |choices|
    ensures Supplied(choices[..i + 1]) == Supplied(choices[..i])[choices[i].slot := choices[i].choice]
  {
    assert choices[..i + 1][..i] == choices[..i];
  }

  lemma Repeated(choices: seq<ChoiceSelection>, i: nat)
    requires i < |choices| && DistinctSlots(choices[..i]) && choices[i].slot in Supplied(choices[..i])
    ensures !DistinctSlots(choices)
  {
    SuppliedEntries(choices[..i]);
    var earlier := ChoiceSelection(choices[i].slot, Supplied(choices[..i])[choices[i].slot]);
    var j :| 0 <= j < i && choices[..i][j] == earlier;
    assert choices[j] == earlier;
  }

  lemma NotRepeated(choices: seq<ChoiceSelection>, i: nat)
    requires i < |choices| && DistinctSlots(choices[..i]) && choices[i].slot !in Supplied(choices[..i])
    ensures DistinctSlots(choices[..i + 1])
  {
    SuppliedEntries(choices[..i]);
    hide Supplied;
    var longer := choices[..i + 1];
    forall a, b | 0 <= a < b < |longer| ensures longer[a].slot != longer[b].slot {
      assert choices[..i][a] == choices[a] && choices[a] in choices[..i];
      if b < i {
        assert choices[..i][b] == choices[b];
      }
    }
  }

  /** canonical_character_selection: collect the choices, read them back in slot order, and refuse unknown slots. */
  method CanonicalSelection(slots: seq<CreationSlot>, choices: seq<ChoiceSelection>)
    returns (canonical: Option<seq<ChoiceSelection>>)
    ensures canonical == Canonicalize(slots, choices)
  {
    if |choices| != |slots| {
      return None;
    }
    var supplied: map<Id, Id> := map[];
    for i := 0 to |choices|
      invariant DistinctSlots(choices[..i]) && supplied == Supplied(choices[..i])
    {
      SuppliedNext(choices, i);
      if choices[i].slot in supplied {
        Repeated(choices, i);
        return None;
      }
      NotRepeated(choices, i);
      supplied := supplied[choices[i].slot := choices[i].choice];
    }
    assert choices[..|choices|] == choices;
    var ordered: seq<ChoiceSelection> := [];
    for i := 0 to |slots|
      invariant |ordered| == i
      invariant forall k :: 0 <= k < i ==>
        && slots[k].id in supplied && FindChoice(slots[k].choices, supplied[slots[k].id]).Some?
        && ordered[k] == ChoiceSelection(slots[k].id, supplied[slots[k].id])
    {
      assert slots[i] in slots;
      if slots[i].id !in supplied || FindChoice(slots[i].choices, supplied[slots[i].id]).None? {
        return None;
      }
      ordered := ordered + [ChoiceSelection(slots[i].id, supplied[slots[i].id])];
    }
    var rest := supplied.Keys;
    while rest != {}
      invariant rest <= supplied.Keys
      invariant forall id <- supplied.Keys - rest :: FindSlot(slots, id).Some?
      decreases |rest|
    {
      var id :| id in rest;
      if FindSlot(slots, id).None? {
        return None;
      }
      rest := rest - {id};
    }
    forall slot | slot in slots
      ensures slot.id in supplied && FindChoice(slot.choices, supplied[slot.id]).Some?
    {
      var k :| 0 <= k < |slots| && slots[k] == slot;
    }
    assert supplied.Keys - {} == supplied.Keys;
    assert Canonicalize(slots, choices).Some?;
    assert ordered == Canonicalize(slots, choices).value;
    return Some(ordered);
  }
}

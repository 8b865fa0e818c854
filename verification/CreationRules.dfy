// What validated character creation guarantees (validate_character_creation and the patch merge).
module CreationRules {
  import opened Basics
  import opened Model
  import opened Content
  import opened Creation
  import Text

  const BASE_OWNER := "base"

  /** The fields whose values may be written once; a keyed field once per key. */
  datatype Field =
    | Lineage | Origin | Background
    | Aptitudes | Appearance | Affiliations | Reputation | Stock | Resources | Facets

  datatype Target = Target(field: Field, key: Id)

  const ALL_FIELDS: set<Field> :=
    {Lineage, Origin, Background, Aptitudes, Appearance, Affiliations, Reputation, Stock, Resources, Facets}

  function SingletonKeys(value: Option<string>): set<Id> {
    if value.Some? then {""} else {}
  }

  /** The keys a patch writes in a field; the empty key stands for a singleton's value. */
  function PatchKeys(p: CharacterPatch, field: Field): set<Id> {
    match field
    case Lineage => SingletonKeys(p.lineage)
    case Origin => SingletonKeys(p.origin)
    case Background => SingletonKeys(p.background)
    case Aptitudes => p.aptitudes.Keys
    case Appearance => p.appearance.Keys
    case Affiliations => p.affiliations.Keys
    case Reputation => p.reputation.Keys
    case Stock => p.inventory.Keys
    case Resources => p.resources.Keys
    case Facets => p.facets.Keys
  }

  function WriteTargets(p: CharacterPatch): set<Target> {
    set field <- ALL_FIELDS, key <- PatchKeys(p, field) :: Target(field, key)
  }

  function SlotWrites(slot: CreationSlot): set<Target> {
    set choice <- slot.choices, target <- WriteTargets(choice.patch) :: target
  }

  /** A named writer of the conflict table: the base patch, then every slot. */
  datatype Writer = Writer(owner: Id, targets: set<Target>)

  function Writers(definition: CreationDefinition): seq<Writer> {
    [Writer(BASE_OWNER, WriteTargets(definition.base))]
    + seq(|definition.slots|, i requires 0 <= i < |definition.slots| =>
        Writer(definition.slots[i].id, SlotWrites(definition.slots[i])))
  }

  /** Writers of different names share no target. */
  predicate Owned(writers: seq<Writer>) {
    forall i, j :: 0 <= i < j < |writers| && writers[i].owner != writers[j].owner ==>
      writers[i].targets !! writers[j].targets
  }

  function Registered(owners: map<Target, Id>, w: Writer): map<Target, Id> {
    owners + map target <- w.targets :: w.owner
  }

  predicate Compatible(owners: map<Target, Id>, w: Writer) {
    forall target <- w.targets :: target in owners ==> owners[target] == w.owner
  }

  /** Register a writer's targets; report whether another owner had one of them. */
  method Register(owners: map<Target, Id>, w: Writer) returns (next: map<Target, Id>, ok: bool)
    ensures next == Registered(owners, w)
    ensures ok <==> Compatible(owners, w)
  {
    next := owners;
    ok := true;
    var rest := w.targets;
    while rest != {}
      invariant rest <= w.targets
      invariant next == Registered(owners, Writer(w.owner, w.targets - rest))
      invariant ok <==> Compatible(owners, Writer(w.owner, w.targets - rest))
    {
      var target :| target in rest;
      if target in next && next[target] != w.owner {
        ok := false;
      }
      next := next[target := w.owner];
      rest := rest - {target};
    }
    assert w.targets - rest == w.targets;
  }

  ghost predicate NamesWriter(writers: seq<Writer>, owner: Id, target: Target) {
    exists i :: 0 <= i < |writers| && owner == writers[i].owner && target in writers[i].targets
  }

  ghost predicate Tabulates(owners: map<Target, Id>, writers: seq<Writer>) {
    && (forall i | 0 <= i < |writers| :: forall target <- writers[i].targets :: target in owners)
    && (forall target <- owners :: NamesWriter(writers, owners[target], target))
  }

  lemma TabulatesNext(owners: map<Target, Id>, writers: seq<Writer>, w: Writer)
    requires Tabulates(owners, writers)
    ensures Tabulates(Registered(owners, w), writers + [w])
  {
    var next, longer := Registered(owners, w), writers + [w];
    forall target | target in next ensures NamesWriter(longer, next[target], target) {
      if target in w.targets {
        assert longer[|writers|] == w;
      } else {
        var i :| 0 <= i < |writers| && owners[target] == writers[i].owner && target in writers[i].targets;
        assert longer[i] == writers[i];
      }
    }
  }

  /** The table names every writer so far, so one more writer is compatible with it exactly when with all of them. */
  lemma OwnedNext(owners: map<Target, Id>, writers: seq<Writer>, w: Writer)
    requires Tabulates(owners, writers) && Owned(writers)
    ensures Owned(writers + [w]) <==> Compatible(owners, w)
  {
    var longer := writers + [w];
    if Owned(longer) {
      forall target | target in w.targets && target in owners ensures owners[target] == w.owner {
        var i :| 0 <= i < |writers| && owners[target] == writers[i].owner && target in writers[i].targets;
        assert longer[i] == writers[i] && longer[|writers|] == w;
      }
    }
    if Compatible(owners, w) {
      forall i, target | 0 <= i < |writers| && target in writers[i].targets && target in w.targets
        ensures writers[i].owner == w.owner
      {
        var k :| 0 <= k < |writers| && owners[target] == writers[k].owner && target in writers[k].targets;
      }
    }
  }

  lemma OwnedPrefix(writers: seq<Writer>, w: Writer)
    requires Owned(writers + [w])
    ensures Owned(writers)
  {
    assert forall i :: 0 <= i < |writers| ==> writers[i] == (writers + [w])[i];
  }

  lemma OwnedStep(owners: map<Target, Id>, writers: seq<Writer>, n: nat)
    requires n < |writers| && Tabulates(owners, writers[..n])
    ensures Tabulates(Registered(owners, writers[n]), writers[..n + 1])
    ensures Owned(writers[..n + 1]) <==> Owned(writers[..n]) && Compatible(owners, writers[n])
  {
    assert writers[..n + 1] == writers[..n] + [writers[n]];
    TabulatesNext(owners, writers[..n], writers[n]);
    if Owned(writers[..n]) {
      OwnedNext(owners, writers[..n], writers[n]);
    } else if Owned(writers[..n + 1]) {
      OwnedPrefix(writers[..n], writers[n]);
    }
  }

  method CheckWriters(writers: seq<Writer>) returns (ok: bool)
    ensures ok <==> Owned(writers)
  {
    var owners: map<Target, Id> := map[];
    ok := true;
    for n := 0 to |writers|
      invariant Tabulates(owners, writers[..n])
      invariant ok <==> Owned(writers[..n])
    {
      OwnedStep(owners, writers, n);
      var fine;
      owners, fine := Register(owners, writers[n]);
      ok := ok && fine;
    }
    assert writers[..|writers|] == writers;
  }

  /** The conflict check of validate_character_creation: a table of owners, filled writer by writer. */
  method CheckWrites(definition: CreationDefinition) returns (ok: bool)
    ensures ok <==> Owned(Writers(definition))
  {
    ok := CheckWriters(Writers(definition));
  }

  // ---- Validated creation ----

  predicate PatchValid(p: CharacterPatch) {
    && (p.lineage.Some? ==> !Text.Blank(p.lineage.value))
    && (p.origin.Some? ==> !Text.Blank(p.origin.value))
    && (p.background.Some? ==> !Text.Blank(p.background.value))
    && forall item <- p.inventory :: 0 < p.inventory[item] <= 1_000_000
  }

  predicate SlotValid(slot: CreationSlot) {
    && 2 <= |slot.choices| <= 64
    && DistinctIds(slot.choices, ChoiceKey)
    && forall choice <- slot.choices :: PatchValid(choice.patch)
  }

  predicate Covered(definition: CreationDefinition, field: Field)
    requires field in {Lineage, Origin, Background}
  {
    || Singleton(definition.base, field).Some?
    || exists slot <- definition.slots :: forall choice <- slot.choices :: Singleton(choice.patch, field).Some?
  }

  function Singleton(p: CharacterPatch, field: Field): Option<string>
    requires field in {Lineage, Origin, Background}
  {
    match field
    case Lineage => p.lineage
    case Origin => p.origin
    case Background => p.background
  }

  /** validate_character_creation, without the limits on names and texts. */
  predicate CreationValid(definition: CreationDefinition) {
    && 2 <= |definition.slots| <= 16
    && PatchValid(definition.base)
    && DistinctIds(definition.slots, SlotKey)
    && (forall slot <- definition.slots :: SlotValid(slot))
    && Owned(Writers(definition))
    && Covered(definition, Lineage) && Covered(definition, Origin) && Covered(definition, Background)
  }

  // ---- When patches merge ----

  predicate Writes(p: CharacterPatch, t: Target) {
    t.key in PatchKeys(p, t.field)
  }

  /** The keys at which the character already holds a value. */
  function HeldKeys(c: Character, field: Field): set<Id> {
    match field
    case Lineage => if c.lineage != "" then {""} else {}
    case Origin => if c.origin != "" then {""} else {}
    case Background => if c.background != "" then {""} else {}
    case Aptitudes => c.aptitudes.Keys
    case Appearance => c.appearance.Keys
    case Affiliations => c.affiliations.Keys
    case Reputation => c.reputation.Keys
    case Stock => c.inventory.Keys
    case Resources => c.resources.Keys
    case Facets => c.facets.Keys
  }

  predicate Holds(c: Character, t: Target) {
    t.key in HeldKeys(c, t.field)
  }

  lemma WriteTargetsAre(p: CharacterPatch, t: Target)
    ensures t in WriteTargets(p) <==> Writes(p, t)
  {
  }

  ghost predicate Clash(c: Character, p: CharacterPatch) {
    exists t :: Holds(c, t) && Writes(p, t)
  }

  /** A patch merges exactly when it writes no target the character holds. */
  lemma PatchMerges(c: Character, p: CharacterPatch)
    requires PatchValid(p)
    ensures ApplyPatch(c, p).Ok? <==> !Clash(c, p)
  {
    if ApplyPatch(c, p).Ok? {
      MergedHasNoClash(c, p);
    } else {
      var t := FieldInConflict(c, p);
    }
  }

  lemma MergedHasNoClash(c: Character, p: CharacterPatch)
    requires ApplyPatch(c, p).Ok?
    ensures !Clash(c, p)
  {
  }

  lemma FieldInConflict(c: Character, p: CharacterPatch) returns (t: Target)
    requires ApplyPatch(c, p).Err?
    ensures Holds(c, t) && Writes(p, t)
  {
    var field :| !(HeldKeys(c, field) !! PatchKeys(p, field));
    var key :| key in HeldKeys(c, field) && key in PatchKeys(p, field);
    t := Target(field, key);
  }

  /** A merged character holds what it held, and what the patch wrote. */
  lemma MergedHolds(c: Character, p: CharacterPatch, t: Target)
    requires PatchValid(p) && ApplyPatch(c, p).Ok?
    ensures Holds(ApplyPatch(c, p).value, t) <==> Holds(c, t) || Writes(p, t)
  {
    match t.field
    case Lineage => assert p.lineage.Some? ==> p.lineage.value != "";
    case Origin => assert p.origin.Some? ==> p.origin.value != "";
    case Background => assert p.background.Some? ==> p.background.value != "";
    case _ =>
  }

  // ---- Merging a whole selection ----

  /** Patches that write no common target. */
  ghost predicate Separate(patches: seq<CharacterPatch>) {
    forall i, j, t :: 0 <= i < j < |patches| ==> !(Writes(patches[i], t) && Writes(patches[j], t))
  }

  ghost predicate WrittenBy(patches: seq<CharacterPatch>, t: Target) {
    exists p <- patches :: Writes(p, t)
  }

  lemma EmptyHoldsNothing(id: Id, t: Target)
    ensures !Holds(EmptyCharacter(id), t)
  {
  }

  /** Patches merge into an empty character exactly when no two write a common target. */
  lemma {:induction false} PatchesMerge(id: Id, patches: seq<CharacterPatch>)
    requires forall p <- patches :: PatchValid(p)
    ensures ApplyPatches(EmptyCharacter(id), patches).Ok? <==> Separate(patches)
    ensures Separate(patches) ==>
      forall t :: Holds(ApplyPatches(EmptyCharacter(id), patches).value, t) <==> WrittenBy(patches, t)
    decreases |patches|
  {
    if patches == [] {
      forall t ensures !Holds(EmptyCharacter(id), t) {
        EmptyHoldsNothing(id, t);
      }
    } else {
      var front, last := patches[..|patches| - 1], patches[|patches| - 1];
      assert patches == front + [last];
      PatchesMerge(id, front);
      if Separate(front) {
        var c := ApplyPatches(EmptyCharacter(id), front).value;
        PatchMerges(c, last);
        SeparateNext(front, last);
        if ApplyPatch(c, last).Ok? {
          forall t ensures Holds(ApplyPatch(c, last).value, t) <==> WrittenBy(patches, t) {
            MergedHolds(c, last, t);
          }
        }
      } else {
        assert forall i :: 0 <= i < |front| ==> front[i] == patches[i];
      }
    }
  }

  lemma SeparateNext(front: seq<CharacterPatch>, last: CharacterPatch)
    requires Separate(front)
    ensures Separate(front + [last]) <==> !exists t :: WrittenBy(front, t) && Writes(last, t)
  {
    var patches := front + [last];
    if Separate(patches) {
      forall t | WrittenBy(front, t) ensures !Writes(last, t) {
        var i :| 0 <= i < |front| && Writes(front[i], t);
        assert patches[i] == front[i] && patches[|front|] == last;
      }
    }
    if forall t :: WrittenBy(front, t) ==> !Writes(last, t) {
      forall i, j, t | 0 <= i < j < |patches| ensures !(Writes(patches[i], t) && Writes(patches[j], t)) {
        if j < |front| {
          assert patches[i] == front[i] && patches[j] == front[j];
        } else {
          assert patches[i] == front[i] && front[i] in front;
        }
      }
    }
  }

  // ---- Every canonical selection ----

  lemma {:induction false} InsertSlotElements(sorted: seq<CreationSlot>, slot: CreationSlot)
    ensures multiset(InsertSlot(sorted, slot)) == multiset(sorted) + multiset{slot}
    decreases |sorted|
  {
    if sorted != [] && SlotBefore(slot, sorted[|sorted| - 1]) {
      InsertSlotElements(sorted[..|sorted| - 1], slot);
      assert sorted == sorted[..|sorted| - 1] + [sorted[|sorted| - 1]];
    }
  }

  /** Sorting the slots only reorders them. */
  lemma {:induction false} SortSlotsElements(slots: seq<CreationSlot>)
    ensures multiset(SortSlots(slots)) == multiset(slots)
    decreases |slots|
  {
    if slots != [] {
      var front, last := slots[..|slots| - 1], slots[|slots| - 1];
      SortSlotsElements(front);
      InsertSlotElements(SortSlots(front), last);
      assert slots == front + [last];
      assert SortSlots(slots) == InsertSlot(SortSlots(front), last);
    }
  }

  predicate Permuted(a: seq<CreationSlot>, b: seq<CreationSlot>) {
    multiset(a) == multiset(b)
  }

  lemma PermutedSlots(a: seq<CreationSlot>, b: seq<CreationSlot>)
    requires Permuted(a, b)
    ensures |a| == |b| && forall slot :: slot in a <==> slot in b
    ensures DistinctIds(a, SlotKey) ==> DistinctIds(b, SlotKey)
  {
    assert |a| == |multiset(a)| && |b| == |multiset(b)|;
    forall slot ensures slot in a <==> slot in b {
      assert slot in multiset(a) <==> slot in multiset(b);
    }
    if DistinctIds(a, SlotKey) {
      forall i, j | 0 <= i < j < |b| ensures SlotKey(b[i]) != SlotKey(b[j]) {
        assert b[i] in a && b[j] in a;
        SlotOnce(a, b[i]);
        if b[i] == b[j] {
          SlotTwice(b, i, j);
        }
      }
    }
  }

  lemma SlotOnce(a: seq<CreationSlot>, slot: CreationSlot)
    requires DistinctIds(a, SlotKey) && slot in a
    ensures multiset(a)[slot] == 1
  {
    var k :| 0 <= k < |a| && a[k] == slot;
    assert a == a[..k] + [a[k]] + a[k + 1..];
    forall i | 0 <= i < |a| && i != k ensures a[i] != slot {
      assert SlotKey(a[i]) != SlotKey(a[k]);
    }
    assert slot !in a[..k] && slot !in a[k + 1..];
  }

  lemma SlotTwice(b: seq<CreationSlot>, i: nat, j: nat)
    requires i < j < |b| && b[i] == b[j]
    ensures multiset(b)[b[i]] >= 2
  {
    assert b == b[..i] + [b[i]] + b[i + 1..j] + [b[j]] + b[j + 1..];
  }

  lemma {:induction false} FindChoiceFirst(choices: seq<CreationChoice>, id: Id)
    ensures FindChoice(choices, id).Some? <==> exists choice <- choices :: choice.id == id
    ensures FindChoice(choices, id).Some? ==>
      FindChoice(choices, id).value in choices && FindChoice(choices, id).value.id == id
    decreases |choices|
  {
    if choices != [] {
      FindChoiceFirst(choices[1..], id);
      assert choices == [choices[0]] + choices[1..];
    }
  }

  /** With distinct ids a slot is found under its own id. */
  lemma FindSlotOwn(slots: seq<CreationSlot>, slot: CreationSlot)
    requires DistinctIds(slots, SlotKey) && slot in slots
    ensures FindSlot(slots, slot.id) == Some(slot)
  {
    FindSlotFirst(slots, slot.id);
    var found := FindSlot(slots, slot.id).value;
    var i, j :| 0 <= i < |slots| && slots[i] == slot && 0 <= j < |slots| && slots[j] == found;
    assert SlotKey(slots[i]) == SlotKey(slots[j]);
  }

  lemma FindChoiceOwn(choices: seq<CreationChoice>, choice: CreationChoice)
    requires DistinctIds(choices, ChoiceKey) && choice in choices
    ensures FindChoice(choices, choice.id) == Some(choice)
  {
    FindChoiceFirst(choices, choice.id);
    var found := FindChoice(choices, choice.id).value;
    var i, j :| 0 <= i < |choices| && choices[i] == choice && 0 <= j < |choices| && choices[j] == found;
    assert ChoiceKey(choices[i]) == ChoiceKey(choices[j]);
  }

  /** The patches a canonical selection names: one of each slot, in slot order. */
  function ChosenPatches(slots: seq<CreationSlot>, choices: seq<ChoiceSelection>): seq<CharacterPatch>
    requires CanonicalChoices(slots, choices)
  {
    seq(|slots|, i requires 0 <= i < |slots| => FindChoice(slots[i].choices, choices[i].choice).value.patch)
  }

  lemma {:induction false} PatchesOfCanonical(slots: seq<CreationSlot>, choices: seq<ChoiceSelection>, n: nat)
    requires DistinctIds(slots, SlotKey) && CanonicalChoices(slots, choices) && n <= |choices|
    ensures PatchesOf(slots, choices[..n]) == Some(ChosenPatches(slots, choices)[..n])
    decreases n
  {
    if n > 0 {
      PatchesOfCanonical(slots, choices, n - 1);
      assert choices[..n][..n - 1] == choices[..n - 1];
      assert slots[n - 1] in slots;
      FindSlotOwn(slots, slots[n - 1]);
      var chosen := ChosenPatches(slots, choices);
      assert chosen[..n] == chosen[..n - 1] + [chosen[n - 1]];
    }
  }

  /** The one collision the owner table cannot see: a slot that is itself named like the base patch. */
  predicate NoBaseCollision(definition: CreationDefinition) {
    forall slot <- definition.slots :: slot.id == BASE_OWNER ==> SlotWrites(slot) !! WriteTargets(definition.base)
  }

  function Compiled(definition: CreationDefinition): CreationDefinition {
    CreationDefinition(definition.base, SortSlots(definition.slots))
  }

  lemma OwnedPair(writers: seq<Writer>, i: nat, j: nat)
    requires Owned(writers) && i < |writers| && j < |writers| && writers[i].owner != writers[j].owner
    ensures writers[i].targets !! writers[j].targets
  {
    if i < j {
      assert writers[i].targets !! writers[j].targets;
    } else {
      assert writers[j].targets !! writers[i].targets;
    }
  }

  lemma SlotWriter(definition: CreationDefinition, slot: CreationSlot) returns (i: nat)
    requires slot in definition.slots
    ensures 0 < i < |Writers(definition)| && Writers(definition)[i] == Writer(slot.id, SlotWrites(slot))
  {
    var k :| 0 <= k < |definition.slots| && definition.slots[k] == slot;
    i := k + 1;
  }

  lemma OwnedSlots(definition: CreationDefinition, a: CreationSlot, b: CreationSlot)
    requires Owned(Writers(definition))
    requires a in definition.slots && b in definition.slots && a.id != b.id
    ensures SlotWrites(a) !! SlotWrites(b)
  {
    var i := SlotWriter(definition, a);
    var j := SlotWriter(definition, b);
    OwnedPair(Writers(definition), i, j);
  }

  lemma OwnedBase(definition: CreationDefinition, slot: CreationSlot)
    requires Owned(Writers(definition)) && NoBaseCollision(definition) && slot in definition.slots
    ensures SlotWrites(slot) !! WriteTargets(definition.base)
  {
    if slot.id != BASE_OWNER {
      var i := SlotWriter(definition, slot);
      OwnedPair(Writers(definition), i, 0);
    }
  }

  function MergedPatches(definition: CreationDefinition, choices: seq<ChoiceSelection>): seq<CharacterPatch>
    requires CanonicalChoices(definition.slots, choices)
  {
    [definition.base] + ChosenPatches(definition.slots, choices)
  }

  /** The compiled slots and a chosen patch, for one slot of a canonical selection. */
  lemma ChosenPatch(definition: CreationDefinition, choices: seq<ChoiceSelection>, i: nat)
    requires CreationValid(definition)
    requires CanonicalChoices(Compiled(definition).slots, choices) && i < |choices|
    ensures var slot := Compiled(definition).slots[i];
            && slot in definition.slots
            && PatchValid(ChosenPatches(Compiled(definition).slots, choices)[i])
            && WriteTargets(ChosenPatches(Compiled(definition).slots, choices)[i]) <= SlotWrites(slot)
  {
    var slots := Compiled(definition).slots;
    SortSlotsElements(definition.slots);
    PermutedSlots(definition.slots, slots);
    assert slots[i] in definition.slots;
    FindChoiceFirst(slots[i].choices, choices[i].choice);
  }

  lemma MergedPatchesValid(definition: CreationDefinition, choices: seq<ChoiceSelection>)
    requires CreationValid(definition) && CanonicalChoices(Compiled(definition).slots, choices)
    ensures forall p <- MergedPatches(Compiled(definition), choices) :: PatchValid(p)
  {
    forall i | 0 <= i < |choices| ensures PatchValid(ChosenPatches(Compiled(definition).slots, choices)[i]) {
      ChosenPatch(definition, choices, i);
    }
  }

  lemma ChosenWrites(definition: CreationDefinition, choices: seq<ChoiceSelection>, i: nat, t: Target)
    requires CreationValid(definition)
    requires CanonicalChoices(Compiled(definition).slots, choices) && i < |choices|
    requires Writes(ChosenPatches(Compiled(definition).slots, choices)[i], t)
    ensures var slot := Compiled(definition).slots[i];
            slot in definition.slots && t in SlotWrites(slot)
  {
    ChosenPatch(definition, choices, i);
    WriteTargetsAre(ChosenPatches(Compiled(definition).slots, choices)[i], t);
  }

  lemma CompiledSlotsDiffer(definition: CreationDefinition, i: nat, j: nat)
    requires CreationValid(definition) && i < j < |Compiled(definition).slots|
    ensures Compiled(definition).slots[i].id != Compiled(definition).slots[j].id
  {
    SortSlotsElements(definition.slots);
    PermutedSlots(definition.slots, Compiled(definition).slots);
    assert SlotKey(Compiled(definition).slots[i]) != SlotKey(Compiled(definition).slots[j]);
  }

  lemma NoSharedTarget(definition: CreationDefinition, choices: seq<ChoiceSelection>, i: nat, j: nat, t: Target)
    requires CreationValid(definition) && NoBaseCollision(definition)
    requires CanonicalChoices(Compiled(definition).slots, choices) && i <= j < |choices|
    requires Writes(ChosenPatches(Compiled(definition).slots, choices)[j], t)
    ensures i < j ==> !Writes(ChosenPatches(Compiled(definition).slots, choices)[i], t)
    ensures !Writes(definition.base, t)
  {
    var slots := Compiled(definition).slots;
    ChosenWrites(definition, choices, j, t);
    OwnedBase(definition, slots[j]);
    WriteTargetsAre(definition.base, t);
    if i < j && Writes(ChosenPatches(slots, choices)[i], t) {
      ChosenWrites(definition, choices, i, t);
      CompiledSlotsDiffer(definition, i, j);
      OwnedSlots(definition, slots[i], slots[j]);
    }
  }

  lemma MergedPatchesSeparate(definition: CreationDefinition, choices: seq<ChoiceSelection>)
    requires CreationValid(definition) && NoBaseCollision(definition)
    requires CanonicalChoices(Compiled(definition).slots, choices)
    ensures Separate(MergedPatches(Compiled(definition), choices))
  {
    var patches := MergedPatches(Compiled(definition), choices);
    forall i, j, t | 0 <= i < j < |patches| && Writes(patches[j], t) ensures !Writes(patches[i], t) {
      NoSharedTarget(definition, choices, if i == 0 then j - 1 else i - 1, j - 1, t);
    }
  }

  lemma ChosenOf(slots: seq<CreationSlot>, choices: seq<ChoiceSelection>, i: nat) returns (choice: CreationChoice)
    requires CanonicalChoices(slots, choices) && i < |slots|
    ensures choice in slots[i].choices && ChosenPatches(slots, choices)[i] == choice.patch
  {
    FindChoiceFirst(slots[i].choices, choices[i].choice);
    choice := FindChoice(slots[i].choices, choices[i].choice).value;
  }

  lemma CompiledSlotIndex(definition: CreationDefinition, slot: CreationSlot) returns (i: nat)
    requires slot in definition.slots
    ensures i < |Compiled(definition).slots| && Compiled(definition).slots[i] == slot
  {
    SortSlotsElements(definition.slots);
    PermutedSlots(definition.slots, Compiled(definition).slots);
    i :| 0 <= i < |Compiled(definition).slots| && Compiled(definition).slots[i] == slot;
  }

  lemma CoveredIsWritten(definition: CreationDefinition, choices: seq<ChoiceSelection>, field: Field)
    requires field in {Lineage, Origin, Background} && Covered(definition, field)
    requires CanonicalChoices(Compiled(definition).slots, choices)
    ensures WrittenBy(MergedPatches(Compiled(definition), choices), Target(field, ""))
  {
    var slots, patches := Compiled(definition).slots, MergedPatches(Compiled(definition), choices);
    if Singleton(definition.base, field).Some? {
      assert patches[0] in patches && Writes(patches[0], Target(field, ""));
    } else {
      var slot :| slot in definition.slots && forall choice <- slot.choices :: Singleton(choice.patch, field).Some?;
      var i := CompiledSlotIndex(definition, slot);
      var choice := ChosenOf(slots, choices, i);
      assert patches[i + 1] == choice.patch && patches[i + 1] in patches;
      assert Singleton(choice.patch, field).Some?;
      assert Writes(patches[i + 1], Target(field, ""));
    }
  }

  lemma CanonicalPatches(definition: CreationDefinition, choices: seq<ChoiceSelection>)
    requires CreationValid(definition) && CanonicalChoices(Compiled(definition).slots, choices)
    ensures PatchesOf(Compiled(definition).slots, choices) == Some(ChosenPatches(Compiled(definition).slots, choices))
  {
    var slots := Compiled(definition).slots;
    SortSlotsElements(definition.slots);
    PermutedSlots(definition.slots, slots);
    PatchesOfCanonical(slots, choices, |choices|);
    assert choices[..|choices|] == choices;
    assert ChosenPatches(slots, choices)[..|choices|] == ChosenPatches(slots, choices);
  }

  lemma CoveredIsDefined(definition: CreationDefinition, id: Id, choices: seq<ChoiceSelection>, field: Field)
    requires CreationValid(definition) && CanonicalChoices(Compiled(definition).slots, choices)
    requires field in {Lineage, Origin, Background}
    requires Separate(MergedPatches(Compiled(definition), choices))
    requires ApplyPatches(EmptyCharacter(id), MergedPatches(Compiled(definition), choices)).Ok?
    ensures Holds(ApplyPatches(EmptyCharacter(id), MergedPatches(Compiled(definition), choices)).value, Target(field, ""))
  {
    MergedPatchesValid(definition, choices);
    PatchesMerge(id, MergedPatches(Compiled(definition), choices));
    CoveredIsWritten(definition, choices, field);
  }

  /** For validated creation a canonical selection materializes exactly when its patches are separate. */
  lemma CustomIsMerge(definition: CreationDefinition, id: Id, choices: seq<ChoiceSelection>)
    requires CreationValid(definition) && CanonicalChoices(Compiled(definition).slots, choices)
    ensures var patches := MergedPatches(Compiled(definition), choices);
            && (CustomCharacter(Compiled(definition), id, choices).Ok? <==> Separate(patches))
            && (Separate(patches) ==>
                  CustomCharacter(Compiled(definition), id, choices) == ApplyPatches(EmptyCharacter(id), patches))
  {
    CanonicalPatches(definition, choices);
    MergedPatchesValid(definition, choices);
    var patches := MergedPatches(Compiled(definition), choices);
    PatchesMerge(id, patches);
    if Separate(patches) {
      CoveredIsDefined(definition, id, choices, Lineage);
      CoveredIsDefined(definition, id, choices, Origin);
      CoveredIsDefined(definition, id, choices, Background);
    }
  }

  ghost predicate AlwaysMaterializes(definition: CreationDefinition) {
    forall id: Id, choices | CanonicalChoices(Compiled(definition).slots, choices) ::
      CustomCharacter(Compiled(definition), id, choices).Ok?
  }

  /** Validated creation materializes every canonical selection exactly when no slot named "base" rewrites the base. */
  lemma CreationTotal(definition: CreationDefinition)
    requires CreationValid(definition)
    ensures AlwaysMaterializes(definition) <==> NoBaseCollision(definition)
  {
    if NoBaseCollision(definition) {
      forall id: Id, choices | CanonicalChoices(Compiled(definition).slots, choices)
        ensures CustomCharacter(Compiled(definition), id, choices).Ok?
      {
        MergedPatchesSeparate(definition, choices);
        CustomIsMerge(definition, id, choices);
      }
    } else {
      var choices := CollidingSelection(definition);
      CustomIsMerge(definition, "", choices);
    }
  }

  /** Take one choice of one slot, and the first choice of every other slot. */
  function Preferring(slots: seq<CreationSlot>, k: nat, choice: Id): seq<ChoiceSelection>
    requires forall slot <- slots :: slot.choices != []
  {
    seq(|slots|, i requires 0 <= i < |slots| =>
      ChoiceSelection(slots[i].id, if i == k then choice else slots[i].choices[0].id))
  }

  lemma PreferringIsCanonical(slots: seq<CreationSlot>, k: nat, choice: CreationChoice)
    requires forall slot <- slots :: slot.choices != []
    requires k < |slots| && choice in slots[k].choices
    ensures CanonicalChoices(slots, Preferring(slots, k, choice.id))
  {
    var choices := Preferring(slots, k, choice.id);
    forall i | 0 <= i < |slots| ensures FindChoice(slots[i].choices, choices[i].choice).Some? {
      FindChoiceFirst(slots[i].choices, choices[i].choice);
      assert slots[i] in slots && slots[i].choices[0] in slots[i].choices;
    }
  }

  /** A selection whose patches collide with the base. */
  lemma CollidingSelection(definition: CreationDefinition) returns (choices: seq<ChoiceSelection>)
    requires CreationValid(definition) && !NoBaseCollision(definition)
    ensures CanonicalChoices(Compiled(definition).slots, choices)
    ensures !Separate(MergedPatches(Compiled(definition), choices))
  {
    var slot :| slot in definition.slots && slot.id == BASE_OWNER && !(SlotWrites(slot) !! WriteTargets(definition.base));
    var t :| t in SlotWrites(slot) && t in WriteTargets(definition.base);
    var colliding :| colliding in slot.choices && t in WriteTargets(colliding.patch);
    choices := SelectionTaking(definition, slot, colliding);
    WriteTargetsAre(definition.base, t);
    WriteTargetsAre(colliding.patch, t);
    var patches := MergedPatches(Compiled(definition), choices);
    var k :| 0 < k < |patches| && patches[k] == colliding.patch;
    assert Writes(patches[0], t) && Writes(patches[k], t);
  }

  lemma SelectionTaking(definition: CreationDefinition, slot: CreationSlot, choice: CreationChoice)
    returns (choices: seq<ChoiceSelection>)
    requires CreationValid(definition) && slot in definition.slots && choice in slot.choices
    ensures CanonicalChoices(Compiled(definition).slots, choices)
    ensures var patches := MergedPatches(Compiled(definition), choices);
            exists k :: 0 < k < |patches| && patches[k] == choice.patch
  {
    var slots := Compiled(definition).slots;
    SortSlotsElements(definition.slots);
    PermutedSlots(definition.slots, slots);
    var k := CompiledSlotIndex(definition, slot);
    choices := Preferring(slots, k, choice.id);
    PreferringIsCanonical(slots, k, choice);
    FindChoiceOwn(slot.choices, choice);
    assert MergedPatches(Compiled(definition), choices)[k + 1] == choice.patch;
  }

  // ---- An instance: validation accepts it, creation fails on it ----

  predicate CreationId(id: Id) {
    0 < |id| <= 48 && forall c <- id :: 'a' <= c <= 'z' || '0' <= c <= '9' || c == '-' || c == '_'
  }

  /** Something a rule can see: a choice may not be empty or change the appearance alone. */
  predicate Mechanical(p: CharacterPatch) {
    p != EmptyPatch().(appearance := p.appearance)
  }

  function EmptyPatch(): CharacterPatch {
    CharacterPatch(
      None, None, None, map[], {}, {}, {}, {}, map[], map[], map[], {}, map[], map[], {}, {}, {}, {}, map[])
  }

  /** The checks of validate_character_creation that creation itself does not rely on. */
  predicate CreationWellFormed(definition: CreationDefinition) {
    && (forall i, j :: 0 <= i < j < |definition.slots| ==> definition.slots[i].order != definition.slots[j].order)
    && forall slot <- definition.slots :: SlotWellFormed(slot)
  }

  predicate SlotWellFormed(slot: CreationSlot) {
    && CreationId(slot.id)
    && (forall choice <- slot.choices :: CreationId(choice.id) && Mechanical(choice.patch))
    && forall i, j :: 0 <= i < j < |slot.choices| ==> slot.choices[i].patch != slot.choices[j].patch
  }

  const SAILOR := EmptyPatch().(lineage := Some("human"), origin := Some("harbor"), background := Some("sailor"))

  const KEEPING := CreationChoice("keep", EmptyPatch().(skills := {"rowing"}))
  const CHANGING := CreationChoice("change", EmptyPatch().(lineage := Some("selkie")))
  const NETTING := CreationChoice("net", EmptyPatch().(skills := {"netting"}))
  const SAILING := CreationChoice("sail", EmptyPatch().(skills := {"sailing"}))

  const BASE_SLOT := CreationSlot("base", 0, [KEEPING, CHANGING])
  const TRADE_SLOT := CreationSlot("trade", 1, [NETTING, SAILING])

  /** A human sailor with a slot named "base" that may change the lineage the base already set. */
  const SELKIE := CreationDefinition(SAILOR, [BASE_SLOT, TRADE_SLOT])

  const SELKIE_CHOICES := [ChoiceSelection("base", "change"), ChoiceSelection("trade", "net")]

  lemma PlainText()
    ensures !Text.Blank("human") && !Text.Blank("harbor") && !Text.Blank("sailor") && !Text.Blank("selkie")
  {
    assert "human"[0] in "human" && "harbor"[0] in "harbor" && "sailor"[0] in "sailor" && "selkie"[0] in "selkie";
  }

  lemma SelkieWrites()
    ensures WriteTargets(SAILOR) == {Target(Lineage, ""), Target(Origin, ""), Target(Background, "")}
    ensures SlotWrites(BASE_SLOT) == {Target(Lineage, "")}
    ensures SlotWrites(TRADE_SLOT) == {}
  {
    assert forall t :: t in WriteTargets(SAILOR) <==> Writes(SAILOR, t);
    assert forall t :: t in WriteTargets(CHANGING.patch) <==> Writes(CHANGING.patch, t);
    assert CHANGING in BASE_SLOT.choices;
    assert Target(Lineage, "") in WriteTargets(CHANGING.patch);
  }

  lemma SelkieSlots()
    ensures SlotValid(BASE_SLOT) && SlotValid(TRADE_SLOT) && PatchValid(SAILOR)
    ensures forall slot <- SELKIE.slots :: slot == BASE_SLOT || slot == TRADE_SLOT
  {
    PlainText();
    assert KEEPING.id[0] != CHANGING.id[0] && NETTING.id[0] != SAILING.id[0];
  }

  lemma SelkieOwned()
    ensures Owned(Writers(SELKIE))
  {
    SelkieWrites();
    hide WriteTargets, SlotWrites;
    assert Writers(SELKIE) == [Writer("base", WriteTargets(SAILOR)), Writer("base", SlotWrites(BASE_SLOT)),
                               Writer("trade", SlotWrites(TRADE_SLOT))];
  }

  lemma SelkieIsValid()
    ensures CreationValid(SELKIE)
  {
    SelkieSlots();
    SelkieOwned();
    hide Owned, Writers, SlotValid, PatchValid;
    assert BASE_SLOT.id[0] != TRADE_SLOT.id[0];
  }

  lemma SelkieIsWellFormed()
    ensures CreationWellFormed(SELKIE)
  {
    hide EmptyPatch, CreationId, Mechanical;
    MechanicalChoices();
    PlainIds();
    assert SlotWellFormed(BASE_SLOT);
    assert SlotWellFormed(TRADE_SLOT);
  }

  lemma PlainIds()
    ensures CreationId("base") && CreationId("trade") && CreationId("keep") && CreationId("change")
    ensures CreationId("net") && CreationId("sail")
  {
  }

  lemma MechanicalChoices()
    ensures Mechanical(KEEPING.patch) && Mechanical(CHANGING.patch) && Mechanical(NETTING.patch) && Mechanical(SAILING.patch)
    ensures KEEPING.patch != CHANGING.patch && NETTING.patch != SAILING.patch
  {
    assert KEEPING.patch.skills != CHANGING.patch.skills;
    assert "netting" in NETTING.patch.skills && "netting"[0] != "sailing"[0] && "netting" !in SAILING.patch.skills;
  }

  lemma SelkieCompiled()
    ensures Compiled(SELKIE) == SELKIE
  {
    var slots := SELKIE.slots;
    assert slots[..1] == [BASE_SLOT] && slots[..1][..0] == [];
    assert SortSlots(slots[..1]) == [BASE_SLOT];
    assert SortSlots(slots) == [BASE_SLOT, TRADE_SLOT];
  }

  lemma SelkieSelected()
    ensures CanonicalChoices(SELKIE.slots, SELKIE_CHOICES)
    ensures FindChoice(BASE_SLOT.choices, "change") == Some(CHANGING)
  {
    assert KEEPING.id[0] != CHANGING.id[0];
    assert BASE_SLOT.choices[1..] == [CHANGING];
    assert FindChoice(BASE_SLOT.choices[1..], "change") == Some(CHANGING);
    assert FindChoice(TRADE_SLOT.choices, "net") == Some(NETTING);
  }

  /** Validation accepts the definition and a selection is canonical, yet the character cannot be made. */
  lemma SelkieFails(id: Id)
    ensures CreationValid(SELKIE) && CreationWellFormed(SELKIE) && !NoBaseCollision(SELKIE)
    ensures CanonicalChoices(Compiled(SELKIE).slots, SELKIE_CHOICES)
    ensures CustomCharacter(Compiled(SELKIE), id, SELKIE_CHOICES).Err?
  {
    SelkieIsValid();
    SelkieIsWellFormed();
    SelkieWrites();
    SelkieCompiled();
    SelkieSelected();
    hide CreationValid, CreationWellFormed, CustomCharacter, FindChoice;
    assert BASE_SLOT in SELKIE.slots;
    CustomIsMerge(SELKIE, id, SELKIE_CHOICES);
    var patches := MergedPatches(SELKIE, SELKIE_CHOICES);
    assert patches[0] == SAILOR && patches[1] == CHANGING.patch;
    assert Writes(patches[0], Target(Lineage, "")) && Writes(patches[1], Target(Lineage, ""));
  }

  // ---- The identity only labels the character ----

  lemma {:induction false} PatchesIgnoreId(a: Character, b: Character, patches: seq<CharacterPatch>)
    requires b == a.(id := b.id)
    ensures ApplyPatches(a, patches).Ok? <==> ApplyPatches(b, patches).Ok?
    ensures ApplyPatches(a, patches).Ok? ==>
      ApplyPatches(b, patches).value == ApplyPatches(a, patches).value.(id := b.id)
    decreases |patches|
  {
    if patches != [] {
      PatchesIgnoreId(a, b, patches[..|patches| - 1]);
    }
  }

  lemma CustomIgnoresId(definition: CreationDefinition, a: Id, b: Id, choices: seq<ChoiceSelection>)
    requires CustomCharacter(definition, a, choices).Ok?
    ensures CustomCharacter(definition, b, choices) == Ok(CustomCharacter(definition, a, choices).value.(id := b))
  {
    var patches := PatchesOf(definition.slots, choices).value;
    PatchesIgnoreId(EmptyCharacter(a), EmptyCharacter(b), [definition.base] + patches);
  }
}

// Structural checks of authored programs (validate_draft and its effect walkers in crates/forge-kernel/src/content.rs).
module Validation {
  import opened Basics
  import opened Model
  import opened Content
  import Text
  import CreationRules

  function LocationIds(d: Draft): set<Id> { set x <- d.locations :: x.id }
  function NpcIds(d: Draft): set<Id> { set x <- d.npcs :: x.id }
  function StorageIds(d: Draft): set<Id> { set x <- d.storages :: x.id }
  function DeferredIds(d: Draft): set<Id> { set x <- d.deferredEvents :: x.id }
  function RecipeIds(d: Draft): set<Id> { set x <- d.recipes :: x.id }

  /** Dot-separated, nonempty parts of lower-case letters, digits, '_' and '-'; at least two parts. */
  predicate NamespacedId(id: Id) {
    && |id| <= 128
    && '.' in id
    && id[0] != '.' && id[|id| - 1] != '.'
    && (forall c <- id :: 'a' <= c <= 'z' || '0' <= c <= '9' || c == '_' || c == '-' || c == '.')
    && forall i :: 0 < i < |id| ==> !(id[i - 1] == '.' && id[i] == '.')
  }

  // ---- The effect walkers; each has its own treatment of over-deep trees ----

  predicate KnownSource(npcs: set<Id>, provenance: Provenance) {
    KnowledgeSource(provenance).Some? ==> KnowledgeSource(provenance).value in npcs
  }

  /** validate_effects: the only walker that reports a tree deeper than the limit. */
  predicate EffectChecked(npcs: set<Id>, e: Effect, depth: nat, allowTransfers: bool) {
    match e
    case TeachNpc(npc, knowledge, subject, provenance) =>
      !Text.Blank(knowledge) && !Text.Blank(subject) && KnownSource(npcs, provenance)
      && (npc.Literal? ==> !Text.Blank(npc.value) && npc.value in npcs)
    case AddNpcMemory(npc, memory, subject, provenance) =>
      !Text.Blank(memory) && !Text.Blank(subject) && KnownSource(npcs, provenance)
    case TransferNpcItemToCharacter(npc, item, count) => !Text.Blank(item) && count > 0 && allowTransfers
    case RandomChance(percent, onSuccess, onFailure) =>
      && percent <= 100
      && depth < MAX_AST_DEPTH
      && EffectChecked(npcs, onSuccess, depth + 1, allowTransfers)
      && EffectChecked(npcs, onFailure, depth + 1, allowTransfers)
    case _ => true
  }

  predicate StorageChecked(storages: set<Id>, e: Effect, depth: nat, allow: bool) {
    depth > MAX_AST_DEPTH ||
    match e
    case TransferStorageItemToCharacter(storage, item, count) => storage in storages && NamespacedId(item) && count > 0 && allow
    case TransferCharacterItemToStorage(storage, item, count) => storage in storages && NamespacedId(item) && count > 0 && allow
    case RandomChance(_, onSuccess, onFailure) =>
      StorageChecked(storages, onSuccess, depth + 1, allow) && StorageChecked(storages, onFailure, depth + 1, allow)
    case _ => true
  }

  predicate ScheduleChecked(deferred: set<Id>, e: Effect, depth: nat, allow: bool) {
    depth > MAX_AST_DEPTH ||
    match e
    case ScheduleEvent(event) => event in deferred && allow
    case RandomChance(_, onSuccess, onFailure) =>
      ScheduleChecked(deferred, onSuccess, depth + 1, allow) && ScheduleChecked(deferred, onFailure, depth + 1, allow)
    case _ => true
  }

  predicate RecipeChecked(recipes: set<Id>, e: Effect, depth: nat, allow: bool) {
    depth > MAX_AST_DEPTH ||
    match e
    case ApplyRecipe(recipe) => recipe in recipes && allow
    case RandomChance(_, onSuccess, onFailure) =>
      RecipeChecked(recipes, onSuccess, depth + 1, allow) && RecipeChecked(recipes, onFailure, depth + 1, allow)
    case _ => true
  }

  predicate AdvancesTime(e: Effect) {
    match e
    case AdvanceTime(_) => true
    case RandomChance(_, onSuccess, onFailure) => AdvancesTime(onSuccess) || AdvancesTime(onFailure)
    case _ => false
  }

  /** A program that can neither move the clock, schedule, nor transfer stock, on any branch. */
  predicate Quiet(e: Effect) {
    match e
    case AdvanceTime(_) => false
    case ScheduleEvent(_) => false
    case TransferNpcItemToCharacter(_, _, _) => false
    case TransferStorageItemToCharacter(_, _, _) => false
    case TransferCharacterItemToStorage(_, _, _) => false
    case RandomChance(_, onSuccess, onFailure) => Quiet(onSuccess) && Quiet(onFailure)
    case _ => true
  }

  /** The checks an event program passes (validate_timed_event and the three walkers with permission denied). */
  predicate EventProgramChecked(d: Draft, effects: seq<Effect>, allowRecipes: bool) {
    forall e <- effects ::
      && EffectChecked(NpcIds(d), e, 0, false)
      && StorageChecked(StorageIds(d), e, 0, false)
      && ScheduleChecked(DeferredIds(d), e, 0, false)
      && RecipeChecked(RecipeIds(d), e, 0, allowRecipes)
      && !AdvancesTime(e)
  }

  /** The walkers stop at the depth limit, but no accepted tree is that deep: the ban holds on every branch. */
  lemma {:induction false} CheckedIsQuiet(d: Draft, e: Effect, depth: nat)
    requires depth <= MAX_AST_DEPTH
    requires EffectChecked(NpcIds(d), e, depth, false)
    requires StorageChecked(StorageIds(d), e, depth, false)
    requires ScheduleChecked(DeferredIds(d), e, depth, false)
    requires !AdvancesTime(e)
    ensures Quiet(e)
  {
    if e.RandomChance? {
      CheckedIsQuiet(d, e.onSuccess, depth + 1);
      CheckedIsQuiet(d, e.onFailure, depth + 1);
    }
  }

  // ---- Registries ----

  predicate SharedEventIds(d: Draft) {
    && DistinctIds(d.timedEvents, TimedKey)
    && DistinctIds(d.deferredEvents, DeferredKey)
    && forall t <- d.timedEvents, e <- d.deferredEvents :: t.id != e.id
  }

  predicate RecipeValid(r: RecipeDefinition) {
    && r.inputs != map[]
    && r.inputs != r.outputs
    && (forall item <- r.inputs :: r.inputs[item] > 0)
    && (forall item <- r.outputs :: r.outputs[item] > 0)
  }

  predicate ActionProgramChecked(d: Draft, effects: seq<Effect>) {
    forall e <- effects ::
      && EffectChecked(NpcIds(d), e, 0, true)
      && StorageChecked(StorageIds(d), e, 0, true)
      && ScheduleChecked(DeferredIds(d), e, 0, true)
      && RecipeChecked(RecipeIds(d), e, 0, true)
  }

  /** The structural part of validate_draft for production content. */
  predicate StructureValid(d: Draft) {
    && d.locations != []
    && DistinctIds(d.locations, LocationKey)
    && DistinctIds(d.npcs, NpcKey)
    && DistinctIds(d.storages, StorageKey)
    && DistinctIds(d.presets, PresetKey)
    && DistinctIds(d.recipes, RecipeKey)
    && DistinctIds(d.actions, ActionKey)
    && SharedEventIds(d)
    && d.creation.Some? && CreationRules.CreationValid(d.creation.value)
    && !Text.Blank(d.startLocation) && d.startLocation in LocationIds(d)
    && (forall r <- d.recipes :: RecipeValid(r))
    && (forall n <- d.npcs :: n.location in LocationIds(d) && forall item <- n.inventory :: n.inventory[item] > 0)
    && (forall b <- d.storages :: b.location in LocationIds(d) && forall item <- b.inventory :: b.inventory[item] > 0)
    && (forall t <- d.timedEvents :: t.due > 0 && EventProgramChecked(d, t.effects, false))
    && (forall e <- d.deferredEvents :: e.delay > 0 && EventProgramChecked(d, e.effects, true))
    && (forall a <- d.actions :: ActionProgramChecked(d, a.effects))
  }

  // ---- The walkers together, said leaf by leaf ----

  function Height(e: Effect): nat {
    match e
    case RandomChance(_, onSuccess, onFailure) => 1 + Max(Height(onSuccess), Height(onFailure))
    case _ => 0
  }

  /** The effects some draw can make a tree perform. */
  function Leaves(e: Effect): set<Effect> {
    match e
    case RandomChance(_, onSuccess, onFailure) => Leaves(onSuccess) + Leaves(onFailure)
    case _ => {e}
  }

  predicate Percentages(e: Effect) {
    e.RandomChance? ==> e.percent <= 100 && Percentages(e.onSuccess) && Percentages(e.onFailure)
  }

  /** What a single effect may be, given which kinds its program may hold. */
  predicate LeafAllowed(d: Draft, e: Effect, action: bool, recipes: bool) {
    match e
    case TeachNpc(npc, knowledge, subject, provenance) =>
      && !Text.Blank(knowledge) && !Text.Blank(subject) && KnownSource(NpcIds(d), provenance)
      && (npc.Literal? ==> !Text.Blank(npc.value) && npc.value in NpcIds(d))
    case AddNpcMemory(_, memory, subject, provenance) =>
      !Text.Blank(memory) && !Text.Blank(subject) && KnownSource(NpcIds(d), provenance)
    case TransferNpcItemToCharacter(_, item, count) => action && !Text.Blank(item) && count > 0
    case TransferStorageItemToCharacter(storage, item, count) =>
      action && storage in StorageIds(d) && NamespacedId(item) && count > 0
    case TransferCharacterItemToStorage(storage, item, count) =>
      action && storage in StorageIds(d) && NamespacedId(item) && count > 0
    case ScheduleEvent(event) => action && event in DeferredIds(d)
    case AdvanceTime(_) => action
    case ApplyRecipe(recipe) => recipes && recipe in RecipeIds(d)
    case _ => true
  }

  predicate TreeAllowed(d: Draft, e: Effect, depth: nat, action: bool, recipes: bool) {
    && depth + Height(e) <= MAX_AST_DEPTH && Percentages(e)
    && forall leaf <- Leaves(e) :: LeafAllowed(d, leaf, action, recipes)
  }

  predicate AllWalkers(d: Draft, e: Effect, depth: nat, action: bool, recipes: bool) {
    && EffectChecked(NpcIds(d), e, depth, action) && StorageChecked(StorageIds(d), e, depth, action)
    && ScheduleChecked(DeferredIds(d), e, depth, action) && RecipeChecked(RecipeIds(d), e, depth, recipes)
    && (action || !AdvancesTime(e))
  }

  lemma {:induction false} WalkersExact(d: Draft, e: Effect, depth: nat, action: bool, recipes: bool)
    requires depth <= MAX_AST_DEPTH
    ensures AllWalkers(d, e, depth, action, recipes) <==> TreeAllowed(d, e, depth, action, recipes)
    decreases e
  {
    if !e.RandomChance? {
      assert Leaves(e) == {e} && Height(e) == 0;
    } else if depth < MAX_AST_DEPTH {
      WalkersExact(d, e.onSuccess, depth + 1, action, recipes);
      WalkersExact(d, e.onFailure, depth + 1, action, recipes);
      BranchesAllowed(d, e, depth, action, recipes);
      hide TreeAllowed;
    } else {
      assert Height(e) >= 1;
    }
  }

  lemma BranchesAllowed(d: Draft, e: Effect, depth: nat, action: bool, recipes: bool)
    requires e.RandomChance? && depth < MAX_AST_DEPTH
    ensures TreeAllowed(d, e, depth, action, recipes) <==>
      && e.percent <= 100 && TreeAllowed(d, e.onSuccess, depth + 1, action, recipes)
      && TreeAllowed(d, e.onFailure, depth + 1, action, recipes)
  {
    hide LeafAllowed;
  }

  /** An event program passes all walkers exactly when no tree is too deep and every leaf is allowed in an event. */
  lemma EventProgramExactly(d: Draft, effects: seq<Effect>, allowRecipes: bool)
    ensures EventProgramChecked(d, effects, allowRecipes) <==>
      forall e <- effects :: TreeAllowed(d, e, 0, false, allowRecipes)
  {
    hide TreeAllowed, EffectChecked, StorageChecked, ScheduleChecked, RecipeChecked;
    forall e | e in effects ensures AllWalkers(d, e, 0, false, allowRecipes) <==> TreeAllowed(d, e, 0, false, allowRecipes) {
      WalkersExact(d, e, 0, false, allowRecipes);
    }
  }

  /** The same for the program of an action, where every kind of effect may stand. */
  lemma ActionProgramExactly(d: Draft, effects: seq<Effect>)
    ensures ActionProgramChecked(d, effects) <==> forall e <- effects :: TreeAllowed(d, e, 0, true, true)
  {
    hide TreeAllowed, EffectChecked, StorageChecked, ScheduleChecked, RecipeChecked;
    forall e | e in effects ensures AllWalkers(d, e, 0, true, true) <==> TreeAllowed(d, e, 0, true, true) {
      WalkersExact(d, e, 0, true, true);
    }
  }
}

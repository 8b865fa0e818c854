// The supply bounds are no larger than they must be, and components no wider (supply_budget.rs).
module SupplyTight {
  import opened Basics
  import opened Model
  import opened Content
  import opened Sums
  import opened GenesisBudget
  import opened SupplyBudget
  import opened SupplyClosure
  import opened SupplyWords
  import opened SupplyReadout
  import opened Validation

  // ---- The conservation bound is a maximum ----

  /** Lines the component has units for; one whose units can grow has units for any. */
  predicate HasUnitsFor(d: Draft, component: set<Id>, lines: set<Id>) {
    lines <= component && (Conserved(d, component) ==> |lines| <= GenesisUnits(d, component))
  }

  ghost predicate LargestLines(d: Draft, component: set<Id>, w: nat) {
    && (exists lines: set<Id> :: HasUnitsFor(d, component, lines) && LineWords(d, lines) == w)
    && forall lines: set<Id> :: HasUnitsFor(d, component, lines) ==> LineWords(d, lines) <= w
  }

  /** The conservation bound is the most words of any lines there are units for. */
  lemma ConservationIsLargest(d: Draft, component: set<Id>, w: nat)
    ensures w == ConservationBound(d, component) <==> LargestLines(d, component, w)
  {
    hide Conserved, GenesisUnits, LineCost;
    var cost, slots := LineCost(d.labels.items), Slots(d, component);
    var best := TopCostsAttained(component, cost, slots);
    assert HasUnitsFor(d, component, best) && LineWords(d, best) == ConservationBound(d, component);
    forall lines: set<Id> | HasUnitsFor(d, component, lines) ensures LineWords(d, lines) <= ConservationBound(d, component) {
      SubsetSize(lines, component);
      TopCostsBound(lines, component, cost, slots);
    }
  }

  // ---- Conservation, said of pools ----

  function PoolUnits(p: Pool): nat {
    SumOver(p.Keys, InPoolOf(p))
  }

  function InPoolOf(p: Pool): Id -> nat {
    item => InPool(p, item)
  }

  lemma CountsOver(counts: Inventory, items: set<Id>)
    requires counts.Keys <= items
    ensures SumOver(items, Counts(counts)) == Units(counts)
  {
    SumExtend(counts.Keys, items, Counts(counts));
  }

  /** Firing changes the units of a pool by what the recipe makes less what it uses. */
  lemma FiringUnits(p: Pool, r: RecipeDefinition)
    requires Affordable(p, r) && RecipeItems(r) <= p.Keys
    ensures PoolUnits(FirePool(p, r)) + Units(r.inputs) == PoolUnits(p) + Units(r.outputs)
  {
    var q := FirePool(p, r);
    assert q.Keys == p.Keys;
    CountsOver(r.inputs, p.Keys);
    CountsOver(r.outputs, p.Keys);
    var both: Id -> nat := item => InPool(q, item) + Count(r.inputs, item);
    SumAdd(p.Keys, InPoolOf(q), Counts(r.inputs), both);
    SumAdd(p.Keys, InPoolOf(p), Counts(r.outputs), both);
  }

  predicate CanFire(p: Pool, r: RecipeDefinition) {
    Affordable(p, r) && RecipeItems(r) <= p.Keys
  }

  /** No pool has more units after the recipe than before. */
  ghost predicate NeverAdds(r: RecipeDefinition) {
    forall p: Pool :: CanFire(p, r) ==> PoolUnits(FirePool(p, r)) <= PoolUnits(p)
  }

  lemma NeverAddsByCount(r: RecipeDefinition)
    ensures NeverAdds(r) <==> Units(r.outputs) <= Units(r.inputs)
  {
    hide PoolUnits, Units, FirePool;
    forall p: Pool | CanFire(p, r) ensures PoolUnits(FirePool(p, r)) + Units(r.inputs) == PoolUnits(p) + Units(r.outputs) {
      FiringUnits(p, r);
    }
    var exact := JustEnough(r);
    assert CanFire(exact, r);
    if NeverAdds(r) {
      assert PoolUnits(FirePool(exact, r)) <= PoolUnits(exact);
    }
  }

  /** A pool with exactly the inputs. */
  function JustEnough(r: RecipeDefinition): Pool {
    map item | item in RecipeItems(r) :: Count(r.inputs, item)
  }

  /** A component is conserved exactly when recipes touch it, their input totals are counted exactly, and none can add units. */
  lemma ConservedExactly(d: Draft, component: set<Id>)
    ensures Conserved(d, component) <==>
      && (exists r <- d.recipes :: Touches(r, component))
      && forall r <- d.recipes :: Touches(r, component) ==> Units(r.inputs) <= U64_MAX && NeverAdds(r)
  {
    hide NeverAdds, Units, Touches;
    forall r | r in d.recipes ensures NeverAdds(r) <==> Units(r.outputs) <= Units(r.inputs) {
      NeverAddsByCount(r);
    }
  }

  // ---- Components are the smallest closed sets ----

  lemma ClosedIsStable(d: Draft, items: set<Id>, s: set<Id>)
    requires AllConsume(d.recipes) && Closed(d, s)
    ensures Stable(Adjacent(d, items), s * Vertices(d, items))
  {
    var graph := Adjacent(d, items);
    forall a, b | a in s * Vertices(d, items) && b in graph[a] ensures b in s * Vertices(d, items) {
      var r :| r in d.recipes && LinkedBy(r, a, b);
      LinkStays(d, s, r, a, b);
    }
  }

  lemma LinkStays(d: Draft, s: set<Id>, r: RecipeDefinition, a: Id, b: Id)
    requires Closed(d, s) && r in d.recipes && LinkedBy(r, a, b) && a in s
    ensures b in s
  {
    assert a in RecipeItems(r) && b in RecipeItems(r);
    assert !(RecipeItems(r) !! s);
  }

  /** The component found for an item is the smallest set that holds it and that no recipe crosses. */
  lemma ComponentIsLeastClosed(d: Draft, items: set<Id>, first: Id)
    requires AllConsume(d.recipes) && first in Vertices(d, items)
    ensures var component := Component(Adjacent(d, items), first);
            && first in component && Closed(d, component)
            && forall s: set<Id> :: first in s && Closed(d, s) ==> component <= s
  {
    hide Closed, AllConsume;
    var graph := Adjacent(d, items);
    AdjacentStable(d, items);
    ComponentStable(graph, first);
    StableIsClosed(d, items, Component(graph, first));
    forall s: set<Id> | first in s && Closed(d, s) ensures Component(graph, first) <= s {
      ClosedIsStable(d, items, s);
      assert first in s * Vertices(d, items);
    }
  }

  // ---- Components share nothing, and every item is counted in exactly one ----

  lemma ClosedLess(d: Draft, s: set<Id>, t: set<Id>)
    requires AllConsume(d.recipes) && Closed(d, s) && Closed(d, t)
    ensures Closed(d, s - t)
  {
    forall r | r in d.recipes ensures RecipeItems(r) !! s - t || (Touches(r, s - t) && RecipeItems(r) <= s - t) {
      if !(RecipeItems(r) !! s - t) {
        var input :| input in r.inputs;
        assert input in s - t;
      }
    }
  }

  /** A component meets a closed set only by lying inside it. */
  lemma ComponentApart(d: Draft, items: set<Id>, first: Id, s: set<Id>)
    requires AllConsume(d.recipes) && first in Vertices(d, items) && Closed(d, s) && first !in s
    ensures Component(Adjacent(d, items), first) !! s
  {
    hide Closed, AllConsume, Component, Adjacent, Vertices;
    ComponentIsLeastClosed(d, items, first);
    ClosedLess(d, Component(Adjacent(d, items), first), s);
  }

  ghost function BoundSum(d: Draft, parts: seq<set<Id>>, closure: Option<ClosureBudget>): nat {
    if parts == [] then 0 else ComponentBound(d, parts[0], closure) + BoundSum(d, parts[1..], closure)
  }

  predicate Apart(parts: seq<set<Id>>) {
    forall i, j :: 0 <= i < j < |parts| ==> parts[i] !! parts[j]
  }

  predicate AllApart(parts: seq<set<Id>>, s: set<Id>) {
    forall part <- parts :: part !! s
  }

  /** Components of the graph: each the smallest closed set around one of its items. */
  ghost predicate AreComponents(d: Draft, items: set<Id>, parts: seq<set<Id>>) {
    forall part <- parts :: exists first :: first in Vertices(d, items) && part == Component(Adjacent(d, items), first)
  }

  predicate Cover(parts: seq<set<Id>>, visited: set<Id>, keys: seq<Id>) {
    forall key <- keys :: key in visited || exists part <- parts :: key in part
  }

  lemma OnePartMore(part: set<Id>, parts: seq<set<Id>>, visited: set<Id>, keys: seq<Id>)
    requires keys != [] && keys[0] in part && part !! visited
    requires Apart(parts) && AllApart(parts, visited + part) && Cover(parts, visited + part, keys[1..])
    ensures Apart([part] + parts) && AllApart([part] + parts, visited) && Cover([part] + parts, visited, keys)
  {
    var all := [part] + parts;
    assert all[0] == part && forall p <- parts :: p in all;
    forall i, j | 0 <= i < j < |all| ensures all[i] !! all[j] {
      assert all[j] == parts[j - 1] && parts[j - 1] in parts;
    }
    forall key | key in keys ensures key in visited || exists p <- all :: key in p {
      if key != keys[0] {
        assert keys == [keys[0]] + keys[1..];
      }
    }
  }

  lemma {:induction false} SumIsPartition(
    d: Draft, items: set<Id>, keys: seq<Id>, visited: set<Id>, closure: Option<ClosureBudget>) returns (parts: seq<set<Id>>)
    requires AllConsume(d.recipes) && Closed(d, visited) && forall key <- keys :: key in Vertices(d, items)
    ensures SumComponents(d, Adjacent(d, items), keys, visited, closure) == BoundSum(d, parts, closure)
    ensures AreComponents(d, items, parts) && Apart(parts) && AllApart(parts, visited) && Cover(parts, visited, keys)
    decreases |keys|
  {
    if keys == [] {
      parts := [];
    } else {
      hide Closed, AllConsume, Component, Adjacent, ComponentBound, Vertices;
      var first := keys[0];
      assert keys == [first] + keys[1..];
      if first in visited {
        parts := SumIsPartition(d, items, keys[1..], visited, closure);
      } else {
        var part := Component(Adjacent(d, items), first);
        ComponentIsLeastClosed(d, items, first);
        ComponentApart(d, items, first, visited);
        ClosedTogether(d, visited, part);
        var more := SumIsPartition(d, items, keys[1..], visited + part, closure);
        parts := [part] + more;
        OnePartMore(part, more, visited, keys);
        assert parts[1..] == more;
      }
    }
  }

  lemma ClosedTogether(d: Draft, s: set<Id>, t: set<Id>)
    requires Closed(d, s) && Closed(d, t)
    ensures Closed(d, s + t)
  {
  }

  predicate CoverAll(parts: seq<set<Id>>, s: set<Id>) {
    forall x <- s :: exists part <- parts :: x in part
  }

  lemma CoverIsAll(parts: seq<set<Id>>, keys: seq<Id>, s: set<Id>)
    requires Cover(parts, {}, keys) && forall x <- s :: x in keys
    ensures CoverAll(parts, s)
  {
  }

  lemma EmptyIsClosed(d: Draft)
    ensures Closed(d, {})
  {
  }

  /** The words of the items are the bounds of components that share no item and leave none out, each counted once. */
  lemma WordsAreOfComponents(d: Draft, items: set<Id>, closure: Option<ClosureBudget>) returns (parts: seq<set<Id>>)
    requires AllConsume(d.recipes)
    ensures WordsWith(d, items, closure) == BoundSum(d, parts, closure)
    ensures AreComponents(d, items, parts) && Apart(parts) && CoverAll(parts, Vertices(d, items))
  {
    hide SumComponents, Vertices, Component, Closed, AllConsume, AreComponents, Apart, AllApart, Cover, CoverAll, BoundSum,
      SortedKeys, Adjacent;
    var keys := SortedKeys(Vertices(d, items));
    EmptyIsClosed(d);
    parts := SumIsPartition(d, items, keys, {}, closure);
    CoverIsAll(parts, keys, Vertices(d, items));
  }

  // ---- What is listed, said leaf by leaf ----

  predicate MovesItem(leaf: Effect, item: Id) {
    || (leaf.TransferNpcItemToCharacter? && leaf.item == item)
    || (leaf.TransferStorageItemToCharacter? && leaf.item == item)
    || (leaf.TransferCharacterItemToStorage? && leaf.item == item)
  }

  predicate AdjustsResource(leaf: Effect, resource: Id) {
    leaf.AdjustResource? && leaf.resource == resource
  }

  lemma {:induction false} EffectListsExactly(e: Effect, id: Id)
    ensures id in EffectItems(e) <==> exists leaf <- Leaves(e) :: MovesItem(leaf, id)
    ensures id in EffectResources(e) <==> exists leaf <- Leaves(e) :: AdjustsResource(leaf, id)
    decreases e
  {
    if e.RandomChance? {
      EffectListsExactly(e.onSuccess, id);
      EffectListsExactly(e.onFailure, id);
    } else {
      assert Leaves(e) == {e} && e in Leaves(e);
      assert id in EffectItems(e) <==> MovesItem(e, id);
      assert id in EffectResources(e) <==> AdjustsResource(e, id);
    }
  }

  /** Some draw makes the program perform the effect. */
  predicate CanPerform(effects: seq<Effect>, leaf: Effect) {
    exists e <- effects :: leaf in Leaves(e)
  }

  ghost predicate GivenByCreation(d: Draft, p: CharacterPatch) {
    d.creation.Some? && (p == d.creation.value.base
      || exists slot <- d.creation.value.slots, choice <- slot.choices :: p == choice.patch)
  }

  lemma CreationPatchesAre(d: Draft, p: CharacterPatch)
    ensures p in CreationPatches(d.creation) <==> GivenByCreation(d, p)
  {
  }

  lemma ProgramListsExactly(effects: seq<Effect>, id: Id)
    ensures id in ProgramItems(effects) <==> exists leaf :: CanPerform(effects, leaf) && MovesItem(leaf, id)
    ensures id in ProgramResources(effects) <==> exists leaf :: CanPerform(effects, leaf) && AdjustsResource(leaf, id)
  {
    hide MovesItem, AdjustsResource, Leaves;
    forall e | e in effects
      ensures id in EffectItems(e) <==> exists leaf <- Leaves(e) :: MovesItem(leaf, id)
      ensures id in EffectResources(e) <==> exists leaf <- Leaves(e) :: AdjustsResource(leaf, id)
    {
      EffectListsExactly(e, id);
    }
    hide EffectItems, EffectResources;
  }

  /** An effect some action, absolute event or template can perform. */
  ghost predicate Performed(d: Draft, leaf: Effect) {
    || (exists a <- d.actions :: CanPerform(a.effects, leaf))
    || (exists t <- d.timedEvents :: CanPerform(t.effects, leaf))
    || (exists x <- d.deferredEvents :: CanPerform(x.effects, leaf))
  }

  lemma ProgramsListExactly(d: Draft, id: Id)
    ensures (exists leaf :: Performed(d, leaf) && MovesItem(leaf, id)) <==>
      ProgramsMove(d, id)
    ensures (exists leaf :: Performed(d, leaf) && AdjustsResource(leaf, id)) <==>
      ProgramsAdjust(d, id)
  {
    hide ProgramItems, ProgramResources, CanPerform, MovesItem, AdjustsResource;
    forall effects: seq<Effect>
      ensures id in ProgramItems(effects) <==> exists leaf :: CanPerform(effects, leaf) && MovesItem(leaf, id)
      ensures id in ProgramResources(effects) <==> exists leaf :: CanPerform(effects, leaf) && AdjustsResource(leaf, id)
    {
      ProgramListsExactly(effects, id);
    }
  }

  lemma PatchesListExactly(d: Draft, id: Id)
    ensures (exists p <- CreationPatches(d.creation) :: id in p.inventory)
       <==> exists p :: GivenByCreation(d, p) && id in p.inventory
    ensures (exists p <- CreationPatches(d.creation) :: id in p.resources)
       <==> exists p :: GivenByCreation(d, p) && id in p.resources
  {
    hide CreationPatches, GivenByCreation;
    forall p ensures p in CreationPatches(d.creation) <==> GivenByCreation(d, p) {
      CreationPatchesAre(d, p);
    }
  }

  lemma RecipesListExactly(d: Draft, id: Id)
    ensures id in ItemsOf(d.recipes) <==> exists r <- d.recipes :: id in RecipeItems(r)
  {
  }

  predicate PresetsGive(d: Draft, id: Id) {
    exists p <- d.presets :: id in p.character.inventory
  }

  predicate OwnersHold(d: Draft, id: Id) {
    (exists n <- d.npcs :: id in n.inventory) || exists b <- d.storages :: id in b.inventory
  }

  ghost predicate CreationGives(d: Draft, id: Id) {
    exists p :: GivenByCreation(d, p) && id in p.inventory
  }

  predicate ProgramsMove(d: Draft, id: Id) {
    || (exists a <- d.actions :: id in ProgramItems(a.effects))
    || (exists t <- d.timedEvents :: id in ProgramItems(t.effects))
    || (exists x <- d.deferredEvents :: id in ProgramItems(x.effects))
  }

  predicate ProgramsAdjust(d: Draft, id: Id) {
    || (exists a <- d.actions :: id in ProgramResources(a.effects))
    || (exists t <- d.timedEvents :: id in ProgramResources(t.effects))
    || (exists x <- d.deferredEvents :: id in ProgramResources(x.effects))
  }

  lemma ItemsByGroup(d: Draft, id: Id)
    ensures id in PotentialItems(d) <==>
      || PresetsGive(d, id) || (exists p <- CreationPatches(d.creation) :: id in p.inventory) || OwnersHold(d, id)
      || id in ItemsOf(d.recipes) || ProgramsMove(d, id)
  {
    hide ProgramItems, CreationPatches, ItemsOf;
  }

  lemma ResourcesByGroup(d: Draft, id: Id)
    ensures id in PotentialResources(d) <==>
      || (exists p <- d.presets :: id in p.character.resources)
      || (exists p <- CreationPatches(d.creation) :: id in p.resources) || ProgramsAdjust(d, id)
  {
    hide ProgramResources, CreationPatches;
  }

  /** A resource is listed exactly when a start gives it or an effect that can be performed adjusts it. */
  lemma ResourcesListedExactly(d: Draft, id: Id)
    ensures id in PotentialResources(d) <==>
      || (exists p <- d.presets :: id in p.character.resources)
      || (exists p :: GivenByCreation(d, p) && id in p.resources)
      || (exists leaf :: Performed(d, leaf) && AdjustsResource(leaf, id))
  {
    ProgramsListExactly(d, id);
    PatchesListExactly(d, id);
    ResourcesByGroup(d, id);
    hide PotentialResources, CreationPatches, GivenByCreation, Performed, AdjustsResource;
  }

  /** An item is listed exactly when someone starts with it, a recipe names it or an effect that can be performed moves it. */
  lemma ItemsListedExactly(d: Draft, id: Id)
    ensures id in PotentialItems(d) <==>
      || PresetsGive(d, id) || CreationGives(d, id) || OwnersHold(d, id)
      || (exists r <- d.recipes :: id in RecipeItems(r))
      || (exists leaf :: Performed(d, leaf) && MovesItem(leaf, id))
  {
    ProgramsListExactly(d, id);
    PatchesListExactly(d, id);
    RecipesListExactly(d, id);
    ItemsByGroup(d, id);
    hide PotentialItems, CreationPatches, GivenByCreation, Performed, MovesItem, ItemsOf, PresetsGive, OwnersHold, RecipeItems;
  }
}

// Bounds on the item lines a character can ever show at once (crates/forge-kernel/src/supply_budget.rs).
module SupplyBudget {
  import opened Basics
  import opened Model
  import opened Content
  import opened Effects
  import opened Kernel
  import opened Ownership
  import opened Lineage
  import opened Validation
  import opened Sums
  import opened GenesisBudget
  import Text
  import LineageRuns

  // ---- Lines and components ----

  /** A displayed item line: its label, and one word for the count. */
  function LineCost(labels: map<Id, string>): Id -> nat {
    item => Text.WordCount(LabelOf(labels, item)) + 1
  }

  function LineWords(d: Draft, items: set<Id>): nat {
    SumOver(items, LineCost(d.labels.items))
  }

  function RecipeItems(r: RecipeDefinition): set<Id> {
    r.inputs.Keys + r.outputs.Keys
  }

  predicate Touches(r: RecipeDefinition, component: set<Id>) {
    exists item <- r.inputs :: item in component
  }

  /** No recipe crosses the component. */
  predicate Closed(d: Draft, component: set<Id>) {
    forall r <- d.recipes :: RecipeItems(r) !! component || (Touches(r, component) && RecipeItems(r) <= component)
  }

  function Units(counts: Inventory): nat {
    SumOver(counts.Keys, Counts(counts))
  }

  /** Some recipe touches the component, and none that does produces more units than it consumes. */
  predicate Conserved(d: Draft, component: set<Id>) {
    && (exists r <- d.recipes :: Touches(r, component))
    && forall r <- d.recipes :: Touches(r, component) ==>
         Units(r.inputs) <= U64_MAX && Units(r.outputs) <= Units(r.inputs)
  }

  function GenesisUnits(d: Draft, component: set<Id>): nat {
    GenesisBound(d, UnitsIn(component))
  }

  function Slots(d: Draft, component: set<Id>): nat {
    if Conserved(d, component) then Min(GenesisUnits(d, component), |component|) else |component|
  }

  /** The costliest lines the component has units for. */
  function ConservationBound(d: Draft, component: set<Id>): nat {
    TopCosts(component, LineCost(d.labels.items), Slots(d, component))
  }

  // ---- Holdings a run can reach ----

  /** The holdings a ledger leads to from an authored start. */
  ghost predicate Reaches(d: Draft, carried: Inventory, log: seq<Event>, h: Holdings) {
    && LineageRuns.AuthoredCarried(Compile(d), carried)
    && var l := RunLedger(Compile(d), Genesis(Compile(d), carried), log);
    && l.Some? && l.value.holdings == h
  }

  function CarriedItems(h: Holdings): set<Id> {
    if Player in h then h[Player].Keys else {}
  }

  /** No reachable character shows more than w words of lines for these items. */
  ghost predicate Bounds(d: Draft, items: set<Id>, w: nat) {
    forall carried, log, h :: Reaches(d, carried, log, h) ==> LineWords(d, items * CarriedItems(h)) <= w
  }

  lemma ReachesBefore(d: Draft, carried: Inventory, log: seq<Event>, h: Holdings) returns (before: Holdings)
    requires log != [] && Reaches(d, carried, log, h)
    ensures Reaches(d, carried, log[..|log| - 1], before)
    ensures var move := MoveOf(log[|log| - 1]);
            if move.None? then h == before else Apply(before, move.value) == Some(h)
  {
    before := RunLedger(Compile(d), Genesis(Compile(d), carried), log[..|log| - 1]).value.holdings;
  }

  /** A recipe record of a reachable ledger fires an authored recipe. */
  lemma FiredRecipe(d: Draft, carried: Inventory, log: seq<Event>, h: Holdings) returns (r: RecipeDefinition)
    requires StructureValid(d) && log != [] && Reaches(d, carried, log, h)
    requires MoveOf(log[|log| - 1]).Some? && MoveOf(log[|log| - 1]).value.Fire?
    ensures r in d.recipes && MoveOf(log[|log| - 1]).value == Fire(r.inputs, r.outputs)
  {
    TableEntries(d.recipes, RecipeKey);
    r := Compile(d).recipes[log[|log| - 1].kind.recipe];
  }

  /** Whoever shows an item holds at least one unit of it. */
  lemma ShownIsHeld(d: Draft, carried: Inventory, log: seq<Event>, h: Holdings, item: Id)
    requires StructureValid(d) && Reaches(d, carried, log, h) && item in CarriedItems(h)
    ensures Total(h, item) > 0
  {
    var c := Compile(d);
    GenesisPositive(d, carried);
    LineageRuns.CompiledNamed(d);
    LedgerPrefixes(c, Genesis(c, carried), log, |log|);
    assert log[..|log|] == log;
    TotalCovers(h, Player, item);
  }

  lemma AuthoredStockPositive(d: Draft)
    requires StructureValid(d)
    ensures forall n <- AuthoredNpcs(Compile(d)) :: Positive(AuthoredNpcs(Compile(d))[n])
    ensures forall b <- AuthoredStorages(Compile(d)) :: Positive(AuthoredStorages(Compile(d))[b])
  {
    TableEntries(d.npcs, NpcKey);
    TableEntries(d.storages, StorageKey);
    assert forall n <- Compile(d).npcs :: Compile(d).npcs[n] in d.npcs;
    assert forall b <- Compile(d).storages :: Compile(d).storages[b] in d.storages;
  }

  predicate Positive(inventory: Inventory) {
    forall item <- inventory :: inventory[item] > 0
  }

  lemma CombinePositive(carried: Inventory, npcs: map<Id, Inventory>, storages: map<Id, Inventory>)
    requires Positive(carried)
    requires (forall n <- npcs :: Positive(npcs[n])) && forall b <- storages :: Positive(storages[b])
    ensures NoZeroEntries(Combine(carried, npcs, storages))
  {
  }

  lemma GenesisPositive(d: Draft, carried: Inventory)
    requires StructureValid(d) && LineageRuns.AuthoredCarried(Compile(d), carried)
    ensures NoZeroEntries(Genesis(Compile(d), carried))
  {
    AuthoredStockPositive(d);
    CombinePositive(carried, AuthoredNpcs(Compile(d)), AuthoredStorages(Compile(d)));
  }

  // ---- Conservation ----

  lemma FireUnits(h: Holdings, r: RecipeDefinition, component: set<Id>)
    requires Apply(h, Fire(r.inputs, r.outputs)).Some?
    ensures SumOver(component, Totals(Apply(h, Fire(r.inputs, r.outputs)).value)) + SumOver(component, Counts(r.inputs))
         == SumOver(component, Totals(h)) + SumOver(component, Counts(r.outputs))
  {
    var next := Apply(h, Fire(r.inputs, r.outputs)).value;
    var sum: Id -> nat := item => Total(h, item) + Count(r.outputs, item);
    forall item | item in component ensures sum(item) == Totals(next)(item) + Counts(r.inputs)(item) {
      ApplyConserves(h, Fire(r.inputs, r.outputs), item);
    }
    SumAdd(component, Totals(next), Counts(r.inputs), sum);
    SumAdd(component, Totals(h), Counts(r.outputs), sum);
  }

  lemma TransferUnits(h: Holdings, move: Move, component: set<Id>)
    requires move.Transfer? && Apply(h, move).Some?
    ensures SumOver(component, Totals(Apply(h, move).value)) == SumOver(component, Totals(h))
  {
    forall item | item in component ensures Totals(Apply(h, move).value)(item) == Totals(h)(item) {
      ApplyConserves(h, move, item);
    }
    SumSame(component, Totals(Apply(h, move).value), Totals(h));
  }

  lemma RecipeUnits(d: Draft, r: RecipeDefinition, component: set<Id>)
    requires Closed(d, component) && Conserved(d, component) && r in d.recipes
    ensures SumOver(component, Counts(r.outputs)) <= SumOver(component, Counts(r.inputs))
  {
    if Touches(r, component) {
      SumExtend(r.inputs.Keys, component, Counts(r.inputs));
      SumExtend(r.outputs.Keys, component, Counts(r.outputs));
    } else {
      SumZero(component, Counts(r.outputs));
    }
  }

  /** In a closed component whose recipes do not grow, total units never exceed the authored genesis bound. */
  lemma {:induction false} UnitsNeverGrow(d: Draft, carried: Inventory, log: seq<Event>, h: Holdings, component: set<Id>)
    requires StructureValid(d) && Closed(d, component) && Conserved(d, component)
    requires Reaches(d, carried, log, h)
    ensures SumOver(component, Totals(h)) <= GenesisUnits(d, component)
    decreases |log|
  {
    if log == [] {
      GenesisUnitsBound(d, carried, component);
    } else {
      var before := ReachesBefore(d, carried, log, h);
      UnitsNeverGrow(d, carried, log[..|log| - 1], before, component);
      var move := MoveOf(log[|log| - 1]);
      if move.Some? {
        if move.value.Fire? {
          var r := FiredRecipe(d, carried, log, h);
          FireUnits(before, r, component);
          RecipeUnits(d, r, component);
        } else {
          TransferUnits(before, move.value, component);
        }
      }
    }
  }

  /** The lines shown for a component are no more than it has units for. */
  lemma ShownFitsSlots(d: Draft, carried: Inventory, log: seq<Event>, h: Holdings, component: set<Id>)
    requires StructureValid(d) && Closed(d, component) && Reaches(d, carried, log, h)
    ensures |component * CarriedItems(h)| <= Slots(d, component)
  {
    hide StructureValid, Reaches, Closed, Conserved, SumOver, GenesisUnits, CarriedItems;
    var shown := component * CarriedItems(h);
    SubsetSize(shown, component);
    if Conserved(d, component) {
      UnitsNeverGrow(d, carried, log, h, component);
      forall item | item in shown ensures Totals(h)(item) > 0 {
        ShownIsHeld(d, carried, log, h, item);
      }
      SumCounts(shown, Totals(h));
      SumSubset(shown, component, Totals(h));
    }
  }

  /** The conservation bound is sound for every run. */
  lemma ConservationSound(d: Draft, component: set<Id>)
    requires StructureValid(d) && Closed(d, component)
    ensures Bounds(d, component, ConservationBound(d, component))
  {
    forall carried, log, h | Reaches(d, carried, log, h)
      ensures LineWords(d, component * CarriedItems(h)) <= ConservationBound(d, component)
    {
      ShownFitsSlots(d, carried, log, h, component);
      TopCostsBound(component * CarriedItems(h), component, LineCost(d.labels.items), Slots(d, component));
    }
  }

  lemma {:induction false} SubsetSize(s: set<Id>, t: set<Id>)
    requires s <= t
    ensures |s| <= |t|
    decreases |s|
  {
    if s != {} {
      var x := Least(s);
      SubsetSize(s - {x}, t - {x});
    }
  }
}
